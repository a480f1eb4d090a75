# Certificate assembler of certitagui, in Dafny

certitagui fills a PDF form template (a sanitary transport certificate of the municipality of
Itagüí, laid out over four pages) from a submitted request record. The code does not fix the
page count: it checks that each page it touches exists. `generar_certificado` in `app.py`:

1. derives a few identifiers from the request:
   - the transport type split over two lines;
   - an acta number (`YYYYMMDD` + plate);
   - an inspection number (five random digits + plate);
   - the acta date (`DD/MM/YYYY`);
   - the signature date (day, Spanish month name, year);
   - the verification link.
2. builds one field set each for pages 1, 2 and 4, and writes each into its page when the
   document has that page (page 3 has no fields);
3. sets the radio buttons of page 2 (refrigeration system, vehicle class) by keyword matching
   on their lower-cased names;
4. merges an overlay carrying the link's QR code onto page 1 and carries the other pages over;
5. names the output after the plate, in the `generados` directory.

Modules, one per part of that program:

- `Wrappers`: `Option` and `Result`.
- `Text`: the Python string operations `str.split()` and `" ".join`, `lower()`, `in`,
  `replace`, `str(int)`, and zero-padded `strftime` fields, with their round trips.
- `Dates`: `datetime.strptime(s, "%Y-%m-%d")` as a partial function `ParseDate`.
- `Identifiers`: the six helper functions of `app.py:27-130`.
- `Pdf`: pages, annotations, `update_page_form_field_values` (`Fill`), and a `Writer` class
  whose page list its methods change in place.
- `FieldMapper`: the three field sets and their page-guarded application (`ApplyFieldSets`, a
  method on the writer).
- `Selectors`: the radio-button loop as an in-place method over an array of annotations,
  proved against the function `ResolveAll`.
- `Assembler`: page composition (`Compose`, a loop over a fresh writer), output naming, and
  the whole run. The run is the method `GenerateCertificate`, proved equal to the function
  `Assemble`, and `AssembleSpec` states what `Assemble` produces page by page.

Parameters stand in for what the program gets from outside:
- the random draw of `random.randint(10000, 99999)` is an argument `draw`, required to lie in
  that range;
- drawing the QR overlay is a function `render` from the link to the overlay page;
- `merge_page` is a function `merge` from two pages to one.

## Model

| member | source | states |
|---|---|---|
| Text.WordLength | app.py:32 | the length of the longest prefix without whitespace: every character before it is not whitespace, and the one at it is |
| Text.Words | app.py:32 | `str.split()` yields only non-empty words that contain no whitespace |
| Text.WordsSkipSpace | app.py:32 | leading whitespace does not create a word |
| Text.WordsOfWordThen | app.py:32 | a word followed by whitespace or by nothing is split off as the first word |
| Text.WordsOfJoin | app.py:38-39 | splitting the space-join of a list of words gives back that list |
| Text.ContainsIff | app.py:268-299 | the `in` test holds exactly when the pattern occurs at some index |
| Text.ContainsTransitive | app.py:268-270 | a string containing `t` contains every substring of `t` |
| Text.ContainsPrefix | app.py:268-270 | a string contains each of its prefixes |
| Text.Padded | app.py:55 | a zero-padded field has exactly its width and only digits |
| Text.Decimal | app.py:106-108 | `str(n)` of a natural is non-empty and all digits |
| Text.DigitRoundTrip | app.py:106-108 | a digit character reads back as the digit it was written from |
| Text.PaddedValue | app.py:55 | a number below 10^w is read back from its zero-padded rendering of width w |
| Text.PaddedOfValue | app.py:54-55 | re-padding the value of a digit string to its width gives the same string back |
| Text.DecimalValue | app.py:106-108 | `str(n)` denotes n |
| Text.DecimalOfValue | app.py:106-108 | a digit string without leading zero is `str` of the number it denotes, so `str(n)` is the only such spelling of n |
| Text.DecimalNoLeadingZero | app.py:106 | `str(n)` starts with `0` exactly when n is 0 |
| Text.DecimalLength | app.py:66-67 | `str(n)` of a number with k digits has length k |
| Dates.ParseDate | app.py:54 | an accepted date is a valid calendar date between years 1 and 9999; its text is 8 to 10 characters with four year digits and a dash, and the year is those digits |
| Dates.ParseFields | app.py:54 | about `ParseDate`: an accepted date is the one its text spells: the month is the value of the one or two digits between the dashes, and the day is what the day field after the second dash reads (one or two digits, or a space and a digit) |
| Dates.ParseTwoDigitFields | app.py:54 | about `ParseDate`: text of the shape four digits, dash, two digits, dash, two digits is read as the year those four digits denote, with the month and day read from their fields |
| Dates.ParseIsoText | app.py:54 | about `ParseDate`: every valid date is read back from its canonical `YYYY-MM-DD` spelling |
| Dates.ParseNormalises | app.py:54 | about `ParseDate`: any accepted spelling and the canonical spelling denote the same date |
| Identifiers.SplitTransportTypeSpec | app.py:27-40 | about `SplitTransportType`: empty text gives two empty lines; text of at most n words stays whole on line 1; otherwise line 1 holds the first n words, line 2 the rest, and together they hold the words of the text in order |
| Identifiers.SplitTransportTypeLong | app.py:37-40 | about `SplitTransportType`: when the text has more than n words, line 1 holds the first n words, line 2 the rest, and together they hold the words of the text in order |
| Identifiers.ActaNumberSpec | app.py:48-58 | about `ActaNumber`: a parsable date gives eight digits denoting year, month and day, followed by the plate; otherwise the acta number is the plate alone |
| Identifiers.ActaNumberCanonical | app.py:48-56 | about `ActaNumber`: every accepted spelling of a date gives the same acta number as the canonical spelling |
| Identifiers.InspectionNumberSpec | app.py:61-67 | about `InspectionNumber`: the inspection number is five digits denoting the draw, followed by the plate |
| Identifiers.ActaDateSpec | app.py:70-79 | about `ActaDate`: a parsable date gives `DD/MM/YYYY` denoting the same day, month and year; otherwise the input comes back unchanged |
| Identifiers.ActaNumberMatchesActaDate | app.py:48-79 | about `ActaNumber` and `ActaDate`: the acta number is the acta date's year, month and day, in that order, followed by the plate |
| Identifiers.MonthNamesTotal | app.py:90-103 | about `MonthNames`: the month table covers exactly months 1 to 12, each with its own name |
| Identifiers.SignatureDateSpec | app.py:82-111 | about `SignatureDate`: a parsable date gives one of the twelve month names, the day without leading zero and at most two digits long, and the year without leading zero, both denoting the date's values (so both are `str` of the value); otherwise three empty strings |
| Identifiers.SignatureDayMatchesActaDate | app.py:70-111 | about `SignatureDate` and `ActaDate`: the signature day and the acta date's day denote the same number |
| Identifiers.CertificateLinkSpec | app.py:114-130 | about `CertificateLink`: the link is the base URL, the plate, the variant unless it is `nuevo`, and `.html` |
| Identifiers.CertificateLinkInjective | app.py:127-128 | about `CertificateLink`: for new certificates, different plates give different links |
| Identifiers.CertificateLinkAmbiguous | app.py:127-130 | about `CertificateLink`: a renewal link can equal the new-certificate link of another plate, because the variant is appended without separator |
| Identifiers.CertificateLinkNewExample | app.py:473 | the documented link of a new certificate for PRY576 |
| Identifiers.CertificateLinkRenewalExample | app.py:474 | the documented link of a first renewal for PRY576 |
| Identifiers.CertificateLinkSecondRenewalExample | app.py:482 | the documented link of a second renewal for TLK235 |
| Identifiers.ParseExample | app.py:72-73 | `2026-01-20` is the twentieth of January 2026 |
| Identifiers.ActaNumberExample | app.py:50-51 | the acta number of 2026-01-20 and PRY576 is `20260120PRY576` |
| Identifiers.ActaDateExample | app.py:72-73 | the acta date of 2026-01-20 is `20/01/2026` |
| Identifiers.SignatureDateExample | app.py:84-85 | the signature date of 2026-01-20 is day `20`, month `ENERO`, year `2026` |
| Pdf.FillSpec | app.py:242 | about `Fill`: filling keeps the page's field names, annotations and content; a field named in the values takes its value, any other keeps its own |
| Pdf.FillForeign | app.py:242 | about `Fill`: values for fields the page does not have leave the page unchanged |
| Pdf.Writer.constructor | app.py:161 | a new writer has no pages |
| Pdf.Writer.Append | app.py:164 | the writer's pages become its old pages followed by the document's |
| Pdf.Writer.AddPage | app.py:342-346 | the page is added at the end and the earlier pages stay as they were |
| Pdf.Writer.UpdatePageFormFieldValues | app.py:242 | page i is replaced by its filled version and every other page stays as it was |
| Pdf.Writer.SetAnnots | app.py:273-302 | page i gets the given annotation list and every other page stays as it was |
| FieldMapper.Page1Schema | app.py:191-206 | about `Page1Fields`: page 1's field set has exactly the fourteen page-1 form fields |
| FieldMapper.Page2Schema | app.py:209-231 | about `Page2Fields`: page 2's field set has exactly the seventeen page-2 form fields |
| FieldMapper.Page4Schema | app.py:234-238 | about `Page4Fields`: page 4's field set has exactly the three signature-date fields |
| FieldMapper.PageKeysDisjoint | app.py:191-238 | no form field name belongs to two pages |
| FieldMapper.Page1CopiedFields | app.py:192-202 | about `Page1Fields`: each copied page-1 field carries its request key's text, or "" when the key is absent, and no computed field overwrites it |
| FieldMapper.Page2CopiedFields | app.py:211-225 | about `Page2Fields`: each copied page-2 field carries its request key's text (`telefonos` from `telefono`, `tipodealimento` from the unsplit `tipo_transporte`), or "" when the key is absent |
| FieldMapper.DeriveSpec | app.py:166-180 | about `Derive`: with the defaults of lines 172-174: the acta number comes from the inspection date and ends in the plate; the inspection number is five digits and the plate; the link starts with the base URL and the plate; the transport lines hold the words of the transport type; the signature day and the acta date's day denote the same number |
| FieldMapper.EmptyRequestDefaults | app.py:167-180 | about `Derive`: an empty request gives empty transport lines, acta number, acta date and signature, and the link of the empty plate |
| FieldMapper.MapRequestDraw | app.py:177-238 | about `MapRequest`: two random draws give the same page-1 and page-4 field sets, and page-2 field sets that differ at most in the value of `numero_inspeccion` |
| FieldMapper.FilledPagesSpec | app.py:240-250 | about `FilledPages`: the page count, field names, annotations and content are kept; pages other than 1, 2 and 4 are unchanged; a field value changes only on the page whose field set names it |
| FieldMapper.FilledPagesAgree | app.py:240-250 | about `FilledPages`: field sets that agree on pages 1 and 4, and on page 2 but for one field's value, give filled pages that agree everywhere but in that value on page 2 |
| FieldMapper.ApplyFieldSets | app.py:241-250 | the writer's pages become the template's pages with each field set applied to its page when that page exists |
| Selectors.ResolveSelectors | app.py:257-302 | the array afterwards holds `ResolveAll` of its old contents |
| Selectors.ResolveFrame | app.py:260-302 | about `Resolve`: only the appearance state can change; annotations that are not buttons, or whose name mentions neither category, are unchanged |
| Selectors.ClassControlsDefinite | app.py:283-302 | about `Resolve` and `ClassState`: every button of the class category ends in `/Yes` or `/Off` |
| Selectors.ClassChoiceIff | app.py:283-302 | about `Resolve` and `ClassState`: a class button is switched on exactly when the choice's keyword condition holds for its name, and off exactly when it does not |
| Selectors.CamionPrecedence | app.py:286-296 | about `Resolve` and `ClassState`: with choice CAMION a `camioneta` button is off and a button naming `camion` alone is on; with CAMIONETA it is the reverse |
| Selectors.UnknownClassAllOff | app.py:286-302 | about `Resolve` and `ClassState`: a choice outside CAMIONETA, CAMION, MOTO and OTRO turns every class button off |
| Selectors.RefrigerationNo | app.py:268-280 | about `Resolve` and `RefrigerationState`: with choice NO a refrigeration button is on exactly when its name contains `no`, and off exactly when it does not; a choice other than SI or NO turns it off |
| Selectors.RefrigerationSiActivatesAll | app.py:268-273 | about `Resolve` and `RefrigerationState`: with choice SI every refrigeration button is switched on, because the category keyword itself contains `si` |
| Selectors.ClassRuleComesLast | app.py:268-302 | about `Resolve`: a button naming both categories ends with the class rule's state |
| Selectors.ResolveAllSpec | app.py:260-302 | about `ResolveAll`: after the loop every class button holds `/Yes` or `/Off`, every annotation keeps its type and name, and non-buttons are untouched |
| Assembler.OutputFileNameSpec | app.py:349-350 | about `OutputFileName`: the output name is the plate with each space turned into `_`, followed by `.pdf`; it contains no space |
| Assembler.OutputFileNameCollision | app.py:349-351 | about `OutputFileName`: two plates get the same file name exactly when they have the same length and agree at each position up to space and `_` |
| Assembler.OutputPathSpec | app.py:351 | about `OutputPath` and `OutputFileName`: the output lies in `generados/` unless the plate starts with `/`, in which case the bare name is the path |
| Assembler.ComposedPagesSpec | app.py:338-346 | about `ComposedPages`: composition keeps the page count and order and merges only page 1 with the overlay |
| Assembler.Compose | app.py:332-346 | an empty document fails reading page 1; otherwise the new writer holds the merged page 1 followed by the other pages in order |
| Assembler.GenerateCertificate | app.py:156-365 | the in-place run (fill, resolve page 2's buttons, compose) returns exactly `Assemble` of its inputs |
| Assembler.AssembleSpec | app.py:156-365 | about `Assemble`: the run fails exactly on an empty template; otherwise: the output path comes from the plate; the page count is kept; page 1 is the filled page 1 merged with the link's overlay; page 2 is filled, with its buttons resolved; page 4 is filled; page 3 and pages after the fourth are the template's |
| Assembler.ResolvePage2Agree | app.py:257-302 | about `ResolvePage2`: the button resolver keeps a difference that is confined to a field value of page 2 confined to it |
| Assembler.ComposedPagesAgree | app.py:338-346 | about `ComposedPages`: composition keeps a difference that is confined to a field value of page 2 confined to it |
| Assembler.DrawOnlyReachesInspectionNumber | app.py:156-365 | about `Assemble`: two runs that differ only in the random draw fail together; otherwise they have the same output path and published page-1 fields, and their pages differ at most in the value of page 2's `numero_inspeccion` |
| Assembler.ExampleOutputPath | app.py:349-351 | the request for plate PRY576 is written to `generados/PRY576.pdf` |
| Assembler.ExampleIdentifiers | app.py:172-180 | that request's acta number is `20260120PRY576` and its link is `...indexPRY576.html` |

## Left out

- The QR code (`generar_qr_code`), the ReportLab canvas and `cm_to_points`: image
  rendering and floating-point geometry. They appear only as the `render` parameter, a
  function from the link to an overlay page.
- `merge_page`: the PDF content-stream merge is the `merge` parameter.
- PDF parsing and serialisation. Writing the working copy to `generados/temp_sin_qr.pdf` and
  reading it back is modelled as the identity on pages. Removing the temporary files, and any
  I/O failure, are not modelled.
- The failure modes of the PDF library are not modelled, for example a template without an
  `/AcroForm`. The one error the model reaches is reading page 1 of an empty document. The
  source catches every exception and returns `(None, message)`; the model has a single
  `MissingFirstPage` result in its place.
- Assembler.Assemble: a `Success` stands for a run whose file I/O and publication both
  succeed. In the source, `publicar_certificado_web` runs inside the same `try`, after the PDF
  is written (app.py:354-359). If publication fails, the run returns `(None, message)` with the
  output file already written and the temporary files left behind (app.py:362-368). So
  `AssembleSpec`'s "fails exactly on an empty template" describes the modelled steps, not every
  way the source can fail. Two more source failures lead to `(None, message)` (app.py:367-368)
  and are not modelled: `qr.make(fit=True)` raises when the link is too long for the largest QR
  symbol (app.py:142-150), while `render` is total; and any file or PDF error.
- Assembler.GenerateCertificate: describes one run with no other run in progress. The scratch
  files have fixed names, `generados/temp_sin_qr.pdf` and `generados/qr_overlay.pdf`
  (app.py:306, 312), and the development server started at app.py:487 serves each request in
  its own thread. Two concurrent runs can overwrite or delete each other's working copy, so the
  file one of them writes can carry the other request's pages. Treating the write and re-read of
  the working copy as the identity holds only for a run alone.
- Pdf.Page: form fields and annotations are independent parts of a page. In a PDF the fields
  are the widget annotations listed in `/Annots`, so filling a field and setting a button's
  state can touch the same objects. `Fill` changes field values even on a page without
  `/Annots`, and the resolver never sees field values.
- Indirect annotation objects: the loop changes shared PDF objects through
  `annot.get_object()`. The model copies page 2's annotations into an array, resolves them in
  place and stores them back, so aliasing between pages is not captured.
- `publicar_certificado_web`, the FTP upload, the Flask routes, the login and the user
  database (`auth.py`, `crear_usuario.py`, `init_db.py`) are not part of this model.
- `random.randint` is the `draw` argument; randomness is not modelled.
- Dates.ParseDate: the year and day fields accept ASCII digits only. `strptime`'s `%Y`
  (`\d\d\d\d`) also accepts other Unicode decimal digits in the year, and so does the second
  digit of a day that starts with 1 or 2 (`[1-2]\d`). Its month pattern is ASCII-only, as in
  the model.
- Text.Lower: lower-cases ASCII letters only. Python's `lower()` also maps non-ASCII letters,
  which can matter only for annotation names outside ASCII.
- Identifiers.ActaNumber: `%Y` is rendered with four digits, zero-padded. Some C libraries
  write years below 1000 without padding.
- Identifiers.ActaDate: the same four-digit `%Y` (app.py:77). `ActaDateSpec`'s length of 10
  depends on it for years below 1000.
- Identifiers.InspectionNumber: requires the draw to lie in 10000..99999, the range
  `randint` guarantees.
- The source holds all values as strings, so `str(...)` of a request value is the value
  itself. Non-string request values are not modelled.
