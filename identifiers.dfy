/**
 * The identifiers and formatted strings derived from a certificate request: the two-line
 * transport type, the acta and inspection numbers, the acta and signature dates and the
 * verification link (app.py, `dividir_tipo_transporte` to `generar_link_certificado`).
 */
module Identifiers {
  import opened Wrappers
  import opened Text
  import opened Dates

  // ---------------------------------------------------------------- transport type

  datatype TransportLines = TransportLines(line1: string, line2: string)

  /** `dividir_tipo_transporte(text, n)`: the first `n` words on line 1, the rest on line 2. */
  function SplitTransportType(text: string, n: nat): TransportLines {
    if text == [] then TransportLines("", "")
    else
      var ws := Words(text);
      if |ws| <= n then TransportLines(text, "")
      else TransportLines(JoinWords(ws[..n]), JoinWords(ws[n..]))
  }

  /** Empty text gives two empty lines; short text stays whole on line 1; longer text is split
      after `n` words, and the words of the two lines are the words of the text, in order. */
  lemma SplitTransportTypeSpec(text: string, n: nat)
    ensures text == [] ==> SplitTransportType(text, n) == TransportLines("", "")
    ensures |Words(text)| <= n ==> SplitTransportType(text, n) == TransportLines(text, "")
    ensures |Words(text)| > n ==>
      var r := SplitTransportType(text, n);
      Words(r.line1) == Words(text)[..n] && Words(r.line2) == Words(text)[n..]
      && Words(r.line1) + Words(r.line2) == Words(text)
  {
    if text != [] && |Words(text)| > n {
      SplitTransportTypeLong(text, n);
    }
  }

  /** The split branch of `SplitTransportTypeSpec`. */
  lemma SplitTransportTypeLong(text: string, n: nat)
    requires text != [] && |Words(text)| > n
    ensures var r := SplitTransportType(text, n);
      Words(r.line1) == Words(text)[..n] && Words(r.line2) == Words(text)[n..]
      && Words(r.line1) + Words(r.line2) == Words(text)
  {
    var ws := Words(text);
    var head, tail := ws[..n], ws[n..];
    var r := SplitTransportType(text, n);
    assert r.line1 == JoinWords(head) && r.line2 == JoinWords(tail);
    assert forall k :: 0 <= k < |head| ==> IsWord(head[k]) by {
      forall k | 0 <= k < |head| ensures IsWord(head[k]) {
        assert head[k] == ws[k];
      }
    }
    assert forall k :: 0 <= k < |tail| ==> IsWord(tail[k]) by {
      forall k | 0 <= k < |tail| ensures IsWord(tail[k]) {
        assert tail[k] == ws[n + k];
      }
    }
    WordsOfJoin(head);
    WordsOfJoin(tail);
    assert Words(r.line1) == head && Words(r.line2) == tail;
    TakeDrop(ws, n);
  }

  // ---------------------------------------------------------------- acta and inspection numbers

  /** `strftime("%Y%m%d")`. */
  function CompactDate(d: Date): string {
    Padded(d.year, 4) + Padded(d.month, 2) + Padded(d.day, 2)
  }

  /** `generar_numero_acta`: `YYYYMMDD` followed by the plate, or the plate alone when the
      date does not parse. */
  function ActaNumber(date: string, plate: string): string {
    match ParseDate(date)
    case Some(d) => CompactDate(d) + plate
    case None => plate
  }

  /** For a parsable date the acta number is eight digits spelling year, month and day,
      then the plate; otherwise it is exactly the plate. */
  lemma ActaNumberSpec(date: string, plate: string)
    ensures ParseDate(date).None? ==> ActaNumber(date, plate) == plate
    ensures ParseDate(date).Some? ==>
      var r, d := ActaNumber(date, plate), ParseDate(date).value;
      |r| == 8 + |plate| && AllDigits(r[..8]) && r[8..] == plate
      && Value(r[..4]) == d.year && Value(r[4..6]) == d.month && Value(r[6..8]) == d.day
  {
    if ParseDate(date).Some? {
      var d := ParseDate(date).value;
      var r := ActaNumber(date, plate);
      assert r[..4] == Padded(d.year, 4);
      assert r[4..6] == Padded(d.month, 2);
      assert r[6..8] == Padded(d.day, 2);
      assert r[..8] == CompactDate(d);
      PaddedValue(d.year, 4);
      PaddedValue(d.month, 2);
      PaddedValue(d.day, 2);
    }
  }

  /** Identical inputs give identical acta numbers, and the canonical spelling of a date gives
      the same acta number as any other accepted spelling of it. */
  lemma ActaNumberCanonical(date: string, plate: string)
    requires ParseDate(date).Some?
    ensures ActaNumber(IsoText(ParseDate(date).value), plate) == ActaNumber(date, plate)
  {
    ParseNormalises(date);
  }

  /** `generar_numero_inspeccion` with the random draw `draw` of `randint(10000, 99999)`. */
  function InspectionNumber(draw: nat, plate: string): string
    requires 10000 <= draw <= 99999
  {
    Decimal(draw) + plate
  }

  /** The inspection number is exactly five digits spelling the draw, then the plate. */
  lemma InspectionNumberSpec(draw: nat, plate: string)
    requires 10000 <= draw <= 99999
    ensures var r := InspectionNumber(draw, plate);
      |r| == 5 + |plate| && AllDigits(r[..5]) && Value(r[..5]) == draw && r[5..] == plate
  {
    assert Pow10(4) == 10000 && Pow10(5) == 100000;
    DecimalLength(draw, 5);
    DecimalValue(draw);
    var r := InspectionNumber(draw, plate);
    assert r[..5] == Decimal(draw);
  }

  // ---------------------------------------------------------------- dates for the form

  /** `convertir_fecha_formato_acta`: `DD/MM/YYYY`, or the input unchanged. */
  function ActaDate(date: string): string {
    match ParseDate(date)
    case Some(d) => Padded(d.day, 2) + "/" + Padded(d.month, 2) + "/" + Padded(d.year, 4)
    case None => date
  }

  /** For a parsable date the acta date is `DD/MM/YYYY` spelling the same day, month and year;
      otherwise the input comes back unchanged. */
  lemma ActaDateSpec(date: string)
    ensures ParseDate(date).None? ==> ActaDate(date) == date
    ensures ParseDate(date).Some? ==>
      var r, d := ActaDate(date), ParseDate(date).value;
      |r| == 10 && r[2] == '/' && r[5] == '/'
      && AllDigits(r[..2]) && AllDigits(r[3..5]) && AllDigits(r[6..])
      && Value(r[..2]) == d.day && Value(r[3..5]) == d.month && Value(r[6..]) == d.year
  {
    if ParseDate(date).Some? {
      var d := ParseDate(date).value;
      var r := ActaDate(date);
      assert r[..2] == Padded(d.day, 2);
      assert r[3..5] == Padded(d.month, 2);
      assert r[6..] == Padded(d.year, 4);
      PaddedValue(d.year, 4);
      PaddedValue(d.month, 2);
      PaddedValue(d.day, 2);
    }
  }

  /** The acta number is the acta date's fields in reverse order, followed by the plate. */
  lemma ActaNumberMatchesActaDate(date: string, plate: string)
    requires ParseDate(date).Some?
    ensures var a := ActaDate(date);
      ActaNumber(date, plate) == a[6..] + a[3..5] + a[..2] + plate
  {
    var d := ParseDate(date).value;
    var a := ActaDate(date);
    assert a[..2] == Padded(d.day, 2);
    assert a[3..5] == Padded(d.month, 2);
    assert a[6..] == Padded(d.year, 4);
  }

  datatype SignatureParts = SignatureParts(day: string, month: string, year: string)

  /** The month names of `convertir_fecha_formato_firma`. */
  const MonthNames: map<nat, string> := map[
    1 := "ENERO", 2 := "FEBRERO", 3 := "MARZO", 4 := "ABRIL", 5 := "MAYO", 6 := "JUNIO",
    7 := "JULIO", 8 := "AGOSTO", 9 := "SEPTIEMBRE", 10 := "OCTUBRE", 11 := "NOVIEMBRE",
    12 := "DICIEMBRE"]

  /** The month table covers exactly the months 1 to 12, with a different name for each. */
  lemma MonthNamesTotal()
    ensures forall m: nat :: m in MonthNames <==> 1 <= m <= 12
    ensures forall m: nat, k: nat :: m in MonthNames && k in MonthNames && m != k ==> MonthNames[m] != MonthNames[k]
  {
  }

  /** `convertir_fecha_formato_firma`: day and year as `str(int)`, the month by name, or three
      empty strings when the date does not parse. */
  function SignatureDate(date: string): SignatureParts {
    match ParseDate(date)
    case Some(d) => SignatureParts(Decimal(d.day), MonthNames[d.month], Decimal(d.year))
    case None => SignatureParts("", "", "")
  }

  /** A parsable date always yields one of the twelve month names, a day without leading zero
      that denotes the day and a year that denotes the year; otherwise all three are empty. */
  lemma SignatureDateSpec(date: string)
    ensures ParseDate(date).None? ==> SignatureDate(date) == SignatureParts("", "", "")
    ensures ParseDate(date).Some? ==>
      var r, d := SignatureDate(date), ParseDate(date).value;
      r.month in MonthNames.Values && r.month == MonthNames[d.month]
      && AllDigits(r.day) && Value(r.day) == d.day && r.day[0] != '0' && |r.day| <= 2
      && AllDigits(r.year) && Value(r.year) == d.year && r.year[0] != '0'
  {
    if ParseDate(date).Some? {
      var d := ParseDate(date).value;
      DecimalValue(d.day);
      DecimalValue(d.year);
      DecimalNoLeadingZero(d.day);
      DecimalNoLeadingZero(d.year);
      if d.day < 10 {
        DecimalLength(d.day, 1);
      } else {
        DecimalLength(d.day, 2);
      }
    }
  }

  /** The three date renderings agree on the day: the signature day is the acta date's day
      without its zero padding. */
  lemma SignatureDayMatchesActaDate(date: string)
    requires ParseDate(date).Some?
    ensures var a := ActaDate(date);
      AllDigits(a[..2]) && Value(SignatureDate(date).day) == Value(a[..2])
  {
    ActaDateSpec(date);
    SignatureDateSpec(date);
  }

  // ---------------------------------------------------------------- verification link

  const BaseUrl := "https://itaguigov-com.us.stackstaging.com/index"

  /** `generar_link_certificado`. */
  function CertificateLink(plate: string, variant: string): string {
    if variant == "nuevo" then BaseUrl + plate + ".html" else BaseUrl + plate + variant + ".html"
  }

  /** The link starts with the base URL and ends in `.html`; between them stand the plate and,
      unless the variant is `nuevo`, the variant verbatim. */
  lemma CertificateLinkSpec(plate: string, variant: string)
    ensures var r := CertificateLink(plate, variant);
      StartsWith(r, BaseUrl) && EndsWith(r, ".html")
      && r[|BaseUrl|..|r| - 5] == plate + (if variant == "nuevo" then "" else variant)
  {
    var r := CertificateLink(plate, variant);
    var mid := plate + (if variant == "nuevo" then "" else variant);
    assert r == BaseUrl + mid + ".html";
    assert r[..|BaseUrl|] == BaseUrl;
    assert r[|r| - 5..] == ".html";
    assert r[|BaseUrl|..|r| - 5] == mid;
  }

  /** For new certificates the link determines the plate. */
  lemma CertificateLinkInjective(p: string, q: string)
    requires CertificateLink(p, "nuevo") == CertificateLink(q, "nuevo")
    ensures p == q
  {
    CertificateLinkSpec(p, "nuevo");
    CertificateLinkSpec(q, "nuevo");
    assert p + "" == p && q + "" == q;
  }

  /** The variant is appended without separator, so a renewal link can coincide with the new
      certificate link of another plate. */
  lemma CertificateLinkAmbiguous()
    ensures CertificateLink("PRY576", "remo") == CertificateLink("PRY576remo", "nuevo")
  {
  }

  /** The documented link of a new certificate. */
  lemma CertificateLinkNewExample()
    ensures CertificateLink("PRY576", "nuevo") == "https://itaguigov-com.us.stackstaging.com/indexPRY576.html"
  {
  }

  /** The documented link of a first renewal. */
  lemma CertificateLinkRenewalExample()
    ensures CertificateLink("PRY576", "remo") == "https://itaguigov-com.us.stackstaging.com/indexPRY576remo.html"
  {
  }

  /** The documented link of a second renewal. */
  lemma CertificateLinkSecondRenewalExample()
    ensures CertificateLink("TLK235", "remo2") == "https://itaguigov-com.us.stackstaging.com/indexTLK235remo2.html"
  {
  }

  /** The numbers the digit strings of 2026-01-20 denote. */
  lemma ExampleValues()
    ensures Value("2026") == 2026 && Value("01") == 1 && Value("20") == 20
  {
    assert "2"[..0] == "" && "0"[..0] == "";
    assert "20"[..1] == "2" && "01"[..1] == "0";
    assert "202"[..2] == "20";
    assert "2026"[..3] == "202";
    assert Value("2") == 2 && Value("0") == 0;
    assert Value("20") == 20 && Value("01") == 1;
    assert Value("202") == 202;
  }

  /** The zero-padded fields of 2026-01-20, read back from their digits. */
  lemma ExampleFields()
    ensures Padded(2026, 4) == "2026" && Padded(1, 2) == "01" && Padded(20, 2) == "20"
  {
    ExampleValues();
    PaddedOfValue("2026");
    PaddedOfValue("01");
    PaddedOfValue("20");
  }

  /** 2026-01-20 is read as the twentieth of January 2026. */
  // The literal comes in through a parameter so that the solver does not unfold it eagerly.
  lemma ParseExample(s: string)
    requires s == "2026-01-20"
    ensures ParseDate(s) == Some(Date(2026, 1, 20))
  {
    ExampleFields();
    var d := Date(2026, 1, 20);
    assert s == Padded(2026, 4) + "-" + Padded(1, 2) + "-" + Padded(20, 2);
    assert s == IsoText(d);
    ParseIsoText(d);
  }

  /** The documented acta number for 2026-01-20. */
  // The literal comes in through a parameter so that the solver does not unfold it eagerly.
  lemma ActaNumberExample(date: string, plate: string)
    requires date == "2026-01-20" && plate == "PRY576"
    ensures ActaNumber(date, plate) == "20260120PRY576"
  {
    ParseExample(date);
    ExampleFields();
    assert ActaNumber(date, plate) == Padded(2026, 4) + Padded(1, 2) + Padded(20, 2) + plate;
  }

  /** The documented acta date for 2026-01-20. */
  // The literal comes in through a parameter so that the solver does not unfold it eagerly.
  lemma ActaDateExample(date: string)
    requires date == "2026-01-20"
    ensures ActaDate(date) == "20/01/2026"
  {
    ParseExample(date);
    ExampleFields();
    assert ActaDate(date) == Padded(20, 2) + "/" + Padded(1, 2) + "/" + Padded(2026, 4);
  }

  /** The documented signature date for 2026-01-20. */
  // The literal comes in through a parameter so that the solver does not unfold it eagerly.
  lemma SignatureDateExample(date: string)
    requires date == "2026-01-20"
    ensures SignatureDate(date) == SignatureParts("20", "ENERO", "2026")
  {
    ParseExample(date);
    ExampleValues();
    DecimalOfValue("20");
    DecimalOfValue("2026");
  }
}
