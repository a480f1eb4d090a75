/**
 * The document assembler `generar_certificado`: fill the working copy of the template,
 * resolve page 2's radio buttons, merge the verification-code overlay onto page 1, carry the
 * other pages over in order, and name the output after the plate.
 */
module Assembler {
  import opened Wrappers
  import opened Text
  import opened Pdf
  import opened FieldMapper
  import opened Selectors

  /** The one fatal error the model can reach: reading page 1 of a document without pages. */
  datatype AssemblyError = MissingFirstPage

  // ---------------------------------------------------------------- output naming

  const OutputDir := "generados"

  /** Lines app.py:349-350: the plate with spaces turned into underscores, plus `.pdf`. */
  function OutputFileName(plate: string): string {
    ReplaceChar(plate, ' ', '_') + ".pdf"
  }

  /** The output name keeps every character of the plate but spaces, which become `_`; it has
      no space and ends in `.pdf`. */
  lemma OutputFileNameSpec(plate: string)
    ensures var r := OutputFileName(plate);
      |r| == |plate| + 4 && EndsWith(r, ".pdf")
      && (forall i :: 0 <= i < |r| ==> r[i] != ' ')
      && (forall i :: 0 <= i < |plate| ==> r[i] == if plate[i] == ' ' then '_' else plate[i])
  {
    var r := OutputFileName(plate);
    assert r[|r| - 4..] == ".pdf";
  }

  /** Two plates get the same output name exactly when they agree up to spaces and
      underscores; the later certificate then overwrites the earlier one. */
  lemma OutputFileNameCollision(p: string, q: string)
    ensures OutputFileName(p) == OutputFileName(q) <==>
      |p| == |q| && forall i :: 0 <= i < |p| ==> (p[i] == q[i] || (p[i] in {' ', '_'} && q[i] in {' ', '_'}))
  {
    OutputFileNameSpec(p);
    OutputFileNameSpec(q);
    var a, b := OutputFileName(p), OutputFileName(q);
    if |p| == |q| && forall i :: 0 <= i < |p| ==> (p[i] == q[i] || (p[i] in {' ', '_'} && q[i] in {' ', '_'})) {
      assert forall i :: 0 <= i < |a| ==> a[i] == b[i] by {
        forall i | 0 <= i < |a| ensures a[i] == b[i] {
          if i >= |p| {
            assert a[i] == ".pdf"[i - |p|] == b[i];
          }
        }
      }
    }
    if a == b {
      assert |p| == |q|;
      forall i | 0 <= i < |p| ensures p[i] == q[i] || (p[i] in {' ', '_'} && q[i] in {' ', '_'}) {
        assert a[i] == b[i];
      }
    }
  }

  /** `os.path.join("generados", name)`: a name that starts with `/` replaces the directory. */
  function OutputPath(name: string): string {
    if StartsWith(name, "/") then name else OutputDir + "/" + name
  }

  /** The output lies in the output directory unless the plate starts with `/`. */
  lemma OutputPathSpec(plate: string)
    ensures !StartsWith(plate, "/") ==> OutputPath(OutputFileName(plate)) == "generados/" + OutputFileName(plate)
    ensures StartsWith(plate, "/") ==> OutputPath(OutputFileName(plate)) == OutputFileName(plate)
  {
    var n := OutputFileName(plate);
    OutputFileNameSpec(plate);
    assert OutputDir + "/" + n == "generados/" + n;
    if |plate| > 0 {
      assert n[0] == '/' <==> plate[0] == '/';
    } else {
      assert n == ".pdf" && n[0] == '.';
    }
  }

  // ---------------------------------------------------------------- overlay merge

  /** The final page list: page 1 merged with the overlay, then pages 2..n as they were. */
  function ComposedPages(pages: seq<Page>, overlay: Page, merge: (Page, Page) -> Page): seq<Page>
    requires |pages| > 0
  {
    [merge(pages[0], overlay)] + pages[1..]
  }

  /** Composition keeps the page count and order, and merges only page 1. */
  lemma ComposedPagesSpec(pages: seq<Page>, overlay: Page, merge: (Page, Page) -> Page)
    requires |pages| > 0
    ensures var r := ComposedPages(pages, overlay, merge);
      |r| == |pages| && r[0] == merge(pages[0], overlay)
      && forall i :: 1 <= i < |pages| ==> r[i] == pages[i]
  {
  }

  /** Lines app.py:332-346: a fresh writer receives the merged page 1 and then, one by one,
      the other pages. */
  method Compose(pages: seq<Page>, overlay: Page, merge: (Page, Page) -> Page)
    returns (r: Result<seq<Page>, AssemblyError>)
    ensures |pages| == 0 ==> r == Failure(MissingFirstPage)
    ensures |pages| > 0 ==> r == Success(ComposedPages(pages, overlay, merge))
  {
    if |pages| == 0 {
      return Failure(MissingFirstPage);
    }
    var finalWriter := new Writer();
    var page1 := merge(pages[0], overlay);
    finalWriter.AddPage(page1);
    for i := 1 to |pages|
      invariant finalWriter.pages == [page1] + pages[1..i]
    {
      finalWriter.AddPage(pages[i]);
    }
    assert pages[1..|pages|] == pages[1..];
    return Success(finalWriter.pages);
  }

  // ---------------------------------------------------------------- the whole run

  /** The pages after the resolver ran on page 2, when there is a page 2 with `/Annots`. */
  function ResolvePage2(pages: seq<Page>, refrigeration: string, vehicleClass: string): seq<Page> {
    if |pages| >= 2 && pages[1].annots.Some? then
      pages[1 := pages[1].(annots := Some(ResolveAll(pages[1].annots.value, refrigeration, vehicleClass)))]
    else pages
  }

  /** What a successful run hands back: the output path, the final pages and the page-1 field
      set that goes to publication. */
  datatype Certificate = Certificate(path: string, pages: seq<Page>, page1Fields: map<string, string>)

  /** The run as a function of the request, the template pages, the random draw, the overlay
      renderer (verification link to overlay page) and the page merge. */
  function Assemble(datos: Request, template: seq<Page>, draw: nat,
                    render: string -> Page, merge: (Page, Page) -> Page): Result<Certificate, AssemblyError>
    requires 10000 <= draw <= 99999
  {
    var fs := MapRequest(datos, draw);
    var filled := FilledPages(template, fs);
    var resolved := ResolvePage2(filled, Refrigeration(datos), VehicleClass(datos));
    if |resolved| == 0 then Failure(MissingFirstPage)
    else Success(Certificate(OutputPath(OutputFileName(Plate(datos))),
                             ComposedPages(resolved, render(LinkOf(datos)), merge), fs.page1))
  }

  /** Lines app.py:156-365 without the I/O: the working copy is filled page by page, page 2's
      buttons are resolved in place, and the final writer is built from the result. */
  method GenerateCertificate(datos: Request, template: seq<Page>, draw: nat,
                             render: string -> Page, merge: (Page, Page) -> Page)
    returns (r: Result<Certificate, AssemblyError>)
    requires 10000 <= draw <= 99999
    ensures r == Assemble(datos, template, draw, render, merge)
  {
    var writer := new Writer();
    writer.Append(template);
    assert writer.pages == template;
    var d := Derive(datos, draw);
    var fs := FieldSets(Page1Fields(datos, d), Page2Fields(datos, d), Page4Fields(d));
    ApplyFieldSets(writer, fs);
    var refrigeration, vehicleClass := Refrigeration(datos), VehicleClass(datos);
    if |writer.pages| >= 2 && writer.pages[1].annots.Some? {
      var list := writer.pages[1].annots.value;
      var annots := new Annot[|list|](i requires 0 <= i < |list| => list[i]);
      assert annots[..] == list;
      ResolveSelectors(annots, refrigeration, vehicleClass);
      writer.SetAnnots(1, annots[..]);
    }
    var composed := Compose(writer.pages, render(d.link), merge);
    match composed {
      case Failure(e) =>
        r := Failure(e);
      case Success(pages) =>
        r := Success(Certificate(OutputPath(OutputFileName(Plate(datos))), pages, fs.page1));
    }
  }

  /** The run fails exactly when the template has no pages. Otherwise the output is named after
      the plate; it has the template's page count; page 1 is the filled page 1 merged with the
      overlay of the request's link; page 2 is the filled page 2 with its buttons resolved;
      page 4 is the filled page 4; page 3 and every page after the fourth are the template's. */
  lemma AssembleSpec(datos: Request, template: seq<Page>, draw: nat, render: string -> Page, merge: (Page, Page) -> Page)
    requires 10000 <= draw <= 99999
    ensures Assemble(datos, template, draw, render, merge).Failure? <==> |template| == 0
    ensures |template| > 0 ==>
      var c, fs := Assemble(datos, template, draw, render, merge).value, MapRequest(datos, draw);
      c.path == OutputPath(OutputFileName(Plate(datos))) && c.page1Fields == fs.page1
      && |c.pages| == |template|
      && c.pages[0] == merge(Fill(template[0], fs.page1), render(LinkOf(datos)))
      && (|template| >= 2 ==>
            c.pages[1].fields == Fill(template[1], fs.page2).fields
            && c.pages[1].content == template[1].content
            && c.pages[1].annots == (if template[1].annots.Some?
                 then Some(ResolveAll(template[1].annots.value, Refrigeration(datos), VehicleClass(datos)))
                 else None))
      && (|template| >= 4 ==> c.pages[3] == Fill(template[3], fs.page4))
      && (forall i :: 2 <= i < |template| && i != 3 ==> c.pages[i] == template[i])
  {
    var fs := MapRequest(datos, draw);
    var filled := FilledPages(template, fs);
    FilledPagesSpec(template, fs);
    var resolved := ResolvePage2(filled, Refrigeration(datos), VehicleClass(datos));
    if |template| > 0 {
      ComposedPagesSpec(resolved, render(LinkOf(datos)), merge);
      if |template| >= 2 {
        FillSpec(template[1], fs.page2);
      }
    }
  }

  /** The resolver treats two page lists that differ only in a field value of page 2 alike. */
  lemma ResolvePage2Agree(ps: seq<Page>, qs: seq<Page>, key: string, refrigeration: string, vehicleClass: string)
    requires SameBut(ps, qs, 1, key)
    ensures SameBut(ResolvePage2(ps, refrigeration, vehicleClass), ResolvePage2(qs, refrigeration, vehicleClass), 1, key)
  {
  }

  /** Composition keeps a difference confined to a field value of page 2. */
  lemma ComposedPagesAgree(ps: seq<Page>, qs: seq<Page>, key: string, overlay: Page, merge: (Page, Page) -> Page)
    requires |ps| > 0 && SameBut(ps, qs, 1, key)
    ensures SameBut(ComposedPages(ps, overlay, merge), ComposedPages(qs, overlay, merge), 1, key)
  {
    ComposedPagesSpec(ps, overlay, merge);
    ComposedPagesSpec(qs, overlay, merge);
  }

  /** Two runs on the same request and template that differ only in the random draw fail
      together; otherwise they agree on the output path and the published page-1 fields, and
      their pages agree everywhere but in the value of page 2's field `numero_inspeccion`. */
  lemma DrawOnlyReachesInspectionNumber(datos: Request, template: seq<Page>, draw1: nat, draw2: nat,
                                        render: string -> Page, merge: (Page, Page) -> Page)
    requires 10000 <= draw1 <= 99999 && 10000 <= draw2 <= 99999
    ensures var r1, r2 := Assemble(datos, template, draw1, render, merge), Assemble(datos, template, draw2, render, merge);
      (r1.Failure? <==> r2.Failure?)
      && (r1.Success? ==>
            r1.value.path == r2.value.path && r1.value.page1Fields == r2.value.page1Fields
            && SameBut(r1.value.pages, r2.value.pages, 1, "numero_inspeccion"))
  {
    var fs1, fs2 := MapRequest(datos, draw1), MapRequest(datos, draw2);
    MapRequestDraw(datos, draw1, draw2);
    FilledPagesAgree(template, fs1, fs2, "numero_inspeccion", fs2.page2["numero_inspeccion"]);
    var f1, f2 := FilledPages(template, fs1), FilledPages(template, fs2);
    var rf, c := Refrigeration(datos), VehicleClass(datos);
    ResolvePage2Agree(f1, f2, "numero_inspeccion", rf, c);
    var p1 := ResolvePage2(f1, rf, c);
    if |p1| > 0 {
      ComposedPagesAgree(p1, ResolvePage2(f2, rf, c), "numero_inspeccion", render(LinkOf(datos)), merge);
    }
  }

  /** The documented request: plate PRY576 inspected on 2026-01-20, a new certificate,
      refrigeration `NO` and class `CAMION`. */
  const ExampleRequest: Request := map[
    "placa" := "PRY576", "fecha_inspeccion" := "2026-01-20", "tipo_certificado" := "nuevo",
    "sistema_refrigeracion" := "NO", "clase_vehiculo" := "CAMION"]

  /** The documented request's output path. */
  lemma ExampleOutputPath()
    ensures OutputPath(OutputFileName(Plate(ExampleRequest))) == "generados/PRY576.pdf"
  {
    var plate := Plate(ExampleRequest);
    assert plate == "PRY576";
    var name := OutputFileName(plate);
    assert name == "PRY576.pdf" && name[0] == 'P';
    OutputPathSpec(plate);
  }

  /** The documented request's acta number and verification link. */
  lemma ExampleIdentifiers(draw: nat)
    requires 10000 <= draw <= 99999
    ensures Derive(ExampleRequest, draw).actaNumber == "20260120PRY576"
    ensures Derive(ExampleRequest, draw).link == "https://itaguigov-com.us.stackstaging.com/indexPRY576.html"
  {
    assert Plate(ExampleRequest) == "PRY576";
    assert InspectionDate(ExampleRequest) == "2026-01-20";
    assert Variant(ExampleRequest) == "nuevo";
    Identifiers.ActaNumberExample("2026-01-20", "PRY576");
    Identifiers.CertificateLinkNewExample();
  }
}
