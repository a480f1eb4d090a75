/**
 * The field mapper of `generar_certificado`: three field sets built from the request record
 * (pages 1, 2 and 4; page 3 is static), and their application to the writer's pages, each
 * only when the document has that page.
 */
module FieldMapper {
  import opened Wrappers
  import opened Text
  import opened Dates
  import opened Identifiers
  import opened Pdf

  /** The request record: form keys to the submitted text. */
  type Request = map<string, string>

  /** `datos.get(key, default)`. */
  function Get(datos: Request, key: string, default: string): string {
    if key in datos then datos[key] else default
  }

  function Plate(datos: Request): string { Get(datos, "placa", "") }
  function InspectionDate(datos: Request): string { Get(datos, "fecha_inspeccion", "") }
  function Variant(datos: Request): string { Get(datos, "tipo_certificado", "nuevo") }
  function Refrigeration(datos: Request): string { Get(datos, "sistema_refrigeracion", "NO") }
  function VehicleClass(datos: Request): string { Get(datos, "clase_vehiculo", "CAMION") }

  /** The verification link of the request. */
  function LinkOf(datos: Request): string {
    CertificateLink(Plate(datos), Variant(datos))
  }

  /** The values `generar_certificado` derives from the request before it builds the field
      sets (app.py:166-180); `draw` is the random part of the inspection number. */
  datatype Derived = Derived(
    transport: TransportLines, actaNumber: string, inspectionNumber: string,
    actaDate: string, signature: SignatureParts, link: string)

  function Derive(datos: Request, draw: nat): Derived
    requires 10000 <= draw <= 99999
  {
    var plate, date := Plate(datos), InspectionDate(datos);
    Derived(
      SplitTransportType(Get(datos, "tipo_transporte", ""), 2),
      ActaNumber(date, plate), InspectionNumber(draw, plate), ActaDate(date), SignatureDate(date),
      CertificateLink(plate, Variant(datos)))
  }

  datatype FieldSets = FieldSets(page1: map<string, string>, page2: map<string, string>, page4: map<string, string>)

  /** The request fields page 1 shows as they are, keyed by form field (app.py:192-202). */
  const Page1Copies: map<string, string> := map[
    "placa" := "placa", "marca" := "marca", "modelo" := "modelo", "color" := "color",
    "capacidad" := "capacidad", "persona" := "persona", "nit" := "nit",
    "codigo_verificacion" := "codigo_verificacion", "fecha_inspeccion" := "fecha_inspeccion",
    "fecha_inspeccion2" := "fecha_inspeccion", "fecha_vencimiento" := "fecha_vencimiento"]

  /** The request fields page 2 shows as they are, keyed by form field (app.py:211-225, 230). */
  const Page2Copies: map<string, string> := map[
    "placa_2" := "placa", "marca_2" := "marca", "modelo_2" := "modelo", "color_2" := "color",
    "persona_2" := "persona", "nit_2" := "nit", "tipodealimento" := "tipo_transporte",
    "ciudad" := "ciudad", "direccion_notificacion" := "direccion_notificacion",
    "departamento" := "departamento", "telefonos" := "telefono",
    "correo_electronico" := "correo_electronico",
    "fecha_ultima_inspeccion" := "fecha_ultima_inspeccion",
    "clase_otro_especifique" := "clase_otro_especifique"]

  /** `str(datos.get(key, ""))` for every form field of a copy table. */
  function Copied(datos: Request, copies: map<string, string>): map<string, string> {
    map f | f in copies :: Get(datos, copies[f], "")
  }

  /** Lines app.py:191-206: the fields of page 1. */
  function Page1Fields(datos: Request, d: Derived): map<string, string> {
    Copied(datos, Page1Copies) + map[
      "tipodetransporte_1" := d.transport.line1,
      "tipodetransporte_2" := d.transport.line2,
      "link_certificado" := d.link]
  }

  /** Lines app.py:209-231: the fields of page 2. */
  function Page2Fields(datos: Request, d: Derived): map<string, string> {
    Copied(datos, Page2Copies) + map[
      "numero_acta" := d.actaNumber,
      "numero_inspeccion" := d.inspectionNumber,
      "fecha_acta" := d.actaDate]
  }

  /** Lines app.py:234-238: the signature date of page 4. */
  function Page4Fields(d: Derived): map<string, string> {
    map["fecha_firma_dia" := d.signature.day, "fecha_firma_mes" := d.signature.month,
        "fecha_firma_anio" := d.signature.year]
  }

  /** The three field sets of one request. */
  function MapRequest(datos: Request, draw: nat): FieldSets
    requires 10000 <= draw <= 99999
  {
    var d := Derive(datos, draw);
    FieldSets(Page1Fields(datos, d), Page2Fields(datos, d), Page4Fields(d))
  }

  /** The form fields of each page, as the template names them. */
  const Page1Keys: set<string> := {
    "placa", "marca", "modelo", "color", "capacidad", "persona", "nit", "codigo_verificacion",
    "fecha_inspeccion", "fecha_inspeccion2", "fecha_vencimiento", "tipodetransporte_1",
    "tipodetransporte_2", "link_certificado"}
  const Page2Keys: set<string> := {
    "placa_2", "marca_2", "modelo_2", "color_2", "persona_2", "nit_2", "tipodealimento", "ciudad",
    "direccion_notificacion", "departamento", "telefonos", "correo_electronico",
    "fecha_ultima_inspeccion", "numero_acta", "numero_inspeccion", "fecha_acta",
    "clase_otro_especifique"}
  const Page4Keys: set<string> := {"fecha_firma_dia", "fecha_firma_mes", "fecha_firma_anio"}

  /** Page 1's field set has exactly page 1's fields. */
  lemma Page1Schema(datos: Request, d: Derived)
    ensures Page1Fields(datos, d).Keys == Page1Keys
  {
  }

  /** Page 2's field set has exactly page 2's fields. */
  lemma Page2Schema(datos: Request, d: Derived)
    ensures Page2Fields(datos, d).Keys == Page2Keys
  {
  }

  /** Page 4's field set has exactly page 4's fields. */
  lemma Page4Schema(d: Derived)
    ensures Page4Fields(d).Keys == Page4Keys
  {
  }

  /** No field name is shared by two pages, so a field set never reaches another page's field. */
  lemma PageKeysDisjoint()
    ensures Page1Keys !! Page2Keys && Page1Keys !! Page4Keys && Page2Keys !! Page4Keys
  {
  }

  /** Page 1's copied fields carry the request's text, or "" when the key is absent; the
      values page 1 computes do not overwrite them. */
  lemma Page1CopiedFields(datos: Request, d: Derived)
    ensures forall f :: f in Page1Copies ==> f in Page1Fields(datos, d) && Page1Fields(datos, d)[f] == Get(datos, Page1Copies[f], "")
    ensures forall f :: f in Page1Copies && Page1Copies[f] !in datos ==> Page1Fields(datos, d)[f] == ""
  {
    assert Page1Copies.Keys !! {"tipodetransporte_1", "tipodetransporte_2", "link_certificado"};
  }

  /** Page 2's copied fields carry the request's text, or "" when the key is absent; the
      values page 2 computes do not overwrite them. */
  lemma Page2CopiedFields(datos: Request, d: Derived)
    ensures forall f :: f in Page2Copies ==> f in Page2Fields(datos, d) && Page2Fields(datos, d)[f] == Get(datos, Page2Copies[f], "")
    ensures forall f :: f in Page2Copies && Page2Copies[f] !in datos ==> Page2Fields(datos, d)[f] == ""
  {
    assert Page2Copies.Keys !! {"numero_acta", "numero_inspeccion", "fecha_acta"};
  }

  /** The derived values of one request agree with the fields they come from: the acta number
      is built from the inspection date and ends in the plate, the inspection number is five
      digits and the plate, the link names the plate, the two transport lines hold the words
      of the transport type, and the signature day is the acta date's day. */
  lemma DeriveSpec(datos: Request, draw: nat)
    requires 10000 <= draw <= 99999
    ensures var d, plate, date := Derive(datos, draw), Plate(datos), InspectionDate(datos);
      d.actaNumber == ActaNumber(date, plate) && EndsWith(d.actaNumber, plate)
      && |d.inspectionNumber| == 5 + |plate| && AllDigits(d.inspectionNumber[..5]) && d.inspectionNumber[5..] == plate
      && StartsWith(d.link, BaseUrl + plate)
    ensures var d, whole := Derive(datos, draw), Get(datos, "tipo_transporte", "");
      if |Words(whole)| <= 2 then d.transport == TransportLines(whole, "")
      else Words(d.transport.line1) + Words(d.transport.line2) == Words(whole)
    ensures var d := Derive(datos, draw);
      ParseDate(InspectionDate(datos)).Some? ==>
        |d.actaDate| == 10 && AllDigits(d.actaDate[..2]) && AllDigits(d.signature.day)
        && Value(d.signature.day) == Value(d.actaDate[..2])
  {
    var plate, date := Plate(datos), InspectionDate(datos);
    ActaNumberSpec(date, plate);
    InspectionNumberSpec(draw, plate);
    CertificateLinkSpec(plate, Variant(datos));
    var l := Derive(datos, draw).link;
    assert l[..|BaseUrl + plate|] == BaseUrl + plate;
    SplitTransportTypeSpec(Get(datos, "tipo_transporte", ""), 2);
    if ParseDate(date).Some? {
      ActaDateSpec(date);
      SignatureDayMatchesActaDate(date);
    }
  }

  /** An empty request: copied fields are "", the acta number is the empty plate, the signature
      date is empty and the link is the new-certificate page of the empty plate. */
  lemma EmptyRequestDefaults(draw: nat)
    requires 10000 <= draw <= 99999
    ensures var d := Derive(map[], draw);
      d.actaNumber == "" && d.signature == SignatureParts("", "", "") && d.link == BaseUrl + ".html"
      && d.transport == TransportLines("", "") && d.actaDate == ""
  {
  }

  /** Replacing the middle entry of a three-entry extension is updating the extended map. */
  lemma ExtendUpdate(m: map<string, string>, k1: string, v1: string, k2: string, v2: string,
                     k3: string, v3: string, w: string)
    requires k2 != k3
    ensures m + map[k1 := v1, k2 := w, k3 := v3] == (m + map[k1 := v1, k2 := v2, k3 := v3])[k2 := w]
  {
  }

  /** The random draw reaches only the inspection number: two draws give the same page-1 and
      page-4 field sets, and page-2 field sets that differ at most in `numero_inspeccion`. */
  lemma MapRequestDraw(datos: Request, draw1: nat, draw2: nat)
    requires 10000 <= draw1 <= 99999 && 10000 <= draw2 <= 99999
    ensures var a, b := MapRequest(datos, draw1), MapRequest(datos, draw2);
      a.page1 == b.page1 && a.page4 == b.page4 && "numero_inspeccion" in a.page2
      && b.page2 == a.page2["numero_inspeccion" := b.page2["numero_inspeccion"]]
  {
    var d1, d2 := Derive(datos, draw1), Derive(datos, draw2);
    assert d1.transport == d2.transport && d1.link == d2.link && d1.signature == d2.signature;
    assert d1.actaNumber == d2.actaNumber && d1.actaDate == d2.actaDate;
    ExtendUpdate(Copied(datos, Page2Copies), "numero_acta", d1.actaNumber,
                 "numero_inspeccion", d1.inspectionNumber, "fecha_acta", d1.actaDate, d2.inspectionNumber);
  }

  // ---------------------------------------------------------------- applying the field sets

  /** The field set for the page at index `i`: pages 1, 2 and 4; none for the others. */
  function FieldSetFor(i: nat, fs: FieldSets): Option<map<string, string>> {
    if i == 0 then Some(fs.page1) else if i == 1 then Some(fs.page2) else if i == 3 then Some(fs.page4) else None
  }

  /** The pages after each field set was applied to its page. */
  function FilledPages(pages: seq<Page>, fs: FieldSets): seq<Page> {
    seq(|pages|, i requires 0 <= i < |pages| =>
      match FieldSetFor(i, fs)
      case Some(m) => Fill(pages[i], m)
      case None => pages[i])
  }

  /** Filling keeps the number of pages, every page's field names, annotations and content;
      pages other than 1, 2 and 4 stay as they were; and a field value changes only on the page
      whose field set names it. */
  lemma FilledPagesSpec(pages: seq<Page>, fs: FieldSets)
    ensures var r := FilledPages(pages, fs);
      |r| == |pages|
      && (forall i :: 0 <= i < |pages| ==>
            r[i].fields.Keys == pages[i].fields.Keys && r[i].annots == pages[i].annots && r[i].content == pages[i].content)
      && (forall i :: 0 <= i < |pages| && i != 0 && i != 1 && i != 3 ==> r[i] == pages[i])
      && (forall i, f :: 0 <= i < |pages| && f in pages[i].fields && r[i].fields[f] != pages[i].fields[f] ==>
            FieldSetFor(i, fs).Some? && f in FieldSetFor(i, fs).value)
  {
    var r := FilledPages(pages, fs);
    forall i | 0 <= i < |pages|
      ensures r[i].fields.Keys == pages[i].fields.Keys
      ensures r[i].annots == pages[i].annots && r[i].content == pages[i].content
    {
      if FieldSetFor(i, fs).Some? {
        FillSpec(pages[i], FieldSetFor(i, fs).value);
      }
    }
  }

  /** Field sets that agree on pages 1 and 4, and on page 2 everywhere but at `key`, give filled
      pages that agree everywhere but in the value of page 2's field `key`. */
  lemma FilledPagesAgree(pages: seq<Page>, fs1: FieldSets, fs2: FieldSets, key: string, v: string)
    requires fs1.page1 == fs2.page1 && fs1.page4 == fs2.page4 && fs2.page2 == fs1.page2[key := v]
    ensures |FilledPages(pages, fs1)| == |pages|
    ensures SameBut(FilledPages(pages, fs1), FilledPages(pages, fs2), 1, key)
  {
    if |pages| >= 2 {
      FillSpec(pages[1], fs1.page2);
      FillSpec(pages[1], fs2.page2);
    }
  }

  /** Lines app.py:241-250: each field set goes to its page when the writer has that page. */
  method ApplyFieldSets(w: Writer, fs: FieldSets)
    modifies w
    ensures w.pages == FilledPages(old(w.pages), fs)
  {
    ghost var before := w.pages;
    if |w.pages| >= 1 {
      w.UpdatePageFormFieldValues(0, fs.page1);
    }
    if |w.pages| >= 2 {
      w.UpdatePageFormFieldValues(1, fs.page2);
    }
    if |w.pages| >= 4 {
      w.UpdatePageFormFieldValues(3, fs.page4);
    }
    assert |w.pages| == |before|;
    assert forall i :: 0 <= i < |before| ==> w.pages[i] == FilledPages(before, fs)[i];
  }
}
