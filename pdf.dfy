/**
 * The part of the PDF document model the assembler touches. A page carries its named text
 * form fields with their values, its interactive annotations when it has an `/Annots` entry,
 * and an opaque content stream. A writer holds its pages and changes them in place.
 */
module Pdf {
  import opened Wrappers

  /** An annotation dictionary: its `/FT` field type, `/T` name and `/AS` appearance state,
      each possibly absent. */
  datatype Annot = Annot(ft: Option<string>, name: Option<string>, appearance: Option<string>)

  datatype Page = Page(fields: map<string, string>, annots: Option<seq<Annot>>, content: seq<char>)

  /** `update_page_form_field_values(page, values)`: every field of the page that `values`
      names takes that value; fields the page does not have are ignored. */
  function Fill(p: Page, values: map<string, string>): Page {
    p.(fields := map f | f in p.fields :: if f in values then values[f] else p.fields[f])
  }

  /** Filling changes only the values of the page's own fields, and only those `values` names. */
  lemma FillSpec(p: Page, values: map<string, string>)
    ensures Fill(p, values).fields.Keys == p.fields.Keys
    ensures Fill(p, values).annots == p.annots && Fill(p, values).content == p.content
    ensures forall f :: f in p.fields && f in values ==> Fill(p, values).fields[f] == values[f]
    ensures forall f :: f in p.fields && f !in values ==> Fill(p, values).fields[f] == p.fields[f]
  {
  }

  /** Values for fields the page does not have leave it untouched. */
  lemma FillForeign(p: Page, values: map<string, string>)
    requires values.Keys !! p.fields.Keys
    ensures Fill(p, values) == p
  {
    var q := Fill(p, values);
    assert q.fields == p.fields;
  }

  /** Two page lists that are equal but for the value of field `key` on the page at index `i`. */
  predicate SameBut(ps: seq<Page>, qs: seq<Page>, i: nat, key: string) {
    && |ps| == |qs|
    && (forall j :: 0 <= j < |ps| && j != i ==> ps[j] == qs[j])
    && (i < |ps| ==>
          ps[i].annots == qs[i].annots && ps[i].content == qs[i].content
          && ps[i].fields.Keys == qs[i].fields.Keys
          && forall f :: f in ps[i].fields && f != key ==> ps[i].fields[f] == qs[i].fields[f])
  }

  /** A `PdfWriter`: the pages it will write, changed in place. */
  class Writer {
    var pages: seq<Page>

    /** `PdfWriter()`. */
    constructor ()
      ensures pages == []
    {
      pages := [];
    }

    /** `writer.append(reader)`: append the pages of a document. */
    method Append(doc: seq<Page>)
      modifies this
      ensures pages == old(pages) + doc
    {
      pages := pages + doc;
    }

    /** `writer.add_page(page)`. */
    method AddPage(p: Page)
      modifies this
      ensures pages == old(pages) + [p]
    {
      pages := pages + [p];
    }

    /** `writer.update_page_form_field_values(writer.pages[i], values)`. */
    method UpdatePageFormFieldValues(i: nat, values: map<string, string>)
      requires i < |pages|
      modifies this
      ensures pages == old(pages)[i := Fill(old(pages)[i], values)]
    {
      pages := pages[i := Fill(pages[i], values)];
    }

    /** Store back the annotations of page `i` after they were changed. */
    method SetAnnots(i: nat, annots: seq<Annot>)
      requires i < |pages|
      modifies this
      ensures pages == old(pages)[i := old(pages)[i].(annots := Some(annots))]
    {
      pages := pages[i := pages[i].(annots := Some(annots))];
    }
  }
}
