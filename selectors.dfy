/**
 * The radio-button resolver of `generar_certificado` (app.py:252-302): on page 2, every
 * button annotation whose lower-cased name mentions a selector category has its appearance
 * state set to `/Yes` or `/Off` from the request's choice for that category.
 */
module Selectors {
  import opened Wrappers
  import opened Text
  import opened Pdf

  const On := "/Yes"
  const Off := "/Off"

  predicate IsButton(a: Annot) {
    a.ft == Some("/Btn")
  }

  /** `str(annot.get("/T", "")).lower()`. */
  function LowerName(a: Annot): string {
    Lower(a.name.GetOr(""))
  }

  /** The refrigeration rule for a control whose lower-cased name is `n`. */
  function RefrigerationState(n: string, choice: string): string {
    if Contains(n, "si") && choice == "SI" then On
    else if Contains(n, "no") && choice == "NO" then On
    else Off
  }

  /** The vehicle-class rule: `camioneta` is tested before `camion`, and a `camion` control
      must not also mention `camioneta`. */
  function ClassState(n: string, choice: string): string {
    if Contains(n, "camioneta") && choice == "CAMIONETA" then On
    else if Contains(n, "camion") && !Contains(n, "camioneta") && choice == "CAMION" then On
    else if Contains(n, "moto") && choice == "MOTO" then On
    else if Contains(n, "otro") && choice == "OTRO" then On
    else Off
  }

  /** One pass of the loop body over one annotation: the refrigeration rule, then the class
      rule, each applied when the name mentions its category. */
  function Resolve(a: Annot, refrigeration: string, vehicleClass: string): Annot {
    if !IsButton(a) then a
    else
      var n := LowerName(a);
      var a1 := if Contains(n, "sistema_refrigeracion") then a.(appearance := Some(RefrigerationState(n, refrigeration))) else a;
      if Contains(n, "clase") then a1.(appearance := Some(ClassState(n, vehicleClass))) else a1
  }

  /** The whole annotation list after the loop. */
  function ResolveAll(annots: seq<Annot>, refrigeration: string, vehicleClass: string): seq<Annot> {
    seq(|annots|, i requires 0 <= i < |annots| => Resolve(annots[i], refrigeration, vehicleClass))
  }

  /** Lines app.py:260-302: the loop, changing each annotation in place. */
  method ResolveSelectors(annots: array<Annot>, refrigeration: string, vehicleClass: string)
    modifies annots
    ensures annots[..] == ResolveAll(old(annots[..]), refrigeration, vehicleClass)
  {
    for i := 0 to annots.Length
      invariant forall j :: 0 <= j < i ==> annots[j] == Resolve(old(annots[j]), refrigeration, vehicleClass)
      invariant forall j :: i <= j < annots.Length ==> annots[j] == old(annots[j])
    {
      var a := annots[i];
      if a.ft == Some("/Btn") {
        var nombre := Lower(a.name.GetOr(""));
        if Contains(nombre, "sistema_refrigeracion") {
          if Contains(nombre, "si") && refrigeration == "SI" {
            a := a.(appearance := Some(On));
          } else if Contains(nombre, "no") && refrigeration == "NO" {
            a := a.(appearance := Some(On));
          } else {
            a := a.(appearance := Some(Off));
          }
        }
        if Contains(nombre, "clase") {
          if Contains(nombre, "camioneta") && vehicleClass == "CAMIONETA" {
            a := a.(appearance := Some(On));
          } else if Contains(nombre, "camion") && !Contains(nombre, "camioneta") && vehicleClass == "CAMION" {
            a := a.(appearance := Some(On));
          } else if Contains(nombre, "moto") && vehicleClass == "MOTO" {
            a := a.(appearance := Some(On));
          } else if Contains(nombre, "otro") && vehicleClass == "OTRO" {
            a := a.(appearance := Some(On));
          } else {
            a := a.(appearance := Some(Off));
          }
        }
        annots[i] := a;
      }
    }
  }

  // ---------------------------------------------------------------- what the resolver promises

  /** Only the appearance state can change, and only on button annotations that mention a
      category; annotations that are not buttons come through unchanged. */
  lemma ResolveFrame(a: Annot, refrigeration: string, vehicleClass: string)
    ensures var r := Resolve(a, refrigeration, vehicleClass);
      r.ft == a.ft && r.name == a.name
      && (!IsButton(a) ==> r == a)
      && (!Contains(LowerName(a), "sistema_refrigeracion") && !Contains(LowerName(a), "clase") ==> r == a)
  {
  }

  /** Every button of the class category ends in `/Yes` or `/Off`, whatever it held before. */
  lemma ClassControlsDefinite(a: Annot, refrigeration: string, vehicleClass: string)
    requires IsButton(a) && Contains(LowerName(a), "clase")
    ensures Resolve(a, refrigeration, vehicleClass).appearance in {Some(On), Some(Off)}
  {
  }

  /** Which class control the choice activates, as a table of keyword conditions. */
  predicate ClassSelected(n: string, choice: string) {
    || (choice == "CAMIONETA" && Contains(n, "camioneta"))
    || (choice == "CAMION" && Contains(n, "camion") && !Contains(n, "camioneta"))
    || (choice == "MOTO" && Contains(n, "moto"))
    || (choice == "OTRO" && Contains(n, "otro"))
  }

  /** A class control is switched on exactly when the choice's keyword condition holds for it,
      and off otherwise. */
  lemma ClassChoiceIff(a: Annot, refrigeration: string, vehicleClass: string)
    requires IsButton(a) && Contains(LowerName(a), "clase")
    ensures Resolve(a, refrigeration, vehicleClass).appearance == Some(On) <==> ClassSelected(LowerName(a), vehicleClass)
    ensures Resolve(a, refrigeration, vehicleClass).appearance == Some(Off) <==> !ClassSelected(LowerName(a), vehicleClass)
  {
  }

  /** The specific keyword wins: with choice `CAMION` a `camioneta` control is off and a
      control naming `camion` but not `camioneta` is on; with `CAMIONETA` it is the reverse. */
  lemma CamionPrecedence(a: Annot, refrigeration: string)
    requires IsButton(a) && Contains(LowerName(a), "clase") && Contains(LowerName(a), "camion")
    ensures Contains(LowerName(a), "camioneta") ==>
      Resolve(a, refrigeration, "CAMION").appearance == Some(Off)
      && Resolve(a, refrigeration, "CAMIONETA").appearance == Some(On)
    ensures !Contains(LowerName(a), "camioneta") ==>
      Resolve(a, refrigeration, "CAMION").appearance == Some(On)
      && Resolve(a, refrigeration, "CAMIONETA").appearance == Some(Off)
  {
  }

  /** A choice outside the enumeration turns every class control off. */
  lemma UnknownClassAllOff(a: Annot, refrigeration: string, vehicleClass: string)
    requires IsButton(a) && Contains(LowerName(a), "clase")
    requires vehicleClass !in {"CAMIONETA", "CAMION", "MOTO", "OTRO"}
    ensures Resolve(a, refrigeration, vehicleClass).appearance == Some(Off)
  {
  }

  /** A refrigeration control (one that is not also a class control): with choice `NO` it is
      on exactly when its name contains `no`; with a choice other than `SI` or `NO` it is off. */
  lemma RefrigerationNo(a: Annot, refrigeration: string, vehicleClass: string)
    requires IsButton(a) && Contains(LowerName(a), "sistema_refrigeracion") && !Contains(LowerName(a), "clase")
    ensures refrigeration == "NO" ==>
      (Resolve(a, refrigeration, vehicleClass).appearance == Some(On) <==> Contains(LowerName(a), "no"))
    ensures refrigeration == "NO" ==>
      (Resolve(a, refrigeration, vehicleClass).appearance == Some(Off) <==> !Contains(LowerName(a), "no"))
    ensures refrigeration != "SI" && refrigeration != "NO" ==>
      Resolve(a, refrigeration, vehicleClass).appearance == Some(Off)
  {
  }

  /** With choice `SI` every refrigeration control is switched on, the `no` one included:
      the category keyword `sistema_refrigeracion` itself contains `si`. */
  lemma RefrigerationSiActivatesAll(a: Annot, vehicleClass: string)
    requires IsButton(a) && Contains(LowerName(a), "sistema_refrigeracion") && !Contains(LowerName(a), "clase")
    ensures Resolve(a, "SI", vehicleClass).appearance == Some(On)
  {
    var n := LowerName(a);
    ContainsPrefix("sistema_refrigeracion", "si");
    ContainsTransitive(n, "sistema_refrigeracion", "si");
  }

  /** A button naming both categories ends with the class rule's state: the class test comes
      second in the loop body. */
  lemma ClassRuleComesLast(a: Annot, refrigeration: string, vehicleClass: string)
    requires IsButton(a) && Contains(LowerName(a), "sistema_refrigeracion") && Contains(LowerName(a), "clase")
    ensures Resolve(a, refrigeration, vehicleClass).appearance == Some(ClassState(LowerName(a), vehicleClass))
  {
  }

  /** After the loop, every class button of the list holds `/Yes` or `/Off`, every other
      annotation keeps its type and name, and annotations that are not buttons are untouched. */
  lemma ResolveAllSpec(annots: seq<Annot>, refrigeration: string, vehicleClass: string)
    ensures var r := ResolveAll(annots, refrigeration, vehicleClass);
      (forall i :: 0 <= i < |annots| && IsButton(annots[i]) && Contains(LowerName(annots[i]), "clase") ==>
         r[i].appearance in {Some(On), Some(Off)})
      && (forall i :: 0 <= i < |annots| ==> r[i].ft == annots[i].ft && r[i].name == annots[i].name)
      && (forall i :: 0 <= i < |annots| && !IsButton(annots[i]) ==> r[i] == annots[i])
  {
    forall i | 0 <= i < |annots| && IsButton(annots[i]) && Contains(LowerName(annots[i]), "clase")
      ensures ResolveAll(annots, refrigeration, vehicleClass)[i].appearance in {Some(On), Some(Off)}
    {
      ClassControlsDefinite(annots[i], refrigeration, vehicleClass);
    }
  }

}
