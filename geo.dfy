/**
 * Cross-section properties (TStiffGeo.py): the area and the second moment of
 * area of a rectangular or circular section, computed once at construction.
 * The constant pi is a parameter, so nothing numeric is claimed about it.
 */
module StiffGeo {
  import opened Outcomes

  /** The section descriptor: a shape family and its dimensions, or an unrecognised name. */
  datatype SectionType =
    | Rectangle(base: real, height: real)
    | Circular(radius: real)
    | Unrecognised(name: string)

  /** A section with the area and inertia derived from its descriptor (`None` when unrecognised). */
  datatype Section = Section(sectionType: SectionType, area: Option<real>, inertia: Option<real>)

  function CalcArea(st: SectionType, pi: real): (r: Option<real>)
    ensures r.None? <==> st.Unrecognised?
  {
    match st
    case Rectangle(base, height) => Some(base * height)
    case Circular(radius) => Some(pi * (radius * radius))
    case Unrecognised(_) => None
  }

  function CalcInertia(st: SectionType, pi: real): (r: Option<real>)
    ensures r.None? <==> st.Unrecognised?
  {
    match st
    case Rectangle(base, height) => Some(base * (height * height * height) / 12.0)
    case Circular(radius) => Some(pi * (radius * radius * radius * radius) / 4.0)
    case Unrecognised(_) => None
  }

  /** Construction: both properties are derived from the descriptor, and both are absent together. */
  function NewSection(st: SectionType, pi: real): (s: Section)
    ensures s.sectionType == st
    ensures s.area.Some? <==> !st.Unrecognised?
    ensures s.inertia.Some? <==> s.area.Some?
  {
    Section(st, CalcArea(st, pi), CalcInertia(st, pi))
  }

  /** A rectangle's inertia is its area times height squared over twelve. */
  lemma RectangleInertiaFromArea(base: real, height: real, pi: real)
    ensures CalcInertia(Rectangle(base, height), pi).value
         == CalcArea(Rectangle(base, height), pi).value * (height * height) / 12.0
  {
    assert base * (height * height * height) == (base * height) * (height * height);
  }

  /** A circle's inertia is its area times radius squared over four. */
  lemma CircleInertiaFromArea(radius: real, pi: real)
    ensures CalcInertia(Circular(radius), pi).value
         == CalcArea(Circular(radius), pi).value * (radius * radius) / 4.0
  {
    assert pi * (radius * radius * radius * radius) == (pi * (radius * radius)) * (radius * radius);
  }

  /** Positive dimensions (and a positive pi) give a positive area and inertia. */
  lemma PositiveSection(st: SectionType, pi: real)
    requires st.Rectangle? ==> st.base > 0.0 && st.height > 0.0
    requires st.Circular? ==> st.radius > 0.0 && pi > 0.0
    requires !st.Unrecognised?
    ensures CalcArea(st, pi).value > 0.0 && CalcInertia(st, pi).value > 0.0
  {
    match st
    case Rectangle(base, height) =>
      var h2 := MulPositive(height, height);
      var h3 := MulPositive(h2, height);
      var a := MulPositive(base, height);
      var i := MulPositive(base, h3);
    case Circular(radius) =>
      var r2 := MulPositive(radius, radius);
      var r3 := MulPositive(r2, radius);
      var r4 := MulPositive(r3, radius);
      var a := MulPositive(pi, r2);
      var i := MulPositive(pi, r4);
  }

  lemma MulPositive(x: real, y: real) returns (p: real)
    requires x > 0.0 && y > 0.0
    ensures p == x * y && p > 0.0
  {
    p := x * y;
  }
}
