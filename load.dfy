/**
 * Equivalent nodal loads (TStiffLoad.py): the six local end forces and
 * moments [N1, V1, M1, N2, V2, M2] of a uniform load over a span or of a
 * concentrated transverse force at distances a and b from the two nodes,
 * computed once when the load is built.
 */
module StiffLoad {
  import opened Outcomes
  import opened RealPowers

  /** The load descriptor: a named pattern with its parameters. */
  datatype LoadType =
    | UniformLoad(load: real, length: real)
    | NodalForce(force: real, a: real, b: real)
    | UndefinedLoad(name: string)

  /** Why no vector is produced: an unknown pattern name, or a nodal force whose a + b is zero (a division by zero). */
  datatype LoadError = UndefinedLoadType(name: string) | ZeroSpan

  /** A load and the equivalent nodal force vector stored for it. */
  datatype Load = Load(loadType: LoadType, reactionForces: seq<real>)

  /** The closed-form fixed-end vectors; axial components are always zero. */
  function CalcReactionForces(lt: LoadType): (r: Result<seq<real>, LoadError>)
    ensures r.Success? ==> |r.value| == 6 && r.value[0] == 0.0 && r.value[3] == 0.0
    ensures r.Failure? <==> lt.UndefinedLoad? || (lt.NodalForce? && lt.a + lt.b == 0.0)
  {
    match lt
    case UniformLoad(q, l) =>
      Success([0.0, q * l / 2.0, q * (l * l) / 12.0, 0.0, q * l / 2.0, -q * (l * l) / 12.0])
    case NodalForce(p, a, b) =>
      var l := a + b;
      if l == 0.0 then Failure(ZeroSpan)
      else
        NonZeroPowers(l);
        Success([0.0, p * Square(b) * (3.0 * a + b) / Cube(l), p * a * Square(b) / Square(l),
                 0.0, p * Square(a) * (a + 3.0 * b) / Cube(l), -p * Square(a) * b / Square(l)])
    case UndefinedLoad(name) => Failure(UndefinedLoadType(name))
  }

  /** Building a load computes its vector once and stores it; an undefined pattern builds nothing. */
  function NewLoad(lt: LoadType): (r: Result<Load, LoadError>)
    ensures r.Success? ==> r.value.loadType == lt && Constructed(r.value)
    ensures r.Failure? <==> CalcReactionForces(lt).Failure?
  {
    match CalcReactionForces(lt)
    case Success(v) => Success(Load(lt, v))
    case Failure(e) => Failure(e)
  }

  /** The load's stored vector is the one its descriptor yields. */
  predicate Constructed(ld: Load) {
    CalcReactionForces(ld.loadType) == Success(ld.reactionForces)
  }

  /** The total transverse force a load applies to the span. */
  function TransverseTotal(lt: LoadType): real {
    match lt
    case UniformLoad(q, l) => q * l
    case NodalForce(p, _, _) => p
    case UndefinedLoad(_) => 0.0
  }

  /** The moment of the applied load about the first node. */
  function MomentAboutFirstNode(lt: LoadType): real {
    match lt
    case UniformLoad(q, l) => q * l * l / 2.0
    case NodalForce(p, a, _) => p * a
    case UndefinedLoad(_) => 0.0
  }

  /**
   * Static equilibrium of a uniform load: the two shear forces add up to q*l,
   * the end moments are equal and opposite, and the end forces balance the
   * load's moment about the first node.
   */
  lemma UniformLoadEquilibrium(q: real, l: real)
    ensures var r := CalcReactionForces(UniformLoad(q, l)).value;
      && r[1] + r[4] == TransverseTotal(UniformLoad(q, l))
      && r[1] == r[4]
      && r[2] == -r[5]
      && r[4] * l + r[2] + r[5] == MomentAboutFirstNode(UniformLoad(q, l))
  {
  }

  /**
   * Static equilibrium of a concentrated force: the two shear forces add up to P
   * and the end forces balance the moment P*a about the first node.
   */
  lemma NodalForceEquilibrium(p: real, a: real, b: real)
    requires a + b != 0.0
    ensures var r := CalcReactionForces(NodalForce(p, a, b)).value;
      && r[1] + r[4] == TransverseTotal(NodalForce(p, a, b))
      && r[4] * (a + b) + r[2] + r[5] == MomentAboutFirstNode(NodalForce(p, a, b))
  {
    NodalForceShearBalance(p, a, b);
    NodalForceMomentBalance(p, a, b);
  }

  /** The shear forces of a concentrated force add up to P, because b^2 (3a + b) + a^2 (a + 3b) = (a + b)^3. */
  lemma NodalForceShearBalance(p: real, a: real, b: real)
    requires a + b != 0.0
    ensures var r := CalcReactionForces(NodalForce(p, a, b)).value;
      r[1] + r[4] == p
  {
    var l := a + b;
    NonZeroPowers(l);
    CubeIdentity(p, a, b);
    ShearSum(p * Square(b) * (3.0 * a + b), p * Square(a) * (a + 3.0 * b), Cube(l), p);
  }

  /** The end forces of a concentrated force balance its moment P*a about the first node. */
  lemma NodalForceMomentBalance(p: real, a: real, b: real)
    requires a + b != 0.0
    ensures var r := CalcReactionForces(NodalForce(p, a, b)).value;
      r[4] * (a + b) + r[2] + r[5] == p * a
  {
    var l := a + b;
    var x4, x2, x5 := p * Square(a) * (a + 3.0 * b), p * a * Square(b), -p * Square(a) * b;
    NonZeroPowers(l);
    assert x4 + x2 + x5 == p * a * Square(l) by {
      SquareIdentity(p, a, b);
    }
    MomentSum(x4, x2, x5, l, Square(l), Cube(l), p * a);
  }

  /** The shear part of the equilibrium, with the numerators and the denominator as plain values. */
  lemma ShearSum(x1: real, x4: real, l3: real, p: real)
    requires l3 != 0.0 && x1 + x4 == p * l3
    ensures x1 / l3 + x4 / l3 == p
  {
    DivMul(x1, l3);
    DivMul(x4, l3);
    assert (x1 / l3 + x4 / l3) * l3 == p * l3;
    Cancel(x1 / l3 + x4 / l3, p, l3);
  }

  /** The moment part of the equilibrium, with the numerators, the span and its powers as plain values. */
  lemma MomentSum(x4: real, x2: real, x5: real, l: real, l2: real, l3: real, m: real)
    requires l2 != 0.0 && l3 == l2 * l && l3 != 0.0 && x4 + x2 + x5 == m * l2
    ensures x4 / l3 * l + x2 / l2 + x5 / l2 == m
  {
    DivMul(x4, l3);
    DivMul(x2, l2);
    DivMul(x5, l2);
    var v := x4 / l3;
    assert v * l * l2 == v * l3;
    assert (v * l + x2 / l2 + x5 / l2) * l2 == x4 + x2 + x5;
    Cancel(v * l + x2 / l2 + x5 / l2, m, l2);
  }

  lemma CubeIdentity(p: real, a: real, b: real)
    ensures p * Square(b) * (3.0 * a + b) + p * Square(a) * (a + 3.0 * b) == p * Cube(a + b)
  {
  }

  lemma SquareIdentity(p: real, a: real, b: real)
    ensures p * Square(a) * (a + 3.0 * b) + p * a * Square(b) + -p * Square(a) * b == p * a * Square(a + b)
  {
  }

  /** A force at the first node (a = 0) sits wholly on that node: the vector is [0, P, 0, 0, 0, 0]. */
  lemma NodalForceAtFirstNode(p: real, b: real)
    requires b != 0.0
    ensures CalcReactionForces(NodalForce(p, 0.0, b)).value == [0.0, p, 0.0, 0.0, 0.0, 0.0]
  {
    var r := CalcReactionForces(NodalForce(p, 0.0, b)).value;
    NonZeroPowers(b);
    assert Cube(0.0 + b) == Cube(b);
    assert p * Square(b) * (3.0 * 0.0 + b) == p * Cube(b);
    DivMul(p * Cube(b), Cube(b));
    Cancel(p * Cube(b) / Cube(b), p, Cube(b));
    assert r[1] == p;
  }

  /** Mirroring the force position (swapping a and b) mirrors the vector end for end, with moments changing sign. */
  lemma NodalForceMirror(p: real, a: real, b: real)
    requires a + b != 0.0
    ensures var r := CalcReactionForces(NodalForce(p, a, b)).value;
      CalcReactionForces(NodalForce(p, b, a)).value == [0.0, r[4], -r[5], 0.0, r[1], -r[2]]
  {
    MirrorShear(p, a, b);
    MirrorShear(p, b, a);
    MirrorMoment(p, a, b);
    MirrorMoment(p, b, a);
  }

  /** Swapping a and b exchanges the two shear forces. */
  lemma MirrorShear(p: real, a: real, b: real)
    requires a + b != 0.0
    ensures CalcReactionForces(NodalForce(p, b, a)).value[1] == CalcReactionForces(NodalForce(p, a, b)).value[4]
  {
    NonZeroPowers(a + b);
    assert Cube(b + a) == Cube(a + b);
    assert p * Square(a) * (3.0 * b + a) == p * Square(a) * (a + 3.0 * b);
  }

  /** Swapping a and b exchanges the two end moments and changes their sign. */
  lemma MirrorMoment(p: real, a: real, b: real)
    requires a + b != 0.0
    ensures CalcReactionForces(NodalForce(p, b, a)).value[2] == -CalcReactionForces(NodalForce(p, a, b)).value[5]
  {
    NonZeroPowers(a + b);
    var d := Square(a + b);
    assert Square(b + a) == d;
    NegDiv(p * Square(a) * b, d);
    assert -p * Square(a) * b == -(p * Square(a) * b);
    assert p * b * Square(a) == p * Square(a) * b;
  }

  lemma NegDiv(x: real, d: real)
    requires d != 0.0
    ensures (-x) / d == -(x / d)
  {
  }
}
