/**
 * A bar element (TStiffElement.py): its two end nodes, material and section,
 * the element index drawn from a shared counter, the local load vector the
 * applied loads are superposed into, the global equation list of its six end
 * displacements, the rotation matrix and the element stiffness matrix
 * Rt * kloc * R.
 *
 * The length of the element is given (the Euclidean distance between the two
 * nodes is not modelled), and so are the direction cosines lx, ly of the
 * rotation.
 */
module StiffElement {
  import opened Seqs
  import opened RealPowers
  import opened Matrices
  import opened StiffNode
  import opened StiffMech
  import opened StiffGeo
  import opened StiffLoad

  /** The class-level counter every new element reads its index from. */
  class ElementCounter {
    var counter: int

    constructor ()
      ensures counter == 0
    {
      counter := 0;
    }

    method IncrementCounter()
      modifies this
      ensures counter == old(counter) + 1
    {
      counter := counter + 1;
    }
  }

  // ---------------------------------------------------------------------------
  // Loads: validation and superposition
  // ---------------------------------------------------------------------------

  /**
   * A load is consistent with an element of the given length unless a uniform
   * load is longer than the element or a concentrated force sits farther than
   * the element's length from the first node (a + b exceeds it); every other
   * load is accepted.
   */
  function CheckValues(length: real, lt: LoadType): (ok: bool)
    ensures !ok <==> (lt.UniformLoad? && lt.length > length) || (lt.NodalForce? && lt.a + lt.b > length)
  {
    match lt
    case UniformLoad(_, l) => !(l > length)
    case NodalForce(_, a, b) => !(a + b > length)
    case UndefinedLoad(_) => true
  }

  /** A load accepted on an element is accepted on any longer element. */
  lemma CheckValuesMonotone(length: real, longer: real, lt: LoadType)
    requires length <= longer && CheckValues(length, lt)
    ensures CheckValues(longer, lt)
  {
  }

  /** A load spanning exactly the element is accepted. */
  lemma CheckValuesExactFit(length: real, q: real, p: real, a: real)
    ensures CheckValues(length, UniformLoad(q, length))
    ensures CheckValues(length, NodalForce(p, a, length - a))
  {
  }

  function Zeros(n: nat): (z: seq<real>)
    ensures |z| == n && forall i :: 0 <= i < n ==> z[i] == 0.0
  {
    seq(n, _ => 0.0)
  }

  /** Numpy's `+=` on two vectors of the same length. */
  function VecAdd(u: seq<real>, v: seq<real>): (w: seq<real>)
    requires |u| == |v|
    ensures |w| == |u| && forall i :: 0 <= i < |u| ==> w[i] == u[i] + v[i]
  {
    seq(|u|, i requires 0 <= i < |u| => u[i] + v[i])
  }

  /** Every load carries a six-component vector. */
  predicate Sized(loads: seq<Load>) {
    forall i :: 0 <= i < |loads| ==> |loads[i].reactionForces| == 6
  }

  /** The load vector after the loads' vectors are added into base one after another. */
  function Superpose(base: seq<real>, loads: seq<Load>): (r: seq<real>)
    requires |base| == 6 && Sized(loads)
    ensures |r| == 6
    decreases |loads|
  {
    if |loads| == 0 then base
    else VecAdd(Superpose(base, loads[..|loads| - 1]), loads[|loads| - 1].reactionForces)
  }

  /** Superposing two batches of loads is superposing their concatenation. */
  lemma {:induction false} SuperposeConcat(base: seq<real>, xs: seq<Load>, ys: seq<Load>)
    requires |base| == 6 && Sized(xs) && Sized(ys)
    ensures Sized(xs + ys)
    ensures Superpose(base, xs + ys) == Superpose(Superpose(base, xs), ys)
    decreases |ys|
  {
    var zs := xs + ys;
    assert Sized(zs) by {
      forall i | 0 <= i < |zs|
        ensures |zs[i].reactionForces| == 6
      {
        if i >= |xs| {
          assert zs[i] == ys[i - |xs|];
        }
      }
    }
    if |ys| > 0 {
      var n := |ys| - 1;
      assert zs[..|zs| - 1] == xs + ys[..n];
      assert zs[|zs| - 1] == ys[n];
      SuperposeConcat(base, xs, ys[..n]);
    } else {
      assert zs == xs;
    }
  }

  /** The sum of the transverse loads of a sequence of loads. */
  function TransverseLoad(loads: seq<Load>): real
    decreases |loads|
  {
    if |loads| == 0 then 0.0
    else TransverseLoad(loads[..|loads| - 1]) + TransverseTotal(loads[|loads| - 1].loadType)
  }

  /**
   * Superposition keeps equilibrium: the axial components are untouched and the
   * two shear components grow by the total transverse load applied.
   */
  lemma {:induction false} SuperposeEquilibrium(base: seq<real>, loads: seq<Load>)
    requires |base| == 6
    requires forall i :: 0 <= i < |loads| ==> Constructed(loads[i])
    ensures Sized(loads)
    ensures var f := Superpose(base, loads);
      && f[0] == base[0] && f[3] == base[3]
      && f[1] + f[4] == base[1] + base[4] + TransverseLoad(loads)
    decreases |loads|
  {
    assert Sized(loads) by {
      forall i | 0 <= i < |loads|
        ensures |loads[i].reactionForces| == 6
      {
        assert Constructed(loads[i]);
      }
    }
    if |loads| > 0 {
      var n := |loads| - 1;
      var ld := loads[n];
      assert Constructed(ld);
      SuperposeEquilibrium(base, loads[..n]);
      var r := ld.reactionForces;
      match ld.loadType
      case UniformLoad(q, l) =>
        UniformLoadEquilibrium(q, l);
      case NodalForce(p, a, b) =>
        NodalForceEquilibrium(p, a, b);
      case UndefinedLoad(_) =>
        assert false;
    }
  }

  // ---------------------------------------------------------------------------
  // Equation lists
  // ---------------------------------------------------------------------------

  /** What the equation gathering reads of a node: its DoF list and its hinge flag. */
  datatype DofView = DofView(dof: seq<int>, hinge: bool)

  function View(n: Node): (v: DofView)
    reads n, n.dof
    ensures v.dof == n.dof[..] && v.hinge == n.hinge
  {
    DofView(n.dof[..], n.hinge)
  }

  function Views(ns: seq<Node>): (vs: seq<DofView>)
    reads ns, set n | n in ns :: n.dof
    ensures |vs| == |ns| && forall i :: 0 <= i < |ns| ==> vs[i] == View(ns[i])
    decreases |ns|
  {
    if |ns| == 0 then [] else Views(ns[..|ns| - 1]) + [View(ns[|ns| - 1])]
  }

  function Min(x: int, y: int): int {
    if x <= y then x else y
  }

  /**
   * The node slot the k-th equation of a node at the given position comes from:
   * slot k, except that a hinged first endpoint gives its hinge slot 3 in place
   * of its rotation slot 2.
   */
  function SlotOf(hinge: bool, position: int, k: int): int {
    if hinge && position == 0 && k == 2 then 3 else k
  }

  /**
   * The equations one node contributes: a hinged second endpoint its first three
   * slots, a hinged first endpoint slots 0, 1 and 3, any other node all its slots.
   */
  function NodeEquations(v: DofView, position: int): (r: seq<int>)
    requires v.hinge && position == 0 ==> |v.dof| >= 4
    ensures |r| == (if v.hinge && position == 0 then 3
                    else if v.hinge && position == 1 then Min(3, |v.dof|)
                    else |v.dof|)
    ensures forall k :: 0 <= k < |r| ==>
      (0 <= SlotOf(v.hinge, position, k) < |v.dof| && r[k] == v.dof[SlotOf(v.hinge, position, k)])
  {
    if v.hinge && position == 1 then v.dof[..Min(3, |v.dof|)]
    else if v.hinge && position == 0 then v.dof[..2] + [v.dof[3]]
    else v.dof
  }

  /** A node list whose hinged first endpoint has a hinge slot. */
  predicate Gatherable(vs: seq<DofView>) {
    |vs| > 0 && vs[0].hinge ==> |vs[0].dof| >= 4
  }

  /** The element's equation list up to node n: every node's equations, node by node. */
  function Gather(vs: seq<DofView>, n: nat): seq<int>
    requires Gatherable(vs) && n <= |vs|
    decreases n
  {
    if n == 0 then [] else Gather(vs, n - 1) + NodeEquations(vs[n - 1], n - 1)
  }

  /** Nothing is invented: every gathered equation is an entry of the DoF list of one of the first n nodes. */
  lemma {:induction false} GatherMembers(vs: seq<DofView>, n: nat, x: int)
    requires Gatherable(vs) && n <= |vs| && x in Gather(vs, n)
    ensures exists i :: 0 <= i < n && x in vs[i].dof
    decreases n
  {
    if n > 0 {
      var e := NodeEquations(vs[n - 1], n - 1);
      if x in Gather(vs, n - 1) {
        GatherMembers(vs, n - 1, x);
      } else {
        assert x in e;
        var k :| 0 <= k < |e| && e[k] == x;
        assert x in vs[n - 1].dof;
      }
    }
  }

  /** Two endpoints of three slots each, or hinged ones with a fourth slot, give six equations. */
  lemma GatherPair(v0: DofView, v1: DofView)
    requires |v0.dof| == (if v0.hinge then 4 else 3)
    requires |v1.dof| == (if v1.hinge then 4 else 3)
    ensures var g := Gather([v0, v1], 2);
      |g| == 6 && g == NodeEquations(v0, 0) + NodeEquations(v1, 1)
  {
    assert Gather([v0, v1], 1) == NodeEquations(v0, 0);
  }

  /** The place in the two DoF lists, one after the other, that the k-th gathered equation is read from. */
  function GatherPlace(v0: DofView, v1: DofView, k: int): int {
    if k < 3 then SlotOf(v0.hinge, 0, k) else |v0.dof| + SlotOf(v1.hinge, 1, k - 3)
  }

  /**
   * The six gathered equations are picked from the two DoF lists, each from a
   * different place: when the lists' entries are all different, so are the six.
   */
  lemma GatherPairSelects(v0: DofView, v1: DofView)
    requires |v0.dof| == (if v0.hinge then 4 else 3)
    requires |v1.dof| == (if v1.hinge then 4 else 3)
    ensures var g := Gather([v0, v1], 2);
      (forall k :: 0 <= k < 6 ==> g[k] in v0.dof + v1.dof) &&
      (Distinct(v0.dof + v1.dof) ==> Distinct(g))
  {
    GatherPair(v0, v1);
    var g := Gather([v0, v1], 2);
    var d := v0.dof + v1.dof;
    forall k | 0 <= k < 6
      ensures 0 <= GatherPlace(v0, v1, k) < |d| && g[k] == d[GatherPlace(v0, v1, k)]
    {
      if k < 3 {
        assert g[k] == NodeEquations(v0, 0)[k];
      } else {
        assert g[k] == NodeEquations(v1, 1)[k - 3];
      }
    }
    if Distinct(d) {
      forall k1, k2 | 0 <= k1 < k2 < 6
        ensures g[k1] != g[k2]
      {
        assert GatherPlace(v0, v1, k1) != GatherPlace(v0, v1, k2);
      }
    }
  }

  // ---------------------------------------------------------------------------
  // Stiffness and rotation matrices
  // ---------------------------------------------------------------------------

  /** The axial (truss) stiffness of a bar of axial rigidity ea and length l. */
  function TrussStiffness(ea: real, l: real): (k: Matrix)
    requires l > 0.0
    ensures IsMatrix(k)
  {
    [[ea / l, 0.0, 0.0, -ea / l, 0.0, 0.0],
     [0.0, 0.0, 0.0, 0.0, 0.0, 0.0],
     [0.0, 0.0, 0.0, 0.0, 0.0, 0.0],
     [-ea / l, 0.0, 0.0, ea / l, 0.0, 0.0],
     [0.0, 0.0, 0.0, 0.0, 0.0, 0.0],
     [0.0, 0.0, 0.0, 0.0, 0.0, 0.0]]
  }

  /** The bending (Euler-Bernoulli beam) stiffness of a bar of flexural rigidity ei and length l. */
  function BeamStiffness(ei: real, l: real): (k: Matrix)
    requires l > 0.0
    ensures IsMatrix(k)
  {
    NonZeroPowers(l);
    [[0.0, 0.0, 0.0, 0.0, 0.0, 0.0],
     [0.0, 12.0 * ei / Cube(l), 6.0 * ei / Square(l), 0.0, -12.0 * ei / Cube(l), 6.0 * ei / Square(l)],
     [0.0, 6.0 * ei / Square(l), 4.0 * ei / l, 0.0, -6.0 * ei / Square(l), 2.0 * ei / l],
     [0.0, 0.0, 0.0, 0.0, 0.0, 0.0],
     [0.0, -12.0 * ei / Cube(l), -6.0 * ei / Square(l), 0.0, 12.0 * ei / Cube(l), -6.0 * ei / Square(l)],
     [0.0, 6.0 * ei / Square(l), 2.0 * ei / l, 0.0, -6.0 * ei / Square(l), 4.0 * ei / l]]
  }

  /** The local stiffness kloc = truss + beam. */
  function LocalStiffness(ea: real, ei: real, l: real): (k: Matrix)
    requires l > 0.0
    ensures IsMatrix(k)
  {
    Add(TrussStiffness(ea, l), BeamStiffness(ei, l))
  }

  /** The local stiffness is symmetric (Maxwell-Betti reciprocity). */
  lemma LocalStiffnessSymmetric(ea: real, ei: real, l: real)
    requires l > 0.0
    ensures Symmetric(LocalStiffness(ea, ei, l))
  {
    var t := TrussStiffness(ea, l);
    var b := BeamStiffness(ei, l);
    assert Symmetric(t);
    assert Symmetric(b);
    AddSymmetric(t, b);
  }

  lemma AddSymmetric(a: Matrix, b: Matrix)
    requires Symmetric(a) && Symmetric(b)
    ensures Symmetric(Add(a, b))
  {
  }

  /** The rotation matrix of an element with direction cosines lx and ly. */
  function RotationMatrix(lx: real, ly: real): (r: Matrix)
    ensures IsMatrix(r)
  {
    [[lx, ly, 0.0, 0.0, 0.0, 0.0],
     [-ly, lx, 0.0, 0.0, 0.0, 0.0],
     [0.0, 0.0, 1.0, 0.0, 0.0, 0.0],
     [0.0, 0.0, 0.0, lx, ly, 0.0],
     [0.0, 0.0, 0.0, -ly, lx, 0.0],
     [0.0, 0.0, 0.0, 0.0, 0.0, 1.0]]
  }

  /** The element stiffness in global axes, Rt * kloc * R. */
  function Congruence(r: Matrix, k: Matrix): (c: Matrix)
    ensures IsMatrix(c)
    ensures IsMatrix(r) && Symmetric(k) ==> Symmetric(c)
  {
    if IsMatrix(r) && Symmetric(k) then
      CongruenceSymmetric(r, k);
      MatMul(MatMul(Transpose(r), k), r)
    else
      MatMul(MatMul(Transpose(r), k), r)
  }

  /** A horizontal element (lx = 1, ly = 0) has the identity as rotation matrix. */
  lemma HorizontalRotationIsIdentity()
    ensures RotationMatrix(1.0, 0.0) == Identity()
  {
    MatrixExt(RotationMatrix(1.0, 0.0), Identity());
  }

  /** With the identity as rotation matrix the element stiffness is the local stiffness. */
  lemma IdentityCongruence(k: Matrix)
    requires IsMatrix(k)
    ensures Congruence(Identity(), k) == k
  {
    TransposeIdentity();
    MatMulIdentity(k);
  }

  /** With lx^2 + ly^2 = 1 the rotation matrix is orthogonal: Rt * R is the identity. */
  lemma RotationOrthogonal(lx: real, ly: real)
    requires lx * lx + ly * ly == 1.0
    ensures MatMul(Transpose(RotationMatrix(lx, ly)), RotationMatrix(lx, ly)) == Identity()
  {
    var r := RotationMatrix(lx, ly);
    var p := MatMul(Transpose(r), r);
    forall i, j | 0 <= i < N && 0 <= j < N
      ensures p[i][j] == Identity()[i][j]
    {
      assert Row(Transpose(r), i) == Col(r, i);
      RotationColumnsDot(lx, ly, i, j);
    }
    MatrixExt(p, Identity());
  }

  /** Two columns of the rotation matrix are orthonormal. */
  lemma RotationColumnsDot(lx: real, ly: real, i: int, j: int)
    requires lx * lx + ly * ly == 1.0
    requires 0 <= i < N && 0 <= j < N
    ensures Dot(Col(RotationMatrix(lx, ly), i), Col(RotationMatrix(lx, ly), j)) == (if i == j then 1.0 else 0.0)
  {
    var r := RotationMatrix(lx, ly);
    TotalSix(Times(Col(r, i), Col(r, j)));
  }

  /** kloc written out entry by entry: the truss and beam terms added. */
  function LocalStiffnessEntries(ea: real, ei: real, l: real): (k: Matrix)
    requires l > 0.0
    ensures IsMatrix(k)
  {
    NonZeroPowers(l);
    [[ea / l, 0.0, 0.0, -ea / l, 0.0, 0.0],
     [0.0, 12.0 * ei / Cube(l), 6.0 * ei / Square(l), 0.0, -12.0 * ei / Cube(l), 6.0 * ei / Square(l)],
     [0.0, 6.0 * ei / Square(l), 4.0 * ei / l, 0.0, -6.0 * ei / Square(l), 2.0 * ei / l],
     [-ea / l, 0.0, 0.0, ea / l, 0.0, 0.0],
     [0.0, -12.0 * ei / Cube(l), -6.0 * ei / Square(l), 0.0, 12.0 * ei / Cube(l), -6.0 * ei / Square(l)],
     [0.0, 6.0 * ei / Square(l), 2.0 * ei / l, 0.0, -6.0 * ei / Square(l), 4.0 * ei / l]]
  }

  lemma LocalStiffnessWrittenOut(ea: real, ei: real, l: real)
    requires l > 0.0
    ensures LocalStiffness(ea, ei, l) == LocalStiffnessEntries(ea, ei, l)
  {
    MatrixExt(LocalStiffness(ea, ei, l), LocalStiffnessEntries(ea, ei, l));
  }

  /**
   * The three rigid-body motions of the bar (an axial translation, a transverse
   * translation, and a rotation about the first node, giving the second node a
   * transverse displacement l) produce no end forces: the local stiffness maps
   * each of them to zero.
   */
  lemma LocalStiffnessRigidBody(ea: real, ei: real, l: real)
    requires l > 0.0
    ensures MatVec(LocalStiffness(ea, ei, l), [1.0, 0.0, 0.0, 1.0, 0.0, 0.0]) == Zeros(6)
    ensures MatVec(LocalStiffness(ea, ei, l), [0.0, 1.0, 0.0, 0.0, 1.0, 0.0]) == Zeros(6)
    ensures MatVec(LocalStiffness(ea, ei, l), [0.0, 0.0, 1.0, 0.0, l, 1.0]) == Zeros(6)
  {
    LocalStiffnessWrittenOut(ea, ei, l);
    var k := LocalStiffnessEntries(ea, ei, l);
    RowsOf(k);
    AxialTranslation(ea, ei, l);
    TransverseTranslation(ea, ei, l);
    RigidRotation(ea, ei, l);
  }

  /** Row i of a matrix, read through Get, is the matrix's i-th row. */
  lemma RowsOf(m: Matrix)
    requires IsMatrix(m)
    ensures forall i :: 0 <= i < N ==> Row(m, i) == m[i]
  {
    forall i | 0 <= i < N
      ensures Row(m, i) == m[i]
    {
    }
  }

  lemma DotSix(u: seq<real>, v: seq<real>)
    requires |u| == 6 && |v| == 6
    ensures Dot(u, v) == u[0] * v[0] + u[1] * v[1] + u[2] * v[2] + u[3] * v[3] + u[4] * v[4] + u[5] * v[5]
  {
    TotalSix(Times(u, v));
  }

  /** A matrix whose every row is orthogonal to v maps v to zero. */
  lemma MatVecZero(m: Matrix, v: seq<real>)
    requires IsMatrix(m) && |v| == N
    requires Dot(m[0], v) == 0.0 && Dot(m[1], v) == 0.0 && Dot(m[2], v) == 0.0
    requires Dot(m[3], v) == 0.0 && Dot(m[4], v) == 0.0 && Dot(m[5], v) == 0.0
    ensures MatVec(m, v) == Zeros(6)
  {
    RowsOf(m);
    var w := MatVec(m, v);
    forall i | 0 <= i < N
      ensures w[i] == 0.0
    {
      assert w[i] == Dot(m[i], v);
    }
  }

  lemma AxialTranslation(ea: real, ei: real, l: real)
    requires l > 0.0
    ensures MatVec(LocalStiffnessEntries(ea, ei, l), [1.0, 0.0, 0.0, 1.0, 0.0, 0.0]) == Zeros(6)
  {
    var k := LocalStiffnessEntries(ea, ei, l);
    var v := [1.0, 0.0, 0.0, 1.0, 0.0, 0.0];
    DotSix(k[0], v);
    DotSix(k[1], v);
    DotSix(k[2], v);
    DotSix(k[3], v);
    DotSix(k[4], v);
    DotSix(k[5], v);
    MatVecZero(k, v);
  }

  lemma TransverseTranslation(ea: real, ei: real, l: real)
    requires l > 0.0
    ensures MatVec(LocalStiffnessEntries(ea, ei, l), [0.0, 1.0, 0.0, 0.0, 1.0, 0.0]) == Zeros(6)
  {
    var k := LocalStiffnessEntries(ea, ei, l);
    var v := [0.0, 1.0, 0.0, 0.0, 1.0, 0.0];
    DotSix(k[0], v);
    DotSix(k[1], v);
    DotSix(k[2], v);
    DotSix(k[3], v);
    DotSix(k[4], v);
    DotSix(k[5], v);
    MatVecZero(k, v);
  }

  lemma RigidRotation(ea: real, ei: real, l: real)
    requires l > 0.0
    ensures MatVec(LocalStiffnessEntries(ea, ei, l), [0.0, 0.0, 1.0, 0.0, l, 1.0]) == Zeros(6)
  {
    var k := LocalStiffnessEntries(ea, ei, l);
    var v := [0.0, 0.0, 1.0, 0.0, l, 1.0];
    DotSix(k[0], v);
    DotSix(k[3], v);
    RotationRow(ea, ei, l, 1);
    RotationRow(ea, ei, l, 2);
    RotationRow(ea, ei, l, 4);
    RotationRow(ea, ei, l, 5);
    MatVecZero(k, v);
  }

  /** A row's product with the rotation mode, read off its entries. */
  lemma DotRotation(u: seq<real>, l: real)
    requires |u| == 6
    ensures Dot(u, [0.0, 0.0, 1.0, 0.0, l, 1.0]) == u[2] + u[4] * l + u[5]
  {
    DotSix(u, [0.0, 0.0, 1.0, 0.0, l, 1.0]);
  }

  /** One bending row of the rigid rotation, each on its own. */
  lemma RotationRow(ea: real, ei: real, l: real, i: int)
    requires l > 0.0 && i in {1, 2, 4, 5}
    ensures Dot(LocalStiffnessEntries(ea, ei, l)[i], [0.0, 0.0, 1.0, 0.0, l, 1.0]) == 0.0
  {
    var u := LocalStiffnessEntries(ea, ei, l)[i];
    DotRotation(u, l);
    if i == 1 {
      RotationShear(6.0 * ei, l);
    } else if i == 2 {
      RotationMoment(4.0 * ei, 2.0 * ei, -6.0 * ei, l);
    } else if i == 4 {
      RotationShear(-6.0 * ei, l);
    } else {
      RotationMoment(2.0 * ei, 4.0 * ei, -6.0 * ei, l);
    }
  }

  /** The shear rows: x / l^2 + (-2x) / l^3 * l + x / l^2 == 0. */
  lemma RotationShear(x: real, l: real)
    requires l > 0.0
    ensures Square(l) != 0.0 && Cube(l) != 0.0
    ensures x / Square(l) + -2.0 * x / Cube(l) * l + x / Square(l) == 0.0
  {
    DivCubeTimes(-2.0 * x, l);
    SumOver(x, -2.0 * x, x, Square(l));
  }

  /** The moment rows: a / l + c / l^2 * l + b / l == 0 when a + b + c == 0. */
  lemma RotationMoment(a: real, b: real, c: real, l: real)
    requires l > 0.0 && a + b + c == 0.0
    ensures Square(l) != 0.0
    ensures a / l + c / Square(l) * l + b / l == 0.0
  {
    DivSquareTimes(c, l);
    SumOver(a, c, b, l);
  }


  // ---------------------------------------------------------------------------
  // The element
  // ---------------------------------------------------------------------------

  /** How applying a batch of loads ends: all added, or stopped at the first inconsistent one. */
  datatype ApplyOutcome = Applied | Aborted(at: nat)

  class Element {
    const nodes: seq<Node>
    const mechanicalProp: Material
    const geometricProp: Section
    const length: real
    const index: int
    var fel: seq<real>
    var uel: seq<real>
    var kel: Matrix
    var rotationMatrix: Matrix

    predicate Valid()
      reads this
    {
      |nodes| == 2 && length > 0.0 && |fel| == 6 && |uel| == 6 && IsMatrix(kel) && IsMatrix(rotationMatrix)
    }

    /**
     * A new element takes the counter's value as its index and advances the
     * counter by one; its load and displacement vectors and its rotation and
     * stiffness matrices start at zero.
     */
    constructor (nodes: seq<Node>, mechanicalProp: Material, geometricProp: Section, length: real,
                 counter: ElementCounter)
      requires |nodes| == 2 && length > 0.0
      modifies counter
      ensures Valid()
      ensures this.nodes == nodes && this.mechanicalProp == mechanicalProp
      ensures this.geometricProp == geometricProp && this.length == length
      ensures index == old(counter.counter) && counter.counter == old(counter.counter) + 1
      ensures fel == Zeros(6) && uel == Zeros(6)
      ensures rotationMatrix == Zero() && kel == Zero()
    {
      this.nodes := nodes;
      this.mechanicalProp := mechanicalProp;
      this.geometricProp := geometricProp;
      this.length := length;
      index := counter.counter;
      fel := Zeros(6);
      uel := Zeros(6);
      rotationMatrix := Zero();
      kel := Zero();
      new;
      counter.IncrementCounter();
    }

    /**
     * Adds the loads' vectors into fel in order. If a load fails the
     * consistency check the batch stops there: the loads before it have
     * already been added and it and the ones after it are not.
     */
    method ApplyLoads(loads: seq<Load>) returns (outcome: ApplyOutcome)
      requires Valid() && Sized(loads)
      modifies this`fel
      ensures Valid()
      ensures outcome.Applied? ==>
        && (forall i :: 0 <= i < |loads| ==> CheckValues(length, loads[i].loadType))
        && fel == Superpose(old(fel), loads)
      ensures outcome.Aborted? ==>
        && outcome.at < |loads|
        && (forall i :: 0 <= i < outcome.at ==> CheckValues(length, loads[i].loadType))
        && !CheckValues(length, loads[outcome.at].loadType)
        && fel == Superpose(old(fel), loads[..outcome.at])
    {
      var i := 0;
      while i < |loads|
        invariant 0 <= i <= |loads|
        invariant |fel| == 6
        invariant forall k :: 0 <= k < i ==> CheckValues(length, loads[k].loadType)
        invariant fel == Superpose(old(fel), loads[..i])
      {
        if !CheckValues(length, loads[i].loadType) {
          return Aborted(i);
        }
        assert loads[..i + 1][..i] == loads[..i];
        fel := VecAdd(fel, loads[i].reactionForces);
        i := i + 1;
      }
      assert loads[..i] == loads;
      return Applied;
    }

    /** The global equations of the element's end displacements, node by node. */
    method GetElementEquations() returns (dofList: seq<int>)
      requires |nodes| > 0 && nodes[0].hinge ==> nodes[0].dof.Length >= 4
      ensures Gatherable(Views(nodes)) && dofList == Gather(Views(nodes), |nodes|)
    {
      ghost var vs := Views(nodes);
      assert Gatherable(vs);
      dofList := [];
      for index := 0 to |nodes|
        invariant dofList == Gather(vs, index)
      {
        var equations := NodeEquationList(nodes[index], index);
        assert equations == NodeEquations(vs[index], index);
        dofList := dofList + equations;
      }
    }

    /**
     * One node's part of the element's equation list: a hinged second node
     * leaves out its hinge slot, a hinged first node gives its two
     * translations and its hinge slot 3, any other node its whole list.
     */
    method NodeEquationList(node: Node, index: int) returns (equations: seq<int>)
      requires node.hinge && index == 0 ==> node.dof.Length >= 4
      ensures equations == NodeEquations(View(node), index)
    {
      if node.hinge && index == 1 {
        equations := node.dof[..Min(3, node.dof.Length)];
      } else if node.hinge && index == 0 {
        equations := node.dof[..2] + [node.dof[3]];
      } else {
        equations := node.dof[..];
      }
    }

    /** Sets the rotation matrix from the direction cosines. */
    method Rotate(lx: real, ly: real)
      requires Valid()
      modifies this`rotationMatrix
      ensures Valid() && rotationMatrix == RotationMatrix(lx, ly)
    {
      rotationMatrix := RotationMatrix(lx, ly);
    }

    /**
     * Sets the element stiffness to Rt * kloc * R with EA and EI from the
     * material and the section; the result is symmetric.
     */
    method CalcStiff()
      requires Valid() && geometricProp.area.Some? && geometricProp.inertia.Some?
      modifies this`kel
      ensures Valid()
      ensures kel == Congruence(rotationMatrix, LocalStiffness(mechanicalProp.E * geometricProp.area.value,
                                                               mechanicalProp.E * geometricProp.inertia.value,
                                                               length))
      ensures Symmetric(kel)
    {
      var ea := mechanicalProp.E * geometricProp.area.value;
      var ei := mechanicalProp.E * geometricProp.inertia.value;
      var l := length;
      var kloc := Add(TrussStiffness(ea, l), BeamStiffness(ei, l));
      LocalStiffnessSymmetric(ea, ei, l);
      kel := Congruence(rotationMatrix, kloc);
    }
  }
}
