/**
 * The equation numbering of the analysis (TStiffAnalysis.py, find_equations),
 * as functions of the node kinds. Two passes run over the node list with one
 * shared counter: the free pass numbers, node by node, the slots its support
 * leaves free (and the hinge slot 3 of a hinged node), the constrained pass then
 * numbers the slots its support holds. Each pass hands every node one block of
 * consecutive indices; the lemmas show that the final numbering is a bijection
 * between the numbered slots and [0, total), with the free slots exactly the
 * indices below the free count.
 */
module Numbering {
  import opened Seqs
  import opened StiffNode

  /** What the numbering reads of a node. */
  datatype Kind = Kind(support: Support, hinge: bool)

  /**
   * The free pass's support table: the base slots it numbers for each support;
   * Fixed has no entry and gets none.
   */
  function FreeSlots(s: Support): seq<nat> {
    match s
    case Free => [0, 1, 2]
    case RollerX => [0, 2]
    case RollerY => [1, 2]
    case Pinned => [2]
    case Fixed => []
  }

  /**
   * The constrained pass's support table: the base slots it numbers for each
   * support; Free has no entry and gets none.
   */
  function ConstrainedSlots(s: Support): seq<nat> {
    match s
    case Free => []
    case RollerX => [1]
    case RollerY => [0]
    case Pinned => [0, 1]
    case Fixed => [0, 1, 2]
  }

  /** The two tables split the base slots {0, 1, 2} between them, each slot exactly once. */
  lemma TablesComplement(s: Support)
    ensures Distinct(FreeSlots(s)) && Distinct(ConstrainedSlots(s))
    ensures forall slot :: slot in FreeSlots(s) ==> slot < 3
    ensures forall slot :: slot in ConstrainedSlots(s) ==> slot < 3
    ensures forall slot :: 0 <= slot < 3 ==> (slot in FreeSlots(s) <==> slot !in ConstrainedSlots(s))
    ensures |FreeSlots(s)| + |ConstrainedSlots(s)| == 3
  {
  }

  /** The slots of one node numbered by the free pass, in order: the table's, then the hinge slot. */
  function FreePass(k: Kind): seq<nat> {
    FreeSlots(k.support) + (if k.hinge then [3] else [])
  }

  /** The slots of one node numbered by the constrained pass. */
  function ConstrainedPass(k: Kind): seq<nat> {
    ConstrainedSlots(k.support)
  }

  /** Every slot that receives an index. */
  function Slots(k: Kind): seq<nat> {
    FreePass(k) + ConstrainedPass(k)
  }

  /** The number of slots of a node: three base slots and the hinge slot when hinged. */
  function SlotCount(k: Kind): nat {
    if k.hinge then 4 else 3
  }

  /** Each slot of a list is below n. */
  predicate Below(slots: seq<nat>, n: nat) {
    forall i :: 0 <= i < |slots| ==> slots[i] < n
  }

  /**
   * The two passes of a node number disjoint slots, each at most once, all
   * below the slot count; together they number every slot below it.
   */
  lemma PassesPartition(k: Kind)
    ensures Distinct(FreePass(k)) && Distinct(ConstrainedPass(k)) && Distinct(Slots(k))
    ensures Below(FreePass(k), SlotCount(k)) && Below(ConstrainedPass(k), SlotCount(k))
    ensures forall s :: s in FreePass(k) ==> s !in ConstrainedPass(k)
    ensures forall s :: s in Slots(k) <==> 0 <= s < SlotCount(k)
    ensures |Slots(k)| == SlotCount(k)
    ensures (3 in FreePass(k) <==> k.hinge) && 3 !in ConstrainedPass(k)
  {
    match k.support
    case Free => PartitionFree(k);
    case RollerX => PartitionRollerX(k);
    case RollerY => PartitionRollerY(k);
    case Pinned => PartitionPinned(k);
    case Fixed => PartitionFixed(k);
  }

  /** PassesPartition for a Free support. */
  lemma PartitionFree(k: Kind)
    requires k.support == Free
    ensures Distinct(FreePass(k)) && Distinct(ConstrainedPass(k)) && Distinct(Slots(k))
    ensures Below(FreePass(k), SlotCount(k)) && Below(ConstrainedPass(k), SlotCount(k))
    ensures forall s :: s in FreePass(k) ==> s !in ConstrainedPass(k)
    ensures forall s :: s in Slots(k) <==> 0 <= s < SlotCount(k)
    ensures |Slots(k)| == SlotCount(k)
  {
    assert ConstrainedPass(k) == [];
    if k.hinge {
      assert Slots(k) == [0, 1, 2, 3];
    } else {
      assert Slots(k) == [0, 1, 2];
    }
  }

  /** PassesPartition for a RollerX support. */
  lemma PartitionRollerX(k: Kind)
    requires k.support == RollerX
    ensures Distinct(FreePass(k)) && Distinct(ConstrainedPass(k)) && Distinct(Slots(k))
    ensures Below(FreePass(k), SlotCount(k)) && Below(ConstrainedPass(k), SlotCount(k))
    ensures forall s :: s in FreePass(k) ==> s !in ConstrainedPass(k)
    ensures forall s :: s in Slots(k) <==> 0 <= s < SlotCount(k)
    ensures |Slots(k)| == SlotCount(k)
  {
    assert ConstrainedPass(k) == [1];
    if k.hinge {
      assert Slots(k) == [0, 2, 3, 1];
    } else {
      assert Slots(k) == [0, 2, 1];
    }
  }

  /** PassesPartition for a RollerY support. */
  lemma PartitionRollerY(k: Kind)
    requires k.support == RollerY
    ensures Distinct(FreePass(k)) && Distinct(ConstrainedPass(k)) && Distinct(Slots(k))
    ensures Below(FreePass(k), SlotCount(k)) && Below(ConstrainedPass(k), SlotCount(k))
    ensures forall s :: s in FreePass(k) ==> s !in ConstrainedPass(k)
    ensures forall s :: s in Slots(k) <==> 0 <= s < SlotCount(k)
    ensures |Slots(k)| == SlotCount(k)
  {
    assert ConstrainedPass(k) == [0];
    if k.hinge {
      assert Slots(k) == [1, 2, 3, 0];
    } else {
      assert Slots(k) == [1, 2, 0];
    }
  }

  /** PassesPartition for a Pinned support. */
  lemma PartitionPinned(k: Kind)
    requires k.support == Pinned
    ensures Distinct(FreePass(k)) && Distinct(ConstrainedPass(k)) && Distinct(Slots(k))
    ensures Below(FreePass(k), SlotCount(k)) && Below(ConstrainedPass(k), SlotCount(k))
    ensures forall s :: s in FreePass(k) ==> s !in ConstrainedPass(k)
    ensures forall s :: s in Slots(k) <==> 0 <= s < SlotCount(k)
    ensures |Slots(k)| == SlotCount(k)
  {
    assert ConstrainedPass(k) == [0, 1];
    if k.hinge {
      assert Slots(k) == [2, 3, 0, 1];
    } else {
      assert Slots(k) == [2, 0, 1];
    }
  }

  /** PassesPartition for a Fixed support. */
  lemma PartitionFixed(k: Kind)
    requires k.support == Fixed
    ensures Distinct(FreePass(k)) && Distinct(ConstrainedPass(k)) && Distinct(Slots(k))
    ensures Below(FreePass(k), SlotCount(k)) && Below(ConstrainedPass(k), SlotCount(k))
    ensures forall s :: s in FreePass(k) ==> s !in ConstrainedPass(k)
    ensures forall s :: s in Slots(k) <==> 0 <= s < SlotCount(k)
    ensures |Slots(k)| == SlotCount(k)
  {
    assert ConstrainedPass(k) == [0, 1, 2];
    if k.hinge {
      assert Slots(k) == [3, 0, 1, 2];
    } else {
      assert Slots(k) == [0, 1, 2];
    }
  }

  /** The free pass's block of each node. */
  function FreeBlocks(ks: seq<Kind>): (bs: seq<seq<nat>>)
    ensures |bs| == |ks| && forall j :: 0 <= j < |ks| ==> bs[j] == FreePass(ks[j])
  {
    seq(|ks|, j requires 0 <= j < |ks| => FreePass(ks[j]))
  }

  /** The constrained pass's block of each node. */
  function ConstrainedBlocks(ks: seq<Kind>): (bs: seq<seq<nat>>)
    ensures |bs| == |ks| && forall j :: 0 <= j < |ks| ==> bs[j] == ConstrainedPass(ks[j])
  {
    seq(|ks|, j requires 0 <= j < |ks| => ConstrainedPass(ks[j]))
  }

  // ---------------------------------------------------------------------------
  // Blocks of consecutive indices
  // ---------------------------------------------------------------------------

  /**
   * The number of indices a pass hands out before each block: entry j is the
   * lengths of the blocks before block j added up, the last entry their total.
   */
  function Offsets(bs: seq<seq<nat>>): (r: seq<nat>)
    ensures |r| == |bs| + 1 && r[0] == 0
    decreases |bs|
  {
    if |bs| == 0 then [0]
    else
      var p := Offsets(bs[..|bs| - 1]);
      p + [p[|bs| - 1] + |bs[|bs| - 1]|]
  }

  /** The number of indices a pass hands out before block `j`. */
  function Before(bs: seq<seq<nat>>, j: nat): nat
    requires j <= |bs|
  {
    Offsets(bs)[j]
  }

  /** Counting one more block adds its length. */
  lemma {:induction false} BeforeStep(bs: seq<seq<nat>>, j: nat)
    requires j < |bs|
    ensures Before(bs, j + 1) == Before(bs, j) + |bs[j]|
    decreases |bs|
  {
    var n := |bs| - 1;
    var p := bs[..n];
    assert Offsets(bs) == Offsets(p) + [Offsets(p)[n] + |bs[n]|];
    if j < n {
      BeforeStep(p, j);
      assert p[j] == bs[j];
    }
  }

  /** The first index of block `j` when the pass starts counting at `c`. */
  function Start(bs: seq<seq<nat>>, j: nat, c: int): int
    requires j <= |bs|
  {
    c + Before(bs, j)
  }

  /** The number of indices a pass hands out in all. */
  function Len(bs: seq<seq<nat>>): nat {
    Before(bs, |bs|)
  }

  /** The count before a block never exceeds the count before a later block. */
  lemma {:induction false} BeforeMonotone(bs: seq<seq<nat>>, i: nat, j: nat)
    requires i <= j <= |bs|
    ensures Before(bs, i) <= Before(bs, j)
    decreases j - i
  {
    if i < j {
      BeforeMonotone(bs, i, j - 1);
      BeforeStep(bs, j - 1);
    }
  }

  /** The index a pass gives slot `s` of block `j`: the block's start plus the slot's place in it. */
  function Pos(bs: seq<seq<nat>>, j: nat, s: nat): nat
    requires j < |bs| && s in bs[j]
  {
    Before(bs, j) + IndexOf(bs[j], s)
  }

  /** Every index lies in its block's range, and so below the pass's count. */
  lemma PosBound(bs: seq<seq<nat>>, j: nat, s: nat)
    requires j < |bs| && s in bs[j]
    ensures Before(bs, j) <= Pos(bs, j, s) < Before(bs, j + 1) <= Len(bs)
  {
    BeforeStep(bs, j);
    BeforeMonotone(bs, j + 1, |bs|);
  }

  /** Different slots of blocks without repetitions get different indices. */
  lemma PosInjective(bs: seq<seq<nat>>, j1: nat, s1: nat, j2: nat, s2: nat)
    requires j1 < |bs| && s1 in bs[j1] && j2 < |bs| && s2 in bs[j2]
    requires Pos(bs, j1, s1) == Pos(bs, j2, s2)
    ensures j1 == j2 && s1 == s2
  {
    PosBound(bs, j1, s1);
    PosBound(bs, j2, s2);
    if j1 < j2 {
      BeforeMonotone(bs, j1 + 1, j2);
    } else if j2 < j1 {
      BeforeMonotone(bs, j2 + 1, j1);
    }
  }

  /**
   * The slot an index below the count of the first `n` blocks was given to:
   * the inverse of Pos.
   */
  function Locate(bs: seq<seq<nat>>, n: nat, e: nat): (r: (nat, nat))
    requires forall j :: 0 <= j < |bs| ==> Distinct(bs[j])
    requires n <= |bs| && e < Before(bs, n)
    ensures r.0 < n && r.1 in bs[r.0] && Pos(bs, r.0, r.1) == e
    decreases n
  {
    var m := n - 1;
    BeforeStep(bs, m);
    if e < Before(bs, m) then
      Locate(bs, m, e)
    else
      var k := e - Before(bs, m);
      IndexOfDistinct(bs[m], k);
      (m, bs[m][k])
  }

  // ---------------------------------------------------------------------------
  // The numbering of the two passes
  // ---------------------------------------------------------------------------

  /**
   * The index slot `s` of node `j` ends up with, counting from the counter's
   * value before the free pass: the free pass's index for a free slot, the
   * free count plus the constrained pass's index for a constrained one.
   */
  function Number(ks: seq<Kind>, j: nat, s: nat): nat
    requires j < |ks| && s in Slots(ks[j])
  {
    if s in FreePass(ks[j]) then Pos(FreeBlocks(ks), j, s)
    else Len(FreeBlocks(ks)) + Pos(ConstrainedBlocks(ks), j, s)
  }

  /** The free count is the number of free slots, the total the number of all slots. */
  function EquationCount(ks: seq<Kind>): (r: nat)
    ensures r == 3 * |ks| + Hinges(ks)
  {
    BeforeCount(ks, |ks|);
    assert ks[..|ks|] == ks;
    Len(FreeBlocks(ks)) + Len(ConstrainedBlocks(ks))
  }

  /** Every block is without repetitions. */
  lemma BlocksDistinct(ks: seq<Kind>)
    ensures forall j :: 0 <= j < |ks| ==> Distinct(FreeBlocks(ks)[j])
    ensures forall j :: 0 <= j < |ks| ==> Distinct(ConstrainedBlocks(ks)[j])
  {
    forall j | 0 <= j < |ks|
      ensures Distinct(FreePass(ks[j])) && Distinct(ConstrainedPass(ks[j]))
    {
      PassesPartition(ks[j]);
    }
  }

  /**
   * The numbering is below the total, and below the free count exactly for
   * the free slots.
   */
  lemma NumberBound(ks: seq<Kind>, j: nat, s: nat)
    requires j < |ks| && s in Slots(ks[j])
    ensures Number(ks, j, s) < EquationCount(ks)
    ensures Number(ks, j, s) < Len(FreeBlocks(ks)) <==> s in FreePass(ks[j])
  {
    if s in FreePass(ks[j]) {
      PosBound(FreeBlocks(ks), j, s);
    } else {
      assert s in ConstrainedPass(ks[j]);
      PosBound(ConstrainedBlocks(ks), j, s);
    }
  }

  /** No two numbered slots share an index. */
  lemma NumberInjective(ks: seq<Kind>, j1: nat, s1: nat, j2: nat, s2: nat)
    requires j1 < |ks| && s1 in Slots(ks[j1]) && j2 < |ks| && s2 in Slots(ks[j2])
    requires Number(ks, j1, s1) == Number(ks, j2, s2)
    ensures j1 == j2 && s1 == s2
  {
    NumberBound(ks, j1, s1);
    NumberBound(ks, j2, s2);
    if s1 in FreePass(ks[j1]) {
      PosInjective(FreeBlocks(ks), j1, s1, j2, s2);
    } else {
      assert s1 in ConstrainedPass(ks[j1]) && s2 in ConstrainedPass(ks[j2]);
      PosInjective(ConstrainedBlocks(ks), j1, s1, j2, s2);
    }
  }

  /** The slot that holds index `e`: every index below the total is handed out. */
  function Owner(ks: seq<Kind>, e: nat): (r: (nat, nat))
    requires e < EquationCount(ks)
    ensures r.0 < |ks| && r.1 in Slots(ks[r.0]) && Number(ks, r.0, r.1) == e
  {
    BlocksDistinct(ks);
    if e < Len(FreeBlocks(ks)) then
      var r := Locate(FreeBlocks(ks), |ks|, e);
      r
    else
      var r := Locate(ConstrainedBlocks(ks), |ks|, e - Len(FreeBlocks(ks)));
      PassesPartition(ks[r.0]);
      r
  }

  /** The indices the slots of node j end up with, slot by slot. */
  function Numbers(ks: seq<Kind>, j: nat): (r: seq<int>)
    requires j < |ks|
    ensures |r| == SlotCount(ks[j])
  {
    PassesPartition(ks[j]);
    seq(SlotCount(ks[j]), s requires 0 <= s < SlotCount(ks[j]) => Number(ks, j, s))
  }

  /** Every number a node gets is below the total. */
  lemma NumbersBound(ks: seq<Kind>, j: nat)
    requires j < |ks|
    ensures forall s :: 0 <= s < |Numbers(ks, j)| ==> 0 <= Numbers(ks, j)[s] < EquationCount(ks)
  {
    PassesPartition(ks[j]);
    forall s | 0 <= s < |Numbers(ks, j)|
      ensures 0 <= Numbers(ks, j)[s] < EquationCount(ks)
    {
      NumberBound(ks, j, s);
    }
  }

  /** Two slots numbered alike are the same slot of the same node. */
  lemma NumbersApart(ks: seq<Kind>, j0: nat, s0: nat, j1: nat, s1: nat)
    requires j0 < |ks| && j1 < |ks| && s0 < |Numbers(ks, j0)| && s1 < |Numbers(ks, j1)|
    requires Numbers(ks, j0)[s0] == Numbers(ks, j1)[s1]
    ensures j0 == j1 && s0 == s1
  {
    PassesPartition(ks[j0]);
    PassesPartition(ks[j1]);
    NumberInjective(ks, j0, s0, j1, s1);
  }

  /** The numbers of two different nodes are all different and all below the total. */
  lemma NumbersPair(ks: seq<Kind>, j0: nat, j1: nat)
    requires j0 < |ks| && j1 < |ks| && j0 != j1
    ensures var d := Numbers(ks, j0) + Numbers(ks, j1);
      Distinct(d) && forall i :: 0 <= i < |d| ==> 0 <= d[i] < EquationCount(ks)
  {
    var a := Numbers(ks, j0);
    var b := Numbers(ks, j1);
    NumbersBound(ks, j0);
    NumbersBound(ks, j1);
    forall i, k | 0 <= i < k < |a| ensures a[i] != a[k] {
      if a[i] == a[k] { NumbersApart(ks, j0, i, j0, k); }
    }
    forall i, k | 0 <= i < k < |b| ensures b[i] != b[k] {
      if b[i] == b[k] { NumbersApart(ks, j1, i, j1, k); }
    }
    forall i, k | 0 <= i < |a| && 0 <= k < |b| ensures a[i] != b[k] {
      if a[i] == b[k] { NumbersApart(ks, j0, i, j1, k); }
    }
    DistinctAppend(a, b);
  }

  /** How many hinged nodes there are. */
  function Hinges(ks: seq<Kind>): (r: nat)
    ensures r <= |ks|
    decreases |ks|
  {
    if |ks| == 0 then 0 else Hinges(ks[..|ks| - 1]) + (if ks[|ks| - 1].hinge then 1 else 0)
  }

  /** Before node `n`, both passes together hand out three equations per node and one per hinge. */
  lemma {:induction false} BeforeCount(ks: seq<Kind>, n: nat)
    requires n <= |ks|
    ensures Before(FreeBlocks(ks), n) + Before(ConstrainedBlocks(ks), n) == 3 * n + Hinges(ks[..n])
    decreases n
  {
    if n > 0 {
      BeforeCount(ks, n - 1);
      BeforeStep(FreeBlocks(ks), n - 1);
      BeforeStep(ConstrainedBlocks(ks), n - 1);
      assert ks[..n][..n - 1] == ks[..n - 1];
      assert |FreePass(ks[n - 1])| + |ConstrainedPass(ks[n - 1])| == SlotCount(ks[n - 1]) by {
        PassesPartition(ks[n - 1]);
      }
    }
  }

  // ---------------------------------------------------------------------------
  // Writing a block of indices into a DoF list
  // ---------------------------------------------------------------------------

  /**
   * `a` after writing c, c + 1, ... into the given slots, one after the other;
   * a slot past the end is not written (the numbering never produces one).
   */
  function WriteSlots(a: seq<int>, slots: seq<nat>, c: int): (r: seq<int>)
    ensures |r| == |a|
    decreases |slots|
  {
    if |slots| == 0 then a
    else
      var r := WriteSlots(a, slots[..|slots| - 1], c);
      var s := slots[|slots| - 1];
      if s < |r| then r[s := c + |slots| - 1] else r
  }

  /** Writing into distinct slots leaves c + k in the k-th of them and every other entry as it was. */
  lemma {:induction false} WriteSlotsSpec(a: seq<int>, slots: seq<nat>, c: int)
    requires Below(slots, |a|)
    requires Distinct(slots)
    ensures forall k :: 0 <= k < |slots| ==> WriteSlots(a, slots, c)[slots[k]] == c + k
    ensures forall s :: 0 <= s < |a| && s !in slots ==> WriteSlots(a, slots, c)[s] == a[s]
    decreases |slots|
  {
    if |slots| > 0 {
      var n := |slots| - 1;
      WriteSlotsSpec(a, slots[..n], c);
      assert slots == slots[..n] + [slots[n]];
      forall k | 0 <= k < n
        ensures slots[k] in slots[..n] && slots[k] != slots[n]
      {
        assert slots[..n][k] == slots[k];
      }
    }
  }

  /** Writing two lists of slots in turn is writing their concatenation. */
  lemma {:induction false} WriteSlotsConcat(a: seq<int>, xs: seq<nat>, ys: seq<nat>, c: int)
    ensures WriteSlots(a, xs + ys, c) == WriteSlots(WriteSlots(a, xs, c), ys, c + |xs|)
    decreases |ys|
  {
    var zs := xs + ys;
    if |ys| == 0 {
      assert zs == xs;
    } else {
      var n := |ys| - 1;
      assert zs[..|zs| - 1] == xs + ys[..n];
      WriteSlotsConcat(a, xs, ys[..n], c);
    }
  }

  /** A node's DoF list after the free pass wrote its free slots from cf. */
  function FreeWrite(k: Kind, d: seq<int>, cf: int): (r: seq<int>)
    ensures |r| == |d|
  {
    WriteSlots(d, FreePass(k), cf)
  }

  /** A node's DoF list after the constrained pass wrote its constrained slots from cc. */
  function ConstrainedWrite(k: Kind, d: seq<int>, cc: int): (r: seq<int>)
    ensures |r| == |d|
  {
    WriteSlots(d, ConstrainedPass(k), cc)
  }

  /** A node's DoF list after its free slots are written from cf and its constrained slots from cc. */
  function BothPasses(k: Kind, d: seq<int>, cf: int, cc: int): (r: seq<int>)
    ensures |r| == |d|
  {
    ConstrainedWrite(k, FreeWrite(k, d, cf), cc)
  }

  /** Each slot holds the index of its own pass: its place in that pass plus the pass's start. */
  lemma BothPassesSlot(k: Kind, d: seq<int>, cf: int, cc: int, s: nat)
    requires |d| == SlotCount(k) && s in Slots(k)
    ensures s < |d|
    ensures s in FreePass(k) ==> BothPasses(k, d, cf, cc)[s] == cf + IndexOf(FreePass(k), s)
    ensures s !in FreePass(k) ==>
      s in ConstrainedPass(k) && BothPasses(k, d, cf, cc)[s] == cc + IndexOf(ConstrainedPass(k), s)
  {
    PassesPartition(k);
    TwoWrites(d, FreePass(k), ConstrainedPass(k), cf, cc, s);
  }

  /**
   * A node's DoF list after both passes of the whole node list, counting from
   * c0: the free pass reaches it after the free slots of the nodes before it,
   * the constrained pass after all free slots and the constrained slots before it.
   */
  function NumberedDof(ks: seq<Kind>, j: nat, d: seq<int>, c0: int): (r: seq<int>)
    requires j < |ks|
    ensures |r| == |d|
  {
    BothPasses(ks[j], d, Start(FreeBlocks(ks), j, c0),
               Start(ConstrainedBlocks(ks), j, c0 + Len(FreeBlocks(ks))))
  }

  /** After both passes, each slot of a node holds the counter's start plus its Number. */
  lemma NumberedDofSlots(ks: seq<Kind>, j: nat, d: seq<int>, c0: int)
    requires j < |ks| && |d| == SlotCount(ks[j])
    ensures forall s :: s in Slots(ks[j]) ==> s < |d| && NumberedDof(ks, j, d, c0)[s] == c0 + Number(ks, j, s)
  {
    forall s | s in Slots(ks[j])
      ensures s < |d| && NumberedDof(ks, j, d, c0)[s] == c0 + Number(ks, j, s)
    {
      NumberedDofSlot(ks, j, d, c0, s);
    }
  }

  lemma NumberedDofSlot(ks: seq<Kind>, j: nat, d: seq<int>, c0: int, s: nat)
    requires j < |ks| && |d| == SlotCount(ks[j]) && s in Slots(ks[j])
    ensures s < |d| && NumberedDof(ks, j, d, c0)[s] == c0 + Number(ks, j, s)
  {
    var cf := Start(FreeBlocks(ks), j, c0);
    var cc := Start(ConstrainedBlocks(ks), j, c0 + Len(FreeBlocks(ks)));
    var k := ks[j];
    assert NumberedDof(ks, j, d, c0) == BothPasses(k, d, cf, cc);
    BothPassesSlot(k, d, cf, cc, s);
    NumberCases(ks, j, s);
    if s in FreePass(k) {
      var i := IndexOf(FreePass(k), s);
      assert BothPasses(k, d, cf, cc)[s] == cf + i;
      assert Number(ks, j, s) == Before(FreeBlocks(ks), j) + i;
    } else {
      var i := IndexOf(ConstrainedPass(k), s);
      assert BothPasses(k, d, cf, cc)[s] == cc + i;
      assert Number(ks, j, s) == Len(FreeBlocks(ks)) + Before(ConstrainedBlocks(ks), j) + i;
    }
  }

  /**
   * The constrained pass, started where the free pass left the counter, on
   * the free pass's result, gives a node the numbering of both passes.
   */
  lemma PassesCompose(ks: seq<Kind>, j: nat, d0: seq<int>, d1: seq<int>, d2: seq<int>, c0: int, c1: int)
    requires j < |ks| && c1 == c0 + Len(FreeBlocks(ks))
    requires d1 == FreeWrite(ks[j], d0, Start(FreeBlocks(ks), j, c0))
    requires d2 == ConstrainedWrite(ks[j], d1, Start(ConstrainedBlocks(ks), j, c1))
    ensures d2 == NumberedDof(ks, j, d0, c0)
  {
  }

  /** Number unfolded into its two cases. */
  lemma NumberCases(ks: seq<Kind>, j: nat, s: nat)
    requires j < |ks| && s in Slots(ks[j])
    ensures s in FreePass(ks[j]) ==>
      Number(ks, j, s) == Before(FreeBlocks(ks), j) + IndexOf(FreePass(ks[j]), s)
    ensures s !in FreePass(ks[j]) ==>
      s in ConstrainedPass(ks[j]) &&
      Number(ks, j, s) == Len(FreeBlocks(ks)) + Before(ConstrainedBlocks(ks), j) + IndexOf(ConstrainedPass(ks[j]), s)
  {
  }

  /** Two rounds of writes into disjoint slot lists: each slot keeps the index of its own round. */
  lemma TwoWrites(d: seq<int>, f: seq<nat>, c: seq<nat>, cf: int, cc: int, s: nat)
    requires Below(f, |d|) && Below(c, |d|) && Distinct(f) && Distinct(c)
    requires forall x :: x in f ==> x !in c
    requires s in f + c
    ensures s < |d|
    ensures s in f ==> WriteSlots(WriteSlots(d, f, cf), c, cc)[s] == cf + IndexOf(f, s)
    ensures s !in f ==> s in c && WriteSlots(WriteSlots(d, f, cf), c, cc)[s] == cc + IndexOf(c, s)
  {
    var d1 := WriteSlots(d, f, cf);
    WriteSlotsSpec(d, f, cf);
    WriteSlotsSpec(d1, c, cc);
    if s in f {
      var i := IndexOf(f, s);
      assert d1[f[i]] == cf + i;
      assert s !in c;
    } else {
      assert s in c;
      var i := IndexOf(c, s);
      assert WriteSlots(d1, c, cc)[c[i]] == cc + i;
    }
  }
}
