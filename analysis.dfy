/**
 * The analysis (TStiffAnalysis.py): collects the nodes of the elements, numbers
 * the equations of the structure in two passes over the node list, writing
 * each index into its node's DoF slot, and sizes the global load, displacement
 * and stiffness arrays by the number of equations.
 */
module StiffAnalysis {
  import opened Seqs
  import opened StiffNode
  import opened StiffElement
  import opened NodeDiscovery
  import opened Numbering

  /** The end nodes of the elements, element by element. */
  function Flatten(els: seq<Element>): seq<Node>
    decreases |els|
  {
    if |els| == 0 then [] else Flatten(els[..|els| - 1]) + els[|els| - 1].nodes
  }

  /** A node belongs to the flattened list iff it is an end node of one of the elements. */
  lemma {:induction false} FlattenMembers(els: seq<Element>, n: Node)
    ensures n in Flatten(els) <==> exists e :: e in els && n in e.nodes
    decreases |els|
  {
    if |els| > 0 {
      var m := |els| - 1;
      FlattenMembers(els[..m], n);
      assert els == els[..m] + [els[m]];
      if n in els[m].nodes {
        assert els[m] in els;
      }
      if exists e :: e in els && n in e.nodes {
        var e :| e in els && n in e.nodes;
        if e != els[m] {
          assert e in els[..m];
        }
      }
    }
  }

  /** The end nodes of allocated elements are allocated (so changes elsewhere leave them alone). */
  lemma {:induction false} FlattenAllocated(els: seq<Element>)
    requires allocated(els)
    ensures allocated(Flatten(els))
    decreases |els|
  {
    if |els| > 0 {
      FlattenAllocated(els[..|els| - 1]);
    }
  }

  /** What the numbering reads of the nodes depends on the nodes alone. */
  twostate lemma NodesFramed(ns: seq<Node>)
    requires unchanged(ns)
    ensures Fits(ns) == old(Fits(ns)) && SeparateDoF(ns) == old(SeparateDoF(ns))
    ensures DofLists(ns) == old(DofLists(ns)) && Dofs(ns) == old(Dofs(ns))
  {
  }

  /** What the numbering reads of a node. */
  function KindOf(n: Node): Kind {
    Kind(n.supportType, n.hinge)
  }

  function Kinds(ns: seq<Node>): (ks: seq<Kind>)
    ensures |ks| == |ns| && forall j :: 0 <= j < |ns| ==> ks[j] == KindOf(ns[j])
  {
    seq(|ns|, j requires 0 <= j < |ns| => KindOf(ns[j]))
  }

  /** Every node has a DoF slot per base equation, and the hinge slot 3 when hinged. */
  predicate Fits(ns: seq<Node>)
    reads ns
  {
    forall j :: 0 <= j < |ns| ==> ns[j].dof.Length == SlotCount(KindOf(ns[j]))
  }

  /** Different nodes do not share a DoF list. */
  predicate SeparateDoF(ns: seq<Node>)
    reads ns
  {
    Owners(ns, DofLists(ns))
  }

  /** Equal lists at two places are owned by the same node. */
  predicate Owners(ns: seq<Node>, ls: seq<array<int>>)
    requires |ls| == |ns|
  {
    forall i, j {:trigger ls[i], ls[j]} :: 0 <= i < |ns| && 0 <= j < |ns| && ls[i] == ls[j] ==> ns[i] == ns[j]
  }

  /** The DoF lists of the nodes, in list order. */
  function DofLists(ns: seq<Node>): (r: seq<array<int>>)
    reads ns
    ensures |r| == |ns|
  {
    seq(|ns|, j requires 0 <= j < |ns| reads ns => ns[j].dof)
  }

  /** Different places of the list hold nodes with different DoF lists (so, different nodes). */
  predicate Disjoint(ns: seq<Node>)
    reads ns
  {
    Distinct(DofLists(ns))
  }

  /** In a disjoint list the node at place i shares its DoF list with no other place. */
  lemma DofsApart(ns: seq<Node>, i: nat)
    requires Disjoint(ns) && i < |ns|
    ensures forall j :: 0 <= j < |ns| && j != i ==> ns[j].dof != ns[i].dof
  {
    forall j | 0 <= j < |ns| && j != i
      ensures ns[j].dof != ns[i].dof
    {
      assert DofLists(ns)[j] == ns[j].dof && DofLists(ns)[i] == ns[i].dof;
    }
  }

  /** The contents of the DoF list of the node at place j. */
  function DofAt(ns: seq<Node>, j: nat): seq<int>
    requires j < |ns|
    reads ns[j], ns[j].dof
  {
    ns[j].dof[..]
  }

  /** The DoF lists of the nodes: what the numbering writes. */
  function Dofs(ns: seq<Node>): set<array<int>>
    reads ns
  {
    set j | 0 <= j < |ns| :: ns[j].dof
  }

  /**
   * The first-appearance list of nodes keeps what the numbering needs of the
   * nodes it came from: fitting DoF lists, none of them shared, and no DoF
   * list that was not already there.
   */
  lemma DedupKeeps(ns: seq<Node>)
    requires Fits(ns) && SeparateDoF(ns)
    ensures Fits(Dedup(ns)) && Disjoint(Dedup(ns)) && Dofs(Dedup(ns)) <= Dofs(ns)
  {
    var d := Dedup(ns);
    DedupMembers(ns);
    forall j | 0 <= j < |d|
      ensures d[j].dof.Length == SlotCount(KindOf(d[j])) && d[j].dof in Dofs(ns)
    {
      assert d[j] in d;
      AppendNewMembers([], ns, d[j]);
      var k :| 0 <= k < |ns| && ns[k] == d[j];
      assert Fits(ns) ==> ns[k].dof.Length == SlotCount(KindOf(ns[k]));
    }
    forall i, j | 0 <= i < j < |d|
      ensures DofLists(d)[i] != DofLists(d)[j]
    {
      assert d[i] in d && d[j] in d;
      AppendNewMembers([], ns, d[i]);
      AppendNewMembers([], ns, d[j]);
      var ki :| 0 <= ki < |ns| && ns[ki] == d[i];
      var kj :| 0 <= kj < |ns| && ns[kj] == d[j];
      assert DofLists(ns)[ki] == d[i].dof && DofLists(ns)[kj] == d[j].dof;
      assert DofLists(d)[i] == d[i].dof && DofLists(d)[j] == d[j].dof;
    }
  }

  class Analysis {
    const elements: seq<Element>
    var nodesList: seq<Node>
    var numberEquations: int
    var numberFreeEquations: int
    var FG: array<real>
    var UG: array<real>
    var KG: array2<real>

    /**
     * After the numbering, with the counter started at 0: the free count and
     * the total count are those of the passes, and every slot of every node
     * holds its Number.
     */
    ghost predicate Numbered()
      reads this`nodesList, this`numberEquations, this`numberFreeEquations, nodesList, Dofs(nodesList)
    {
      && Fits(nodesList)
      && numberFreeEquations == Len(FreeBlocks(Kinds(nodesList)))
      && numberEquations == EquationCount(Kinds(nodesList))
      && forall j, s :: 0 <= j < |nodesList| && 0 <= s < nodesList[j].dof.Length && s in Slots(KindOf(nodesList[j])) ==>
           nodesList[j].dof[s] == Number(Kinds(nodesList), j, s)
    }

    /**
     * Collects the nodes, numbers the equations from 0, and allocates zero
     * load and displacement vectors and a zero stiffness matrix of that size.
     */
    constructor (elements: seq<Element>)
      requires Fits(Flatten(elements)) && SeparateDoF(Flatten(elements))
      modifies Dofs(Flatten(elements))
      ensures this.elements == elements
      ensures nodesList == Dedup(Flatten(elements))
      ensures Numbered() && ZeroGlobals()
      ensures fresh(FG) && fresh(UG) && fresh(KG)
    {
      this.elements := elements;
      nodesList := [];
      numberEquations := 0;
      numberFreeEquations := 0;
      FG := new real[0];
      UG := new real[0];
      KG := new real[0, 0];
      FlattenAllocated(elements);
      new;
      NodesFramed(Flatten(elements));
      Setup();
    }

    /** The constructor's work once the fields hold their initial values. */
    method Setup()
      requires nodesList == [] && numberEquations == 0
      requires Fits(Flatten(elements)) && SeparateDoF(Flatten(elements))
      modifies this`nodesList, this`numberEquations, this`numberFreeEquations, this`FG, this`UG, this`KG
      modifies Dofs(Flatten(elements))
      ensures nodesList == Dedup(Flatten(elements))
      ensures Numbered() && ZeroGlobals()
      ensures fresh(FG) && fresh(UG) && fresh(KG)
    {
      CollectNodes();
      NodesFramed(Flatten(elements));
      NumberFromZero();
      AllocateGlobals();
    }

    /**
     * The global load and displacement vectors are two different zero vectors
     * and the global stiffness a zero square matrix, one entry, row and column
     * per equation.
     */
    predicate ZeroGlobals()
      reads this, FG, UG, KG
    {
      && FG.Length == numberEquations && UG.Length == numberEquations && FG != UG
      && KG.Length0 == numberEquations && KG.Length1 == numberEquations
      && (forall i :: 0 <= i < numberEquations ==> FG[i] == 0.0 && UG[i] == 0.0)
      && (forall i, j :: 0 <= i < numberEquations && 0 <= j < numberEquations ==> KG[i, j] == 0.0)
    }

    /** Every slot of a fitting DoF list is numbered, under its Number. */
    lemma NumberedSlot(j: nat, s: nat)
      requires Numbered() && j < |nodesList| && s < nodesList[j].dof.Length
      ensures s in Slots(KindOf(nodesList[j])) && Kinds(nodesList)[j] == KindOf(nodesList[j])
      ensures nodesList[j].dof[s] == Number(Kinds(nodesList), j, s)
    {
      PassesPartition(KindOf(nodesList[j]));
    }

    /**
     * After the numbering every entry of every DoF list is an equation index
     * below the total, and below the free count exactly when its slot is one
     * the free pass numbers. The total is three equations per node and one per
     * hinge.
     */
    lemma NumberingInRange()
      requires Numbered()
      ensures forall j, s :: 0 <= j < |nodesList| && 0 <= s < nodesList[j].dof.Length ==>
        && 0 <= nodesList[j].dof[s] < numberEquations
        && (nodesList[j].dof[s] < numberFreeEquations <==> s in FreePass(KindOf(nodesList[j])))
      ensures numberFreeEquations <= numberEquations == 3 * |nodesList| + Hinges(Kinds(nodesList))
    {
      var ks := Kinds(nodesList);
      forall j, s | 0 <= j < |nodesList| && 0 <= s < nodesList[j].dof.Length
        ensures 0 <= nodesList[j].dof[s] < numberEquations
        ensures nodesList[j].dof[s] < numberFreeEquations <==> s in FreePass(KindOf(nodesList[j]))
      {
        NumberedSlot(j, s);
        NumberBound(ks, j, s);
      }
    }

    /** After the numbering no two slots, of the same node or of two nodes, share an index. */
    lemma NumberingInjective()
      requires Numbered()
      ensures forall j1, s1, j2, s2 ::
        && 0 <= j1 < |nodesList| && 0 <= s1 < nodesList[j1].dof.Length
        && 0 <= j2 < |nodesList| && 0 <= s2 < nodesList[j2].dof.Length
        && nodesList[j1].dof[s1] == nodesList[j2].dof[s2]
        ==> j1 == j2 && s1 == s2
    {
      var ks := Kinds(nodesList);
      forall j1, s1, j2, s2 |
        && 0 <= j1 < |nodesList| && 0 <= s1 < nodesList[j1].dof.Length
        && 0 <= j2 < |nodesList| && 0 <= s2 < nodesList[j2].dof.Length
        && nodesList[j1].dof[s1] == nodesList[j2].dof[s2]
        ensures j1 == j2 && s1 == s2
      {
        NumberedSlot(j1, s1);
        NumberedSlot(j2, s2);
        NumberInjective(ks, j1, s1, j2, s2);
      }
    }

    /** Some slot of some node holds index e. */
    ghost predicate Held(e: int)
      reads this`nodesList, nodesList, Dofs(nodesList)
    {
      exists j, s :: 0 <= j < |nodesList| && 0 <= s < nodesList[j].dof.Length && nodesList[j].dof[s] == e
    }

    /** After the numbering every index below the total is held by a slot. */
    lemma NumberingCovers()
      requires Numbered()
      ensures forall e :: 0 <= e < numberEquations ==> Held(e)
    {
      var ks := Kinds(nodesList);
      forall e | 0 <= e < numberEquations
        ensures Held(e)
      {
        var r := Owner(ks, e);
        PassesPartition(ks[r.0]);
        assert nodesList[r.0].dof[r.1] == e;
      }
    }

    /**
     * An element whose two end nodes are different listed nodes gathers six
     * different equation indices, all below the total.
     */
    lemma ElementEquationsNumbered(e: Element)
      requires Numbered()
      requires |e.nodes| == 2 && e.nodes[0] in nodesList && e.nodes[1] in nodesList && e.nodes[0] != e.nodes[1]
      ensures Gatherable(Views(e.nodes))
      ensures var g := Gather(Views(e.nodes), 2);
        |g| == 6 && Distinct(g) && forall k :: 0 <= k < 6 ==> 0 <= g[k] < numberEquations
    {
      var ks := Kinds(nodesList);
      var vs := Views(e.nodes);
      var j0 :| 0 <= j0 < |nodesList| && nodesList[j0] == e.nodes[0];
      var j1 :| 0 <= j1 < |nodesList| && nodesList[j1] == e.nodes[1];
      DofNumbers(j0);
      DofNumbers(j1);
      assert vs[0].dof == Numbers(ks, j0) && vs[1].dof == Numbers(ks, j1);
      NumbersPair(ks, j0, j1);
      GatherPairSelects(vs[0], vs[1]);
    }

    /** After the numbering a node's DoF list is its Numbers. */
    lemma DofNumbers(j: nat)
      requires Numbered() && j < |nodesList|
      ensures nodesList[j].dof[..] == Numbers(Kinds(nodesList), j)
    {
      forall s | 0 <= s < nodesList[j].dof.Length
        ensures nodesList[j].dof[s] == Numbers(Kinds(nodesList), j)[s]
      {
        NumberedSlot(j, s);
      }
    }

    /** Numbered() depends on the node list, the counters and the nodes alone. */
    twostate lemma NumberedKept()
      requires old(Numbered())
      requires unchanged(this`nodesList, this`numberEquations, this`numberFreeEquations)
      requires unchanged(nodesList) && unchanged(Dofs(nodesList))
      ensures Numbered()
    {
    }

    /** Zero load and displacement vectors and a zero stiffness matrix, one row and column per equation. */
    method AllocateGlobals()
      requires Numbered()
      modifies this`FG, this`UG, this`KG
      ensures ZeroGlobals() && fresh(FG) && fresh(UG) && fresh(KG)
      ensures Numbered()
    {
      var f := Zeros(numberEquations);
      var u := Zeros(numberEquations);
      var k := ZeroMatrix(numberEquations);
      FG, UG, KG := f, u, k;
      NumberedKept();
    }

    /** A fresh zero vector of length n. */
    static method Zeros(n: nat) returns (a: array<real>)
      ensures fresh(a) && a.Length == n && forall i :: 0 <= i < n ==> a[i] == 0.0
    {
      a := new real[n](_ => 0.0);
    }

    /** A fresh n-by-n zero matrix. */
    static method ZeroMatrix(n: nat) returns (m: array2<real>)
      ensures fresh(m) && m.Length0 == n && m.Length1 == n
      ensures forall i, j :: 0 <= i < n && 0 <= j < n ==> m[i, j] == 0.0
    {
      m := new real[n, n]((_, _) => 0.0);
    }

    /** The node collection from an empty list, with what it keeps of the DoF lists. */
    method CollectNodes()
      requires nodesList == []
      requires Fits(Flatten(elements)) && SeparateDoF(Flatten(elements))
      modifies this`nodesList
      ensures nodesList == Dedup(Flatten(elements))
      ensures Fits(nodesList) && Disjoint(nodesList) && Dofs(nodesList) <= Dofs(Flatten(elements))
    {
      FlattenAllocated(elements);
      FindNodes();
      assert Fits(Flatten(elements)) && SeparateDoF(Flatten(elements));
      DedupKeeps(Flatten(elements));
    }

    /** The two numbering passes with the counter started at 0. */
    method NumberFromZero()
      requires numberEquations == 0 && Fits(nodesList) && Disjoint(nodesList)
      modifies this`numberEquations, this`numberFreeEquations, Dofs(nodesList)
      ensures Numbered()
    {
      ghost var ks := Kinds(nodesList);
      FindEquations();
      NodesFramed(nodesList);
      forall j, s | 0 <= j < |nodesList| && 0 <= s < nodesList[j].dof.Length && s in Slots(KindOf(nodesList[j]))
        ensures nodesList[j].dof[s] == Number(ks, j, s)
      {
        assert DofAt(nodesList, j) == NumberedDof(ks, j, old(DofAt(nodesList, j)), 0);
        NumberedDofSlot(ks, j, old(DofAt(nodesList, j)), 0, s);
      }
    }

    /** Appends every end node of every element not already listed, in order. */
    method FindNodes()
      modifies this`nodesList
      ensures nodesList == AppendNew(old(nodesList), Flatten(elements))
    {
      ghost var start := nodesList;
      for i := 0 to |elements|
        invariant nodesList == AppendNew(start, Flatten(elements[..i]))
      {
        assert elements[..i + 1][..i] == elements[..i] && elements[..i + 1][i] == elements[i];
        AppendNewConcat(start, Flatten(elements[..i]), elements[i].nodes);
        AddNodes(elements[i].nodes);
      }
      assert elements[..|elements|] == elements;
    }

    /** The inner loop of the collection: the end nodes of one element. */
    method AddNodes(nodes: seq<Node>)
      modifies this`nodesList
      ensures nodesList == AppendNew(old(nodesList), nodes)
    {
      for k := 0 to |nodes|
        invariant nodesList == AppendNew(old(nodesList), nodes[..k])
      {
        var node := nodes[k];
        AppendNewStep(old(nodesList), nodes[..k], node);
        assert nodes[..k + 1] == nodes[..k] + [node];
        if node !in nodesList {
          nodesList := nodesList + [node];
        }
      }
      assert nodes[..|nodes|] == nodes;
    }

    /** Writes the counter into each given slot of the node in turn, advancing it each time. */
    method SetNodeDoF(node: Node, dof: seq<nat>)
      requires Below(dof, node.dof.Length)
      modifies node.dof, this`numberEquations
      ensures numberEquations == old(numberEquations) + |dof|
      ensures node.dof[..] == WriteSlots(old(node.dof[..]), dof, old(numberEquations))
    {
      for k := 0 to |dof|
        invariant numberEquations == old(numberEquations) + k
        invariant node.dof[..] == WriteSlots(old(node.dof[..]), dof[..k], old(numberEquations))
      {
        assert dof[..k + 1][..k] == dof[..k];
        node.dof[dof[k]] := numberEquations;
        numberEquations := numberEquations + 1;
      }
      assert dof[..|dof|] == dof;
    }

    /** The free pass's work on one node: the free slots of its support, then its hinge slot. */
    method NumberFreeSlots(node: Node)
      requires node.dof.Length == SlotCount(KindOf(node))
      modifies node.dof, this`numberEquations
      ensures numberEquations == old(numberEquations) + |FreePass(KindOf(node))|
      ensures node.dof[..] == FreeWrite(KindOf(node), old(node.dof[..]), old(numberEquations))
    {
      ghost var c := numberEquations;
      ghost var before := node.dof[..];
      if node.supportType == Free {
        SetNodeDoF(node, FreeSlots(Free));
      } else if node.supportType == RollerX {
        SetNodeDoF(node, FreeSlots(RollerX));
      } else if node.supportType == RollerY {
        SetNodeDoF(node, FreeSlots(RollerY));
      } else if node.supportType == Pinned {
        SetNodeDoF(node, FreeSlots(Pinned));
      }
      ghost var t := FreeSlots(node.supportType);
      assert node.dof[..] == WriteSlots(before, t, c);
      assert numberEquations == c + |t|;
      ghost var mid := node.dof[..];
      if node.hinge {
        node.dof[3] := numberEquations;
        numberEquations := numberEquations + 1;
        assert node.dof[..] == WriteSlots(mid, [3], c + |t|);
      } else {
        assert node.dof[..] == WriteSlots(mid, [], c + |t|);
      }
      WriteSlotsConcat(before, t, if node.hinge then [3] else [], c);
    }

    /**
     * The free pass: node by node, the free slots of its support, then the
     * hinge slot 3 of a hinged node.
     */
    method CalcFreeEquations()
      requires Fits(nodesList) && Disjoint(nodesList)
      modifies Dofs(nodesList), this`numberEquations
      ensures numberEquations == old(numberEquations) + Len(FreeBlocks(Kinds(nodesList)))
      ensures forall j {:trigger DofAt(nodesList, j)} :: 0 <= j < |nodesList| ==>
        DofAt(nodesList, j) == FreeWrite(KindOf(nodesList[j]), old(DofAt(nodesList, j)),
                                          Start(FreeBlocks(Kinds(nodesList)), j, old(numberEquations)))
    {
      ghost var ks := Kinds(nodesList);
      ghost var bs := FreeBlocks(ks);
      ghost var c0 := numberEquations;
      for i := 0 to |nodesList|
        invariant numberEquations == Start(bs, i, c0)
        invariant forall j {:trigger DofAt(nodesList, j)} :: 0 <= j < i ==>
          DofAt(nodesList, j) == FreeWrite(ks[j], old(DofAt(nodesList, j)), Start(bs, j, c0))
        invariant forall j {:trigger DofAt(nodesList, j)} :: i <= j < |nodesList| ==> DofAt(nodesList, j) == old(DofAt(nodesList, j))
      {
        DofsApart(nodesList, i);
        ghost var pre := DofAt(nodesList, i);
        NumberFreeSlots(nodesList[i]);
        assert DofAt(nodesList, i) == FreeWrite(ks[i], pre, Start(bs, i, c0));
        BeforeStep(bs, i);
      }
    }

    /** The constrained pass's work on one node: the constrained slots of its support. */
    method NumberConstrainedSlots(node: Node)
      requires node.dof.Length == SlotCount(KindOf(node))
      modifies node.dof, this`numberEquations
      ensures numberEquations == old(numberEquations) + |ConstrainedPass(KindOf(node))|
      ensures node.dof[..] == ConstrainedWrite(KindOf(node), old(node.dof[..]), old(numberEquations))
    {
      if node.supportType == RollerX {
        SetNodeDoF(node, ConstrainedSlots(RollerX));
      } else if node.supportType == RollerY {
        SetNodeDoF(node, ConstrainedSlots(RollerY));
      } else if node.supportType == Pinned {
        SetNodeDoF(node, ConstrainedSlots(Pinned));
      } else if node.supportType == Fixed {
        SetNodeDoF(node, ConstrainedSlots(Fixed));
      }
    }

    /** The constrained pass: node by node, the constrained slots of its support. */
    method CalcConstrainedEquations()
      requires Fits(nodesList) && Disjoint(nodesList)
      modifies Dofs(nodesList), this`numberEquations
      ensures numberEquations == old(numberEquations) + Len(ConstrainedBlocks(Kinds(nodesList)))
      ensures forall j {:trigger DofAt(nodesList, j)} :: 0 <= j < |nodesList| ==>
        DofAt(nodesList, j) == ConstrainedWrite(KindOf(nodesList[j]), old(DofAt(nodesList, j)),
                                                 Start(ConstrainedBlocks(Kinds(nodesList)), j, old(numberEquations)))
    {
      ghost var ks := Kinds(nodesList);
      ghost var bs := ConstrainedBlocks(ks);
      ghost var c0 := numberEquations;
      for i := 0 to |nodesList|
        invariant numberEquations == Start(bs, i, c0)
        invariant forall j {:trigger DofAt(nodesList, j)} :: 0 <= j < i ==>
          DofAt(nodesList, j) == ConstrainedWrite(ks[j], old(DofAt(nodesList, j)), Start(bs, j, c0))
        invariant forall j {:trigger DofAt(nodesList, j)} :: i <= j < |nodesList| ==> DofAt(nodesList, j) == old(DofAt(nodesList, j))
      {
        DofsApart(nodesList, i);
        ghost var pre := DofAt(nodesList, i);
        NumberConstrainedSlots(nodesList[i]);
        assert DofAt(nodesList, i) == ConstrainedWrite(ks[i], pre, Start(bs, i, c0));
        BeforeStep(bs, i);
      }
    }

    /**
     * Both passes; the free count is the counter between them. Counting from
     * the counter's starting value, every slot of every node ends up holding
     * its Number.
     */
    method FindEquations()
      requires Fits(nodesList) && Disjoint(nodesList)
      modifies Dofs(nodesList), this`numberEquations, this`numberFreeEquations
      ensures numberFreeEquations == old(numberEquations) + Len(FreeBlocks(Kinds(nodesList)))
      ensures numberEquations == numberFreeEquations + Len(ConstrainedBlocks(Kinds(nodesList)))
      ensures forall j {:trigger DofAt(nodesList, j)} :: 0 <= j < |nodesList| ==>
        DofAt(nodesList, j) == NumberedDof(Kinds(nodesList), j, old(DofAt(nodesList, j)), old(numberEquations))
    {
      ghost var ks := Kinds(nodesList);
      ghost var c0 := numberEquations;
      ghost var c1 := c0 + Len(FreeBlocks(ks));
      CalcFreeEquations();
      label free:
      NodesFramed(nodesList);
      assert numberEquations == c1;
      numberFreeEquations := numberEquations;
      CalcConstrainedEquations();
      forall j | 0 <= j < |nodesList|
        ensures DofAt(nodesList, j) == NumberedDof(ks, j, old(DofAt(nodesList, j)), c0)
      {
        ghost var before := old(DofAt(nodesList, j));
        ghost var mid := old@free(DofAt(nodesList, j));
        ghost var after := DofAt(nodesList, j);
        assert mid == FreeWrite(ks[j], before, Start(FreeBlocks(ks), j, c0));
        assert after == ConstrainedWrite(ks[j], mid, Start(ConstrainedBlocks(ks), j, c1));
        PassesCompose(ks, j, before, mid, after, c0, c1);
      }
    }
  }
}
