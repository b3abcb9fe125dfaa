/**
 * BalancedLevelsGenerator: cutting an oct-tree into one domain map per refinement level
 * (extractLevel), and the hypergraphs handed to the partitioner for each level
 * (balanceLevel, balanceLevelWithLower), in the order zoltanBalance asks for them.
 *
 * Sides are numbers below 2D (Side<D>::toInt()); orthants are numbers below 2^D whose bit
 * a says "upper half on axis a".
 */
module BalancedLevels {
  import opened Wrappers
  import opened IntMath
  import opened OrderedSets
  import GhostPlan

  // ---------------------------------------------------------------------------
  // The tree

  /** A node of the oct-tree: its level, its parent (-1 for the root), its children by
      orthant, its neighbours by side (-1 on the domain boundary) and its geometry. */
  datatype Node = Node(id: int, level: int, parent: int, childIds: seq<int>, nbrIds: seq<int>,
                       hasChildren: bool, lengths: seq<real>, starts: seq<real>)

  /** The tree: nodes by id, and for each level the node the level's extraction starts from. */
  datatype Tree = Tree(nodes: map<int, Node>, levelStarts: map<int, int>, numLevels: nat)

  /** The child ids of a node on side s, in the order of Orthant<D>::getValuesOnSide(s). */
  function ChildrenOnSide(childIds: seq<int>, d: nat, s: nat): (r: seq<int>)
    requires s < 2 * d && |childIds| == Pow2(d)
    ensures |r| == Pow2(d - 1)
  {
    seq(Pow2(d - 1), i requires 0 <= i < Pow2(d - 1) => ChildOnSide(childIds, d, s, i))
  }

  function ChildOnSide(childIds: seq<int>, d: nat, s: nat, i: nat): int
    requires s < 2 * d && |childIds| == Pow2(d) && i < Pow2(d - 1)
  {
    GhostPlan.OrthantOnSideSpec(d, s, i);
    childIds[GhostPlan.OrthantOnSide(s, i)]
  }

  /** What extractLevel relies on the tree for: every id it looks up is a node, children
      and neighbours are consistent, the root is nobody's neighbour, and a node with no
      neighbour on a side where its parent has one lies on that side of its parent. */
  ghost predicate TreeValid(t: Tree, d: nat)
  {
    d >= 1 && forall k :: k in t.nodes ==> NodeValid(t, d, k)
  }

  ghost predicate NodeValid(t: Tree, d: nat, k: int)
    requires k in t.nodes
  {
    var n := t.nodes[k];
    && k >= 0 && n.id == k
    && |n.childIds| == Pow2(d) && |n.nbrIds| == 2 * d
    && (forall s :: 0 <= s < 2 * d && n.nbrIds[s] != -1 ==>
          n.nbrIds[s] in t.nodes && t.nodes[n.nbrIds[s]].parent != -1)
    && (n.hasChildren ==> forall o :: 0 <= o < |n.childIds| ==>
          n.childIds[o] in t.nodes && t.nodes[n.childIds[o]].parent == k)
    && (n.parent != -1 ==>
          && n.parent in t.nodes
          && |t.nodes[n.parent].childIds| == Pow2(d) && |t.nodes[n.parent].nbrIds| == 2 * d
          && k in t.nodes[n.parent].childIds
          && forall s :: 0 <= s < 2 * d && n.nbrIds[s] == -1 && t.nodes[n.parent].nbrIds[s] != -1 ==>
               k in ChildrenOnSide(t.nodes[n.parent].childIds, d, s))
  }

  /** t.levels.at(level) names a node, and that node is not a root below the level. */
  ghost predicate LevelStartValid(t: Tree, level: int)
  {
    level in t.levelStarts && Visitable(t, level, t.levelStarts[level])
  }

  /** A node extractLevel may meet: a node of the tree that is not a root below the level
      (for such a root the source would look up the parent -1). */
  ghost predicate Visitable(t: Tree, level: int, k: int)
  {
    k in t.nodes && (t.nodes[k].parent != -1 || t.nodes[k].level >= level)
  }

  // ---------------------------------------------------------------------------
  // The domains of a level

  /** NormalNbrInfo, CoarseNbrInfo (with the orthant of the coarse neighbour's side the
      patch covers) and FineNbrInfo (the neighbour's children on the shared side). */
  datatype LevelNbr = NormalInfo(id: int) | CoarseInfo(id: int, quad: nat) | FineInfo(ids: seq<int>)

  /** A Domain as extractLevel fills it in; octOnParent is None where it is left unset. */
  datatype LevelDomain = LevelDomain(n: int, id: int, lengths: seq<real>, starts: seq<real>,
                                     childIds: seq<int>, refineLevel: int, parentId: int,
                                     octOnParent: Option<nat>, nbrs: map<nat, LevelNbr>)

  /** The first position of x in s. */
  function IndexOf(s: seq<int>, x: int): (i: nat)
    requires x in s
    ensures i < |s| && s[i] == x
    ensures forall j :: 0 <= j < i ==> s[j] != x
  {
    if s[0] == x then 0 else 1 + IndexOf(s[1..], x)
  }

  /** The first position is the only position with no earlier occurrence. */
  lemma IndexOfUnique(s: seq<int>, x: int, i: nat)
    requires i < |s| && s[i] == x && forall j :: 0 <= j < i ==> s[j] != x
    ensures IndexOf(s, x) == i
  {
  }

  /** A node of a level below the target stands for itself on the coarser grid. */
  function ParentId(n: Node, level: int): int
  {
    if n.level < level then n.id else n.parent
  }

  ghost function OctOnParent(t: Tree, d: nat, level: int, k: int): Option<nat>
    requires TreeValid(t, d) && Visitable(t, level, k)
  {
    var n := t.nodes[k];
    if ParentId(n, level) != -1 then Some(IndexOf(t.nodes[n.parent].childIds, k)) else None
  }

  /** The neighbour information extractLevel gives side s of node k. */
  ghost function SideInfo(t: Tree, d: nat, level: int, k: int, s: nat): Option<LevelNbr>
    requires TreeValid(t, d) && k in t.nodes && s < 2 * d
  {
    var n := t.nodes[k];
    var nb := n.nbrIds[s];
    if nb == -1 && n.parent != -1 && t.nodes[n.parent].nbrIds[s] != -1 then
      var p := t.nodes[n.parent];
      Some(CoarseInfo(p.nbrIds[s], IndexOf(ChildrenOnSide(p.childIds, d, s), k)))
    else if n.level < level && nb != -1 && t.nodes[nb].hasChildren then
      Some(FineInfo(ChildrenOnSide(t.nodes[nb].childIds, d, GhostPlan.Opposite(s))))
    else if nb != -1 then
      Some(NormalInfo(nb))
    else
      None
  }

  ghost function SideInfos(t: Tree, d: nat, level: int, k: int, m: nat): map<nat, LevelNbr>
    requires TreeValid(t, d) && k in t.nodes && m <= 2 * d
  {
    map s: nat | s < m && SideInfo(t, d, level, k, s).Some? :: SideInfo(t, d, level, k, s).value
  }

  /** The domain extractLevel builds for node k of the tree. */
  ghost function DomainOf(t: Tree, d: nat, level: int, nx: int, k: int): LevelDomain
    requires TreeValid(t, d) && Visitable(t, level, k)
  {
    var n := t.nodes[k];
    LevelDomain(nx, k, n.lengths, n.starts, n.childIds, n.level, ParentId(n, level),
                OctOnParent(t, d, level, k), SideInfos(t, d, level, k, 2 * d))
  }

  /** The ids a neighbour record names. */
  function InfoIds(info: LevelNbr): set<int>
  {
    match info
    case NormalInfo(id) => {id}
    case CoarseInfo(id, _) => {id}
    case FineInfo(ids) => Elems(ids)
  }

  function RefsOf(nbrs: map<nat, LevelNbr>): set<int>
  {
    set s, r | s in nbrs && r in InfoIds(nbrs[s]) :: r
  }

  /** The ids a domain names as neighbours. */
  function Refs(dom: LevelDomain): set<int>
  {
    RefsOf(dom.nbrs)
  }

  lemma SideInfosStep(t: Tree, d: nat, level: int, k: int, s: nat)
    requires TreeValid(t, d) && k in t.nodes && s < 2 * d
    ensures s !in SideInfos(t, d, level, k, s)
    ensures SideInfos(t, d, level, k, s + 1) ==
              if SideInfo(t, d, level, k, s).Some?
              then SideInfos(t, d, level, k, s)[s := SideInfo(t, d, level, k, s).value]
              else SideInfos(t, d, level, k, s)
  {
  }

  lemma RefsOfStep(nbrs: map<nat, LevelNbr>, s: nat, info: LevelNbr)
    requires s !in nbrs
    ensures RefsOf(nbrs[s := info]) == RefsOf(nbrs) + InfoIds(info)
  {
    var m := nbrs[s := info];
    forall r | r in RefsOf(m)
      ensures r in RefsOf(nbrs) + InfoIds(info)
    {
      var s' :| s' in m && r in InfoIds(m[s']);
      if s' != s {
        assert s' in nbrs && nbrs[s'] == m[s'];
      }
    }
    forall r | r in RefsOf(nbrs) + InfoIds(info)
      ensures r in RefsOf(m)
    {
      if r in InfoIds(info) {
        assert s in m && m[s] == info;
      } else {
        var s' :| s' in nbrs && r in InfoIds(nbrs[s']);
        assert s' in m && m[s'] == nbrs[s'];
      }
    }
  }

  /** Every id a side names is a node of the tree with a parent, so extractLevel may visit it. */
  lemma SideInfoVisitable(t: Tree, d: nat, level: int, k: int, s: nat, x: int)
    requires TreeValid(t, d) && k in t.nodes && s < 2 * d
    requires SideInfo(t, d, level, k, s).Some? && x in InfoIds(SideInfo(t, d, level, k, s).value)
    ensures x in t.nodes && t.nodes[x].parent != -1
  {
    var n := t.nodes[k];
    var info := SideInfo(t, d, level, k, s).value;
    assert NodeValid(t, d, k);
    if info.CoarseInfo? {
      assert NodeValid(t, d, n.parent);
    } else if info.FineInfo? {
      var nb := n.nbrIds[s];
      assert NodeValid(t, d, nb);
      var o := GhostPlan.Opposite(s);
      var i :| 0 <= i < |info.ids| && info.ids[i] == x;
      assert x == ChildOnSide(t.nodes[nb].childIds, d, o, i);
      GhostPlan.OrthantOnSideSpec(d, o, i);
    }
  }

  /** How extractLevel classifies side s of node k: Coarse exactly when the node has no
      neighbour there but its parent has, naming the parent's neighbour and the orthant
      of the parent (on side s) the node occupies; Fine exactly when the node is below
      the level and its neighbour has children, listing the neighbour's children on the
      facing side; otherwise Normal exactly when there is a neighbour. */
  lemma SideInfoMeaning(t: Tree, d: nat, level: int, k: int, s: nat)
    requires TreeValid(t, d) && k in t.nodes && s < 2 * d
    ensures var info := SideInfo(t, d, level, k, s);
            var n := t.nodes[k];
            var nb := n.nbrIds[s];
            var coarse := nb == -1 && n.parent != -1 && t.nodes[n.parent].nbrIds[s] != -1;
            var fine := !coarse && n.level < level && nb != -1 && t.nodes[nb].hasChildren;
            && (info.Some? && info.value.CoarseInfo? <==> coarse)
            && (info.Some? && info.value.FineInfo? <==> fine)
            && (info.Some? && info.value.NormalInfo? <==> nb != -1 && !fine)
            && (info.None? <==> nb == -1 && !coarse)
            && (coarse ==>
                  (&& info.value.id == t.nodes[n.parent].nbrIds[s]
                   && info.value.quad < Pow2(d - 1)
                   && var o := GhostPlan.OrthantOnSide(s, info.value.quad);
                      && 0 <= o < Pow2(d) && t.nodes[n.parent].childIds[o] == k
                      && (o / Pow2(GhostPlan.Axis(s))) % 2 == (if GhostPlan.IsLower(s) then 0 else 1)))
            && (fine ==>
                  (&& |info.value.ids| == Pow2(d - 1)
                   && forall i :: 0 <= i < Pow2(d - 1) ==>
                        info.value.ids[i] in t.nodes && t.nodes[info.value.ids[i]].parent == nb))
            && (info.Some? && info.value.NormalInfo? ==> info.value.id == nb)
  {
    var info := SideInfo(t, d, level, k, s);
    var n := t.nodes[k];
    var nb := n.nbrIds[s];
    assert NodeValid(t, d, k);
    if nb == -1 && n.parent != -1 && t.nodes[n.parent].nbrIds[s] != -1 {
      var p := t.nodes[n.parent];
      var quad := info.value.quad;
      assert ChildrenOnSide(p.childIds, d, s)[quad] == k;
      GhostPlan.OrthantOnSideSpec(d, s, quad);
    } else if n.level < level && nb != -1 && t.nodes[nb].hasChildren {
      assert NodeValid(t, d, nb);
      var o := GhostPlan.Opposite(s);
      forall i | 0 <= i < Pow2(d - 1)
        ensures info.value.ids[i] in t.nodes && t.nodes[info.value.ids[i]].parent == nb
      {
        assert info.value.ids[i] == ChildOnSide(t.nodes[nb].childIds, d, o, i);
        GhostPlan.OrthantOnSideSpec(d, o, i);
      }
    }
  }

  /** The parent id and the orthant on the parent extractLevel records for node k. */
  lemma ParentMeaning(t: Tree, d: nat, level: int, nx: int, k: int)
    requires TreeValid(t, d) && Visitable(t, level, k)
    ensures var dom := DomainOf(t, d, level, nx, k);
            var n := t.nodes[k];
            && dom.id == k && dom.refineLevel == n.level
            && dom.parentId == (if n.level < level then k else n.parent)
            && (dom.octOnParent.Some? <==> dom.parentId != -1)
            && (dom.octOnParent.Some? ==>
                  && n.parent in t.nodes
                  && dom.octOnParent.value < |t.nodes[n.parent].childIds|
                  && t.nodes[n.parent].childIds[dom.octOnParent.value] == k
                  && forall o :: 0 <= o < dom.octOnParent.value ==> t.nodes[n.parent].childIds[o] != k)
            && forall s :: s in dom.nbrs ==> s < 2 * d
  {
    assert NodeValid(t, d, k);
  }

  // ---------------------------------------------------------------------------
  // extractLevel

  /** The loop at BalancedLevelsGenerator.h:89-92: the orthant of the parent that holds id. */
  method FindOrthant(childIds: seq<int>, id: int) returns (oct: nat)
    requires id in childIds
    ensures oct < |childIds| && childIds[oct] == id
    ensures forall j :: 0 <= j < oct ==> childIds[j] != id
    ensures oct == IndexOf(childIds, id)
  {
    oct := 0;
    while childIds[oct] != id
      invariant oct < |childIds| && id in childIds[oct..]
      invariant forall j :: 0 <= j < oct ==> childIds[j] != id
      decreases |childIds| - oct
    {
      oct := oct + 1;
    }
    IndexOfUnique(childIds, id, oct);
  }

  /** The loop at BalancedLevelsGenerator.h:100-104: the position of id among the parent's
      children on side s. */
  method FindQuad(childIds: seq<int>, d: nat, s: nat, id: int) returns (quad: nat)
    requires s < 2 * d && |childIds| == Pow2(d) && id in ChildrenOnSide(childIds, d, s)
    ensures quad < Pow2(d - 1) && ChildOnSide(childIds, d, s, quad) == id
    ensures forall j :: 0 <= j < quad ==> ChildOnSide(childIds, d, s, j) != id
    ensures quad == IndexOf(ChildrenOnSide(childIds, d, s), id)
  {
    ghost var octs := ChildrenOnSide(childIds, d, s);
    quad := 0;
    while ChildOnSide(childIds, d, s, quad) != id
      invariant quad < Pow2(d - 1) && id in octs[quad..]
      invariant forall j :: 0 <= j < quad ==> ChildOnSide(childIds, d, s, j) != id
      decreases Pow2(d - 1) - quad
    {
      assert octs[quad] != id;
      quad := quad + 1;
    }
    IndexOfUnique(octs, id, quad);
  }

  /** The queue grows only at its end, never holds an id twice, and holds, past the ids
      it started with, exactly the ids marked since. */
  ghost predicate Frontier(q0: seq<int>, qed0: set<int>, q: seq<int>, qed: set<int>)
  {
    && qed0 <= qed && |q0| <= |q| && q[..|q0|] == q0 && Distinct(q)
    && Elems(q) == Elems(q0) + (qed - qed0)
  }

  lemma FrontierAdds(q0: seq<int>, qed0: set<int>, q: seq<int>, qed: set<int>, R: set<int>)
    requires Frontier(q0, qed0, q, qed) && qed == qed0 + R
    ensures forall x :: x in q ==> x in q0 || x in R
  {
    assert forall x :: x in q ==> x in Elems(q);
  }

  /** `if (!qed.count(id)) { q.push_back(id); qed.insert(id); }` */
  method Enqueue(q: seq<int>, qed: set<int>, x: int, ghost q0: seq<int>, ghost qed0: set<int>)
      returns (q': seq<int>, qed': set<int>)
    requires Frontier(q0, qed0, q, qed) && Elems(q0) <= qed0
    ensures Frontier(q0, qed0, q', qed') && qed' == qed + {x}
  {
    if x !in qed {
      q' := q + [x];
      qed' := qed + {x};
      assert Elems(q') == Elems(q) + {x};
    } else {
      q', qed' := q, qed;
    }
  }

  /** The loop at BalancedLevelsGenerator.h:115-122: the neighbour's children on the side
      facing the node, each enqueued unless already marked. */
  method FineSide(childIds: seq<int>, d: nat, o: nat, q: seq<int>, qed: set<int>,
                  ghost q0: seq<int>, ghost qed0: set<int>)
      returns (ids: seq<int>, q': seq<int>, qed': set<int>)
    requires o < 2 * d && |childIds| == Pow2(d)
    requires Frontier(q0, qed0, q, qed) && Elems(q0) <= qed0
    ensures ids == ChildrenOnSide(childIds, d, o)
    ensures Frontier(q0, qed0, q', qed') && qed' == qed + Elems(ids)
  {
    ghost var all := ChildrenOnSide(childIds, d, o);
    ids := [];
    q', qed' := q, qed;
    for i := 0 to Pow2(d - 1)
      invariant ids == all[..i]
      invariant Frontier(q0, qed0, q', qed') && qed' == qed + Elems(ids)
    {
      var id := ChildOnSide(childIds, d, o, i);
      assert Elems(ids + [id]) == Elems(ids) + {id};
      ids := ids + [id];
      q', qed' := Enqueue(q', qed', id, q0, qed0);
    }
    assert ids == all;
  }

  /** One side of the loop at BalancedLevelsGenerator.h:96-132. */
  method SideStep(t: Tree, d: nat, level: int, k: int, s: nat, q: seq<int>, qed: set<int>,
                  ghost q0: seq<int>, ghost qed0: set<int>)
      returns (info: Option<LevelNbr>, q': seq<int>, qed': set<int>)
    requires TreeValid(t, d) && k in t.nodes && s < 2 * d
    requires Frontier(q0, qed0, q, qed) && Elems(q0) <= qed0
    ensures info == SideInfo(t, d, level, k, s)
    ensures Frontier(q0, qed0, q', qed')
    ensures qed' == qed + (if info.Some? then InfoIds(info.value) else {})
  {
    var n := t.nodes[k];
    assert NodeValid(t, d, k);
    var nb := n.nbrIds[s];
    if nb == -1 && n.parent != -1 && t.nodes[n.parent].nbrIds[s] != -1 {
      var parent := t.nodes[n.parent];
      assert NodeValid(t, d, n.parent);
      var nbr := t.nodes[parent.nbrIds[s]];
      assert NodeValid(t, d, parent.nbrIds[s]);
      var quad := FindQuad(parent.childIds, d, s, n.id);
      info := Some(CoarseInfo(nbr.id, quad));
      q', qed' := Enqueue(q, qed, nbr.id, q0, qed0);
    } else if n.level < level && nb != -1 && t.nodes[nb].hasChildren {
      var nbr := t.nodes[nb];
      assert NodeValid(t, d, nb);
      var ids;
      ids, q', qed' := FineSide(nbr.childIds, d, GhostPlan.Opposite(s), q, qed, q0, qed0);
      info := Some(FineInfo(ids));
    } else if nb != -1 {
      info := Some(NormalInfo(nb));
      q', qed' := Enqueue(q, qed, nb, q0, qed0);
    } else {
      info := None;
      q', qed' := q, qed;
    }
  }

  /** The loop over the sides at BalancedLevelsGenerator.h:96-132. */
  method SideLoop(t: Tree, d: nat, level: int, k: int, q0: seq<int>, qed0: set<int>)
      returns (nbrs: map<nat, LevelNbr>, q: seq<int>, qed: set<int>)
    requires TreeValid(t, d) && k in t.nodes
    requires Distinct(q0) && Elems(q0) <= qed0
    ensures nbrs == SideInfos(t, d, level, k, 2 * d)
    ensures Frontier(q0, qed0, q, qed) && qed == qed0 + RefsOf(nbrs)
  {
    nbrs := map[];
    q, qed := q0, qed0;
    assert q0[..|q0|] == q0;
    for s := 0 to 2 * d
      invariant nbrs == SideInfos(t, d, level, k, s)
      invariant Frontier(q0, qed0, q, qed) && qed == qed0 + RefsOf(nbrs)
    {
      var info;
      info, q, qed := SideStep(t, d, level, k, s, q, qed, q0, qed0);
      SideInfosStep(t, d, level, k, s);
      if info.Some? {
        RefsOfStep(nbrs, s, info.value);
        nbrs := nbrs[s := info.value];
      }
    }
  }

  /** One pass of the loop at BalancedLevelsGenerator.h:71-134: the domain of node k, with
      every id it names marked and the unmarked ones enqueued. */
  method VisitNode(t: Tree, d: nat, level: int, nx: int, k: int, q0: seq<int>, qed0: set<int>)
      returns (dom: LevelDomain, q: seq<int>, qed: set<int>)
    requires TreeValid(t, d) && Visitable(t, level, k)
    requires Distinct(q0) && Elems(q0) <= qed0
    ensures dom == DomainOf(t, d, level, nx, k)
    ensures Frontier(q0, qed0, q, qed) && qed == qed0 + Refs(dom)
  {
    var n := t.nodes[k];
    assert k in t.nodes;
    var parentId := if n.level < level then n.id else n.parent;
    var oct: Option<nat> := None;
    if parentId != -1 {
      var o := FindOrthant(t.nodes[n.parent].childIds, n.id);
      oct := Some(o);
    }
    var nbrs;
    nbrs, q, qed := SideLoop(t, d, level, k, q0, qed0);
    dom := LevelDomain(nx, n.id, n.lengths, n.starts, n.childIds, n.level, parentId, oct, nbrs);
  }

  /** Every id the domain of a visitable node names may itself be visited. */
  lemma RefsVisitable(t: Tree, d: nat, level: int, nx: int, k: int)
    requires TreeValid(t, d) && Visitable(t, level, k)
    ensures forall x :: x in Refs(DomainOf(t, d, level, nx, k)) ==> Visitable(t, level, x)
  {
    var nbrs := DomainOf(t, d, level, nx, k).nbrs;
    forall x | x in Refs(DomainOf(t, d, level, nx, k))
      ensures Visitable(t, level, x)
    {
      var s :| s in nbrs && x in InfoIds(nbrs[s]);
      SideInfoVisitable(t, d, level, k, s, x);
    }
  }

  /** x is named by one of the first i visited nodes. */
  ghost predicate NamedBefore(m: map<int, LevelDomain>, order: seq<int>, x: int, i: int)
  {
    exists j :: 0 <= j < i && j < |order| && order[j] in m && x in Refs(m[order[j]])
  }

  /** Every visited node after the first was named by a node visited before it. */
  ghost predicate Witnessed(m: map<int, LevelDomain>, order: seq<int>)
  {
    forall i :: 0 < i < |order| ==> NamedBefore(m, order, order[i], i)
  }

  /** Taking cur off the queue and recording its domain keeps every visited and every
      queued node named by an earlier visited one. */
  lemma WitnessStep(m: map<int, LevelDomain>, order: seq<int>, cur: int, rest: seq<int>,
                    dom: LevelDomain, q': seq<int>)
    requires Elems(order) <= m.Keys && cur !in m
    requires order == [] ==> rest == []
    requires Witnessed(m, order)
    requires forall x :: x in [cur] + rest && order != [] ==> NamedBefore(m, order, x, |order|)
    requires forall x :: x in q' ==> x in rest || x in Refs(dom)
    ensures Witnessed(m[cur := dom], order + [cur])
    ensures forall x :: x in q' ==> NamedBefore(m[cur := dom], order + [cur], x, |order| + 1)
  {
    var m', order' := m[cur := dom], order + [cur];
    forall x, j | 0 <= j < |order| && order[j] in m && x in Refs(m[order[j]])
      ensures NamedBefore(m', order', x, |order| + 1)
    {
      assert order'[j] == order[j] && order[j] != cur && m'[order[j]] == m[order[j]];
    }
    forall x | x in q'
      ensures NamedBefore(m', order', x, |order| + 1)
    {
      if x !in rest {
        assert order'[|order|] == cur && m'[cur] == dom;
      } else {
        assert x in [cur] + rest;
      }
    }
    forall i | 0 < i < |order'|
      ensures NamedBefore(m', order', order'[i], i)
    {
      if i < |order| {
        assert NamedBefore(m, order, order[i], i);
        var j :| 0 <= j < i && order[j] in m && order[i] in Refs(m[order[j]]);
        assert order'[j] == order[j] && order[j] != cur && m'[order[j]] == m[order[j]];
      } else {
        assert cur in [cur] + rest;
        var j :| 0 <= j < |order| && order[j] in m && cur in Refs(m[order[j]]);
        assert order'[j] == order[j] && order[j] != cur && m'[order[j]] == m[order[j]];
      }
    }
  }

  /** The bookkeeping of the search, apart from the tree: the marked ids are the visited
      and the queued ones, each visited domain names only marked ids, and the visit order
      is witnessed from the start. */
  ghost predicate Searching(q: seq<int>, qed: set<int>, m: map<int, LevelDomain>, order: seq<int>, start: int)
  {
    && qed == m.Keys + Elems(q) && m.Keys !! Elems(q) && Distinct(q)
    && (forall k, r :: k in m && r in Refs(m[k]) ==> r in qed)
    && Distinct(order) && Elems(order) == m.Keys
    && (order == [] ==> q == [start])
    && (order != [] ==> order[0] == start)
    && Witnessed(m, order)
    && (forall x :: x in q && order != [] ==> NamedBefore(m, order, x, |order|))
  }

  /** Visiting the head of the queue keeps the bookkeeping. */
  lemma SearchStep(q: seq<int>, qed: set<int>, m: map<int, LevelDomain>, order: seq<int>, start: int,
                   dom: LevelDomain, q': seq<int>, qed': set<int>, m': map<int, LevelDomain>, order': seq<int>)
    requires Searching(q, qed, m, order, start) && q != []
    requires Frontier(q[1..], qed, q', qed') && qed' == qed + Refs(dom)
    requires m' == m[q[0] := dom] && order' == order + [q[0]]
    ensures Searching(q', qed', m', order', start)
  {
    var cur, rest := q[0], q[1..];
    assert q == [cur] + rest;
    MarkedStep(q, qed, m, dom, q', qed', m');
    FrontierAdds(rest, qed, q', qed', Refs(dom));
    WitnessStep(m, order, cur, rest, dom, q');
    OrderStep(order, cur, m, dom, m', order');
  }

  lemma OrderStep(order: seq<int>, cur: int, m: map<int, LevelDomain>, dom: LevelDomain,
                  m': map<int, LevelDomain>, order': seq<int>)
    requires Distinct(order) && Elems(order) == m.Keys && cur !in m
    requires m' == m[cur := dom] && order' == order + [cur]
    ensures Distinct(order') && Elems(order') == m'.Keys
  {
    assert Elems(order') == Elems(order) + {cur};
    assert m'.Keys == m.Keys + {cur};
  }

  lemma MarkedStep(q: seq<int>, qed: set<int>, m: map<int, LevelDomain>,
                   dom: LevelDomain, q': seq<int>, qed': set<int>, m': map<int, LevelDomain>)
    requires qed == m.Keys + Elems(q) && m.Keys !! Elems(q) && Distinct(q) && q != []
    requires forall k, r :: k in m && r in Refs(m[k]) ==> r in qed
    requires Frontier(q[1..], qed, q', qed') && qed' == qed + Refs(dom)
    requires m' == m[q[0] := dom]
    ensures qed' == m'.Keys + Elems(q') && m'.Keys !! Elems(q') && Distinct(q')
    ensures forall k, r :: k in m' && r in Refs(m'[k]) ==> r in qed'
  {
    var cur, rest := q[0], q[1..];
    assert q == [cur] + rest;
    assert Elems(q) == {cur} + Elems(rest) && cur !in Elems(rest);
    assert m'.Keys == m.Keys + {cur};
  }

  /** The state of the search between two visits: the bookkeeping, every marked id is a
      node the search may visit, and every recorded domain is the node's. */
  ghost predicate SearchState(t: Tree, d: nat, level: int, nx: int, q: seq<int>, qed: set<int>,
                              m: map<int, LevelDomain>, order: seq<int>)
  {
    && TreeValid(t, d) && LevelStartValid(t, level)
    && Searching(q, qed, m, order, t.levelStarts[level])
    && (forall x :: x in qed ==> Visitable(t, level, x))
    && (forall k :: k in m ==> k in qed && m[k] == DomainOf(t, d, level, nx, k))
  }

  /** Recording the domain of the head of the queue keeps the state of the search. */
  lemma SearchStateStep(t: Tree, d: nat, level: int, nx: int, q: seq<int>, qed: set<int>,
                        m: map<int, LevelDomain>, order: seq<int>,
                        dom: LevelDomain, q': seq<int>, qed': set<int>)
    requires SearchState(t, d, level, nx, q, qed, m, order) && q != []
    requires Visitable(t, level, q[0]) && dom == DomainOf(t, d, level, nx, q[0])
    requires Frontier(q[1..], qed, q', qed') && qed' == qed + Refs(dom)
    ensures q[0] in t.nodes.Keys - m.Keys
    ensures SearchState(t, d, level, nx, q', qed', m[q[0] := dom], order + [q[0]])
  {
    var cur := q[0];
    assert cur in Elems(q);
    RefsVisitable(t, d, level, nx, cur);
    SearchStep(q, qed, m, order, t.levelStarts[level], dom, q', qed', m[cur := dom], order + [cur]);
  }

  /** extractLevel's breadth-first search on rank 0 (BalancedLevelsGenerator.h:64-134): the
      domain map of the level, and (as a ghost) the order in which nodes were taken off
      the queue. Every node is visited once, every id a domain names is in the map, and
      every node after the first was named by one visited before it. */
  method ExtractLevelMap(t: Tree, d: nat, level: int, nx: int)
      returns (m: map<int, LevelDomain>, ghost order: seq<int>)
    requires TreeValid(t, d) && LevelStartValid(t, level)
    ensures forall k :: k in m ==> Visitable(t, level, k) && m[k] == DomainOf(t, d, level, nx, k)
    ensures |order| >= 1 && order[0] == t.levelStarts[level]
    ensures Distinct(order) && Elems(order) == m.Keys
    ensures forall k, r :: k in m && r in Refs(m[k]) ==> r in m
    ensures Witnessed(m, order)
  {
    var start := t.levelStarts[level];
    var q := [start];
    var qed := {start};
    m := map[];
    order := [];
    assert Elems(q) == {start};
    while q != []
      invariant SearchState(t, d, level, nx, q, qed, m, order)
      decreases t.nodes.Keys - m.Keys
    {
      var cur := q[0];
      assert cur in Elems(q);
      var dom, q', qed' := VisitNode(t, d, level, nx, cur, q[1..], qed);
      SearchStateStep(t, d, level, nx, q, qed, m, order, dom, q', qed');
      m := m[cur := dom];
      order := order + [cur];
      q, qed := q', qed';
    }
  }

  /** A set of ids closed under naming: it holds only nodes extractLevel may visit, and
      with each node every id the node's domain names. */
  ghost predicate Closed(t: Tree, d: nat, level: int, nx: int, R: set<int>)
    requires TreeValid(t, d)
  {
    forall k :: k in R ==> Visitable(t, level, k) && Refs(DomainOf(t, d, level, nx, k)) <= R
  }

  /** A domain map is the level of the tree: it holds the node's own domain for every id,
      its ids are closed under naming and hold the level's start, and they lie inside
      every closed set that holds the start. */
  ghost predicate IsLevel(t: Tree, d: nat, level: int, nx: int, m: map<int, LevelDomain>)
  {
    && TreeValid(t, d) && LevelStartValid(t, level)
    && (forall k :: k in m ==> Visitable(t, level, k) && m[k] == DomainOf(t, d, level, nx, k))
    && t.levelStarts[level] in m
    && Closed(t, d, level, nx, m.Keys)
    && (forall R :: t.levelStarts[level] in R && Closed(t, d, level, nx, R) ==> m.Keys <= R)
  }

  /** Each node in the visit order lies in every closed set holding the start. */
  lemma {:induction false} VisitedInClosed(t: Tree, d: nat, level: int, nx: int, m: map<int, LevelDomain>,
                                           order: seq<int>, R: set<int>, i: nat)
    requires TreeValid(t, d) && LevelStartValid(t, level)
    requires forall k :: k in m ==> Visitable(t, level, k) && m[k] == DomainOf(t, d, level, nx, k)
    requires |order| >= 1 && order[0] == t.levelStarts[level] && Elems(order) == m.Keys
    requires Witnessed(m, order)
    requires t.levelStarts[level] in R && Closed(t, d, level, nx, R)
    requires i < |order|
    ensures order[i] in R
    decreases i
  {
    if i > 0 {
      assert NamedBefore(m, order, order[i], i);
      var j :| 0 <= j < i && j < |order| && order[j] in m && order[i] in Refs(m[order[j]]);
      VisitedInClosed(t, d, level, nx, m, order, R, j);
    }
  }

  /** The map the search returns is the level: the least closed set holding the start. */
  lemma SearchFindsLevel(t: Tree, d: nat, level: int, nx: int, m: map<int, LevelDomain>, order: seq<int>)
    requires TreeValid(t, d) && LevelStartValid(t, level)
    requires forall k :: k in m ==> Visitable(t, level, k) && m[k] == DomainOf(t, d, level, nx, k)
    requires |order| >= 1 && order[0] == t.levelStarts[level]
    requires Distinct(order) && Elems(order) == m.Keys
    requires forall k, r :: k in m && r in Refs(m[k]) ==> r in m
    requires Witnessed(m, order)
    ensures IsLevel(t, d, level, nx, m)
  {
    assert order[0] in Elems(order);
    forall R | t.levelStarts[level] in R && Closed(t, d, level, nx, R)
      ensures m.Keys <= R
    {
      forall k | k in m.Keys
        ensures k in R
      {
        assert k in Elems(order);
        var i :| 0 <= i < |order| && order[i] == k;
        VisitedInClosed(t, d, level, nx, m, order, R, i);
      }
    }
  }

  /** The level does not depend on the order of the search: two maps that are both the
      level of the tree are equal. */
  lemma LevelUnique(t: Tree, d: nat, level: int, nx: int, m1: map<int, LevelDomain>, m2: map<int, LevelDomain>)
    requires IsLevel(t, d, level, nx, m1) && IsLevel(t, d, level, nx, m2)
    ensures m1 == m2
  {
    assert Closed(t, d, level, nx, m1.Keys) && Closed(t, d, level, nx, m2.Keys);
    assert m1.Keys <= m2.Keys && m2.Keys <= m1.Keys;
    assert forall k :: k in m1 ==> m1[k] == m2[k];
  }

  // ---------------------------------------------------------------------------
  // balanceLevel / balanceLevelWithLower: the hypergraph handed to the partitioner
  // ---------------------------------------------------------------------------

  /** The hyperedge a side of a domain belongs to: -1 without a neighbour; for a Normal
      neighbour the id of whichever of the two lies on the lower side of the interface;
      the coarse domain's id for a Fine or Coarse neighbour. */
  function EdgeId(dom: LevelDomain, s: nat): int
  {
    if s !in dom.nbrs then -1
    else match dom.nbrs[s]
      case NormalInfo(id) => if GhostPlan.IsLower(s) then id else dom.id
      case FineInfo(_) => dom.id
      case CoarseInfo(id, _) => id
  }

  /** The side of the interface as the domain named by EdgeId sees it. */
  function OwnerSide(dom: LevelDomain, s: nat): nat
  {
    if s in dom.nbrs && ((dom.nbrs[s].NormalInfo? && GhostPlan.IsLower(s)) || dom.nbrs[s].CoarseInfo?)
    then GhostPlan.Opposite(s)
    else s
  }

  /** The pin the source writes for side s: edge_id * num_sides + s, with the side of the
      domain itself. */
  function PinAsWritten(dom: LevelDomain, s: nat, ns: nat): int
  {
    EdgeId(dom, s) * ns + s
  }

  /** The pin naming the interface itself: the edge owner's id and the owner's side. */
  function Pin(dom: LevelDomain, s: nat, ns: nat): int
  {
    EdgeId(dom, s) * ns + OwnerSide(dom, s)
  }

  /** Two equal-level neighbours facing each other over an interface, a on its lower side s. */
  predicate NormalPair(a: LevelDomain, b: LevelDomain, s: nat)
  {
    && GhostPlan.IsLower(s)
    && s in a.nbrs && a.nbrs[s] == NormalInfo(b.id)
    && GhostPlan.Opposite(s) in b.nbrs && b.nbrs[GhostPlan.Opposite(s)] == NormalInfo(a.id)
  }

  /** A coarse domain a with finer neighbours on side s, one of them b, which sees a as its
      coarse neighbour on the opposite side. */
  predicate FinePair(a: LevelDomain, b: LevelDomain, s: nat)
  {
    && s in a.nbrs && a.nbrs[s].FineInfo? && b.id in a.nbrs[s].ids
    && GhostPlan.Opposite(s) in b.nbrs && b.nbrs[GhostPlan.Opposite(s)].CoarseInfo?
    && b.nbrs[GhostPlan.Opposite(s)].id == a.id
  }

  /** As written, the two sides of one interface never share a pin: a's side s and b's
      opposite side get pins that differ in their side part. */
  lemma PinsAsWrittenNeverShared(a: LevelDomain, b: LevelDomain, s: nat, d: nat)
    requires s < 2 * d
    requires NormalPair(a, b, s) || FinePair(a, b, s)
    ensures PinAsWritten(a, s, 2 * d) != PinAsWritten(b, GhostPlan.Opposite(s), 2 * d)
  {
    var ns := 2 * d;
    var o := GhostPlan.Opposite(s);
    assert EdgeId(a, s) == EdgeId(b, o);
    assert o != s;
  }

  /** A concrete instance in two dimensions: patch 0 with patch 1 east of it. As written
      patch 0's east side is pin 1 and patch 1's west side pin 0; corrected, both are 1. */
  lemma TwoPatchPins(a: LevelDomain, b: LevelDomain)
    requires a.id == 0 && a.nbrs == map[1 := NormalInfo(1)]
    requires b.id == 1 && b.nbrs == map[0 := NormalInfo(0)]
    ensures PinAsWritten(a, 1, 4) == 1 && PinAsWritten(b, 0, 4) == 0
    ensures Pin(a, 1, 4) == 1 && Pin(b, 0, 4) == 1
  {
    assert EdgeId(a, 1) == 0 && OwnerSide(a, 1) == 1;
    assert EdgeId(b, 0) == 0 && OwnerSide(b, 0) == 1;
  }

  /** With the owner's side, both sides of an interface get the same pin. */
  lemma PinsShared(a: LevelDomain, b: LevelDomain, s: nat, d: nat)
    requires s < 2 * d
    requires NormalPair(a, b, s) || FinePair(a, b, s)
    ensures Pin(a, s, 2 * d) == Pin(b, GhostPlan.Opposite(s), 2 * d)
  {
    var o := GhostPlan.Opposite(s);
    assert GhostPlan.Opposite(o) == s;
    if NormalPair(a, b, s) {
      assert !GhostPlan.IsLower(o);
      assert OwnerSide(a, s) == o && OwnerSide(b, o) == o;
    } else {
      assert OwnerSide(a, s) == s && OwnerSide(b, o) == s;
    }
  }

  /** A pin decodes to the edge owner's id and side; so two sides share a pin exactly when
      they name the same owner and the same side of it. */
  lemma PinDecodes(a: LevelDomain, s: nat, b: LevelDomain, t: nat, d: nat)
    requires s < 2 * d && t < 2 * d
    ensures Pin(a, s, 2 * d) / (2 * d) == EdgeId(a, s) && Pin(a, s, 2 * d) % (2 * d) == OwnerSide(a, s)
    ensures Pin(a, s, 2 * d) == Pin(b, t, 2 * d) <==>
              EdgeId(a, s) == EdgeId(b, t) && OwnerSide(a, s) == OwnerSide(b, t)
  {
    var ns := 2 * d;
    var ea, oa := EdgeId(a, s), OwnerSide(a, s);
    var eb, ob := EdgeId(b, t), OwnerSide(b, t);
    assert oa < ns && ob < ns;
    assert Pin(a, s, ns) == ea * ns + oa && Pin(b, t, ns) == eb * ns + ob;
    DivMulAdd(ea, oa, ns);
    if ea * ns + oa == eb * ns + ob {
      DivUnique(oa, ea, ob, eb, ns);
    }
  }

  /** The pins of one vertex of the level graph, one per side, then (for the upper level of
      a two-level graph) the pin -id-1 of the hyperedge joining it to its children. */
  function VertexPins(dom: LevelDomain, ns: nat, withLower: bool): (r: seq<int>)
    ensures |r| == ns + (if withLower then 1 else 0)
    ensures forall s :: 0 <= s < ns ==> r[s] == Pin(dom, s, ns)
    ensures withLower ==> r[ns] == -dom.id - 1
  {
    seq(ns, s requires 0 <= s < ns => Pin(dom, s, ns)) + (if withLower then [-dom.id - 1] else [])
  }

  /** The pins of the vertices vs in order. */
  function LevelPins(m: map<int, LevelDomain>, vs: seq<int>, ns: nat, withLower: bool): seq<int>
    requires forall i :: 0 <= i < |vs| ==> vs[i] in m
  {
    if vs == [] then []
    else LevelPins(m, vs[..|vs| - 1], ns, withLower) + VertexPins(m[vs[|vs| - 1]], ns, withLower)
  }

  /** The pins of the finer level's vertices: each its parent's hyperedge -parent_id-1. */
  function ChildPins(m: map<int, LevelDomain>, vs: seq<int>): seq<int>
    requires forall i :: 0 <= i < |vs| ==> vs[i] in m
  {
    if vs == [] then [] else ChildPins(m, vs[..|vs| - 1]) + [-m[vs[|vs| - 1]].parentId - 1]
  }

  /** Vertex i's pins start at w * i, where w is the number of pins per vertex. */
  lemma {:induction false} LevelPinsAt(m: map<int, LevelDomain>, vs: seq<int>, ns: nat, withLower: bool, i: nat)
    requires forall j :: 0 <= j < |vs| ==> vs[j] in m
    requires i < |vs|
    ensures var w := ns + (if withLower then 1 else 0);
            && |LevelPins(m, vs, ns, withLower)| == w * |vs|
            && 0 <= w * i && w * i + w <= w * |vs|
            && LevelPins(m, vs, ns, withLower)[w * i .. w * i + w] == VertexPins(m[vs[i]], ns, withLower)
    decreases |vs|
  {
    var w := ns + (if withLower then 1 else 0);
    var front := vs[..|vs| - 1];
    var F := LevelPins(m, front, ns, withLower);
    var V := VertexPins(m[vs[|vs| - 1]], ns, withLower);
    assert LevelPins(m, vs, ns, withLower) == F + V;
    LevelPinsLength(m, front, ns, withLower);
    MulAddOne(w, |front|);
    MulAddOne(w, i);
    MulMono(0, i, w);
    MulMono(i + 1, |vs|, w);
    if i < |front| {
      LevelPinsAt(m, front, ns, withLower, i);
      MulMono(i + 1, |front|, w);
      SliceOfLeft(F, V, w * i, w * i + w);
    } else {
      SliceOfRight(F, V);
    }
  }

  lemma SliceOfLeft<T>(F: seq<T>, V: seq<T>, x: int, y: int)
    requires 0 <= x <= y <= |F|
    ensures (F + V)[x..y] == F[x..y]
  {
  }

  lemma SliceOfRight<T>(F: seq<T>, V: seq<T>)
    ensures (F + V)[|F|..|F| + |V|] == V
  {
  }

  lemma {:induction false} LevelPinsLength(m: map<int, LevelDomain>, vs: seq<int>, ns: nat, withLower: bool)
    requires forall j :: 0 <= j < |vs| ==> vs[j] in m
    ensures |LevelPins(m, vs, ns, withLower)| == (ns + (if withLower then 1 else 0)) * |vs|
    decreases |vs|
  {
    if vs != [] {
      var w := ns + (if withLower then 1 else 0);
      LevelPinsLength(m, vs[..|vs| - 1], ns, withLower);
      MulAddOne(w, |vs| - 1);
    }
  }

  /** Vertex j of the finer level has exactly one pin, its parent's hyperedge. */
  lemma {:induction false} ChildPinsAt(m: map<int, LevelDomain>, vs: seq<int>, j: nat)
    requires forall i :: 0 <= i < |vs| ==> vs[i] in m
    requires j < |vs|
    ensures |ChildPins(m, vs)| == |vs| && ChildPins(m, vs)[j] == -m[vs[j]].parentId - 1
    decreases |vs|
  {
    if j < |vs| - 1 {
      ChildPinsAt(m, vs[..|vs| - 1], j);
    } else if |vs| > 1 {
      ChildPinsAt(m, vs[..|vs| - 1], 0);
    }
  }

  /** The compressed-vertex hypergraph: vertex ids, where each vertex's pins start, pins. */
  datatype Hypergraph = Hypergraph(vertices: seq<int>, ptrs: seq<int>, edges: seq<int>)

  /** The objects offered to the partitioner, with weights, and the ones fixed to a part. */
  datatype ObjectList = ObjectList(gids: seq<int>, weights: seq<int>, fixedGids: seq<int>, fixedParts: seq<int>)

  /** balanceLevel's graph of level map m: every domain once, in key order, with num_sides
      pins each. */
  ghost predicate IsLevelGraph(g: Hypergraph, m: map<int, LevelDomain>, ns: nat)
  {
    && Increasing(g.vertices) && Elems(g.vertices) == m.Keys
    && g.ptrs == seq(|g.vertices|, i => ns * i)
    && g.edges == LevelPins(m, g.vertices, ns, false)
  }

  /** balanceLevelWithLower's graph: the coarse level's domains in key order, each with its
      side pins and its level pin, then the fine level's, each with its parent's level pin. */
  ghost predicate IsTwoLevelGraph(g: Hypergraph, upper: map<int, LevelDomain>, lower: map<int, LevelDomain>, ns: nat)
  {
    var nu := |upper|;
    && nu <= |g.vertices|
    && Increasing(g.vertices[..nu]) && Elems(g.vertices[..nu]) == upper.Keys
    && Increasing(g.vertices[nu..]) && Elems(g.vertices[nu..]) == lower.Keys
    && g.ptrs == seq(nu, i => (ns + 1) * i) + seq(|g.vertices| - nu, j => (ns + 1) * nu + j)
    && g.edges == LevelPins(upper, g.vertices[..nu], ns, true) + ChildPins(lower, g.vertices[nu..])
  }

  /** In a level graph, the pins of vertex i start at ptrs[i], one per side of its domain. */
  lemma LevelGraphPins(g: Hypergraph, m: map<int, LevelDomain>, ns: nat, i: nat, s: nat)
    requires IsLevelGraph(g, m, ns)
    requires i < |g.vertices| && s < ns
    ensures g.vertices[i] in m
    ensures g.ptrs[i] + s < |g.edges| && g.edges[g.ptrs[i] + s] == Pin(m[g.vertices[i]], s, ns)
  {
    assert g.vertices[i] in Elems(g.vertices);
    LevelPinsAt(m, g.vertices, ns, false, i);
    var V := VertexPins(m[g.vertices[i]], ns, false);
    assert g.edges[ns * i .. ns * i + ns][s] == V[s];
  }

  /** Every element of a sequence listing a map's keys is a key. */
  lemma KeysIndexed(vs: seq<int>, m: map<int, LevelDomain>)
    requires Elems(vs) == m.Keys
    ensures forall j :: 0 <= j < |vs| ==> vs[j] in m
  {
    assert forall j :: 0 <= j < |vs| ==> vs[j] in Elems(vs);
  }

  lemma {:induction false} ChildPinsLength(m: map<int, LevelDomain>, vs: seq<int>)
    requires forall i :: 0 <= i < |vs| ==> vs[i] in m
    ensures |ChildPins(m, vs)| == |vs|
    decreases |vs|
  {
    if vs != [] {
      ChildPinsLength(m, vs[..|vs| - 1]);
    }
  }

  /** The ptrs sequence of a two-level graph: coarse vertices num_sides + 1 apart, fine
      vertices one apart after them. */
  lemma TwoLevelPtrs(ptrs: seq<int>, nu: nat, n: nat, ns: nat)
    requires nu <= n
    requires ptrs == seq(nu, i => (ns + 1) * i) + seq(n - nu, j => (ns + 1) * nu + j)
    ensures |ptrs| == n
    ensures forall i :: 0 <= i < nu ==> ptrs[i] == (ns + 1) * i
    ensures forall j :: nu <= j < n ==> ptrs[j] == (ns + 1) * nu + (j - nu)
  {
    var A := seq(nu, i => (ns + 1) * i);
    var B := seq(n - nu, j => (ns + 1) * nu + j);
    assert forall i :: 0 <= i < nu ==> (A + B)[i] == A[i];
    assert forall j :: nu <= j < n ==> (A + B)[j] == B[j - nu];
  }

  /** Where the pins of each vertex of a two-level graph start: every coarse vertex has
      num_sides + 1 pins, every fine vertex one. */
  lemma TwoLevelShape(g: Hypergraph, upper: map<int, LevelDomain>, lower: map<int, LevelDomain>, ns: nat)
    requires IsTwoLevelGraph(g, upper, lower, ns)
    ensures |g.ptrs| == |g.vertices|
    ensures |g.edges| == (ns + 1) * |upper| + (|g.vertices| - |upper|)
    ensures forall i :: 0 <= i < |upper| ==> g.ptrs[i] == (ns + 1) * i
    ensures forall j :: |upper| <= j < |g.vertices| ==> g.ptrs[j] == (ns + 1) * |upper| + (j - |upper|)
  {
    var nu := |upper|;
    var us, ls := g.vertices[..nu], g.vertices[nu..];
    KeysIndexed(us, upper);
    KeysIndexed(ls, lower);
    LevelPinsLength(upper, us, ns, true);
    ChildPinsLength(lower, ls);
    TwoLevelPtrs(g.ptrs, nu, |g.vertices|, ns);
  }

  /** A fine vertex's only pin is its parent's level hyperedge. */
  lemma FineVertexPin(g: Hypergraph, upper: map<int, LevelDomain>, lower: map<int, LevelDomain>, ns: nat, c: nat)
    requires IsTwoLevelGraph(g, upper, lower, ns)
    requires |upper| <= c < |g.vertices|
    ensures g.vertices[c] in lower
    ensures |g.ptrs| == |g.vertices| && 0 <= g.ptrs[c] < |g.edges|
    ensures g.edges[g.ptrs[c]] == -lower[g.vertices[c]].parentId - 1
  {
    var nu := |upper|;
    var us, ls := g.vertices[..nu], g.vertices[nu..];
    var k := c - nu;
    assert ls[k] == g.vertices[c];
    TwoLevelShape(g, upper, lower, ns);
    KeysIndexed(us, upper);
    KeysIndexed(ls, lower);
    LevelPinsLength(upper, us, ns, true);
    var U := LevelPins(upper, us, ns, true);
    FineFromParts(g.edges, U, lower, ls, k);
    assert g.ptrs[c] == |U| + k;
  }

  lemma FineFromParts(E: seq<int>, U: seq<int>, lower: map<int, LevelDomain>, ls: seq<int>, k: nat)
    requires forall i :: 0 <= i < |ls| ==> ls[i] in lower
    requires k < |ls| && E == U + ChildPins(lower, ls)
    ensures |U| + k < |E| && E[|U| + k] == -lower[ls[k]].parentId - 1
  {
    ChildPinsAt(lower, ls, k);
  }

  /** A coarse vertex's last pin is its own level hyperedge. */
  lemma CoarseLevelPin(g: Hypergraph, upper: map<int, LevelDomain>, lower: map<int, LevelDomain>, ns: nat, p: nat)
    requires IsTwoLevelGraph(g, upper, lower, ns)
    requires p < |upper|
    ensures g.vertices[p] in upper
    ensures |g.ptrs| == |g.vertices| && 0 <= g.ptrs[p] && g.ptrs[p] + ns < |g.edges|
    ensures g.edges[g.ptrs[p] + ns] == -upper[g.vertices[p]].id - 1
  {
    var nu := |upper|;
    var us := g.vertices[..nu];
    TwoLevelShape(g, upper, lower, ns);
    assert us[p] in Elems(us);
    assert forall i :: 0 <= i < |us| ==> us[i] in Elems(us);
    LevelPinsAt(upper, us, ns, true, p);
    var U := LevelPins(upper, us, ns, true);
    var V := VertexPins(upper[us[p]], ns, true);
    assert U[(ns + 1) * p .. (ns + 1) * p + ns + 1][ns] == V[ns];
    assert g.edges[g.ptrs[p] + ns] == U[(ns + 1) * p + ns];
  }

  /** A fine vertex and its parent's coarse vertex share the parent's level hyperedge, which
      is the fine vertex's only pin. */
  lemma ChildJoinsParent(g: Hypergraph, upper: map<int, LevelDomain>, lower: map<int, LevelDomain>, ns: nat,
                         p: nat, c: nat)
    requires IsTwoLevelGraph(g, upper, lower, ns) && KeyedById(upper)
    requires p < |upper| <= c < |g.vertices|
    requires g.vertices[c] in lower && lower[g.vertices[c]].parentId == g.vertices[p]
    ensures |g.ptrs| == |g.vertices| && 0 <= g.ptrs[c] < |g.edges| && 0 <= g.ptrs[p] && g.ptrs[p] + ns < |g.edges|
    ensures g.edges[g.ptrs[c]] == g.edges[g.ptrs[p] + ns]
    ensures c + 1 < |g.vertices| ==> g.ptrs[c + 1] == g.ptrs[c] + 1
    ensures c + 1 == |g.vertices| ==> |g.edges| == g.ptrs[c] + 1
  {
    TwoLevelShape(g, upper, lower, ns);
    FineVertexPin(g, upper, lower, ns, c);
    CoarseLevelPin(g, upper, lower, ns, p);
  }

  /** Each domain of a level map is stored under its own id. */
  predicate KeyedById(m: map<int, LevelDomain>)
  {
    forall k :: k in m ==> m[k].id == k
  }

  /** Appends one vertex's pins: one per side (the loop over Side<D>::getValues() at source
      lines 189-206), then the level pin when the graph joins two levels (line 411). */
  method AppendVertexPins(dom: LevelDomain, ns: nat, withLower: bool, edges: seq<int>) returns (edges': seq<int>)
    ensures edges' == edges + VertexPins(dom, ns, withLower)
  {
    var sides := VertexPins(dom, ns, false);
    edges' := edges;
    for s := 0 to ns
      invariant edges' == edges + sides[..s]
    {
      assert sides[..s + 1] == sides[..s] + [Pin(dom, s, ns)];
      edges' := edges' + [Pin(dom, s, ns)];
    }
    assert sides[..ns] == sides;
    if withLower {
      assert VertexPins(dom, ns, true) == sides + [-dom.id - 1];
      edges' := edges' + [-dom.id - 1];
    } else {
      assert VertexPins(dom, ns, false) == sides;
    }
  }

  /** Builds the vertices, ptrs and pins of one level in key order
      (BalancedLevelsGenerator.h:183-208, and 386-412 for the coarser level of a two-level graph). */
  method LevelGraph(m: map<int, LevelDomain>, ns: nat, withLower: bool) returns (vs: seq<int>, ptrs: seq<int>, edges: seq<int>)
    requires KeyedById(m)
    ensures Increasing(vs) && Elems(vs) == m.Keys
    ensures ptrs == seq(|vs|, i => (ns + (if withLower then 1 else 0)) * i)
    ensures edges == LevelPins(m, vs, ns, withLower)
  {
    var w := ns + (if withLower then 1 else 0);
    var keys := SortedKeys(m);
    vs, ptrs, edges := [], [], [];
    for i := 0 to |keys|
      invariant vs == keys[..i]
      invariant ptrs == seq(i, j => w * j)
      invariant edges == LevelPins(m, vs, ns, withLower) && |edges| == w * i
    {
      assert keys[i] in Elems(keys);
      var dom := m[keys[i]];
      ghost var edges0 := edges;
      ptrs := ptrs + [|edges|];
      edges := AppendVertexPins(dom, ns, withLower, edges);
      LevelGraphStep(m, keys, i, ns, withLower, ptrs, edges0, edges);
      vs := vs + [dom.id];
    }
    assert keys[..|keys|] == keys;
  }

  /** One vertex of LevelGraph's loop keeps its invariant. */
  lemma LevelGraphStep(m: map<int, LevelDomain>, keys: seq<int>, i: nat, ns: nat, withLower: bool,
                       ptrs: seq<int>, edges0: seq<int>, edges: seq<int>)
    requires KeyedById(m) && Elems(keys) == m.Keys && i < |keys|
    requires var w := ns + (if withLower then 1 else 0);
             && ptrs == seq(i, j => w * j) + [w * i]
             && edges0 == LevelPins(m, keys[..i], ns, withLower) && |edges0| == w * i
             && edges == edges0 + VertexPins(m[keys[i]], ns, withLower)
    ensures m[keys[i]].id == keys[i] && keys[..i + 1] == keys[..i] + [keys[i]]
    ensures var w := ns + (if withLower then 1 else 0);
            && ptrs == seq(i + 1, j => w * j)
            && edges == LevelPins(m, keys[..i + 1], ns, withLower) && |edges| == w * (i + 1)
  {
    var w := ns + (if withLower then 1 else 0);
    assert keys[i] in Elems(keys);
    assert keys[..i + 1][..i] == keys[..i];
    MulAddOne(w, i);
  }

  /** Appends the finer level's vertices in key order, each with the single pin of its
      parent's level hyperedge (BalancedLevelsGenerator.h:414-420). */
  method AppendChildren(lower: map<int, LevelDomain>, vs: seq<int>, ptrs: seq<int>, edges: seq<int>)
      returns (ls: seq<int>, vs': seq<int>, ptrs': seq<int>, edges': seq<int>)
    requires KeyedById(lower)
    ensures Increasing(ls) && Elems(ls) == lower.Keys
    ensures vs' == vs + ls
    ensures ptrs' == ptrs + seq(|ls|, j => |edges| + j)
    ensures edges' == edges + ChildPins(lower, ls)
  {
    var keys := SortedKeys(lower);
    vs', ptrs', edges' := vs, ptrs, edges;
    for i := 0 to |keys|
      invariant vs' == vs + keys[..i]
      invariant ptrs' == ptrs + seq(i, j => |edges| + j)
      invariant edges' == edges + ChildPins(lower, keys[..i]) && |edges'| == |edges| + i
    {
      assert keys[i] in Elems(keys);
      var dom := lower[keys[i]];
      vs' := vs' + [dom.id];
      ptrs' := ptrs' + [|edges'|];
      edges' := edges' + [-dom.parentId - 1];
      assert keys[..i + 1][..i] == keys[..i];
      assert keys[..i + 1] == keys[..i] + [dom.id];
    }
    assert keys[..|keys|] == keys;
    ls := keys;
  }

  /** Builds balanceLevelWithLower's graph: the coarse level, then the fine level. */
  method TwoLevelGraph(upper: map<int, LevelDomain>, lower: map<int, LevelDomain>, ns: nat) returns (g: Hypergraph)
    requires KeyedById(upper) && KeyedById(lower)
    ensures IsTwoLevelGraph(g, upper, lower, ns)
  {
    var us, ptrs, edges := LevelGraph(upper, ns, true);
    var ls, vs, ptrs', edges' := AppendChildren(lower, us, ptrs, edges);
    TwoLevelFromParts(upper, lower, ns, us, ls, ptrs, edges, vs, ptrs', edges');
    g := Hypergraph(vs, ptrs', edges');
  }

  lemma TwoLevelFromParts(upper: map<int, LevelDomain>, lower: map<int, LevelDomain>, ns: nat,
                          us: seq<int>, ls: seq<int>, ptrs: seq<int>, edges: seq<int>,
                          vs: seq<int>, ptrs': seq<int>, edges': seq<int>)
    requires Increasing(us) && Elems(us) == upper.Keys
    requires ptrs == seq(|us|, i => (ns + 1) * i)
    requires edges == LevelPins(upper, us, ns, true)
    requires Increasing(ls) && Elems(ls) == lower.Keys
    requires vs == us + ls
    requires ptrs' == ptrs + seq(|ls|, j => |edges| + j)
    requires edges' == edges + ChildPins(lower, ls)
    ensures IsTwoLevelGraph(Hypergraph(vs, ptrs', edges'), upper, lower, ns)
  {
    IncreasingCard(us);
    assert |us| == |upper|;
    KeysIndexed(us, upper);
    LevelPinsLength(upper, us, ns, true);
    assert vs[..|us|] == us && vs[|us|..] == ls;
    assert |vs| - |us| == |ls|;
    assert seq(|ls|, j => |edges| + j) == seq(|vs| - |upper|, j => (ns + 1) * |upper| + j);
  }

  /** A level extracted from the tree stores each domain under its own id. */
  lemma LevelKeyed(t: Tree, d: nat, level: int, nx: int, m: map<int, LevelDomain>)
    requires IsLevel(t, d, level, nx, m)
    ensures KeyedById(m)
  {
    forall k | k in m
      ensures m[k].id == k
    {
      assert m[k] == DomainOf(t, d, level, nx, k);
    }
  }

  /** The levels the generator extracts are all stored by id. */
  lemma LevelsKeyed(t: Tree, d: nat, n: int, rank: int, levels: seq<map<int, LevelDomain>>)
    requires forall i :: 0 <= i < |levels| && rank != 0 ==> levels[i] == map[]
    requires forall i :: 0 <= i < |levels| && rank == 0 ==> IsLevel(t, d, i + 1, n, levels[i])
    ensures forall i :: 0 <= i < |levels| ==> KeyedById(levels[i])
  {
    forall i | 0 <= i < |levels|
      ensures KeyedById(levels[i])
    {
      if rank == 0 {
        LevelKeyed(t, d, i + 1, n, levels[i]);
      }
    }
  }

  /** The partitioning calls zoltanBalance makes, by the level each is given. */
  datatype BalanceCall = LevelOnly(level: int) | LevelWithLower(level: int)

  class BalancedLevelsGenerator {
    /** One map from domain id to domain per refinement level, coarsest first. */
    var levels: seq<map<int, LevelDomain>>

    /** Extracts every level of the tree; only rank 0 holds domains afterwards. */
    constructor (t: Tree, d: nat, n: int, rank: int)
      requires TreeValid(t, d)
      requires forall l :: 1 <= l <= t.numLevels ==> LevelStartValid(t, l)
      ensures |levels| == t.numLevels
      ensures forall i :: 0 <= i < |levels| && rank != 0 ==> levels[i] == map[]
      ensures forall i :: 0 <= i < |levels| && rank == 0 ==> IsLevel(t, d, i + 1, n, levels[i])
      ensures Keyed()
    {
      levels := seq(t.numLevels, _ => map[]);
      new;
      for i := 1 to t.numLevels + 1
        invariant |levels| == t.numLevels
        invariant forall j :: 0 <= j < |levels| && (rank != 0 || j >= i - 1) ==> levels[j] == map[]
        invariant forall j :: 0 <= j < i - 1 && rank == 0 ==> IsLevel(t, d, j + 1, n, levels[j])
      {
        ghost var before := levels;
        ghost var added := ExtractLevel(t, d, i, n, rank);
        assert map[] + added == added;
        assert levels[i - 1] == added;
        assert forall j :: 0 <= j < |levels| && j != i - 1 ==> levels[j] == before[j];
      }
      LevelsKeyed(t, d, n, rank, levels);
    }

    /** Every level map stores each domain under its own id. */
    ghost predicate Keyed()
      reads this
    {
      forall i :: 0 <= i < |levels| ==> KeyedById(levels[i])
    }

    /** extractLevel(t, level, n): on rank 0 the domains of the level (returned as a ghost)
        are added to the level's map; other ranks leave it as it is. */
    method ExtractLevel(t: Tree, d: nat, level: int, nx: int, rank: int)
        returns (ghost added: map<int, LevelDomain>)
      requires TreeValid(t, d) && LevelStartValid(t, level)
      requires 1 <= level <= |levels|
      modifies this
      ensures rank == 0 ==> IsLevel(t, d, level, nx, added)
      ensures rank != 0 ==> added == map[]
      ensures levels == old(levels)[level - 1 := old(levels[level - 1]) + added]
    {
      added := map[];
      if rank == 0 {
        var m;
        ghost var order;
        m, order := ExtractLevelMap(t, d, level, nx);
        SearchFindsLevel(t, d, level, nx, m, order);
        added := m;
        levels := levels[level - 1 := levels[level - 1] + m];
      } else {
        assert levels[level - 1] + added == levels[level - 1];
        assert levels == levels[level - 1 := levels[level - 1] + added];
      }
    }
  
    /** balanceLevel(level): the hypergraph of the level and the objects offered to the
        partitioner, every domain of the level once in id order and without weights. */
    method BalanceLevel(level: int, d: nat) returns (g: Hypergraph, objs: ObjectList)
      requires Keyed() && 1 <= level <= |levels|
      ensures IsLevelGraph(g, levels[level - 1], 2 * d)
      ensures objs.gids == g.vertices && objs.weights == [] && objs.fixedGids == [] && objs.fixedParts == []
    {
      var vs, ptrs, edges := LevelGraph(levels[level - 1], 2 * d, false);
      g := Hypergraph(vs, ptrs, edges);
      objs := ObjectList(vs, [], [], []);
    }

    /** balanceLevelWithLower(level): the hypergraph joining the level to the next finer one,
        its coarse domains movable with weight 1 and its fine domains weighing 0, fixed to
        this rank. */
    method BalanceLevelWithLower(level: int, d: nat, rank: int) returns (g: Hypergraph, objs: ObjectList)
      requires Keyed() && 1 <= level < |levels|
      ensures IsTwoLevelGraph(g, levels[level - 1], levels[level], 2 * d)
      ensures objs.gids == g.vertices && |objs.weights| == |g.vertices|
      ensures forall i :: 0 <= i < |g.vertices| ==> objs.weights[i] == (if i < |levels[level - 1]| then 1 else 0)
      ensures Elems(objs.fixedGids) == levels[level].Keys && objs.fixedGids == g.vertices[|levels[level - 1]|..]
      ensures |objs.fixedParts| == |objs.fixedGids| && forall i :: 0 <= i < |objs.fixedParts| ==> objs.fixedParts[i] == rank
    {
      g := TwoLevelGraph(levels[level - 1], levels[level], 2 * d);
      var split := |levels[level - 1]|;
      var weights := seq(split, _ => 1) + seq(|g.vertices| - split, _ => 0);
      var fixed := g.vertices[split..];
      objs := ObjectList(g.vertices, weights, fixed, seq(|fixed|, _ => rank));
    }

    /** zoltanBalance(): balances the finest level, then each coarser level together with the
        one below it, finest first; returns the calls in order with the graph each builds. */
    method ZoltanBalance(d: nat, rank: int) returns (calls: seq<BalanceCall>, graphs: seq<Hypergraph>)
      requires Keyed() && |levels| >= 1
      ensures |calls| == |graphs| == |levels|
      ensures calls[0] == LevelOnly(|levels|) && IsLevelGraph(graphs[0], levels[|levels| - 1], 2 * d)
      ensures forall j :: 1 <= j < |calls| ==>
                calls[j] == LevelWithLower(|levels| - j)
                && IsTwoLevelGraph(graphs[j], levels[|levels| - j - 1], levels[|levels| - j], 2 * d)
    {
      var n := |levels|;
      var g, _ := BalanceLevel(n, d);
      calls, graphs := [LevelOnly(n)], [g];
      for i := n downto 1
        invariant |calls| == |graphs| == n - i + 1
        invariant calls[0] == LevelOnly(n) && IsLevelGraph(graphs[0], levels[n - 1], 2 * d)
        invariant forall j :: 1 <= j < |calls| ==>
                    calls[j] == LevelWithLower(n - j)
                    && IsTwoLevelGraph(graphs[j], levels[n - j - 1], levels[n - j], 2 * d)
      {
        var g', _ := BalanceLevelWithLower(i, d, rank);
        calls, graphs := calls + [LevelWithLower(i)], graphs + [g'];
      }
    }
  }
}
