/**
 * The two-dimensional DomainCollection of the Trilinos example: generateMaps walks the
 * domains breadth first and gives every interface (a side shared by two domains, or the
 * pieces of a side shared with refined neighbours) a fresh index, writing it into both
 * domains that share it, and lists the global ids of the interface unknowns.
 *
 * Sides are visited north, east, south, west (0..3); the opposite of a side is two steps
 * on. Domain.h and Iface.h are not part of this model: a domain's neighbour data is a value
 * here, the index arrays of all domains are one table, and Iface::size is a parameter.
 */
module DomainCollection2D {
  import opened IntMath
  import opened OrderedSets

  function Opp(s: int): int
    requires 0 <= s < 4
  {
    (s + 2) % 4
  }

  /** A domain's neighbour data (its DomainSignature): the neighbour across each side (or
      -1), the second fine neighbour, whether the neighbour is finer or coarser, and which
      half of the coarse neighbour's side this domain touches. */
  datatype Links = Links(id: int, nbr: seq<int>, nbrRight: seq<int>, fine: seq<bool>, coarse: seq<bool>,
                         leftOfCoarse: seq<bool>)


  predicate LinksOk(l: Links)
  {
    |l.nbr| == 4 && |l.nbrRight| == 4 && |l.fine| == 4 && |l.coarse| == 4 && |l.leftOfCoarse| == 4
  }

  /** The domain across side s of the coarse neighbour that shares its side with k. */
  function Buddy(topo: map<int, Links>, k: int, s: int): int
    requires k in topo && LinksOk(topo[k]) && 0 <= s < 4
    requires topo[k].nbr[s] in topo && LinksOk(topo[topo[k].nbr[s]])
  {
    var nb := topo[topo[k].nbr[s]];
    if topo[k].leftOfCoarse[s] then nb.nbrRight[Opp(s)] else nb.nbr[Opp(s)]
  }

  /** The domains generateMaps looks up across side s of domain k are present (the lookups
      use std::map::at), and the domains it writes to are different domains. */
  predicate SideOk(topo: map<int, Links>, k: int, s: int)
    requires k in topo && LinksOk(topo[k]) && 0 <= s < 4
  {
    var l := topo[k];
    l.nbr[s] != -1 ==>
      && l.nbr[s] in topo && LinksOk(topo[l.nbr[s]])
      && (l.fine[s] ==> l.nbrRight[s] in topo && l.nbr[s] != k && l.nbrRight[s] != k && l.nbr[s] != l.nbrRight[s])
      && (!l.fine[s] && l.coarse[s] ==>
            && l.nbr[s] != k && Buddy(topo, k, s) in topo
            && Buddy(topo, k, s) != k && Buddy(topo, k, s) != l.nbr[s])
  }

  /** A mesh generateMaps can walk: every domain is keyed by its id and every side's
      lookups succeed. */
  predicate Mesh(topo: map<int, Links>)
  {
    && (forall k :: k in topo ==> LinksOk(topo[k]) && topo[k].id == k)
    && (forall k, s :: k in topo && LinksOk(topo[k]) && 0 <= s < 4 ==> SideOk(topo, k, s))
  }

  /** The four index arrays of a domain: index, indexCenter, indexRefinedLeft and
      indexRefinedRight. */
  datatype Field = Index | Center | RefinedLeft | RefinedRight

  /** Entry side of array f of domain id. */
  datatype Slot = Slot(id: int, f: Field, side: int)

  /** The index arrays of all domains as one table. */
  type Table = map<Slot, int>

  /** The index arrays of the domains keys: every entry of every side present, and every
      entry unassigned (-1) or an index below c. */
  ghost predicate TableOk(t: Table, keys: set<int>, c: int)
  {
    && (forall k, f, s :: k in keys && 0 <= s < 4 ==> Slot(k, f, s) in t)
    && (forall q :: q in t ==> -1 <= t[q] < c)
  }

  function AllSlots(keys: set<int>): set<Slot>
  {
    set k, f, s | k in keys && f in {Index, Center, RefinedLeft, RefinedRight} && 0 <= s < 4 :: Slot(k, f, s)
  }

  /** The index arrays of new domains, Domain(ds, n): no side has an index yet. */
  function FreshTable(keys: set<int>): (t: Table)
    ensures TableOk(t, keys, 0)
    ensures forall q :: q in t ==> t[q] == -1
  {
    var t := map q | q in AllSlots(keys) :: -1;
    assert forall k, f, s :: k in keys && 0 <= s < 4 ==> Slot(k, f, s) in AllSlots(keys) by {
      forall k, f, s | k in keys && 0 <= s < 4
        ensures Slot(k, f, s) in AllSlots(keys)
      {
        assert f == Index || f == Center || f == RefinedLeft || f == RefinedRight;
      }
    }
    t
  }

  /** Entry s of array f of domain k, or -1 when there is none. */
  function At(t: Table, k: int, f: Field, s: int): int
  {
    if Slot(k, f, s) in t then t[Slot(k, f, s)] else -1
  }

  /** Every index assigned in t0 is still assigned in t. */
  ghost predicate Grew(t0: Table, t: Table)
  {
    forall q :: q in t0 && t0[q] != -1 ==> q in t && t[q] != -1
  }

  lemma GrewTrans(t0: Table, t1: Table, t2: Table)
    requires Grew(t0, t1) && Grew(t1, t2)
    ensures Grew(t0, t2)
  {
  }

  /** 0, 1, ..., len - 1. */
  function Iota(len: int): (r: seq<int>)
    ensures |r| == if len < 0 then 0 else len
    ensures forall j :: 0 <= j < |r| ==> r[j] == j
  {
    if len <= 0 then [] else seq(len, j => j)
  }

  /** Appending the next id to 0..len-1 gives 0..len. */
  lemma IotaSnoc(len: nat)
    ensures Iota(len) + [len] == Iota(len + 1)
  {
  }

  /** Putting id at the back of the queue unless it was enqueued before. */
  method Enqueue(id: int, queue: seq<int>, enq: set<int>) returns (queue': seq<int>, enq': set<int>)
    requires Distinct(queue) && Elems(queue) <= enq
    ensures enq' == enq + {id}
    ensures queue' == if id in enq then queue else queue + [id]
    ensures Distinct(queue') && Elems(queue') == Elems(queue) + (enq' - enq)
  {
    queue', enq' := queue, enq;
    if id !in enq {
      DistinctSnocInt(queue, id);
      queue' := queue + [id];
      enq' := enq + {id};
    }
  }

  lemma DistinctSnocInt(s: seq<int>, x: int)
    requires Distinct(s) && x !in s
    ensures Distinct(s + [x]) && Elems(s + [x]) == Elems(s) + {x}
  {
  }

  /** The domains of a component queue: the walk of generateMaps between steps. */
  ghost predicate Walk(keys: set<int>, order: seq<int>, queue: seq<int>, enq: set<int>, notVisited: set<int>)
  {
    && Distinct(order) && Distinct(queue) && Elems(order) !! Elems(queue)
    && Elems(order) + Elems(queue) == enq && enq <= keys
    && notVisited == keys - Elems(order)
  }

  /** Every side of every domain in S that has a neighbour holds an index. */
  ghost predicate SidesIndexed(topo: map<int, Links>, t: Table, S: set<int>)
  {
    forall k, s :: k in S && k in topo && 0 <= s < |topo[k].nbr| && topo[k].nbr[s] != -1 ==>
      At(t, k, Index, s) != -1
  }

  lemma SidesIndexedGrew(topo: map<int, Links>, t0: Table, t: Table, S: set<int>)
    requires SidesIndexed(topo, t0, S) && Grew(t0, t)
    ensures SidesIndexed(topo, t, S)
  {
    forall k, s | k in S && k in topo && 0 <= s < |topo[k].nbr| && topo[k].nbr[s] != -1
      ensures At(t, k, Index, s) != -1
    {
      assert At(t0, k, Index, s) != -1;
    }
  }

  // ---------------------------------------------------------------------------
  // One side of one domain (DomainCollection.cpp:146-303)
  // ---------------------------------------------------------------------------

  /** Side s of domain k has a neighbour and no index yet: generateMaps hands out indexes
      for it. */
  predicate Unindexed(topo: map<int, Links>, t: Table, k: int, s: int)
    requires k in topo && LinksOk(topo[k]) && 0 <= s < 4
  {
    topo[k].nbr[s] != -1 && At(t, k, Index, s) == -1
  }

  /** One pass of the side loop for side s of domain k: the index table and the number of
      indexes handed out afterwards, the assignments taken in the order generateMaps makes
      them. */
  function SideStep(topo: map<int, Links>, t: Table, k: int, s: int, c: int): (Table, int)
    requires Mesh(topo) && k in topo && 0 <= s < 4
  {
    var l := topo[k];
    var o := Opp(s);
    var nb := l.nbr[s];
    assert SideOk(topo, k, s);
    if !Unindexed(topo, t, k, s) then (t, c)
    else if l.fine[s] then
      var nr := l.nbrRight[s];
      (t[Slot(k, Index, s) := c][Slot(nb, Center, o) := c][Slot(nr, Center, o) := c]
        [Slot(nb, Index, o) := c + 1][Slot(nr, Index, o) := c + 2], c + 3)
    else if l.coarse[s] then
      var b := Buddy(topo, k, s);
      var near := if l.leftOfCoarse[s] then RefinedLeft else RefinedRight;
      var far := if l.leftOfCoarse[s] then RefinedRight else RefinedLeft;
      (t[Slot(k, Index, s) := c][Slot(nb, Index, o) := c][Slot(nb, near, o) := c][Slot(nb, far, o) := c + 1]
        [Slot(b, Index, s) := c + 1][Slot(k, Center, s) := c + 2][Slot(nb, Index, o) := c + 2]
        [Slot(b, Center, s) := c + 2], c + 3)
    else
      (t[Slot(k, Index, s) := c][Slot(nb, Index, o) := c], c + 1)
  }

  /** The domains the step offers to the queue, in order. */
  function Targets(topo: map<int, Links>, t: Table, k: int, s: int): seq<int>
    requires Mesh(topo) && k in topo && 0 <= s < 4
  {
    var l := topo[k];
    assert SideOk(topo, k, s);
    if !Unindexed(topo, t, k, s) then []
    else if l.fine[s] then [l.nbr[s], l.nbrRight[s]]
    else if l.coarse[s] then [l.nbr[s], Buddy(topo, k, s)]
    else [l.nbr[s]]
  }

  /** In a mesh whose indexes are all below c, what the side step hands out: nothing when
      the side has no neighbour or already has an index; otherwise the side gets index c,
      and then a normal neighbour shares c; two fine neighbours both get c as their center
      and c + 1 and c + 2 as their index; a coarse neighbour gets c on the half this domain
      touches, c + 1 on the half the buddy touches (which the buddy shares), and c + 2 as
      its index, which is the center of this domain and of the buddy. */
  lemma SideStepMeaning(topo: map<int, Links>, t: Table, k: int, s: int, c: int)
    requires Mesh(topo) && TableOk(t, topo.Keys, c) && 0 <= c && k in topo && 0 <= s < 4
    ensures var (t', c') := SideStep(topo, t, k, s, c);
            var l := topo[k];
            var nb := l.nbr[s];
            var o := Opp(s);
            && (!Unindexed(topo, t, k, s) ==> t' == t && c' == c)
            && (Unindexed(topo, t, k, s) ==> At(t', k, Index, s) == c)
            && (Unindexed(topo, t, k, s) && !l.fine[s] && !l.coarse[s] ==>
                  c' == c + 1 && At(t', nb, Index, o) == c)
            && (Unindexed(topo, t, k, s) && l.fine[s] ==>
                  var nr := l.nbrRight[s];
                  && c' == c + 3
                  && At(t', nb, Center, o) == c && At(t', nr, Center, o) == c
                  && At(t', nb, Index, o) == c + 1 && At(t', nr, Index, o) == c + 2)
            && (Unindexed(topo, t, k, s) && !l.fine[s] && l.coarse[s] ==>
                  SideOk(topo, k, s) &&
                  var b := Buddy(topo, k, s);
                  && c' == c + 3
                  && At(t', nb, RefinedLeft, o) == (if l.leftOfCoarse[s] then c else c + 1)
                  && At(t', nb, RefinedRight, o) == (if l.leftOfCoarse[s] then c + 1 else c)
                  && At(t', b, Index, s) == c + 1
                  && At(t', k, Center, s) == c + 2 && At(t', nb, Index, o) == c + 2
                  && At(t', b, Center, s) == c + 2)
  {
    assert SideOk(topo, k, s);
  }

  /** The side step keeps every entry unassigned or below the next free index, keeps every
      assigned index assigned, and offers only domains of the mesh. */
  lemma SideStepKeeps(topo: map<int, Links>, t: Table, k: int, s: int, c: int)
    requires Mesh(topo) && TableOk(t, topo.Keys, c) && 0 <= c && k in topo && 0 <= s < 4
    ensures var (t', c') := SideStep(topo, t, k, s, c);
            TableOk(t', topo.Keys, c') && Grew(t, t') && c <= c'
    ensures Elems(Targets(topo, t, k, s)) <= topo.Keys
  {
    assert SideOk(topo, k, s);
    var (t', c') := SideStep(topo, t, k, s, c);
    if Unindexed(topo, t, k, s) {
      assert forall q :: q in t' ==> (q in t && t'[q] == t[q]) || 0 <= t'[q] < c';
      WritesKeep(t, t', topo.Keys, c, c');
    }
  }

  /** Keeping every entry and writing only indexes below c' keeps the table sound and
      every assigned index assigned. */
  lemma WritesKeep(t: Table, t': Table, keys: set<int>, c: int, c': int)
    requires TableOk(t, keys, c) && c <= c' && t.Keys <= t'.Keys
    requires forall q :: q in t' ==> (q in t && t'[q] == t[q]) || 0 <= t'[q] < c'
    ensures TableOk(t', keys, c') && Grew(t, t')
  {
  }

  /** The queue and the enqueued set after offering ids to the queue in order: an id goes
      to the back unless it was enqueued before. */
  function Push(queue: seq<int>, enq: set<int>, ids: seq<int>): (r: (seq<int>, set<int>))
    decreases |ids|
  {
    if ids == [] then (queue, enq)
    else Push(if ids[0] in enq then queue else queue + [ids[0]], enq + {ids[0]}, ids[1..])
  }

  /** Offering ids keeps the queue free of repeats and extends it by exactly the ids not
      enqueued before, which all become enqueued. */
  lemma {:induction false} PushKeeps(queue: seq<int>, enq: set<int>, ids: seq<int>)
    requires Distinct(queue) && Elems(queue) <= enq
    ensures var (q', e') := Push(queue, enq, ids);
            && e' == enq + Elems(ids)
            && |queue| <= |q'| && q'[..|queue|] == queue
            && Distinct(q') && Elems(q') == Elems(queue) + (e' - enq)
    decreases |ids|
  {
    if ids != [] {
      var id := ids[0];
      var q1 := if id in enq then queue else queue + [id];
      if id !in enq {
        DistinctSnocInt(queue, id);
      }
      assert Elems(ids) == {id} + Elems(ids[1..]);
      PushKeeps(q1, enq + {id}, ids[1..]);
      var (q', e') := Push(queue, enq, ids);
      assert q'[..|queue|] == q'[..|q1|][..|queue|];
    }
  }

  /** The walk starts a new component at first, which nobody has enqueued yet. */
  lemma WalkStart(keys: set<int>, order: seq<int>, enq: set<int>, notVisited: set<int>, first: int)
    requires Walk(keys, order, [], enq, notVisited) && first in notVisited
    ensures Walk(keys, order, [first], enq + {first}, notVisited) && first !in enq
  {
    var none: seq<int> := [];
    assert Elems(none) == {};
    assert Elems([first]) == {first};
  }

  /** Taking the front of the queue visits it. */
  lemma WalkPop(keys: set<int>, order: seq<int>, queue: seq<int>, enq: set<int>, notVisited: set<int>)
    requires Walk(keys, order, queue, enq, notVisited) && queue != []
    ensures queue[0] in notVisited && queue[0] in keys
    ensures Walk(keys, order + [queue[0]], queue[1..], enq, notVisited - {queue[0]})
  {
    var x := queue[0];
    assert queue == [x] + queue[1..];
    assert Elems(queue) == {x} + Elems(queue[1..]);
    assert x in Elems(queue);
    DistinctSnocInt(order, x);
  }

  /** Enqueueing domains not enqueued before keeps the walk. */
  lemma WalkPush(keys: set<int>, order: seq<int>, queue: seq<int>, enq: set<int>, notVisited: set<int>,
                 queue': seq<int>, enq': set<int>)
    requires Walk(keys, order, queue, enq, notVisited)
    requires Distinct(queue') && Elems(queue') == Elems(queue) + (enq' - enq) && enq <= enq' <= keys
    ensures Walk(keys, order, queue', enq', notVisited)
  {
  }

  /**
   * DomainCollection: the domains of this process keyed by id, the number of interface
   * indexes handed out (num_cols), and the lists of global ids generateMaps builds for the
   * collection, matrix and interface maps.
   */
  class DomainCollection {
    /** The number of unknowns along a side. */
    const n: nat
    /** Iface::size: the entries of interface information per interface. */
    const ifaceSize: nat
    const numGlobalDomains: int
    /** The neighbour data of the domains, keyed by id; generateMaps does not change it. */
    const topo: map<int, Links>
    /** The index arrays of the domains. */
    var index: Table
    var numCols: int
    var global: seq<int>
    var cIfaceGlobal: seq<int>
    var matrixGlobal: seq<int>
    var ifaceGlobal: seq<int>
    var collectionMap: seq<int>
    var collectionIfaceMap: seq<int>
    var matrixMap: seq<int>
    var ifaceMap: seq<int>

    /** Each index handed out owns n consecutive unknowns and ifaceSize consecutive
        interface entries, in the order the indexes were handed out. */
    ghost predicate Lists()
      reads this`numCols, this`global, this`cIfaceGlobal, this`matrixGlobal, this`ifaceGlobal
    {
      && numCols >= 0
      && global == Iota(n * numCols) && matrixGlobal == global
      && cIfaceGlobal == Iota(ifaceSize * numCols) && ifaceGlobal == cIfaceGlobal
    }

    /** Every index in a domain has been handed out. */
    ghost predicate State()
      reads this`index, this`numCols, this`global, this`cIfaceGlobal, this`matrixGlobal, this`ifaceGlobal
    {
      && Mesh(topo)
      && TableOk(index, topo.Keys, numCols)
      && Lists()
    }

    /** DomainCollection(dsc, n, comm): one fresh domain per signature. */
    constructor(dsc: map<int, Links>, n: nat, ifaceSize: nat, numGlobalDomains: int)
      requires Mesh(dsc)
      ensures this.n == n && this.ifaceSize == ifaceSize && this.numGlobalDomains == numGlobalDomains
      ensures topo == dsc && index == FreshTable(dsc.Keys)
      ensures numCols == 0 && State()
    {
      this.n := n;
      this.ifaceSize := ifaceSize;
      this.numGlobalDomains := numGlobalDomains;
      topo := dsc;
      index := FreshTable(dsc.Keys);
      numCols := 0;
      global, cIfaceGlobal, matrixGlobal, ifaceGlobal := [], [], [], [];
      collectionMap, collectionIfaceMap, matrixMap, ifaceMap := [], [], [], [];
    }

    /** Hands out index curr_i: its ifaceSize interface entries and its n unknowns are
        appended to the lists, and curr_i moves on. */
    method AllocIndex()
      requires Lists()
      modifies this`numCols, this`global, this`cIfaceGlobal, this`matrixGlobal, this`ifaceGlobal
      ensures numCols == old(numCols) + 1 && Lists()
    {
      var c: nat := numCols;
      MulMono(0, c, n);
      MulMono(0, c, ifaceSize);
      var ifaceBase := ifaceSize * c;
      var ifaces := cIfaceGlobal;
      var cols := global;
      for i := 0 to ifaceSize
        invariant ifaces == Iota(ifaceBase + i)
      {
        IotaSnoc(ifaceBase + i);
        ifaces := ifaces + [ifaceBase + i];
      }
      var base := n * c;
      for i := 0 to n
        invariant cols == Iota(base + i)
      {
        IotaSnoc(base + i);
        cols := cols + [base + i];
      }
      cIfaceGlobal, ifaceGlobal := ifaces, ifaces;
      global, matrixGlobal := cols, cols;
      MulAddOne(n, c);
      MulAddOne(ifaceSize, c);
      numCols := c + 1;
    }

    /** Side s of k faces two fine neighbours: the side gets a fresh index, which both
        neighbours take as their center, and each neighbour gets a fresh index of its own. */
    method IndexFine(k: int, s: int)
      requires State() && k in topo && 0 <= s < 4 && Unindexed(topo, index, k, s) && topo[k].fine[s]
      modifies this`index, this`numCols, this`global, this`cIfaceGlobal, this`matrixGlobal, this`ifaceGlobal
      ensures Lists() && (index, numCols) == SideStep(topo, old(index), k, s, old(numCols))
    {
      var l := topo[k];
      var o := Opp(s);
      assert SideOk(topo, k, s);
      index := index[Slot(k, Index, s) := numCols];
      AllocIndex();
      var nb, nr := l.nbr[s], l.nbrRight[s];
      index := index[Slot(nb, Center, o) := index[Slot(k, Index, s)]];
      index := index[Slot(nr, Center, o) := index[Slot(k, Index, s)]];
      index := index[Slot(nb, Index, o) := numCols];
      AllocIndex();
      index := index[Slot(nr, Index, o) := numCols];
      AllocIndex();
    }

    /** Side s of k faces a coarse neighbour: the side gets a fresh index, shared by the
        half of the neighbour's side k touches; the other half gets a fresh index shared
        with the buddy, the domain on that half; and the neighbour's whole side gets a third,
        the center of k and of the buddy. Returns the buddy's id. */
    method IndexCoarse(k: int, s: int) returns (buddyId: int)
      requires State() && k in topo && 0 <= s < 4 && Unindexed(topo, index, k, s)
      requires !topo[k].fine[s] && topo[k].coarse[s]
      modifies this`index, this`numCols, this`global, this`cIfaceGlobal, this`matrixGlobal, this`ifaceGlobal
      ensures SideOk(topo, k, s) && buddyId == Buddy(topo, k, s)
      ensures Lists() && (index, numCols) == SideStep(topo, old(index), k, s, old(numCols))
    {
      var l := topo[k];
      var o := Opp(s);
      assert SideOk(topo, k, s);
      index := index[Slot(k, Index, s) := numCols];
      AllocIndex();
      var nb := l.nbr[s];
      index := index[Slot(nb, Index, o) := index[Slot(k, Index, s)]];
      buddyId := -1;
      if l.leftOfCoarse[s] {
        var b := topo[nb].nbrRight[o];
        buddyId := topo[b].id;
        index := index[Slot(nb, RefinedLeft, o) := index[Slot(k, Index, s)]];
        index := index[Slot(nb, RefinedRight, o) := numCols];
        index := index[Slot(b, Index, s) := numCols];
        AllocIndex();
        index := index[Slot(k, Center, s) := numCols];
        index := index[Slot(nb, Index, o) := numCols];
        index := index[Slot(b, Center, s) := numCols];
        AllocIndex();
      } else {
        var b := topo[nb].nbr[o];
        buddyId := topo[b].id;
        index := index[Slot(nb, RefinedRight, o) := index[Slot(k, Index, s)]];
        index := index[Slot(nb, RefinedLeft, o) := numCols];
        index := index[Slot(b, Index, s) := numCols];
        AllocIndex();
        index := index[Slot(k, Center, s) := numCols];
        index := index[Slot(nb, Index, o) := numCols];
        index := index[Slot(b, Center, s) := numCols];
        AllocIndex();
      }
    }

    /** Side s of k faces a neighbour of the same size: both share a fresh index. */
    method IndexNormal(k: int, s: int)
      requires State() && k in topo && 0 <= s < 4 && Unindexed(topo, index, k, s)
      requires !topo[k].fine[s] && !topo[k].coarse[s]
      modifies this`index, this`numCols, this`global, this`cIfaceGlobal, this`matrixGlobal, this`ifaceGlobal
      ensures Lists() && (index, numCols) == SideStep(topo, old(index), k, s, old(numCols))
    {
      var l := topo[k];
      assert SideOk(topo, k, s);
      index := index[Slot(k, Index, s) := numCols];
      AllocIndex();
      var nb := l.nbr[s];
      index := index[Slot(nb, Index, Opp(s)) := index[Slot(k, Index, s)]];
    }

    /** One pass of the side loop of generateMaps for side s of domain k. */
    method ProcessSide(k: int, s: int, queue: seq<int>, enq: set<int>) returns (queue': seq<int>, enq': set<int>)
      requires State() && k in topo && 0 <= s < 4
      requires Distinct(queue) && Elems(queue) <= enq
      modifies this`index, this`numCols, this`global, this`cIfaceGlobal, this`matrixGlobal, this`ifaceGlobal
      ensures State()
      ensures (index, numCols) == SideStep(topo, old(index), k, s, old(numCols))
      ensures (queue', enq') == Push(queue, enq, Targets(topo, old(index), k, s))
    {
      var l := topo[k];
      ghost var t0, c0 := index, numCols;
      queue', enq' := queue, enq;
      if l.nbr[s] != -1 && index[Slot(k, Index, s)] == -1 {
        assert SideOk(topo, k, s);
        var nb := l.nbr[s];
        if l.fine[s] {
          IndexFine(k, s);
          var nr := l.nbrRight[s];
          queue', enq' := Enqueue(nb, queue', enq');
          ghost var q1, e1 := queue', enq';
          queue', enq' := Enqueue(nr, queue', enq');
          assert Targets(topo, t0, k, s) == [nb, nr];
          assert [nb, nr][1..] == [nr];
          assert Push(q1, e1, [nr]) == (queue', enq');
        } else if l.coarse[s] {
          var buddyId := IndexCoarse(k, s);
          assert topo[nb].id == nb;
          queue', enq' := Enqueue(topo[nb].id, queue', enq');
          ghost var q1, e1 := queue', enq';
          queue', enq' := Enqueue(buddyId, queue', enq');
          assert Targets(topo, t0, k, s) == [nb, buddyId];
          assert [nb, buddyId][1..] == [buddyId];
          assert Push(q1, e1, [buddyId]) == (queue', enq');
        } else {
          IndexNormal(k, s);
          queue', enq' := Enqueue(nb, queue', enq');
          assert Targets(topo, t0, k, s) == [nb];
        }
      }
      SideStepKeeps(topo, t0, k, s, c0);
    }

    /** Visiting domain k: its four sides in turn, north, east, south, west. */
    method VisitDomain(k: int, queue: seq<int>, enq: set<int>) returns (queue': seq<int>, enq': set<int>)
      requires State() && k in topo
      requires Distinct(queue) && Elems(queue) <= enq
      modifies this`index, this`numCols, this`global, this`cIfaceGlobal, this`matrixGlobal, this`ifaceGlobal
      ensures State() && Grew(old(index), index) && old(numCols) <= numCols
      ensures SidesIndexed(topo, index, {k})
      ensures |queue| <= |queue'| && queue'[..|queue|] == queue
      ensures Distinct(queue') && Elems(queue') == Elems(queue) + (enq' - enq)
      ensures enq <= enq' && enq' - enq <= topo.Keys
    {
      queue', enq' := queue, enq;
      var s := 0;
      while s < 4
        invariant 0 <= s <= 4 && State() && Grew(old(index), index) && old(numCols) <= numCols
        invariant forall j :: 0 <= j < s && topo[k].nbr[j] != -1 ==> At(index, k, Index, j) != -1
        invariant |queue| <= |queue'| && queue'[..|queue|] == queue
        invariant Distinct(queue') && Elems(queue') == Elems(queue) + (enq' - enq)
        invariant enq <= enq' && enq' - enq <= topo.Keys
      {
        ghost var t1, c1, q1, e1 := index, numCols, queue', enq';
        queue', enq' := ProcessSide(k, s, queue', enq');
        PushKeeps(q1, e1, Targets(topo, t1, k, s));
        assert queue'[..|queue|] == queue'[..|q1|][..|queue|];
        SideStepMeaning(topo, t1, k, s, c1);
        SideStepKeeps(topo, t1, k, s, c1);
        GrewTrans(old(index), t1, index);
        s := s + 1;
      }
    }

    /** generateMaps: visits every domain breadth first, component by component starting
        from the least unvisited id, hands out the interface indexes, and builds the maps.
        order is the order the domains are visited in. */
    method GenerateMaps() returns (ghost order: seq<int>)
      requires State() && numCols == 0
      modifies this`index, this`numCols, this`global, this`cIfaceGlobal, this`matrixGlobal, this`ifaceGlobal
      modifies this`collectionMap, this`collectionIfaceMap, this`matrixMap, this`ifaceMap
      ensures State()
      ensures Distinct(order) && Elems(order) == topo.Keys
      ensures SidesIndexed(topo, index, topo.Keys)
      ensures numGlobalDomains == 1 ==>
                collectionMap == [0] && collectionIfaceMap == [0] && matrixMap == [0] && ifaceMap == [0]
      ensures numGlobalDomains != 1 ==>
                && collectionMap == global && collectionIfaceMap == cIfaceGlobal
                && matrixMap == matrixGlobal && ifaceMap == ifaceGlobal
    {
      ghost var keys := topo.Keys;
      var enq: set<int> := {};
      var queue: seq<int> := [];
      var notVisited := topo.Keys;
      order := [];
      var none: seq<int> := [];
      assert Elems(none) == {};
      while notVisited != {}
        invariant State()
        invariant Walk(keys, order, [], enq, notVisited) && queue == []
        invariant SidesIndexed(topo, index, Elems(order))
        decreases notVisited
      {
        var first := MinOf(notVisited);
        WalkStart(keys, order, enq, notVisited, first);
        queue := [first];
        enq := enq + {first};
        ghost var nv0 := notVisited;
        while queue != []
          invariant notVisited <= nv0 && (queue == [first] || first !in notVisited)
          invariant State()
          invariant Walk(keys, order, queue, enq, notVisited)
          invariant SidesIndexed(topo, index, Elems(order))
          decreases notVisited
        {
          var curr := queue[0];
          WalkPop(keys, order, queue, enq, notVisited);
          queue := queue[1..];
          notVisited := notVisited - {curr};
          ghost var t1, e1, q1 := index, enq, queue;
          queue, enq := VisitDomain(curr, queue, enq);
          WalkPush(keys, order + [curr], q1, e1, notVisited, queue, enq);
          SidesIndexedGrew(topo, t1, index, Elems(order));
          assert Elems(order + [curr]) == Elems(order) + {curr};
          order := order + [curr];
        }
      }
      if numGlobalDomains == 1 {
        collectionMap, collectionIfaceMap, matrixMap, ifaceMap := [0], [0], [0], [0];
      } else {
        collectionMap, collectionIfaceMap, matrixMap, ifaceMap := global, cIfaceGlobal, matrixGlobal, ifaceGlobal;
      }
    }
  }
}
