/**
 * The breadth-first local numbering the domain collections use for domains and for
 * interface sets: starting from the least id not yet numbered, the objects of this
 * process are numbered 0, 1, ... in the order a FIFO queue visits them, and the ids of
 * neighbours owned by other processes are recorded once each, in discovery order, and
 * numbered after all local objects.
 */
module LocalIndexing {
  import opened OrderedSets

  /** A neighbour entry that names an object: -1 stands for "no neighbour" when skipNone. */
  predicate Named(n: int, skipNone: bool)
  {
    !(skipNone && n == -1)
  }

  /** The objects the objects of S name as neighbours. */
  ghost function NamedBy(nbrs: map<int, seq<int>>, S: set<int>, skipNone: bool): set<int>
  {
    set i, n | i in S && i in nbrs && n in nbrs[i] && Named(n, skipNone) :: n
  }

  lemma DistinctSnoc(s: seq<int>, x: int)
    requires Distinct(s) && x !in s
    ensures Distinct(s + [x]) && Elems(s + [x]) == Elems(s) + {x}
  {
  }

  // ---------------------------------------------------------------------------
  // The traversal as a function

  /** What the neighbour loop updates: the enqueued set, the queue and off_proc_map_vec. */
  datatype Found = Found(enq: set<int>, queue: seq<int>, off: seq<int>)

  /** The state of the traversal between steps: map_vec so far and what was found. */
  datatype Trav = Trav(order: seq<int>, found: Found)

  /** The loop over one object's neighbours ns: each one named and not yet enqueued is
      enqueued, and goes to the back of the queue when it is local (in keys) and to the end
      of the off-process list otherwise. */
  function Scan(ns: seq<int>, keys: set<int>, skipNone: bool, f: Found): Found
  {
    if ns == [] then f
    else
      var g := Scan(ns[..|ns| - 1], keys, skipNone, f);
      var n := ns[|ns| - 1];
      if !Named(n, skipNone) || n in g.enq then g
      else if n in keys then Found(g.enq + {n}, g.queue + [n], g.off)
      else Found(g.enq + {n}, g.queue, g.off + [n])
  }

  /** The neighbour list of an object (every local object has one). */
  function NbrsOf(nbrs: map<int, seq<int>>, i: int): seq<int>
  {
    if i in nbrs then nbrs[i] else []
  }

  /** One step of the traversal: with a non-empty queue, its front is numbered next and its
      neighbours are scanned; with an empty queue, a new component starts at the least
      local id not yet numbered (*todo.begin()); with nothing left, the traversal stays. */
  ghost function Next(keys: set<int>, nbrs: map<int, seq<int>>, skipNone: bool, t: Trav): Trav
  {
    if t.found.queue != [] then
      var i := t.found.queue[0];
      Trav(t.order + [i], Scan(NbrsOf(nbrs, i), keys, skipNone, t.found.(queue := t.found.queue[1..])))
    else if keys - Elems(t.order) != {} then
      var k := Least(keys - Elems(t.order));
      Trav(t.order, Found(t.found.enq + {k}, [k], t.found.off))
    else t
  }

  /** The state after n steps from the start: nothing numbered, found or queued. */
  ghost function Run(keys: set<int>, nbrs: map<int, seq<int>>, skipNone: bool, n: nat): Trav
  {
    if n == 0 then Trav([], Found({}, [], []))
    else Next(keys, nbrs, skipNone, Run(keys, nbrs, skipNone, n - 1))
  }

  /** After n steps the traversal has stopped. */
  ghost predicate Halted(keys: set<int>, nbrs: map<int, seq<int>>, skipNone: bool, n: nat)
  {
    Next(keys, nbrs, skipNone, Run(keys, nbrs, skipNone, n)) == Run(keys, nbrs, skipNone, n)
  }

  /** A step that takes the front of a non-empty queue. */
  lemma RunPop(keys: set<int>, nbrs: map<int, seq<int>>, skipNone: bool, n: nat, t: Trav, f: Found)
    requires Run(keys, nbrs, skipNone, n) == t && t.found.queue != [] && t.found.queue[0] in nbrs
    requires f == Scan(nbrs[t.found.queue[0]], keys, skipNone, t.found.(queue := t.found.queue[1..]))
    ensures Run(keys, nbrs, skipNone, n + 1) == Trav(t.order + [t.found.queue[0]], f)
  {
  }

  /** A step that starts a new component at the least id not yet numbered. */
  lemma RunRestart(keys: set<int>, nbrs: map<int, seq<int>>, skipNone: bool, n: nat, t: Trav, k: int)
    requires Run(keys, nbrs, skipNone, n) == t && t.found.queue == []
    requires keys - Elems(t.order) != {} && k == Least(keys - Elems(t.order))
    ensures Run(keys, nbrs, skipNone, n + 1) == Trav(t.order, Found(t.found.enq + {k}, [k], t.found.off))
  {
  }

  /** With the queue empty and every id numbered, the traversal has stopped. */
  lemma RunHalts(keys: set<int>, nbrs: map<int, seq<int>>, skipNone: bool, n: nat, t: Trav)
    requires Run(keys, nbrs, skipNone, n) == t && t.found.queue == [] && keys - Elems(t.order) == {}
    ensures Halted(keys, nbrs, skipNone, n)
  {
  }

  /** Once stopped, the traversal stays where it stopped. */
  lemma {:induction false} HaltedStays(keys: set<int>, nbrs: map<int, seq<int>>, skipNone: bool, n: nat, m: nat)
    requires Halted(keys, nbrs, skipNone, n) && n <= m
    ensures Run(keys, nbrs, skipNone, m) == Run(keys, nbrs, skipNone, n)
    decreases m
  {
    if n < m {
      HaltedStays(keys, nbrs, skipNone, n, m - 1);
    }
  }

  /** map_vec and off_proc_map_vec of the breadth-first numbering are order and off: those
      of the traversal once it has stopped. */
  ghost predicate BfsNumbering(keys: set<int>, nbrs: map<int, seq<int>>, skipNone: bool, order: seq<int>, off: seq<int>)
  {
    exists n: nat :: Halted(keys, nbrs, skipNone, n)
      && Run(keys, nbrs, skipNone, n).order == order && Run(keys, nbrs, skipNone, n).found.off == off
  }

  /** The breadth-first numbering is determined by the objects and their neighbour lists. */
  lemma BfsNumberingUnique(keys: set<int>, nbrs: map<int, seq<int>>, skipNone: bool,
                           order1: seq<int>, off1: seq<int>, order2: seq<int>, off2: seq<int>)
    requires BfsNumbering(keys, nbrs, skipNone, order1, off1)
    requires BfsNumbering(keys, nbrs, skipNone, order2, off2)
    ensures order1 == order2 && off1 == off2
  {
    var n1: nat :| Halted(keys, nbrs, skipNone, n1)
      && Run(keys, nbrs, skipNone, n1).order == order1 && Run(keys, nbrs, skipNone, n1).found.off == off1;
    var n2: nat :| Halted(keys, nbrs, skipNone, n2)
      && Run(keys, nbrs, skipNone, n2).order == order2 && Run(keys, nbrs, skipNone, n2).found.off == off2;
    if n1 <= n2 {
      HaltedStays(keys, nbrs, skipNone, n1, n2);
    } else {
      HaltedStays(keys, nbrs, skipNone, n2, n1);
    }
  }

  /** Objects 0, 1, 2 where 0 lists its neighbours as 2 then 1 and names the off-process
      object 7: the queue visits 2 before 1, so map_vec is [0, 2, 1] and not the increasing
      order, and 7 is recorded once although 2 names it too. */
  lemma BfsOrderExample()
    ensures var nbrs := map[0 := [2, 7, 1], 1 := [-1], 2 := [7, 0]];
      && BfsNumbering({0, 1, 2}, nbrs, true, [0, 2, 1], [7])
      && !BfsNumbering({0, 1, 2}, nbrs, true, [0, 1, 2], [7])
  {
    var keys: set<int> := {0, 1, 2};
    var nbrs := map[0 := [2, 7, 1], 1 := [-1], 2 := [7, 0]];
    var all := {0, 2, 7, 1};
    var none: seq<int> := [];
    assert keys - Elems(none) == keys;
    assert Least(keys) == 0;
    ExampleScans();
    var t0 := Trav([], Found({}, [], []));
    RunRestart(keys, nbrs, true, 0, t0, 0);
    var t1 := Trav([], Found({0}, [0], []));
    assert [0][1..] == [] && nbrs[0] == [2, 7, 1] && nbrs[2] == [7, 0] && nbrs[1] == [-1];
    RunPop(keys, nbrs, true, 1, t1, Found(all, [2, 1], [7]));
    var t2 := Trav([0], Found(all, [2, 1], [7]));
    assert [2, 1][1..] == [1];
    RunPop(keys, nbrs, true, 2, t2, Found(all, [1], [7]));
    var t3 := Trav([0, 2], Found(all, [1], [7]));
    assert [1][1..] == [];
    RunPop(keys, nbrs, true, 3, t3, Found(all, [], [7]));
    var t4 := Trav([0, 2, 1], Found(all, [], [7]));
    assert keys - Elems(t4.order) == {};
    RunHalts(keys, nbrs, true, 4, t4);
    if BfsNumbering(keys, nbrs, true, [0, 1, 2], [7]) {
      BfsNumberingUnique(keys, nbrs, true, [0, 2, 1], [7], [0, 1, 2], [7]);
    }
  }

  /** The three scans of BfsOrderExample. */
  lemma ExampleScans()
    ensures Scan([2, 7, 1], {0, 1, 2}, true, Found({0}, [], [])) == Found({0, 2, 7, 1}, [2, 1], [7])
    ensures Scan([7, 0], {0, 1, 2}, true, Found({0, 2, 7, 1}, [1], [7])) == Found({0, 2, 7, 1}, [1], [7])
    ensures Scan([-1], {0, 1, 2}, true, Found({0, 2, 7, 1}, [], [7])) == Found({0, 2, 7, 1}, [], [7])
  {
    ExampleScanFirst();
    ExampleScanSecond();
    var ns1 := [-1];
    assert ns1[..0] == [];
  }

  /** Domain 0's scan: 2 and 1 are queued, 7 is off-process. */
  lemma ExampleScanFirst()
    ensures Scan([2, 7, 1], {0, 1, 2}, true, Found({0}, [], [])) == Found({0, 2, 7, 1}, [2, 1], [7])
  {
    ExampleScanTwo();
    var ns := [2, 7, 1];
    assert ns[..2] == [2, 7];
    assert {0, 2, 7} + {1} == {0, 2, 7, 1};
  }

  /** Its first two names: 2 is queued, 7 is off-process. */
  lemma ExampleScanTwo()
    ensures Scan([2, 7], {0, 1, 2}, true, Found({0}, [], [])) == Found({0, 2, 7}, [2], [7])
  {
    ExampleScanOne();
    var ns := [2, 7];
    assert ns[..1] == [2];
    assert {0, 2} + {7} == {0, 2, 7};
  }

  /** Its first name: 2 is queued. */
  lemma ExampleScanOne()
    ensures Scan([2], {0, 1, 2}, true, Found({0}, [], [])) == Found({0, 2}, [2], [])
  {
    var ns := [2];
    assert ns[..0] == [];
    assert {0} + {2} == {0, 2};
  }

  /** Domain 2's scan: 7 and 0 are both enqueued already. */
  lemma ExampleScanSecond()
    ensures Scan([7, 0], {0, 1, 2}, true, Found({0, 2, 7, 1}, [1], [7])) == Found({0, 2, 7, 1}, [1], [7])
  {
    var ns := [7, 0];
    assert ns[..1] == [7] && [7][..0] == [];
  }

  // ---------------------------------------------------------------------------
  // The traversal loops

  /** The scan enqueues the named neighbours not yet enqueued, each once: the local ones
      at the back of the queue and the others at the end of the off-process list, both
      keeping what they held in front. */
  lemma ScanFacts(ns: seq<int>, keys: set<int>, skipNone: bool, f: Found)
    requires Distinct(f.queue) && Elems(f.queue) <= f.enq
    requires Distinct(f.off) && Elems(f.off) <= f.enq
    ensures var g := Scan(ns, keys, skipNone, f);
      && g.enq == f.enq + (set n | n in ns && Named(n, skipNone))
      && |f.queue| <= |g.queue| && g.queue[..|f.queue|] == f.queue
      && Distinct(g.queue) && Elems(g.queue) == Elems(f.queue) + (g.enq - f.enq) * keys
      && |f.off| <= |g.off| && g.off[..|f.off|] == f.off
      && Distinct(g.off) && Elems(g.off) == Elems(f.off) + ((g.enq - f.enq) - keys)
  {
    ScanEnq(ns, keys, skipNone, f);
    ScanQueue(ns, keys, skipNone, f);
    ScanOff(ns, keys, skipNone, f);
  }

  lemma {:induction false} ScanEnq(ns: seq<int>, keys: set<int>, skipNone: bool, f: Found)
    ensures Scan(ns, keys, skipNone, f).enq == f.enq + (set n | n in ns && Named(n, skipNone))
    decreases |ns|
  {
    if ns != [] {
      var init, n := ns[..|ns| - 1], ns[|ns| - 1];
      assert ns == init + [n];
      ScanEnq(init, keys, skipNone, f);
      assert (set x | x in ns && Named(x, skipNone)) == (set x | x in init && Named(x, skipNone)) + (if Named(n, skipNone) then {n} else {});
    }
  }

  /** The scan only adds to the enqueued set. */
  lemma {:induction false} ScanGrows(ns: seq<int>, keys: set<int>, skipNone: bool, f: Found)
    ensures f.enq <= Scan(ns, keys, skipNone, f).enq
    decreases |ns|
  {
    if ns != [] {
      ScanGrows(ns[..|ns| - 1], keys, skipNone, f);
    }
  }

  /** The queue gains the newly enqueued local ids, each once, behind what it held. */
  lemma {:induction false} ScanQueue(ns: seq<int>, keys: set<int>, skipNone: bool, f: Found)
    requires Distinct(f.queue) && Elems(f.queue) <= f.enq
    ensures var g := Scan(ns, keys, skipNone, f);
      && |f.queue| <= |g.queue| && g.queue[..|f.queue|] == f.queue
      && Distinct(g.queue) && Elems(g.queue) == Elems(f.queue) + (g.enq - f.enq) * keys
    decreases |ns|
  {
    if ns != [] {
      var init, n := ns[..|ns| - 1], ns[|ns| - 1];
      ScanQueue(init, keys, skipNone, f);
      ScanGrows(init, keys, skipNone, f);
      var g := Scan(init, keys, skipNone, f);
      if Named(n, skipNone) && n !in g.enq && n in keys {
        assert n !in g.queue;
        DistinctSnoc(g.queue, n);
        assert (g.queue + [n])[..|f.queue|] == g.queue[..|f.queue|];
        assert (g.enq + {n}) - f.enq == (g.enq - f.enq) + {n};
      }
    }
  }

  /** The off-process list gains the newly enqueued non-local ids, each once, behind what
      it held. */
  lemma {:induction false} ScanOff(ns: seq<int>, keys: set<int>, skipNone: bool, f: Found)
    requires Distinct(f.off) && Elems(f.off) <= f.enq
    ensures var g := Scan(ns, keys, skipNone, f);
      && |f.off| <= |g.off| && g.off[..|f.off|] == f.off
      && Distinct(g.off) && Elems(g.off) == Elems(f.off) + ((g.enq - f.enq) - keys)
    decreases |ns|
  {
    if ns != [] {
      var init, n := ns[..|ns| - 1], ns[|ns| - 1];
      ScanOff(init, keys, skipNone, f);
      ScanGrows(init, keys, skipNone, f);
      var g := Scan(init, keys, skipNone, f);
      if Named(n, skipNone) && n !in g.enq && n !in keys {
        assert n !in g.off;
        DistinctSnoc(g.off, n);
        assert (g.off + [n])[..|f.off|] == g.off[..|f.off|];
        assert (g.enq + {n}) - f.enq == (g.enq - f.enq) + {n};
      }
    }
  }

  /** The loop over one object's neighbours, as Scan describes it. */
  method ScanNbrs(ns: seq<int>, keys: set<int>, skipNone: bool, enq: set<int>, queue: seq<int>, off: seq<int>)
    returns (enq': set<int>, queue': seq<int>, off': seq<int>)
    ensures Found(enq', queue', off') == Scan(ns, keys, skipNone, Found(enq, queue, off))
  {
    enq', queue', off' := enq, queue, off;
    for t := 0 to |ns|
      invariant Found(enq', queue', off') == Scan(ns[..t], keys, skipNone, Found(enq, queue, off))
    {
      var n := ns[t];
      assert ns[..t + 1][..t] == ns[..t];
      if Named(n, skipNone) && n !in enq' {
        enq' := enq' + {n};
        if n in keys {
          queue' := queue' + [n];
        } else {
          off' := off' + [n];
        }
      }
    }
    assert ns[..|ns|] == ns;
  }

  /** The state of the traversal between steps. */
  ghost predicate Walk(keys: set<int>, nbrs: map<int, seq<int>>, skipNone: bool, order: seq<int>, queue: seq<int>,
                       off: seq<int>, enq: set<int>, todo: set<int>, rev: map<int, int>)
  {
    && Distinct(order) && Distinct(queue) && Distinct(off)
    && Elems(order) !! Elems(queue)
    && Elems(order) + Elems(queue) == enq * keys
    && todo == keys - Elems(order)
    && Elems(off) == enq - keys
    && enq - keys <= NamedBy(nbrs, keys, skipNone)
    && (forall i, n :: i in order && i in nbrs && n in nbrs[i] && Named(n, skipNone) ==> n in enq)
    && rev.Keys == Elems(order)
    && (forall j :: 0 <= j < |order| ==> rev[order[j]] == j)
  }

  /** Starting a new component at k, an id not yet numbered, keeps the traversal state. */
  lemma WalkStart(keys: set<int>, nbrs: map<int, seq<int>>, skipNone: bool, order: seq<int>,
                  off: seq<int>, enq: set<int>, todo: set<int>, rev: map<int, int>, k: int)
    requires Walk(keys, nbrs, skipNone, order, [], off, enq, todo, rev) && k in todo
    ensures k !in enq
    ensures Walk(keys, nbrs, skipNone, order, [k], off, enq + {k}, todo, rev)
  {
    assert Elems([k]) == {k};
  }

  /** Taking the front of the queue, numbering it and scanning its neighbours keeps the
      traversal state. */
  lemma WalkStep(keys: set<int>, nbrs: map<int, seq<int>>, skipNone: bool, order: seq<int>, queue: seq<int>,
                 off: seq<int>, enq: set<int>, todo: set<int>, rev: map<int, int>,
                 enq': set<int>, queue': seq<int>, off': seq<int>)
    requires Walk(keys, nbrs, skipNone, order, queue, off, enq, todo, rev) && queue != []
    requires nbrs.Keys == keys && queue[0] in keys
    requires Found(enq', queue', off') == Scan(nbrs[queue[0]], keys, skipNone, Found(enq, queue[1..], off))
    ensures Walk(keys, nbrs, skipNone, order + [queue[0]], queue', off', enq', todo - {queue[0]},
                 rev[queue[0] := |order|])
  {
    var i := queue[0];
    WalkFront(keys, nbrs, skipNone, order, queue, off, enq, todo, rev);
    ScanFacts(nbrs[i], keys, skipNone, Found(enq, queue[1..], off));
    assert queue == [i] + queue[1..];
    assert Elems(queue) == {i} + Elems(queue[1..]);
    assert i !in queue[1..];
    DistinctSnoc(order, i);
    var order' := order + [i];
    var rev' := rev[i := |order|];
    forall j | 0 <= j < |order'|
      ensures rev'[order'[j]] == j
    {
      if j < |order| {
        assert order'[j] == order[j];
      }
    }
    forall i0, n | i0 in order' && i0 in nbrs && n in nbrs[i0] && Named(n, skipNone)
      ensures n in enq'
    {
      if i0 != i {
        assert i0 in order;
      }
    }
    forall n | n in enq' - keys
      ensures n in NamedBy(nbrs, keys, skipNone)
    {
      if n !in enq {
        assert i in keys && i in nbrs && n in nbrs[i] && Named(n, skipNone);
      }
    }
  }

  /** With nothing left to number, every local id is numbered and the off-process list
      holds exactly the named non-local neighbours. */
  lemma WalkDone(keys: set<int>, nbrs: map<int, seq<int>>, skipNone: bool, order: seq<int>,
                 off: seq<int>, enq: set<int>, rev: map<int, int>)
    requires Walk(keys, nbrs, skipNone, order, [], off, enq, {}, rev)
    ensures Elems(order) == keys
    ensures Elems(off) == NamedBy(nbrs, keys, skipNone) - keys
  {
    var none: seq<int> := [];
    assert Elems(none) == {};
    assert Elems(order) <= keys;
    forall n | n in NamedBy(nbrs, keys, skipNone) - keys
      ensures n in enq
    {
      var i :| i in keys && i in nbrs && n in nbrs[i] && Named(n, skipNone);
      assert i in Elems(order);
    }
  }

  /** The front of the queue is a local id not yet numbered, and the rest of the queue and
      the off-process list are enqueued without repetition. */
  lemma WalkFront(keys: set<int>, nbrs: map<int, seq<int>>, skipNone: bool, order: seq<int>, queue: seq<int>,
                  off: seq<int>, enq: set<int>, todo: set<int>, rev: map<int, int>)
    requires Walk(keys, nbrs, skipNone, order, queue, off, enq, todo, rev) && queue != []
    ensures queue[0] in keys && queue[0] in todo
    ensures Distinct(queue[1..]) && Elems(queue[1..]) <= enq && Elems(off) <= enq
  {
    assert queue == [queue[0]] + queue[1..];
    assert queue[0] in Elems(queue);
    assert Elems(queue[1..]) <= Elems(queue);
    forall a, b | 0 <= a < b < |queue[1..]|
      ensures queue[1..][a] != queue[1..][b]
    {
      assert queue[1..][a] == queue[a + 1] && queue[1..][b] == queue[b + 1];
    }
  }

  /** The body of the inner loop: the front of the queue is taken off and numbered next,
      and its neighbours are scanned. */
  method PopFront(keys: set<int>, nbrs: map<int, seq<int>>, skipNone: bool, order: seq<int>, queue: seq<int>,
                  off: seq<int>, enq: set<int>, todo: set<int>, rev: map<int, int>, ghost steps: nat)
    returns (order': seq<int>, queue': seq<int>, off': seq<int>, enq': set<int>, todo': set<int>, rev': map<int, int>)
    requires nbrs.Keys == keys && queue != []
    requires Walk(keys, nbrs, skipNone, order, queue, off, enq, todo, rev)
    requires Run(keys, nbrs, skipNone, steps) == Trav(order, Found(enq, queue, off))
    ensures Run(keys, nbrs, skipNone, steps + 1) == Trav(order', Found(enq', queue', off'))
    ensures Walk(keys, nbrs, skipNone, order', queue', off', enq', todo', rev')
    ensures order' == order + [queue[0]] && queue[0] in todo && todo' == todo - {queue[0]}
    ensures forall x :: x in queue && x != queue[0] ==> x in queue'
  {
    var i := queue[0];
    WalkFront(keys, nbrs, skipNone, order, queue, off, enq, todo, rev);
    enq', queue', off' := ScanNbrs(nbrs[i], keys, skipNone, enq, queue[1..], off);
    WalkStep(keys, nbrs, skipNone, order, queue, off, enq, todo, rev, enq', queue', off');
    RunPop(keys, nbrs, skipNone, steps, Trav(order, Found(enq, queue, off)), Found(enq', queue', off'));
    todo' := todo - {i};
    rev' := rev[i := |order|];
    order' := order + [i];
    ScanQueue(nbrs[i], keys, skipNone, Found(enq, queue[1..], off));
    forall x | x in queue && x != i
      ensures x in queue'
    {
      assert queue == [i] + queue[1..];
      assert x in queue[1..];
      assert queue'[..|queue[1..]|] == queue[1..];
    }
  }

  /** One component: the inner loop of the traversal, from a queue holding only k until
      the queue is empty. */
  method Visit(keys: set<int>, nbrs: map<int, seq<int>>, skipNone: bool, k: int, order0: seq<int>,
               off0: seq<int>, enq0: set<int>, todo0: set<int>, rev0: map<int, int>, ghost steps0: nat)
    returns (order: seq<int>, off: seq<int>, enq: set<int>, todo: set<int>, rev: map<int, int>, ghost steps: nat)
    requires nbrs.Keys == keys
    requires Walk(keys, nbrs, skipNone, order0, [k], off0, enq0, todo0, rev0) && k in todo0
    requires Run(keys, nbrs, skipNone, steps0) == Trav(order0, Found(enq0, [k], off0))
    ensures Run(keys, nbrs, skipNone, steps) == Trav(order, Found(enq, [], off))
    ensures Walk(keys, nbrs, skipNone, order, [], off, enq, todo, rev)
    ensures todo < todo0
    ensures order0 != [] ==> order != [] && order[0] == order0[0]
    ensures order0 == [] ==> order != [] && order[0] == k
  {
    order, off, enq, todo, rev := order0, off0, enq0, todo0, rev0;
    steps := steps0;
    var queue := [k];
    while queue != []
      invariant Run(keys, nbrs, skipNone, steps) == Trav(order, Found(enq, queue, off))
      invariant Walk(keys, nbrs, skipNone, order, queue, off, enq, todo, rev)
      invariant todo <= todo0 && (k in todo ==> k in queue)
      invariant order0 != [] ==> order != [] && order[0] == order0[0]
      invariant order0 == [] ==> (order == [] ==> queue == [k]) && (order != [] ==> order[0] == k)
      decreases todo
    {
      var i := queue[0];
      var order', queue', off', enq', todo', rev' := PopFront(keys, nbrs, skipNone, order, queue, off, enq, todo, rev, steps);
      steps := steps + 1;
      order, queue, off, enq, todo, rev := order', queue', off', enq', todo', rev';
    }
  }

  /** DomainCollection::indexDomainsLocal and indexIfacesLocal: the breadth-first numbering.
      order is map_vec, off is off_proc_map_vec and rev is rev_map. */
  method Bfs(keys: set<int>, nbrs: map<int, seq<int>>, skipNone: bool)
    returns (order: seq<int>, off: seq<int>, rev: map<int, int>)
    requires nbrs.Keys == keys
    ensures Distinct(order) && Elems(order) == keys
    ensures Distinct(off) && Elems(off) == NamedBy(nbrs, keys, skipNone) - keys
    ensures rev.Keys == keys + Elems(off)
    ensures forall j :: 0 <= j < |order| ==> rev[order[j]] == j
    ensures forall j :: 0 <= j < |off| ==> rev[off[j]] == |order| + j
    ensures order != [] ==> forall k :: k in keys ==> order[0] <= k
    ensures BfsNumbering(keys, nbrs, skipNone, order, off)
  {
    var enq, rev0;
    order, off, enq, rev0 := NumberLocal(keys, nbrs, skipNone);
    WalkDone(keys, nbrs, skipNone, order, off, enq, rev0);
    rev := NumberOffProc(keys, order, off, rev0);
  }

  /** The "map off proc" loop: the off-process ids are numbered after the local ones. */
  method NumberOffProc(keys: set<int>, order: seq<int>, off: seq<int>, rev0: map<int, int>) returns (rev: map<int, int>)
    requires rev0.Keys == keys == Elems(order) && Distinct(off) && Elems(off) !! keys
    requires forall j :: 0 <= j < |order| ==> rev0[order[j]] == j
    ensures rev.Keys == keys + Elems(off)
    ensures forall j :: 0 <= j < |order| ==> rev[order[j]] == j
    ensures forall j :: 0 <= j < |off| ==> rev[off[j]] == |order| + j
  {
    rev := rev0;
    assert forall j :: 0 <= j < |order| ==> order[j] in Elems(order);
    for j := 0 to |off|
      invariant rev.Keys == keys + Elems(off[..j])
      invariant forall j' :: 0 <= j' < |order| ==> rev[order[j']] == j'
      invariant forall j' :: 0 <= j' < j ==> rev[off[j']] == |order| + j'
    {
      assert off[j] in Elems(off);
      assert Elems(off[..j + 1]) == Elems(off[..j]) + {off[j]} by {
        assert off[..j + 1] == off[..j] + [off[j]];
      }
      rev := rev[off[j] := |order| + j];
    }
    assert off[..|off|] == off;
  }

  /** The outer loop of the traversal: components are visited, each from the least local
      id not yet numbered, until every local id is numbered. */
  method NumberLocal(keys: set<int>, nbrs: map<int, seq<int>>, skipNone: bool)
    returns (order: seq<int>, off: seq<int>, enq: set<int>, rev: map<int, int>)
    requires nbrs.Keys == keys
    ensures Walk(keys, nbrs, skipNone, order, [], off, enq, {}, rev)
    ensures order != [] ==> forall k :: k in keys ==> order[0] <= k
    ensures BfsNumbering(keys, nbrs, skipNone, order, off)
  {
    order, off, rev := [], [], map[];
    var todo := keys;
    enq := {};
    ghost var steps: nat := 0;
    while todo != {}
      invariant Run(keys, nbrs, skipNone, steps) == Trav(order, Found(enq, [], off))
      invariant Walk(keys, nbrs, skipNone, order, [], off, enq, todo, rev)
      invariant order != [] ==> forall x :: x in keys ==> order[0] <= x
      decreases todo
    {
      var k := MinOf(todo);
      WalkStart(keys, nbrs, skipNone, order, off, enq, todo, rev, k);
      RunRestart(keys, nbrs, skipNone, steps, Trav(order, Found(enq, [], off)), k);
      order, off, enq, todo, rev, steps := Visit(keys, nbrs, skipNone, k, order, off, enq + {k}, todo, rev, steps + 1);
    }
    RunHalts(keys, nbrs, skipNone, steps, Trav(order, Found(enq, [], off)));
  }

  /** rev_map is a bijection from the numbered ids onto 0 .. curr_i - 1. */
  lemma RevBijection(keys: set<int>, order: seq<int>, off: seq<int>, rev: map<int, int>)
    requires Distinct(order) && Elems(order) == keys
    requires Distinct(off) && Elems(off) !! keys
    requires rev.Keys == keys + Elems(off)
    requires forall j :: 0 <= j < |order| ==> rev[order[j]] == j
    requires forall j :: 0 <= j < |off| ==> rev[off[j]] == |order| + j
    ensures forall a :: a in rev ==> 0 <= rev[a] < |order| + |off|
    ensures forall a, b :: a in rev && b in rev && a != b ==> rev[a] != rev[b]
    ensures forall v :: 0 <= v < |order| + |off| ==> v in rev.Values
  {
    forall v | 0 <= v < |order| + |off|
      ensures v in rev.Values
    {
      if v < |order| {
        assert order[v] in rev && rev[order[v]] == v;
      } else {
        assert off[v - |order|] in rev && rev[off[v - |order|]] == v;
      }
    }
  }
}
