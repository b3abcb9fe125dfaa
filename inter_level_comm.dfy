/**
 * The contract of GMG::InterLevelComm that its two-process tests pin down:
 * how the fine patches of a process are split by where their coarse parent
 * lives, how large the ghost vector is, and the start/finish protocol of the
 * two non-blocking exchanges (send adds the ghost vector's values into the
 * coarse vector of the processes that own the parents; get fills the ghost
 * vector from those coarse values).
 *
 * Vectors are compared by identity, as the source compares shared_ptr values;
 * they are modelled as `object` references.
 */
module InterLevel {
  import opened Wrappers
  import opened OrderedSets

  /** A fine patch as the pairing sees it: its id, its parent's id and the rank owning the parent. */
  datatype FinePatch = FinePatch(id: int, parentId: int, parentRank: int)

  /** An element of patches_with_local_parent or patches_with_ghost_parent: (parent id, fine patch). */
  datatype ParentPair = ParentPair(parentId: int, patch: FinePatch)

  function PairOf(p: FinePatch): ParentPair
  {
    ParentPair(p.parentId, p)
  }

  /** The pairs whose parent the process `rank` owns, in the order of the fine patches. */
  function LocalParentPairs(rank: int, patches: seq<FinePatch>): (r: seq<ParentPair>)
    ensures |r| <= |patches|
  {
    if patches == [] then []
    else
      var init := LocalParentPairs(rank, patches[..|patches| - 1]);
      var p := patches[|patches| - 1];
      if p.parentRank == rank then init + [PairOf(p)] else init
  }

  /** The pairs whose parent another process owns, in the order of the fine patches. */
  function GhostParentPairs(rank: int, patches: seq<FinePatch>): (r: seq<ParentPair>)
    ensures |r| <= |patches|
  {
    if patches == [] then []
    else
      var init := GhostParentPairs(rank, patches[..|patches| - 1]);
      var p := patches[|patches| - 1];
      if p.parentRank != rank then init + [PairOf(p)] else init
  }

  /** The distinct ghost parents in order of first appearance: the patches of the ghost vector. */
  function GhostParents(rank: int, patches: seq<FinePatch>): seq<int>
  {
    if patches == [] then []
    else
      var init := GhostParents(rank, patches[..|patches| - 1]);
      var p := patches[|patches| - 1];
      if p.parentRank != rank && p.parentId !in init then init + [p.parentId] else init
  }

  /** The parent ids owned by other processes. */
  function GhostParentIds(rank: int, patches: seq<FinePatch>): set<int>
  {
    set p | p in patches && p.parentRank != rank :: p.parentId
  }

  /** A fine patch is paired with its own parent on the local list exactly when the parent is local. */
  lemma {:induction false} LocalPairsExact(rank: int, patches: seq<FinePatch>, q: ParentPair)
    ensures q in LocalParentPairs(rank, patches) <==>
              q.patch in patches && q.parentId == q.patch.parentId && q.patch.parentRank == rank
  {
    if patches != [] {
      var init := patches[..|patches| - 1];
      LocalPairsExact(rank, init, q);
      assert patches == init + [patches[|patches| - 1]];
    }
  }

  /** A fine patch is paired with its own parent on the ghost list exactly when the parent is remote. */
  lemma {:induction false} GhostPairsExact(rank: int, patches: seq<FinePatch>, q: ParentPair)
    ensures q in GhostParentPairs(rank, patches) <==>
              q.patch in patches && q.parentId == q.patch.parentId && q.patch.parentRank != rank
  {
    if patches != [] {
      var init := patches[..|patches| - 1];
      GhostPairsExact(rank, init, q);
      assert patches == init + [patches[|patches| - 1]];
    }
  }

  /** Every fine patch is on exactly one of the two lists, and the lists hold nothing else. */
  lemma Partition(rank: int, patches: seq<FinePatch>, p: FinePatch)
    ensures p in patches <==>
              (PairOf(p) in LocalParentPairs(rank, patches)) || (PairOf(p) in GhostParentPairs(rank, patches))
    ensures !((PairOf(p) in LocalParentPairs(rank, patches)) && (PairOf(p) in GhostParentPairs(rank, patches)))
  {
    LocalPairsExact(rank, patches, PairOf(p));
    GhostPairsExact(rank, patches, PairOf(p));
  }

  /** Between them the two lists hold one entry per fine patch. */
  lemma {:induction false} PartitionSizes(rank: int, patches: seq<FinePatch>)
    ensures |LocalParentPairs(rank, patches)| + |GhostParentPairs(rank, patches)| == |patches|
  {
    if patches != [] {
      PartitionSizes(rank, patches[..|patches| - 1]);
    }
  }

  /** The ghost vector holds each remote parent once and nothing else. */
  lemma {:induction false} GhostParentsExact(rank: int, patches: seq<FinePatch>)
    ensures Distinct(GhostParents(rank, patches))
    ensures forall x :: x in GhostParents(rank, patches) <==> x in GhostParentIds(rank, patches)
    ensures |GhostParents(rank, patches)| == |GhostParentIds(rank, patches)|
  {
    if patches == [] {
      assert GhostParentIds(rank, patches) == {};
    } else {
      var init := patches[..|patches| - 1];
      var p := patches[|patches| - 1];
      GhostParentsExact(rank, init);
      assert patches == init + [p];
      var ids := GhostParentIds(rank, init);
      if p.parentRank != rank {
        assert GhostParentIds(rank, patches) == ids + {p.parentId};
        if p.parentId in GhostParents(rank, init) {
          assert ids + {p.parentId} == ids;
        }
      } else {
        assert GhostParentIds(rank, patches) == ids;
      }
      var g := GhostParents(rank, patches);
      assert forall x :: x in g <==> x in GhostParentIds(rank, patches);
      SetOfDistinct(g);
    }
  }

  /** Which exchange an outstanding start belongs to. */
  datatype Direction = Send | Get

  /** At most one exchange is in flight; it remembers the vectors its start was given. */
  datatype CommState = Idle | InFlight(dir: Direction, vec: object, ghostVec: object)

  /** The usage errors reported as InterLevelCommException. */
  datatype CommError =
    | NotStarted        // a finish with no outstanding start
    | AlreadyStarted    // a start while an exchange is outstanding
    | OtherDirection    // a finish of the exchange that was not started
    | VectorMismatch    // a finish with a vector or ghost vector other than its start's

  datatype Call = Start(dir: Direction, vec: object, ghostVec: object)
                | Finish(dir: Direction, vec: object, ghostVec: object)

  /** One call of the protocol: the new state and whether the call succeeded. Errors leave the state as it was. */
  function Step(st: CommState, c: Call): (r: (CommState, Result<(), CommError>))
    ensures r.1.Err? ==> r.0 == st
    ensures r.1.Ok? <==> (c.Start? && st.Idle?) || (c.Finish? && st == InFlight(c.dir, c.vec, c.ghostVec))
    ensures r.1.Ok? && c.Start? ==> r.0 == InFlight(c.dir, c.vec, c.ghostVec)
    ensures r.1.Ok? && c.Finish? ==> r.0 == Idle
  {
    match c
    case Start(_, _, _) =>
      if st.InFlight? then (st, Err(AlreadyStarted))
      else (InFlight(c.dir, c.vec, c.ghostVec), Ok(()))
    case Finish(_, _, _) =>
      if st.Idle? then (st, Err(NotStarted))
      else if st.dir != c.dir then (st, Err(OtherDirection))
      else if st.vec != c.vec || st.ghostVec != c.ghostVec then (st, Err(VectorMismatch))
      else (Idle, Ok(()))
  }

  /** Runs a sequence of calls from `st`; the flag says whether every call succeeded. */
  function Run(st: CommState, calls: seq<Call>): (CommState, bool)
  {
    if calls == [] then (st, true)
    else
      var (mid, ok) := Run(st, calls[..|calls| - 1]);
      var (last, r) := Step(mid, calls[|calls| - 1]);
      (last, ok && r.Ok?)
  }

  /** A call sequence from Idle succeeds exactly when it alternates starts and finishes, each finish matching the start before it. */
  predicate Alternates(calls: seq<Call>)
  {
    && (forall i :: 0 <= i < |calls| ==> (calls[i].Start? <==> i % 2 == 0))
    && (forall i :: 0 < i < |calls| && i % 2 == 1 ==>
          calls[i] == Finish(calls[i - 1].dir, calls[i - 1].vec, calls[i - 1].ghostVec))
  }

  lemma {:induction false} RunAlternates(calls: seq<Call>)
    ensures Run(Idle, calls).1 <==> Alternates(calls)
    ensures Run(Idle, calls).1 ==>
              Run(Idle, calls).0 == (if |calls| % 2 == 0 then Idle
                                     else var c := calls[|calls| - 1]; InFlight(c.dir, c.vec, c.ghostVec))
  {
    if calls != [] {
      var init := calls[..|calls| - 1];
      var c := calls[|calls| - 1];
      RunAlternates(init);
      assert forall i :: 0 <= i < |init| ==> init[i] == calls[i];
      if Alternates(calls) {
        assert Alternates(init);
      }
    }
  }

  class InterLevelComm {
    const rank: int
    const patchesWithLocalParent: seq<ParentPair>
    const patchesWithGhostParent: seq<ParentPair>
    /** The parents whose values this process receives, one per patch of a ghost vector. */
    const ghostParents: seq<int>
    var state: CommState

    /** Splits the fine patches of process `rank` by where their parent lives. */
    constructor (rank: int, finePatches: seq<FinePatch>)
      ensures this.rank == rank
      ensures patchesWithLocalParent == LocalParentPairs(rank, finePatches)
      ensures patchesWithGhostParent == GhostParentPairs(rank, finePatches)
      ensures ghostParents == GhostParents(rank, finePatches)
      ensures state == Idle
    {
      var local: seq<ParentPair> := [];
      var remote: seq<ParentPair> := [];
      var parents: seq<int> := [];
      var seen: set<int> := {};
      for i := 0 to |finePatches|
        invariant local == LocalParentPairs(rank, finePatches[..i])
        invariant remote == GhostParentPairs(rank, finePatches[..i])
        invariant parents == GhostParents(rank, finePatches[..i])
        invariant seen == Elems(parents)
      {
        var p := finePatches[i];
        ghost var pre := finePatches[..i + 1];
        assert pre[..i] == finePatches[..i] && pre[i] == p && pre != [];
        if p.parentRank == rank {
          local := local + [PairOf(p)];
        } else {
          remote := remote + [PairOf(p)];
          if p.parentId !in seen {
            parents := parents + [p.parentId];
            seen := seen + {p.parentId};
          }
        }
      }
      assert finePatches[..|finePatches|] == finePatches;
      this.rank := rank;
      patchesWithLocalParent := local;
      patchesWithGhostParent := remote;
      ghostParents := parents;
      state := Idle;
    }

    /** getNewGhostVector()->getNumLocalPatches(). */
    function NumGhostPatches(): nat
    {
      |ghostParents|
    }

    method SendGhostPatchesStart(vec: object, ghostVec: object) returns (r: Result<(), CommError>)
      modifies this
      ensures (state, r) == Step(old(state), Start(Send, vec, ghostVec))
    {
      r := Perform(Start(Send, vec, ghostVec));
    }

    method SendGhostPatchesFinish(vec: object, ghostVec: object) returns (r: Result<(), CommError>)
      modifies this
      ensures (state, r) == Step(old(state), Finish(Send, vec, ghostVec))
    {
      r := Perform(Finish(Send, vec, ghostVec));
    }

    method GetGhostPatchesStart(vec: object, ghostVec: object) returns (r: Result<(), CommError>)
      modifies this
      ensures (state, r) == Step(old(state), Start(Get, vec, ghostVec))
    {
      r := Perform(Start(Get, vec, ghostVec));
    }

    method GetGhostPatchesFinish(vec: object, ghostVec: object) returns (r: Result<(), CommError>)
      modifies this
      ensures (state, r) == Step(old(state), Finish(Get, vec, ghostVec))
    {
      r := Perform(Finish(Get, vec, ghostVec));
    }

    method Perform(c: Call) returns (r: Result<(), CommError>)
      modifies this
      ensures (state, r) == Step(old(state), c)
    {
      if c.Start? {
        if state.InFlight? {
          return Err(AlreadyStarted);
        }
        state := InFlight(c.dir, c.vec, c.ghostVec);
      } else {
        if state.Idle? {
          return Err(NotStarted);
        } else if state.dir != c.dir {
          return Err(OtherDirection);
        } else if state.vec != c.vec || state.ghostVec != c.ghostVec {
          return Err(VectorMismatch);
        }
        state := Idle;
      }
      r := Ok(());
    }
  }

  /** The fine patches of the two-process test mesh: one coarse patch 0 on rank 0, four children split two per rank. */
  function TestPatches(rank: int): seq<FinePatch>
  {
    if rank == 0 then [FinePatch(1, 0, 0), FinePatch(2, 0, 0)]
    else [FinePatch(3, 0, 0), FinePatch(4, 0, 0)]
  }

  /** Rank 0 pairs children 1 and 2 with the local parent 0; rank 1 pairs 3 and 4 with the ghost parent 0. */
  lemma TwoRankPairing()
    ensures LocalParentPairs(0, TestPatches(0)) == [PairOf(FinePatch(1, 0, 0)), PairOf(FinePatch(2, 0, 0))]
    ensures GhostParentPairs(0, TestPatches(0)) == []
    ensures LocalParentPairs(1, TestPatches(1)) == []
    ensures GhostParentPairs(1, TestPatches(1)) == [PairOf(FinePatch(3, 0, 0)), PairOf(FinePatch(4, 0, 0))]
    ensures |GhostParents(0, TestPatches(0))| == 0
    ensures |GhostParents(1, TestPatches(1))| == 1
  {
    var p0 := TestPatches(0);
    var p1 := TestPatches(1);
    assert p0[..1] == [p0[0]] && p1[..1] == [p1[0]];
    assert [p0[0]][..0] == [] && [p1[0]][..0] == [];
  }
}
