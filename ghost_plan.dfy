/**
 * The construction of MPIGhostFiller<D> (MPIGhostFiller.h): the plan of the ghost-cell
 * exchange. Every neighbour slot of every local patch becomes either a local call (the
 * neighbour lives on this rank) or a remote call plus an incoming ghost entry; remote
 * ranks get dense buffer indices; and each remote call and incoming entry gets its slot
 * in the send or receive buffer of its rank.
 *
 * Sides of a D-dimensional patch are numbered 0..2D-1; side s lies on axis s / 2, on the
 * lower end when s is even.
 */
module GhostPlan {
  import opened Wrappers
  import opened IntMath
  import opened OrderedSets
  import VectorLayout

  function Axis(s: nat): nat
  {
    s / 2
  }

  predicate IsLower(s: nat)
  {
    s % 2 == 0
  }

  function Opposite(s: nat): nat
  {
    if s % 2 == 0 then s + 1 else s - 1
  }

  /** Orthant<D>::getValuesOnSide(s)[i]: the i-th (in increasing order) of the orthants whose
      bit for the side's axis says "upper" exactly when s is an upper side. The orthant's
      bits are i's bits with that bit inserted at position Axis(s). */
  function OrthantOnSide(s: nat, i: nat): int
  {
    var a := Axis(s);
    (i / Pow2(a)) * Pow2(a + 1) + (if IsLower(s) then 0 else Pow2(a)) + i % Pow2(a)
  }

  /** Orthant<D>::null(). */
  const NullOrthant: int := -1

  datatype NbrType = Normal | Coarse | Fine

  /** NbrType's enumerator order, which std::tuple's comparison uses. */
  function TypeOrder(t: NbrType): int
  {
    match t
    case Normal => 0
    case Coarse => 1
    case Fine => 2
  }

  /** The neighbour information of one side of a patch. */
  datatype NbrInfo =
    | NormalNbr(rank: int, id: int, localIndex: int)
    | FineNbr(ranks: seq<int>, ids: seq<int>, localIndexes: seq<int>)
    | CoarseNbr(rank: int, id: int, localIndex: int, orthOnCoarse: nat)

  /** A local patch: its global id, its local index, and its neighbours by side. */
  datatype PatchInfo = PatchInfo(id: int, localIndex: int, nbrs: map<nat, NbrInfo>)

  /** What the constructor relies on: sides are sides of a D-dimensional patch, a fine
      neighbour lists one child per orthant of the side, and a coarse neighbour names an
      orthant of its side. */
  predicate ValidPatches(d: nat, patches: seq<PatchInfo>)
  {
    && d >= 1
    && forall p :: 0 <= p < |patches| ==> ValidPatch(d, patches[p])
  }

  predicate ValidPatch(d: nat, pi: PatchInfo)
  {
    d >= 1 && forall s :: s in pi.nbrs ==> ValidNbr(d, s, pi.nbrs[s])
  }

  predicate ValidNbr(d: nat, s: nat, info: NbrInfo)
  {
    && s < 2 * d
    && (info.FineNbr? ==> |info.ranks| == Pow2(d - 1) && |info.ids| == Pow2(d - 1) && |info.localIndexes| == Pow2(d - 1))
    && (info.CoarseNbr? ==> info.orthOnCoarse < Pow2(d - 1))
  }

  // ---------------------------------------------------------------------------
  // Neighbour slots and how they are classified

  /** One neighbour slot: patch `patch` (position in the patch vector, with global id `id`
      and local index `localIndex`) has on side `side` the neighbour `nbrId` of type
      `nbrType` on rank `rank`, covering orthant `orthant`. */
  datatype Slot = Slot(patch: nat, id: int, localIndex: int, side: nat, nbrType: NbrType,
                       orthant: int, rank: int, nbrId: int, nbrLocalIndex: int)

  /** The number of neighbour slots on side s of patch pi: one per orthant of the side for
      a fine neighbour, one for a normal or coarse neighbour, none without a neighbour. */
  function SideCount(d: nat, pi: PatchInfo, s: nat): nat
    requires d >= 1
  {
    if s !in pi.nbrs then 0
    else if pi.nbrs[s].FineNbr? then Pow2(d - 1)
    else 1
  }

  /** The i-th slot of side s of patch pi (at position p), in the order the constructor
      visits them. A coarse neighbour covers the orthant orthOnCoarse of its own side, the
      one opposite s. */
  function SlotAt(d: nat, pi: PatchInfo, p: nat, s: nat, i: nat): Slot
    requires ValidPatch(d, pi) && i < SideCount(d, pi, s)
  {
    var info := pi.nbrs[s];
    assert ValidNbr(d, s, info);
    match info
    case NormalNbr(r, id, li) => Slot(p, pi.id, pi.localIndex, s, Normal, NullOrthant, r, id, li)
    case FineNbr(rs, ids, lis) => Slot(p, pi.id, pi.localIndex, s, Fine, OrthantOnSide(s, i), rs[i], ids[i], lis[i])
    case CoarseNbr(r, id, li, o) => Slot(p, pi.id, pi.localIndex, s, Coarse, OrthantOnSide(Opposite(s), o), r, id, li)
  }

  datatype LocalCall = LocalCall(patch: nat, side: nat, nbrType: NbrType, orthant: int,
                                 localIndex: int, nbrLocalIndex: int)

  /** An element of remote_call_set; `nbrSide` is the neighbour's side facing the patch. */
  datatype RemoteKey = RemoteKey(rank: int, nbrId: int, nbrSide: nat, orthant: int,
                                 nbrType: NbrType, patch: nat, localIndex: int)

  /** An element of incoming_ghost_set. */
  datatype IncomingKey = IncomingKey(rank: int, id: int, side: nat, localIndex: int)

  function LocalCallOf(x: Slot): LocalCall
  {
    LocalCall(x.patch, x.side, x.nbrType, x.orthant, x.localIndex, x.nbrLocalIndex)
  }

  function RemoteKeyOf(x: Slot): RemoteKey
  {
    RemoteKey(x.rank, x.nbrId, Opposite(x.side), x.orthant, x.nbrType, x.patch, x.localIndex)
  }

  function IncomingKeyOf(x: Slot): IncomingKey
  {
    IncomingKey(x.rank, x.id, x.side, x.localIndex)
  }

  /** The tuple order of remote_call_set. The source compares the PatchInfo shared_ptr addresses; the
      model compares the patches' positions instead. */
  function RemoteOrder(k: RemoteKey): seq<int>
  {
    [k.rank, k.nbrId, k.nbrSide, k.orthant, TypeOrder(k.nbrType), k.patch, k.localIndex]
  }

  function IncomingOrder(k: IncomingKey): seq<int>
  {
    [k.rank, k.id, k.side, k.localIndex]
  }

  function RankOrder(r: int): seq<int>
  {
    [r]
  }

  /** What the constructor records for a run of slots: the local calls in order, and the
      slots whose neighbour lives on another rank. */
  datatype Effects = Effects(locals: seq<LocalCall>, remoteSlots: set<Slot>)

  const NoEffects := Effects([], {})

  function Combine(e1: Effects, e2: Effects): Effects
  {
    Effects(e1.locals + e2.locals, e1.remoteSlots + e2.remoteSlots)
  }

  /** One slot is either a local call or a remote slot. */
  function SlotEffects(x: Slot, rank: int): Effects
  {
    if x.rank == rank then Effects([LocalCallOf(x)], {}) else Effects([], {x})
  }

  /** The ranks, remote calls and incoming ghosts a set of remote slots gives rise to. */
  function RanksOf(R: set<Slot>): set<int>
  {
    set x | x in R :: x.rank
  }

  function RemoteKeys(R: set<Slot>): set<RemoteKey>
  {
    set x | x in R :: RemoteKeyOf(x)
  }

  function IncomingKeys(R: set<Slot>): set<IncomingKey>
  {
    set x | x in R :: IncomingKeyOf(x)
  }

  lemma CombineLaws(a: Effects, b: Effects, c: Effects)
    ensures Combine(Combine(a, b), c) == Combine(a, Combine(b, c))
    ensures Combine(NoEffects, a) == a && Combine(a, NoEffects) == a
  {
    assert (a.locals + b.locals) + c.locals == a.locals + (b.locals + c.locals);
    assert [] + a.locals == a.locals && a.locals + [] == a.locals;
  }

  /** The effects of the first k slots of side s of patch pi. */
  function SideEffects(d: nat, pi: PatchInfo, p: nat, s: nat, k: nat, rank: int): Effects
    requires ValidPatch(d, pi) && k <= SideCount(d, pi, s)
  {
    if k == 0 then NoEffects
    else Combine(SideEffects(d, pi, p, s, k - 1, rank), SlotEffects(SlotAt(d, pi, p, s, k - 1), rank))
  }

  /** The effects of sides 0..k-1 of patch pi. */
  function PatchEffects(d: nat, pi: PatchInfo, p: nat, k: nat, rank: int): Effects
    requires ValidPatch(d, pi)
  {
    if k == 0 then NoEffects
    else Combine(PatchEffects(d, pi, p, k - 1, rank), SideEffects(d, pi, p, k - 1, SideCount(d, pi, k - 1), rank))
  }

  /** The effects of all sides of patches 0..m-1: what the constructor's loops record. */
  function AllEffects(d: nat, patches: seq<PatchInfo>, m: nat, rank: int): Effects
    requires ValidPatches(d, patches) && m <= |patches|
  {
    if m == 0 then NoEffects
    else Combine(AllEffects(d, patches, m - 1, rank), PatchEffects(d, patches[m - 1], m - 1, 2 * d, rank))
  }

  /** The containers of the constructor. */
  datatype Plan = Plan(locals: seq<LocalCall>, ranks: seq<int>, remote: seq<RemoteKey>, incoming: seq<IncomingKey>)

  /** The containers hold, in their order, what e says. */
  ghost predicate Reflects(plan: Plan, e: Effects)
  {
    && plan.locals == e.locals
    && Holds(plan.ranks, RankOrder, RanksOf(e.remoteSlots))
    && Holds(plan.remote, RemoteOrder, RemoteKeys(e.remoteSlots))
    && Holds(plan.incoming, IncomingOrder, IncomingKeys(e.remoteSlots))
  }

  lemma OrdersInjective()
    ensures forall a, b :: RemoteOrder(a) == RemoteOrder(b) ==> a == b
    ensures forall a, b :: IncomingOrder(a) == IncomingOrder(b) ==> a == b
    ensures forall a, b :: RankOrder(a) == RankOrder(b) ==> a == b
  {
    forall a, b | RemoteOrder(a) == RemoteOrder(b)
      ensures a == b
    {
      assert RemoteOrder(a)[4] == RemoteOrder(b)[4];
      assert forall i :: 0 <= i < 7 ==> RemoteOrder(a)[i] == RemoteOrder(b)[i];
    }
    forall a, b | IncomingOrder(a) == IncomingOrder(b)
      ensures a == b
    {
      assert forall i :: 0 <= i < 4 ==> IncomingOrder(a)[i] == IncomingOrder(b)[i];
    }
    forall a, b | RankOrder(a) == RankOrder(b)
      ensures a == b
    {
      assert RankOrder(a)[0] == RankOrder(b)[0];
    }
  }

  lemma ImagesAdd(R: set<Slot>, x: Slot)
    ensures RanksOf(R + {x}) == RanksOf(R) + {x.rank}
    ensures RemoteKeys(R + {x}) == RemoteKeys(R) + {RemoteKeyOf(x)}
    ensures IncomingKeys(R + {x}) == IncomingKeys(R) + {IncomingKeyOf(x)}
  {
  }

  /** The body the constructor runs for each neighbour slot: a local call when the
      neighbour is on this rank, otherwise its rank, a remote call and an incoming ghost. */
  method ClassifySlot(rank: int, plan: Plan, x: Slot, ghost e: Effects) returns (next: Plan)
    requires Reflects(plan, e)
    ensures Reflects(next, Combine(e, SlotEffects(x, rank)))
  {
    if x.rank == rank {
      next := plan.(locals := plan.locals + [LocalCallOf(x)]);
    } else {
      OrdersInjective();
      ImagesAdd(e.remoteSlots, x);
      var ranks := InsertElem(plan.ranks, x.rank, RankOrder, RanksOf(e.remoteSlots));
      var remote := InsertElem(plan.remote, RemoteKeyOf(x), RemoteOrder, RemoteKeys(e.remoteSlots));
      var incoming := InsertElem(plan.incoming, IncomingKeyOf(x), IncomingOrder, IncomingKeys(e.remoteSlots));
      next := Plan(plan.locals, ranks, remote, incoming);
    }
  }

  lemma SideStep(e: Effects, d: nat, pi: PatchInfo, p: nat, s: nat, i: nat, rank: int)
    requires ValidPatch(d, pi) && i < SideCount(d, pi, s)
    ensures Combine(e, SideEffects(d, pi, p, s, i + 1, rank))
      == Combine(Combine(e, SideEffects(d, pi, p, s, i, rank)), SlotEffects(SlotAt(d, pi, p, s, i), rank))
    ensures i == 0 ==> Combine(e, SideEffects(d, pi, p, s, i + 1, rank)) == Combine(e, SlotEffects(SlotAt(d, pi, p, s, i), rank))
  {
    CombineLaws(e, SideEffects(d, pi, p, s, i, rank), SlotEffects(SlotAt(d, pi, p, s, i), rank));
    CombineLaws(SlotEffects(SlotAt(d, pi, p, s, i), rank), e, e);
  }

  /** The switch on the neighbour type of side s of patch pi (at position p). */
  method ClassifySide(rank: int, d: nat, pi: PatchInfo, p: nat, s: nat, plan: Plan, ghost e: Effects)
    returns (next: Plan)
    requires ValidPatch(d, pi) && s in pi.nbrs
    requires Reflects(plan, e)
    ensures Reflects(next, Combine(e, SideEffects(d, pi, p, s, SideCount(d, pi, s), rank)))
  {
    var info := pi.nbrs[s];
    assert ValidNbr(d, s, info);
    if info.NormalNbr? {
      var x := Slot(p, pi.id, pi.localIndex, s, Normal, NullOrthant, info.rank, info.id, info.localIndex);
      assert SlotAt(d, pi, p, s, 0) == x;
      SideStep(e, d, pi, p, s, 0, rank);
      next := ClassifySlot(rank, plan, x, e);
    } else if info.FineNbr? {
      var n := Pow2(d - 1);
      next := plan;
      CombineLaws(e, e, e);
      var i := 0;
      while i < n
        invariant 0 <= i <= n
        invariant Reflects(next, Combine(e, SideEffects(d, pi, p, s, i, rank)))
      {
        var x := Slot(p, pi.id, pi.localIndex, s, Fine, OrthantOnSide(s, i), info.ranks[i], info.ids[i], info.localIndexes[i]);
        assert SlotAt(d, pi, p, s, i) == x;
        SideStep(e, d, pi, p, s, i, rank);
        next := ClassifySlot(rank, next, x, Combine(e, SideEffects(d, pi, p, s, i, rank)));
        i := i + 1;
      }
    } else {
      var orthant := OrthantOnSide(Opposite(s), info.orthOnCoarse);
      var x := Slot(p, pi.id, pi.localIndex, s, Coarse, orthant, info.rank, info.id, info.localIndex);
      assert SlotAt(d, pi, p, s, 0) == x;
      SideStep(e, d, pi, p, s, 0, rank);
      next := ClassifySlot(rank, plan, x, e);
    }
  }

  lemma PatchStep(e: Effects, d: nat, pi: PatchInfo, p: nat, s: nat, rank: int)
    requires ValidPatch(d, pi)
    ensures s in pi.nbrs ==> (Combine(e, PatchEffects(d, pi, p, s + 1, rank))
      == Combine(Combine(e, PatchEffects(d, pi, p, s, rank)), SideEffects(d, pi, p, s, SideCount(d, pi, s), rank)))
    ensures s !in pi.nbrs ==> Combine(e, PatchEffects(d, pi, p, s + 1, rank)) == Combine(e, PatchEffects(d, pi, p, s, rank))
  {
    CombineLaws(e, PatchEffects(d, pi, p, s, rank), SideEffects(d, pi, p, s, SideCount(d, pi, s), rank));
    CombineLaws(PatchEffects(d, pi, p, s, rank), NoEffects, NoEffects);
  }

  /** The loop over the sides of patch pi (at position p). */
  method ClassifyPatch(rank: int, d: nat, pi: PatchInfo, p: nat, plan: Plan, ghost e: Effects)
    returns (next: Plan)
    requires ValidPatch(d, pi)
    requires Reflects(plan, e)
    ensures Reflects(next, Combine(e, PatchEffects(d, pi, p, 2 * d, rank)))
  {
    next := plan;
    CombineLaws(e, NoEffects, NoEffects);
    var s := 0;
    while s < 2 * d
      invariant 0 <= s <= 2 * d
      invariant Reflects(next, Combine(e, PatchEffects(d, pi, p, s, rank)))
    {
      PatchStep(e, d, pi, p, s, rank);
      if s in pi.nbrs {
        next := ClassifySide(rank, d, pi, p, s, next, Combine(e, PatchEffects(d, pi, p, s, rank)));
      }
      s := s + 1;
    }
  }

  /** The classification loops of the constructor, over the patches and their sides. */
  method Classify(rank: int, d: nat, patches: seq<PatchInfo>) returns (plan: Plan)
    requires ValidPatches(d, patches)
    ensures Reflects(plan, AllEffects(d, patches, |patches|, rank))
  {
    plan := Plan([], [], [], []);
    assert Elems<int>([]) == {} && Elems<RemoteKey>([]) == {} && Elems<IncomingKey>([]) == {};
    var p := 0;
    while p < |patches|
      invariant 0 <= p <= |patches|
      invariant Reflects(plan, AllEffects(d, patches, p, rank))
    {
      plan := ClassifyPatch(rank, d, patches[p], p, plan, AllEffects(d, patches, p, rank));
      p := p + 1;
    }
  }

  // ---------------------------------------------------------------------------
  // What the classification records, slot by slot

  /** The first k slots of side s of patch pi. */
  ghost function SideSet(d: nat, pi: PatchInfo, p: nat, s: nat, k: nat): set<Slot>
    requires ValidPatch(d, pi) && k <= SideCount(d, pi, s)
  {
    set i | 0 <= i < k :: SlotAt(d, pi, p, s, i)
  }

  /** The slots of sides 0..k-1 of patch pi. */
  ghost function PatchSet(d: nat, pi: PatchInfo, p: nat, k: nat): set<Slot>
    requires ValidPatch(d, pi)
  {
    if k == 0 then {} else PatchSet(d, pi, p, k - 1) + SideSet(d, pi, p, k - 1, SideCount(d, pi, k - 1))
  }

  /** Every neighbour slot of patches 0..m-1. */
  ghost function AllSlots(d: nat, patches: seq<PatchInfo>, m: nat): set<Slot>
    requires ValidPatches(d, patches) && m <= |patches|
  {
    if m == 0 then {} else AllSlots(d, patches, m - 1) + PatchSet(d, patches[m - 1], m - 1, 2 * d)
  }

  /** e records a local call for each slot of S whose neighbour is on this rank, and each
      other slot of S as a remote slot, and nothing else. */
  ghost predicate Describes(e: Effects, S: set<Slot>, rank: int)
  {
    && Elems(e.locals) == (set x | x in S && x.rank == rank :: LocalCallOf(x))
    && e.remoteSlots == (set x | x in S && x.rank != rank)
  }

  lemma DescribesSlot(e: Effects, S: set<Slot>, x: Slot, e': Effects, S': set<Slot>, rank: int)
    requires Describes(e, S, rank) && e' == Combine(e, SlotEffects(x, rank)) && S' == S + {x}
    ensures Describes(e', S', rank)
  {
    assert Elems(e'.locals) == Elems(e.locals) + Elems(SlotEffects(x, rank).locals);
  }

  lemma DescribesUnion(e1: Effects, S1: set<Slot>, e2: Effects, S2: set<Slot>, e: Effects, S: set<Slot>, rank: int)
    requires Describes(e1, S1, rank) && Describes(e2, S2, rank) && e == Combine(e1, e2) && S == S1 + S2
    ensures Describes(e, S, rank)
  {
    assert Elems(e.locals) == Elems(e1.locals) + Elems(e2.locals);
  }

  lemma SideSetStep(d: nat, pi: PatchInfo, p: nat, s: nat, k: nat)
    requires ValidPatch(d, pi) && 0 < k <= SideCount(d, pi, s)
    ensures SideSet(d, pi, p, s, k) == SideSet(d, pi, p, s, k - 1) + {SlotAt(d, pi, p, s, k - 1)}
  {
  }

  lemma {:induction false} SideDescribed(d: nat, pi: PatchInfo, p: nat, s: nat, k: nat, rank: int)
    requires ValidPatch(d, pi) && k <= SideCount(d, pi, s)
    ensures Describes(SideEffects(d, pi, p, s, k, rank), SideSet(d, pi, p, s, k), rank)
  {
    if k > 0 {
      SideDescribed(d, pi, p, s, k - 1, rank);
      var x := SlotAt(d, pi, p, s, k - 1);
      SideSetStep(d, pi, p, s, k);
      DescribesSlot(SideEffects(d, pi, p, s, k - 1, rank), SideSet(d, pi, p, s, k - 1), x,
                    SideEffects(d, pi, p, s, k, rank), SideSet(d, pi, p, s, k), rank);
    }
  }

  lemma {:induction false} PatchDescribed(d: nat, pi: PatchInfo, p: nat, k: nat, rank: int)
    requires ValidPatch(d, pi)
    ensures Describes(PatchEffects(d, pi, p, k, rank), PatchSet(d, pi, p, k), rank)
  {
    if k > 0 {
      PatchDescribed(d, pi, p, k - 1, rank);
      SideDescribed(d, pi, p, k - 1, SideCount(d, pi, k - 1), rank);
      DescribesUnion(PatchEffects(d, pi, p, k - 1, rank), PatchSet(d, pi, p, k - 1),
                     SideEffects(d, pi, p, k - 1, SideCount(d, pi, k - 1), rank), SideSet(d, pi, p, k - 1, SideCount(d, pi, k - 1)),
                     PatchEffects(d, pi, p, k, rank), PatchSet(d, pi, p, k), rank);
    }
  }

  lemma {:induction false} AllDescribed(d: nat, patches: seq<PatchInfo>, m: nat, rank: int)
    requires ValidPatches(d, patches) && m <= |patches|
    ensures Describes(AllEffects(d, patches, m, rank), AllSlots(d, patches, m), rank)
  {
    if m > 0 {
      AllDescribed(d, patches, m - 1, rank);
      PatchDescribed(d, patches[m - 1], m - 1, 2 * d, rank);
      DescribesUnion(AllEffects(d, patches, m - 1, rank), AllSlots(d, patches, m - 1),
                     PatchEffects(d, patches[m - 1], m - 1, 2 * d, rank), PatchSet(d, patches[m - 1], m - 1, 2 * d),
                     AllEffects(d, patches, m, rank), AllSlots(d, patches, m), rank);
    }
  }

  // ---------------------------------------------------------------------------
  // Fine sides: one slot per orthant, one incoming ghost per side and rank

  lemma {:induction false} Pow2Add(x: nat, y: nat)
    ensures Pow2(x + y) == Pow2(x) * Pow2(y)
  {
    if y > 0 {
      Pow2Add(x, y - 1);
    }
  }

  /** The orthant is i with the side's bit b inserted at position a. */
  lemma OrthantDigits(s: nat, i: nat)
    ensures var A := Pow2(Axis(s));
      OrthantOnSide(s, i) == (2 * (i / A) + (if IsLower(s) then 0 else 1)) * A + i % A
  {
    assert Pow2(Axis(s) + 1) == 2 * Pow2(Axis(s));
  }

  lemma InsertedDigit(q: int, b: int, r: int, A: int, M: int)
    requires 0 <= r < A && 0 <= b <= 1 && 0 <= q < M
    ensures 0 <= (2 * q + b) * A + r < 2 * M * A
    ensures ((2 * q + b) * A + r) / A == 2 * q + b
    ensures (((2 * q + b) * A + r) / A) % 2 == b
  {
    var o := (2 * q + b) * A + r;
    DivUnique(r, 2 * q + b, o % A, o / A, A);
    MulMono(2 * q + b + 1, 2 * M, A);
  }

  lemma Pow2Split(d: nat, a: nat)
    requires a < d
    ensures Pow2(d - 1) == Pow2(d - 1 - a) * Pow2(a)
    ensures Pow2(d) == 2 * Pow2(d - 1 - a) * Pow2(a)
  {
    Pow2Add(a, d - 1 - a);
    assert Pow2(d) == 2 * Pow2(d - 1);
  }

  /** The orthants of a side are orthants of the patch and lie on that side: their bit for
      the side's axis says upper exactly on an upper side. */
  lemma OrthantOnSideSpec(d: nat, s: nat, i: nat)
    requires s < 2 * d && i < Pow2(d - 1)
    ensures 0 <= OrthantOnSide(s, i) < Pow2(d)
    ensures (OrthantOnSide(s, i) / Pow2(Axis(s))) % 2 == (if IsLower(s) then 0 else 1)
  {
    var a := Axis(s);
    var A, M := Pow2(a), Pow2(d - 1 - a);
    Pow2Split(d, a);
    OrthantDigits(s, i);
    InsertedBit(i, A, M, if IsLower(s) then 0 else 1, OrthantOnSide(s, i));
  }

  /** Inserting bit b above the low digit of i (base A) keeps it below twice the bound and
      puts b in the next digit. */
  lemma InsertedBit(i: int, A: int, M: int, b: int, o: int)
    requires A >= 1 && 0 <= i < M * A && 0 <= b <= 1
    requires o == (2 * (i / A) + b) * A + i % A
    ensures 0 <= o < 2 * M * A && (o / A) % 2 == b
  {
    QuotientBound(i, A, M);
    InsertedDigit(i / A, b, i % A, A, M);
  }

  /** Distinct positions on a side name distinct orthants. */
  lemma OrthantOnSideInjective(s: nat, i: nat, j: nat)
    requires OrthantOnSide(s, i) == OrthantOnSide(s, j)
    ensures i == j
  {
    var A := Pow2(Axis(s));
    var b := if IsLower(s) then 0 else 1;
    OrthantDigits(s, i);
    OrthantDigits(s, j);
    DivUnique(i % A, 2 * (i / A) + b, j % A, 2 * (j / A) + b, A);
  }

  /** A fine side whose children all live on one other rank r: every child gets a remote
      call of its own, but they share one incoming ghost, so the side's ghost cells are
      received once and hold the sum of what the children send. */
  lemma FineSideOnOneRank(d: nat, pi: PatchInfo, p: nat, s: nat, rank: int, r: int, i: nat, j: nat)
    requires ValidPatch(d, pi) && s in pi.nbrs && pi.nbrs[s].FineNbr?
    requires r != rank && forall k :: 0 <= k < |pi.nbrs[s].ranks| ==> pi.nbrs[s].ranks[k] == r
    requires i < j < SideCount(d, pi, s)
    ensures SlotAt(d, pi, p, s, i).rank != rank && SlotAt(d, pi, p, s, j).rank != rank
    ensures RemoteKeyOf(SlotAt(d, pi, p, s, i)) != RemoteKeyOf(SlotAt(d, pi, p, s, j))
    ensures IncomingKeyOf(SlotAt(d, pi, p, s, i)) == IncomingKeyOf(SlotAt(d, pi, p, s, j))
  {
    assert ValidNbr(d, s, pi.nbrs[s]);
    if OrthantOnSide(s, i) == OrthantOnSide(s, j) {
      OrthantOnSideInjective(s, i, j);
    }
  }

  // ---------------------------------------------------------------------------
  // Ghost lengths and the rank maps

  lemma {:induction false} ProdAppend(a: seq<int>, b: seq<int>)
    ensures VectorLayout.Prod(a + b) == VectorLayout.Prod(a) * VectorLayout.Prod(b)
    decreases |b|
  {
    if b != [] {
      assert (a + b)[..|a + b| - 1] == a + b[..|b| - 1];
      ProdAppend(a, b[..|b| - 1]);
    } else {
      assert a + b == a;
    }
  }

  lemma ProdStep(t: seq<int>, i: nat)
    requires i < |t|
    ensures VectorLayout.Prod(t[..i + 1]) == VectorLayout.Prod(t[..i]) * t[i]
  {
    assert t[..i + 1][..i] == t[..i];
  }

  lemma GhostLengthStep(ns: seq<int>, g: int, axis: nat, i: nat, length: int)
    requires axis < |ns| && i < |ns| && length == VectorLayout.Prod(ns[axis := g][..i])
    ensures length * (if i == axis then g else ns[i]) == VectorLayout.Prod(ns[axis := g][..i + 1])
  {
    var t := ns[axis := g];
    ProdStep(t, i);
    var f := if i == axis then g else ns[i];
    assert f == t[i];
  }

  /** The inner loop of axis_ghost_lengths: the product of the extents with the one of
      the given axis replaced by g. */
  method GhostLength(ns: seq<int>, g: int, axis: nat) returns (length: int)
    requires axis < |ns|
    ensures length == VectorLayout.Prod(ns[axis := g])
  {
    length := 1;
    var i := 0;
    assert ns[axis := g][..0] == [];
    while i < |ns|
      invariant 0 <= i <= |ns|
      invariant length == VectorLayout.Prod(ns[axis := g][..i])
    {
      GhostLengthStep(ns, g, axis, i, length);
      length := length * (if i == axis then g else ns[i]);
      i := i + 1;
    }
    assert ns[axis := g][..|ns|] == ns[axis := g];
  }

  /** The axis_ghost_lengths loop: for each axis, the number of cells in g layers of
      ghosts on a side normal to that axis. */
  method AxisGhostLengths(ns: seq<int>, g: int) returns (lens: seq<int>)
    ensures |lens| == |ns|
    ensures forall a :: 0 <= a < |ns| ==> lens[a] == VectorLayout.Prod(ns[a := g])
  {
    lens := [];
    var axis := 0;
    while axis < |ns|
      invariant 0 <= axis <= |ns| && |lens| == axis
      invariant forall a :: 0 <= a < axis ==> lens[a] == VectorLayout.Prod(ns[a := g])
    {
      var length := GhostLength(ns, g, axis);
      lens := lens + [length];
      axis := axis + 1;
    }
  }

  /** The ghost length of an axis is g times the extents of the other axes. */
  lemma GhostLengthFactors(ns: seq<int>, a: nat, g: int)
    requires a < |ns|
    ensures VectorLayout.Prod(ns[a := g]) == VectorLayout.Prod(ns[..a]) * g * VectorLayout.Prod(ns[a + 1..])
  {
    var t := ns[a := g];
    assert t == ns[..a] + [g] + ns[a + 1..];
    ProdAppend(ns[..a] + [g], ns[a + 1..]);
    ProdAppend(ns[..a], [g]);
    assert VectorLayout.Prod([g]) == g by {
      assert [g][..0] == [];
    }
  }

  lemma SortedRanksIncrease(ranks: seq<int>, i: int, j: int)
    requires Sorted(ranks, RankOrder) && 0 <= i < j < |ranks|
    ensures ranks[i] < ranks[j]
  {
    var a, b := RankOrder(ranks[i]), RankOrder(ranks[j]);
    assert Less(a, b);
    assert a[1..] == [] && b[1..] == [];
    assert !Less(a[1..], b[1..]);
  }

  /** The rank_index_map loop: the ranks, in increasing order, are given the buffer indices
      0, 1, ...; index_rank_map is the inverse. */
  method RankMaps(ranks: seq<int>) returns (rankIndex: map<int, nat>, indexRank: seq<int>)
    requires Sorted(ranks, RankOrder)
    ensures indexRank == ranks
    ensures rankIndex.Keys == Elems(ranks)
    ensures forall r :: r in rankIndex ==> rankIndex[r] < |indexRank| && indexRank[rankIndex[r]] == r
    ensures forall r1, r2 :: r1 in rankIndex && r2 in rankIndex ==> (r1 < r2 <==> rankIndex[r1] < rankIndex[r2])
  {
    rankIndex := map[];
    indexRank := [];
    var i := 0;
    while i < |ranks|
      invariant 0 <= i <= |ranks| && indexRank == ranks[..i]
      invariant rankIndex.Keys == Elems(ranks[..i])
      invariant forall j :: 0 <= j < i ==> rankIndex[ranks[j]] == j
    {
      forall j | 0 <= j < i
        ensures ranks[j] != ranks[i]
      {
        SortedRanksIncrease(ranks, j, i);
      }
      rankIndex := rankIndex[ranks[i] := i];
      indexRank := indexRank + [ranks[i]];
      assert ranks[..i + 1] == ranks[..i] + [ranks[i]];
      i := i + 1;
    }
    assert ranks[..|ranks|] == ranks;
    forall r1, r2 | r1 in rankIndex && r2 in rankIndex
      ensures r1 < r2 <==> rankIndex[r1] < rankIndex[r2]
    {
      var i1, i2 := rankIndex[r1], rankIndex[r2];
      if i1 < i2 {
        SortedRanksIncrease(ranks, i1, i2);
      } else if i2 < i1 {
        SortedRanksIncrease(ranks, i2, i1);
      }
    }
  }

  // ---------------------------------------------------------------------------
  // Buffer layout

  /** A slot [offset, offset + length) of a buffer. */
  datatype Span = Span(offset: int, length: int)

  function End(sp: Span): int
  {
    sp.offset + sp.length
  }

  /** The slots of a buffer, in order, tile [0, total): the first starts at 0, each later
      one starts where the one before ends or (when reuse is allowed) repeats it, and the
      last ends at total. */
  predicate Tiles(sp: seq<Span>, total: int, reuse: bool)
  {
    && (sp == [] ==> total == 0)
    && (sp != [] ==> sp[0].offset == 0 && End(sp[|sp| - 1]) == total)
    && forall j :: 0 < j < |sp| ==> sp[j].offset == End(sp[j - 1]) || (reuse && sp[j] == sp[j - 1])
  }

  predicate NonNegative(sp: seq<Span>)
  {
    forall j :: 0 <= j < |sp| ==> sp[j].length >= 0
  }

  lemma {:induction false} TilesMonotone(sp: seq<Span>, total: int, reuse: bool, i: nat, j: nat)
    requires Tiles(sp, total, reuse) && NonNegative(sp) && i <= j < |sp|
    ensures 0 <= sp[i].offset <= sp[j].offset && End(sp[i]) <= End(sp[j])
    decreases j
  {
    if j > 0 {
      if i < j {
        TilesMonotone(sp, total, reuse, i, j - 1);
      } else {
        TilesMonotone(sp, total, reuse, 0, j - 1);
      }
    }
  }

  /** Every slot lies inside the buffer. */
  lemma TilesBounds(sp: seq<Span>, total: int, reuse: bool, j: nat)
    requires Tiles(sp, total, reuse) && NonNegative(sp) && j < |sp|
    ensures 0 <= sp[j].offset && End(sp[j]) <= total
  {
    TilesMonotone(sp, total, reuse, j, |sp| - 1);
  }

  /** Two slots of a buffer are the same slot or do not overlap. */
  lemma {:induction false} TilesDisjoint(sp: seq<Span>, total: int, reuse: bool, i: nat, j: nat)
    requires Tiles(sp, total, reuse) && NonNegative(sp) && i < j < |sp|
    ensures sp[i] == sp[j] || End(sp[i]) <= sp[j].offset
    decreases j
  {
    if sp[j].offset == End(sp[j - 1]) {
      TilesMonotone(sp, total, reuse, i, j - 1);
    } else if i < j - 1 {
      TilesDisjoint(sp, total, reuse, i, j - 1);
    }
  }

  function SumLengths(sp: seq<Span>): int
  {
    if sp == [] then 0 else SumLengths(sp[..|sp| - 1]) + sp[|sp| - 1].length
  }

  /** Without reuse, the buffer is exactly as long as its slots together. */
  lemma {:induction false} TilesSum(sp: seq<Span>, total: int)
    requires Tiles(sp, total, false)
    ensures total == SumLengths(sp)
    decreases |sp|
  {
    if |sp| > 1 {
      var init := sp[..|sp| - 1];
      assert forall j :: 0 <= j < |init| ==> init[j] == sp[j];
      TilesSum(init, End(sp[|sp| - 2]));
    } else if |sp| == 1 {
      assert sp[..0] == [];
    }
  }

  // ---------------------------------------------------------------------------
  // The send buffers: remote calls and out_buff_lengths

  /** An element of remote_calls[b]: the patch, its side facing the neighbour, the
      neighbour type, the orthant, the patch's local index and the offset of its slot. */
  datatype RemoteCall = RemoteCall(patch: nat, side: nat, nbrType: NbrType, orthant: int,
                                   localIndex: int, offset: int)

  /** The (neighbour id, side) pair the layout loop compares with the previous call's. */
  datatype IdSide = IdSide(id: int, side: nat)

  /** The state of the layout loop: the calls of each buffer, out_buff_lengths, and the
      pair of the previous call (None before the first). */
  datatype OutLayout = OutLayout(calls: seq<seq<RemoteCall>>, lens: seq<int>, prev: Option<IdSide>)

  const SizeTModulus: int := 0x1_0000_0000_0000_0000

  /** size_t subtraction of in-range operands: it wraps below zero. */
  function SizeTSub(a: int, b: int): int
  {
    if b <= a then a - b else a - b + SizeTModulus
  }

  /** The patch's own side for a remote key, which records the neighbour's side. */
  function SideOf(k: RemoteKey): nat
  {
    Opposite(k.nbrSide)
  }

  /** The call the layout loop records for key k, given the offset of its slot. */
  function CallFor(k: RemoteKey, offset: int): RemoteCall
  {
    RemoteCall(k.patch, SideOf(k), k.nbrType, k.orthant, k.localIndex, offset)
  }

  predicate KeyFits(k: RemoteKey, rankIndex: map<int, nat>, axisLens: seq<int>, nbuf: nat)
  {
    k.rank in rankIndex && rankIndex[k.rank] < nbuf && Axis(SideOf(k)) < |axisLens|
  }

  predicate KeysFit(keys: seq<RemoteKey>, rankIndex: map<int, nat>, axisLens: seq<int>, nbuf: nat)
  {
    forall i :: 0 <= i < |keys| ==> KeyFits(keys[i], rankIndex, axisLens, nbuf)
  }

  function OutStart(nbuf: nat, prev: Option<IdSide>): (st: OutLayout)
    ensures |st.calls| == |st.lens| == nbuf
  {
    OutLayout(seq(nbuf, _ => []), seq(nbuf, _ => 0), prev)
  }

  /** One pass of the layout loop: a call whose (neighbour id, side) is the previous call's
      reuses the slot that call was given; any other call gets a new slot at the end of its
      rank's buffer. */
  function OutStep(st: OutLayout, k: RemoteKey, rankIndex: map<int, nat>, axisLens: seq<int>): (r: OutLayout)
    requires |st.calls| == |st.lens| && KeyFits(k, rankIndex, axisLens, |st.lens|)
    ensures |r.calls| == |r.lens| == |st.lens|
  {
    var b := rankIndex[k.rank];
    var side := SideOf(k);
    var length := axisLens[Axis(side)];
    var reuse := st.prev == Some(IdSide(k.nbrId, side));
    var offset := if reuse then SizeTSub(st.lens[b], length) else st.lens[b];
    var lens := if reuse then st.lens else st.lens[b := st.lens[b] + length];
    OutLayout(st.calls[b := st.calls[b] + [CallFor(k, offset)]], lens, Some(IdSide(k.nbrId, side)))
  }

  function OutFold(keys: seq<RemoteKey>, rankIndex: map<int, nat>, axisLens: seq<int>, init: OutLayout): (r: OutLayout)
    requires |init.calls| == |init.lens| && KeysFit(keys, rankIndex, axisLens, |init.lens|)
    ensures |r.calls| == |r.lens| == |init.lens|
  {
    if keys == [] then init
    else OutStep(OutFold(keys[..|keys| - 1], rankIndex, axisLens, init), keys[|keys| - 1], rankIndex, axisLens)
  }

  /** The remote-call layout loop of the constructor, over remote_call_set in order, with
      the comparison pair starting out as prev0: the default-constructed pair as written
      (OutStartAsWritten), or "no previous call" (None) in the corrected plan. */
  method RemoteCallLayout(keys: seq<RemoteKey>, rankIndex: map<int, nat>, axisLens: seq<int>, nbuf: nat,
                          prev0: Option<IdSide>)
    returns (calls: seq<seq<RemoteCall>>, lens: seq<int>)
    requires KeysFit(keys, rankIndex, axisLens, nbuf)
    ensures var st := OutFold(keys, rankIndex, axisLens, OutStart(nbuf, prev0));
      calls == st.calls && lens == st.lens
  {
    calls := seq(nbuf, _ => []);
    lens := seq(nbuf, _ => 0);
    var prev: Option<IdSide> := prev0;
    var i := 0;
    while i < |keys|
      invariant 0 <= i <= |keys|
      invariant OutLayout(calls, lens, prev) == OutFold(keys[..i], rankIndex, axisLens, OutStart(nbuf, prev0))
    {
      var k := keys[i];
      var b := rankIndex[k.rank];
      var side := Opposite(k.nbrSide);
      var offset := lens[b];
      var length := axisLens[Axis(side)];
      if prev == Some(IdSide(k.nbrId, side)) {
        offset := SizeTSub(offset, length);
      } else {
        lens := lens[b := lens[b] + length];
      }
      calls := calls[b := calls[b] + [RemoteCall(k.patch, side, k.nbrType, k.orthant, k.localIndex, offset)]];
      prev := Some(IdSide(k.nbrId, side));
      assert keys[..i + 1][..i] == keys[..i];
      i := i + 1;
    }
    assert keys[..|keys|] == keys;
  }

  /** Neighbour ids name patches: two keys with the same neighbour id have the same rank. */
  predicate OwnersAgree(keys: seq<RemoteKey>)
  {
    forall i, j :: 0 <= i < |keys| && 0 <= j < |keys| && keys[i].nbrId == keys[j].nbrId ==> keys[i].rank == keys[j].rank
  }

  predicate NonNegativeLengths(axisLens: seq<int>)
  {
    forall a :: 0 <= a < |axisLens| ==> axisLens[a] >= 0
  }

  predicate SidesFit(calls: seq<RemoteCall>, axisLens: seq<int>)
  {
    forall j :: 0 <= j < |calls| ==> Axis(calls[j].side) < |axisLens|
  }

  /** The slots of a rank's calls: each call's offset and the ghost length of its side. */
  function CallSpans(calls: seq<RemoteCall>, axisLens: seq<int>): (sp: seq<Span>)
    requires SidesFit(calls, axisLens)
    ensures |sp| == |calls|
    ensures forall j :: 0 <= j < |calls| ==> sp[j] == Span(calls[j].offset, axisLens[Axis(calls[j].side)])
  {
    seq(|calls|, j requires 0 <= j < |calls| => Span(calls[j].offset, axisLens[Axis(calls[j].side)]))
  }

  /** What the layout loop keeps true: every buffer's slots tile it, and the comparison
      pair is that of the last call, which is the last call of its rank's buffer. */
  ghost predicate OutGood(st: OutLayout, done: seq<RemoteKey>, rankIndex: map<int, nat>, axisLens: seq<int>)
  {
    && |st.calls| == |st.lens|
    && (forall b :: 0 <= b < |st.calls| ==>
          SidesFit(st.calls[b], axisLens) && Tiles(CallSpans(st.calls[b], axisLens), st.lens[b], true))
    && (done == [] ==> st.prev == None)
    && (done != [] ==>
          var k := done[|done| - 1];
          && KeyFits(k, rankIndex, axisLens, |st.calls|)
          && st.prev == Some(IdSide(k.nbrId, SideOf(k)))
          && st.calls[rankIndex[k.rank]] != []
          && st.calls[rankIndex[k.rank]][|st.calls[rankIndex[k.rank]]| - 1].side == SideOf(k))
  }

  lemma SpansSnoc(calls: seq<RemoteCall>, c: RemoteCall, axisLens: seq<int>)
    requires SidesFit(calls, axisLens) && Axis(c.side) < |axisLens|
    ensures SidesFit(calls + [c], axisLens)
    ensures CallSpans(calls + [c], axisLens) == CallSpans(calls, axisLens) + [Span(c.offset, axisLens[Axis(c.side)])]
  {
  }

  /** Appending a slot that starts at the end of a tiling, or repeats its last slot,
      keeps it a tiling. */
  lemma TilesSnoc(sp: seq<Span>, total: int, reuse: bool, x: Span, total': int)
    requires Tiles(sp, total, reuse)
    requires (x.offset == total && total' == End(x)) || (reuse && sp != [] && x == sp[|sp| - 1] && total' == total)
    ensures Tiles(sp + [x], total', reuse)
  {
    var t := sp + [x];
    assert forall j :: 0 <= j < |sp| ==> t[j] == sp[j];
    assert t[|sp|] == x;
    forall j | 0 < j < |t|
      ensures t[j].offset == End(t[j - 1]) || (reuse && t[j] == t[j - 1])
    {
      if j == |sp| {
        assert t[j - 1] == sp[|sp| - 1];
      } else {
        assert t[j] == sp[j] && t[j - 1] == sp[j - 1];
      }
    }
  }

  lemma OutStepGood(st: OutLayout, done: seq<RemoteKey>, k: RemoteKey, rankIndex: map<int, nat>, axisLens: seq<int>)
    requires OutGood(st, done, rankIndex, axisLens) && KeyFits(k, rankIndex, axisLens, |st.lens|)
    requires OwnersAgree(done + [k]) && NonNegativeLengths(axisLens)
    ensures OutGood(OutStep(st, k, rankIndex, axisLens), done + [k], rankIndex, axisLens)
  {
    var b := rankIndex[k.rank];
    var side := SideOf(k);
    var length := axisLens[Axis(side)];
    var reuse := st.prev == Some(IdSide(k.nbrId, side));
    var r := OutStep(st, k, rankIndex, axisLens);
    var sp := CallSpans(st.calls[b], axisLens);
    var c := r.calls[b][|r.calls[b]| - 1];
    assert r.calls[b] == st.calls[b] + [c];
    SpansSnoc(st.calls[b], c, axisLens);
    if reuse {
      var k' := done[|done| - 1];
      assert (done + [k])[|done| - 1] == k' && (done + [k])[|done|] == k;
      assert k'.rank == k.rank;
      var last := |sp| - 1;
      TilesBounds(sp, st.lens[b], true, last);
      assert sp[last] == Span(st.lens[b] - length, length);
      TilesSnoc(sp, st.lens[b], true, sp[last], st.lens[b]);
    } else {
      TilesSnoc(sp, st.lens[b], true, Span(st.lens[b], length), st.lens[b] + length);
    }
    assert (done + [k])[|done + [k]| - 1] == k;
  }

  lemma {:induction false} OutFoldGood(keys: seq<RemoteKey>, rankIndex: map<int, nat>, axisLens: seq<int>, nbuf: nat)
    requires KeysFit(keys, rankIndex, axisLens, nbuf) && OwnersAgree(keys) && NonNegativeLengths(axisLens)
    ensures OutGood(OutFold(keys, rankIndex, axisLens, OutStart(nbuf, None)), keys, rankIndex, axisLens)
  {
    if keys != [] {
      var init := keys[..|keys| - 1];
      OutFoldGood(init, rankIndex, axisLens, nbuf);
      assert init + [keys[|keys| - 1]] == keys;
      OutStepGood(OutFold(init, rankIndex, axisLens, OutStart(nbuf, None)), init, keys[|keys| - 1], rankIndex, axisLens);
    } else {
      var st := OutStart(nbuf, None);
      forall b | 0 <= b < nbuf
        ensures SidesFit(st.calls[b], axisLens) && Tiles(CallSpans(st.calls[b], axisLens), st.lens[b], true)
      {
        assert st.calls[b] == [];
      }
    }
  }

  /** The send-buffer layout: in every rank's buffer the calls' slots tile
      [0, out_buff_lengths[b]), so each slot lies inside the buffer and two slots are either
      the same (a reused slot) or disjoint. */
  lemma RemoteLayoutTiles(keys: seq<RemoteKey>, rankIndex: map<int, nat>, axisLens: seq<int>, nbuf: nat, b: nat)
    requires KeysFit(keys, rankIndex, axisLens, nbuf) && OwnersAgree(keys) && NonNegativeLengths(axisLens)
    requires b < nbuf
    ensures var st := OutFold(keys, rankIndex, axisLens, OutStart(nbuf, None));
      SidesFit(st.calls[b], axisLens) && Tiles(CallSpans(st.calls[b], axisLens), st.lens[b], true)
  {
    OutFoldGood(keys, rankIndex, axisLens, nbuf);
  }

  /** As written, the comparison pair starts out default-constructed, as neighbour id 0 on
      the west side, rather than as "no previous call". */
  function OutStartAsWritten(nbuf: nat): (st: OutLayout)
    ensures st.prev == Some(IdSide(0, 0)) && |st.lens| == nbuf
  {
    OutStart(nbuf, Some(IdSide(0, 0)))
  }

  /** A patch on rank 1 whose west neighbour is patch 0 on rank 0: its one remote call has
      neighbour id 0 and side west, matches the default pair, and is given the slot
      "out_buff_lengths minus the ghost length", which wraps around, while the buffer
      stays empty. Starting from "no previous call" the same call gets [0, 4). */
  lemma DefaultPairWraps()
    ensures var k := RemoteKey(0, 0, 1, NullOrthant, Normal, 0, 0);
      var st := OutFold([k], map[0 := 0], [4, 4], OutStartAsWritten(1));
      st.calls[0][0].offset == SizeTModulus - 4 && st.lens[0] == 0
    ensures var k := RemoteKey(0, 0, 1, NullOrthant, Normal, 0, 0);
      var st := OutFold([k], map[0 := 0], [4, 4], OutStart(1, None));
      st.calls[0][0].offset == 0 && st.lens[0] == 4
  {
    var k := RemoteKey(0, 0, 1, NullOrthant, Normal, 0, 0);
    assert [k][..0] == [];
  }

  // ---------------------------------------------------------------------------
  // The receive buffers: incoming ghosts and in_buff_lengths

  /** An element of incoming_ghosts[b]: the patch's local index, its side, and the offset of
      the side's ghost values in the receive buffer. */
  datatype IncomingGhost = IncomingGhost(localIndex: int, side: nat, offset: int)

  datatype InLayout = InLayout(ghosts: seq<seq<IncomingGhost>>, lens: seq<int>)

  /** The ghost the layout loop records for key k, given the offset of its slot. */
  function GhostFor(k: IncomingKey, offset: int): IncomingGhost
  {
    IncomingGhost(k.localIndex, k.side, offset)
  }

  predicate InKeyFits(k: IncomingKey, rankIndex: map<int, nat>, axisLens: seq<int>, nbuf: nat)
  {
    k.rank in rankIndex && rankIndex[k.rank] < nbuf && Axis(k.side) < |axisLens|
  }

  predicate InKeysFit(keys: seq<IncomingKey>, rankIndex: map<int, nat>, axisLens: seq<int>, nbuf: nat)
  {
    forall i :: 0 <= i < |keys| ==> InKeyFits(keys[i], rankIndex, axisLens, nbuf)
  }

  function InStart(nbuf: nat): (st: InLayout)
    ensures |st.ghosts| == |st.lens| == nbuf
  {
    InLayout(seq(nbuf, _ => []), seq(nbuf, _ => 0))
  }

  /** Each incoming ghost gets a new slot at the end of its rank's receive buffer. */
  function InStep(st: InLayout, k: IncomingKey, rankIndex: map<int, nat>, axisLens: seq<int>): (r: InLayout)
    requires |st.ghosts| == |st.lens| && InKeyFits(k, rankIndex, axisLens, |st.lens|)
    ensures |r.ghosts| == |r.lens| == |st.lens|
  {
    var b := rankIndex[k.rank];
    var length := axisLens[Axis(k.side)];
    InLayout(st.ghosts[b := st.ghosts[b] + [GhostFor(k, st.lens[b])]],
             st.lens[b := st.lens[b] + length])
  }

  function InFold(keys: seq<IncomingKey>, rankIndex: map<int, nat>, axisLens: seq<int>, nbuf: nat): (r: InLayout)
    requires InKeysFit(keys, rankIndex, axisLens, nbuf)
    ensures |r.ghosts| == |r.lens| == nbuf
  {
    if keys == [] then InStart(nbuf)
    else InStep(InFold(keys[..|keys| - 1], rankIndex, axisLens, nbuf), keys[|keys| - 1], rankIndex, axisLens)
  }

  /** The incoming-ghost layout loop of the constructor, over incoming_ghost_set in order. */
  method IncomingLayout(keys: seq<IncomingKey>, rankIndex: map<int, nat>, axisLens: seq<int>, nbuf: nat)
    returns (ghosts: seq<seq<IncomingGhost>>, lens: seq<int>)
    requires InKeysFit(keys, rankIndex, axisLens, nbuf)
    ensures InLayout(ghosts, lens) == InFold(keys, rankIndex, axisLens, nbuf)
  {
    ghosts := seq(nbuf, _ => []);
    lens := seq(nbuf, _ => 0);
    var i := 0;
    while i < |keys|
      invariant 0 <= i <= |keys|
      invariant InLayout(ghosts, lens) == InFold(keys[..i], rankIndex, axisLens, nbuf)
    {
      var k := keys[i];
      var b := rankIndex[k.rank];
      var length := axisLens[Axis(k.side)];
      var offset := lens[b];
      lens := lens[b := lens[b] + length];
      ghosts := ghosts[b := ghosts[b] + [IncomingGhost(k.localIndex, k.side, offset)]];
      assert keys[..i + 1][..i] == keys[..i];
      i := i + 1;
    }
    assert keys[..|keys|] == keys;
  }

  predicate GhostSidesFit(gs: seq<IncomingGhost>, axisLens: seq<int>)
  {
    forall j :: 0 <= j < |gs| ==> Axis(gs[j].side) < |axisLens|
  }

  function GhostSpans(gs: seq<IncomingGhost>, axisLens: seq<int>): (sp: seq<Span>)
    requires GhostSidesFit(gs, axisLens)
    ensures |sp| == |gs|
    ensures forall j :: 0 <= j < |gs| ==> sp[j] == Span(gs[j].offset, axisLens[Axis(gs[j].side)])
  {
    seq(|gs|, j requires 0 <= j < |gs| => Span(gs[j].offset, axisLens[Axis(gs[j].side)]))
  }

  ghost predicate InGood(st: InLayout, axisLens: seq<int>)
  {
    && |st.ghosts| == |st.lens|
    && forall b :: 0 <= b < |st.ghosts| ==>
         GhostSidesFit(st.ghosts[b], axisLens) && Tiles(GhostSpans(st.ghosts[b], axisLens), st.lens[b], false)
  }

  lemma InStepGood(st: InLayout, k: IncomingKey, rankIndex: map<int, nat>, axisLens: seq<int>)
    requires InGood(st, axisLens) && InKeyFits(k, rankIndex, axisLens, |st.lens|)
    ensures InGood(InStep(st, k, rankIndex, axisLens), axisLens)
  {
    var b := rankIndex[k.rank];
    var r := InStep(st, k, rankIndex, axisLens);
    var x := Span(st.lens[b], axisLens[Axis(k.side)]);
    assert GhostSpans(r.ghosts[b], axisLens) == GhostSpans(st.ghosts[b], axisLens) + [x];
    TilesSnoc(GhostSpans(st.ghosts[b], axisLens), st.lens[b], false, x, End(x));
  }

  lemma {:induction false} InFoldGood(keys: seq<IncomingKey>, rankIndex: map<int, nat>, axisLens: seq<int>, nbuf: nat)
    requires InKeysFit(keys, rankIndex, axisLens, nbuf)
    ensures InGood(InFold(keys, rankIndex, axisLens, nbuf), axisLens)
  {
    if keys != [] {
      InFoldGood(keys[..|keys| - 1], rankIndex, axisLens, nbuf);
      InStepGood(InFold(keys[..|keys| - 1], rankIndex, axisLens, nbuf), keys[|keys| - 1], rankIndex, axisLens);
    } else {
      forall b | 0 <= b < nbuf
        ensures GhostSidesFit(InStart(nbuf).ghosts[b], axisLens)
             && Tiles(GhostSpans(InStart(nbuf).ghosts[b], axisLens), InStart(nbuf).lens[b], false)
      {
        assert InStart(nbuf).ghosts[b] == [];
      }
    }
  }

  /** The receive-buffer layout: the incoming ghosts of a rank get consecutive slots from
      offset 0 in set order, and in_buff_lengths[b] is the sum of their ghost lengths. */
  lemma IncomingLayoutTiles(keys: seq<IncomingKey>, rankIndex: map<int, nat>, axisLens: seq<int>, nbuf: nat, b: nat)
    requires InKeysFit(keys, rankIndex, axisLens, nbuf) && b < nbuf
    ensures var st := InFold(keys, rankIndex, axisLens, nbuf);
      && GhostSidesFit(st.ghosts[b], axisLens)
      && Tiles(GhostSpans(st.ghosts[b], axisLens), st.lens[b], false)
      && st.lens[b] == SumLengths(GhostSpans(st.ghosts[b], axisLens))
  {
    InFoldGood(keys, rankIndex, axisLens, nbuf);
    var st := InFold(keys, rankIndex, axisLens, nbuf);
    TilesSum(GhostSpans(st.ghosts[b], axisLens), st.lens[b]);
  }

  // ---------------------------------------------------------------------------
  // Which calls and ghosts each buffer holds

  /** The positions, in increasing order, of the entries of ranks equal to r. */
  function Positions(ranks: seq<int>, r: int): (ps: seq<nat>)
    ensures forall j :: 0 <= j < |ps| ==> ps[j] < |ranks| && ranks[ps[j]] == r
    ensures forall j, j' :: 0 <= j < j' < |ps| ==> ps[j] < ps[j']
    ensures forall i :: 0 <= i < |ranks| && ranks[i] == r ==> i in ps
  {
    if ranks == [] then []
    else Positions(ranks[..|ranks| - 1], r) + (if ranks[|ranks| - 1] == r then [|ranks| - 1] else [])
  }

  function RemoteRanks(keys: seq<RemoteKey>): (rs: seq<int>)
    ensures |rs| == |keys| && forall i :: 0 <= i < |keys| ==> rs[i] == keys[i].rank
  {
    seq(|keys|, i requires 0 <= i < |keys| => keys[i].rank)
  }

  function IncomingRanks(keys: seq<IncomingKey>): (rs: seq<int>)
    ensures |rs| == |keys| && forall i :: 0 <= i < |keys| ==> rs[i] == keys[i].rank
  {
    seq(|keys|, i requires 0 <= i < |keys| => keys[i].rank)
  }

  /** The i-th remote call repeats the (neighbour id, side) pair of the call before it. */
  predicate Reuses(keys: seq<RemoteKey>, i: nat)
    requires i < |keys|
  {
    0 < i && keys[i - 1].nbrId == keys[i].nbrId && SideOf(keys[i - 1]) == SideOf(keys[i])
  }

  /** calls are the calls of the keys at positions ps, in order; a call repeats the slot of
      the call before it exactly when its key repeats the previous key's (neighbour id,
      side) pair (that key then being the buffer's previous one), and otherwise starts a new
      slot where the previous slot ends, or at 0. */
  ghost predicate SendSlots(keys: seq<RemoteKey>, ps: seq<nat>, calls: seq<RemoteCall>, axisLens: seq<int>)
  {
    && |calls| == |ps|
    && SidesFit(calls, axisLens)
    && forall j :: 0 <= j < |calls| ==> SendSlot(keys, ps, calls, axisLens, j)
  }

  /** The j-th call of SendSlots. */
  ghost predicate SendSlot(keys: seq<RemoteKey>, ps: seq<nat>, calls: seq<RemoteCall>, axisLens: seq<int>, j: nat)
    requires j < |calls| == |ps| && SidesFit(calls, axisLens)
  {
    && ps[j] < |keys|
    && calls[j] == CallFor(keys[ps[j]], calls[j].offset)
    && (Reuses(keys, ps[j]) ==> 0 < j && ps[j - 1] == ps[j] - 1 && calls[j].offset == calls[j - 1].offset)
    && (!Reuses(keys, ps[j]) ==>
          calls[j].offset == if j == 0 then 0 else calls[j - 1].offset + axisLens[Axis(calls[j - 1].side)])
  }

  /** calls is the send buffer of rank r for the keys in set order: one call per key of
      rank r, laid out as SendSlots says. */
  ghost predicate SendBuffer(keys: seq<RemoteKey>, r: int, calls: seq<RemoteCall>, axisLens: seq<int>)
  {
    SendSlots(keys, Positions(RemoteRanks(keys), r), calls, axisLens)
  }

  /** ghosts is the receive buffer of rank r: one ghost per key of rank r, in set order. */
  ghost predicate ReceiveBuffer(keys: seq<IncomingKey>, r: int, ghosts: seq<IncomingGhost>)
  {
    var ps := Positions(IncomingRanks(keys), r);
    && |ghosts| == |ps|
    && forall j :: 0 <= j < |ghosts| ==> ghosts[j] == GhostFor(keys[ps[j]], ghosts[j].offset)
  }

  /** Different ranks have different buffers. */
  predicate BuffersApart(rankIndex: map<int, nat>)
  {
    forall r1, r2 :: r1 in rankIndex && r2 in rankIndex && rankIndex[r1] == rankIndex[r2] ==> r1 == r2
  }

  lemma PositionsSnoc(ranks: seq<int>, x: int, r: int)
    ensures Positions(ranks + [x], r) == Positions(ranks, r) + (if x == r then [|ranks|] else [])
  {
    assert (ranks + [x])[..|ranks|] == ranks;
  }

  lemma RemoteRanksSnoc(keys: seq<RemoteKey>, k: RemoteKey)
    ensures RemoteRanks(keys + [k]) == RemoteRanks(keys) + [k.rank]
  {
  }

  lemma IncomingRanksSnoc(keys: seq<IncomingKey>, k: IncomingKey)
    ensures IncomingRanks(keys + [k]) == IncomingRanks(keys) + [k.rank]
  {
  }

  /** Calls laid out for a prefix of the keys are laid out the same for the whole. */
  lemma {:induction false} SendSlotsExtend(done: seq<RemoteKey>, k: RemoteKey, ps: seq<nat>, calls: seq<RemoteCall>, axisLens: seq<int>)
    requires SendSlots(done, ps, calls, axisLens)
    ensures SendSlots(done + [k], ps, calls, axisLens)
  {
    var keys := done + [k];
    forall j | 0 <= j < |ps|
      ensures SendSlot(keys, ps, calls, axisLens, j)
    {
      assert SendSlot(done, ps, calls, axisLens, j);
      if 0 < ps[j] {
        assert keys[ps[j] - 1] == done[ps[j] - 1];
      }
    }
  }

  /** A key of another rank leaves rank r's send buffer as it was. */
  lemma SendBufferOther(done: seq<RemoteKey>, k: RemoteKey, r: int, calls: seq<RemoteCall>, axisLens: seq<int>)
    requires SendBuffer(done, r, calls, axisLens) && k.rank != r
    ensures SendBuffer(done + [k], r, calls, axisLens)
  {
    RemoteRanksSnoc(done, k);
    PositionsSnoc(RemoteRanks(done), k.rank, r);
    assert Positions(RemoteRanks(done + [k]), r) == Positions(RemoteRanks(done), r);
    SendSlotsExtend(done, k, Positions(RemoteRanks(done), r), calls, axisLens);
  }

  /** A new call appended after calls laid out for the earlier keys. */
  lemma {:induction false} SendSlotsAppend(done: seq<RemoteKey>, k: RemoteKey, ps: seq<nat>, calls: seq<RemoteCall>, c: RemoteCall, axisLens: seq<int>)
    requires SendSlots(done, ps, calls, axisLens)
    requires c == CallFor(k, c.offset) && Axis(c.side) < |axisLens|
    requires Reuses(done + [k], |done|) ==>
               calls != [] && ps[|ps| - 1] == |done| - 1 && c.offset == calls[|calls| - 1].offset
    requires !Reuses(done + [k], |done|) ==>
               c.offset == if calls == [] then 0 else calls[|calls| - 1].offset + axisLens[Axis(calls[|calls| - 1].side)]
    ensures SendSlots(done + [k], ps + [|done|], calls + [c], axisLens)
  {
    var keys := done + [k];
    var ps' := ps + [|done|];
    var calls' := calls + [c];
    SendSlotsExtend(done, k, ps, calls, axisLens);
    assert keys[|done|] == k;
    assert calls'[|calls|] == c && ps'[|ps|] == |done|;
    forall j | 0 <= j < |calls|
      ensures SendSlot(keys, ps', calls', axisLens, j)
    {
      assert SendSlot(keys, ps, calls, axisLens, j);
      assert calls'[j] == calls[j] && ps'[j] == ps[j];
      if 0 < j {
        assert calls'[j - 1] == calls[j - 1] && ps'[j - 1] == ps[j - 1];
      }
    }
    if 0 < |calls| {
      assert calls'[|calls| - 1] == calls[|calls| - 1] && ps'[|calls| - 1] == ps[|ps| - 1];
    }
    assert SendSlot(keys, ps', calls', axisLens, |calls|);
  }

  /** What the layout loop keeps true besides the tiling: each rank's buffer holds the
      calls of the keys seen so far, as SendBuffer describes. */
  ghost predicate OutHolds(st: OutLayout, done: seq<RemoteKey>, rankIndex: map<int, nat>, axisLens: seq<int>)
  {
    forall r :: r in rankIndex && rankIndex[r] < |st.calls| ==> SendBuffer(done, r, st.calls[rankIndex[r]], axisLens)
  }

  /** The key's own rank's buffer gains its call. */
  lemma OutStepSame(st: OutLayout, done: seq<RemoteKey>, k: RemoteKey, rankIndex: map<int, nat>, axisLens: seq<int>)
    requires OutGood(st, done, rankIndex, axisLens) && KeyFits(k, rankIndex, axisLens, |st.lens|)
    requires SendBuffer(done, k.rank, st.calls[rankIndex[k.rank]], axisLens)
    requires OwnersAgree(done + [k]) && NonNegativeLengths(axisLens)
    ensures SendBuffer(done + [k], k.rank, OutStep(st, k, rankIndex, axisLens).calls[rankIndex[k.rank]], axisLens)
  {
    var st' := OutStep(st, k, rankIndex, axisLens);
    var b := rankIndex[k.rank];
    var calls := st.calls[b];
    var c := CallFor(k, st'.calls[b][|st'.calls[b]| - 1].offset);
    assert st'.calls[b] == calls + [c];
    var ps := Positions(RemoteRanks(done), k.rank);
    assert SendSlots(done, ps, calls, axisLens);
    ReuseMatchesPrev(st, done, k, rankIndex, axisLens);
    var sp := CallSpans(calls, axisLens);
    if calls != [] {
      TilesBounds(sp, st.lens[b], true, |sp| - 1);
      assert sp[|sp| - 1] == Span(calls[|calls| - 1].offset, axisLens[Axis(calls[|calls| - 1].side)]);
    }
    if Reuses(done + [k], |done|) {
      LastOfRank(done, k, rankIndex, axisLens, ps, calls);
    }
    SendSlotsAppend(done, k, ps, calls, c, axisLens);
    RemoteRanksSnoc(done, k);
    PositionsSnoc(RemoteRanks(done), k.rank, k.rank);
  }

  lemma OutStepHolds(st: OutLayout, done: seq<RemoteKey>, k: RemoteKey, rankIndex: map<int, nat>, axisLens: seq<int>)
    requires OutGood(st, done, rankIndex, axisLens) && OutHolds(st, done, rankIndex, axisLens)
    requires KeyFits(k, rankIndex, axisLens, |st.lens|) && BuffersApart(rankIndex)
    requires OwnersAgree(done + [k]) && NonNegativeLengths(axisLens)
    ensures OutHolds(OutStep(st, k, rankIndex, axisLens), done + [k], rankIndex, axisLens)
  {
    var st' := OutStep(st, k, rankIndex, axisLens);
    OutStepSame(st, done, k, rankIndex, axisLens);
    forall r | r in rankIndex && rankIndex[r] < |st'.calls|
      ensures SendBuffer(done + [k], r, st'.calls[rankIndex[r]], axisLens)
    {
      if r != k.rank {
        assert st'.calls[rankIndex[r]] == st.calls[rankIndex[r]];
        SendBufferOther(done, k, r, st.calls[rankIndex[r]], axisLens);
      }
    }
  }

  /** The loop's comparison pair matches exactly when the key repeats the previous key's
      (neighbour id, side) pair. */
  lemma ReuseMatchesPrev(st: OutLayout, done: seq<RemoteKey>, k: RemoteKey, rankIndex: map<int, nat>, axisLens: seq<int>)
    requires OutGood(st, done, rankIndex, axisLens)
    ensures (st.prev == Some(IdSide(k.nbrId, SideOf(k)))) == Reuses(done + [k], |done|)
  {
    assert (done + [k])[|done|] == k;
    if done != [] {
      assert (done + [k])[|done| - 1] == done[|done| - 1];
    }
  }

  /** When a key repeats the previous key's pair, that key is of the same rank and is the
      last one of the rank's buffer, with the same side. */
  lemma LastOfRank(done: seq<RemoteKey>, k: RemoteKey, rankIndex: map<int, nat>, axisLens: seq<int>,
                   ps: seq<nat>, calls: seq<RemoteCall>)
    requires OwnersAgree(done + [k]) && Reuses(done + [k], |done|)
    requires ps == Positions(RemoteRanks(done), k.rank) && SendSlots(done, ps, calls, axisLens)
    ensures calls != [] && ps[|ps| - 1] == |done| - 1 && calls[|calls| - 1].side == SideOf(k)
  {
    var k' := done[|done| - 1];
    assert (done + [k])[|done| - 1] == k' && (done + [k])[|done|] == k;
    assert k'.rank == k.rank;
    assert |done| - 1 in ps;
    var i :| 0 <= i < |ps| && ps[i] == |done| - 1;
    assert i == |ps| - 1;
    assert SendSlot(done, ps, calls, axisLens, i);
  }

  lemma {:induction false} OutFoldHolds(keys: seq<RemoteKey>, rankIndex: map<int, nat>, axisLens: seq<int>, nbuf: nat)
    requires KeysFit(keys, rankIndex, axisLens, nbuf) && OwnersAgree(keys) && NonNegativeLengths(axisLens)
    requires BuffersApart(rankIndex)
    ensures OutHolds(OutFold(keys, rankIndex, axisLens, OutStart(nbuf, None)), keys, rankIndex, axisLens)
  {
    if keys != [] {
      var init, k := keys[..|keys| - 1], keys[|keys| - 1];
      assert init + [k] == keys;
      assert KeysFit(init, rankIndex, axisLens, nbuf) && OwnersAgree(init) by {
        assert forall i :: 0 <= i < |init| ==> init[i] == keys[i];
      }
      var st := OutFold(init, rankIndex, axisLens, OutStart(nbuf, None));
      OutFoldHolds(init, rankIndex, axisLens, nbuf);
      OutFoldGood(init, rankIndex, axisLens, nbuf);
      OutStepHolds(st, init, k, rankIndex, axisLens);
    } else {
      OutStartHolds(rankIndex, axisLens, nbuf);
    }
  }

  lemma OutStartHolds(rankIndex: map<int, nat>, axisLens: seq<int>, nbuf: nat)
    ensures OutHolds(OutStart(nbuf, None), [], rankIndex, axisLens)
  {
    var st := OutStart(nbuf, None);
    forall r | r in rankIndex && rankIndex[r] < nbuf
      ensures SendBuffer([], r, st.calls[rankIndex[r]], axisLens)
    {
      assert st.calls[rankIndex[r]] == [];
      assert RemoteRanks([]) == [];
    }
  }

  /** The contents of the send buffers: the buffer of rank r holds one call per remote
      call of rank r, in set order, carrying that key's patch, side, neighbour type, orthant
      and local index; its slot repeats the previous call's exactly when the key repeats
      the previous key's (neighbour id, side) pair. */
  lemma RemoteLayoutContents(keys: seq<RemoteKey>, rankIndex: map<int, nat>, axisLens: seq<int>, nbuf: nat, r: int)
    requires KeysFit(keys, rankIndex, axisLens, nbuf) && OwnersAgree(keys) && NonNegativeLengths(axisLens)
    requires BuffersApart(rankIndex) && r in rankIndex && rankIndex[r] < nbuf
    ensures SendBuffer(keys, r, OutFold(keys, rankIndex, axisLens, OutStart(nbuf, None)).calls[rankIndex[r]], axisLens)
  {
    OutFoldHolds(keys, rankIndex, axisLens, nbuf);
  }

  /** The contents of the receive buffers: the buffer of rank r holds one ghost per incoming
      ghost of rank r, in set order, carrying that key's local index and side. */
  lemma {:induction false} IncomingLayoutContents(keys: seq<IncomingKey>, rankIndex: map<int, nat>, axisLens: seq<int>, nbuf: nat, r: int)
    requires InKeysFit(keys, rankIndex, axisLens, nbuf)
    requires BuffersApart(rankIndex) && r in rankIndex && rankIndex[r] < nbuf
    ensures ReceiveBuffer(keys, r, InFold(keys, rankIndex, axisLens, nbuf).ghosts[rankIndex[r]])
  {
    var b := rankIndex[r];
    if keys == [] {
      assert InStart(nbuf).ghosts[b] == [];
    } else {
      var init := keys[..|keys| - 1];
      var k := keys[|keys| - 1];
      assert init + [k] == keys;
      IncomingLayoutContents(init, rankIndex, axisLens, nbuf, r);
      IncomingRanksSnoc(init, k);
      PositionsSnoc(IncomingRanks(init), k.rank, r);
      var ps := Positions(IncomingRanks(init), r);
      var gs := InFold(init, rankIndex, axisLens, nbuf).ghosts[b];
      var gs' := InFold(keys, rankIndex, axisLens, nbuf).ghosts[b];
      forall j | 0 <= j < |ps|
        ensures keys[ps[j]] == init[ps[j]]
      {
      }
      if k.rank == r {
        assert gs' == gs + [gs'[|gs'| - 1]];
      } else {
        assert rankIndex[k.rank] != b;
        assert gs' == gs;
      }
    }
  }

  // ---------------------------------------------------------------------------
  // The constructor

  /** Slots of patches 0..m-1 lie on sides of a D-dimensional patch. */
  lemma {:induction false} AllSlotsSides(d: nat, patches: seq<PatchInfo>, m: nat)
    requires ValidPatches(d, patches) && m <= |patches|
    ensures forall x :: x in AllSlots(d, patches, m) ==> x.side < 2 * d
  {
    if m > 0 {
      AllSlotsSides(d, patches, m - 1);
      PatchSetSides(d, patches[m - 1], m - 1, 2 * d);
    }
  }

  lemma {:induction false} PatchSetSides(d: nat, pi: PatchInfo, p: nat, k: nat)
    requires ValidPatch(d, pi)
    ensures forall x :: x in PatchSet(d, pi, p, k) ==> x.side < 2 * d
  {
    if k > 0 {
      PatchSetSides(d, pi, p, k - 1);
      forall x | x in SideSet(d, pi, p, k - 1, SideCount(d, pi, k - 1))
        ensures x.side < 2 * d
      {
        var i :| 0 <= i < SideCount(d, pi, k - 1) && x == SlotAt(d, pi, p, k - 1, i);
        assert ValidNbr(d, k - 1, pi.nbrs[k - 1]);
      }
    }
  }

  /** Patch ids name one patch each, so slots that name the same neighbour id agree on
      the rank that owns it. */
  ghost predicate OwnersUnique(S: set<Slot>)
  {
    forall x, y :: x in S && y in S && x.nbrId == y.nbrId ==> x.rank == y.rank
  }

  /** The keys the classification collects fit the buffers the rank maps give: their
      ranks have buffer indices and their sides have ghost lengths; and remote keys with
      the same neighbour id have the same rank. */
  lemma PlanFits(rank: int, d: nat, patches: seq<PatchInfo>, plan: Plan, rankIndex: map<int, nat>, axisLens: seq<int>)
    requires ValidPatches(d, patches) && |axisLens| == d
    requires Reflects(plan, AllEffects(d, patches, |patches|, rank))
    requires OwnersUnique(AllSlots(d, patches, |patches|))
    requires rankIndex.Keys == Elems(plan.ranks)
    requires forall r :: r in rankIndex ==> rankIndex[r] < |plan.ranks|
    ensures KeysFit(plan.remote, rankIndex, axisLens, |plan.ranks|) && OwnersAgree(plan.remote)
    ensures InKeysFit(plan.incoming, rankIndex, axisLens, |plan.ranks|)
  {
    var S := AllSlots(d, patches, |patches|);
    var R := AllEffects(d, patches, |patches|, rank).remoteSlots;
    AllDescribed(d, patches, |patches|, rank);
    AllSlotsSides(d, patches, |patches|);
    assert R <= S;
    forall i | 0 <= i < |plan.remote|
      ensures KeyFits(plan.remote[i], rankIndex, axisLens, |plan.ranks|)
      ensures exists x :: x in R && plan.remote[i] == RemoteKeyOf(x)
    {
      assert plan.remote[i] in RemoteKeys(R);
      var x :| x in R && plan.remote[i] == RemoteKeyOf(x);
      assert x.rank in RanksOf(R);
    }
    forall i, j | 0 <= i < |plan.remote| && 0 <= j < |plan.remote| && plan.remote[i].nbrId == plan.remote[j].nbrId
      ensures plan.remote[i].rank == plan.remote[j].rank
    {
      var x :| x in R && plan.remote[i] == RemoteKeyOf(x);
      var y :| y in R && plan.remote[j] == RemoteKeyOf(y);
    }
    forall i | 0 <= i < |plan.incoming|
      ensures InKeyFits(plan.incoming[i], rankIndex, axisLens, |plan.ranks|)
    {
      assert plan.incoming[i] in IncomingKeys(R);
      var x :| x in R && plan.incoming[i] == IncomingKeyOf(x);
      assert x.rank in RanksOf(R);
    }
  }

  lemma {:induction false} ProdNonNegative(s: seq<int>)
    requires forall i :: 0 <= i < |s| ==> s[i] >= 0
    ensures VectorLayout.Prod(s) >= 0
  {
    if s != [] {
      ProdNonNegative(s[..|s| - 1]);
    }
  }

  /** MPIGhostFiller<D>: the exchange plan its constructor computes. */
  class MPIGhostFiller {
    const rank: int
    const d: nat
    const patches: seq<PatchInfo>
    const localCalls: seq<LocalCall>
    const indexRankMap: seq<int>
    const remoteCalls: seq<seq<RemoteCall>>
    const outBuffLengths: seq<int>
    const incomingGhosts: seq<seq<IncomingGhost>>
    const inBuffLengths: seq<int>
    const axisGhostLengths: seq<int>
    /** remote_call_set and incoming_ghost_set, in set order. */
    ghost const remoteKeys: seq<RemoteKey>
    ghost const incomingKeys: seq<IncomingKey>

    /** Builds the plan of rank `rank` for the local patches `patches` of a domain whose
        patches have extents ns and g ghost layers. */
    constructor (rank: int, d: nat, patches: seq<PatchInfo>, ns: seq<int>, g: int)
      requires ValidPatches(d, patches) && |ns| == d && g >= 0
      requires forall i :: 0 <= i < |ns| ==> ns[i] >= 0
      requires OwnersUnique(AllSlots(d, patches, |patches|))
      ensures this.rank == rank && this.d == d && this.patches == patches
      ensures |axisGhostLengths| == d
      ensures forall a :: 0 <= a < d ==> axisGhostLengths[a] == VectorLayout.Prod(ns[a := g])
      // every slot with a neighbour on this rank is a local call, and nothing else is
      ensures Elems(localCalls) == (set x | x in AllSlots(d, patches, |patches|) && x.rank == rank :: LocalCallOf(x))
      // the ranks of the other slots, in increasing order
      ensures Sorted(indexRankMap, RankOrder)
      ensures Elems(indexRankMap) == RanksOf(set x | x in AllSlots(d, patches, |patches|) && x.rank != rank)
      ensures |remoteCalls| == |outBuffLengths| == |incomingGhosts| == |inBuffLengths| == |indexRankMap|
      // each buffer is tiled by its slots: send slots may repeat, receive slots follow one another
      ensures forall b :: 0 <= b < |indexRankMap| ==>
                SidesFit(remoteCalls[b], axisGhostLengths)
                && Tiles(CallSpans(remoteCalls[b], axisGhostLengths), outBuffLengths[b], true)
      ensures forall b :: 0 <= b < |indexRankMap| ==>
                GhostSidesFit(incomingGhosts[b], axisGhostLengths)
                && Tiles(GhostSpans(incomingGhosts[b], axisGhostLengths), inBuffLengths[b], false)
                && inBuffLengths[b] == SumLengths(GhostSpans(incomingGhosts[b], axisGhostLengths))
      // the two key sets are those of the slots with a neighbour on another rank
      ensures Holds(remoteKeys, RemoteOrder, RemoteKeys(set x | x in AllSlots(d, patches, |patches|) && x.rank != rank))
      ensures Holds(incomingKeys, IncomingOrder, IncomingKeys(set x | x in AllSlots(d, patches, |patches|) && x.rank != rank))
      // buffer b holds the calls and ghosts of rank index_rank_map[b], in set order, and a
      // send slot is reused exactly when a call repeats the previous one's (neighbour id, side)
      ensures forall b :: 0 <= b < |indexRankMap| ==>
                SendBuffer(remoteKeys, indexRankMap[b], remoteCalls[b], axisGhostLengths)
                && ReceiveBuffer(incomingKeys, indexRankMap[b], incomingGhosts[b])
    {
      this.rank := rank;
      this.d := d;
      this.patches := patches;
      var lens := AxisGhostLengths(ns, g);
      forall a | 0 <= a < d
        ensures lens[a] >= 0
      {
        ProdNonNegative(ns[a := g]);
      }
      axisGhostLengths := lens;
      var plan := Classify(rank, d, patches);
      AllDescribed(d, patches, |patches|, rank);
      localCalls := plan.locals;
      var rankIndex, indexRank := RankMaps(plan.ranks);
      indexRankMap := indexRank;
      PlanFits(rank, d, patches, plan, rankIndex, lens);
      var calls, outLens := RemoteCallLayout(plan.remote, rankIndex, lens, |indexRank|, None);
      remoteCalls := calls;
      outBuffLengths := outLens;
      var ghosts, inLens := IncomingLayout(plan.incoming, rankIndex, lens, |indexRank|);
      incomingGhosts := ghosts;
      inBuffLengths := inLens;
      remoteKeys := plan.remote;
      incomingKeys := plan.incoming;
      forall b | 0 <= b < |indexRank|
        ensures SidesFit(calls[b], lens) && Tiles(CallSpans(calls[b], lens), outLens[b], true)
        ensures GhostSidesFit(ghosts[b], lens) && Tiles(GhostSpans(ghosts[b], lens), inLens[b], false)
        ensures inLens[b] == SumLengths(GhostSpans(ghosts[b], lens))
        ensures SendBuffer(plan.remote, indexRank[b], calls[b], lens)
        ensures ReceiveBuffer(plan.incoming, indexRank[b], ghosts[b])
      {
        RemoteLayoutTiles(plan.remote, rankIndex, lens, |indexRank|, b);
        IncomingLayoutTiles(plan.incoming, rankIndex, lens, |indexRank|, b);
        var r := indexRank[b];
        assert r in rankIndex;
        if rankIndex[r] != b {
          var b' := rankIndex[r];
          if b < b' {
            SortedRanksIncrease(plan.ranks, b, b');
          } else {
            SortedRanksIncrease(plan.ranks, b', b);
          }
        }
        RemoteLayoutContents(plan.remote, rankIndex, lens, |indexRank|, r);
        IncomingLayoutContents(plan.incoming, rankIndex, lens, |indexRank|, r);
      }
    }
  }
}
