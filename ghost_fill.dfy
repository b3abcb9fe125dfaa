/**
 * The sequential parts of MPIGhostFiller<D>::fillGhost (MPIGhostFiller.h): the views
 * getLocalDataForBuffer puts on a slot of a send or receive buffer, the zeroing of the
 * ghost layers of every side that has a neighbour, and the accumulation of received
 * ghost values with +=.
 *
 * A view (VectorLayout.LocalData) addresses cell c, given relative to the first interior
 * cell, at start + sum c[i] strides[i]. Ghost layer k (1 <= k <= g) of side s is the slice
 * whose coordinate along the side's axis is -k on a lower side and ns[axis] - 1 + k on an
 * upper side; along every other axis it spans the interior. LocalData.h, which defines
 * getGhostSliceOnSide, is not part of this model: this is the reading the call sites use.
 */
module GhostFill {
  import opened IntMath
  import opened VectorLayout
  import opened GhostPlan

  /** The entry of view ld that holds cell c. */
  function At(ld: LocalData, c: seq<int>): int
    requires |c| == |ld.strides|
  {
    ld.start + Offset(c, ld.strides, 0)
  }

  /** The coordinate, along the side's axis, of ghost layer k of side s. */
  function LayerCoord(ns: seq<int>, s: nat, k: int): int
    requires Axis(s) < |ns|
  {
    if IsLower(s) then -k else ns[Axis(s)] - 1 + k
  }

  /** c is a cell of ghost layer k of side s. */
  ghost predicate OnSlice(ns: seq<int>, s: nat, k: int, c: seq<int>)
  {
    && |c| == |ns| && Axis(s) < |ns|
    && c[Axis(s)] == LayerCoord(ns, s, k)
    && forall i :: 0 <= i < |c| && i != Axis(s) ==> 0 <= c[i] < ns[i]
  }

  /** Moving a cell along one axis moves its entry by that axis' stride. */
  lemma {:induction false} OffsetShift(c: seq<int>, st: seq<int>, a: nat, v: int)
    requires |c| == |st| && a < |c|
    ensures Offset(c[a := v], st, 0) == Offset(c, st, 0) + (v - c[a]) * st[a]
    decreases |c|
  {
    var k := |c| - 1;
    var c' := c[a := v];
    assert c'[..k] == if a == k then c[..k] else c[..k][a := v];
    if a < k {
      OffsetShift(c[..k], st[..k], a, v);
    }
  }

  /** The entry of a cell is that of the first interior cell plus its offset from it. */
  lemma {:induction false} OffsetSplit(c: seq<int>, st: seq<int>, g: int)
    requires |c| == |st|
    ensures Offset(c, st, g) == Offset(Zeros(|c|), st, g) + Offset(c, st, 0)
    decreases |c|
  {
    if c != [] {
      var k := |c| - 1;
      OffsetSplit(c[..k], st[..k], g);
      assert Zeros(|c|)[..k] == Zeros(k);
    }
  }

  lemma NegMul(x: int, y: int)
    ensures (-x) * y == -(x * y)
  {
  }

  // ---------------------------------------------------------------------------
  // getLocalDataForBuffer

  /** The stride loop of getLocalDataForBuffer: the slot is a dense block whose extent along
      the side's axis is g instead of ns[axis]. */
  method BufferStrides(ns: seq<int>, g: int, side: nat) returns (strides: seq<int>)
    requires |ns| >= 1 && Axis(side) < |ns|
    ensures strides == Strides(ns[Axis(side) := g])
  {
    BufferStridesStart(ns[Axis(side) := g]);
    strides := [1];
    var i := 1;
    while i < |ns|
      invariant 1 <= i <= |ns|
      invariant strides == Strides(ns[Axis(side) := g][..i])
    {
      var f := if i == Axis(side) + 1 then g else ns[i - 1];
      BufferStridesStep(ns, g, Axis(side), i, strides, f);
      strides := strides + [f * strides[i - 1]];
      i := i + 1;
    }
    assert ns[Axis(side) := g][..|ns|] == ns[Axis(side) := g];
  }

  lemma BufferStridesStart(dims: seq<int>)
    requires |dims| >= 1
    ensures Strides(dims[..1]) == [1]
  {
    assert dims[..1][..0] == [];
  }

  lemma BufferStridesStep(ns: seq<int>, g: int, a: nat, i: nat, strides: seq<int>, f: int)
    requires a < |ns| && 1 <= i < |ns| && strides == Strides(ns[a := g][..i])
    requires f == if i == a + 1 then g else ns[i - 1]
    ensures Strides(ns[a := g][..i + 1]) == strides + [f * strides[i - 1]]
  {
    var dims := ns[a := g];
    StridesSnoc(dims, i);
    assert f == dims[i - 1];
  }

  /** getLocalDataForBuffer(ptr, side): the view is shifted so that its ghost layers of the
      given side fall on the slot that starts at ptr. */
  function BufferView(ptr: int, ns: seq<int>, g: int, side: nat, strides: seq<int>): (ld: LocalData)
    requires Axis(side) < |ns| && |strides| == |ns|
    ensures ld.strides == strides && ld.lengths == ns && ld.numGhostCells == g
  {
    var a := Axis(side);
    var start := if IsLower(side) then ptr - (-g) * strides[a] else ptr - ns[a] * strides[a];
    LocalData(start, strides, ns, g)
  }

  /** Where cell c of ghost layer k of the side sits inside the slot: the layer becomes
      plane g - k (lower side) or k - 1 (upper side) of the block. */
  function SlotCoord(ns: seq<int>, g: int, side: nat, c: seq<int>): seq<int>
    requires |c| == |ns| && Axis(side) < |ns|
  {
    var a := Axis(side);
    c[a := if IsLower(side) then c[a] + g else c[a] - ns[a]]
  }

  /** Each ghost cell of the side, seen through the buffer view, lies in the slot
      [ptr, ptr + ghost length) whose length is axis_ghost_lengths[axis]. */
  lemma BufferViewInSlot(ptr: int, ns: seq<int>, g: int, side: nat, k: int, c: seq<int>)
    requires |ns| >= 1 && Axis(side) < |ns| && 1 <= k <= g
    requires OnSlice(ns, side, k, c)
    ensures var dims := ns[Axis(side) := g];
      var ld := BufferView(ptr, ns, g, side, Strides(dims));
      && At(ld, c) == ptr + Offset(SlotCoord(ns, g, side, c), Strides(dims), 0)
      && ptr <= At(ld, c) < ptr + Prod(dims)
  {
    var a, dims := Axis(side), ns[Axis(side) := g];
    var st := Strides(dims);
    var c' := SlotCoord(ns, g, side, c);
    OffsetShift(c, st, a, c'[a]);
    var shift := if IsLower(side) then g else -ns[a];
    assert c'[a] - c[a] == shift;
    NegMul(if IsLower(side) then -g else ns[a], st[a]);
    assert BufferView(ptr, ns, g, side, st).start == ptr + shift * st[a];
    assert forall i :: 0 <= i < |c'| ==> 0 <= c'[i] + 0 < dims[i];
    OffsetBoundsPrefix(c', dims, 0);
  }

  /** Distinct ghost cells of the side are distinct entries of the slot. */
  lemma BufferViewInjective(ptr: int, ns: seq<int>, g: int, side: nat, k1: int, c1: seq<int>, k2: int, c2: seq<int>)
    requires |ns| >= 1 && Axis(side) < |ns| && 1 <= k1 <= g && 1 <= k2 <= g
    requires OnSlice(ns, side, k1, c1) && OnSlice(ns, side, k2, c2)
    requires var ld := BufferView(ptr, ns, g, side, Strides(ns[Axis(side) := g]));
      At(ld, c1) == At(ld, c2)
    ensures k1 == k2 && c1 == c2
  {
    var a, dims := Axis(side), ns[Axis(side) := g];
    BufferViewInSlot(ptr, ns, g, side, k1, c1);
    BufferViewInSlot(ptr, ns, g, side, k2, c2);
    var d1, d2 := SlotCoord(ns, g, side, c1), SlotCoord(ns, g, side, c2);
    OffsetInjectivePrefix(d1, d2, dims, 0);
    assert d1[a] == d2[a];
    assert c1 == c2 by {
      forall i | 0 <= i < |c1|
        ensures c1[i] == c2[i]
      {
        assert d1[i] == d2[i];
      }
    }
  }

  // ---------------------------------------------------------------------------
  // Patch views of the vector (two dimensions: fillGhost's zeroing loop hard-codes
  // LocalData<2> and Side<2>)

  /** The view of a patch through getLocalData addresses its cell c at the cell's place in
      the patch's block. */
  lemma ViewAt(w: VecWrapper, li: int, c: seq<int>)
    requires w.Valid() && |c| == |w.lengths|
    ensures At(w.GetLocalData(li), c) == Address(w.patchStride, li, c, w.strides, w.numGhostCells)
  {
    OffsetSplit(c, w.strides, w.numGhostCells);
  }

  /** Every cell of a local patch of the vector is an entry of its local array. */
  lemma ViewInArray(w: VecWrapper, li: int, c: seq<int>)
    requires w.Valid() && 0 <= li < w.numLocalPatches && InPatch(c, w.lengths, w.numGhostCells)
    ensures 0 <= At(w.GetLocalData(li), c) < w.localSize
  {
    ViewAt(w, li, c);
    AddressInBlock(w.lengths, w.numGhostCells, li, c);
    MulMono(0, li, w.patchStride);
    MulMono(li + 1, w.numLocalPatches, w.patchStride);
  }

  /** Two cells of local patches at the same entry are the same cell of the same patch. */
  lemma ViewInjective(w: VecWrapper, li1: int, c1: seq<int>, li2: int, c2: seq<int>)
    requires w.Valid() && InPatch(c1, w.lengths, w.numGhostCells) && InPatch(c2, w.lengths, w.numGhostCells)
    requires At(w.GetLocalData(li1), c1) == At(w.GetLocalData(li2), c2)
    ensures li1 == li2 && c1 == c2
  {
    ViewAt(w, li1, c1);
    ViewAt(w, li2, c2);
    AddressInjective(w.lengths, w.numGhostCells, li1, c1, li2, c2);
  }

  /** Cell j of ghost layer k of side s of a two-dimensional patch. */
  function Cell2(ns: seq<int>, s: nat, k: int, j: int): (c: seq<int>)
    requires |ns| == 2 && s < 4
    ensures |c| == 2
  {
    if Axis(s) == 0 then [LayerCoord(ns, s, k), j] else [j, LayerCoord(ns, s, k)]
  }

  /** The number of cells of a ghost layer of side s: the extent of the other axis. */
  function Run(ns: seq<int>, s: nat): int
    requires |ns| == 2 && s < 4
  {
    ns[1 - Axis(s)]
  }

  lemma Cell2OnSlice(ns: seq<int>, g: int, s: nat, k: int, j: int)
    requires |ns| == 2 && ns[0] >= 1 && ns[1] >= 1 && s < 4 && 1 <= k <= g && 0 <= j < Run(ns, s)
    ensures InPatch(Cell2(ns, s, k, j), ns, g) && OnSlice(ns, s, k, Cell2(ns, s, k, j))
  {
    var c := Cell2(ns, s, k, j);
    if Axis(s) == 0 {
      assert c[1] == j && -g <= c[0] < ns[0] + g;
    } else {
      assert c[0] == j && -g <= c[1] < ns[1] + g;
    }
  }

  /** Distinct ghost cells of local patches are distinct entries. */
  lemma Cell2Injective(w: VecWrapper, li1: int, s1: nat, k1: int, j1: int, li2: int, s2: nat, k2: int, j2: int)
    requires w.Valid() && |w.lengths| == 2 && s1 < 4 && s2 < 4
    requires 1 <= k1 <= w.numGhostCells && 0 <= j1 < Run(w.lengths, s1)
    requires 1 <= k2 <= w.numGhostCells && 0 <= j2 < Run(w.lengths, s2)
    ensures At(w.GetLocalData(li1), Cell2(w.lengths, s1, k1, j1)) == At(w.GetLocalData(li2), Cell2(w.lengths, s2, k2, j2))
        <==> li1 == li2 && s1 == s2 && k1 == k2 && j1 == j2
  {
    var c1, c2 := Cell2(w.lengths, s1, k1, j1), Cell2(w.lengths, s2, k2, j2);
    Cell2OnSlice(w.lengths, w.numGhostCells, s1, k1, j1);
    Cell2OnSlice(w.lengths, w.numGhostCells, s2, k2, j2);
    SidesApart(w.lengths, w.numGhostCells, s1, k1, j1, s2, k2, j2);
    if At(w.GetLocalData(li1), c1) == At(w.GetLocalData(li2), c2) {
      ViewInjective(w, li1, c1, li2, c2);
    }
  }

  /** Ghost layers of different sides do not meet: the corner cells belong to none. */
  lemma SidesApart(ns: seq<int>, g: int, s1: nat, k1: int, j1: int, s2: nat, k2: int, j2: int)
    requires |ns| == 2 && ns[0] >= 1 && ns[1] >= 1 && s1 < 4 && s2 < 4
    requires 1 <= k1 <= g && 0 <= j1 < Run(ns, s1) && 1 <= k2 <= g && 0 <= j2 < Run(ns, s2)
    ensures Cell2(ns, s1, k1, j1) == Cell2(ns, s2, k2, j2) <==> s1 == s2 && k1 == k2 && j1 == j2
  {
    var c1, c2 := Cell2(ns, s1, k1, j1), Cell2(ns, s2, k2, j2);
    assert c1 == c2 <==> c1[0] == c2[0] && c1[1] == c2[1];
  }

  /** A two-dimensional vector layout whose local patches include those listed. */
  ghost predicate Fits2(w: VecWrapper, u: array<real>)
  {
    w.Valid() && |w.lengths| == 2 && u.Length == w.localSize
  }

  // ---------------------------------------------------------------------------
  // Zeroing the ghost layers

  /** The entries of cells 0..n-1 of ghost layer k of side s of local patch li. */
  ghost function SliceSet(w: VecWrapper, li: int, s: nat, k: int, n: int): set<int>
    requires |w.lengths| == 2 && |w.strides| == 2 && s < 4
  {
    set j | 0 <= j < n :: At(w.GetLocalData(li), Cell2(w.lengths, s, k, j))
  }

  /** The entries of ghost layers 1..m of side s of local patch li. */
  ghost function LayersSet(w: VecWrapper, li: int, s: nat, m: int): set<int>
    requires |w.lengths| == 2 && |w.strides| == 2 && s < 4
  {
    set k, j | 1 <= k <= m && 0 <= j < Run(w.lengths, s) :: At(w.GetLocalData(li), Cell2(w.lengths, s, k, j))
  }

  /** The entries of the ghost layers of sides 0..m-1 of pi that have a neighbour. */
  ghost function PatchGhostSet(w: VecWrapper, pi: PatchInfo, m: nat): set<int>
    requires |w.lengths| == 2 && |w.strides| == 2 && m <= 4
  {
    set s, k, j | 0 <= s < m && s in pi.nbrs && 1 <= k <= w.numGhostCells && 0 <= j < Run(w.lengths, s)
      :: At(w.GetLocalData(pi.localIndex), Cell2(w.lengths, s, k, j))
  }

  /** The entries fillGhost zeroes for patches 0..m-1. */
  ghost function ZeroSet(w: VecWrapper, patches: seq<PatchInfo>, m: nat): set<int>
    requires |w.lengths| == 2 && |w.strides| == 2 && m <= |patches|
  {
    set q, s, k, j | 0 <= q < m && 0 <= s < 4 && s in patches[q].nbrs && 1 <= k <= w.numGhostCells && 0 <= j < Run(w.lengths, s)
      :: At(w.GetLocalData(patches[q].localIndex), Cell2(w.lengths, s, k, j))
  }

  lemma SliceSetStep(w: VecWrapper, li: int, s: nat, k: int, j: int)
    requires |w.lengths| == 2 && |w.strides| == 2 && s < 4 && 0 <= j
    ensures SliceSet(w, li, s, k, j + 1) == SliceSet(w, li, s, k, j) + {At(w.GetLocalData(li), Cell2(w.lengths, s, k, j))}
  {
  }

  lemma LayersSetStep(w: VecWrapper, li: int, s: nat, k: int)
    requires |w.lengths| == 2 && |w.strides| == 2 && s < 4 && 0 <= k
    ensures LayersSet(w, li, s, k + 1) == LayersSet(w, li, s, k) + SliceSet(w, li, s, k + 1, Run(w.lengths, s))
  {
    var A, B := LayersSet(w, li, s, k + 1), LayersSet(w, li, s, k) + SliceSet(w, li, s, k + 1, Run(w.lengths, s));
    forall x | x in A
      ensures x in B
    {
      var k', j :| 1 <= k' <= k + 1 && 0 <= j < Run(w.lengths, s) && x == At(w.GetLocalData(li), Cell2(w.lengths, s, k', j));
      if k' <= k {
        assert x in LayersSet(w, li, s, k);
      } else {
        assert x in SliceSet(w, li, s, k + 1, Run(w.lengths, s));
      }
    }
  }

  lemma PatchGhostSetStep(w: VecWrapper, pi: PatchInfo, s: nat)
    requires |w.lengths| == 2 && |w.strides| == 2 && s < 4
    ensures PatchGhostSet(w, pi, s + 1)
         == PatchGhostSet(w, pi, s) + (if s in pi.nbrs then LayersSet(w, pi.localIndex, s, w.numGhostCells) else {})
  {
    var A := PatchGhostSet(w, pi, s + 1);
    var B := PatchGhostSet(w, pi, s) + (if s in pi.nbrs then LayersSet(w, pi.localIndex, s, w.numGhostCells) else {});
    forall x | x in A
      ensures x in B
    {
      var s', k, j :| 0 <= s' < s + 1 && s' in pi.nbrs && 1 <= k <= w.numGhostCells && 0 <= j < Run(w.lengths, s')
                      && x == At(w.GetLocalData(pi.localIndex), Cell2(w.lengths, s', k, j));
      if s' < s {
        assert x in PatchGhostSet(w, pi, s);
      } else {
        assert x in LayersSet(w, pi.localIndex, s, w.numGhostCells);
      }
    }
    forall x | x in B
      ensures x in A
    {
      if x !in PatchGhostSet(w, pi, s) {
        var k, j :| 1 <= k <= w.numGhostCells && 0 <= j < Run(w.lengths, s)
                    && x == At(w.GetLocalData(pi.localIndex), Cell2(w.lengths, s, k, j));
      }
    }
  }

  lemma ZeroSetStep(w: VecWrapper, patches: seq<PatchInfo>, q: nat)
    requires |w.lengths| == 2 && |w.strides| == 2 && q < |patches|
    ensures ZeroSet(w, patches, q + 1) == ZeroSet(w, patches, q) + PatchGhostSet(w, patches[q], 4)
  {
    ZeroSetGrows(w, patches, q);
    ZeroSetShrinks(w, patches, q);
  }

  lemma ZeroSetShrinks(w: VecWrapper, patches: seq<PatchInfo>, q: nat)
    requires |w.lengths| == 2 && |w.strides| == 2 && q < |patches|
    ensures ZeroSet(w, patches, q + 1) <= ZeroSet(w, patches, q) + PatchGhostSet(w, patches[q], 4)
  {
    forall x | x in ZeroSet(w, patches, q + 1)
      ensures x in ZeroSet(w, patches, q) + PatchGhostSet(w, patches[q], 4)
    {
      var q', s, k, j :| 0 <= q' < q + 1 && 0 <= s < 4 && s in patches[q'].nbrs && 1 <= k <= w.numGhostCells
                         && 0 <= j < Run(w.lengths, s)
                         && x == At(w.GetLocalData(patches[q'].localIndex), Cell2(w.lengths, s, k, j));
      if q' < q {
        assert x in ZeroSet(w, patches, q);
      } else {
        assert x in PatchGhostSet(w, patches[q], 4);
      }
    }
  }

  lemma ZeroSetGrows(w: VecWrapper, patches: seq<PatchInfo>, q: nat)
    requires |w.lengths| == 2 && |w.strides| == 2 && q < |patches|
    ensures ZeroSet(w, patches, q) + PatchGhostSet(w, patches[q], 4) <= ZeroSet(w, patches, q + 1)
  {
    forall x | x in ZeroSet(w, patches, q) + PatchGhostSet(w, patches[q], 4)
      ensures x in ZeroSet(w, patches, q + 1)
    {
      if x !in ZeroSet(w, patches, q) {
        var s, k, j :| 0 <= s < 4 && s in patches[q].nbrs && 1 <= k <= w.numGhostCells && 0 <= j < Run(w.lengths, s)
                       && x == At(w.GetLocalData(patches[q].localIndex), Cell2(w.lengths, s, k, j));
      }
    }
  }

  /** this_ghost[coord] = 0 over ghost layer k of side s of local patch li. */
  method ZeroSlice(u: array<real>, w: VecWrapper, li: int, s: nat, k: int)
    modifies u
    requires Fits2(w, u) && s < 4 && 1 <= k <= w.numGhostCells && 0 <= li < w.numLocalPatches
    ensures forall i :: 0 <= i < u.Length ==>
              u[i] == if i in SliceSet(w, li, s, k, Run(w.lengths, s)) then 0.0 else old(u[i])
  {
    var ld := w.GetLocalData(li);
    var n := Run(w.lengths, s);
    var j := 0;
    while j < n
      invariant 0 <= j <= n
      invariant forall i :: 0 <= i < u.Length ==> u[i] == if i in SliceSet(w, li, s, k, j) then 0.0 else old(u[i])
    {
      var c := Cell2(w.lengths, s, k, j);
      Cell2OnSlice(w.lengths, w.numGhostCells, s, k, j);
      ViewInArray(w, li, c);
      u[At(ld, c)] := 0.0;
      SliceSetStep(w, li, s, k, j);
      j := j + 1;
    }
  }

  /** The layers 1..g of side s of local patch li. */
  method ZeroSide(u: array<real>, w: VecWrapper, li: int, s: nat)
    modifies u
    requires Fits2(w, u) && s < 4 && 0 <= li < w.numLocalPatches
    ensures forall i :: 0 <= i < u.Length ==>
              u[i] == if i in LayersSet(w, li, s, w.numGhostCells) then 0.0 else old(u[i])
  {
    var k := 0;
    while k < w.numGhostCells
      invariant 0 <= k <= w.numGhostCells
      invariant forall i :: 0 <= i < u.Length ==> u[i] == if i in LayersSet(w, li, s, k) then 0.0 else old(u[i])
    {
      ZeroSlice(u, w, li, s, k + 1);
      LayersSetStep(w, li, s, k);
      k := k + 1;
    }
  }

  /** Every side of pi that has a neighbour. */
  method ZeroPatch(u: array<real>, w: VecWrapper, pi: PatchInfo)
    modifies u
    requires Fits2(w, u) && 0 <= pi.localIndex < w.numLocalPatches
    ensures forall i :: 0 <= i < u.Length ==>
              u[i] == if i in PatchGhostSet(w, pi, 4) then 0.0 else old(u[i])
  {
    var s := 0;
    while s < 4
      invariant 0 <= s <= 4
      invariant forall i :: 0 <= i < u.Length ==> u[i] == if i in PatchGhostSet(w, pi, s) then 0.0 else old(u[i])
    {
      if s in pi.nbrs {
        ZeroSide(u, w, pi.localIndex, s);
      }
      PatchGhostSetStep(w, pi, s);
      s := s + 1;
    }
  }

  /** Every patch's local index names a local patch of the vector. */
  predicate LocalIndexesFit(w: VecWrapper, patches: seq<PatchInfo>)
  {
    forall q :: 0 <= q < |patches| ==> 0 <= patches[q].localIndex < w.numLocalPatches
  }

  /** The first loop of fillGhost: zero the ghost layers of every side with a neighbour. */
  method ZeroGhosts(u: array<real>, w: VecWrapper, patches: seq<PatchInfo>)
    modifies u
    requires Fits2(w, u) && LocalIndexesFit(w, patches)
    ensures forall i :: 0 <= i < u.Length ==>
              u[i] == if i in ZeroSet(w, patches, |patches|) then 0.0 else old(u[i])
  {
    var q := 0;
    while q < |patches|
      invariant 0 <= q <= |patches|
      invariant forall i :: 0 <= i < u.Length ==> u[i] == if i in ZeroSet(w, patches, q) then 0.0 else old(u[i])
    {
      ZeroPatch(u, w, patches[q]);
      ZeroSetStep(w, patches, q);
      q := q + 1;
    }
  }

  /** c lies on one of the g ghost layers of side s of a two-dimensional patch. */
  predicate OnLayers(ns: seq<int>, g: int, s: nat, c: seq<int>)
    requires |ns| == 2 && |c| == 2 && s < 4
  {
    var a := Axis(s);
    && 0 <= c[1 - a] < ns[1 - a]
    && if IsLower(s) then -g <= c[a] <= -1 else ns[a] <= c[a] < ns[a] + g
  }

  /** c lies on a ghost layer of a side of pi that has a neighbour. */
  ghost predicate OnNbrLayer(pi: PatchInfo, ns: seq<int>, g: int, c: seq<int>)
    requires |ns| == 2 && |c| == 2
  {
    exists s :: 0 <= s < 4 && s in pi.nbrs && OnLayers(ns, g, s, c)
  }

  /** Different patches have different local indexes. */
  predicate DistinctLocalIndexes(patches: seq<PatchInfo>)
  {
    forall q1, q2 :: 0 <= q1 < |patches| && 0 <= q2 < |patches| && patches[q1].localIndex == patches[q2].localIndex ==> q1 == q2
  }

  /** The zeroing step zeroes exactly the ghost layers of the sides that have a neighbour:
      interior cells, corner ghost cells and the ghost cells of sides without a neighbour
      keep their values. */
  lemma ZeroedCells(w: VecWrapper, patches: seq<PatchInfo>, q: nat, c: seq<int>)
    requires w.Valid() && |w.lengths| == 2 && LocalIndexesFit(w, patches) && DistinctLocalIndexes(patches)
    requires q < |patches| && InPatch(c, w.lengths, w.numGhostCells)
    ensures At(w.GetLocalData(patches[q].localIndex), c) in ZeroSet(w, patches, |patches|)
        <==> OnNbrLayer(patches[q], w.lengths, w.numGhostCells, c)
  {
    if At(w.GetLocalData(patches[q].localIndex), c) in ZeroSet(w, patches, |patches|) {
      ZeroedOnlyNbrLayers(w, patches, q, c);
    }
    if OnNbrLayer(patches[q], w.lengths, w.numGhostCells, c) {
      NbrLayersZeroed(w, patches, q, c);
    }
  }

  lemma ZeroedOnlyNbrLayers(w: VecWrapper, patches: seq<PatchInfo>, q: nat, c: seq<int>)
    requires w.Valid() && |w.lengths| == 2 && DistinctLocalIndexes(patches)
    requires q < |patches| && InPatch(c, w.lengths, w.numGhostCells)
    requires At(w.GetLocalData(patches[q].localIndex), c) in ZeroSet(w, patches, |patches|)
    ensures OnNbrLayer(patches[q], w.lengths, w.numGhostCells, c)
  {
    var ns, g := w.lengths, w.numGhostCells;
    var x := At(w.GetLocalData(patches[q].localIndex), c);
    var q', s, k, j :| 0 <= q' < |patches| && 0 <= s < 4 && s in patches[q'].nbrs && 1 <= k <= g
                       && 0 <= j < Run(ns, s) && x == At(w.GetLocalData(patches[q'].localIndex), Cell2(ns, s, k, j));
    Cell2OnSlice(ns, g, s, k, j);
    ViewInjective(w, patches[q'].localIndex, Cell2(ns, s, k, j), patches[q].localIndex, c);
    assert OnLayers(ns, g, s, c);
  }

  lemma NbrLayersZeroed(w: VecWrapper, patches: seq<PatchInfo>, q: nat, c: seq<int>)
    requires |w.lengths| == 2 && |w.strides| == 2
    requires q < |patches| && |c| == 2 && OnNbrLayer(patches[q], w.lengths, w.numGhostCells, c)
    ensures At(w.GetLocalData(patches[q].localIndex), c) in ZeroSet(w, patches, |patches|)
  {
    var ns, g := w.lengths, w.numGhostCells;
    var s :| 0 <= s < 4 && s in patches[q].nbrs && OnLayers(ns, g, s, c);
    var a := Axis(s);
    var k := if IsLower(s) then -c[a] else c[a] - ns[a] + 1;
    var j := c[1 - a];
    assert c == Cell2(ns, s, k, j);
  }

  // ---------------------------------------------------------------------------
  // Adding the received ghost values

  /** The entry of cell j of ghost layer k of side s of local patch li. */
  function LayerEntry(w: VecWrapper, li: int, s: nat, k: int, j: int): (x: int)
    requires w.Valid() && |w.lengths| == 2 && s < 4 && 0 <= li < w.numLocalPatches
    requires 1 <= k <= w.numGhostCells && 0 <= j < Run(w.lengths, s)
    ensures 0 <= x < w.localSize
  {
    Cell2OnSlice(w.lengths, w.numGhostCells, s, k, j);
    ViewInArray(w, li, Cell2(w.lengths, s, k, j));
    At(w.GetLocalData(li), Cell2(w.lengths, s, k, j))
  }

  /** The buffer entry that getLocalDataForBuffer(ptr, s) gives cell j of ghost layer k of
      side s: an entry of the slot [ptr, ptr + ghost length). */
  function SlotEntry(ptr: int, ns: seq<int>, g: int, s: nat, k: int, j: int): (x: int)
    requires |ns| == 2 && ns[0] >= 1 && ns[1] >= 1 && s < 4 && 1 <= k <= g && 0 <= j < Run(ns, s)
    ensures ptr <= x < ptr + Prod(ns[Axis(s) := g])
  {
    Cell2OnSlice(ns, g, s, k, j);
    BufferViewInSlot(ptr, ns, g, s, k, Cell2(ns, s, k, j));
    At(BufferView(ptr, ns, g, s, Strides(ns[Axis(s) := g])), Cell2(ns, s, k, j))
  }

  /** local_slice[coord] += buffer_slice[coord] over ghost layer k of side s of local patch
      li, reading the buffer through the view that starts at ptr. */
  method AddSlice(u: array<real>, w: VecWrapper, li: int, buf: array<real>, ptr: int, bld: LocalData, s: nat, k: int)
    modifies u
    requires u != buf && Fits2(w, u) && s < 4 && 1 <= k <= w.numGhostCells && 0 <= li < w.numLocalPatches
    requires bld == BufferView(ptr, w.lengths, w.numGhostCells, s, Strides(w.lengths[Axis(s) := w.numGhostCells]))
    requires 0 <= ptr && ptr + Prod(w.lengths[Axis(s) := w.numGhostCells]) <= buf.Length
    ensures forall j :: 0 <= j < Run(w.lengths, s) ==>
              u[LayerEntry(w, li, s, k, j)]
              == old(u[LayerEntry(w, li, s, k, j)]) + buf[SlotEntry(ptr, w.lengths, w.numGhostCells, s, k, j)]
    ensures forall i :: 0 <= i < u.Length && i !in SliceSet(w, li, s, k, Run(w.lengths, s)) ==> u[i] == old(u[i])
  {
    var ld := w.GetLocalData(li);
    var n := Run(w.lengths, s);
    var j := 0;
    while j < n
      invariant 0 <= j <= n
      invariant forall j' :: 0 <= j' < j ==>
                  u[LayerEntry(w, li, s, k, j')]
                  == old(u[LayerEntry(w, li, s, k, j')]) + buf[SlotEntry(ptr, w.lengths, w.numGhostCells, s, k, j')]
      invariant forall i :: 0 <= i < u.Length && i !in SliceSet(w, li, s, k, j) ==> u[i] == old(u[i])
    {
      var c := Cell2(w.lengths, s, k, j);
      var x := At(ld, c);
      assert x == LayerEntry(w, li, s, k, j);
      assert At(bld, c) == SlotEntry(ptr, w.lengths, w.numGhostCells, s, k, j);
      NextInSlice(w, li, s, k, j);
      u[x] := u[x] + buf[At(bld, c)];
      SliceSetStep(w, li, s, k, j);
      j := j + 1;
    }
  }

  /** The body of the receive loop for one element (local index, side, offset) of
      incoming_ghosts: the g layers of the side get the slot's values added. */
  method AddIncoming(u: array<real>, w: VecWrapper, buf: array<real>, e: IncomingGhost)
    modifies u
    requires u != buf && Fits2(w, u) && e.side < 4 && 0 <= e.localIndex < w.numLocalPatches
    requires 0 <= e.offset && e.offset + Prod(w.lengths[Axis(e.side) := w.numGhostCells]) <= buf.Length
    ensures forall k, j :: 1 <= k <= w.numGhostCells && 0 <= j < Run(w.lengths, e.side) ==>
              u[LayerEntry(w, e.localIndex, e.side, k, j)]
              == old(u[LayerEntry(w, e.localIndex, e.side, k, j)])
                 + buf[SlotEntry(e.offset, w.lengths, w.numGhostCells, e.side, k, j)]
    ensures forall i :: 0 <= i < u.Length && i !in LayersSet(w, e.localIndex, e.side, w.numGhostCells) ==> u[i] == old(u[i])
  {
    var ns, g, li, s := w.lengths, w.numGhostCells, e.localIndex, e.side;
    var st := BufferStrides(ns, g, s);
    var bld := BufferView(e.offset, ns, g, s, st);
    var ig := 0;
    while ig < g
      invariant 0 <= ig <= g
      invariant forall k, j :: 1 <= k <= ig && 0 <= j < Run(ns, s) ==>
                  u[LayerEntry(w, li, s, k, j)] == old(u[LayerEntry(w, li, s, k, j)]) + buf[SlotEntry(e.offset, ns, g, s, k, j)]
      invariant forall i :: 0 <= i < u.Length && i !in LayersSet(w, li, s, ig) ==> u[i] == old(u[i])
    {
      LayerApart(w, li, s, ig, ig + 1);
      AddSlice(u, w, li, buf, e.offset, bld, s, ig + 1);
      LayersSetStep(w, li, s, ig);
      ig := ig + 1;
    }
  }

  /** Cell j of a layer is at none of the entries of cells 0..j-1. */
  lemma NextInSlice(w: VecWrapper, li: int, s: nat, k: int, j: int)
    requires w.Valid() && |w.lengths| == 2 && s < 4 && 0 <= li < w.numLocalPatches
    requires 1 <= k <= w.numGhostCells && 0 <= j < Run(w.lengths, s)
    ensures LayerEntry(w, li, s, k, j) !in SliceSet(w, li, s, k, j)
    ensures forall j' :: 0 <= j' < j ==> LayerEntry(w, li, s, k, j') != LayerEntry(w, li, s, k, j)
  {
    forall j' | 0 <= j' < j
      ensures LayerEntry(w, li, s, k, j') != LayerEntry(w, li, s, k, j)
    {
      Cell2Injective(w, li, s, k, j', li, s, k, j);
    }
    forall y | y in SliceSet(w, li, s, k, j)
      ensures y != LayerEntry(w, li, s, k, j)
    {
      var j' :| 0 <= j' < j && y == At(w.GetLocalData(li), Cell2(w.lengths, s, k, j'));
      assert y == LayerEntry(w, li, s, k, j');
    }
  }

  /** Layer k1 = m + 1 of a side shares no entry with layers 1..m. */
  lemma LayerApart(w: VecWrapper, li: int, s: nat, m: int, k1: int)
    requires w.Valid() && |w.lengths| == 2 && s < 4 && 0 <= li < w.numLocalPatches
    requires 0 <= m < w.numGhostCells && k1 == m + 1
    ensures forall k, j :: 1 <= k <= m && 0 <= j < Run(w.lengths, s) ==>
              LayerEntry(w, li, s, k, j) !in SliceSet(w, li, s, k1, Run(w.lengths, s))
    ensures forall j :: 0 <= j < Run(w.lengths, s) ==> LayerEntry(w, li, s, k1, j) !in LayersSet(w, li, s, m)
  {
    var n := Run(w.lengths, s);
    forall k, j, j' | 1 <= k <= m && 0 <= j < n && 0 <= j' < n
      ensures LayerEntry(w, li, s, k, j) != LayerEntry(w, li, s, k1, j')
    {
      Cell2Injective(w, li, s, k, j, li, s, k1, j');
    }
    forall y | y in SliceSet(w, li, s, k1, n)
      ensures exists j' :: 0 <= j' < n && y == LayerEntry(w, li, s, k1, j')
    {
      var j' :| 0 <= j' < n && y == At(w.GetLocalData(li), Cell2(w.lengths, s, k1, j'));
      assert y == LayerEntry(w, li, s, k1, j');
    }
    forall y | y in LayersSet(w, li, s, m)
      ensures exists k, j :: 1 <= k <= m && 0 <= j < n && y == LayerEntry(w, li, s, k, j)
    {
      var k, j :| 1 <= k <= m && 0 <= j < n && y == At(w.GetLocalData(li), Cell2(w.lengths, s, k, j));
      assert y == LayerEntry(w, li, s, k, j);
    }
  }
}
