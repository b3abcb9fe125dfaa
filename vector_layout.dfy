/**
 * Memory layout of patch data inside a PETSc vector, as computed by
 * ThunderEgg::PETSc::VecWrapper (patches padded with ghost cells) and
 * Thunderegg::PetscVector (no ghost cells), and the lock check of PetscLDM.
 *
 * A patch is a D-dimensional block of cells, `lengths[i]` cells along axis i, surrounded
 * on every side by `g` layers of ghost cells. Patches are stored one after the other; inside
 * a patch, axis 0 varies fastest. A cell is named by its coordinates c, with -g <= c[i] <
 * lengths[i] + g; the interior cells are 0 <= c[i] < lengths[i].
 */
module VectorLayout {
  import opened Wrappers
  import opened IntMath

  /** Product of the entries of s. */
  function Prod(s: seq<int>): int
  {
    if s == [] then 1 else Prod(s[..|s| - 1]) * s[|s| - 1]
  }

  /** The extent of each axis once g ghost layers are added on both sides. */
  function Padded(lengths: seq<int>, g: int): (dims: seq<int>)
    ensures |dims| == |lengths|
    ensures forall i :: 0 <= i < |lengths| ==> dims[i] == lengths[i] + 2 * g
  {
    seq(|lengths|, i requires 0 <= i < |lengths| => lengths[i] + 2 * g)
  }

  /** Row-major strides of a block with extents `dims`, axis 0 fastest: the stride of axis i
      is the product of the extents of the axes below it. */
  function Strides(dims: seq<int>): (st: seq<int>)
    ensures |st| == |dims|
  {
    seq(|dims|, i requires 0 <= i < |dims| => Prod(dims[..i]))
  }

  function Zeros(n: nat): (z: seq<int>)
    ensures |z| == n && forall i :: 0 <= i < n ==> z[i] == 0
  {
    seq(n, _ => 0)
  }

  /** Distance of cell c from the first (ghost) cell of its patch. */
  function Offset(c: seq<int>, st: seq<int>, g: int): int
    requires |c| == |st|
  {
    if c == [] then 0
    else Offset(c[..|c| - 1], st[..|st| - 1], g) + (c[|c| - 1] + g) * st[|st| - 1]
  }

  /** c names a cell (ghost cells included) of a patch with the given lengths. */
  ghost predicate InPatch(c: seq<int>, lengths: seq<int>, g: int)
  {
    |c| == |lengths| && forall i :: 0 <= i < |c| ==> -g <= c[i] < lengths[i] + g
  }

  /** The shapes the constructors accept: at least one axis, positive lengths, no negative
      ghost count (so that the patch stride is positive and the division by it is defined). */
  predicate ValidShape(lengths: seq<int>, g: int)
  {
    |lengths| >= 1 && g >= 0 && forall i :: 0 <= i < |lengths| ==> lengths[i] >= 1
  }

  // ---------------------------------------------------------------------------
  // Arithmetic helpers

  lemma ProdPositive(s: seq<int>)
    requires forall i :: 0 <= i < |s| ==> s[i] >= 1
    ensures Prod(s) >= 1
    decreases |s|
  {
    if s != [] {
      ProdPositive(s[..|s| - 1]);
      MulMono(1, s[|s| - 1], Prod(s[..|s| - 1]));
    }
  }

  lemma StridesPrefix(dims: seq<int>, k: nat)
    requires k <= |dims|
    ensures Strides(dims)[..k] == Strides(dims[..k])
  {
    forall i | 0 <= i < k
      ensures Strides(dims)[i] == Strides(dims[..k])[i]
    {
      assert dims[..k][..i] == dims[..i];
    }
  }

  lemma StridesSnoc(dims: seq<int>, k: nat)
    requires 1 <= k < |dims|
    ensures Strides(dims[..k + 1]) == Strides(dims[..k]) + [Strides(dims[..k])[k - 1] * dims[k - 1]]
  {
    var a, b := Strides(dims[..k + 1]), Strides(dims[..k]);
    assert dims[..k + 1][..k] == dims[..k];
    assert dims[..k][..k - 1] == dims[..k - 1];
    assert a[k] == Prod(dims[..k]) == Prod(dims[..k - 1]) * dims[k - 1];
    forall i | 0 <= i < k
      ensures a[i] == b[i]
    {
      assert dims[..k + 1][..i] == dims[..i] == dims[..k][..i];
    }
  }

  // ---------------------------------------------------------------------------
  // The layout of one patch

  /** Every cell of a patch, ghost cells included, lies inside the patch's block of
      Prod(dims) entries. */
  lemma {:induction false} OffsetBounds(c: seq<int>, lengths: seq<int>, g: int)
    requires ValidShape(lengths, g) && InPatch(c, lengths, g)
    ensures 0 <= Offset(c, Strides(Padded(lengths, g)), g) < Prod(Padded(lengths, g))
  {
    OffsetBoundsPrefix(c, Padded(lengths, g), g);
  }

  lemma {:induction false} OffsetBoundsPrefix(c: seq<int>, dims: seq<int>, g: int)
    requires |c| == |dims|
    requires forall i :: 0 <= i < |c| ==> 0 <= c[i] + g < dims[i]
    ensures 0 <= Offset(c, Strides(dims), g) < Prod(dims)
    decreases |c|
  {
    if c != [] {
      var k := |c| - 1;
      StridesPrefix(dims, k);
      OffsetBoundsPrefix(c[..k], dims[..k], g);
      var p := Prod(dims[..k]);
      assert Strides(dims)[k] == p;
      MulMono(0, c[k] + g, p);
      MulMono(c[k] + g + 1, dims[k], p);
      assert Prod(dims) == p * dims[k];
    }
  }

  /** Distinct cells of a patch are stored at distinct places. */
  lemma {:induction false} OffsetInjective(c1: seq<int>, c2: seq<int>, lengths: seq<int>, g: int)
    requires ValidShape(lengths, g) && InPatch(c1, lengths, g) && InPatch(c2, lengths, g)
    requires Offset(c1, Strides(Padded(lengths, g)), g) == Offset(c2, Strides(Padded(lengths, g)), g)
    ensures c1 == c2
  {
    OffsetInjectivePrefix(c1, c2, Padded(lengths, g), g);
  }

  lemma {:induction false} OffsetInjectivePrefix(c1: seq<int>, c2: seq<int>, dims: seq<int>, g: int)
    requires |c1| == |dims| && |c2| == |dims|
    requires forall i :: 0 <= i < |dims| ==> 0 <= c1[i] + g < dims[i] && 0 <= c2[i] + g < dims[i]
    requires Offset(c1, Strides(dims), g) == Offset(c2, Strides(dims), g)
    ensures c1 == c2
    decreases |dims|
  {
    if dims != [] {
      var k := |dims| - 1;
      StridesPrefix(dims, k);
      OffsetBoundsPrefix(c1[..k], dims[..k], g);
      OffsetBoundsPrefix(c2[..k], dims[..k], g);
      DivUnique(Offset(c1[..k], Strides(dims[..k]), g), c1[k] + g,
                Offset(c2[..k], Strides(dims[..k]), g), c2[k] + g, Prod(dims[..k]));
      OffsetInjectivePrefix(c1[..k], c2[..k], dims[..k], g);
      assert c1 == c1[..k] + [c1[k]] && c2 == c2[..k] + [c2[k]];
    }
  }

  /** The first interior cell (all coordinates 0) sits g layers in along every axis. */
  lemma FirstOffsetInside(lengths: seq<int>, g: int)
    requires ValidShape(lengths, g)
    ensures 0 <= Offset(Zeros(|lengths|), Strides(Padded(lengths, g)), g) < Prod(Padded(lengths, g))
  {
    OffsetBounds(Zeros(|lengths|), lengths, g);
  }

  lemma OffsetZerosSnoc(st: seq<int>, s: int, g: int)
    ensures Offset(Zeros(|st| + 1), st + [s], g) == Offset(Zeros(|st|), st, g) + g * s
  {
    assert Zeros(|st| + 1)[..|st|] == Zeros(|st|) && (st + [s])[..|st|] == st;
  }

  /** One turn of the constructor's loop appends the next stride and its ghost layers. */
  lemma LayoutStep(lengths: seq<int>, g: int, i: nat, strides: seq<int>)
    requires 1 <= i < |lengths| && strides == Strides(Padded(lengths, g)[..i])
    ensures Strides(Padded(lengths, g)[..i + 1]) == strides + [(lengths[i - 1] + 2 * g) * strides[i - 1]]
    ensures Offset(Zeros(i + 1), strides + [(lengths[i - 1] + 2 * g) * strides[i - 1]], g)
         == Offset(Zeros(i), strides, g) + g * ((lengths[i - 1] + 2 * g) * strides[i - 1])
  {
    var dims := Padded(lengths, g);
    var d, st := lengths[i - 1] + 2 * g, strides[i - 1];
    assert dims[i - 1] == d;
    StridesSnoc(dims, i);
    assert st * d == d * st;
    OffsetZerosSnoc(strides, d * st, g);
  }

  lemma LayoutStart(dims: seq<int>, g: int)
    requires |dims| >= 1
    ensures Strides(dims[..1]) == [1] && Offset(Zeros(1), [1], g) == g
  {
    assert dims[..1][..0] == [];
    assert Zeros(1)[..0] == [] && [1][..0] == [];
  }

  lemma ProdLast(dims: seq<int>)
    requires |dims| >= 1
    ensures Prod(dims) == Strides(dims)[|dims| - 1] * dims[|dims| - 1]
  {
  }

  /** The stride, first-offset and patch-stride loop of the VecWrapper constructor. With
      g = 0 it is also the loop of the PetscVector constructor. */
  method ComputeLayout(lengths: seq<int>, g: int) returns (strides: seq<int>, firstOffset: int, patchStride: int)
    requires |lengths| >= 1
    ensures strides == Strides(Padded(lengths, g))
    ensures firstOffset == Offset(Zeros(|lengths|), strides, g)
    ensures patchStride == Prod(Padded(lengths, g))
  {
    ghost var dims := Padded(lengths, g);
    strides := [1];
    firstOffset := g;
    LayoutStart(dims, g);
    var i := 1;
    while i < |lengths|
      invariant 1 <= i <= |lengths| && |strides| == i
      invariant strides == Strides(dims[..i])
      invariant firstOffset == Offset(Zeros(i), strides, g)
    {
      var s := (lengths[i - 1] + 2 * g) * strides[i - 1];
      LayoutStep(lengths, g, i, strides);
      strides := strides + [s];
      firstOffset := firstOffset + s * g;
      i := i + 1;
    }
    assert dims[..|lengths|] == dims;
    ProdLast(dims);
    patchStride := strides[|lengths| - 1] * (lengths[|lengths| - 1] + 2 * g);
  }

  /** The cell count of a patch, interior cells only (the second loop of the constructor). */
  method CellsInPatch(lengths: seq<int>) returns (n: int)
    ensures n == Prod(lengths)
  {
    n := 1;
    var i := 0;
    while i < |lengths|
      invariant 0 <= i <= |lengths|
      invariant n == Prod(lengths[..i])
    {
      assert lengths[..i + 1][..i] == lengths[..i];
      n := n * lengths[i];
      i := i + 1;
    }
    assert lengths[..|lengths|] == lengths;
  }

  // ---------------------------------------------------------------------------
  // Vectors

  /** The view getLocalData hands out: where the patch's first interior cell is, and how to
      step along each axis. */
  datatype LocalData = LocalData(start: int, strides: seq<int>, lengths: seq<int>, numGhostCells: int)

  /** Position of cell c of patch p in the vector's local array. */
  function Address(ps: int, p: int, c: seq<int>, st: seq<int>, g: int): int
    requires |c| == |st|
  {
    ps * p + Offset(c, st, g)
  }

  /** Cells of different patches, or different cells of one patch, never share an entry, and
      the cells of patch p fill the entries [p ps, (p+1) ps). */
  lemma AddressInjective(lengths: seq<int>, g: int, p1: int, c1: seq<int>, p2: int, c2: seq<int>)
    requires ValidShape(lengths, g) && InPatch(c1, lengths, g) && InPatch(c2, lengths, g)
    requires Address(Prod(Padded(lengths, g)), p1, c1, Strides(Padded(lengths, g)), g)
          == Address(Prod(Padded(lengths, g)), p2, c2, Strides(Padded(lengths, g)), g)
    ensures p1 == p2 && c1 == c2
  {
    var ps, st := Prod(Padded(lengths, g)), Strides(Padded(lengths, g));
    OffsetBounds(c1, lengths, g);
    OffsetBounds(c2, lengths, g);
    DivUnique(Offset(c1, st, g), p1, Offset(c2, st, g), p2, ps);
    OffsetInjective(c1, c2, lengths, g);
  }

  lemma AddressInBlock(lengths: seq<int>, g: int, p: int, c: seq<int>)
    requires ValidShape(lengths, g) && InPatch(c, lengths, g)
    ensures var ps := Prod(Padded(lengths, g));
      ps * p <= Address(ps, p, c, Strides(Padded(lengths, g)), g) < ps * (p + 1)
  {
    OffsetBounds(c, lengths, g);
  }

  /** The number of whole patches in a local array of `size` entries, as the constructors
      compute it: all of them fit, and one more would not. */
  function NumPatches(size: nat, ps: int): (n: nat)
    requires ps >= 1
    ensures n * ps <= size < (n + 1) * ps
  {
    size / ps
  }

  /** A vector made for k patches (GetNewVector allocates k patch strides) holds k patches. */
  lemma NumPatchesExact(k: nat, ps: int)
    requires ps >= 1
    ensures NumPatches(k * ps, ps) == k
  {
    var n := NumPatches(k * ps, ps);
    DivUnique(k * ps - n * ps, n, 0, k, ps);
  }

  class VecWrapper {
    const localSize: nat
    const lengths: seq<int>
    const numGhostCells: int
    const strides: seq<int>
    const firstOffset: int
    const patchStride: int
    const numLocalPatches: nat
    const numLocalCells: int

    /** VecWrapper(vec, lengths, num_ghost_cells, own) on a vector whose local part has
        `localSize` entries. */
    constructor (localSize: nat, lengths: seq<int>, numGhostCells: int)
      requires ValidShape(lengths, numGhostCells)
      ensures this.localSize == localSize && this.lengths == lengths && this.numGhostCells == numGhostCells
      ensures Valid()
      ensures strides == Strides(Padded(lengths, numGhostCells))
      ensures firstOffset == Offset(Zeros(|lengths|), strides, numGhostCells)
      ensures patchStride == Prod(Padded(lengths, numGhostCells)) >= 1
      ensures numLocalPatches == NumPatches(localSize, patchStride)
      ensures numLocalCells == numLocalPatches * Prod(lengths)
    {
      this.localSize := localSize;
      this.lengths := lengths;
      this.numGhostCells := numGhostCells;
      var st, fo, ps := ComputeLayout(lengths, numGhostCells);
      ProdPositive(Padded(lengths, numGhostCells));
      var cells := CellsInPatch(lengths);
      strides, firstOffset, patchStride := st, fo, ps;
      numLocalPatches := localSize / ps;
      numLocalCells := localSize / ps * cells;
    }

    /** What the constructor establishes about the layout fields. */
    ghost predicate Valid()
    {
      && ValidShape(lengths, numGhostCells)
      && strides == Strides(Padded(lengths, numGhostCells))
      && firstOffset == Offset(Zeros(|lengths|), strides, numGhostCells)
      && patchStride == Prod(Padded(lengths, numGhostCells))
      && patchStride >= 1
      && numLocalPatches == NumPatches(localSize, patchStride)
    }

    /** getLocalData(i): the view starts at the first interior cell of patch i. */
    function GetLocalData(patch: int): (d: LocalData)
      ensures d.strides == strides && d.lengths == lengths && d.numGhostCells == numGhostCells
      ensures d.start == patchStride * patch + firstOffset
    {
      LocalData(patchStride * patch + firstOffset, strides, lengths, numGhostCells)
    }
  }

  /** The view of patch p starts inside p's block, at the entry of its first interior cell. */
  lemma LocalDataInBlock(w: VecWrapper, p: int)
    requires w.Valid()
    ensures w.GetLocalData(p).start
         == Address(w.patchStride, p, Zeros(|w.lengths|), w.strides, w.numGhostCells)
    ensures w.patchStride * p <= w.GetLocalData(p).start < w.patchStride * (p + 1)
  {
    AddressInBlock(w.lengths, w.numGhostCells, p, Zeros(|w.lengths|));
  }

  /** GetNewBCVector: a (D-1)-dimensional VecWrapper on the first D-1 patch extents, without
      ghost cells, over a local array of numLocalBCCells entries (the domain's count of
      boundary cells, which is not part of this model). */
  method NewBCVector(ns: seq<int>, numLocalBCCells: nat) returns (w: VecWrapper)
    requires |ns| >= 2 && ValidShape(ns[..|ns| - 1], 0)
    ensures w.lengths == ns[..|ns| - 1] && w.numGhostCells == 0 && w.localSize == numLocalBCCells
    ensures w.Valid()
    ensures w.strides == Strides(ns[..|ns| - 1])
    ensures w.firstOffset == 0
    ensures w.patchStride == Prod(ns[..|ns| - 1])
    ensures w.numLocalCells == w.numLocalPatches * w.patchStride
  {
    var bcNs := [];
    for i := 0 to |ns| - 1
      invariant bcNs == ns[..i]
    {
      bcNs := bcNs + [ns[i]];
    }
    GhostFreeLayout(bcNs);
    w := new VecWrapper(numLocalBCCells, bcNs, 0);
  }

  /** In a vector without ghost cells, such as the boundary vector, the view of patch p starts
      at the first entry of p's block, and the block holds exactly the patch's cells. */
  lemma GhostFreeLocalData(w: VecWrapper, p: int)
    requires w.Valid() && w.numGhostCells == 0
    ensures w.GetLocalData(p).start == w.patchStride * p
    ensures w.patchStride == Prod(w.lengths)
  {
    GhostFreeLayout(w.lengths);
  }

  /** Without ghost cells the padded extents are the lengths themselves, so the boundary
      vector is laid out exactly as a PetscVector on the same lengths: its first interior
      cell is the first entry of the patch. */
  lemma GhostFreeLayout(lengths: seq<int>)
    requires ValidShape(lengths, 0)
    ensures Padded(lengths, 0) == lengths
    ensures Offset(Zeros(|lengths|), Strides(lengths), 0) == 0
  {
    ZeroOffset(Zeros(|lengths|), Strides(lengths));
  }

  lemma {:induction false} ZeroOffset(c: seq<int>, st: seq<int>)
    requires |c| == |st| && forall i :: 0 <= i < |c| ==> c[i] == 0
    ensures Offset(c, st, 0) == 0
    decreases |c|
  {
    if c != [] {
      ZeroOffset(c[..|c| - 1], st[..|st| - 1]);
    }
  }

  // ---------------------------------------------------------------------------
  // PetscVector and its lock check

  /** The part of a PETSc Vec the model needs: its local size and its lock state. */
  class PetscVec {
    const localSize: nat
    var lockState: int

    constructor (localSize: nat)
      ensures this.localSize == localSize && lockState == 0
    {
      this.localSize := localSize;
      lockState := 0;
    }
  }

  datatype LockError = VectorLocked(state: int)

  /** PetscLDM: access to a vector's array; write access is refused while the vector is
      locked, read-only access is always granted. */
  class PetscLDM {
    const vec: PetscVec
    const isReadOnly: bool

    constructor Open(vec: PetscVec, isReadOnly: bool)
      ensures this.vec == vec && this.isReadOnly == isReadOnly
    {
      this.vec := vec;
      this.isReadOnly := isReadOnly;
    }
  }

  method NewPetscLDM(vec: PetscVec, isReadOnly: bool) returns (r: Result<PetscLDM, LockError>)
    ensures r.Err? <==> !isReadOnly && vec.lockState != 0
    ensures r.Err? ==> r.error == VectorLocked(vec.lockState)
    ensures r.Ok? ==> r.value.vec == vec && r.value.isReadOnly == isReadOnly
  {
    if !isReadOnly {
      var state := vec.lockState;
      if state != 0 {
        return Err(VectorLocked(state));
      }
    }
    var ldm := new PetscLDM.Open(vec, isReadOnly);
    r := Ok(ldm);
  }

  class PetscVector {
    const vec: PetscVec
    const lengths: seq<int>
    const strides: seq<int>
    const patchStride: int
    const numLocalPatches: nat

    constructor (vec: PetscVec, lengths: seq<int>)
      requires ValidShape(lengths, 0)
      ensures this.vec == vec && this.lengths == lengths
      ensures strides == Strides(lengths) && patchStride == Prod(lengths) >= 1
      ensures numLocalPatches == NumPatches(vec.localSize, patchStride)
    {
      this.vec := vec;
      this.lengths := lengths;
      var st, fo, ps := ComputeLayout(lengths, 0);
      GhostFreeLayout(lengths);
      ProdPositive(lengths);
      strides, patchStride := st, ps;
      numLocalPatches := vec.localSize / ps;
    }

    /** getLocalData(i) and its const overload: the view starts at entry ps * i; write
        access throws while the vector is locked. */
    method GetLocalData(patch: int, isReadOnly: bool) returns (r: Result<LocalData, LockError>)
      ensures r.Err? <==> !isReadOnly && vec.lockState != 0
      ensures r.Ok? ==> r.value == LocalData(patchStride * patch, strides, lengths, 0)
    {
      var ldm := NewPetscLDM(vec, isReadOnly);
      if ldm.Err? {
        return Err(ldm.error);
      }
      r := Ok(LocalData(patchStride * patch, strides, lengths, 0));
    }
  }

  /** The patch blocks of a PetscVector tile its local array: entry k < n ps belongs to
      patch k / ps, at offset k % ps inside it. */
  lemma Tiling(ps: int, n: nat, k: int)
    requires ps >= 1 && 0 <= k < n * ps
    ensures 0 <= k / ps < n && ps * (k / ps) <= k < ps * (k / ps + 1)
  {
    var q := k / ps;
    if q >= n {
      MulMono(n, q, ps);
    }
  }
}
