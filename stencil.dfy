/**
 * Index arithmetic of the boundary stencil helpers (StencilHelper.h) of the 3-D PETSc
 * matrix assembly: which matrix row a face cell of a patch has, and which columns its
 * boundary stencil touches, for Dirichlet and Neumann boundaries and for Normal (same
 * level), Coarse and Fine neighbours. The floating-point coefficients are not modelled.
 *
 * Patch `id` owns the n^3 consecutive entries starting at id n^3; inside it, cell (x, y, z)
 * is entry x + y n + z n^2.
 */
module Stencil {
  import opened Sides
  import IntMath

  datatype Cell = Cell(x: int, y: int, z: int)

  /** Global position of cell c of patch id. */
  function CellIndex(id: int, n: int, c: Cell): int
  {
    id * n * n * n + c.x + c.y * n + c.z * n * n
  }

  predicate InPatch(n: int, c: Cell)
  {
    0 <= c.x < n && 0 <= c.y < n && 0 <= c.z < n
  }

  /** Coordinate of c along an axis. */
  function Coord(c: Cell, axis: nat): int
    requires axis < 3
  {
    if axis == 0 then c.x else if axis == 1 then c.y else c.z
  }

  /** Cell (xi, yi) of face s: on the west and east faces xi runs along y and yi along z,
      on the south and north faces along x and z, on the bottom and top faces along x and y. */
  function FaceCell(s: Side, n: int, xi: int, yi: int): Cell
  {
    match s
    case West => Cell(0, xi, yi)
    case East => Cell(n - 1, xi, yi)
    case South => Cell(xi, 0, yi)
    case North => Cell(xi, n - 1, yi)
    case Bottom => Cell(xi, yi, 0)
    case Top => Cell(xi, yi, n - 1)
  }

  /** Where a face starts and how its two face coordinates step through the vector. */
  datatype Frame = Frame(start: int, stridex: int, stridey: int)

  /** The switch of every helper constructor: face s of the patch whose block starts at idx. */
  function FaceFrame(s: Side, n: int, idx: int): Frame
  {
    match s
    case West => Frame(idx, n, n * n)
    case East => Frame(idx + (n - 1), n, n * n)
    case South => Frame(idx, 1, n * n)
    case North => Frame(idx + (n - 1) * n, 1, n * n)
    case Bottom => Frame(idx, 1, n)
    case Top => Frame(idx + (n - 1) * n * n, 1, n)
  }

  /** nbr_start of the Normal, Coarse and Fine helpers for side s of a patch, when the
      neighbour's block starts at nbrIdx. */
  function NbrStart(s: Side, n: int, nbrIdx: int): int
  {
    match s
    case West => nbrIdx + (n - 1)
    case East => nbrIdx
    case South => nbrIdx + (n - 1) * n
    case North => nbrIdx
    case Bottom => nbrIdx + (n - 1) * n * n
    case Top => nbrIdx
  }

  /** The entry start + stridex xi + stridey yi that every row and column expression computes. */
  function At(start: int, f: Frame, xi: int, yi: int): int
  {
    start + f.stridex * xi + f.stridey * yi
  }

  /** C's `/` and `%` truncate toward zero. */
  function CDiv(a: int, b: int): int
    requires b > 0
  {
    if a >= 0 then a / b else -((-a) / b)
  }

  function CRem(a: int, b: int): int
    requires b > 0
  {
    if a >= 0 then a % b else -((-a) % b)
  }

  // ---------------------------------------------------------------------------
  // Cells of a patch

  /** The index of a cell in Horner form: x + n (y + n (z + n id)). */
  lemma Horner(id: int, n: int, c: Cell)
    ensures CellIndex(id, n, c) == c.x + (c.y + (c.z + id * n) * n) * n
  {
    calc {
      c.x + (c.y + (c.z + id * n) * n) * n;
      c.x + c.y * n + ((c.z + id * n) * n) * n;
      { assert (c.z + id * n) * n == c.z * n + id * n * n; }
      c.x + c.y * n + (c.z * n + id * n * n) * n;
      c.x + c.y * n + c.z * n * n + id * n * n * n;
    }
  }

  /** One mixed-radix digit: 0 <= r < n and 0 <= q < m give 0 <= r + q n < m n. */
  lemma DigitBounds(r: int, q: int, n: int, m: int)
    requires 0 <= r < n && 0 <= q < m
    ensures 0 <= r + q * n < m * n
  {
    IntMath.MulMono(0, q, n);
    IntMath.MulMono(q, m - 1, n);
  }

  /** Every cell of patch id lies in the block [id n^3, (id+1) n^3). */
  lemma CellIndexBounds(id: int, n: int, c: Cell)
    requires InPatch(n, c)
    ensures id * n * n * n <= CellIndex(id, n, c) < (id + 1) * n * n * n
  {
    DigitBounds(c.y, c.z, n, n);
    DigitBounds(c.x, c.y + c.z * n, n, n * n);
    assert CellIndex(id, n, c) == id * n * n * n + (c.x + (c.y + c.z * n) * n) by {
      Horner(id, n, c);
      assert (c.y + (c.z + id * n) * n) * n == (c.y + c.z * n) * n + id * n * n * n;
    }
  }

  /** Distinct cells, of one patch or of two, have distinct indices. */
  lemma CellIndexInjective(id1: int, c1: Cell, id2: int, c2: Cell, n: int)
    requires InPatch(n, c1) && InPatch(n, c2)
    requires CellIndex(id1, n, c1) == CellIndex(id2, n, c2)
    ensures id1 == id2 && c1 == c2
  {
    Horner(id1, n, c1);
    Horner(id2, n, c2);
    IntMath.DivUnique(c1.x, c1.y + (c1.z + id1 * n) * n, c2.x, c2.y + (c2.z + id2 * n) * n, n);
    IntMath.DivUnique(c1.y, c1.z + id1 * n, c2.y, c2.z + id2 * n, n);
    IntMath.DivUnique(c1.z, id1, c2.z, id2, n);
  }

  /** Face cell (xi, yi) of side s is a cell of the patch lying on that face: its coordinate
      along the side's axis is 0 on a lower side and n - 1 on an upper side. */
  lemma FaceCellOnFace(s: Side, n: int, xi: int, yi: int)
    requires 0 <= xi < n && 0 <= yi < n
    ensures InPatch(n, FaceCell(s, n, xi, yi))
    ensures Coord(FaceCell(s, n, xi, yi), Axis(s)) == if IsLower(s) then 0 else n - 1
  {
  }

  /** Row of face cell (xi, yi): the index of that cell of the patch. */
  lemma FaceRow(s: Side, n: int, id: int, xi: int, yi: int)
    ensures var f := FaceFrame(s, n, id * n * n * n);
      At(f.start, f, xi, yi) == CellIndex(id, n, FaceCell(s, n, xi, yi))
  {
    var idx := id * n * n * n;
    var c := FaceCell(s, n, xi, yi);
    var f := FaceFrame(s, n, idx);
    assert CellIndex(id, n, c) == idx + c.x + c.y * n + c.z * n * n;
    assert At(f.start, f, xi, yi) == f.start + f.stridex * xi + f.stridey * yi;
    Commute(n, xi, yi);
  }

  /** The products the frames and the cell positions write in different orders. */
  lemma Commute(n: int, xi: int, yi: int)
    ensures n * xi == xi * n && n * yi == yi * n && n * n * yi == yi * n * n
  {
    assert n * n * yi == yi * n * n by {
      assert n * n * yi == n * (n * yi);
    }
  }

  /** The rows of one face are distinct and lie in the patch's block. */
  lemma FaceRowsDistinct(s: Side, n: int, id: int, xi1: int, yi1: int, xi2: int, yi2: int)
    requires 0 <= xi1 < n && 0 <= yi1 < n && 0 <= xi2 < n && 0 <= yi2 < n
    ensures var f := FaceFrame(s, n, id * n * n * n);
      id * n * n * n <= At(f.start, f, xi1, yi1) < (id + 1) * n * n * n
      && (At(f.start, f, xi1, yi1) == At(f.start, f, xi2, yi2) ==> xi1 == xi2 && yi1 == yi2)
  {
    FaceRow(s, n, id, xi1, yi1);
    FaceRow(s, n, id, xi2, yi2);
    FaceCellOnFace(s, n, xi1, yi1);
    FaceCellOnFace(s, n, xi2, yi2);
    CellIndexBounds(id, n, FaceCell(s, n, xi1, yi1));
    var f := FaceFrame(s, n, id * n * n * n);
    if At(f.start, f, xi1, yi1) == At(f.start, f, xi2, yi2) {
      CellIndexInjective(id, FaceCell(s, n, xi1, yi1), id, FaceCell(s, n, xi2, yi2), n);
    }
  }

  /** The neighbour start of side s is the start of the neighbour's opposite face, and both
      faces step alike: a neighbour column is the mirror cell across the shared face. */
  lemma NbrColumn(s: Side, n: int, nbr: int, xi: int, yi: int)
    ensures FaceFrame(Opposite(s), n, nbr * n * n * n)
         == Frame(NbrStart(s, n, nbr * n * n * n), FaceFrame(s, n, 0).stridex, FaceFrame(s, n, 0).stridey)
    ensures At(NbrStart(s, n, nbr * n * n * n), FaceFrame(s, n, 0), xi, yi)
         == CellIndex(nbr, n, FaceCell(Opposite(s), n, xi, yi))
  {
    FaceRow(Opposite(s), n, nbr, xi, yi);
  }

  // ---------------------------------------------------------------------------
  // Coarse and fine neighbours

  /** FineSH: the quadrant of the face that cell (xi, yi) lies in, bit 0 set in the upper
      half of xi and bit 1 in the upper half of yi. */
  function FineQuad(n: int, xi: int, yi: int): (q: int)
    ensures 0 <= q < 4
    ensures q % 2 == 1 <==> xi >= n / 2
    ensures q / 2 == 1 <==> yi >= n / 2
  {
    (if xi >= n / 2 then 1 else 0) + (if yi >= n / 2 then 2 else 0)
  }

  /** First fine coordinate under coarse coordinate i: (i mod n/2) * 2. */
  function FineBase(n: int, i: int): int
    requires n >= 2
  {
    CRem(i, n / 2) * 2
  }

  /** The five columns of FineSH: the cell itself, then the 2x2 block of fine cells of
      neighbour `quad` that lies against it. */
  function FineColumns(f: Frame, nbrStarts: seq<int>, n: int, xi: int, yi: int): (cols: seq<int>)
    requires |nbrStarts| == 4 && n >= 2
    ensures |cols| == 5
  {
    var q := FineQuad(n, xi, yi);
    var nxi := FineBase(n, xi);
    var nyi := FineBase(n, yi);
    [At(f.start, f, xi, yi), At(nbrStarts[q], f, nxi, nyi), At(nbrStarts[q], f, nxi + 1, nyi),
     At(nbrStarts[q], f, nxi, nyi + 1), At(nbrStarts[q], f, nxi + 1, nyi + 1)]
  }

  /** CoarseSH: the sibling of index i in its pair (even i pairs with i + 1, odd with i - 1). */
  function Sibling(i: int): int
  {
    if CRem(i, 2) == 0 then i + 1 else i - 1
  }

  /** CoarseSH: the coarse-face coordinate above fine coordinate i, when the fine patch
      covers the upper (upper = true) or lower half of the coarse face along that axis. */
  function CoarseCoord(i: int, upper: bool, n: int): int
  {
    if upper then CDiv(i + n, 2) else CDiv(i, 2)
  }

  /** The five columns of CoarseSH: the cell and its three siblings in the 2x2 block it
      forms part of, then the coarse neighbour's cell above the block. For a quadrant
      outside 0..3 the last column keeps its previous value `prev`. */
  function CoarseColumns(f: Frame, nbrStart: int, quad: int, n: int, xi: int, yi: int, prev: int): (cols: seq<int>)
    ensures |cols| == 5
  {
    var nxi := Sibling(xi);
    var nyi := Sibling(yi);
    var center := if 0 <= quad < 4
      then At(nbrStart, f, CoarseCoord(xi, quad % 2 == 1, n), CoarseCoord(yi, quad / 2 == 1, n))
      else prev;
    [At(f.start, f, xi, yi), At(f.start, f, nxi, yi), At(f.start, f, xi, nyi), At(f.start, f, nxi, nyi), center]
  }

  /** The sibling is a different index of the same pair, pairs are symmetric, and it stays
      on the face when n is even. */
  lemma SiblingPair(i: int, n: int)
    requires 0 <= i < n && n % 2 == 0
    ensures Sibling(i) != i && Sibling(i) / 2 == i / 2 && Sibling(Sibling(i)) == i
    ensures 0 <= Sibling(i) < n
  {
  }

  /** A coarse coordinate computed from a face cell of the fine patch lies on the coarse face. */
  lemma CoarseCoordOnFace(i: int, upper: bool, n: int)
    requires 0 <= i < n
    ensures 0 <= CoarseCoord(i, upper, n) < n
  {
  }

  /** The fine block of FineSH lies on the fine neighbour's face (n >= 2). */
  lemma FineBaseOnFace(n: int, i: int)
    requires n >= 2 && 0 <= i < n
    ensures 0 <= FineBase(n, i) && FineBase(n, i) + 1 < n
  {
    assert i % (n / 2) <= n / 2 - 1;
  }

  /** FineSH and CoarseSH agree: the fine cells that FineSH lists for coarse cell X (X on
      the face, n even) lie, as seen from the fine patch by CoarseSH with the quadrant
      FineSH chose, under coarse cell X again. */
  lemma FineCoarseRoundTrip(n: int, x: int, a: int)
    requires n >= 2 && n % 2 == 0 && 0 <= x < n && 0 <= a <= 1
    ensures CoarseCoord(FineBase(n, x) + a, x >= n / 2, n) == x
  {
    var h := n / 2;
    assert n == 2 * h;
    if x >= h {
      assert x % h == x - h;
    } else {
      assert x % h == x;
    }
  }

  /** Column 0 of FineSH is the row; column 1 + a + 2b (a, b in 0..1) is face cell
      (FineBase(xi) + a, FineBase(yi) + b) of fine neighbour `quad` on its face opposite s,
      so columns 1..4 are a 2x2 block of that face. */
  lemma FineColumnsGeometry(s: Side, n: int, id: int, nbrIds: seq<int>, nbrStarts: seq<int>,
                            xi: int, yi: int, a: int, b: int)
    requires n >= 2 && |nbrIds| == 4 && |nbrStarts| == 4
    requires forall i :: 0 <= i < 4 ==> nbrStarts[i] == NbrStart(s, n, nbrIds[i] * n * n * n)
    requires 0 <= xi < n && 0 <= yi < n && 0 <= a <= 1 && 0 <= b <= 1
    ensures var cols := FineColumns(FaceFrame(s, n, id * n * n * n), nbrStarts, n, xi, yi);
      var cell := FaceCell(Opposite(s), n, FineBase(n, xi) + a, FineBase(n, yi) + b);
      && cols[0] == CellIndex(id, n, FaceCell(s, n, xi, yi))
      && cols[1 + a + 2 * b] == CellIndex(nbrIds[FineQuad(n, xi, yi)], n, cell)
      && InPatch(n, cell)
  {
    var q := FineQuad(n, xi, yi);
    var f := FaceFrame(s, n, id * n * n * n);
    var x, y := FineBase(n, xi) + a, FineBase(n, yi) + b;
    assert FineColumns(f, nbrStarts, n, xi, yi)[1 + a + 2 * b] == At(nbrStarts[q], f, x, y) by {
      if a == 0 && b == 0 {} else if a == 1 && b == 0 {} else if a == 0 {} else {}
    }
    FaceRow(s, n, id, xi, yi);
    FineBaseOnFace(n, xi);
    FineBaseOnFace(n, yi);
    NbrColumn(s, n, nbrIds[q], FineBase(n, xi) + a, FineBase(n, yi) + b);
    FaceCellOnFace(Opposite(s), n, FineBase(n, xi) + a, FineBase(n, yi) + b);
  }

  /** Columns 0..3 of CoarseSH are the 2x2 block of the patch's own face containing (xi, yi);
      column 4 is the coarse neighbour's face cell above it. */
  lemma CoarseColumnsGeometry(s: Side, n: int, id: int, nbr: int, quad: int, xi: int, yi: int, prev: int)
    requires n >= 2 && n % 2 == 0 && 0 <= quad < 4 && 0 <= xi < n && 0 <= yi < n
    ensures var cols := CoarseColumns(FaceFrame(s, n, id * n * n * n), NbrStart(s, n, nbr * n * n * n), quad, n, xi, yi, prev);
      && cols[0] == CellIndex(id, n, FaceCell(s, n, xi, yi))
      && cols[1] == CellIndex(id, n, FaceCell(s, n, Sibling(xi), yi))
      && cols[2] == CellIndex(id, n, FaceCell(s, n, xi, Sibling(yi)))
      && cols[3] == CellIndex(id, n, FaceCell(s, n, Sibling(xi), Sibling(yi)))
      && cols[4] == CellIndex(nbr, n, FaceCell(Opposite(s), n,
                      CoarseCoord(xi, quad % 2 == 1, n), CoarseCoord(yi, quad / 2 == 1, n)))
      && InPatch(n, FaceCell(Opposite(s), n, CoarseCoord(xi, quad % 2 == 1, n), CoarseCoord(yi, quad / 2 == 1, n)))
      && InPatch(n, FaceCell(s, n, Sibling(xi), Sibling(yi)))
  {
    SiblingPair(xi, n);
    SiblingPair(yi, n);
    FaceRow(s, n, id, xi, yi);
    FaceRow(s, n, id, Sibling(xi), yi);
    FaceRow(s, n, id, xi, Sibling(yi));
    FaceRow(s, n, id, Sibling(xi), Sibling(yi));
    var cx, cy := CoarseCoord(xi, quad % 2 == 1, n), CoarseCoord(yi, quad / 2 == 1, n);
    CoarseCoordOnFace(xi, quad % 2 == 1, n);
    CoarseCoordOnFace(yi, quad / 2 == 1, n);
    NbrColumn(s, n, nbr, cx, cy);
    FaceCellOnFace(Opposite(s), n, cx, cy);
    FaceCellOnFace(s, n, Sibling(xi), Sibling(yi));
  }
}

// The helper objects and their dispatch.
module StencilHelpers {
  import opened Sides
  import opened Stencil

  /** What a patch knows about the patch across one of its sides. */
  datatype NbrInfo =
    | NormalNbr(globalIndex: int)
    | FineNbr(globalIndexes: seq<int>)
    | CoarseNbr(globalIndex: int, quadOnCoarse: int)

  /** The parts of Domain<3> the helpers read: its global id, its cell count per axis, the
      neighbour on each side that has one, and which boundary sides are Neumann. */
  datatype Domain = Domain(idGlobal: int, n: int, nbrs: map<Side, NbrInfo>, neumann: set<Side>)

  /** A fine neighbour lists the four patches covering the side. */
  predicate ValidDomain(d: Domain)
  {
    d.n >= 1 && forall s :: s in d.nbrs && d.nbrs[s].FineNbr? ==> |d.nbrs[s].globalIndexes| == 4
  }

  datatype Kind = DirichletSH | NeumannSH | NormalSH | CoarseSH | FineSH

  /** getStencilHelper's choice: by neighbour type when the side has a neighbour, otherwise
      Neumann on a Neumann side and Dirichlet elsewhere. */
  function KindFor(d: Domain, s: Side): (k: Kind)
    ensures k == DirichletSH || k == NeumannSH <==> s !in d.nbrs
    ensures k == NeumannSH <==> s !in d.nbrs && s in d.neumann
    ensures k == NormalSH <==> s in d.nbrs && d.nbrs[s].NormalNbr?
    ensures k == FineSH <==> s in d.nbrs && d.nbrs[s].FineNbr?
    ensures k == CoarseSH <==> s in d.nbrs && d.nbrs[s].CoarseNbr?
  {
    if s in d.nbrs then
      match d.nbrs[s]
      case NormalNbr(_) => NormalSH
      case FineNbr(_) => FineSH
      case CoarseNbr(_, _) => CoarseSH
    else if s in d.neumann then NeumannSH
    else DirichletSH
  }

  /** Global ids of the patches across side s (one for a Normal or Coarse neighbour, four
      for a Fine one, none on a boundary). */
  function NbrIds(d: Domain, s: Side): seq<int>
  {
    if s !in d.nbrs then []
    else match d.nbrs[s]
      case NormalNbr(g) => [g]
      case FineNbr(gs) => gs
      case CoarseNbr(g, _) => [g]
  }

  function NbrStarts(s: Side, n: int, ids: seq<int>): (starts: seq<int>)
    ensures |starts| == |ids|
    ensures forall i :: 0 <= i < |ids| ==> starts[i] == NbrStart(s, n, ids[i] * n * n * n)
  {
    seq(|ids|, i requires 0 <= i < |ids| => NbrStart(s, n, ids[i] * n * n * n))
  }

  /** One boundary stencil helper. The five helper classes of the source share their index
      fields; `kind` says which one this is. `colz` is the scratch array `cols` writes into
      and hands back (`col` for the one-column helpers). */
  class StencilHelper {
    const kind: Kind
    const n: int
    const frame: Frame
    const nbrStarts: seq<int>
    const quad: int
    const colz: array<int>
    ghost const id: int
    ghost const side: Side
    ghost const nbrIds: seq<int>

    /** The fields as the constructors set them. */
    ghost predicate Valid()
    {
      && frame == FaceFrame(side, n, id * n * n * n)
      && nbrStarts == NbrStarts(side, n, nbrIds)
      && |nbrIds| == (match kind case DirichletSH => 0 case NeumannSH => 0 case FineSH => 4 case _ => 1)
      && colz.Length == Size()
    }

    constructor Boundary(d: Domain, s: Side)
      requires s !in d.nbrs
      ensures kind == KindFor(d, s) && n == d.n && id == d.idGlobal && side == s && nbrIds == []
      ensures Valid() && fresh(colz)
    {
      kind := if s in d.neumann then NeumannSH else DirichletSH;
      n := d.n;
      frame := FaceFrame(s, d.n, d.idGlobal * d.n * d.n * d.n);
      nbrStarts := [];
      quad := 0;
      colz := new int[1];
      id, side, nbrIds := d.idGlobal, s, [];
    }

    constructor Normal(d: Domain, s: Side)
      requires s in d.nbrs && d.nbrs[s].NormalNbr?
      ensures kind == NormalSH && n == d.n && id == d.idGlobal && side == s
      ensures nbrIds == [d.nbrs[s].globalIndex]
      ensures Valid() && fresh(colz)
    {
      var nbrIdx := d.nbrs[s].globalIndex * d.n * d.n * d.n;
      kind := NormalSH;
      n := d.n;
      frame := FaceFrame(s, d.n, d.idGlobal * d.n * d.n * d.n);
      nbrStarts := [NbrStart(s, d.n, nbrIdx)];
      quad := 0;
      colz := new int[1];
      id, side, nbrIds := d.idGlobal, s, [d.nbrs[s].globalIndex];
    }

    constructor Coarse(d: Domain, s: Side)
      requires s in d.nbrs && d.nbrs[s].CoarseNbr?
      ensures kind == CoarseSH && n == d.n && id == d.idGlobal && side == s
      ensures nbrIds == [d.nbrs[s].globalIndex] && quad == d.nbrs[s].quadOnCoarse
      ensures Valid() && fresh(colz)
    {
      var nbrIdx := d.nbrs[s].globalIndex * d.n * d.n * d.n;
      kind := CoarseSH;
      n := d.n;
      frame := FaceFrame(s, d.n, d.idGlobal * d.n * d.n * d.n);
      nbrStarts := [NbrStart(s, d.n, nbrIdx)];
      quad := d.nbrs[s].quadOnCoarse;
      colz := new int[5];
      id, side, nbrIds := d.idGlobal, s, [d.nbrs[s].globalIndex];
    }

    constructor Fine(d: Domain, s: Side)
      requires s in d.nbrs && d.nbrs[s].FineNbr? && |d.nbrs[s].globalIndexes| == 4
      ensures kind == FineSH && n == d.n && id == d.idGlobal && side == s
      ensures nbrIds == d.nbrs[s].globalIndexes
      ensures Valid() && fresh(colz)
    {
      var ids := d.nbrs[s].globalIndexes;
      var starts := [];
      var i := 0;
      while i < 4
        invariant 0 <= i <= 4 && |starts| == i
        invariant forall j :: 0 <= j < i ==> starts[j] == NbrStart(s, d.n, ids[j] * d.n * d.n * d.n)
      {
        starts := starts + [NbrStart(s, d.n, ids[i] * d.n * d.n * d.n)];
        i := i + 1;
      }
      kind := FineSH;
      n := d.n;
      frame := FaceFrame(s, d.n, d.idGlobal * d.n * d.n * d.n);
      nbrStarts := starts;
      quad := 0;
      colz := new int[5];
      id, side, nbrIds := d.idGlobal, s, ids;
    }

    /** row(xi, yi): the index of face cell (xi, yi) of the patch. */
    function Row(xi: int, yi: int): (r: int)
      requires Valid()
      ensures r == CellIndex(id, n, FaceCell(side, n, xi, yi))
    {
      FaceRow(side, n, id, xi, yi);
      At(frame.start, frame, xi, yi)
    }

    /** size(xi, yi): one column for the boundary and Normal helpers (the coefficient of
        the cell itself or of its mirror), five for the Coarse and Fine ones. */
    function Size(): (k: nat)
      ensures k == 1 <==> kind == DirichletSH || kind == NeumannSH || kind == NormalSH
      ensures k == 5 <==> kind == CoarseSH || kind == FineSH
    {
      match kind
      case CoarseSH => 5
      case FineSH => 5
      case _ => 1
    }

    /** cols(xi, yi): fills the scratch array with the stencil's columns and returns it. */
    method Cols(xi: int, yi: int) returns (c: array<int>)
      requires Valid() && (kind == FineSH ==> n >= 2)
      modifies colz
      ensures c == colz
      ensures kind == DirichletSH || kind == NeumannSH ==> c[0] == Row(xi, yi)
      ensures kind == NormalSH ==> c[0] == At(nbrStarts[0], frame, xi, yi)
      ensures kind == FineSH ==> c[..] == FineColumns(frame, nbrStarts, n, xi, yi)
      ensures kind == CoarseSH ==> c[..] == CoarseColumns(frame, nbrStarts[0], quad, n, xi, yi, old(colz[4]))
    {
      if kind == DirichletSH || kind == NeumannSH {
        colz[0] := frame.start + frame.stridex * xi + frame.stridey * yi;
      } else if kind == NormalSH {
        colz[0] := nbrStarts[0] + frame.stridex * xi + frame.stridey * yi;
      } else if kind == CoarseSH {
        CoarseCols(xi, yi);
      } else {
        FineCols(xi, yi);
      }
      c := colz;
    }

    /** cols(xi, yi) of CoarseSH. */
    method CoarseCols(xi: int, yi: int)
      requires Valid() && kind == CoarseSH
      modifies colz
      ensures colz[..] == CoarseColumns(frame, nbrStarts[0], quad, n, xi, yi, old(colz[4]))
    {
      var nbrStart := nbrStarts[0];
      if quad == 0 {
        colz[4] := nbrStart + frame.stridex * CDiv(xi, 2) + frame.stridey * CDiv(yi, 2);
      } else if quad == 1 {
        colz[4] := nbrStart + frame.stridex * CDiv(xi + n, 2) + frame.stridey * CDiv(yi, 2);
      } else if quad == 2 {
        colz[4] := nbrStart + frame.stridex * CDiv(xi, 2) + frame.stridey * CDiv(yi + n, 2);
      } else if quad == 3 {
        colz[4] := nbrStart + frame.stridex * CDiv(xi + n, 2) + frame.stridey * CDiv(yi + n, 2);
      }
      var nxi := if CRem(xi, 2) == 0 then xi + 1 else xi - 1;
      var nyi := if CRem(yi, 2) == 0 then yi + 1 else yi - 1;
      colz[0] := frame.start + frame.stridex * xi + frame.stridey * yi;
      colz[1] := frame.start + frame.stridex * nxi + frame.stridey * yi;
      colz[2] := frame.start + frame.stridex * xi + frame.stridey * nyi;
      colz[3] := frame.start + frame.stridex * nxi + frame.stridey * nyi;
    }

    /** cols(xi, yi) of FineSH. */
    method FineCols(xi: int, yi: int)
      requires Valid() && kind == FineSH && n >= 2
      modifies colz
      ensures colz[..] == FineColumns(frame, nbrStarts, n, xi, yi)
    {
      colz[0] := frame.start + frame.stridex * xi + frame.stridey * yi;
      var q := (if xi >= n / 2 then 1 else 0) + (if yi >= n / 2 then 2 else 0);
      var nxi := CRem(xi, n / 2) * 2;
      var nyi := CRem(yi, n / 2) * 2;
      colz[1] := nbrStarts[q] + frame.stridex * nxi + frame.stridey * nyi;
      colz[2] := nbrStarts[q] + frame.stridex * (nxi + 1) + frame.stridey * nyi;
      colz[3] := nbrStarts[q] + frame.stridex * nxi + frame.stridey * (nyi + 1);
      colz[4] := nbrStarts[q] + frame.stridex * (nxi + 1) + frame.stridey * (nyi + 1);
    }
  }

  /** getStencilHelper(d, s): a new helper of the kind the side's neighbour calls for. */
  method GetStencilHelper(d: Domain, s: Side) returns (h: StencilHelper)
    requires ValidDomain(d)
    ensures fresh(h) && h.Valid()
    ensures h.kind == KindFor(d, s) && h.n == d.n && h.id == d.idGlobal && h.side == s
    ensures h.nbrIds == NbrIds(d, s)
    ensures h.kind == CoarseSH ==> h.quad == d.nbrs[s].quadOnCoarse
  {
    if s in d.nbrs {
      var info := d.nbrs[s];
      if info.NormalNbr? {
        h := new StencilHelper.Normal(d, s);
      } else if info.FineNbr? {
        h := new StencilHelper.Fine(d, s);
      } else {
        h := new StencilHelper.Coarse(d, s);
      }
    } else {
      h := new StencilHelper.Boundary(d, s);
    }
  }

  /** The mirror column of a Normal helper is the neighbour's cell across the shared face. */
  lemma NormalColumnIsMirror(h: StencilHelper, xi: int, yi: int)
    requires h.Valid() && h.kind == NormalSH
    ensures At(h.nbrStarts[0], h.frame, xi, yi)
         == CellIndex(h.nbrIds[0], h.n, FaceCell(Opposite(h.side), h.n, xi, yi))
  {
    NbrColumn(h.side, h.n, h.nbrIds[0], xi, yi);
  }
}
