# ThunderEgg bookkeeping core, modelled in Dafny

ThunderEgg solves elliptic equations on adaptively refined, patch-based meshes with a
geometric multigrid method and Schur-complement domain decomposition. This project models
the integer bookkeeping around the numerics and proves what it promises:

- **Multigrid cycles** (`Cycles`): `VCycle::visit` and `WCycle::visit` as methods that
  append every call of a level's smoother (`smooth`), restrictor (`prepCoarser`) and
  interpolator (`prepFiner`) to a trace. The trace is proved equal to a recursive
  specification whose call counts, ordering and level coverage are proved as lemmas. It
  also covers how each constructor reads its sweep counts: `VCycle` refuses a missing key
  and `WCycle` keeps the default of 1.
- **Level hierarchy** (`Levels`, `GmgHelper`): the 3-D solver's `GMG::Helper` chooses the
  number of levels, gives each level its collection, operator, smoother, restrictor and
  interpolator, and links the levels into a chain rooted at the finest.
- **Vector layout** (`VectorLayout`): strides, ghost padding, first interior offset, patch
  stride and patch count of `PETSc::VecWrapper` and `PetscVector`, `getLocalData`, the
  boundary-condition vector shape, and the lock check of `PetscLDM`.
- **Ghost exchange** (`GhostPlan`, `GhostFill`, `OrderedSets`): the `MPIGhostFiller`
  constructor sorts every neighbour slot into a local or a remote call, gives remote ranks
  dense buffer indices, and lays out send and receive buffers. The sequential part of
  `fillGhost` zeroes ghost layers and accumulates received values. `std::set` iteration
  order is modelled explicitly.
- **Inter-level communication** (`InterLevel`): the start/finish protocol and the
  parent partition that the two-process tests of `InterLevelComm` pin down.
- **Stencil helpers** (`Stencil`, `StencilHelpers`): the rows and columns of the boundary
  stencils of the 3-D matrix assembly: Dirichlet, Neumann, Normal, Coarse and Fine.
- **Level extraction and partitioning graphs** (`BalancedLevels`): `extractLevel`
  (breadth-first cut of the oct-tree into one level), the hypergraphs of `balanceLevel` and
  `balanceLevelWithLower`, and the call order of `zoltanBalance`.
- **Domain collections** (`LocalIndexing`, `DomainCollection3D`, `DomainCollection2D`):
  the 3-D PETSc example's grid constructor, interface enumeration and breadth-first local
  numberings, and the 2-D Trilinos example's `generateMaps` interface-index allocation.

Code that changes state in the source is imperative here: classes with `modifies`
clauses, arrays updated in place, and `while` loops with invariants. Each such method is
proved against a specification function, and the properties are proved about that function.
Code that only computes is written as functions and lemmas.

## Model

| member | source | states |
|---|---|---|
| Levels.Level.constructor | domain_decomp/3dSolver/GMG/Helper.cpp:63 | a new level knows its domain collection and has no operator, smoother, restrictor, interpolator, coarser or finer level yet |
| Levels.Level.SetOperator | domain_decomp/3dSolver/GMG/Helper.cpp:64 | the level's operator becomes the given one; no other field changes |
| Levels.Level.SetSmoother | domain_decomp/3dSolver/GMG/Helper.cpp:65 | the level's smoother becomes the given one; no other field changes |
| Levels.Level.SetRestrictor | domain_decomp/3dSolver/GMG/Helper.cpp:70 | the level's restrictor becomes the given one; no other field changes |
| Levels.Level.SetInterpolator | domain_decomp/3dSolver/GMG/Helper.cpp:71 | the level's interpolator becomes the given one; no other field changes |
| Levels.Level.SetCoarser | domain_decomp/3dSolver/GMG/Helper.cpp:75-77 | the coarser link points to the given level; no other field changes |
| Levels.Level.SetFiner | domain_decomp/3dSolver/GMG/Helper.cpp:78-80 | the finer link points to the given level; no other field changes |
| Levels.ChainEnds | domain_decomp/3dSolver/GMG/Helper.cpp:74-80 | in a linked chain a level is coarsest exactly when it is the last one and finest exactly when it is the first one |
| Levels.DescendReaches | domain_decomp/3dSolver/GMG/Helper.cpp:74-80 | following the coarser link k times from position i reaches position i+k, so a descent never meets a level twice |
| GmgHelper.NumLevels | domain_decomp/3dSolver/GMG/Helper.cpp:19-25 | the level count is max_levels when that is present and in [1, tree depth], otherwise the tree depth; it always lies in [1, tree depth] |
| GmgHelper.MakeLevels | domain_decomp/3dSolver/GMG/Helper.cpp:27-66 | n distinct new levels; level i holds collection i (the given one for i = 0, tree level depth-i otherwise), its operator and its smoother, and nothing else |
| GmgHelper.SetTransfers | domain_decomp/3dSolver/GMG/Helper.cpp:50-72 | afterwards level i holds restrictor i unless it is the coarsest and interpolator i-1 unless it is the finest, each transfer joining collections i and i+1 through comm i |
| GmgHelper.Link | domain_decomp/3dSolver/GMG/Helper.cpp:74-80 | the levels form a chain, each linked to the next coarser and the previous finer level, and their other components are unchanged |
| GmgHelper.BuildLevels | domain_decomp/3dSolver/GMG/Helper.cpp:26-80 | n fresh levels forming a chain, each carrying exactly the components the builder assigns to its position |
| GmgHelper.Helper.constructor | domain_decomp/3dSolver/GMG/Helper.cpp:12-13 | the helper keeps the given levels and cycle |
| GmgHelper.NewHelper | domain_decomp/3dSolver/GMG/Helper.cpp:12-83 | fails exactly when the V-cycle configuration is incomplete; otherwise NumLevels levels, wired and chained, and a V-cycle rooted at level 0 with the configured sweep counts |
| Cycles.SweepLoop | src/GMG/VCycle.h:47-49 | a sweep loop makes max(count, 0) smooth calls on its level and nothing else |
| Cycles.ReadVConfig | src/GMG/VCycle.h:69-86 | succeeds exactly when pre_sweeps, post_sweeps and coarse_sweeps are all present, then with those counts; a missing pre_sweeps is the error reported |
| Cycles.ReadWConfig | src/GMG/WCycle.h:34-37 | each of the four counts is the configured value when its key is present and 1 otherwise |
| Cycles.MissingKeyDiffers | src/GMG/WCycle.h:77-92 | on a configuration missing one of the three shared keys the V-cycle refuses while the W-cycle uses the default 1 for it |
| Cycles.VCycle.Defaults | src/GMG/VCycle.h:34-36 | the in-class defaults are one sweep of each kind |
| Cycles.VCycle.Visit | src/GMG/VCycle.h:44-61 | visit of level i makes exactly the calls of VTrace: coarse sweeps on the coarsest level, otherwise pre sweeps, a restriction, the visit of the next level and post sweeps, then a prolongation unless the level is the finest |
| Cycles.NewVCycle | src/GMG/VCycle.h:69-86 | the constructor throws exactly when a sweep key is missing, otherwise the cycle holds the configured counts and the given finest level |
| Cycles.VTraceLevels | src/GMG/VCycle.h:44-61 | a V-cycle visit of level i only calls level i and coarser levels |
| Cycles.VTraceProject | src/GMG/VCycle.h:44-61 | a V-cycle visit of level i visits every level from i to the coarsest exactly once, making on each the calls of one visit, and does nothing on finer levels |
| Cycles.VDescentProject | src/GMG/VCycle.h:50-60 | a non-coarsest V-cycle visit makes its own calls on its level and those of its descent elsewhere |
| Cycles.VTraceCounts | src/GMG/VCycle.h:44-61 | a V-cycle visit of level i on n levels smooths (n-1-i)(pre+post)+coarse times, restricts n-1-i times and prolongs once per visited level except the finest |
| Cycles.VDescentCounts | src/GMG/VCycle.h:50-60 | the call counts of a non-coarsest V-cycle visit are those of its descent plus its own sweeps, one restriction and one prolongation unless it is the finest |
| Cycles.VTwoLevels | src/GMG/VCycle.h:34-36 | with the default counts on two levels a V-cycle smooths three times and restricts and prolongs once each |
| Cycles.WCycle.constructor | src/GMG/WCycle.h:75-93 | every sweep count present in the configuration replaces its default of 1; nothing is refused |
| Cycles.WCycle.Visit | src/GMG/WCycle.h:45-67 | visit of level i makes exactly the calls of WTrace: coarse sweeps on the coarsest level, otherwise pre sweeps, restriction, descent, mid sweeps, restriction, descent and post sweeps, then a prolongation unless the level is the finest |
| Cycles.WTraceLevels | src/GMG/WCycle.h:45-67 | a W-cycle visit of level i only calls level i and coarser levels |
| Cycles.WDescentLevels | src/GMG/WCycle.h:51-65 | a non-coarsest W-cycle visit whose descents stay below it stays within level i and below |
| Cycles.WDescentOwn | src/GMG/WCycle.h:51-66 | on its own level a non-coarsest W-cycle visit makes exactly its own sweeps, two restrictions and its prolongation |
| Cycles.WDescentBelow | src/GMG/WCycle.h:55-61 | on every other level a non-coarsest W-cycle visit makes the calls of its two descents, one after the other |
| Cycles.WTraceProject | src/GMG/WCycle.h:45-67 | a W-cycle visit of level i visits level l >= i exactly 2^(l-i) times, making the calls of one visit each time, and does nothing on finer levels |
| Cycles.WDescentCounts | src/GMG/WCycle.h:51-65 | the counts of a non-coarsest W-cycle visit are its own sweeps and two restrictions plus twice those of its descent |
| Cycles.WTraceCounts | src/GMG/WCycle.h:45-67 | a W-cycle visit of level i smooths (2^k-1)(pre+mid+post)+2^k coarse times and restricts 2(2^k-1) times, k = n-1-i |
| Cycles.WLevelCounts | src/GMG/WCycle.h:45-67 | one W-cycle visit smooths coarse times on the coarsest level and pre+mid+post times elsewhere, and prolongs unless on the finest |
| Cycles.WCoarsestVisits | src/GMG/WCycle.h:45-67 | from the finest of n >= 2 levels a W-cycle visits the coarsest 2^(n-1) times and smooths there 2^(n-1) coarse times |
| Cycles.WTwoLevels | src/GMG/WCycle.h:34-37 | with the default counts on two levels a W-cycle smooths three times on the fine level and twice on the coarse one |
| VectorLayout.Padded | src/ThunderEgg/PETSc/VecWrapper.h:85-88 | each extent of a patch with ghosts is its length plus two ghost layers |
| VectorLayout.OffsetBounds | src/ThunderEgg/PETSc/VecWrapper.h:82-88 | every cell of a patch, ghost cells included, is stored inside the patch's block of patch_stride entries |
| VectorLayout.OffsetInjective | src/ThunderEgg/PETSc/VecWrapper.h:82-88 | distinct cells of a patch are stored at distinct entries |
| VectorLayout.FirstOffsetInside | src/ThunderEgg/PETSc/VecWrapper.h:83-86 | the first interior cell lies inside the patch's block |
| VectorLayout.LayoutStep | src/ThunderEgg/PETSc/VecWrapper.h:84-87 | one turn of the stride loop appends the next row-major stride and adds that axis's ghost layers to the first offset |
| VectorLayout.ComputeLayout | src/ThunderEgg/PETSc/VecWrapper.h:82-88 | the loop computes the row-major strides of the padded patch, the offset of its first interior cell and the padded cell count |
| VectorLayout.CellsInPatch | src/ThunderEgg/PETSc/VecWrapper.h:91-94 | the second loop computes the product of the patch lengths |
| VectorLayout.AddressInjective | src/ThunderEgg/PETSc/VecWrapper.h:151-169 | no two cells of the same or different patches share an entry of the local array |
| VectorLayout.AddressInBlock | src/ThunderEgg/PETSc/VecWrapper.h:151-169 | cell c of patch p lies in the entries [p ps, (p+1) ps) |
| VectorLayout.NumPatches | src/ThunderEgg/PETSc/VecWrapper.h:89-90 | the patch count is the largest n with n patch strides fitting the local size |
| VectorLayout.NumPatchesExact | src/ThunderEgg/PETSc/VecWrapper.h:104-110 | a vector allocated for k patches reports k patches |
| VectorLayout.VecWrapper.constructor | src/ThunderEgg/PETSc/VecWrapper.h:77-96 | the wrapper holds the strides, first offset and patch stride of the padded layout, the number of whole patches in the local array and their interior cell count |
| VectorLayout.VecWrapper.GetLocalData | src/ThunderEgg/PETSc/VecWrapper.h:151-169 | the view of patch i starts at i patch strides plus the first offset and carries the wrapper's strides, lengths and ghost count |
| VectorLayout.LocalDataInBlock | src/ThunderEgg/PETSc/VecWrapper.h:151-169 | the view of patch p starts at the address of its first interior cell, inside p's block |
| VectorLayout.NewBCVector | src/ThunderEgg/PETSc/VecWrapper.h:117-126 | GetNewBCVector copies the first D-1 extents into a ghost-free VecWrapper: its strides are those of the copied extents, its first interior cell is entry 0 of a patch, its patch stride is the product of the extents, and every local entry is a boundary cell |
| VectorLayout.GhostFreeLocalData | src/ThunderEgg/PETSc/VecWrapper.h:79-88 | in a ghost-free VecWrapper (the boundary vector) the view of patch p starts at entry p times the patch stride, and the patch stride is the cell count of one patch |
| VectorLayout.GhostFreeLayout | src/Thunderegg/PetscVector.h:93-97 | without ghosts the padded extents are the lengths and the first cell is the first entry of the patch |
| VectorLayout.PetscVec.constructor | src/Thunderegg/PetscVector.h:87 | a new vector has the given local size and is not locked |
| VectorLayout.NewPetscLDM | src/Thunderegg/PetscVector.h:41-55 | write access to a locked vector fails with its lock state; read-only access and access to an unlocked vector succeed |
| VectorLayout.PetscVector.constructor | src/Thunderegg/PetscVector.h:88-100 | the vector holds the row-major strides of its lengths, a patch stride equal to the cell count and the number of whole patches in its local array |
| VectorLayout.PetscVector.GetLocalData | src/Thunderegg/PetscVector.h:114-131 | fails exactly for write access to a locked vector; otherwise the view of patch i starts at i patch strides |
| VectorLayout.Tiling | src/Thunderegg/PetscVector.h:114-131 | the patch blocks tile the local array: entry k belongs to patch k / ps |
| Stencil.CellIndexBounds | src/StencilHelper.h:48 | every cell of patch id lies in the block [id n^3, (id+1) n^3) |
| Stencil.CellIndexInjective | src/StencilHelper.h:48 | distinct cells, of one patch or of two, have distinct global indices |
| Stencil.FaceCellOnFace | src/StencilHelper.h:49-85 | face cell (xi, yi) of side s is a cell of the patch whose coordinate along the side's axis is 0 on a lower side and n-1 on an upper one |
| Stencil.FaceRow | src/StencilHelper.h:49-85 | start + stridex xi + stridey yi of a side's frame is the global index of face cell (xi, yi) |
| Stencil.FaceRowsDistinct | src/StencilHelper.h:89-92 | the rows of one face lie in the patch's block and differ for different (xi, yi) |
| Stencil.NbrColumn | src/StencilHelper.h:196-239 | nbr_start of side s is the start of the neighbour's opposite face, stepped alike, so a neighbour column is the mirror cell across the shared face |
| Stencil.FineQuad | src/StencilHelper.h:471 | the quadrant has bit 0 set exactly when xi is in the upper half and bit 1 exactly when yi is |
| Stencil.FineColumns | src/StencilHelper.h:468-479 | the Fine helper produces five columns |
| Stencil.CoarseColumns | src/StencilHelper.h:339-373 | the Coarse helper produces five columns |
| Stencil.SiblingPair | src/StencilHelper.h:357-368 | the partner index differs from i, lies in the same pair, is its own partner's partner and stays on the face for even n |
| Stencil.CoarseCoordOnFace | src/StencilHelper.h:341-353 | the coarse coordinate computed from a fine face cell lies on the coarse face |
| Stencil.FineBaseOnFace | src/StencilHelper.h:472-473 | the 2x2 fine block chosen for a coarse cell lies on the fine neighbour's face |
| Stencil.FineCoarseRoundTrip | src/StencilHelper.h:339-353 | for even n, each fine cell the Fine helper picks for coarse cell x maps back to x under the Coarse helper's formula |
| Stencil.FineColumnsGeometry | src/StencilHelper.h:468-479 | column 0 is the cell itself and columns 1..4 are the 2x2 block of the fine neighbour of the cell's quadrant lying against it |
| Stencil.CoarseColumnsGeometry | src/StencilHelper.h:339-373 | columns 0..3 are the 2x2 block of the patch's face containing the cell and column 4 the coarse neighbour's face cell over it |
| StencilHelpers.KindFor | src/StencilHelper.h:481-504 | a Normal, Fine or Coarse helper exactly when the side has a neighbour of that type; otherwise Neumann exactly on Neumann sides and Dirichlet elsewhere |
| StencilHelpers.NbrStarts | src/StencilHelper.h:400-450 | each neighbour start is that neighbour's opposite face start |
| StencilHelpers.StencilHelper.Boundary | src/StencilHelper.h:45-88 | a Dirichlet or Neumann helper on a side without a neighbour has the face frame of its side and no neighbours |
| StencilHelpers.StencilHelper.Normal | src/StencilHelper.h:190-241 | a Normal helper records the neighbour's global index and the frames of both faces |
| StencilHelpers.StencilHelper.Coarse | src/StencilHelper.h:272-326 | a Coarse helper records the coarse neighbour's index and the patch's quadrant on the coarse face |
| StencilHelpers.StencilHelper.Fine | src/StencilHelper.h:386-455 | a Fine helper records the four fine neighbours' indices and their face starts |
| StencilHelpers.StencilHelper.Row | src/StencilHelper.h:89-92 | row(xi, yi) is the global index of face cell (xi, yi) of the patch |
| StencilHelpers.StencilHelper.Size | src/StencilHelper.h:93-96 | one column for the Dirichlet, Neumann and Normal helpers, five for the Coarse and Fine ones |
| StencilHelpers.StencilHelper.Cols | src/StencilHelper.h:101-105 | the columns per kind: the row itself at a boundary, the mirror cell for Normal, the Fine and Coarse five-column sets otherwise, written into the helper's own array |
| StencilHelpers.StencilHelper.CoarseCols | src/StencilHelper.h:339-373 | the Coarse helper's array holds its five columns; outside quadrants 0..3 column 4 keeps its old value |
| StencilHelpers.StencilHelper.FineCols | src/StencilHelper.h:468-479 | the Fine helper's array holds its five columns |
| StencilHelpers.GetStencilHelper | src/StencilHelper.h:481-504 | a fresh helper of the kind KindFor chooses, for the domain's patch and side, with the side's neighbour ids |
| StencilHelpers.NormalColumnIsMirror | src/StencilHelper.h:254-258 | the Normal helper's column is the neighbour's cell across the shared face |
| GhostPlan.CombineLaws | src/Thunderegg/MPIGhostFiller.h:115-171 | recording effects is associative with the empty record as unit, so the per-slot records of the loops compose |
| GhostPlan.OrdersInjective | src/Thunderegg/MPIGhostFiller.h:96-100 | the tuple orders of remote_call_set, incoming_ghost_set and the rank set tell distinct elements apart |
| GhostPlan.ClassifySlot | src/Thunderegg/MPIGhostFiller.h:121-132 | a slot whose neighbour is on this rank becomes a local call; any other slot adds its rank, its remote call and its incoming ghost to the sets |
| GhostPlan.ClassifySide | src/Thunderegg/MPIGhostFiller.h:118-168 | the switch on the neighbour type records every slot of the side: one for a normal or coarse neighbour, one per orthant of the side for a fine one |
| GhostPlan.ClassifyPatch | src/Thunderegg/MPIGhostFiller.h:116-170 | the side loop records the slots of every side that has a neighbour |
| GhostPlan.Classify | src/Thunderegg/MPIGhostFiller.h:115-171 | the patch loop records the slots of every side of every local patch |
| GhostPlan.SideDescribed | src/Thunderegg/MPIGhostFiller.h:118-168 | the record of a side's slots holds a local call for each slot on this rank and the rank, remote call and incoming ghost of each other slot, and nothing else |
| GhostPlan.PatchDescribed | src/Thunderegg/MPIGhostFiller.h:116-170 | the same holds for all sides of a patch |
| GhostPlan.AllDescribed | src/Thunderegg/MPIGhostFiller.h:115-171 | the same holds for all slots of all local patches |
| GhostPlan.OrthantDigits | src/Thunderegg/MPIGhostFiller.h:136 | the i-th orthant on side s is i with the side's bit inserted at the side's axis |
| GhostPlan.OrthantOnSideSpec | src/Thunderegg/MPIGhostFiller.h:136 | the orthants of a side are orthants of the patch whose bit for the side's axis says upper exactly on an upper side |
| GhostPlan.OrthantOnSideInjective | src/Thunderegg/MPIGhostFiller.h:136 | distinct positions on a side name distinct orthants |
| GhostPlan.FineSideOnOneRank | src/Thunderegg/MPIGhostFiller.h:134-150 | when all fine neighbours on a side live on one other rank, their remote calls are distinct while they share one incoming ghost entry, which is received once |
| GhostPlan.GhostLength | src/Thunderegg/MPIGhostFiller.h:104-111 | the inner loop computes the product of the extents with the given axis's extent replaced by the ghost count |
| GhostPlan.AxisGhostLengths | src/Thunderegg/MPIGhostFiller.h:102-113 | for each axis, the cell count of the ghost layers on a side normal to it |
| GhostPlan.GhostLengthFactors | src/Thunderegg/MPIGhostFiller.h:104-111 | that count is the ghost count times the extents of the other axes |
| GhostPlan.SortedRanksIncrease | src/Thunderegg/MPIGhostFiller.h:114 | the iteration order of the rank set is strictly increasing |
| GhostPlan.RankMaps | src/Thunderegg/MPIGhostFiller.h:172-179 | the ranks in increasing order get buffer indices 0, 1, ...; index_rank_map is the inverse of rank_index_map and both preserve order |
| GhostPlan.TilesMonotone | src/Thunderegg/MPIGhostFiller.h:183-207 | slots later in a buffer start and end no earlier |
| GhostPlan.TilesBounds | src/Thunderegg/MPIGhostFiller.h:183-222 | every slot lies inside its buffer |
| GhostPlan.TilesDisjoint | src/Thunderegg/MPIGhostFiller.h:183-222 | two slots of a buffer are the same slot or do not overlap |
| GhostPlan.TilesSum | src/Thunderegg/MPIGhostFiller.h:208-222 | without reuse a buffer is exactly as long as its slots together |
| GhostPlan.OutStart | src/Thunderegg/MPIGhostFiller.h:180-182 | one empty call list and a zero length per remote rank |
| GhostPlan.OutStep | src/Thunderegg/MPIGhostFiller.h:184-206 | one step of the remote-call layout keeps one call list and length per rank |
| GhostPlan.OutFold | src/Thunderegg/MPIGhostFiller.h:183-207 | the layout over all remote calls keeps one call list and length per rank |
| GhostPlan.RemoteCallLayout | src/Thunderegg/MPIGhostFiller.h:180-207 | the loop over remote_call_set, with the comparison pair starting as prev0 (the default pair as written, no previous call when corrected), computes the per-rank call lists and send lengths of the layout function OutFold, whose contents RemoteLayoutContents and RemoteLayoutTiles state |
| GhostPlan.CallSpans | src/Thunderegg/MPIGhostFiller.h:192-205 | each remote call occupies its offset and the ghost length of its side's axis |
| GhostPlan.TilesSnoc | src/Thunderegg/MPIGhostFiller.h:192-202 | a slot at the end of a buffer, or a repeat of its last slot, keeps the slots a tiling |
| GhostPlan.OutStepGood | src/Thunderegg/MPIGhostFiller.h:184-206 | one step keeps every send buffer tiled by its calls, with the comparison pair naming the last call |
| GhostPlan.OutFoldGood | src/Thunderegg/MPIGhostFiller.h:183-207 | after the loop started from the corrected start, every send buffer is tiled by its calls |
| GhostPlan.RemoteLayoutTiles | src/Thunderegg/MPIGhostFiller.h:180-207 | from the corrected start, in each send buffer the calls' slots lie inside it and are either the same reused slot or disjoint |
| GhostPlan.OutStartAsWritten | src/Thunderegg/MPIGhostFiller.h:180 | as written the comparison pair starts as neighbour id 0 on side 0 rather than as no previous call |
| GhostPlan.DefaultPairWraps | src/Thunderegg/MPIGhostFiller.h:180-206 | from that start a first call to neighbour 0 on side 0 is wrongly reused: its offset wraps below zero and its buffer stays empty, while the corrected start gives it [0, 4) |
| GhostPlan.InStart | src/Thunderegg/MPIGhostFiller.h:208-209 | one empty ghost list and a zero length per remote rank |
| GhostPlan.InStep | src/Thunderegg/MPIGhostFiller.h:211-221 | one step of the incoming layout keeps one ghost list and length per rank |
| GhostPlan.InFold | src/Thunderegg/MPIGhostFiller.h:210-222 | the incoming layout keeps one ghost list and length per rank |
| GhostPlan.IncomingLayout | src/Thunderegg/MPIGhostFiller.h:208-222 | the loop over incoming_ghost_set computes the per-rank ghost lists and receive lengths of the layout function |
| GhostPlan.GhostSpans | src/Thunderegg/MPIGhostFiller.h:216-221 | each incoming ghost occupies its offset and the ghost length of its side's axis |
| GhostPlan.InStepGood | src/Thunderegg/MPIGhostFiller.h:211-221 | one step keeps every receive buffer tiled by consecutive slots |
| GhostPlan.InFoldGood | src/Thunderegg/MPIGhostFiller.h:210-222 | after the loop every receive buffer is tiled by consecutive slots |
| GhostPlan.Positions | src/Thunderegg/MPIGhostFiller.h:183-222 | the positions, in set order, of the elements that belong to rank r: each one belongs to r, they increase, and none is missed |
| GhostPlan.ReuseMatchesPrev | src/Thunderegg/MPIGhostFiller.h:187-198 | starting from no previous call, the comparison pair equals the next call's (neighbour id, side) exactly when the previous call in set order has the same neighbour id and side |
| GhostPlan.LastOfRank | src/Thunderegg/MPIGhostFiller.h:187-198 | a call that reuses the previous slot follows a call of the same rank, which is the last call of that rank's buffer so far |
| GhostPlan.OutFoldHolds | src/Thunderegg/MPIGhostFiller.h:183-207 | from the corrected start, after any prefix of remote_call_set, each rank's buffer holds exactly that rank's calls so far, in set order, with reuse and offsets as in RemoteLayoutContents |
| GhostPlan.RemoteLayoutContents | src/Thunderegg/MPIGhostFiller.h:180-207 | from the corrected start, send buffer b holds exactly the remote calls of its rank, in set order, one per element; a call reuses the previous call's offset exactly when the element before it in the whole set has the same neighbour id and side; otherwise it starts where the previous call of the buffer ends, the first at 0 |
| GhostPlan.IncomingLayoutContents | src/Thunderegg/MPIGhostFiller.h:208-222 | receive buffer b holds exactly the incoming ghosts of its rank, in set order, one per element, with their local index and side |
| GhostPlan.IncomingLayoutTiles | src/Thunderegg/MPIGhostFiller.h:208-222 | the incoming ghosts of a rank get consecutive slots from 0 in set order, and the receive length is the sum of their ghost lengths |
| GhostPlan.AllSlotsSides | src/Thunderegg/MPIGhostFiller.h:116 | every slot lies on a side of a D-dimensional patch |
| GhostPlan.PlanFits | src/Thunderegg/MPIGhostFiller.h:183-222 | every remote call and incoming ghost names a rank with a buffer and a side with a ghost length, and calls naming the same neighbour agree on its rank |
| GhostPlan.MPIGhostFiller.constructor | src/Thunderegg/MPIGhostFiller.h:90-223 | local calls are exactly the slots on this rank; the remote ranks are those of the other slots, increasing; send buffer b holds exactly the remote calls of rank index_rank_map[b] in set order, reusing a slot exactly when the set's previous element has the same neighbour id and side, and receive buffer b exactly that rank's incoming ghosts; each send buffer is tiled by its calls with reuse, and each receive buffer by its ghosts, its length being their sum |
| GhostFill.OffsetShift | src/Thunderegg/MPIGhostFiller.h:59-83 | moving a cell along one axis moves its entry by that axis's stride |
| GhostFill.OffsetSplit | src/ThunderEgg/PETSc/VecWrapper.h:151-156 | a cell's entry is the first interior cell's entry plus the cell's offset from it |
| GhostFill.BufferStrides | src/Thunderegg/MPIGhostFiller.h:64-72 | the stride loop of getLocalDataForBuffer gives the row-major strides of a block whose extent along the side's axis is the ghost count |
| GhostFill.BufferView | src/Thunderegg/MPIGhostFiller.h:59-83 | the buffer view carries those strides, the patch lengths and the ghost count |
| GhostFill.BufferViewInSlot | src/Thunderegg/MPIGhostFiller.h:73-81 | through the shifted view every ghost cell of the side lands in the slot [ptr, ptr + ghost length) |
| GhostFill.BufferViewInjective | src/Thunderegg/MPIGhostFiller.h:59-83 | distinct ghost cells of the side land on distinct entries of the slot |
| GhostFill.ViewAt | src/ThunderEgg/PETSc/VecWrapper.h:151-156 | the view of a local patch addresses each cell at its place in the patch's block |
| GhostFill.ViewInArray | src/ThunderEgg/PETSc/VecWrapper.h:151-156 | every cell of a local patch is an entry of the local array |
| GhostFill.ViewInjective | src/ThunderEgg/PETSc/VecWrapper.h:151-156 | two cells of local patches at the same entry are the same cell of the same patch |
| GhostFill.Cell2 | src/Thunderegg/MPIGhostFiller.h:236-241 | a ghost-layer cell of a two-dimensional patch has two coordinates |
| GhostFill.Cell2OnSlice | src/Thunderegg/MPIGhostFiller.h:236-241 | cell j of ghost layer k of side s is a cell of the padded patch on that layer |
| GhostFill.Cell2Injective | src/Thunderegg/MPIGhostFiller.h:232-244 | two ghost-layer cells of local patches share an entry exactly when they are the same patch, side, layer and cell |
| GhostFill.SidesApart | src/Thunderegg/MPIGhostFiller.h:234-243 | ghost layers of different sides never meet; the corners belong to none |
| GhostFill.ZeroSetShrinks | src/Thunderegg/MPIGhostFiller.h:232-244 | the zeroed entries of patches 0..q are at most those of 0..q-1 plus patch q's ghost layers |
| GhostFill.ZeroSetGrows | src/Thunderegg/MPIGhostFiller.h:232-244 | and at least those |
| GhostFill.ZeroSlice | src/Thunderegg/MPIGhostFiller.h:237-240 | the entries of ghost layer k of the side become 0 and every other entry keeps its value |
| GhostFill.ZeroSide | src/Thunderegg/MPIGhostFiller.h:236-241 | the entries of layers 1..g of the side become 0 and every other entry keeps its value |
| GhostFill.ZeroPatch | src/Thunderegg/MPIGhostFiller.h:234-243 | the ghost layers of every side with a neighbour become 0 and every other entry keeps its value |
| GhostFill.ZeroGhosts | src/Thunderegg/MPIGhostFiller.h:231-244 | the first loop of fillGhost zeroes exactly the ghost layers of sides with a neighbour, over all local patches |
| GhostFill.ZeroedCells | src/Thunderegg/MPIGhostFiller.h:231-244 | a cell of a local patch is zeroed exactly when it lies on a ghost layer of a side of that patch that has a neighbour |
| GhostFill.ZeroedOnlyNbrLayers | src/Thunderegg/MPIGhostFiller.h:231-244 | only cells on ghost layers of sides with a neighbour are zeroed |
| GhostFill.NbrLayersZeroed | src/Thunderegg/MPIGhostFiller.h:231-244 | every such cell is zeroed |
| GhostFill.LayerEntry | src/Thunderegg/MPIGhostFiller.h:307-311 | a ghost-layer cell of a local patch is an entry of the local array |
| GhostFill.SlotEntry | src/Thunderegg/MPIGhostFiller.h:308-312 | the buffer entry a ghost cell reads lies in the slot [ptr, ptr + ghost length) |
| GhostFill.AddSlice | src/Thunderegg/MPIGhostFiller.h:311-316 | each cell of layer k of the side gets its buffer value added; every other entry keeps its value |
| GhostFill.AddIncoming | src/Thunderegg/MPIGhostFiller.h:302-317 | for one incoming ghost, every cell of the g layers of its side gets the slot's value added and nothing else changes |
| GhostFill.NextInSlice | src/Thunderegg/MPIGhostFiller.h:313-316 | within a layer, cell j is at none of the entries of cells 0..j-1, so each is added to once |
| GhostFill.LayerApart | src/Thunderegg/MPIGhostFiller.h:310-317 | layer m+1 of a side shares no entry with layers 1..m |
| InterLevel.LocalPairsExact | test/GMG/InterLevelComm_MPI2.cpp:28-63 | a fine patch is paired with its own parent on the local-parent list exactly when that parent is on this process |
| InterLevel.GhostPairsExact | test/GMG/InterLevelComm_MPI2.cpp:28-63 | a fine patch is paired with its own parent on the ghost-parent list exactly when that parent is on another process |
| InterLevel.Partition | test/GMG/InterLevelComm_MPI2.cpp:28-63 | every fine patch is on exactly one of the two lists, and the lists hold nothing else |
| InterLevel.PartitionSizes | test/GMG/InterLevelComm_MPI2.cpp:40-55 | the two list sizes add up to the number of fine patches |
| InterLevel.GhostParentsExact | test/GMG/InterLevelComm_MPI2.cpp:65-84 | the ghost vector has one patch per distinct remote parent and no other |
| InterLevel.Step | test/GMG/InterLevelComm_MPI2.cpp:124-374 | a start succeeds only when no exchange is in flight, a finish only when it matches the exchange in flight in direction and both vectors; a failed call leaves the state unchanged |
| InterLevel.RunAlternates | test/GMG/InterLevelComm_MPI2.cpp:86-374 | a call sequence from idle succeeds exactly when starts and finishes alternate with each finish matching its start, ending idle after an even number of calls |
| InterLevel.InterLevelComm.constructor | test/GMG/InterLevelComm_MPI2.cpp:28-84 | the communicator splits the fine patches by where their parent lives, lists the distinct remote parents and starts idle |
| InterLevel.InterLevelComm.SendGhostPatchesStart | test/GMG/InterLevelComm_MPI2.cpp:211-231 | starting a send while an exchange is in flight throws; otherwise the send is in flight on the given vectors |
| InterLevel.InterLevelComm.SendGhostPatchesFinish | test/GMG/InterLevelComm_MPI2.cpp:124-210 | finishing a send throws unless a send on the same two vectors is in flight; otherwise the communicator is idle again |
| InterLevel.InterLevelComm.GetGhostPatchesStart | test/GMG/InterLevelComm_MPI2.cpp:357-374 | starting a get while an exchange is in flight throws; otherwise the get is in flight on the given vectors |
| InterLevel.InterLevelComm.GetGhostPatchesFinish | test/GMG/InterLevelComm_MPI2.cpp:270-356 | finishing a get throws unless a get on the same two vectors is in flight; otherwise the communicator is idle again |
| InterLevel.InterLevelComm.Perform | test/GMG/InterLevelComm_MPI2.cpp:86-374 | any call of the protocol acts as Step says |
| InterLevel.TwoRankPairing | test/GMG/InterLevelComm_MPI2.cpp:28-84 | on the two-process test mesh rank 0 pairs its two children with the local parent and rank 1 its two with the ghost parent, whose ghost vector has one patch |
| BalancedLevels.ChildrenOnSide | src/BalancedLevelsGenerator.h:113-117 | a node has 2^(D-1) children on each side |
| BalancedLevels.IndexOf | src/BalancedLevelsGenerator.h:89-92 | the first position of x in s |
| BalancedLevels.IndexOfUnique | src/BalancedLevelsGenerator.h:89-92 | a position holding x with no earlier x is the first position |
| BalancedLevels.SideInfoVisitable | src/BalancedLevelsGenerator.h:96-132 | every id recorded as a neighbour is a node of the tree with a parent, so it may be visited in turn |
| BalancedLevels.SideInfoMeaning | src/BalancedLevelsGenerator.h:96-132 | a side gets a Coarse neighbour exactly when the node has none there but its parent has, naming the parent's neighbour and the node's position among the parent's children on that side; a Fine neighbour exactly when the node is below the level and its neighbour has children, naming those children on the facing side; otherwise a Normal neighbour exactly when there is one |
| BalancedLevels.ParentMeaning | src/BalancedLevelsGenerator.h:72-93 | the domain of a node carries its id and level, its parent id (itself below the level), and when that is not -1 the first orthant of the parent holding the node |
| BalancedLevels.FindOrthant | src/BalancedLevelsGenerator.h:88-93 | the loop finds the first orthant of the parent that holds the node |
| BalancedLevels.FindQuad | src/BalancedLevelsGenerator.h:100-104 | the loop finds the first position of the node among the parent's children on side s |
| BalancedLevels.FrontierAdds | src/BalancedLevelsGenerator.h:66-134 | every queued id was queued at the start or marked since |
| BalancedLevels.Enqueue | src/BalancedLevelsGenerator.h:106-109 | the id is marked, and queued at the end exactly when it was not marked before, so the queue never holds an id twice |
| BalancedLevels.FineSide | src/BalancedLevelsGenerator.h:112-123 | the recorded ids are the neighbour's children on the facing side, all of them marked |
| BalancedLevels.SideStep | src/BalancedLevelsGenerator.h:97-131 | one side records the neighbour information SideInfo gives it and marks exactly the ids it names |
| BalancedLevels.SideLoop | src/BalancedLevelsGenerator.h:96-132 | the side loop records the information of every side and marks exactly the ids it names |
| BalancedLevels.VisitNode | src/BalancedLevelsGenerator.h:71-134 | one pass of the queue loop builds the node's domain and marks every id it names |
| BalancedLevels.RefsVisitable | src/BalancedLevelsGenerator.h:96-132 | every id named by the domain of a visitable node is visitable |
| BalancedLevels.WitnessStep | src/BalancedLevelsGenerator.h:71-134 | visiting the head of the queue keeps every visited and every queued node named by a node visited earlier |
| BalancedLevels.SearchStep | src/BalancedLevelsGenerator.h:71-134 | visiting the head of the queue keeps the search's bookkeeping |
| BalancedLevels.OrderStep | src/BalancedLevelsGenerator.h:71-134 | the visit order stays free of repeats and lists exactly the recorded ids |
| BalancedLevels.MarkedStep | src/BalancedLevelsGenerator.h:71-134 | the marked ids stay the recorded ids plus the queued ones, disjointly, and cover every id a recorded domain names |
| BalancedLevels.SearchStateStep | src/BalancedLevelsGenerator.h:71-134 | the head of the queue is an unrecorded node, and recording its domain keeps the state of the search |
| BalancedLevels.ExtractLevelMap | src/BalancedLevelsGenerator.h:64-134 | the search records each visited node's own domain, starts from the level's start node, visits no node twice, is closed under naming, and reaches every node through one visited before it |
| BalancedLevels.VisitedInClosed | src/BalancedLevelsGenerator.h:71-134 | each visited node lies in every set closed under naming that holds the start |
| BalancedLevels.SearchFindsLevel | src/BalancedLevelsGenerator.h:64-134 | the map the search builds is the level: the least set closed under naming that holds the start |
| BalancedLevels.LevelUnique | src/BalancedLevelsGenerator.h:64-134 | the level does not depend on the order of the search |
| BalancedLevels.PinsAsWrittenNeverShared | src/BalancedLevelsGenerator.h:206 | as written the two sides of one interface never share a pin |
| BalancedLevels.TwoPatchPins | src/BalancedLevelsGenerator.h:187-207 | for two patches side by side, the pins as written are 1 and 0, while the corrected pins are both 1 |
| BalancedLevels.PinsShared | src/BalancedLevelsGenerator.h:187-207 | with the edge owner's side, both sides of an interface get the same pin |
| BalancedLevels.PinDecodes | src/BalancedLevelsGenerator.h:187-207 | a pin decodes to the edge owner's id and side, so two sides share a pin exactly when they name the same owner and the same side of it |
| BalancedLevels.VertexPins | src/BalancedLevelsGenerator.h:387-413 | a vertex has one pin per side, then on the upper level of a two-level graph the pin -id-1, with the corrected pins (the edge owner's side, not the vertex's own side) |
| BalancedLevels.LevelPinsAt | src/BalancedLevelsGenerator.h:183-208 | the pins of vertex i occupy positions [w i, w i + w) |
| BalancedLevels.LevelPinsLength | src/BalancedLevelsGenerator.h:183-208 | a level with w pins per vertex has w pins times its vertex count |
| BalancedLevels.ChildPinsAt | src/BalancedLevelsGenerator.h:416-421 | fine vertex j has exactly one pin, its parent's level hyperedge |
| BalancedLevels.LevelGraphPins | src/BalancedLevelsGenerator.h:183-208 | in a level graph the pins of vertex i start at ptrs[i], one per side, with the corrected pins (the edge owner's side, not the vertex's own side) |
| BalancedLevels.TwoLevelShape | src/BalancedLevelsGenerator.h:384-421 | coarse vertices have num_sides + 1 pins and fine vertices one, and ptrs says so |
| BalancedLevels.FineVertexPin | src/BalancedLevelsGenerator.h:416-421 | a fine vertex's only pin is its parent's level hyperedge |
| BalancedLevels.CoarseLevelPin | src/BalancedLevelsGenerator.h:412-413 | a coarse vertex's last pin is its own level hyperedge |
| BalancedLevels.ChildJoinsParent | src/BalancedLevelsGenerator.h:386-421 | a fine vertex and its parent's coarse vertex share the parent's level hyperedge |
| BalancedLevels.AppendVertexPins | src/BalancedLevelsGenerator.h:187-207 | the pins of one vertex are appended, with the corrected pins (the edge owner's side, not the vertex's own side) |
| BalancedLevels.LevelGraph | src/BalancedLevelsGenerator.h:183-208 | the level's domains in key order, num_sides (+1) pins apart, with their pins, with the corrected pins (the edge owner's side, not the vertex's own side) |
| BalancedLevels.LevelGraphStep | src/BalancedLevelsGenerator.h:183-208 | one vertex of that loop keeps its invariant |
| BalancedLevels.AppendChildren | src/BalancedLevelsGenerator.h:415-421 | the finer level's domains follow in key order, each with its parent's level pin |
| BalancedLevels.TwoLevelGraph | src/BalancedLevelsGenerator.h:384-421 | the graph of balanceLevelWithLower: the coarse level then the fine level, with the corrected pins (the edge owner's side, not the vertex's own side) |
| BalancedLevels.TwoLevelFromParts | src/BalancedLevelsGenerator.h:384-421 | the two halves together form that graph |
| BalancedLevels.LevelKeyed | src/BalancedLevelsGenerator.h:133 | an extracted level stores each domain under its own id |
| BalancedLevels.LevelsKeyed | src/BalancedLevelsGenerator.h:43-49 | all extracted levels store each domain under its own id |
| BalancedLevels.BalancedLevelsGenerator.constructor | src/BalancedLevelsGenerator.h:43-49 | one map per tree level; on rank 0 map i is level i+1 of the tree, elsewhere it is empty |
| BalancedLevels.BalancedLevelsGenerator.ExtractLevel | src/BalancedLevelsGenerator.h:60-139 | on rank 0 the level's domains are added to its map; other ranks leave it unchanged |
| BalancedLevels.BalancedLevelsGenerator.BalanceLevel | src/BalancedLevelsGenerator.h:140-208 | the partitioner gets every domain of the level once, in id order, with one pin per side and no weights, with the corrected pins (the edge owner's side, not the vertex's own side) |
| BalancedLevels.BalancedLevelsGenerator.BalanceLevelWithLower | src/BalancedLevelsGenerator.h:328-477 | the two-level graph, weight 1 for coarse and 0 for fine domains, and the fine domains fixed to this rank, with the corrected pins (the edge owner's side, not the vertex's own side) |
| BalancedLevels.BalancedLevelsGenerator.ZoltanBalance | src/BalancedLevelsGenerator.h:50-56 | the finest level alone first, then each coarser level with the one below it, finest first, with the corrected pins (the edge owner's side, not the vertex's own side) |
| OrderedSets.LessTotal | src/Thunderegg/MPIGhostFiller.h:96-100 | lexicographic tuple order is total on distinct tuples, as std::set needs |
| OrderedSets.LessTransitive | src/Thunderegg/MPIGhostFiller.h:96-100 | the tuple order is transitive |
| OrderedSets.LessIrreflexive | src/Thunderegg/MPIGhostFiller.h:96-100 | no tuple is below itself |
| OrderedSets.Insert | src/Thunderegg/MPIGhostFiller.h:127-131 | emplace keeps the set in key order; it is unchanged when an element with the same key is present, and gains exactly x otherwise |
| OrderedSets.InsertElem | src/Thunderegg/MPIGhostFiller.h:126 | inserting into a set whose key identifies its elements adds x to it |
| OrderedSets.SetOfDistinct | src/Thunderegg/MPIGhostFiller.h:172-179 | a list without repetitions has as many elements as its set |
| OrderedSets.Least | domain_decomp/3D-petsc-example/DomainCollection.cpp:342-349 | the least element of a non-empty set is in the set and below every other element |
| OrderedSets.MinOf | domain_decomp/3D-petsc-example/DomainCollection.cpp:342-349 | *todo.begin() is the least element of the set, the one Least names |
| OrderedSets.SortedKeys | src/BalancedLevelsGenerator.h:183 | a range-for over a std::map visits its keys once each, in increasing order |
| LocalIndexing.ScanFacts | domain_decomp/3D-petsc-example/DomainCollection.cpp:360-374 | after the scan every named neighbour is enqueued; those not enqueued before are appended, without repetition, to the queue when local and to the off-process list otherwise, and the old queue and list are prefixes of the new |
| LocalIndexing.ScanNbrs | domain_decomp/3D-petsc-example/DomainCollection.cpp:360-374 | the loop over d.nbr_id computes the scan function Scan |
| LocalIndexing.RunPop | domain_decomp/3D-petsc-example/DomainCollection.cpp:351-375 | a non-empty queue: the next traversal step numbers its front and scans the front's neighbours |
| LocalIndexing.RunRestart | domain_decomp/3D-petsc-example/DomainCollection.cpp:347-350 | an empty queue with ids left: the next step starts a component at the least id not numbered, enqueueing it |
| LocalIndexing.RunHalts | domain_decomp/3D-petsc-example/DomainCollection.cpp:347 | an empty queue with every id numbered: the traversal has halted |
| LocalIndexing.HaltedStays | domain_decomp/3D-petsc-example/DomainCollection.cpp:347-376 | once halted, the traversal stays where it is |
| LocalIndexing.BfsNumberingUnique | domain_decomp/3D-petsc-example/DomainCollection.cpp:341-377 | the breadth-first numbering is a function of the domains and their neighbour lists: two numberings of the same input are equal |
| LocalIndexing.BfsOrderExample | domain_decomp/3D-petsc-example/DomainCollection.cpp:347-375 | with domain 0 listing neighbours 2, 7 and 1, the order is 0, 2, 1 with 7 off-process, and not the sorted 0, 1, 2 |
| LocalIndexing.PopFront | domain_decomp/3D-petsc-example/DomainCollection.cpp:351-375 | one pass of the inner loop is the next step of the traversal: it numbers the front of the queue, removes it from todo, and keeps every other queued id queued |
| LocalIndexing.WalkStart | domain_decomp/3D-petsc-example/DomainCollection.cpp:347-350 | starting a component at the least unnumbered id keeps the traversal state |
| LocalIndexing.WalkStep | domain_decomp/3D-petsc-example/DomainCollection.cpp:351-375 | numbering the front of the queue and scanning its neighbours keeps the traversal state |
| LocalIndexing.WalkDone | domain_decomp/3D-petsc-example/DomainCollection.cpp:341-377 | when nothing is left, every local id is numbered and the off-process list holds exactly the named non-local neighbours |
| LocalIndexing.WalkFront | domain_decomp/3D-petsc-example/DomainCollection.cpp:352-354 | the front of the queue is a local id not yet numbered |
| LocalIndexing.Visit | domain_decomp/3D-petsc-example/DomainCollection.cpp:348-375 | one component is numbered from its start until the queue is empty, each pass being the next step of the traversal, and at least the start is numbered |
| LocalIndexing.NumberLocal | domain_decomp/3D-petsc-example/DomainCollection.cpp:341-377 | the outer loop numbers every local id, starting at the least, and its order and off-process list are the halted traversal's, BfsNumbering |
| LocalIndexing.Bfs | domain_decomp/3D-petsc-example/DomainCollection.cpp:334-388 | map_vec lists each local id once, starting at the least, in breadth-first order (BfsNumbering); the off-process list holds each named non-local neighbour once, in order of first sight; rev_map numbers local ids by position and off-process ids after them |
| LocalIndexing.NumberOffProc | domain_decomp/3D-petsc-example/DomainCollection.cpp:378-382 | the "map off proc" loop numbers the off-process ids after the local ones, in list order, and leaves the local numbers alone |
| LocalIndexing.RevBijection | domain_decomp/3D-petsc-example/DomainCollection.cpp:378-382 | rev_map is a bijection from the numbered ids onto 0 .. curr_i - 1 |
| DomainCollection3D.GridIdAsWrittenCollides | domain_decomp/3D-petsc-example/DomainCollection.cpp:15 | with getID as written, cells (2,0,0) and (0,1,0) of a 3 x 2 x 1 grid both get id 2 |
| DomainCollection3D.GridIdDecodes | domain_decomp/3D-petsc-example/DomainCollection.cpp:15-23 | the row-major id of a cell lies below d_x d_y d_z and decodes back to the cell |
| DomainCollection3D.GridIdCovers | domain_decomp/3D-petsc-example/DomainCollection.cpp:17-23 | every id below num_global_domains is the id of exactly the cell it decodes to |
| DomainCollection3D.GridIdInjective | domain_decomp/3D-petsc-example/DomainCollection.cpp:15-23 | two cells of the grid with the same id are the same cell |
| DomainCollection3D.CellNbrs | domain_decomp/3D-petsc-example/DomainCollection.cpp:25-42 | each domain has one neighbour entry per side, six in all, with the corrected cell id (x + y d_x + z d_x d_y) and z_start (domain_z / d_z) |
| DomainCollection3D.CellNbrsMeaning | domain_decomp/3D-petsc-example/DomainCollection.cpp:25-42 | a side has a neighbour exactly when the cell is not on that face of the grid; the neighbour is the adjacent cell, and its opposite side names the cell back, with the corrected cell id (x + y d_x + z d_x d_y) and z_start (domain_z / d_z) |
| DomainCollection3D.ZStartAsWrittenLeavesCube | domain_decomp/3D-petsc-example/DomainCollection.cpp:45-48 | with z_start divided by d_y as written, the upper domain of a 1 x 1 x 2 grid reaches past z = 1 |
| DomainCollection3D.CellDomainInCube | domain_decomp/3D-petsc-example/DomainCollection.cpp:43-48 | with z_start = z / d_z, every domain lies inside the unit cube along all three axes |
| DomainCollection3D.GridPrefixStep | domain_decomp/3D-petsc-example/DomainCollection.cpp:22-49 | one pass of the innermost loop stores the next id's domain, keeping the map a prefix of the grid, with the corrected cell id (x + y d_x + z d_x d_y) and z_start (domain_z / d_z) |
| DomainCollection3D.BuildRow | domain_decomp/3D-petsc-example/DomainCollection.cpp:21-50 | the x loop stores the domains of one row of cells, in id order, with the corrected cell id (x + y d_x + z d_x d_y) and z_start (domain_z / d_z) |
| DomainCollection3D.BuildLayer | domain_decomp/3D-petsc-example/DomainCollection.cpp:20-51 | the y and x loops store the domains of one layer of cells, with the corrected cell id (x + y d_x + z d_x d_y) and z_start (domain_z / d_z) |
| DomainCollection3D.BuildGrid | domain_decomp/3D-petsc-example/DomainCollection.cpp:19-52 | the three loops store the domain of every cell under its id, with the corrected cell id (x + y d_x + z d_x d_y) and z_start (domain_z / d_z) |
| DomainCollection3D.GridDomains | domain_decomp/3D-petsc-example/DomainCollection.cpp:17-52 | the grid holds num_global_domains domains, one per cell under the cell's id, and nothing else, with the corrected cell id (x + y d_x + z d_x d_y) and z_start (domain_z / d_z) |
| DomainCollection3D.GridRenumbered | domain_decomp/3D-petsc-example/DomainCollection.cpp:54-55 | after local numbering the ids are still 0 .. d_x d_y d_z - 1 and each domain is its cell's domain up to id_local, with the corrected cell id (x + y d_x + z d_x d_y) and z_start (domain_z / d_z) |
| DomainCollection3D.AddIface | domain_decomp/3D-petsc-example/DomainCollection.cpp:68-69 | ifaces[g].insert creates the set for g when absent and keeps every other id |
| DomainCollection3D.DescribesAdd | domain_decomp/3D-petsc-example/DomainCollection.cpp:63-70 | inserting one side's interface keeps ifaces an exact grouping of the interfaces seen by id |
| DomainCollection3D.DescribesKeys | domain_decomp/3D-petsc-example/DomainCollection.cpp:74 | the interface ids present are exactly the ids of the sides seen, so num_global_interfaces counts distinct ids |
| DomainCollection3D.SideEntriesNext | domain_decomp/3D-petsc-example/DomainCollection.cpp:61-72 | one more side contributes its interface exactly when it has a neighbour |
| DomainCollection3D.EntriesNext | domain_decomp/3D-petsc-example/DomainCollection.cpp:59-73 | one more domain contributes the interfaces of its six sides |
| DomainCollection3D.EnumerateEntries | domain_decomp/3D-petsc-example/DomainCollection.cpp:57-73 | the loops group the interface of every side with a neighbour, of every domain, by interface id, none yet numbered |
| DomainCollection3D.FirstIndex | domain_decomp/3D-petsc-example/DomainCollection.cpp:415 | the first position where an id occurs |
| DomainCollection3D.DomainGids | domain_decomp/3D-petsc-example/DomainCollection.cpp:411-421 | six interface ids per visited domain |
| DomainCollection3D.DomainGidsElems | domain_decomp/3D-petsc-example/DomainCollection.cpp:407-421 | the ids seen are exactly the interface ids of the visited domains' sides |
| DomainCollection3D.SightStep | domain_decomp/3D-petsc-example/DomainCollection.cpp:414-419 | a new id other than -1 is appended and numbered next; anything else changes nothing |
| DomainCollection3D.NumberFirstSight | domain_decomp/3D-petsc-example/DomainCollection.cpp:413-421 | map_vec lists each id other than -1 once, in order of first sight, and rev_map gives each its position |
| DomainCollection3D.DomainNbrs | domain_decomp/3D-petsc-example/DomainCollection.cpp:360 | the neighbour list of every domain, under its id |
| DomainCollection3D.IfaceNbrs | domain_decomp/3D-petsc-example/DomainCollection.cpp:268 | the neighbouring sets of every interface set, under its id |
| DomainCollection3D.DomainsUpToLocal | domain_decomp/3D-petsc-example/DomainCollection.cpp:356-358 | setting id_local changes neither the interfaces, nor their ids, nor any neighbour list |
| DomainCollection3D.IfacesUpToLocal | domain_decomp/3D-petsc-example/DomainCollection.cpp:265-267 | setting id_local keeps the grouping by interface id, the count and the neighbour lists |
| DomainCollection3D.WithLocal | domain_decomp/3D-petsc-example/DomainCollection.cpp:356-358 | a domain with id_local set and nothing else changed |
| DomainCollection3D.SetWithLocal | domain_decomp/3D-petsc-example/DomainCollection.cpp:265-267 | an interface set with id_local set and nothing else changed |
| DomainCollection3D.DomainCollection.constructor | domain_decomp/3D-petsc-example/DomainCollection.cpp:13-56 | rank 0 holds exactly one domain per grid cell and the other ranks none; then the interfaces are grouped and every numbering holds, with the corrected cell id (x + y d_x + z d_x d_y) and z_start (domain_z / d_z) |
| DomainCollection3D.DomainCollection.EnumerateIfaces | domain_decomp/3D-petsc-example/DomainCollection.cpp:57-75 | the interfaces of all sides with neighbours are grouped by id and num_global_interfaces is the number of ids |
| DomainCollection3D.DomainCollection.ReIndex | domain_decomp/3D-petsc-example/DomainCollection.cpp:76-81 | the three numberings all hold afterwards and the domains change only in id_local |
| DomainCollection3D.DomainCollection.IndexDomainIfacesLocal | domain_decomp/3D-petsc-example/DomainCollection.cpp:391-437 | iface_dist_map_vec lists every interface id of a local domain's side once, in the order the ids are first seen when the domains' sides are read along the breadth-first order of the domains |
| DomainCollection3D.DomainCollection.IndexDomainsLocal | domain_decomp/3D-petsc-example/DomainCollection.cpp:334-390 | every domain gets its breadth-first position as id_local; domain_map_vec and the off-process list are the breadth-first numbering (BfsNumbering) of the domains; the interfaces and the side numbering are untouched |
| DomainCollection3D.DomainCollection.IndexIfacesLocal | domain_decomp/3D-petsc-example/DomainCollection.cpp:242-296 | every interface set gets its breadth-first position as id_local; iface_map_vec and the off-process list are the breadth-first numbering (BfsNumbering) of the interface sets |
| DomainCollection3D.NumberSides | domain_decomp/3D-petsc-example/DomainCollection.cpp:393-436 | the traversal of indexDomainIfacesLocal lists every side id of a local domain once, in order of first sight along the breadth-first order of the domains |
| DomainCollection3D.SidesAlong | domain_decomp/3D-petsc-example/DomainCollection.cpp:405-418 | reading the six side ids of each domain along an order of all local domains and numbering each new id lists every side id once (no -1), in order of first sight |
| DomainCollection3D.DistNumberingFrom | domain_decomp/3D-petsc-example/DomainCollection.cpp:391-437 | numbering the side ids on first sight along a breadth-first order of the domains gives the numbering indexDomainIfacesLocal promises, whichever breadth-first order is asked about |
| DomainCollection3D.DomainGidsUpToLocal | domain_decomp/3D-petsc-example/DomainCollection.cpp:405-418 | the side ids read along an order do not depend on the domains' local indexes |
| DomainCollection3D.DistUpToLocal | domain_decomp/3D-petsc-example/DomainCollection.cpp:78-79 | setting the domains' local indexes keeps the side numbering made before it |
| DomainCollection2D.FreshTable | domain_decomp/2D-trilinos-example/DomainCollection.cpp:26-33 | a new domain has an index array entry for every side, none of them assigned |
| DomainCollection2D.Iota | domain_decomp/2D-trilinos-example/DomainCollection.cpp:151-160 | the offsets 0 .. len - 1 appended after each handed-out index |
| DomainCollection2D.Enqueue | domain_decomp/2D-trilinos-example/DomainCollection.cpp:199-206 | an id goes to the back of the queue exactly when it was not enqueued before, and becomes enqueued; the queue never repeats |
| DomainCollection2D.SideStepMeaning | domain_decomp/2D-trilinos-example/DomainCollection.cpp:148-301 | an indexed or neighbourless side changes nothing; otherwise the side gets curr_i and: a normal neighbour shares it; fine neighbours take it as center and get the next two indexes; a coarse neighbour gets left and right refined indexes in the order leftOfCoarse gives, the buddy shares the second, and the third is the center of this domain, the buddy and the neighbour's index |
| DomainCollection2D.SideStepKeeps | domain_decomp/2D-trilinos-example/DomainCollection.cpp:148-301 | every index written is below the new curr_i, no assigned index is lost, and only domains of the collection are offered to the queue |
| DomainCollection2D.PushKeeps | domain_decomp/2D-trilinos-example/DomainCollection.cpp:199-206 | offering ids keeps the queue free of repeats, leaves its front part alone and appends exactly the ids not enqueued before |
| DomainCollection2D.WalkStart | domain_decomp/2D-trilinos-example/DomainCollection.cpp:136-139 | a component starts at *not_visited.begin(), which nobody has enqueued |
| DomainCollection2D.WalkPop | domain_decomp/2D-trilinos-example/DomainCollection.cpp:141-145 | the front of the queue is a domain not visited yet, and popping it visits it |
| DomainCollection2D.WalkPush | domain_decomp/2D-trilinos-example/DomainCollection.cpp:199-206 | enqueueing domains not enqueued before keeps the walk |
| DomainCollection2D.DomainCollection.constructor | domain_decomp/2D-trilinos-example/DomainCollection.cpp:18-34 | one domain per signature, no side indexed and no index handed out |
| DomainCollection2D.DomainCollection.AllocIndex | domain_decomp/2D-trilinos-example/DomainCollection.cpp:150-161 | handing out curr_i appends its Iface::size interface ids and its n unknown ids to the lists and moves curr_i on by one |
| DomainCollection2D.DomainCollection.IndexFine | domain_decomp/2D-trilinos-example/DomainCollection.cpp:164-206 | the fine case writes the indexes SideStepMeaning describes |
| DomainCollection2D.DomainCollection.IndexCoarse | domain_decomp/2D-trilinos-example/DomainCollection.cpp:208-290 | the coarse case finds the buddy through the coarse neighbour and writes the indexes SideStepMeaning describes |
| DomainCollection2D.DomainCollection.IndexNormal | domain_decomp/2D-trilinos-example/DomainCollection.cpp:293-300 | the normal case shares the side's index with the neighbour |
| DomainCollection2D.DomainCollection.ProcessSide | domain_decomp/2D-trilinos-example/DomainCollection.cpp:148-302 | one pass of the side loop performs the side step and offers its domains to the queue |
| DomainCollection2D.DomainCollection.VisitDomain | domain_decomp/2D-trilinos-example/DomainCollection.cpp:146-304 | after the four sides every side with a neighbour holds an index, no index is lost, and the queue grows by the domains newly enqueued |
| DomainCollection2D.DomainCollection.GenerateMaps | domain_decomp/2D-trilinos-example/DomainCollection.cpp:119-324 | every domain is visited once, every side with a neighbour of every domain gets an index, and the four maps are the id lists (or [0] for a single domain) |

## Left out

- `Domain.h`, `PatchInfo.h`, `Side.h`, `LocalData.h`, `Iface.h`, `DomainSignature.h` and `InterLevelComm.h` are not part of this model. The model gives its reading of what it needs from them as values: a side numbered 0..2D-1 on axis s/2, lower when even, with west as the default `Side` (the 2-D example collection instead has its own side numbering, north = 0, east = 1, south = 2, west = 3, and its opposite side is two steps on); a ghost slice k on side s; a domain's neighbour ids and interface ids; and the InterLevelComm state machine.
- MPI transport (`MPI_Irecv`, `MPI_Isend`, `MPI_Waitany`, `MPI_Waitall`, `MPI_Comm_rank`) is left out as concurrency. Ranks are parameters. The exchange is modelled as accumulating one received buffer slot at a time, in any order.
- `fillGhostCellsForNbrPatch` and `fillGhostCellsForLocalPatch` are left out: they are pure virtual in the source. Only the zeroing and the `+=` accumulation are modelled.
- GhostFill.ZeroGhosts: modelled for two-dimensional patches only, because the source hard-codes `LocalData<2>` and `Side<2>` in that loop. For the same reason the accumulation (`AddSlice`, `AddIncoming`) is modelled on two-dimensional patches.
- PETSc AO and `MPI_Scan` global renumbering (`indexDomainsGlobal`, `indexIfacesGlobal`) are left out as foreign calls. So are `setLocalIndexes` and `setLocalNeighborIndexes`, which `Domain.h` and `Iface.h` define.
- Zoltan is left out as a foreign library: `Zoltan_LB_Partition`, migration, its pack/unpack callbacks, and serialization. `zoltanBalance` is modelled as the order of the balancing calls it makes. The graphs and object lists handed to the partitioner are modelled; the partitions it returns are not.
- Floating-point numerics are left out: stencil coefficients, interpolation weights, norms, `integrate`, `volume`, the Fftw patch solver, and `formRBMatrix`. Domain extents are exact reals, so `CellDomainInCube` holds for real division rather than for doubles.
- Output and the 2-D collection's `init*` right-hand sides and boundary values are left out as I/O and floating point. The JSON configuration is a `map<string, int>` argument.
- `InterLevelComm` data movement (the values the tests check after an exchange) is left out: it depends on MPI delivery and on an implementation that is not shown. The model assumes one exchange in flight, shared by send and get. A finish of the other direction fails, and a refused call leaves the state as it was.
- `GMG::Helper` builds operators, smoothers and domain collections from the tree. These appear here as symbolic references to what each level is given (`Collection`, `SmootherRef`, `Transfer`); their construction is not modelled.
- The 2-D `generateMaps` sets `visited`, `curr_c_i` and `curr_matrix_i`, which are written but never read; they are left out. The Trilinos maps are the id lists they are made from.
- The 3-D `indexDomainsLocal` keeps an `offs` set that only repeats the `enqueued` test; it is left out.
- The index arrays of all 2-D domains are one table keyed by (domain, array, side), not four arrays per domain object. Aliasing between domain objects is therefore not modelled.
- The source's `int` and `size_t` are unbounded integers here: 32-bit overflow of `curr_i * n`, `edge_id * num_sides` and the like is not modelled. The exception is the buffer offset of the ghost exchange, where `size_t` wrap-around is the point of a finding.
- `VecDestroy` ownership, `VecGetArray` and `VecRestoreArray` are left out: the vector is an abstract local size plus a lock state.
- VertexPins: BalancedLevels.VertexPins uses the corrected pin `Pin`, edge id times num_sides plus the side of the edge's owner, not the `+ s` of BalancedLevelsGenerator.h:206 and :403 (see Findings). The pins as written are `PinAsWritten`, and `PinsAsWrittenNeverShared` states their defect.
- AppendVertexPins: BalancedLevels.AppendVertexPins appends the corrected pins of `VertexPins`, not the pins as written.
- LevelGraphPins: BalancedLevels.LevelGraphPins states the corrected pins of `VertexPins`, not the pins as written.
- LevelGraph: BalancedLevels.LevelGraph builds the level graph with the corrected pins of `VertexPins`, not the pins as written.
- TwoLevelGraph: BalancedLevels.TwoLevelGraph builds the two-level graph with the corrected pins of `VertexPins`, not the pins as written.
- BalanceLevel: BalancedLevels.BalancedLevelsGenerator.BalanceLevel hands the partitioner the graph with the corrected pins, not the pins as written.
- BalanceLevelWithLower: BalancedLevels.BalancedLevelsGenerator.BalanceLevelWithLower hands the partitioner the two-level graph with the corrected pins, not the pins as written.
- ZoltanBalance: in BalancedLevels.BalancedLevelsGenerator.ZoltanBalance the balancing calls use the corrected pins, not the pins as written.
- CellNbrs: DomainCollection3D.CellNbrs names neighbours by the corrected row-major cell id `GridId`, not by `getID` of DomainCollection.cpp:15 as written, which `GridIdAsWritten` models and `GridIdAsWrittenCollides` shows is not one to one (see Findings).
- CellNbrsMeaning: DomainCollection3D.CellNbrsMeaning states the neighbours under the corrected cell id, not under `getID` as written.
- GridPrefixStep: DomainCollection3D.GridPrefixStep stores domains under the corrected cell id and with the corrected z_start, `domain_z / d_z`, not the `domain_z / d_y` of DomainCollection.cpp:48, which `ZStartAsWritten` models (see Findings).
- BuildRow: DomainCollection3D.BuildRow builds the corrected domains (corrected cell id and z_start), not the domains as written.
- BuildLayer: DomainCollection3D.BuildLayer builds the corrected domains (corrected cell id and z_start), not the domains as written.
- BuildGrid: DomainCollection3D.BuildGrid builds the corrected domains (corrected cell id and z_start), not the domains as written.
- GridDomains: DomainCollection3D.GridDomains states the corrected grid (corrected cell id and z_start), not the grid as written: as written a 3 x 2 x 1 grid stores 5 domains, not 6, because two cells share id 2.
- GridRenumbered: DomainCollection3D.GridRenumbered states the corrected grid (corrected cell id and z_start), not the grid as written.
- constructor: DomainCollection3D.DomainCollection.constructor builds the corrected grid (corrected cell id and z_start), not the grid as written, where domains can overwrite each other.
- constructor: GhostPlan.MPIGhostFiller.constructor lays out the remote calls starting from "no previous call", the corrected start, not from the default-constructed pair of MPIGhostFiller.h:180 (see Findings). `RemoteCallLayout` given `Some(IdSide(0, 0))` is the loop as written, and `DefaultPairWraps` shows its defect.
- RemoteLayoutContents: GhostPlan.RemoteLayoutContents states the send buffers of the corrected start, not of the start as written.
- RemoteLayoutTiles: GhostPlan.RemoteLayoutTiles states the send buffers of the corrected start, not of the start as written.
- OutFoldHolds: GhostPlan.OutFoldHolds states the send buffers of the corrected start, not of the start as written.
- OutFoldGood: GhostPlan.OutFoldGood states the send buffers of the corrected start, not of the start as written.
- DomainCollection2D.DomainCollection.GenerateMaps: requires a `Mesh`, in which every domain the side loop reads with `domains.at` is present (DomainCollection.cpp:142, 165-166, 209, 213, 247, 294). On a missing neighbour the source throws `std::out_of_range`; that error path is not modelled. The same `Mesh` requirement, checked side by side through `SideOk`, is on `ProcessSide`, `VisitDomain`, `IndexFine`, `IndexCoarse` and `IndexNormal`. `SideOk` also asks that the domains written on one side are different domains, which the source does not check.
- InterLevel.LocalParentPairs and InterLevel.GhostParentPairs state only a length bound on their own; their meaning is stated by `LocalPairsExact`, `GhostPairsExact` and `Partition`.

## Findings

| source | as written | input that shows it | evidently intended | confidence | as-written member | corrected member |
|---|---|---|---|---|---|---|
| domain_decomp/3D-petsc-example/DomainCollection.cpp:15 | `getID` is `x + y*d_y + z*d_z*d_z`, which is not one to one | d_x = 3, d_y = 2, d_z = 1: cells (2,0,0) and (0,1,0) both get id 2, so one domain overwrites the other | the row-major id `x + y*d_x + z*d_x*d_y`, a bijection onto 0 .. d_x d_y d_z - 1 | high, not executed | DomainCollection3D.GridIdAsWrittenCollides | DomainCollection3D.GridIdInjective |
| domain_decomp/3D-petsc-example/DomainCollection.cpp:48 | `z_start = 1.0 * domain_z / d_y` divides by the y count | d_x = d_y = 1, d_z = 2: the upper domain starts at z = 1 and reaches z = 1.5 | `domain_z / d_z`, so the domains tile the unit cube | high, not executed | DomainCollection3D.ZStartAsWrittenLeavesCube | DomainCollection3D.CellDomainInCube |
| src/Thunderegg/MPIGhostFiller.h:180-206 | `prev_id_side` starts default-constructed, as neighbour id 0 on the default side, so the first remote call can match it | a rank-1 patch whose west neighbour is patch 0 on rank 0: its only remote call has id 0 and side west, and its offset becomes 0 - length, which wraps around in `size_t`, while the buffer stays empty | no previous call at the start, so the first call always gets a new slot | medium (assumes the default `Side` is west), not executed | GhostPlan.DefaultPairWraps | GhostPlan.RemoteLayoutTiles |
| src/BalancedLevelsGenerator.h:206 | the pin is `edge_id * num_sides + s` with the vertex's own side, so the two sides of one interface get different pins | 2-D, patch 0 with patch 1 to its east: patch 0's east side is pin 1, patch 1's west side pin 0, so the interface between them gives them no common pin | the side of the edge's owner, so both sides of an interface share one pin | medium, not executed | BalancedLevels.PinsAsWrittenNeverShared | BalancedLevels.PinsShared |
