/**
 * Assembly of the multigrid hierarchy by GMG::Helper (3-D solver): how many levels
 * there are, which domain collection, operator, smoother, restrictor and interpolator
 * each level gets, and how the levels are linked into a chain rooted at the finest.
 */
module GmgHelper {
  import opened Wrappers
  import opened Levels
  import opened Cycles

  /** The level count: `max_levels` from the configuration, unless it is absent, not
      positive, or deeper than the refinement tree, in which case the tree depth. */
  function NumLevels(config: map<string, int>, treeLevels: int): (r: int)
    ensures r == treeLevels || ("max_levels" in config && r == config["max_levels"])
    ensures 1 <= treeLevels ==> 1 <= r <= treeLevels
    ensures "max_levels" !in config ==> r == treeLevels
  {
    var m := if "max_levels" in config then config["max_levels"] else 0;
    if m <= 0 || m > treeLevels then treeLevels else m
  }

  /** Level 0 discretizes the collection handed to the builder; level i > 0 the one
      extracted from tree level (tree depth - i). */
  function CollectionOf(treeLevels: int, i: nat): Collection
  {
    if i == 0 then Given else FromTree(treeLevels - i)
  }

  /** Level 0 smooths with the caller's Schur helper; the others with one made for
      their own collection. */
  function SmootherOf(treeLevels: int, i: nat): SmootherRef
  {
    if i == 0 then GivenSchur else SchurFor(CollectionOf(treeLevels, i))
  }

  /** Restrictor i and interpolator i both go from collection i (fine) to collection i+1
      (coarse) and share inter-level comm i. */
  function TransferOf(i: nat): Transfer
  {
    Transfer(i + 1, i, i)
  }

  /** Level i as the first loop of the builder leaves it: its collection, operator and
      smoother set, not yet linked to other levels. */
  ghost predicate Made(l: Level, treeLevels: int, i: nat)
    reads l
  {
    && l.collection == CollectionOf(treeLevels, i)
    && l.op == Some(CollectionOf(treeLevels, i))
    && l.smoother == Some(SmootherOf(treeLevels, i))
    && l.coarser == null && l.finer == null
  }

  /** The components level i of n carries once the builder is done: restrictor i (none on
      the coarsest level) and interpolator i-1 (none on the finest). */
  function Expected(treeLevels: int, i: nat, n: nat): Components
  {
    Components(Some(CollectionOf(treeLevels, i)), Some(SmootherOf(treeLevels, i)),
               if i < n - 1 then Some(TransferOf(i)) else None,
               if i > 0 then Some(TransferOf(i - 1)) else None)
  }

  ghost predicate Wired(l: Level, treeLevels: int, i: nat, n: nat)
    reads l
  {
    l.collection == CollectionOf(treeLevels, i) && l.Payload() == Expected(treeLevels, i, n)
  }

  /** Distinct level objects. */
  ghost predicate Distinct(levels: seq<Level>)
  {
    forall j, k :: 0 <= j < k < |levels| ==> levels[j] != levels[k]
  }

  /** The first loop of the builder: one new level per position, with its operator and
      smoother. */
  method MakeLevels(treeLevels: int, n: nat) returns (levels: seq<Level>)
    ensures |levels| == n && Distinct(levels)
    ensures forall j :: 0 <= j < n ==> fresh(levels[j])
    ensures forall j :: 0 <= j < n ==> Made(levels[j], treeLevels, j)
    ensures forall j :: 0 <= j < n ==> levels[j].restrictor == None && levels[j].interpolator == None
  {
    levels := [];
    var i := 0;
    while i < n
      invariant 0 <= i <= n && |levels| == i && Distinct(levels)
      invariant forall j :: 0 <= j < i ==> fresh(levels[j])
      invariant forall j :: 0 <= j < i ==> Made(levels[j], treeLevels, j)
      invariant forall j :: 0 <= j < i ==> levels[j].restrictor == None && levels[j].interpolator == None
    {
      var l := new Level(CollectionOf(treeLevels, i));
      l.SetOperator(CollectionOf(treeLevels, i));
      l.SetSmoother(SmootherOf(treeLevels, i));
      levels := levels + [l];
      i := i + 1;
    }
  }

  /** The second loop: restrictor i on level i, interpolator i on level i+1. */
  method SetTransfers(levels: seq<Level>, ghost treeLevels: int)
    requires |levels| >= 1 && Distinct(levels)
    requires forall j :: 0 <= j < |levels| ==> Made(levels[j], treeLevels, j)
    requires forall j :: 0 <= j < |levels| ==> levels[j].restrictor == None && levels[j].interpolator == None
    modifies levels
    ensures forall j :: 0 <= j < |levels| ==>
      Wired(levels[j], treeLevels, j, |levels|) && levels[j].coarser == null && levels[j].finer == null
  {
    var n := |levels|;
    var i := 0;
    while i < n - 1
      invariant 0 <= i <= n - 1
      invariant forall j :: 0 <= j < n ==> TransfersBelow(levels[j], treeLevels, j, i)
    {
      label before:
      levels[i].SetRestrictor(TransferOf(i));
      levels[i + 1].SetInterpolator(TransferOf(i));
      forall j | 0 <= j < n
        ensures TransfersBelow(levels[j], treeLevels, j, i + 1)
      {
        if j != i && j != i + 1 {
          assert levels[j] != levels[i] && levels[j] != levels[i + 1];
          assert old@before(TransfersBelow(levels[j], treeLevels, j, i));
        }
      }
      i := i + 1;
    }
    forall j | 0 <= j < n
      ensures Wired(levels[j], treeLevels, j, n)
    {
      assert TransfersBelow(levels[j], treeLevels, j, n - 1);
    }
  }

  /** Level j while the transfer loop is at i: restrictors set below i, interpolators set
      on levels 1..i. */
  ghost predicate TransfersBelow(l: Level, treeLevels: int, j: nat, i: nat)
    reads l
  {
    && Made(l, treeLevels, j)
    && l.restrictor == (if j < i then Some(TransferOf(j)) else None)
    && l.interpolator == (if 0 < j <= i then Some(TransferOf(j - 1)) else None)
  }

  /** Level j while the linking loop is at i: linked both ways once j < i (the finest has
      no finer level), untouched otherwise. */
  ghost predicate LinkedBelow(levels: seq<Level>, j: nat, i: nat)
    requires j < |levels|
    reads levels[j]
  {
    if j < i then
      && j + 1 < |levels| && levels[j].coarser == levels[j + 1]
      && levels[j].finer == (if j == 0 then null else levels[j - 1])
    else levels[j].coarser == null && levels[j].finer == null
  }

  /** The linking statements: each level points to the next coarser and the next finer one. */
  method Link(levels: seq<Level>)
    requires |levels| >= 2 && Distinct(levels)
    requires forall j :: 0 <= j < |levels| ==> levels[j].coarser == null && levels[j].finer == null
    modifies levels
    ensures Chain(levels)
    ensures forall j :: 0 <= j < |levels| ==> levels[j].Payload() == old(levels[j].Payload())
  {
    var n := |levels|;
    levels[0].SetCoarser(levels[1]);
    var i := 1;
    while i < n - 1
      invariant 1 <= i <= n - 1
      invariant forall j :: 0 <= j < n ==> LinkedBelow(levels, j, i)
      invariant forall j :: 0 <= j < n ==> levels[j].Payload() == old(levels[j].Payload())
    {
      label before:
      levels[i].SetCoarser(levels[i + 1]);
      levels[i].SetFiner(levels[i - 1]);
      ghost var next := i + 1;
      forall j | 0 <= j < n
        ensures LinkedBelow(levels, j, next)
      {
        if j != i {
          assert levels[j] != levels[i];
          assert old@before(LinkedBelow(levels, j, i));
        }
      }
      i := i + 1;
    }
    assert LinkedBelow(levels, n - 1, n - 1) && LinkedBelow(levels, 0, n - 1);
    assert levels[0] != levels[n - 1];
    levels[n - 1].SetFiner(levels[n - 2]);
    forall j | 0 <= j < n - 1
      ensures levels[j].coarser == levels[j + 1] && levels[j].finer == (if j == 0 then null else levels[j - 1])
    {
      assert LinkedBelow(levels, j, n - 1);
    }
  }

  /** The level-building part of the Helper constructor. */
  method BuildLevels(treeLevels: int, n: nat) returns (levels: seq<Level>)
    requires n >= 2
    ensures |levels| == n && Chain(levels)
    ensures forall i :: 0 <= i < n ==> fresh(levels[i])
    ensures forall i :: 0 <= i < n ==> Wired(levels[i], treeLevels, i, n)
  {
    levels := MakeLevels(treeLevels, n);
    SetTransfers(levels, treeLevels);
    label wired:
    Link(levels);
    forall i | 0 <= i < n
      ensures Wired(levels[i], treeLevels, i, n)
    {
      assert old@wired(Wired(levels[i], treeLevels, i, n));
    }
  }

  class Helper {
    const levels: seq<Level>
    const cycle: VCycle

    constructor (levels: seq<Level>, cycle: VCycle)
      ensures this.levels == levels && this.cycle == cycle
    {
      this.levels := levels;
      this.cycle := cycle;
    }
  }

  /** Helper::Helper: n levels (n as NumLevels decides, at least two), chained finest to
      coarsest, and a V-cycle rooted at the finest; throws when the V-cycle does. */
  method NewHelper(treeLevels: int, config: map<string, int>) returns (r: Result<Helper, ConfigError>)
    requires NumLevels(config, treeLevels) >= 2
    ensures r.Err? <==> ReadVConfig(config).Err?
    ensures r.Ok? ==>
      && |r.value.levels| == NumLevels(config, treeLevels)
      && Chain(r.value.levels)
      && (forall i :: 0 <= i < |r.value.levels| ==>
            Wired(r.value.levels[i], treeLevels, i, |r.value.levels|))
      && r.value.cycle.finest == r.value.levels[0]
      && r.value.cycle.Sweeps() == ReadVConfig(config).value
  {
    var n := NumLevels(config, treeLevels);
    var levels := BuildLevels(treeLevels, n);
    var cycle := NewVCycle(levels[0], config);
    match cycle {
      case Err(e) => r := Err(e);
      case Ok(c) =>
        var h := new Helper(levels, c);
        r := Ok(h);
    }
  }
}
