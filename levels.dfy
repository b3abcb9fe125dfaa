/**
 * One level of the multigrid hierarchy (GMG::Level) and the finest-to-coarsest
 * chain that the level objects form through their `coarser` and `finer` links.
 */
module Levels {
  import opened Wrappers

  /** Which domain collection a level discretizes: the one handed to the builder,
      or one extracted from the refinement tree at a given tree level. */
  datatype Collection = Given | FromTree(treeLevel: int)

  /** The smoother of a level: the one built on the caller's Schur helper, or one on a
      Schur helper made for that level's domain collection. */
  datatype SmootherRef = GivenSchur | SchurFor(collection: Collection)

  /** A restrictor or interpolator between the domain collections `coarse` and `fine`
      (positions in the builder's collection vector), sharing inter-level comm `comm`. */
  datatype Transfer = Transfer(coarse: nat, fine: nat, comm: nat)

  /** The components a level carries besides its links to other levels. */
  datatype Components = Components(op: Option<Collection>, smoother: Option<SmootherRef>,
                             restrictor: Option<Transfer>, interpolator: Option<Transfer>)

  class Level {
    const collection: Collection
    var op: Option<Collection>
    var smoother: Option<SmootherRef>
    var restrictor: Option<Transfer>
    var interpolator: Option<Transfer>
    var coarser: Level?
    var finer: Level?

    constructor (collection: Collection)
      ensures this.collection == collection
      ensures op == None && smoother == None && restrictor == None && interpolator == None
      ensures coarser == null && finer == null
    {
      this.collection := collection;
      op, smoother, restrictor, interpolator := None, None, None, None;
      coarser, finer := null, null;
    }

    method SetOperator(o: Collection)
      modifies this`op
      ensures op == Some(o)
    {
      op := Some(o);
    }

    method SetSmoother(s: SmootherRef)
      modifies this`smoother
      ensures smoother == Some(s)
    {
      smoother := Some(s);
    }

    method SetRestrictor(r: Transfer)
      modifies this`restrictor
      ensures restrictor == Some(r)
    {
      restrictor := Some(r);
    }

    method SetInterpolator(r: Transfer)
      modifies this`interpolator
      ensures interpolator == Some(r)
    {
      interpolator := Some(r);
    }

    method SetCoarser(l: Level)
      modifies this`coarser
      ensures coarser == l
    {
      coarser := l;
    }

    method SetFiner(l: Level)
      modifies this`finer
      ensures finer == l
    {
      finer := l;
    }

    function Payload(): Components
      reads this
    {
      Components(op, smoother, restrictor, interpolator)
    }

    /** Level::coarsest(): there is no coarser level. */
    predicate Coarsest()
      reads this
    {
      coarser == null
    }

    /** Level::finest(): there is no finer level. */
    predicate Finest()
      reads this
    {
      finer == null
    }
  }

  /** The levels are distinct objects, linked both ways, finest first, coarsest last. */
  ghost predicate Chain(levels: seq<Level>)
    reads levels
  {
    && |levels| >= 1
    && (forall i, j :: 0 <= i < j < |levels| ==> levels[i] != levels[j])
    && levels[0].finer == null
    && levels[|levels| - 1].coarser == null
    && (forall i :: 0 <= i < |levels| - 1 ==> levels[i].coarser == levels[i + 1])
    && (forall i :: 0 < i < |levels| ==> levels[i].finer == levels[i - 1])
  }

  /** In a chain exactly the last level is coarsest and exactly the first is finest. */
  lemma ChainEnds(levels: seq<Level>, i: nat)
    requires Chain(levels) && i < |levels|
    ensures levels[i].Coarsest() <==> i == |levels| - 1
    ensures levels[i].Finest() <==> i == 0
  {
    if i < |levels| - 1 {
      assert levels[i].coarser == levels[i + 1];
    }
    if i > 0 {
      assert levels[i].finer == levels[i - 1];
    }
  }

  /** Following `coarser` k times from the finest level reaches the level at position k:
      a descent through the chain never meets a level twice. */
  ghost function Descend(l: Level, k: nat): Level?
    reads *
    decreases k
  {
    if k == 0 then l else if l.coarser == null then null else Descend(l.coarser, k - 1)
  }

  lemma {:induction false} DescendReaches(levels: seq<Level>, i: nat, k: nat)
    requires Chain(levels) && i + k < |levels|
    ensures Descend(levels[i], k) == levels[i + k]
    decreases k
  {
    if k > 0 {
      DescendReaches(levels, i + 1, k - 1);
    }
  }
}
