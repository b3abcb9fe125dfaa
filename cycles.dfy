/**
 * The V-cycle and W-cycle state machines (GMG::VCycle, GMG::WCycle).
 *
 * A visit of a level calls the level's smoother, restrictor ("prepCoarser") and
 * interpolator ("prepFiner"); the model records every such call as an Event in the
 * cycle's trace. A level is named by its position in the chain, 0 being the finest.
 */
module Cycles {
  import opened Wrappers
  import opened IntMath
  import opened Levels

  datatype Kind = Smooth | PrepCoarser | PrepFiner

  /** One call the cycle makes, with the chain position of the level it is made on. */
  datatype Event = Event(kind: Kind, level: nat)

  /** Number of iterations of `for (int i = 0; i < k; i++)`: a negative count runs no sweep. */
  function Times(k: int): nat
  {
    if k < 0 then 0 else k
  }

  /** e written k times in a row. */
  function Repeat(e: Event, k: nat): seq<Event>
  {
    if k == 0 then [] else Repeat(e, k - 1) + [e]
  }

  /** The sweeps of one `for` loop of smooth calls on level i. */
  function Smooths(i: nat, count: int): seq<Event>
  {
    Repeat(Event(Smooth, i), Times(count))
  }

  /** The calls that the last line of visit makes: prepFiner, unless the level is the finest. */
  function Finer(i: nat): seq<Event>
  {
    if i == 0 then [] else [Event(PrepFiner, i)]
  }

  /** Number of events of kind k in t. */
  function Count(t: seq<Event>, k: Kind): nat
  {
    if t == [] then 0 else (if t[0].kind == k then 1 else 0) + Count(t[1..], k)
  }

  /** The events of t made on level l, in their order. */
  function Project(t: seq<Event>, l: nat): seq<Event>
  {
    if t == [] then [] else (if t[0].level == l then [t[0]] else []) + Project(t[1..], l)
  }

  /** Every event of t is made on a level in [lo, hi). */
  predicate Within(t: seq<Event>, lo: nat, hi: nat)
  {
    t == [] || (lo <= t[0].level < hi && Within(t[1..], lo, hi))
  }

  /** s written k times in a row. */
  function Cat(s: seq<Event>, k: nat): seq<Event>
  {
    if k == 0 then [] else s + Cat(s, k - 1)
  }

  lemma {:induction false} CountAppend(a: seq<Event>, b: seq<Event>, k: Kind)
    ensures Count(a + b, k) == Count(a, k) + Count(b, k)
    decreases |a|
  {
    if a == [] {
      assert a + b == b;
    } else {
      assert (a + b)[0] == a[0] && (a + b)[1..] == a[1..] + b;
      CountAppend(a[1..], b, k);
    }
  }

  lemma {:induction false} CountRepeat(e: Event, n: nat, k: Kind)
    ensures Count(Repeat(e, n), k) == if e.kind == k then n else 0
    decreases n
  {
    if n > 0 {
      CountRepeat(e, n - 1, k);
      CountAppend(Repeat(e, n - 1), [e], k);
      CountSingle(e, k);
    }
  }

  lemma CountSingle(e: Event, k: Kind)
    ensures Count([e], k) == if e.kind == k then 1 else 0
  {
    assert [e][1..] == [];
  }

  lemma {:induction false} ProjectAppend(a: seq<Event>, b: seq<Event>, l: nat)
    ensures Project(a + b, l) == Project(a, l) + Project(b, l)
    decreases |a|
  {
    if a == [] {
      assert a + b == b;
    } else {
      assert (a + b)[0] == a[0] && (a + b)[1..] == a[1..] + b;
      ProjectAppend(a[1..], b, l);
    }
  }

  lemma {:induction false} WithinAppend(a: seq<Event>, b: seq<Event>, lo: nat, hi: nat)
    ensures Within(a + b, lo, hi) <==> Within(a, lo, hi) && Within(b, lo, hi)
    decreases |a|
  {
    if a == [] {
      assert a + b == b;
    } else {
      assert (a + b)[0] == a[0] && (a + b)[1..] == a[1..] + b;
      WithinAppend(a[1..], b, lo, hi);
    }
  }

  lemma {:induction false} WithinRepeat(e: Event, k: nat, lo: nat, hi: nat)
    requires lo <= e.level < hi
    ensures Within(Repeat(e, k), lo, hi)
    decreases k
  {
    if k > 0 {
      WithinRepeat(e, k - 1, lo, hi);
      WithinAppend(Repeat(e, k - 1), [e], lo, hi);
      WithinSingle(e, lo, hi);
    }
  }

  lemma WithinSingle(e: Event, lo: nat, hi: nat)
    requires lo <= e.level < hi
    ensures Within([e], lo, hi)
  {
    assert [e][1..] == [];
  }

  lemma {:induction false} WithinWiden(t: seq<Event>, lo: nat, hi: nat, lo': nat, hi': nat)
    requires Within(t, lo, hi) && lo' <= lo && hi <= hi'
    ensures Within(t, lo', hi')
    decreases |t|
  {
    if t != [] {
      WithinWiden(t[1..], lo, hi, lo', hi');
    }
  }

  /** Projection onto a level outside the range of t drops everything. */
  lemma {:induction false} ProjectOutside(t: seq<Event>, lo: nat, hi: nat, l: nat)
    requires Within(t, lo, hi) && !(lo <= l < hi)
    ensures Project(t, l) == []
    decreases |t|
  {
    if t != [] {
      ProjectOutside(t[1..], lo, hi, l);
    }
  }

  /** Projection onto the one level of t keeps everything. */
  lemma {:induction false} ProjectOnly(t: seq<Event>, l: nat)
    requires Within(t, l, l + 1)
    ensures Project(t, l) == t
    decreases |t|
  {
    if t != [] {
      ProjectOnly(t[1..], l);
      assert [t[0]] + t[1..] == t;
    }
  }

  lemma {:induction false} CatTwice(s: seq<Event>, k: nat)
    ensures Cat(s, k) + Cat(s, k) == Cat(s, 2 * k)
    decreases k
  {
    if k > 0 {
      CatTwice(s, k - 1);
      CatShift(s, 2 * k - 1);
      calc {
        Cat(s, k) + Cat(s, k);
        s + Cat(s, k - 1) + (s + Cat(s, k - 1));
        { CatShift(s, k - 1); }
        s + Cat(s, k - 1) + (Cat(s, k - 1) + s);
        s + (Cat(s, 2 * k - 2) + s);
        { CatShift(s, 2 * k - 2); }
        s + Cat(s, 2 * k - 1);
      }
    }
  }

  lemma {:induction false} CatShift(s: seq<Event>, k: nat)
    ensures s + Cat(s, k) == Cat(s, k) + s
    decreases k
  {
    if k > 0 {
      CatShift(s, k - 1);
    }
  }


  /** Projection of a piece made on level i alone: kept on level i, dropped elsewhere. */
  lemma LocalPiece(x: seq<Event>, i: nat, l: nat)
    requires Within(x, i, i + 1)
    ensures Project(x, l) == if l == i then x else []
  {
    if l == i {
      ProjectOnly(x, l);
    } else {
      ProjectOutside(x, i, i + 1, l);
    }
  }

  lemma SmoothsFacts(i: nat, count: int)
    ensures Within(Smooths(i, count), i, i + 1)
    ensures forall k :: Count(Smooths(i, count), k) == if k == Smooth then Times(count) else 0
  {
    WithinRepeat(Event(Smooth, i), Times(count), i, i + 1);
    forall k
      ensures Count(Smooths(i, count), k) == if k == Smooth then Times(count) else 0
    {
      CountRepeat(Event(Smooth, i), Times(count), k);
    }
  }

  lemma FinerFacts(i: nat)
    ensures Within(Finer(i), i, i + 1)
    ensures forall k :: Count(Finer(i), k) == if k == PrepFiner && i != 0 then 1 else 0
  {
    if i != 0 {
      WithinSingle(Event(PrepFiner, i), i, i + 1);
      forall k
        ensures Count(Finer(i), k) == if k == PrepFiner && i != 0 then 1 else 0
      {
        CountSingle(Event(PrepFiner, i), k);
      }
    }
  }

  lemma PrepCoarserFacts(i: nat)
    ensures Within([Event(PrepCoarser, i)], i, i + 1)
    ensures forall k :: Count([Event(PrepCoarser, i)], k) == if k == PrepCoarser then 1 else 0
  {
    WithinSingle(Event(PrepCoarser, i), i, i + 1);
    forall k
      ensures Count([Event(PrepCoarser, i)], k) == if k == PrepCoarser then 1 else 0
    {
      CountSingle(Event(PrepCoarser, i), k);
    }
  }

  /** Counting is additive over the k copies of Cat. */
  lemma {:induction false} CountCat(s: seq<Event>, n: nat, k: Kind)
    ensures Count(Cat(s, n), k) == n * Count(s, k)
    decreases n
  {
    if n > 0 {
      CountCat(s, n - 1, k);
      CountAppend(s, Cat(s, n - 1), k);
    }
  }

  /** A counted sweep loop `for (int k = 0; k < count; k++) smooth(level i)`. */
  method SweepLoop(i: nat, count: int) returns (calls: seq<Event>)
    ensures calls == Smooths(i, count)
  {
    calls := [];
    var k := 0;
    while k < count
      invariant 0 <= k && (k <= count || k == 0)
      invariant calls == Repeat(Event(Smooth, i), k)
    {
      calls := calls + [Event(Smooth, i)];
      k := k + 1;
    }
  }

  // ---------------------------------------------------------------------------
  // Configuration

  datatype ConfigError = MissingKey(key: string)

  datatype VSweeps = VSweeps(pre: int, post: int, coarse: int)

  datatype WSweeps = WSweeps(pre: int, post: int, coarse: int, mid: int)

  /** The VCycle constructor: each of the three keys must be present, else it throws
      (keys are read in the order pre, post, coarse). */
  function ReadVConfig(config: map<string, int>): (r: Result<VSweeps, ConfigError>)
    ensures r.Ok? <==> "pre_sweeps" in config && "post_sweeps" in config && "coarse_sweeps" in config
    ensures r.Ok? ==> r.value == VSweeps(config["pre_sweeps"], config["post_sweeps"], config["coarse_sweeps"])
    ensures "pre_sweeps" !in config ==> r == Err(MissingKey("pre_sweeps"))
  {
    if "pre_sweeps" !in config then Err(MissingKey("pre_sweeps"))
    else if "post_sweeps" !in config then Err(MissingKey("post_sweeps"))
    else if "coarse_sweeps" !in config then Err(MissingKey("coarse_sweeps"))
    else Ok(VSweeps(config["pre_sweeps"], config["post_sweeps"], config["coarse_sweeps"]))
  }

  function Lookup(config: map<string, int>, key: string, default: int): int
  {
    if key in config then config[key] else default
  }

  /** The WCycle constructor: a missing key silently keeps the in-class default of 1. */
  function ReadWConfig(config: map<string, int>): (sw: WSweeps)
    ensures "pre_sweeps" in config ==> sw.pre == config["pre_sweeps"]
    ensures "pre_sweeps" !in config ==> sw.pre == 1
    ensures "post_sweeps" in config ==> sw.post == config["post_sweeps"]
    ensures "post_sweeps" !in config ==> sw.post == 1
    ensures "coarse_sweeps" in config ==> sw.coarse == config["coarse_sweeps"]
    ensures "coarse_sweeps" !in config ==> sw.coarse == 1
    ensures "mid_sweeps" in config ==> sw.mid == config["mid_sweeps"]
    ensures "mid_sweeps" !in config ==> sw.mid == 1
  {
    WSweeps(Lookup(config, "pre_sweeps", 1), Lookup(config, "post_sweeps", 1),
            Lookup(config, "coarse_sweeps", 1), Lookup(config, "mid_sweeps", 1))
  }

  /** The two cycles treat a missing key differently: the V-cycle refuses it, the W-cycle
      takes the default. */
  lemma MissingKeyDiffers(config: map<string, int>, key: string)
    requires key in {"pre_sweeps", "post_sweeps", "coarse_sweeps"} && key !in config
    ensures ReadVConfig(config).Err?
    ensures (key == "pre_sweeps" ==> ReadWConfig(config).pre == 1)
    ensures (key == "post_sweeps" ==> ReadWConfig(config).post == 1)
    ensures (key == "coarse_sweeps" ==> ReadWConfig(config).coarse == 1)
  {
  }

  // ---------------------------------------------------------------------------
  // V-cycle

  /** The calls made by visit(level i) of a V-cycle on a chain of n levels. */
  function VTrace(sw: VSweeps, i: nat, n: nat): seq<Event>
    requires i < n
    decreases n - i
  {
    if i == n - 1 then Smooths(i, sw.coarse) + Finer(i)
    else Smooths(i, sw.pre) + [Event(PrepCoarser, i)] + VTrace(sw, i + 1, n) + Smooths(i, sw.post) + Finer(i)
  }

  /** What one visit does on its own level, leaving the descent out. */
  function VLevelEvents(sw: VSweeps, i: nat, n: nat): seq<Event>
  {
    if i == n - 1 then Smooths(i, sw.coarse) + Finer(i)
    else Smooths(i, sw.pre) + [Event(PrepCoarser, i)] + Smooths(i, sw.post) + Finer(i)
  }

  /** A visit only touches the visited level and coarser ones. */
  lemma {:induction false} VTraceLevels(sw: VSweeps, i: nat, n: nat)
    requires i < n
    ensures Within(VTrace(sw, i, n), i, n)
    decreases n - i
  {
    SmoothsFacts(i, sw.coarse);
    SmoothsFacts(i, sw.pre);
    SmoothsFacts(i, sw.post);
    FinerFacts(i);
    PrepCoarserFacts(i);
    WithinWiden(Smooths(i, sw.coarse), i, i + 1, i, n);
    WithinWiden(Smooths(i, sw.pre), i, i + 1, i, n);
    WithinWiden(Smooths(i, sw.post), i, i + 1, i, n);
    WithinWiden(Finer(i), i, i + 1, i, n);
    WithinWiden([Event(PrepCoarser, i)], i, i + 1, i, n);
    if i == n - 1 {
      WithinAppend(Smooths(i, sw.coarse), Finer(i), i, n);
    } else {
      var sub := VTrace(sw, i + 1, n);
      VTraceLevels(sw, i + 1, n);
      WithinWiden(sub, i + 1, n, i, n);
      var a := Smooths(i, sw.pre) + [Event(PrepCoarser, i)];
      WithinAppend(Smooths(i, sw.pre), [Event(PrepCoarser, i)], i, n);
      WithinAppend(a, sub, i, n);
      WithinAppend(a + sub, Smooths(i, sw.post), i, n);
      WithinAppend(a + sub + Smooths(i, sw.post), Finer(i), i, n);
    }
  }

  /** Each level from i down to the coarsest is visited exactly once, and on each the calls
      come in the order pre smooths, prepCoarser, post smooths, prepFiner (coarse smooths then
      prepFiner on the coarsest level; no prepFiner on the finest). */
  lemma {:induction false} VTraceProject(sw: VSweeps, i: nat, n: nat, l: nat)
    requires i < n
    ensures i <= l < n ==> Project(VTrace(sw, i, n), l) == VLevelEvents(sw, l, n)
    ensures l < i || n <= l ==> Project(VTrace(sw, i, n), l) == []
    decreases n - i
  {
    var t := VTrace(sw, i, n);
    VTraceLevels(sw, i, n);
    if !(i <= l < n) {
      ProjectOutside(t, i, n, l);
    } else if i == n - 1 {
      ProjectOnly(t, l);
    } else {
      VTraceLevels(sw, i + 1, n);
      VDescentProject(sw, i, n, VTrace(sw, i + 1, n), l);
      VTraceProject(sw, i + 1, n, l);
    }
  }

  /** The projection of a non-coarsest visit of level i whose descent made the calls `sub`. */
  lemma VDescentProject(sw: VSweeps, i: nat, n: nat, sub: seq<Event>, l: nat)
    requires i < n - 1 && Within(sub, i + 1, n)
    ensures Project(Smooths(i, sw.pre) + [Event(PrepCoarser, i)] + sub + Smooths(i, sw.post) + Finer(i), l)
         == if l == i then VLevelEvents(sw, i, n) else Project(sub, l)
  {
    var pre, pc, post, fin := Smooths(i, sw.pre), [Event(PrepCoarser, i)], Smooths(i, sw.post), Finer(i);
    assert Project(pre + pc + sub + post + fin, l)
        == Project(pre, l) + Project(pc, l) + Project(sub, l) + Project(post, l) + Project(fin, l) by {
      ProjectAppend(pre + pc + sub + post, fin, l);
      ProjectAppend(pre + pc + sub, post, l);
      ProjectAppend(pre + pc, sub, l);
      ProjectAppend(pre, pc, l);
    }
    assert Project(pre, l) == (if l == i then pre else []) by {
      SmoothsFacts(i, sw.pre);
      LocalPiece(pre, i, l);
    }
    assert Project(post, l) == (if l == i then post else []) by {
      SmoothsFacts(i, sw.post);
      LocalPiece(post, i, l);
    }
    assert Project(pc, l) == (if l == i then pc else []) by {
      PrepCoarserFacts(i);
      LocalPiece(pc, i, l);
    }
    assert Project(fin, l) == (if l == i then fin else []) by {
      FinerFacts(i);
      LocalPiece(fin, i, l);
    }
    if l == i {
      ProjectOutside(sub, i + 1, n, l);
      assert pre + pc + [] + post + fin == VLevelEvents(sw, i, n);
    } else {
      assert [] + [] + Project(sub, l) + [] + [] == Project(sub, l);
    }
  }

  /** Call counts of one visit of level i on a chain of n levels: (n-1-i)(pre+post)+coarse
      smooths, n-1-i restrictions, and a prolongation from every visited level but the finest. */
  lemma {:induction false} VTraceCounts(sw: VSweeps, i: nat, n: nat)
    requires i < n
    ensures Count(VTrace(sw, i, n), Smooth) == (n - 1 - i) * (Times(sw.pre) + Times(sw.post)) + Times(sw.coarse)
    ensures Count(VTrace(sw, i, n), PrepCoarser) == n - 1 - i
    ensures Count(VTrace(sw, i, n), PrepFiner) == if i == 0 then n - 1 else n - i
    decreases n - i
  {
    if i == n - 1 {
      forall k: Kind
        ensures Count(VTrace(sw, i, n), k) == Count(Smooths(i, sw.coarse), k) + Count(Finer(i), k)
      {
        CountAppend(Smooths(i, sw.coarse), Finer(i), k);
      }
      SmoothsFacts(i, sw.coarse);
      FinerFacts(i);
    } else {
      var sub := VTrace(sw, i + 1, n);
      var s := Times(sw.pre) + Times(sw.post);
      assert Count(sub, Smooth) == (n - 1 - (i + 1)) * s + Times(sw.coarse)
          && Count(sub, PrepCoarser) == n - 1 - (i + 1)
          && Count(sub, PrepFiner) == n - (i + 1) by {
        VTraceCounts(sw, i + 1, n);
      }
      assert Count(VTrace(sw, i, n), Smooth) == s + Count(sub, Smooth)
          && Count(VTrace(sw, i, n), PrepCoarser) == 1 + Count(sub, PrepCoarser)
          && Count(VTrace(sw, i, n), PrepFiner) == Count(sub, PrepFiner) + (if i == 0 then 0 else 1) by {
        VDescentCounts(sw, i, sub);
      }
      LinearStep(n - 1 - (i + 1), s);
    }
  }

  /** The call counts of a non-coarsest visit of level i whose descent made the calls `sub`. */
  lemma VDescentCounts(sw: VSweeps, i: nat, sub: seq<Event>)
    ensures Count(Smooths(i, sw.pre) + [Event(PrepCoarser, i)] + sub + Smooths(i, sw.post) + Finer(i), Smooth)
         == Times(sw.pre) + Count(sub, Smooth) + Times(sw.post)
    ensures Count(Smooths(i, sw.pre) + [Event(PrepCoarser, i)] + sub + Smooths(i, sw.post) + Finer(i), PrepCoarser)
         == 1 + Count(sub, PrepCoarser)
    ensures Count(Smooths(i, sw.pre) + [Event(PrepCoarser, i)] + sub + Smooths(i, sw.post) + Finer(i), PrepFiner)
         == Count(sub, PrepFiner) + if i == 0 then 0 else 1
  {
    var pre, pc, post, fin := Smooths(i, sw.pre), [Event(PrepCoarser, i)], Smooths(i, sw.post), Finer(i);
    forall k: Kind
      ensures Count(pre + pc + sub + post + fin, k)
           == Count(pre, k) + Count(pc, k) + Count(sub, k) + Count(post, k) + Count(fin, k)
    {
      CountAppend(pre + pc + sub + post, fin, k);
      CountAppend(pre + pc + sub, post, k);
      CountAppend(pre + pc, sub, k);
      CountAppend(pre, pc, k);
    }
    SmoothsFacts(i, sw.pre);
    SmoothsFacts(i, sw.post);
    FinerFacts(i);
    PrepCoarserFacts(i);
  }

  lemma LinearStep(k: int, s: int)
    ensures (k + 1) * s == s + k * s
  {
  }

  /** With one sweep of each kind on two levels, a visit smooths three times and restricts and
      interpolates once each. */
  lemma VTwoLevels()
    ensures Count(VTrace(VSweeps(1, 1, 1), 0, 2), Smooth) == 3
    ensures Count(VTrace(VSweeps(1, 1, 1), 0, 2), PrepCoarser) == 1
    ensures Count(VTrace(VSweeps(1, 1, 1), 0, 2), PrepFiner) == 1
  {
    VTraceCounts(VSweeps(1, 1, 1), 0, 2);
  }

  class VCycle {
    /** The level every application of the cycle starts from (Cycle's finest_level). */
    const finest: Level
    var numPreSweeps: int
    var numPostSweeps: int
    var numCoarseSweeps: int

    /** The object before its constructor body runs: the in-class defaults. */
    constructor Defaults(finest: Level)
      ensures this.finest == finest
      ensures numPreSweeps == 1 && numPostSweeps == 1 && numCoarseSweeps == 1
    {
      this.finest := finest;
      numPreSweeps, numPostSweeps, numCoarseSweeps := 1, 1, 1;
    }

    function Sweeps(): VSweeps
      reads this
    {
      VSweeps(numPreSweeps, numPostSweeps, numCoarseSweeps)
    }

    /** visit(level i): the calls made on the levels' smoothers, restrictors and
        interpolators, in order. */
    method Visit(levels: seq<Level>, i: nat) returns (calls: seq<Event>)
      requires Chain(levels) && i < |levels|
      ensures calls == VTrace(Sweeps(), i, |levels|)
      decreases |levels| - i
    {
      var level := levels[i];
      ChainEnds(levels, i);
      if level.Coarsest() {
        calls := SweepLoop(i, numCoarseSweeps);
      } else {
        var pre := SweepLoop(i, numPreSweeps);
        var sub := Visit(levels, i + 1);
        var post := SweepLoop(i, numPostSweeps);
        calls := pre + [Event(PrepCoarser, i)] + sub + post;
      }
      if !level.Finest() {
        calls := calls + [Event(PrepFiner, i)];
      }
    }
  }

  /** new VCycle(finest_level, config_j): throws when a sweep count is missing. */
  method NewVCycle(finest: Level, config: map<string, int>) returns (r: Result<VCycle, ConfigError>)
    ensures r.Err? <==> ReadVConfig(config).Err?
    ensures r.Err? ==> r.error == ReadVConfig(config).error
    ensures r.Ok? ==> fresh(r.value) && r.value.finest == finest && r.value.Sweeps() == ReadVConfig(config).value
  {
    var c := new VCycle.Defaults(finest);
    if "pre_sweeps" !in config {
      return Err(MissingKey("pre_sweeps"));
    }
    c.numPreSweeps := config["pre_sweeps"];
    if "post_sweeps" !in config {
      return Err(MissingKey("post_sweeps"));
    }
    c.numPostSweeps := config["post_sweeps"];
    if "coarse_sweeps" !in config {
      return Err(MissingKey("coarse_sweeps"));
    }
    c.numCoarseSweeps := config["coarse_sweeps"];
    r := Ok(c);
  }

  // ---------------------------------------------------------------------------
  // W-cycle

  /** The calls made by visit(level i) of a W-cycle on a chain of n levels. */
  function WTrace(sw: WSweeps, i: nat, n: nat): seq<Event>
    requires i < n
    decreases n - i
  {
    if i == n - 1 then Smooths(i, sw.coarse) + Finer(i)
    else
      var sub := WTrace(sw, i + 1, n);
      Smooths(i, sw.pre) + [Event(PrepCoarser, i)] + sub + Smooths(i, sw.mid) + [Event(PrepCoarser, i)] + sub
      + Smooths(i, sw.post) + Finer(i)
  }

  /** What one W-cycle visit does on its own level, leaving the two descents out. */
  function WLevelEvents(sw: WSweeps, i: nat, n: nat): seq<Event>
  {
    if i == n - 1 then Smooths(i, sw.coarse) + Finer(i)
    else Smooths(i, sw.pre) + [Event(PrepCoarser, i)] + Smooths(i, sw.mid) + [Event(PrepCoarser, i)]
         + Smooths(i, sw.post) + Finer(i)
  }

  /** The calls of a non-coarsest W-cycle visit of level i whose descents each made `sub`. */
  function WDescent(sw: WSweeps, i: nat, sub: seq<Event>): seq<Event>
  {
    Smooths(i, sw.pre) + [Event(PrepCoarser, i)] + sub + Smooths(i, sw.mid) + [Event(PrepCoarser, i)] + sub
    + Smooths(i, sw.post) + Finer(i)
  }

  lemma {:induction false} WTraceLevels(sw: WSweeps, i: nat, n: nat)
    requires i < n
    ensures Within(WTrace(sw, i, n), i, n)
    decreases n - i
  {
    SmoothsFacts(i, sw.coarse);
    FinerFacts(i);
    WithinWiden(Smooths(i, sw.coarse), i, i + 1, i, n);
    WithinWiden(Finer(i), i, i + 1, i, n);
    if i == n - 1 {
      WithinAppend(Smooths(i, sw.coarse), Finer(i), i, n);
    } else {
      WTraceLevels(sw, i + 1, n);
      WDescentLevels(sw, i, n, WTrace(sw, i + 1, n));
      assert WTrace(sw, i, n) == WDescent(sw, i, WTrace(sw, i + 1, n));
    }
  }

  lemma WDescentLevels(sw: WSweeps, i: nat, n: nat, sub: seq<Event>)
    requires i < n && Within(sub, i + 1, n)
    ensures Within(WDescent(sw, i, sub), i, n)
  {
    var pre, pc, mid, post, fin := Smooths(i, sw.pre), [Event(PrepCoarser, i)], Smooths(i, sw.mid), Smooths(i, sw.post), Finer(i);
    SmoothsFacts(i, sw.pre);
    SmoothsFacts(i, sw.mid);
    SmoothsFacts(i, sw.post);
    FinerFacts(i);
    PrepCoarserFacts(i);
    WithinWiden(pre, i, i + 1, i, n);
    WithinWiden(pc, i, i + 1, i, n);
    WithinWiden(mid, i, i + 1, i, n);
    WithinWiden(post, i, i + 1, i, n);
    WithinWiden(fin, i, i + 1, i, n);
    WithinWiden(sub, i + 1, n, i, n);
    WithinAppend(pre, pc, i, n);
    WithinAppend(pre + pc, sub, i, n);
    WithinAppend(pre + pc + sub, mid, i, n);
    WithinAppend(pre + pc + sub + mid, pc, i, n);
    WithinAppend(pre + pc + sub + mid + pc, sub, i, n);
    WithinAppend(pre + pc + sub + mid + pc + sub, post, i, n);
    WithinAppend(pre + pc + sub + mid + pc + sub + post, fin, i, n);
  }

  lemma WDescentSplit(sw: WSweeps, i: nat, sub: seq<Event>, l: nat)
    ensures Project(WDescent(sw, i, sub), l)
         == Project(Smooths(i, sw.pre), l) + Project([Event(PrepCoarser, i)], l) + Project(sub, l)
            + Project(Smooths(i, sw.mid), l) + Project([Event(PrepCoarser, i)], l) + Project(sub, l)
            + Project(Smooths(i, sw.post), l) + Project(Finer(i), l)
  {
    var pre, pc, mid, post, fin := Smooths(i, sw.pre), [Event(PrepCoarser, i)], Smooths(i, sw.mid), Smooths(i, sw.post), Finer(i);
    ProjectAppend(pre + pc + sub + mid + pc + sub + post, fin, l);
    ProjectAppend(pre + pc + sub + mid + pc + sub, post, l);
    ProjectAppend(pre + pc + sub + mid + pc, sub, l);
    ProjectAppend(pre + pc + sub + mid, pc, l);
    ProjectAppend(pre + pc + sub, mid, l);
    ProjectAppend(pre + pc, sub, l);
    ProjectAppend(pre, pc, l);
  }

  /** On its own level, a non-coarsest W-cycle visit makes exactly its own calls. */
  lemma WDescentOwn(sw: WSweeps, i: nat, n: nat, sub: seq<Event>)
    requires i < n - 1 && Within(sub, i + 1, n)
    ensures Project(WDescent(sw, i, sub), i) == WLevelEvents(sw, i, n)
  {
    var pre, pc, mid, post, fin := Smooths(i, sw.pre), [Event(PrepCoarser, i)], Smooths(i, sw.mid), Smooths(i, sw.post), Finer(i);
    WDescentSplit(sw, i, sub, i);
    assert Project(pre, i) == pre by {
      SmoothsFacts(i, sw.pre);
      ProjectOnly(pre, i);
    }
    assert Project(mid, i) == mid by {
      SmoothsFacts(i, sw.mid);
      ProjectOnly(mid, i);
    }
    assert Project(post, i) == post by {
      SmoothsFacts(i, sw.post);
      ProjectOnly(post, i);
    }
    assert Project(pc, i) == pc by {
      PrepCoarserFacts(i);
      ProjectOnly(pc, i);
    }
    assert Project(fin, i) == fin by {
      FinerFacts(i);
      ProjectOnly(fin, i);
    }
    ProjectOutside(sub, i + 1, n, i);
    assert pre + pc + [] + mid + pc + [] + post + fin == WLevelEvents(sw, i, n);
  }

  /** On a level other than its own, a non-coarsest W-cycle visit makes the calls of its two
      descents, one after the other. */
  lemma WDescentBelow(sw: WSweeps, i: nat, sub: seq<Event>, l: nat)
    requires l != i
    ensures Project(WDescent(sw, i, sub), l) == Project(sub, l) + Project(sub, l)
  {
    var pre, pc, mid, post, fin := Smooths(i, sw.pre), [Event(PrepCoarser, i)], Smooths(i, sw.mid), Smooths(i, sw.post), Finer(i);
    assert Within(pre, i, i + 1) && Within(mid, i, i + 1) && Within(post, i, i + 1) by {
      SmoothsFacts(i, sw.pre);
      SmoothsFacts(i, sw.mid);
      SmoothsFacts(i, sw.post);
    }
    assert Within(pc, i, i + 1) && Within(fin, i, i + 1) by {
      PrepCoarserFacts(i);
      FinerFacts(i);
    }
    calc {
      Project(WDescent(sw, i, sub), l);
      { DropLocal(pre + pc + sub + mid + pc + sub + post, fin, i, l); }
      Project(pre + pc + sub + mid + pc + sub + post, l);
      { DropLocal(pre + pc + sub + mid + pc + sub, post, i, l); }
      Project(pre + pc + sub + mid + pc + sub, l);
      { ProjectAppend(pre + pc + sub + mid + pc, sub, l); }
      Project(pre + pc + sub + mid + pc, l) + Project(sub, l);
      { DropLocal(pre + pc + sub + mid, pc, i, l);
        DropLocal(pre + pc + sub, mid, i, l); }
      Project(pre + pc + sub, l) + Project(sub, l);
      { ProjectAppend(pre + pc, sub, l); }
      Project(pre + pc, l) + Project(sub, l) + Project(sub, l);
      { DropLocal(pre, pc, i, l);
        ProjectOutside(pre, i, i + 1, l); }
      [] + Project(sub, l) + Project(sub, l);
    }
  }

  /** Appending calls made on level i alone leaves the projection onto another level as it was. */
  lemma DropLocal(a: seq<Event>, b: seq<Event>, i: nat, l: nat)
    requires Within(b, i, i + 1) && l != i
    ensures Project(a + b, l) == Project(a, l)
  {
    ProjectAppend(a, b, l);
    ProjectOutside(b, i, i + 1, l);
    assert Project(a, l) + [] == Project(a, l);
  }

  /** Level l (i <= l < n) is visited exactly 2^(l-i) times by one visit of level i, and each
      of its visits makes its own calls in the order pre smooths, prepCoarser, mid smooths,
      prepCoarser, post smooths, prepFiner. */
  lemma {:induction false} WTraceProject(sw: WSweeps, i: nat, n: nat, l: nat)
    requires i < n
    ensures i <= l < n ==> Project(WTrace(sw, i, n), l) == Cat(WLevelEvents(sw, l, n), Pow2(l - i))
    ensures l < i || n <= l ==> Project(WTrace(sw, i, n), l) == []
    decreases n - i
  {
    var t := WTrace(sw, i, n);
    WTraceLevels(sw, i, n);
    if !(i <= l < n) {
      ProjectOutside(t, i, n, l);
    } else if i == n - 1 {
      ProjectOnly(t, l);
      assert Cat(t, 1) == t + [];
    } else {
      var sub := WTrace(sw, i + 1, n);
      assert t == WDescent(sw, i, sub);
      var e := WLevelEvents(sw, l, n);
      if l == i {
        WTraceLevels(sw, i + 1, n);
        WDescentOwn(sw, i, n, sub);
        assert Cat(e, 1) == e + [];
      } else {
        WDescentBelow(sw, i, sub, l);
        WTraceProject(sw, i + 1, n, l);
        CatTwice(e, Pow2(l - i - 1));
        assert Pow2(l - i) == 2 * Pow2(l - i - 1);
      }
    }
  }

  /** The call counts of a non-coarsest W-cycle visit whose two descents each made `sub`. */
  lemma WDescentCounts(sw: WSweeps, i: nat, sub: seq<Event>)
    ensures Count(WDescent(sw, i, sub), Smooth)
         == Times(sw.pre) + Times(sw.mid) + Times(sw.post) + 2 * Count(sub, Smooth)
    ensures Count(WDescent(sw, i, sub), PrepCoarser) == 2 + 2 * Count(sub, PrepCoarser)
  {
    var pre, pc, mid, post, fin := Smooths(i, sw.pre), [Event(PrepCoarser, i)], Smooths(i, sw.mid), Smooths(i, sw.post), Finer(i);
    forall k: Kind
      ensures Count(WDescent(sw, i, sub), k)
           == Count(pre, k) + 2 * Count(pc, k) + 2 * Count(sub, k) + Count(mid, k) + Count(post, k) + Count(fin, k)
    {
      CountAppend(pre + pc + sub + mid + pc + sub + post, fin, k);
      CountAppend(pre + pc + sub + mid + pc + sub, post, k);
      CountAppend(pre + pc + sub + mid + pc, sub, k);
      CountAppend(pre + pc + sub + mid, pc, k);
      CountAppend(pre + pc + sub, mid, k);
      CountAppend(pre + pc, sub, k);
      CountAppend(pre, pc, k);
    }
    SmoothsFacts(i, sw.pre);
    SmoothsFacts(i, sw.mid);
    SmoothsFacts(i, sw.post);
    FinerFacts(i);
    PrepCoarserFacts(i);
  }

  /** The smooth count satisfies S(1) = coarse and S(k+1) = pre + mid + post + 2 S(k), that is
      (2^k - 1)(pre + mid + post) + 2^k coarse for k = n-1-i; restrictions number 2(2^k - 1). */
  lemma {:induction false} WTraceCounts(sw: WSweeps, i: nat, n: nat)
    requires i < n
    ensures Count(WTrace(sw, i, n), Smooth)
         == (Pow2(n - 1 - i) - 1) * (Times(sw.pre) + Times(sw.mid) + Times(sw.post))
            + Pow2(n - 1 - i) * Times(sw.coarse)
    ensures Count(WTrace(sw, i, n), PrepCoarser) == 2 * (Pow2(n - 1 - i) - 1)
    decreases n - i
  {
    if i == n - 1 {
      forall k: Kind
        ensures Count(WTrace(sw, i, n), k) == Count(Smooths(i, sw.coarse), k) + Count(Finer(i), k)
      {
        CountAppend(Smooths(i, sw.coarse), Finer(i), k);
      }
      SmoothsFacts(i, sw.coarse);
      FinerFacts(i);
    } else {
      var sub := WTrace(sw, i + 1, n);
      var p := Pow2(n - 1 - (i + 1));
      var s := Times(sw.pre) + Times(sw.mid) + Times(sw.post);
      assert Count(sub, Smooth) == (p - 1) * s + p * Times(sw.coarse) && Count(sub, PrepCoarser) == 2 * (p - 1) by {
        WTraceCounts(sw, i + 1, n);
      }
      assert Count(WTrace(sw, i, n), Smooth) == s + 2 * Count(sub, Smooth)
          && Count(WTrace(sw, i, n), PrepCoarser) == 2 + 2 * Count(sub, PrepCoarser) by {
        assert WTrace(sw, i, n) == WDescent(sw, i, sub);
        WDescentCounts(sw, i, sub);
      }
      assert Pow2(n - 1 - i) == 2 * p;
      DoublingStep(p, s, Times(sw.coarse));
    }
  }

  lemma DoublingStep(p: int, s: int, c: int)
    ensures s + 2 * ((p - 1) * s + p * c) == (2 * p - 1) * s + 2 * p * c
  {
  }

  /** Per visit, the calls a W-cycle makes on its own level. */
  lemma WLevelCounts(sw: WSweeps, l: nat, n: nat)
    ensures Count(WLevelEvents(sw, l, n), Smooth)
         == if l == n - 1 then Times(sw.coarse) else Times(sw.pre) + Times(sw.mid) + Times(sw.post)
    ensures Count(WLevelEvents(sw, l, n), PrepFiner) == if l == 0 then 0 else 1
  {
    var pre, pc, mid, post, fin := Smooths(l, sw.pre), [Event(PrepCoarser, l)], Smooths(l, sw.mid), Smooths(l, sw.post), Finer(l);
    SmoothsFacts(l, sw.coarse);
    SmoothsFacts(l, sw.pre);
    SmoothsFacts(l, sw.mid);
    SmoothsFacts(l, sw.post);
    FinerFacts(l);
    PrepCoarserFacts(l);
    if l == n - 1 {
      forall k: Kind
        ensures Count(WLevelEvents(sw, l, n), k) == Count(Smooths(l, sw.coarse), k) + Count(fin, k)
      {
        CountAppend(Smooths(l, sw.coarse), fin, k);
      }
    } else {
      forall k: Kind
        ensures Count(WLevelEvents(sw, l, n), k)
             == Count(pre, k) + 2 * Count(pc, k) + Count(mid, k) + Count(post, k) + Count(fin, k)
      {
        CountAppend(pre + pc + mid + pc + post, fin, k);
        CountAppend(pre + pc + mid + pc, post, k);
        CountAppend(pre + pc + mid, pc, k);
        CountAppend(pre + pc, mid, k);
        CountAppend(pre, pc, k);
      }
    }
  }

  /** On a chain of n >= 2 levels, one visit of the finest level visits the coarsest level
      2^(n-1) times (one prepFiner per visit), smoothing coarse times on each. */
  lemma WCoarsestVisits(sw: WSweeps, n: nat)
    requires n >= 2
    ensures Count(Project(WTrace(sw, 0, n), n - 1), PrepFiner) == Pow2(n - 1)
    ensures Count(Project(WTrace(sw, 0, n), n - 1), Smooth) == Pow2(n - 1) * Times(sw.coarse)
  {
    WTraceProject(sw, 0, n, n - 1);
    WLevelCounts(sw, n - 1, n);
    CountCat(WLevelEvents(sw, n - 1, n), Pow2(n - 1), PrepFiner);
    CountCat(WLevelEvents(sw, n - 1, n), Pow2(n - 1), Smooth);
  }

  /** With every count 1 on two levels, the fine level smooths three times and the coarse
      level twice (once per descent). */
  lemma WTwoLevels()
    ensures Count(Project(WTrace(WSweeps(1, 1, 1, 1), 0, 2), 0), Smooth) == 3
    ensures Count(Project(WTrace(WSweeps(1, 1, 1, 1), 0, 2), 1), Smooth) == 2
  {
    var sw := WSweeps(1, 1, 1, 1);
    WTraceProject(sw, 0, 2, 0);
    WLevelCounts(sw, 0, 2);
    CountCat(WLevelEvents(sw, 0, 2), 1, Smooth);
    WCoarsestVisits(sw, 2);
  }

  class WCycle {
    const finest: Level
    var numPreSweeps: int
    var numPostSweeps: int
    var numCoarseSweeps: int
    var numMidSweeps: int

    /** new WCycle(finest_level, config_j): every count present in the configuration
        overwrites its default of 1; nothing is refused. */
    constructor (finest: Level, config: map<string, int>)
      ensures this.finest == finest && Sweeps() == ReadWConfig(config)
    {
      this.finest := finest;
      numPreSweeps, numPostSweeps, numCoarseSweeps, numMidSweeps := 1, 1, 1, 1;
      new;
      if "pre_sweeps" in config {
        numPreSweeps := config["pre_sweeps"];
      }
      if "post_sweeps" in config {
        numPostSweeps := config["post_sweeps"];
      }
      if "coarse_sweeps" in config {
        numCoarseSweeps := config["coarse_sweeps"];
      }
      if "mid_sweeps" in config {
        numMidSweeps := config["mid_sweeps"];
      }
    }

    function Sweeps(): WSweeps
      reads this
    {
      WSweeps(numPreSweeps, numPostSweeps, numCoarseSweeps, numMidSweeps)
    }

    /** visit(level i): the calls made on the levels' smoothers, restrictors and
        interpolators, in order. */
    method Visit(levels: seq<Level>, i: nat) returns (calls: seq<Event>)
      requires Chain(levels) && i < |levels|
      ensures calls == WTrace(Sweeps(), i, |levels|)
      decreases |levels| - i
    {
      var level := levels[i];
      ChainEnds(levels, i);
      if level.Coarsest() {
        calls := SweepLoop(i, numCoarseSweeps);
      } else {
        var pre := SweepLoop(i, numPreSweeps);
        var first := Visit(levels, i + 1);
        var mid := SweepLoop(i, numMidSweeps);
        var second := Visit(levels, i + 1);
        var post := SweepLoop(i, numPostSweeps);
        calls := pre + [Event(PrepCoarser, i)] + first + mid + [Event(PrepCoarser, i)] + second + post;
      }
      if !level.Finest() {
        calls := calls + [Event(PrepFiner, i)];
      }
    }
  }
}
