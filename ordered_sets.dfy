/**
 * std::set as the ghost-exchange planning uses it: a sequence kept strictly increasing
 * under the lexicographic order of each element's key (a tuple of integers, as
 * std::tuple compares), so that iterating it visits the elements in that order and an
 * element equal in key to one already present is not inserted again.
 */
module OrderedSets {

  /** Lexicographic order on integer tuples: a is below b. */
  predicate Less(a: seq<int>, b: seq<int>)
    decreases |a|
  {
    if a == [] then b != []
    else b != [] && (a[0] < b[0] || (a[0] == b[0] && Less(a[1..], b[1..])))
  }

  lemma {:induction false} LessIrreflexive(a: seq<int>)
    ensures !Less(a, a)
    decreases |a|
  {
    if a != [] {
      LessIrreflexive(a[1..]);
    }
  }

  lemma {:induction false} LessTransitive(a: seq<int>, b: seq<int>, c: seq<int>)
    requires Less(a, b) && Less(b, c)
    ensures Less(a, c)
    decreases |a|
  {
    if a != [] && a[0] == b[0] && b[0] == c[0] {
      LessTransitive(a[1..], b[1..], c[1..]);
    }
  }

  /** Any two different tuples are ordered one way or the other. */
  lemma {:induction false} LessTotal(a: seq<int>, b: seq<int>)
    requires a != b
    ensures Less(a, b) || Less(b, a)
    decreases |a|
  {
    if a != [] && b != [] && a[0] == b[0] {
      assert a == [a[0]] + a[1..] && b == [b[0]] + b[1..];
      LessTotal(a[1..], b[1..]);
    }
  }

  /** Strictly increasing keys: no two elements share a key, and iteration is in key order. */
  ghost predicate Sorted<T>(s: seq<T>, key: T -> seq<int>)
  {
    forall i, j :: 0 <= i < j < |s| ==> Less(key(s[i]), key(s[j]))
  }

  /** std::set::insert (emplace): x is added at its place in key order unless an element
      with the same key is already present. */
  method Insert<T(==)>(s: seq<T>, x: T, key: T -> seq<int>) returns (r: seq<T>)
    requires Sorted(s, key)
    ensures Sorted(r, key)
    ensures (exists y :: y in s && key(y) == key(x)) ==> r == s
    ensures (forall y :: y in s ==> key(y) != key(x)) ==> forall y :: y in r <==> y in s || y == x
  {
    var i := 0;
    while i < |s| && Less(key(s[i]), key(x))
      invariant 0 <= i <= |s|
      invariant forall j :: 0 <= j < i ==> Less(key(s[j]), key(x))
    {
      i := i + 1;
    }
    if i < |s| && key(s[i]) == key(x) {
      r := s;
      return;
    }
    if i < |s| {
      // the element at i and all after it are above x
      LessTotal(key(s[i]), key(x));
      forall j | i <= j < |s|
        ensures Less(key(x), key(s[j]))
      {
        if j > i {
          LessTransitive(key(x), key(s[i]), key(s[j]));
        }
      }
    }
    r := s[..i] + [x] + s[i..];
    forall y | y in s
      ensures key(y) != key(x)
    {
      var j :| 0 <= j < |s| && s[j] == y;
      if j < i {
        LessIrreflexive(key(x));
      } else {
        LessIrreflexive(key(x));
      }
    }
    assert forall j :: 0 <= j < |r| ==> (j < i ==> r[j] == s[j]) && (j == i ==> r[j] == x) && (j > i ==> r[j] == s[j - 1]);
  }

  function Elems<T>(s: seq<T>): set<T>
  {
    set x | x in s
  }

  /** No element occurs twice. */
  predicate Distinct<T(==)>(s: seq<T>)
  {
    forall i, j :: 0 <= i < j < |s| ==> s[i] != s[j]
  }

  /** s is a std::set in key order holding exactly the elements of S. */
  ghost predicate Holds<T>(s: seq<T>, key: T -> seq<int>, S: set<T>)
  {
    Sorted(s, key) && Elems(s) == S
  }

  /** Insertion into a set whose key identifies its elements: the set gains x. */
  method InsertElem<T(==)>(s: seq<T>, x: T, key: T -> seq<int>, ghost S: set<T>) returns (r: seq<T>)
    requires Holds(s, key, S)
    requires forall a, b :: key(a) == key(b) ==> a == b
    ensures Holds(r, key, S + {x})
  {
    r := Insert(s, x, key);
    if exists y :: y in s && key(y) == key(x) {
      var y :| y in s && key(y) == key(x);
      assert y == x;
    }
  }

  /** A sequence without repetitions has as many elements as its set. */
  lemma {:induction false} SetOfDistinct(s: seq<int>)
    requires Distinct(s)
    ensures |Elems(s)| == |s|
  {
    if s != [] {
      var init := s[..|s| - 1];
      SetOfDistinct(init);
      assert s == init + [s[|s| - 1]];
      assert Elems(s) == Elems(init) + {s[|s| - 1]};
    }
  }

  /** Strictly increasing integers. */
  predicate Increasing(s: seq<int>)
  {
    forall i, j :: 0 <= i < j < |s| ==> s[i] < s[j]
  }

  /** A non-empty set has an element. */
  lemma Pick<T>(S: set<T>) returns (x: T)
    requires S != {}
    ensures x in S
  {
    assert exists y :: y in S && y !in {};
    x :| x in S;
  }

  /** A non-empty finite set of integers has a least element. */
  lemma {:induction false} LeastExists(S: set<int>)
    requires S != {}
    ensures exists k :: k in S && forall x :: x in S ==> k <= x
    decreases S
  {
    var y := Pick(S);
    if S - {y} == {} {
      forall x | x in S
        ensures y <= x
      {
        assert x !in S - {y};
      }
    } else {
      LeastExists(S - {y});
      var k :| k in S - {y} && forall x :: x in S - {y} ==> k <= x;
      var m := if y < k then y else k;
      forall x | x in S
        ensures m <= x
      {
        if x != y {
          assert x in S - {y};
        }
      }
      assert m in S;
    }
  }

  /** The least element of a non-empty set of integers: *begin() of a std::set<int>. */
  ghost function Least(S: set<int>): (k: int)
    requires S != {}
    ensures k in S && forall x :: x in S ==> k <= x
  {
    LeastExists(S);
    var k :| k in S && forall x :: x in S ==> k <= x; k
  }

  /** The least element of a non-empty set of integers. */
  method MinOf(S: set<int>) returns (k: int)
    requires S != {}
    ensures k in S && forall x :: x in S ==> k <= x
    ensures k == Least(S)
  {
    ghost var w := Pick(S);
    k :| k in S;
    var rest := S - {k};
    while rest != {}
      invariant k in S && rest <= S
      invariant forall x :: x in S && x !in rest ==> k <= x
      decreases rest
    {
      ghost var w := Pick(rest);
      var x :| x in rest;
      if x < k {
        k := x;
      }
      rest := rest - {x};
    }
  }

  /** The keys of a std::map in the order a range-for visits them: increasing, each once. */
  method SortedKeys<V>(m: map<int, V>) returns (ks: seq<int>)
    ensures Increasing(ks) && Elems(ks) == m.Keys
  {
    ks := [];
    var rest := m.Keys;
    while rest != {}
      invariant Increasing(ks)
      invariant Elems(ks) + rest == m.Keys
      invariant forall i, b :: 0 <= i < |ks| && b in rest ==> ks[i] < b
      decreases rest
    {
      var k := MinOf(rest);
      assert forall i :: 0 <= i < |ks| ==> ks[i] < k;
      assert Elems(ks + [k]) == Elems(ks) + {k};
      assert (Elems(ks) + {k}) + (rest - {k}) == Elems(ks) + rest;
      ks := ks + [k];
      rest := rest - {k};
    }
  }

  /** An increasing sequence has as many elements as its set. */
  lemma IncreasingCard(s: seq<int>)
    requires Increasing(s)
    ensures |Elems(s)| == |s|
  {
    SetOfDistinct(s);
  }
}
