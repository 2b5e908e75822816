/** Sequence and set helpers shared by the model. */
module Seqs {
  import opened Wrappers

  /** The concatenation of a sequence of sequences, in order. */
  function Flatten<T>(ss: seq<seq<T>>): seq<T> {
    if ss == [] then [] else Flatten(ss[..|ss| - 1]) + ss[|ss| - 1]
  }

  lemma {:induction false} FlattenAppend<T>(ss: seq<seq<T>>, tt: seq<seq<T>>)
    ensures Flatten(ss + tt) == Flatten(ss) + Flatten(tt)
    decreases |tt|
  {
    if tt == [] {
      assert ss + tt == ss;
    } else {
      var init := tt[..|tt| - 1];
      var last := tt[|tt| - 1];
      assert (ss + tt)[..|ss + tt| - 1] == ss + init;
      assert (ss + tt)[|ss + tt| - 1] == last;
      calc {
        Flatten(ss + tt);
        Flatten(ss + init) + last;
        { FlattenAppend(ss, init); }
        Flatten(ss) + Flatten(init) + last;
        Flatten(ss) + Flatten(tt);
      }
    }
  }

  /** A non-empty sequence, alone or after another, is its front followed by its last element. */
  lemma SnocParts<T>(a: seq<T>, b: seq<T>)
    requires b != []
    ensures b == b[..|b| - 1] + [b[|b| - 1]]
    ensures a + b == (a + b[..|b| - 1]) + [b[|b| - 1]]
  {
  }

  /**
    The number of reads a `while ((n = Read(...)) > 0)` loop consumes: the
    position of the first empty read, or all of them.
  */
  function CountUntilEmpty<T>(chunks: seq<seq<T>>): (n: nat)
    ensures n <= |chunks|
  {
    if chunks == [] || chunks[0] == [] then 0 else 1 + CountUntilEmpty(chunks[1..])
  }

  /** The reads before the count are not empty, and the one at the count, if any, is. */
  lemma {:induction false} CountUntilEmptyStops<T>(chunks: seq<seq<T>>)
    ensures forall i :: 0 <= i < CountUntilEmpty(chunks) ==> chunks[i] != []
    ensures CountUntilEmpty(chunks) < |chunks| ==> chunks[CountUntilEmpty(chunks)] == []
    decreases |chunks|
  {
    if chunks != [] && chunks[0] != [] {
      var rest := chunks[1..];
      CountUntilEmptyStops(rest);
      forall i | 0 <= i < CountUntilEmpty(chunks) ensures chunks[i] != [] {
        if i > 0 {
          assert chunks[i] == rest[i - 1];
        }
      }
    }
  }

  /** A read loop that finds a non-empty read has not yet reached the count. */
  lemma ReadAgain<T>(chunks: seq<seq<T>>, k: int)
    requires 0 <= k <= CountUntilEmpty(chunks) && k < |chunks| && chunks[k] != []
    ensures k < CountUntilEmpty(chunks)
  {
    CountUntilEmptyStops(chunks);
  }

  /** A read loop that stops at an empty read, or at the end, consumed exactly the count. */
  lemma ReadStops<T>(chunks: seq<seq<T>>, k: int)
    requires 0 <= k <= CountUntilEmpty(chunks)
    requires k == |chunks| || (k < |chunks| && chunks[k] == [])
    ensures Received(chunks) == chunks[..k]
  {
    CountUntilEmptyStops(chunks);
  }

  /** The chunks such a loop processes. */
  function Received<T>(chunks: seq<seq<T>>): seq<seq<T>> {
    chunks[..CountUntilEmpty(chunks)]
  }

  /** The position of the last element satisfying `p` (LINQ LastOrDefault with a predicate). */
  function LastIndexWhere<T>(s: seq<T>, p: T -> bool): (r: Option<nat>)
    ensures r.Some? ==> r.value < |s| && p(s[r.value])
    ensures r.Some? ==> forall j :: r.value < j < |s| ==> !p(s[j])
    ensures r.None? <==> forall j :: 0 <= j < |s| ==> !p(s[j])
  {
    if s == [] then None
    else if p(s[|s| - 1]) then Some(|s| - 1)
    else LastIndexWhere(s[..|s| - 1], p)
  }

  predicate StrictlyIncreasing(s: seq<int>) {
    forall i, j :: 0 <= i < j < |s| ==> s[i] < s[j]
  }

  lemma SomeElement(s: set<int>)
    requires s != {}
    ensures exists y :: y in s
  {
    if forall y :: y !in s {
      assert false;
    }
  }

  /** A subset has at most as many elements. */
  lemma {:induction false} SubsetCardinality<T>(a: set<T>, b: set<T>)
    requires a <= b
    ensures |a| <= |b|
    decreases |a|
  {
    if a != {} {
      var x := Pick(a);
      SubsetCardinality(a - {x}, b - {x});
    }
  }

  /** Some element of a non-empty set. */
  ghost function Pick<T>(s: set<T>): (x: T)
    requires s != {}
    ensures x in s
  {
    assert exists y :: y in s by {
      if forall y :: y !in s {
        assert false;
      }
    }
    var y :| y in s; y
  }

  predicate IsMin(m: int, s: set<int>) {
    m in s && forall x :: x in s ==> m <= x
  }

  predicate IsMax(m: int, s: set<int>) {
    m in s && forall x :: x in s ==> x <= m
  }

  lemma {:induction false} MinExists(s: set<int>)
    requires s != {}
    ensures exists m :: IsMin(m, s)
    decreases |s|
  {
    SomeElement(s);
    var y :| y in s;
    var rest := s - {y};
    if rest == {} {
      assert s == {y};
      assert IsMin(y, s);
    } else {
      MinExists(rest);
      var m :| IsMin(m, rest);
      var least := if y < m then y else m;
      forall x | x in s ensures least <= x {
        if x != y {
          assert x in rest;
        }
      }
      assert IsMin(least, s);
    }
  }

  lemma {:induction false} MaxExists(s: set<int>)
    requires s != {}
    ensures exists m :: IsMax(m, s)
    decreases |s|
  {
    SomeElement(s);
    var y :| y in s;
    var rest := s - {y};
    if rest == {} {
      assert s == {y};
      assert IsMax(y, s);
    } else {
      MaxExists(rest);
      var m :| IsMax(m, rest);
      var most := if y > m then y else m;
      forall x | x in s ensures x <= most {
        if x != y {
          assert x in rest;
        }
      }
      assert IsMax(most, s);
    }
  }

  /** The least element of a non-empty set. */
  function Min(s: set<int>): (m: int)
    requires s != {}
    ensures IsMin(m, s)
  {
    MinExists(s);
    var m :| IsMin(m, s);
    m
  }

  /** The greatest element of a non-empty set (LINQ Max over dictionary keys). */
  function Max(s: set<int>): (m: int)
    requires s != {}
    ensures IsMax(m, s)
  {
    MaxExists(s);
    var m :| IsMax(m, s);
    m
  }

  /** A key below every element of a strictly increasing sequence can be put in front of it. */
  lemma PrependIncreasing(m: int, rest: seq<int>)
    requires StrictlyIncreasing(rest)
    requires forall x :: x in rest ==> m < x
    ensures StrictlyIncreasing([m] + rest)
  {
    var r := [m] + rest;
    forall i, j | 0 <= i < j < |r| ensures r[i] < r[j] {
      assert r[j] == rest[j - 1] && rest[j - 1] in rest;
      if i > 0 {
        assert r[i] == rest[i - 1];
      }
    }
  }

  /** The elements of a set in ascending order (LINQ OrderBy over dictionary keys). */
  function SortedSet(s: set<int>): (r: seq<int>)
    ensures |r| == |s|
    ensures forall x :: x in s <==> x in r
    ensures StrictlyIncreasing(r)
    decreases s
  {
    if s == {} then []
    else
      var m := Min(s);
      var rest := SortedSet(s - {m});
      assert StrictlyIncreasing([m] + rest) by {
        PrependIncreasing(m, rest);
      }
      [m] + rest
  }

  /** The position of the first occurrence of `x` (List.IndexOf). */
  function FirstIndex<T(==)>(s: seq<T>, x: T): (k: nat)
    requires x in s
    ensures k < |s| && s[k] == x
    ensures forall j :: 0 <= j < k ==> s[j] != x
  {
    if s[0] == x then 0 else 1 + FirstIndex(s[1..], x)
  }

  /** ObservableCollection.Remove: drops the first occurrence of `x`, if any. */
  function RemoveFirst<T(==)>(s: seq<T>, x: T): (r: seq<T>)
    ensures x !in s ==> r == s
    ensures x in s ==> |r| == |s| - 1
  {
    if x in s then
      var k := FirstIndex(s, x);
      s[..k] + s[k + 1..]
    else s
  }

  /** The sequence RemoveFirst leaves, position by position. */
  lemma RemoveFirstAt<T>(s: seq<T>, x: T)
    requires x in s
    ensures var k := FirstIndex(s, x);
      forall i :: 0 <= i < |s| - 1 ==> RemoveFirst(s, x)[i] == s[if i < k then i else i + 1]
  {
  }

  /** Removing a key from a strictly increasing sequence keeps it strictly increasing. */
  lemma RemoveFirstIncreasing(s: seq<int>, x: int)
    requires StrictlyIncreasing(s)
    ensures StrictlyIncreasing(RemoveFirst(s, x))
  {
    if x in s {
      var k := FirstIndex(s, x);
      var r := RemoveFirst(s, x);
      RemoveFirstAt(s, x);
      forall i, j | 0 <= i < j < |r| ensures r[i] < r[j] {
        assert r[i] == s[if i < k then i else i + 1];
        assert r[j] == s[if j < k then j else j + 1];
      }
    }
  }

  /** Removing a key from a strictly increasing sequence drops exactly that key. */
  lemma RemoveFirstMembers(s: seq<int>, x: int)
    requires StrictlyIncreasing(s)
    ensures forall y :: y in RemoveFirst(s, x) <==> y in s && y != x
  {
    if x in s {
      var k := FirstIndex(s, x);
      var r := RemoveFirst(s, x);
      RemoveFirstAt(s, x);
      forall y | y in r ensures y in s && y != x {
        var m :| 0 <= m < |r| && r[m] == y;
        assert y == s[if m < k then m else m + 1];
      }
      forall y | y in s && y != x ensures y in r {
        var m :| 0 <= m < |s| && s[m] == y;
        assert m != k;
        assert r[if m < k then m else m - 1] == y;
      }
    }
  }
}
