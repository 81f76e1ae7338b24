/** Shared vocabulary: optional values and the list operations the models need. */
module Prelude {

  datatype Option<+T> = None | Some(value: T)

  /** Python's list.remove, made total: drops the first occurrence of x, if any. */
  function RemoveFirst<T(==)>(s: seq<T>, x: T): seq<T> {
    if s == [] then []
    else if s[0] == x then s[1..]
    else [s[0]] + RemoveFirst(s[1..], x)
  }

  /** The last n elements of s, or all of s when it is shorter. */
  function Last<T>(s: seq<T>, n: nat): (r: seq<T>)
    ensures |r| == if |s| <= n then |s| else n
  {
    if |s| <= n then s else s[|s| - n..]
  }

  /** s without the elements of a set. */
  function FilterOut<T(==,!new)>(s: seq<T>, gone: set<T>): (r: seq<T>)
    ensures forall x :: x in r <==> x in s && x !in gone
  {
    if s == [] then []
    else if s[0] in gone then FilterOut(s[1..], gone)
    else [s[0]] + FilterOut(s[1..], gone)
  }

  ghost predicate NoDup<T>(s: seq<T>) {
    forall i, j :: 0 <= i < j < |s| ==> s[i] != s[j]
  }

  lemma {:induction false} RemoveFirstAbsent<T>(s: seq<T>, x: T)
    requires x !in s
    ensures RemoveFirst(s, x) == s
  {
    if s != [] {
      RemoveFirstAbsent(s[1..], x);
    }
  }

  /** Removal happens in the part of a concatenation that holds x first. */
  lemma {:induction false} RemoveFirstConcat<T>(p: seq<T>, q: seq<T>, x: T)
    ensures RemoveFirst(p + q, x) == if x in p then RemoveFirst(p, x) + q else p + RemoveFirst(q, x)
  {
    if p == [] {
      assert p + q == q;
    } else {
      assert (p + q)[1..] == p[1..] + q;
      RemoveFirstConcat(p[1..], q, x);
    }
  }

  /** A present element sits between a part without it and the rest; only it goes. */
  lemma {:induction false} RemoveFirstSplit<T>(s: seq<T>, x: T) returns (i: nat)
    requires x in s
    ensures i < |s| && s[i] == x && x !in s[..i]
    ensures RemoveFirst(s, x) == s[..i] + s[i + 1..]
  {
    if s[0] == x {
      i := 0;
    } else {
      var j := RemoveFirstSplit(s[1..], x);
      i := j + 1;
      assert s[..i] == [s[0]] + s[1..][..j];
    }
  }

  lemma RemoveFirstNoDup<T>(s: seq<T>, x: T)
    requires NoDup(s)
    ensures NoDup(RemoveFirst(s, x))
    ensures forall y :: y in RemoveFirst(s, x) <==> y in s && y != x
    ensures |RemoveFirst(s, x)| == if x in s then |s| - 1 else |s|
  {
    if x in s {
      var i := RemoveFirstSplit(s, x);
      var r := s[..i] + s[i + 1..];
      forall y | y in s && y != x ensures y in r {
        var j :| 0 <= j < |s| && s[j] == y;
        assert r[if j < i then j else j - 1] == y;
      }
    } else {
      RemoveFirstAbsent(s, x);
    }
  }

  lemma {:induction false} FilterOutNothing<T(!new)>(s: seq<T>)
    ensures FilterOut(s, {}) == s
  {
    if s != [] {
      FilterOutNothing(s[1..]);
    }
  }

  lemma {:induction false} FilterOutNoDup<T(!new)>(s: seq<T>, gone: set<T>)
    requires NoDup(s)
    ensures NoDup(FilterOut(s, gone))
  {
    if s != [] {
      FilterOutNoDup(s[1..], gone);
    }
  }

  /** x stands before y. */
  ghost predicate Precedes<T>(s: seq<T>, x: T, y: T) {
    exists i, j :: 0 <= i < j < |s| && s[i] == x && s[j] == y
  }

  /** Filtering keeps the order of what stays. */
  lemma {:induction false} FilterOutKeepsOrder<T(!new)>(s: seq<T>, gone: set<T>, x: T, y: T)
    requires Precedes(s, x, y) && x !in gone && y !in gone
    ensures Precedes(FilterOut(s, gone), x, y)
  {
    var i, j :| 0 <= i < j < |s| && s[i] == x && s[j] == y;
    var r := FilterOut(s[1..], gone);
    if i > 0 {
      assert s[1..][i - 1] == x && s[1..][j - 1] == y;
      FilterOutKeepsOrder(s[1..], gone, x, y);
      var a, b :| 0 <= a < b < |r| && r[a] == x && r[b] == y;
      if s[0] !in gone {
        assert ([s[0]] + r)[a + 1] == x && ([s[0]] + r)[b + 1] == y;
      }
    } else {
      assert s[1..][j - 1] == y;
      var b :| 0 <= b < |r| && r[b] == y;
      assert ([s[0]] + r)[0] == x && ([s[0]] + r)[b + 1] == y;
    }
  }

  /** Removing one more element from a filtered list is filtering by a larger set. */
  lemma {:induction false} FilterOutOneMore<T(!new)>(s: seq<T>, gone: set<T>, x: T)
    requires NoDup(s) && x !in gone
    ensures RemoveFirst(FilterOut(s, gone), x) == FilterOut(s, gone + {x})
  {
    if s != [] {
      FilterOutOneMore(s[1..], gone, x);
      if s[0] == x {
        assert x !in s[1..];
        RemoveFirstAbsent(FilterOut(s[1..], gone), x);
      }
    }
  }

  /** A list without repetition has as many elements as the set of them. */
  lemma {:induction false} NoDupSize<T>(s: seq<T>, elems: set<T>)
    requires NoDup(s)
    requires forall x :: x in s <==> x in elems
    ensures |s| == |elems|
  {
    if s == [] {
      assert elems == {};
    } else {
      assert s[0] in elems;
      assert forall x :: x in s[1..] <==> x in elems - {s[0]} by {
        forall x | x in elems - {s[0]} ensures x in s[1..] {
          var j :| 0 <= j < |s| && s[j] == x;
          assert s[1..][j - 1] == x;
        }
      }
      NoDupSize(s[1..], elems - {s[0]});
    }
  }
}

/** Exponential back-off: powers of a factor. */
module Backoff {

  function Power(factor: real, n: nat): real {
    if n == 0 then 1.0 else factor * Power(factor, n - 1)
  }

  lemma {:induction false} PowerMonotone(a: nat, b: nat)
    requires a <= b
    ensures 1.0 <= Power(2.0, a) <= Power(2.0, b)
  {
    if b > a {
      PowerMonotone(a, b - 1);
    } else if a > 0 {
      PowerMonotone(a - 1, a - 1);
    }
  }
}
