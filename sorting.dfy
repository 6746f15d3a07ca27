/** Python's ordering of strings and `sorted()` over a set of dictionary keys. */
module Sorting {

  /** `a < b` on Python strings: lexicographic by character code, a proper prefix first. */
  predicate Less(a: string, b: string)
    decreases |a|
  {
    if |a| == 0 then |b| > 0
    else |b| > 0 && (a[0] < b[0] || (a[0] == b[0] && Less(a[1..], b[1..])))
  }

  lemma {:induction false} LessIrreflexive(a: string)
    ensures !Less(a, a)
    decreases |a|
  {
    if |a| > 0 {
      LessIrreflexive(a[1..]);
    }
  }

  lemma {:induction false} LessTransitive(a: string, b: string, c: string)
    requires Less(a, b) && Less(b, c)
    ensures Less(a, c)
    decreases |a|
  {
    if |a| > 0 && a[0] == b[0] && b[0] == c[0] {
      LessTransitive(a[1..], b[1..], c[1..]);
    }
  }

  /** Any two distinct strings are ordered one way or the other. */
  lemma {:induction false} LessTotal(a: string, b: string)
    ensures a == b || Less(a, b) || Less(b, a)
    decreases |a|
  {
    if |a| > 0 && |b| > 0 && a[0] == b[0] {
      LessTotal(a[1..], b[1..]);
      assert a == [a[0]] + a[1..];
      assert b == [b[0]] + b[1..];
    }
  }

  /** Every element is strictly below every later one. */
  predicate StrictlySorted(s: seq<string>)
  {
    forall i, j :: 0 <= i < j < |s| ==> Less(s[i], s[j])
  }

  /** `m` is the least element of `ks`. */
  predicate IsLeast(m: string, ks: set<string>)
  {
    m in ks && forall x :: x in ks && x != m ==> Less(m, x)
  }

  lemma {:induction false} LeastExists(ks: set<string>)
    requires ks != {}
    ensures exists m :: IsLeast(m, ks)
    decreases ks
  {
    var x :| x in ks;
    if ks == {x} {
      assert IsLeast(x, ks);
    } else {
      LeastExists(ks - {x});
      var m :| IsLeast(m, ks - {x});
      LessTotal(m, x);
      if Less(m, x) {
        assert IsLeast(m, ks);
      } else {
        forall y | y in ks && y != x
          ensures Less(x, y)
        {
          if y != m {
            LessTransitive(x, m, y);
          }
        }
        assert IsLeast(x, ks);
      }
    }
  }

  /** The keys of `ks` in ascending order, which is what `sorted(ks)` returns. */
  ghost function SortedKeys(ks: set<string>): (r: seq<string>)
    ensures StrictlySorted(r)
    ensures forall k :: k in r <==> k in ks
    ensures |r| == |ks|
    decreases ks
  {
    if ks == {} then []
    else
      LeastExists(ks);
      var m :| IsLeast(m, ks);
      var rest := SortedKeys(ks - {m});
      assert forall j :: 0 <= j < |rest| ==> Less(m, rest[j]) by {
        forall j | 0 <= j < |rest| ensures Less(m, rest[j]) {
          assert rest[j] in ks - {m};
        }
      }
      [m] + rest
  }

  lemma HeadIn(s: seq<string>)
    ensures s == [] || s[0] in s
  {
  }

  /** There is only one strictly ascending sequence with a given set of elements. */
  lemma {:induction false} SortedUnique(r1: seq<string>, r2: seq<string>)
    requires StrictlySorted(r1) && StrictlySorted(r2)
    requires forall k :: k in r1 <==> k in r2
    ensures r1 == r2
    decreases |r1|
  {
    if r1 == [] {
      HeadIn(r2);
    } else {
      assert r1[0] in r2;
      assert r2 != [];
      assert r2[0] in r1;
      var a, b := r1[0], r2[0];
      if a != b {
        var i :| 0 <= i < |r1| && r1[i] == b;
        var j :| 0 <= j < |r2| && r2[j] == a;
        assert i > 0 && j > 0;
        assert Less(a, b) && Less(b, a);
        LessTransitive(a, b, a);
        LessIrreflexive(a);
      }
      var t1, t2 := r1[1..], r2[1..];
      forall k
        ensures k in t1 <==> k in t2
      {
        if k in t1 {
          var i :| 0 <= i < |t1| && t1[i] == k;
          assert Less(a, k) by { assert r1[i + 1] == k; }
          if k == a { LessIrreflexive(a); }
          assert k in r2 && k != r2[0];
          var j :| 0 <= j < |r2| && r2[j] == k;
          assert t2[j - 1] == k;
        }
        if k in t2 {
          var j :| 0 <= j < |t2| && t2[j] == k;
          assert Less(b, k) by { assert r2[j + 1] == k; }
          if k == b { LessIrreflexive(b); }
          assert k in r1 && k != r1[0];
          var i :| 0 <= i < |r1| && r1[i] == k;
          assert t1[i - 1] == k;
        }
      }
      assert StrictlySorted(t1) by {
        forall i, j | 0 <= i < j < |t1| ensures Less(t1[i], t1[j]) { assert Less(r1[i + 1], r1[j + 1]); }
      }
      assert StrictlySorted(t2) by {
        forall i, j | 0 <= i < j < |t2| ensures Less(t2[i], t2[j]) { assert Less(r2[i + 1], r2[j + 1]); }
      }
      SortedUnique(t1, t2);
      assert r1 == [a] + t1 && r2 == [b] + t2;
    }
  }

  /** A strictly sorted sequence stays so with an element below all of it in front. */
  lemma ConsSorted(k: string, tail: seq<string>)
    requires StrictlySorted(tail)
    requires forall j :: 0 <= j < |tail| ==> Less(k, tail[j])
    ensures StrictlySorted([k] + tail)
  {
    var order := [k] + tail;
    forall i, j | 0 <= i < j < |order| ensures Less(order[i], order[j]) {
      assert order[j] == tail[j - 1];
      if i > 0 {
        assert order[i] == tail[i - 1];
      }
    }
  }

  /** The sorted enumeration of a set starts with its least element. */
  lemma SortedKeysLeast(k: string, ks: set<string>)
    requires IsLeast(k, ks)
    ensures SortedKeys(ks) == [k] + SortedKeys(ks - {k})
  {
    var tail := SortedKeys(ks - {k});
    forall j | 0 <= j < |tail| ensures Less(k, tail[j]) {
      assert tail[j] in ks - {k};
    }
    ConsSorted(k, tail);
    assert forall x :: x in [k] + tail <==> x in ks;
    SortedUnique([k] + tail, SortedKeys(ks));
  }

  /** The least key of a non-empty set, found in one pass over the set. */
  method Least(ks: set<string>) returns (m: string)
    requires ks != {}
    ensures IsLeast(m, ks)
  {
    m :| m in ks;
    var todo := ks - {m};
    while todo != {}
      invariant todo <= ks && m in ks && m !in todo
      invariant forall y :: y in ks && y !in todo && y != m ==> Less(m, y)
      decreases todo
    {
      var x :| x in todo;
      LessTotal(x, m);
      if Less(x, m) {
        forall y | y in ks && y !in todo - {x} && y != x
          ensures Less(x, y)
        {
          if y != m {
            LessTransitive(x, m, y);
          }
        }
        m := x;
      }
      todo := todo - {x};
    }
  }

  /** `sorted(ks)`: repeatedly takes the least remaining key. */
  method Sort(ks: set<string>) returns (r: seq<string>)
    ensures r == SortedKeys(ks)
  {
    r := [];
    var rest := ks;
    while rest != {}
      invariant rest <= ks
      invariant forall k :: k in r <==> k in ks && k !in rest
      invariant StrictlySorted(r)
      invariant forall i, y :: 0 <= i < |r| && y in rest ==> Less(r[i], y)
      decreases rest
    {
      var m := Least(rest);
      r := r + [m];
      rest := rest - {m};
    }
    SortedUnique(r, SortedKeys(ks));
  }
}
