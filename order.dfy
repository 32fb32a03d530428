/**
 * Python's ordering of strings (code point by code point, a proper prefix first) and
 * `sorted` applied to a set or to a dictionary's keys.
 */
module Ordering {

  /** `a < b` on Python strings. */
  predicate Less(a: string, b: string)
    decreases |a|
  {
    if a == [] then b != []
    else if b == [] then false
    else if a[0] != b[0] then a[0] < b[0]
    else Less(a[1..], b[1..])
  }

  lemma {:induction false} LessIrreflexive(a: string)
    ensures !Less(a, a)
    decreases |a|
  {
    if a != [] {
      LessIrreflexive(a[1..]);
    }
  }

  lemma {:induction false} LessAsymmetric(a: string, b: string)
    ensures Less(a, b) ==> !Less(b, a)
    decreases |a|
  {
    if a != [] && b != [] && a[0] == b[0] {
      LessAsymmetric(a[1..], b[1..]);
    }
  }

  lemma {:induction false} LessTotal(a: string, b: string)
    ensures a == b || Less(a, b) || Less(b, a)
    decreases |a|
  {
    if a != [] && b != [] && a[0] == b[0] {
      LessTotal(a[1..], b[1..]);
      if a[1..] == b[1..] {
        assert a == [a[0]] + a[1..] && b == [b[0]] + b[1..];
      }
    }
  }

  lemma {:induction false} LessTransitive(a: string, b: string, c: string)
    requires Less(a, b) && Less(b, c)
    ensures Less(a, c)
    decreases |a|
  {
    if a != [] && a[0] == b[0] && b[0] == c[0] {
      LessTransitive(a[1..], b[1..], c[1..]);
    }
  }

  /** Strings that agree before index `k` and differ there are ordered by their characters at `k`. */
  lemma {:induction false} LessAt(a: string, b: string, k: nat)
    requires k < |a| && k < |b| && a[k] < b[k]
    requires forall i :: 0 <= i < k ==> a[i] == b[i]
    ensures Less(a, b)
    decreases k
  {
    if k > 0 {
      assert a[0] == b[0];
      LessAt(a[1..], b[1..], k - 1);
    }
  }

  /** Every element is smaller than the ones after it: sorted, with no repetition. */
  predicate StrictlySorted(xs: seq<string>) {
    forall i, j :: 0 <= i < j < |xs| ==> Less(xs[i], xs[j])
  }

  /** `m` is the smallest element of `s`. */
  predicate IsLeast(m: string, s: set<string>) {
    m in s && forall y :: y in s && y != m ==> Less(m, y)
  }

  lemma LeastExists(s: set<string>)
    requires s != {}
    ensures exists m :: IsLeast(m, s)
  {
    var m := FindLeast(s);
  }

  /** A finite non-empty set of strings has a smallest element. */
  lemma {:induction false} FindLeast(s: set<string>) returns (m: string)
    requires s != {}
    ensures IsLeast(m, s)
    decreases s
  {
    var x :| x in s;
    if s == {x} {
      m := x;
    } else {
      var rest := FindLeast(s - {x});
      LessTotal(x, rest);
      if Less(x, rest) {
        m := x;
        forall y | y in s && y != m ensures Less(m, y) {
          if y != rest {
            LessTransitive(x, rest, y);
          }
        }
      } else {
        m := rest;
      }
    }
  }

  /** The smallest element is unique. */
  lemma LeastUnique(m: string, n: string, s: set<string>)
    requires IsLeast(m, s) && IsLeast(n, s)
    ensures m == n
  {
    if m != n {
      LessAsymmetric(m, n);
    }
  }

  lemma LeastIsUnique(s: set<string>)
    ensures forall m, n :: IsLeast(m, s) && IsLeast(n, s) ==> m == n
  {
    forall m, n | IsLeast(m, s) && IsLeast(n, s) ensures m == n {
      LeastUnique(m, n, s);
    }
  }

  /** `sorted(s)`: the elements of `s` in increasing order. */
  function Sorted(s: set<string>): (r: seq<string>)
    ensures |r| == |s| && StrictlySorted(r)
    ensures forall x :: x in r <==> x in s
    decreases s
  {
    if s == {} then []
    else
      LeastExists(s);
      LeastIsUnique(s);
      var m :| IsLeast(m, s);
      var rest := Sorted(s - {m});
      assert forall k :: 0 <= k < |rest| ==> Less(m, rest[k]);
      [m] + rest
  }

  /** Only one sequence lists a set in strictly increasing order. */
  lemma {:induction false} SortedUnique(xs: seq<string>, s: set<string>)
    requires StrictlySorted(xs) && forall x :: x in xs <==> x in s
    ensures xs == Sorted(s)
    decreases |xs|
  {
    if xs != [] {
      var ys := Sorted(s);
      assert xs[0] in s;
      HeadIsLeast(xs, s);
      HeadIsLeast(ys, s);
      LeastUnique(xs[0], ys[0], s);
      TailLists(xs, s);
      SortedUnique(xs[1..], s - {xs[0]});
      assert ys == [ys[0]] + ys[1..];
      assert xs == [xs[0]] + xs[1..];
    }
  }

  /** The first element of a strictly sorted listing is the least. */
  lemma HeadIsLeast(xs: seq<string>, s: set<string>)
    requires xs != [] && StrictlySorted(xs) && forall x :: x in xs <==> x in s
    ensures IsLeast(xs[0], s)
  {
    forall y | y in s && y != xs[0] ensures Less(xs[0], y) {
      var k :| 0 <= k < |xs| && xs[k] == y;
    }
  }

  /** The rest of a strictly sorted listing lists the rest of the set. */
  lemma TailLists(xs: seq<string>, s: set<string>)
    requires xs != [] && StrictlySorted(xs) && forall x :: x in xs <==> x in s
    ensures StrictlySorted(xs[1..]) && forall x :: x in xs[1..] <==> x in s - {xs[0]}
  {
    forall x | x in xs[1..] ensures x != xs[0] {
      var k :| 1 <= k < |xs| && xs[k] == x;
      LessIrreflexive(x);
    }
    assert forall x :: x in xs <==> x == xs[0] || x in xs[1..] by {
      assert xs == [xs[0]] + xs[1..];
    }
  }

  /** `sorted` of two ordered strings. */
  lemma SortedOfPair(a: string, b: string)
    requires Less(a, b)
    ensures Sorted({a, b}) == [a, b]
  {
    SortedUnique([a, b], {a, b});
  }

  /** `sorted` of three ordered strings. */
  lemma SortedOfTriple(a: string, b: string, c: string)
    requires Less(a, b) && Less(b, c)
    ensures Sorted({a, b, c}) == [a, b, c]
  {
    LessTransitive(a, b, c);
    SortedUnique([a, b, c], {a, b, c});
  }
}
