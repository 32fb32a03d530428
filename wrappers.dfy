/** Python's `None`-or-value results, and the ordered filtering they feed. */
module Wrappers {

  datatype Option<T> = None | Some(value: T)

  /** The present values of `xs`, in order: what a loop that appends only on `Some` builds. */
  function Somes<T>(xs: seq<Option<T>>): (r: seq<T>)
    ensures |r| <= |xs|
  {
    if xs == [] then []
    else
      var init := Somes(xs[..|xs| - 1]);
      match xs[|xs| - 1]
      case Some(v) => init + [v]
      case None => init
  }

  /** The value of `o` as a list of at most one element. */
  function ToSeq<T>(o: Option<T>): seq<T> {
    if o.Some? then [o.value] else []
  }

  lemma SomesAppend<T>(xs: seq<Option<T>>, x: Option<T>)
    ensures Somes(xs + [x]) == Somes(xs) + ToSeq(x)
  {
    assert (xs + [x])[..|xs|] == xs;
  }

  /**
   * Every kept value comes from its own position of `xs`, and the positions increase:
   * filtering keeps at most one value per input and never reorders.
   */
  lemma {:induction false} SomesOrigin<T>(xs: seq<Option<T>>) returns (idx: seq<nat>)
    ensures |idx| == |Somes(xs)|
    ensures forall k :: 0 <= k < |idx| ==> idx[k] < |xs| && xs[idx[k]] == Some(Somes(xs)[k])
    ensures forall k, l :: 0 <= k < l < |idx| ==> idx[k] < idx[l]
  {
    if xs == [] {
      idx := [];
    } else {
      var init := xs[..|xs| - 1];
      var pre := SomesOrigin(init);
      if xs[|xs| - 1].Some? {
        idx := pre + [|xs| - 1];
      } else {
        idx := pre;
      }
    }
  }

  /** Nothing present is dropped. */
  lemma {:induction false} SomesComplete<T>(xs: seq<Option<T>>, i: nat)
    requires i < |xs| && xs[i].Some?
    ensures xs[i].value in Somes(xs)
  {
    var init := xs[..|xs| - 1];
    if i < |xs| - 1 {
      SomesComplete(init, i);
    }
  }

  /** When every entry is present, filtering keeps all of them. */
  lemma {:induction false} SomesAllPresent<T>(xs: seq<Option<T>>, vs: seq<T>)
    requires |xs| == |vs|
    requires forall k :: 0 <= k < |xs| ==> xs[k] == Some(vs[k])
    ensures Somes(xs) == vs
  {
    if xs != [] {
      SomesAllPresent(xs[..|xs| - 1], vs[..|vs| - 1]);
      assert vs[..|vs| - 1] + [vs[|vs| - 1]] == vs;
    }
  }

  /** Filtering one more element of a prefix. */
  lemma SomesPrefixStep<T>(xs: seq<Option<T>>, i: nat)
    requires i < |xs|
    ensures Somes(xs[..i + 1]) == Somes(xs[..i]) + ToSeq(xs[i])
  {
    assert xs[..i + 1] == xs[..i] + [xs[i]];
    SomesAppend(xs[..i], xs[i]);
  }

  /** Some element satisfies `p` (Python's `any`). */
  predicate AnyOf<X>(xs: seq<X>, p: X -> bool) {
    exists j :: 0 <= j < |xs| && p(xs[j])
  }

  /** `any` over one more element. */
  lemma AnyOfStep<X>(xs: seq<X>, i: nat, p: X -> bool)
    requires i < |xs|
    ensures AnyOf(xs[..i + 1], p) <==> AnyOf(xs[..i], p) || p(xs[i])
  {
    var q := xs[..i + 1];
    assert q[i] == xs[i];
    if AnyOf(xs[..i], p) {
      var j :| 0 <= j < i && p(xs[..i][j]);
      assert q[j] == xs[..i][j];
    }
    if AnyOf(q, p) {
      var j :| 0 <= j < i + 1 && p(q[j]);
      if j < i {
        assert xs[..i][j] == q[j];
      }
    }
  }
}
