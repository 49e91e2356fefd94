/** Two shapes that recur in index.js: a `.each`/`for` loop that pushes a
    value for every element it accepts, and a chain of `if (x) return x`
    strategies where the first one that yields something wins. */
module Seqs {
  import opened Options

  /** The values `f` produces for the elements it accepts, in element order. */
  function FilterMap<A, B>(f: A -> Option<B>, s: seq<A>): (r: seq<B>)
    ensures |r| <= |s|
  {
    if s == [] then []
    else FilterMap(f, s[..|s| - 1]) + (match f(s[|s| - 1]) case Some(b) => [b] case None => [])
  }

  /** Positions of the elements `f` accepts, in increasing order. */
  function Accepted<A, B>(f: A -> Option<B>, s: seq<A>): seq<nat>
  {
    if s == [] then [] else Accepted(f, s[..|s| - 1]) + (if f(s[|s| - 1]).Some? then [|s| - 1] else [])
  }

  /** What one part of the input contributes does not depend on the other part. */
  lemma {:induction false} FilterMapAppend<A, B>(f: A -> Option<B>, a: seq<A>, b: seq<A>)
    ensures FilterMap(f, a + b) == FilterMap(f, a) + FilterMap(f, b)
  {
    if b != [] {
      FilterMapAppend(f, a, b[..|b| - 1]);
      assert (a + b)[..|a + b| - 1] == a + b[..|b| - 1];
      assert (a + b)[|a + b| - 1] == b[|b| - 1];
    } else {
      assert a + b == a;
    }
  }

  /** The output is the image of exactly the accepted elements, taken in
      strictly increasing position, none skipped. */
  lemma {:induction false} FilterMapInOrder<A, B>(f: A -> Option<B>, s: seq<A>)
    ensures |Accepted(f, s)| == |FilterMap(f, s)|
    ensures forall k :: 0 <= k < |Accepted(f, s)| ==>
      Accepted(f, s)[k] < |s| && f(s[Accepted(f, s)[k]]) == Some(FilterMap(f, s)[k])
    ensures forall k, l :: 0 <= k < l < |Accepted(f, s)| ==> Accepted(f, s)[k] < Accepted(f, s)[l]
    ensures forall i :: 0 <= i < |s| && f(s[i]).Some? ==> i in Accepted(f, s)
  {
    if s != [] {
      var init := s[..|s| - 1];
      FilterMapInOrder(f, init);
      var idx, r := Accepted(f, init), FilterMap(f, init);
      assert forall k :: 0 <= k < |idx| ==> s[idx[k]] == init[idx[k]];
      assert forall i :: 0 <= i < |init| ==> s[i] == init[i];
    }
  }

  /** A value is produced exactly when some element maps to it. */
  lemma FilterMapMember<A, B>(f: A -> Option<B>, s: seq<A>, y: B)
    ensures y in FilterMap(f, s) <==> exists i :: 0 <= i < |s| && f(s[i]) == Some(y)
  {
    FilterMapInOrder(f, s);
    var idx, r := Accepted(f, s), FilterMap(f, s);
    if y in r {
      var k :| 0 <= k < |r| && r[k] == y;
      assert f(s[idx[k]]) == Some(y);
    }
    if i :| 0 <= i < |s| && f(s[i]) == Some(y) {
      var k :| 0 <= k < |idx| && idx[k] == i;
      assert r[k] == y;
    }
  }

  /** The first present value, as a chain of early returns computes it. */
  function FirstSome<T>(s: seq<Option<T>>): (r: Option<T>)
    ensures r.None? <==> forall i :: 0 <= i < |s| ==> s[i].None?
    ensures r.Some? ==> exists k :: 0 <= k < |s| && s[k] == r && forall j :: 0 <= j < k ==> s[j].None?
  {
    if s == [] then None
    else if s[0].Some? then s[0]
    else
      var r := FirstSome(s[1..]);
      assert forall i :: 1 <= i < |s| ==> s[i] == s[1..][i - 1];
      r
  }

  /** Two functions that agree on every element filter and map alike. */
  lemma {:induction false} FilterMapCongruent<A, B>(f: A -> Option<B>, g: A -> Option<B>, s: seq<A>)
    requires forall x :: x in s ==> f(x) == g(x)
    ensures FilterMap(f, s) == FilterMap(g, s)
  {
    if s != [] {
      FilterMapCongruent(f, g, s[..|s| - 1]);
      assert s[|s| - 1] in s;
    }
  }
}
