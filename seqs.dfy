/**
 * List building as the source's nested loops do it: concatenating lists, appending what
 * each element yields, and appending what each (source, sink) pair yields.
 */
module Seqs {

  function Concat<T>(xss: seq<seq<T>>): seq<T>
    decreases |xss|
  {
    if xss == [] then [] else Concat(xss[..|xss| - 1]) + xss[|xss| - 1]
  }

  lemma {:induction false} ConcatMember<T>(xss: seq<seq<T>>, x: T)
    ensures x in Concat(xss) <==> exists i :: 0 <= i < |xss| && x in xss[i]
    decreases |xss|
  {
    if xss != [] {
      var init := xss[..|xss| - 1];
      ConcatMember(init, x);
      if x in Concat(init) {
        var i :| 0 <= i < |init| && x in init[i];
        assert x in xss[i];
      }
      if exists i :: 0 <= i < |xss| && x in xss[i] {
        var i :| 0 <= i < |xss| && x in xss[i];
        if i < |xss| - 1 { assert x in init[i]; }
      }
    }
  }

  lemma {:induction false} ConcatAppend<T>(a: seq<seq<T>>, b: seq<seq<T>>)
    ensures Concat(a + b) == Concat(a) + Concat(b)
    decreases |b|
  {
    if b == [] {
      assert a + b == a;
    } else {
      var init, last := b[..|b| - 1], b[|b| - 1];
      assert (a + b)[..|a + b| - 1] == a + init;
      assert (a + b)[|a + b| - 1] == last;
      ConcatAppend(a, init);
      calc {
        Concat(a + b);
        Concat(a + init) + last;
        (Concat(a) + Concat(init)) + last;
        Concat(a) + (Concat(init) + last);
        Concat(a) + Concat(b);
      }
    }
  }

  /** `for x in xs: out += f(x)`. */
  function ConcatMap<A, C>(xs: seq<A>, f: A -> seq<C>): seq<C>
    decreases |xs|
  {
    if xs == [] then [] else ConcatMap(xs[..|xs| - 1], f) + f(xs[|xs| - 1])
  }

  lemma {:induction false} ConcatMapMember<A, C>(xs: seq<A>, f: A -> seq<C>, y: C)
    ensures y in ConcatMap(xs, f) <==> exists i :: 0 <= i < |xs| && y in f(xs[i])
    decreases |xs|
  {
    if xs != [] {
      var init := xs[..|xs| - 1];
      ConcatMapMember(init, f, y);
      if y in ConcatMap(init, f) {
        var i :| 0 <= i < |init| && y in f(init[i]);
        assert xs[i] == init[i];
      }
      if exists i :: 0 <= i < |xs| && y in f(xs[i]) {
        var i :| 0 <= i < |xs| && y in f(xs[i]);
        if i < |xs| - 1 { assert init[i] == xs[i]; }
      }
    }
  }

  /** `for t in ts: out += f(s, t)`. */
  function Row<A, B, C>(s: A, ts: seq<B>, f: (A, B) -> seq<C>): seq<C>
    decreases |ts|
  {
    if ts == [] then [] else Row(s, ts[..|ts| - 1], f) + f(s, ts[|ts| - 1])
  }

  /** `for s in ss: for t in ts: out += f(s, t)`. */
  function Pairs<A, B, C>(ss: seq<A>, ts: seq<B>, f: (A, B) -> seq<C>): seq<C>
    decreases |ss|
  {
    if ss == [] then [] else Pairs(ss[..|ss| - 1], ts, f) + Row(ss[|ss| - 1], ts, f)
  }

  lemma {:induction false} RowMember<A, B, C>(s: A, ts: seq<B>, f: (A, B) -> seq<C>, y: C)
    ensures y in Row(s, ts, f) <==> exists j :: 0 <= j < |ts| && y in f(s, ts[j])
    decreases |ts|
  {
    if ts != [] {
      var init := ts[..|ts| - 1];
      RowMember(s, init, f, y);
      if y in Row(s, init, f) {
        var j :| 0 <= j < |init| && y in f(s, init[j]);
        assert ts[j] == init[j];
      }
      if exists j :: 0 <= j < |ts| && y in f(s, ts[j]) {
        var j :| 0 <= j < |ts| && y in f(s, ts[j]);
        if j < |ts| - 1 { assert init[j] == ts[j]; }
      }
    }
  }

  lemma {:induction false} PairsMember<A, B, C>(ss: seq<A>, ts: seq<B>, f: (A, B) -> seq<C>, y: C)
    ensures y in Pairs(ss, ts, f) <==> exists i, j :: 0 <= i < |ss| && 0 <= j < |ts| && y in f(ss[i], ts[j])
    decreases |ss|
  {
    if ss != [] {
      var init := ss[..|ss| - 1];
      PairsMember(init, ts, f, y);
      RowMember(ss[|ss| - 1], ts, f, y);
      if y in Pairs(init, ts, f) {
        var i, j :| 0 <= i < |init| && 0 <= j < |ts| && y in f(init[i], ts[j]);
        assert ss[i] == init[i];
      }
      if exists i, j :: 0 <= i < |ss| && 0 <= j < |ts| && y in f(ss[i], ts[j]) {
        var i, j :| 0 <= i < |ss| && 0 <= j < |ts| && y in f(ss[i], ts[j]);
        if i < |ss| - 1 { assert init[i] == ss[i]; }
      }
    }
  }

  lemma ConcatMapSnoc<A, C>(xs: seq<A>, f: A -> seq<C>, i: nat)
    requires i < |xs|
    ensures ConcatMap(xs[..i + 1], f) == ConcatMap(xs[..i], f) + f(xs[i])
  {
    assert xs[..i + 1][..i] == xs[..i];
  }

  lemma RowSnoc<A, B, C>(s: A, ts: seq<B>, f: (A, B) -> seq<C>, j: nat)
    requires j < |ts|
    ensures Row(s, ts[..j + 1], f) == Row(s, ts[..j], f) + f(s, ts[j])
  {
    assert ts[..j + 1][..j] == ts[..j];
  }

  /** When each row of `ss` is the single element `g[i]`, the pairs are `g`. */
  lemma {:induction false} PairsOfSingletons<A, B, C>(ss: seq<A>, ts: seq<B>, f: (A, B) -> seq<C>, g: seq<C>)
    requires |g| == |ss|
    requires forall i :: 0 <= i < |ss| ==> Row(ss[i], ts, f) == [g[i]]
    ensures Pairs(ss, ts, f) == g
    decreases |ss|
  {
    if ss != [] {
      var n := |ss| - 1;
      PairsOfSingletons(ss[..n], ts, f, g[..n]);
      assert Row(ss[n], ts, f) == [g[n]];
      assert g == g[..n] + [g[n]];
    }
  }

  lemma PairsSnoc<A, B, C>(ss: seq<A>, ts: seq<B>, f: (A, B) -> seq<C>, i: nat)
    requires i < |ss|
    ensures Pairs(ss[..i + 1], ts, f) == Pairs(ss[..i], ts, f) + Row(ss[i], ts, f)
  {
    assert ss[..i + 1][..i] == ss[..i];
  }
}
