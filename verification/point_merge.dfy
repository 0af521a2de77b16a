/**
 The loop mergeHistograms, mergeSums, mergeGauges and mergePrometheusMetrics share
 (internal/metricscap/reader.go): points with equal keys are combined into the first
 of them, in order of first appearance.
 */
module PointMerge {

  /** The keys of xs, each once, in order of first appearance. */
  ghost function FirstKeys<P(!new), K(!new)>(xs: seq<P>, key: P -> K): (ks: seq<K>)
    ensures forall k :: k in ks <==> exists i :: 0 <= i < |xs| && key(xs[i]) == k
    ensures forall i, j :: 0 <= i < j < |ks| ==> ks[i] != ks[j]
  {
    if xs == [] then []
    else
      var before := FirstKeys(xs[..|xs| - 1], key);
      var k := key(xs[|xs| - 1]);
      if k in before then before else before + [k]
  }

  /** The points with key k, in order. */
  ghost function Group<P(!new), K(!new)>(xs: seq<P>, key: P -> K, k: K): (g: seq<P>)
    ensures (exists i :: 0 <= i < |xs| && key(xs[i]) == k) <==> |g| > 0
    ensures forall p :: p in g ==> p in xs && key(p) == k
  {
    if xs == [] then []
    else
      var before := Group(xs[..|xs| - 1], key, k);
      if key(xs[|xs| - 1]) == k then before + [xs[|xs| - 1]] else before
  }

  /** All of g folded into its first point. */
  ghost function Combined<P>(g: seq<P>, combine: (P, P) -> P): P
    requires |g| > 0
  {
    if |g| == 1 then g[0] else combine(Combined(g[..|g| - 1], combine), g[|g| - 1])
  }

  /** One point per key: everything with that key, combined. */
  ghost function Merged<P(!new), K(!new)>(xs: seq<P>, key: P -> K, combine: (P, P) -> P): (out: seq<P>)
    ensures |out| == |FirstKeys(xs, key)|
  {
    var ks := FirstKeys(xs, key);
    seq(|ks|, i requires 0 <= i < |ks| => assert ks[i] in ks; Combined(Group(xs, key, ks[i]), combine))
  }

  lemma GroupOneMore<P(!new), K(!new)>(xs: seq<P>, x: P, key: P -> K, k: K)
    ensures Group(xs + [x], key, k) == if key(x) == k then Group(xs, key, k) + [x] else Group(xs, key, k)
  {
    assert (xs + [x])[..|xs|] == xs;
  }

  lemma FirstKeysOneMore<P(!new), K(!new)>(xs: seq<P>, x: P, key: P -> K)
    ensures FirstKeys(xs + [x], key)
         == if key(x) in FirstKeys(xs, key) then FirstKeys(xs, key) else FirstKeys(xs, key) + [key(x)]
  {
    assert (xs + [x])[..|xs|] == xs;
  }

  /** A point with a new key comes last in the result. */
  lemma MergedWithNewKey<P(!new), K(!new)>(xs: seq<P>, x: P, key: P -> K, combine: (P, P) -> P)
    requires key(x) !in FirstKeys(xs, key)
    ensures FirstKeys(xs + [x], key) == FirstKeys(xs, key) + [key(x)]
    ensures Merged(xs + [x], key, combine) == Merged(xs, key, combine) + [x]
  {
    var ks := FirstKeys(xs, key);
    FirstKeysOneMore(xs, x, key);
    GroupOneMore(xs, x, key, key(x));
    assert Group(xs, key, key(x)) == [];
    forall i | 0 <= i < |ks|
      ensures Group(xs + [x], key, ks[i]) == Group(xs, key, ks[i])
    {
      assert ks[i] in ks;
      GroupOneMore(xs, x, key, ks[i]);
    }
  }

  /** A point whose key is known is combined into that key's point. */
  lemma MergedWithKnownKey<P(!new), K(!new)>(xs: seq<P>, x: P, key: P -> K, combine: (P, P) -> P, i: nat)
    requires i < |FirstKeys(xs, key)| && FirstKeys(xs, key)[i] == key(x)
    ensures FirstKeys(xs + [x], key) == FirstKeys(xs, key)
    ensures Merged(xs + [x], key, combine) == Merged(xs, key, combine)[i := combine(Merged(xs, key, combine)[i], x)]
  {
    var ks := FirstKeys(xs, key);
    assert ks[i] in ks;
    FirstKeysOneMore(xs, x, key);
    forall j | 0 <= j < |ks|
      ensures Group(xs + [x], key, ks[j]) == if j == i then Group(xs, key, ks[j]) + [x] else Group(xs, key, ks[j])
    {
      GroupOneMore(xs, x, key, ks[j]);
    }
    var g := Group(xs, key, ks[i]);
    assert (g + [x])[..|g|] == g;
  }

  /** The loop itself, with its map from key to position in the output. */
  method MergePoints<P(!new), K(==, !new)>(xs: seq<P>, key: P -> K, combine: (P, P) -> P) returns (out: seq<P>)
    ensures out == Merged(xs, key, combine)
  {
    var index: map<K, nat> := map[];
    out := [];
    for n := 0 to |xs|
      invariant out == Merged(xs[..n], key, combine)
      invariant index.Keys == set k | k in FirstKeys(xs[..n], key)
      invariant forall k :: k in index ==> index[k] < |out| && FirstKeys(xs[..n], key)[index[k]] == k
    {
      assert xs[..n + 1] == xs[..n] + [xs[n]];
      var k := key(xs[n]);
      if k in index {
        MergedWithKnownKey(xs[..n], xs[n], key, combine, index[k]);
        out := out[index[k] := combine(out[index[k]], xs[n])];
      } else {
        MergedWithNewKey(xs[..n], xs[n], key, combine);
        index := index[k := |out|];
        out := out + [xs[n]];
      }
    }
    assert xs[..|xs|] == xs;
  }

  /** On points satisfying ok, combining keeps ok and the first point's key. */
  ghost predicate KeepsKeys<P(!new), K(!new)>(key: P -> K, combine: (P, P) -> P, ok: P -> bool) {
    forall d, s :: ok(d) && ok(s) && key(d) == key(s) ==>
      ok(combine(d, s)) && key(combine(d, s)) == key(d)
  }

  /** The output has exactly the input's keys, each once. */
  lemma {:induction false} MergedKeys<P(!new), K(!new)>(xs: seq<P>, key: P -> K, combine: (P, P) -> P, ok: P -> bool)
    requires KeepsKeys(key, combine, ok) && forall p :: p in xs ==> ok(p)
    ensures var out := Merged(xs, key, combine);
            && |out| == |FirstKeys(xs, key)|
            && (forall i :: 0 <= i < |out| ==> ok(out[i]) && key(out[i]) == FirstKeys(xs, key)[i])
            && (forall i, j :: 0 <= i < j < |out| ==> key(out[i]) != key(out[j]))
            && (forall k :: k in FirstKeys(xs, key) <==> exists p :: p in xs && key(p) == k)
  {
    if xs != [] {
      var before, x := xs[..|xs| - 1], xs[|xs| - 1];
      assert xs == before + [x];
      MergedKeys(before, key, combine, ok);
      if i: nat :| i < |FirstKeys(before, key)| && FirstKeys(before, key)[i] == key(x) {
        MergedWithKnownKey(before, x, key, combine, i);
      } else {
        MergedWithNewKey(before, x, key, combine);
      }
    }
  }

  function Total<P>(xs: seq<P>, f: P -> real): real {
    if xs == [] then 0.0 else Total(xs[..|xs| - 1], f) + f(xs[|xs| - 1])
  }

  lemma {:induction false} TotalAfterUpdate<P>(xs: seq<P>, i: nat, x: P, f: P -> real)
    requires i < |xs|
    ensures Total(xs[i := x], f) == Total(xs, f) - f(xs[i]) + f(x)
  {
    var last := |xs| - 1;
    if i == last {
      assert xs[i := x][..last] == xs[..last];
    } else {
      assert xs[i := x][..last] == xs[..last][i := x];
      TotalAfterUpdate(xs[..last], i, x, f);
    }
  }

  ghost predicate Additive<P(!new), K(!new)>(key: P -> K, combine: (P, P) -> P, ok: P -> bool, f: P -> real) {
    forall d, s :: ok(d) && ok(s) && key(d) == key(s) ==> f(combine(d, s)) == f(d) + f(s)
  }

  /** Merging conserves the total of every quantity that combining adds up. */
  lemma {:induction false} MergedConserves<P(!new), K(!new)>(
      xs: seq<P>, key: P -> K, combine: (P, P) -> P, ok: P -> bool, f: P -> real)
    requires KeepsKeys(key, combine, ok) && Additive(key, combine, ok, f) && forall p :: p in xs ==> ok(p)
    ensures Total(Merged(xs, key, combine), f) == Total(xs, f)
  {
    if xs != [] {
      var before, x := xs[..|xs| - 1], xs[|xs| - 1];
      assert xs == before + [x];
      var out := Merged(before, key, combine);
      MergedConserves(before, key, combine, ok, f);
      MergedKeys(before, key, combine, ok);
      if i: nat :| i < |FirstKeys(before, key)| && FirstKeys(before, key)[i] == key(x) {
        MergedWithKnownKey(before, x, key, combine, i);
        TotalAfterUpdate(out, i, combine(out[i], x), f);
      } else {
        MergedWithNewKey(before, x, key, combine);
        assert (out + [x])[..|out|] == out;
      }
    }
  }

  /** Points with distinct keys are left as they are. */
  lemma {:induction false} MergedOfDistinct<P(!new), K(!new)>(xs: seq<P>, key: P -> K, combine: (P, P) -> P)
    requires forall i, j :: 0 <= i < j < |xs| ==> key(xs[i]) != key(xs[j])
    ensures Merged(xs, key, combine) == xs
  {
    if xs != [] {
      var before, x := xs[..|xs| - 1], xs[|xs| - 1];
      assert xs == before + [x];
      MergedOfDistinct(before, key, combine);
      MergedWithNewKey(before, x, key, combine);
    }
  }

  /** Points whose keys are apart are merged apart. */
  lemma {:induction false} MergedConcat<P(!new), K(!new)>(xs: seq<P>, ys: seq<P>, key: P -> K, combine: (P, P) -> P)
    requires forall x, y :: x in xs && y in ys ==> key(x) != key(y)
    ensures FirstKeys(xs + ys, key) == FirstKeys(xs, key) + FirstKeys(ys, key)
    ensures Merged(xs + ys, key, combine) == Merged(xs, key, combine) + Merged(ys, key, combine)
  {
    if ys == [] {
      assert xs + ys == xs;
    } else {
      var before, y := ys[..|ys| - 1], ys[|ys| - 1];
      assert ys == before + [y] && xs + ys == (xs + before) + [y];
      MergedConcat(xs, before, key, combine);
      OneMoreApart(xs, before, y, key, combine);
    }
  }

  lemma OneMoreApart<P(!new), K(!new)>(xs: seq<P>, before: seq<P>, y: P, key: P -> K, combine: (P, P) -> P)
    requires forall x :: x in xs ==> key(x) != key(y)
    requires FirstKeys(xs + before, key) == FirstKeys(xs, key) + FirstKeys(before, key)
    requires Merged(xs + before, key, combine) == Merged(xs, key, combine) + Merged(before, key, combine)
    ensures FirstKeys((xs + before) + [y], key) == FirstKeys(xs, key) + FirstKeys(before + [y], key)
    ensures Merged((xs + before) + [y], key, combine) == Merged(xs, key, combine) + Merged(before + [y], key, combine)
  {
    NotAmongKeys(xs, key, key(y));
    if key(y) in FirstKeys(before, key) {
      var i: nat :| i < |FirstKeys(before, key)| && FirstKeys(before, key)[i] == key(y);
      KnownKeyApart(xs, before, y, key, combine, i);
    } else {
      NewKeyApart(xs, before, y, key, combine);
    }
  }

  lemma NotAmongKeys<P(!new), K(!new)>(xs: seq<P>, key: P -> K, k: K)
    requires forall x :: x in xs ==> key(x) != k
    ensures k !in FirstKeys(xs, key)
  {
  }

  lemma NewKeyApart<P(!new), K(!new)>(xs: seq<P>, before: seq<P>, y: P, key: P -> K, combine: (P, P) -> P)
    requires key(y) !in FirstKeys(xs, key) && key(y) !in FirstKeys(before, key)
    requires FirstKeys(xs + before, key) == FirstKeys(xs, key) + FirstKeys(before, key)
    requires Merged(xs + before, key, combine) == Merged(xs, key, combine) + Merged(before, key, combine)
    ensures FirstKeys((xs + before) + [y], key) == FirstKeys(xs, key) + FirstKeys(before + [y], key)
    ensures Merged((xs + before) + [y], key, combine) == Merged(xs, key, combine) + Merged(before + [y], key, combine)
  {
    NewInNeither(FirstKeys(xs, key), FirstKeys(before, key), key(y));
    MergedWithNewKey(before, y, key, combine);
    MergedWithNewKey(xs + before, y, key, combine);
    NewInNeither(Merged(xs, key, combine), Merged(before, key, combine), y);
  }

  lemma NewInNeither<T>(a: seq<T>, b: seq<T>, x: T)
    ensures x in a + b <==> x in a || x in b
    ensures (a + b) + [x] == a + (b + [x])
  {
  }

  lemma KnownKeyApart<P(!new), K(!new)>(xs: seq<P>, before: seq<P>, y: P, key: P -> K, combine: (P, P) -> P, i: nat)
    requires i < |FirstKeys(before, key)| && FirstKeys(before, key)[i] == key(y)
    requires FirstKeys(xs + before, key) == FirstKeys(xs, key) + FirstKeys(before, key)
    requires Merged(xs + before, key, combine) == Merged(xs, key, combine) + Merged(before, key, combine)
    ensures FirstKeys((xs + before) + [y], key) == FirstKeys(xs, key) + FirstKeys(before + [y], key)
    ensures Merged((xs + before) + [y], key, combine) == Merged(xs, key, combine) + Merged(before + [y], key, combine)
  {
    MergedWithKnownKey(before, y, key, combine, i);
    MergedWithKnownKey(xs + before, y, key, combine, |FirstKeys(xs, key)| + i);
    UpdateSecond(Merged(xs, key, combine), Merged(before, key, combine), i, combine(Merged(before, key, combine)[i], y));
  }

  lemma UpdateSecond<P>(a: seq<P>, b: seq<P>, i: nat, x: P)
    requires i < |b|
    ensures (a + b)[|a| + i] == b[i] && (a + b)[|a| + i := x] == a + b[i := x]
  {
  }

  function MapSeq<P, Q>(xs: seq<P>, r: P -> Q): (ys: seq<Q>)
    ensures |ys| == |xs| && forall i :: 0 <= i < |xs| ==> ys[i] == r(xs[i])
  {
    seq(|xs|, i requires 0 <= i < |xs| => r(xs[i]))
  }

  /** r carries points of one kind to points of another so that keys are equal exactly
      when they were, and combining commutes with r. */
  ghost predicate Carries<P(!new), K(!new), Q(!new), L(!new)>(
      r: P -> Q, key: P -> K, combine: (P, P) -> P, key': Q -> L, combine': (Q, Q) -> Q, ok: P -> bool) {
    forall d, s :: ok(d) && ok(s) ==>
      && (key(d) == key(s) <==> key'(r(d)) == key'(r(s)))
      && (key(d) == key(s) ==> r(combine(d, s)) == combine'(r(d), r(s)))
  }

  /** Merging then carrying is carrying then merging. */
  lemma {:induction false} MergedCommutes<P(!new), K(!new), Q(!new), L(!new)>(
      xs: seq<P>, r: P -> Q, key: P -> K, combine: (P, P) -> P, key': Q -> L, combine': (Q, Q) -> Q, ok: P -> bool)
    requires KeepsKeys(key, combine, ok) && Carries(r, key, combine, key', combine', ok)
    requires forall p :: p in xs ==> ok(p)
    ensures |FirstKeys(MapSeq(xs, r), key')| == |FirstKeys(xs, key)|
    ensures Merged(MapSeq(xs, r), key', combine') == MapSeq(Merged(xs, key, combine), r)
    ensures forall i :: 0 <= i < |FirstKeys(xs, key)| ==>
              FirstKeys(MapSeq(xs, r), key')[i] == key'(r(Merged(xs, key, combine)[i]))
  {
    if xs != [] {
      var before, x := xs[..|xs| - 1], xs[|xs| - 1];
      assert xs == before + [x];
      MergedCommutes(before, r, key, combine, key', combine', ok);
      if i: nat :| i < |FirstKeys(before, key)| && FirstKeys(before, key)[i] == key(x) {
        KnownKeyCommutes(before, x, r, key, combine, key', combine', ok, i);
      } else {
        NewKeyCommutes(before, x, r, key, combine, key', combine', ok);
      }
    }
  }

  /** Merging commutes with carrying on what came before. */
  ghost predicate Commutes<P(!new), K(!new), Q(!new), L(!new)>(
      xs: seq<P>, r: P -> Q, key: P -> K, combine: (P, P) -> P, key': Q -> L, combine': (Q, Q) -> Q) {
    && |FirstKeys(MapSeq(xs, r), key')| == |FirstKeys(xs, key)|
    && Merged(MapSeq(xs, r), key', combine') == MapSeq(Merged(xs, key, combine), r)
    && forall i :: 0 <= i < |FirstKeys(xs, key)| ==>
         FirstKeys(MapSeq(xs, r), key')[i] == key'(r(Merged(xs, key, combine)[i]))
  }

  lemma KnownKeyCommutes<P(!new), K(!new), Q(!new), L(!new)>(
      before: seq<P>, x: P, r: P -> Q, key: P -> K, combine: (P, P) -> P, key': Q -> L, combine': (Q, Q) -> Q, ok: P -> bool,
      i: nat)
    requires KeepsKeys(key, combine, ok) && Carries(r, key, combine, key', combine', ok)
    requires ok(x) && forall p :: p in before ==> ok(p)
    requires Commutes(before, r, key, combine, key', combine')
    requires i < |FirstKeys(before, key)| && FirstKeys(before, key)[i] == key(x)
    ensures Commutes(before + [x], r, key, combine, key', combine')
  {
    var out := Merged(before, key, combine);
    MergedKeys(before, key, combine, ok);
    assert MapSeq(before + [x], r) == MapSeq(before, r) + [r(x)];
    CombinedIsCarried(out[i], x, r, key, combine, key', combine', ok);
    MergedWithKnownKey(before, x, key, combine, i);
    MergedWithKnownKey(MapSeq(before, r), r(x), key', combine', i);
    UpdateIsCarried(out, FirstKeys(MapSeq(before, r), key'), i, combine(out[i], x), r, key');
  }

  lemma CombinedIsCarried<P(!new), K(!new), Q(!new), L(!new)>(
      d: P, x: P, r: P -> Q, key: P -> K, combine: (P, P) -> P, key': Q -> L, combine': (Q, Q) -> Q, ok: P -> bool)
    requires KeepsKeys(key, combine, ok) && Carries(r, key, combine, key', combine', ok)
    requires ok(d) && ok(x) && key(d) == key(x)
    ensures r(combine(d, x)) == combine'(r(d), r(x))
    ensures key'(r(d)) == key'(r(x)) == key'(r(combine(d, x)))
  {
    assert ok(combine(d, x)) && key(combine(d, x)) == key(d);
  }

  lemma UpdateIsCarried<P, Q, L>(out: seq<P>, keys: seq<L>, i: nat, x: P, r: P -> Q, key': Q -> L)
    requires i < |out| == |keys| && key'(r(x)) == key'(r(out[i]))
    requires forall j :: 0 <= j < |out| ==> keys[j] == key'(r(out[j]))
    ensures MapSeq(out[i := x], r) == MapSeq(out, r)[i := r(x)]
    ensures forall j :: 0 <= j < |out| ==> keys[j] == key'(r(out[i := x][j]))
  {
  }

  lemma NewKeyCommutes<P(!new), K(!new), Q(!new), L(!new)>(
      before: seq<P>, x: P, r: P -> Q, key: P -> K, combine: (P, P) -> P, key': Q -> L, combine': (Q, Q) -> Q, ok: P -> bool)
    requires KeepsKeys(key, combine, ok) && Carries(r, key, combine, key', combine', ok)
    requires ok(x) && forall p :: p in before ==> ok(p)
    requires Commutes(before, r, key, combine, key', combine')
    requires key(x) !in FirstKeys(before, key)
    ensures Commutes(before + [x], r, key, combine, key', combine')
  {
    var out := Merged(before, key, combine);
    MergedKeys(before, key, combine, ok);
    assert MapSeq(before + [x], r) == MapSeq(before, r) + [r(x)];
    forall i | 0 <= i < |out|
      ensures FirstKeys(MapSeq(before, r), key')[i] != key'(r(x))
    {
      assert ok(out[i]) && key(out[i]) == FirstKeys(before, key)[i];
    }
    MergedWithNewKey(before, x, key, combine);
    MergedWithNewKey(MapSeq(before, r), r(x), key', combine');
    assert MapSeq(out + [x], r) == MapSeq(out, r) + [r(x)];
  }
}
