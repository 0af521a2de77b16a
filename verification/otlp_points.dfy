/** Rewriting the points of one OTLP metric under one rule (internal/metricscap/reader.go). */
module OtlpPoints {
  import opened Wrappers
  import opened Budgets
  import opened PointMerge

  /** An attribute value; AsString of anything but a string is empty. */
  datatype Value = Str(s: string) | NotString(repr: string)

  function AsString(v: Value): string {
    if v.Str? then v.s else ""
  }

  /** An attribute set: at most one value per key. */
  type Attrs = map<string, Value>

  type Exemplar = string

  datatype Histogram = Histogram(
    attrs: Attrs, bounds: seq<real>, counts: seq<nat>, count: nat, sum: real,
    min: Option<real>, max: Option<real>, exemplars: seq<Exemplar>)

  datatype Number = Number(attrs: Attrs, value: real, exemplars: seq<Exemplar>)

  datatype Data =
    | HistogramData(histograms: seq<Histogram>)
    | SumData(sums: seq<Number>)
    | GaugeData(gauges: seq<Number>)
    | OtherData

  // ---- Rewriting attribute sets

  function RewriteSet(b: Budget, key: string, attrs: Attrs): (Budget, Attrs) {
    if key !in attrs then (b, attrs)
    else
      var value := AsString(attrs[key]);
      var (b', next) := Observed(b, value);
      (b', if next != value then attrs[key := Str(next)] else attrs)
  }

  function RewriteSets(b: Budget, key: string, sets: seq<Attrs>): (r: (Budget, seq<Attrs>))
    ensures |r.1| == |sets|
  {
    if sets == [] then (b, [])
    else
      var before := RewriteSets(b, key, sets[..|sets| - 1]);
      var (after, last) := RewriteSet(before.0, key, sets[|sets| - 1]);
      (after, before.1 + [last])
  }

  /** The admission map: values a budget has not admitted become the overflow label. */
  function Relabel(b: Budget, key: string, attrs: Attrs): Attrs {
    if key in attrs && Label(b, AsString(attrs[key])) != AsString(attrs[key])
    then attrs[key := Str(OVERFLOW)] else attrs
  }

  ghost predicate SetDecided(b: Budget, key: string, attrs: Attrs) {
    key in attrs ==> Decided(b, AsString(attrs[key]))
  }

  /** Rewriting point after point, while the budget still fills up, comes to applying
      the final admission map to every point. */
  lemma {:induction false} RewritingIsRelabelling(b: Budget, key: string, sets: seq<Attrs>)
    requires |b.seen| <= b.max
    ensures var (b', rewritten) := RewriteSets(b, key, sets);
            && Grows(b, b') && |b'.seen| <= b'.max
            && forall i :: 0 <= i < |sets| ==>
                 rewritten[i] == Relabel(b', key, sets[i]) && SetDecided(b', key, sets[i])
  {
    if sets != [] {
      RewritingIsRelabelling(b, key, sets[..|sets| - 1]);
    }
  }

  method RewriteAttributes(bucket: Bucket, key: string, attrs: Attrs) returns (out: Attrs)
    modifies bucket
    ensures (bucket.View(), out) == RewriteSet(old(bucket.View()), key, attrs)
  {
    out := attrs;
    if key in attrs {
      var value := AsString(attrs[key]);
      var next := bucket.Observe(value);
      if next != value {
        out := attrs[key := Str(next)];
      }
    }
  }

  // ---- Merging

  function Lower(cur: Option<real>, v: Option<real>): Option<real> {
    if v.Some? && (cur.None? || v.value < cur.value) then v else cur
  }

  function Higher(cur: Option<real>, v: Option<real>): Option<real> {
    if v.Some? && (cur.None? || v.value > cur.value) then v else cur
  }

  function AddCounts(dst: seq<nat>, src: seq<nat>): (r: seq<nat>)
    ensures |r| == |dst|
  {
    seq(|dst|, i requires 0 <= i < |dst| => dst[i] + (if i < |src| then src[i] else 0))
  }

  /** mergeHistogram's loop over the source's bucket counts, in place. */
  method AddCountsInPlace(dst: array<nat>, src: seq<nat>)
    modifies dst
    ensures dst[..] == AddCounts(old(dst[..]), src)
  {
    for n := 0 to |src|
      invariant forall i :: 0 <= i < dst.Length ==>
                  dst[i] == old(dst[i]) + (if i < n then src[i] else 0)
    {
      if n < dst.Length {
        dst[n] := dst[n] + src[n];
      }
    }
  }

  function MergeHistogram(dst: Histogram, src: Histogram): Histogram {
    dst.(count := dst.count + src.count,
         sum := dst.sum + src.sum,
         counts := AddCounts(dst.counts, src.counts),
         min := Lower(dst.min, src.min),
         max := Higher(dst.max, src.max),
         exemplars := dst.exemplars + src.exemplars)
  }

  function MergeSum(dst: Number, src: Number): Number {
    dst.(value := dst.value + src.value, exemplars := dst.exemplars + src.exemplars)
  }

  function MergeGauge(dst: Number, src: Number): Number {
    src
  }

  function AttrsOfHistogram(h: Histogram): Attrs { h.attrs }

  function AttrsOfNumber(n: Number): Attrs { n.attrs }

  // ---- One metric under one rule

  function WithAttrsH(hs: seq<Histogram>, sets: seq<Attrs>): (r: seq<Histogram>)
    requires |sets| == |hs|
    ensures |r| == |hs|
  {
    seq(|hs|, i requires 0 <= i < |hs| => hs[i].(attrs := sets[i]))
  }

  function WithAttrsN(ns: seq<Number>, sets: seq<Attrs>): (r: seq<Number>)
    requires |sets| == |ns|
    ensures |r| == |ns|
  {
    seq(|ns|, i requires 0 <= i < |ns| => ns[i].(attrs := sets[i]))
  }

  function SetsOf(d: Data): seq<Attrs> {
    match d
    case HistogramData(hs) => MapSeq(hs, AttrsOfHistogram)
    case SumData(ns) => MapSeq(ns, AttrsOfNumber)
    case GaugeData(ns) => MapSeq(ns, AttrsOfNumber)
    case OtherData => []
  }

  function WithSets(d: Data, sets: seq<Attrs>): Data
    requires |sets| == |SetsOf(d)|
  {
    match d
    case HistogramData(hs) => HistogramData(WithAttrsH(hs, sets))
    case SumData(ns) => SumData(WithAttrsN(ns, sets))
    case GaugeData(ns) => GaugeData(WithAttrsN(ns, sets))
    case OtherData => OtherData
  }

  ghost function MergedData(d: Data): Data {
    match d
    case HistogramData(hs) => HistogramData(Merged(hs, AttrsOfHistogram, MergeHistogram))
    case SumData(ns) => SumData(Merged(ns, AttrsOfNumber, MergeSum))
    case GaugeData(ns) => GaugeData(Merged(ns, AttrsOfNumber, MergeGauge))
    case OtherData => OtherData
  }

  /** rewriteMetric: every point's set is rewritten, then equal sets are merged. */
  ghost function RewriteData(b: Budget, key: string, d: Data): (Budget, Data) {
    var (b', sets) := RewriteSets(b, key, SetsOf(d));
    (b', MergedData(WithSets(d, sets)))
  }

  method RewriteSetsOf(bucket: Bucket, key: string, sets: seq<Attrs>) returns (out: seq<Attrs>)
    modifies bucket
    ensures (bucket.View(), out) == RewriteSets(old(bucket.View()), key, sets)
  {
    out := [];
    for n := 0 to |sets|
      invariant (bucket.View(), out) == RewriteSets(old(bucket.View()), key, sets[..n])
    {
      assert sets[..n + 1][..n] == sets[..n];
      var next := RewriteAttributes(bucket, key, sets[n]);
      out := out + [next];
    }
    assert sets[..|sets|] == sets;
  }

  method RewriteMetric(bucket: Bucket, key: string, d: Data) returns (out: Data)
    modifies bucket
    ensures (bucket.View(), out) == RewriteData(old(bucket.View()), key, d)
  {
    var sets := RewriteSetsOf(bucket, key, SetsOf(d));
    var points := WithSets(d, sets);
    match points {
      case HistogramData(hs) =>
        var merged := MergePoints(hs, AttrsOfHistogram, MergeHistogram);
        out := HistogramData(merged);
      case SumData(ns) =>
        var merged := MergePoints(ns, AttrsOfNumber, MergeSum);
        out := SumData(merged);
      case GaugeData(ns) =>
        var merged := MergePoints(ns, AttrsOfNumber, MergeGauge);
        out := GaugeData(merged);
      case OtherData =>
        out := OtherData;
    }
  }

  // ---- Rewriting is a quotient by the admission map

  function RelabelAll(b: Budget, key: string, d: Data): Data {
    WithSets(d, MapSeq(SetsOf(d), (a: Attrs) => Relabel(b, key, a)))
  }

  /** rewriteMetric merges exactly the points the final admission map sends to the same
      set: each output point combines its inputs, in order, and no two share a set. */
  lemma RewriteIsAQuotient(b: Budget, key: string, d: Data)
    requires |b.seen| <= b.max
    ensures var (b', out) := RewriteData(b, key, d);
            && Grows(b, b') && |b'.seen| <= b'.max
            && out == MergedData(RelabelAll(b', key, d))
            && Distinct(SetsOf(out))
            && (forall a :: a in SetsOf(out) <==> a in SetsOf(RelabelAll(b', key, d)))
  {
    RewritingIsRelabelling(b, key, SetsOf(d));
    var (b', sets) := RewriteSets(b, key, SetsOf(d));
    assert sets == MapSeq(SetsOf(d), (a: Attrs) => Relabel(b', key, a));
    SetsOfMerged(RelabelAll(b', key, d));
  }

  ghost predicate Distinct(sets: seq<Attrs>) {
    forall i, j :: 0 <= i < j < |sets| ==> sets[i] != sets[j]
  }

  lemma SetsOfMerged(d: Data)
    ensures Distinct(SetsOf(MergedData(d)))
    ensures forall a :: a in SetsOf(MergedData(d)) <==> a in SetsOf(d)
  {
    match d
    case HistogramData(hs) =>
      MergedKeys(hs, AttrsOfHistogram, MergeHistogram, (h: Histogram) => true);
      KeysAreKept(hs, AttrsOfHistogram, MergeHistogram, (h: Histogram) => true);
    case SumData(ns) =>
      MergedKeys(ns, AttrsOfNumber, MergeSum, (n: Number) => true);
      KeysAreKept(ns, AttrsOfNumber, MergeSum, (n: Number) => true);
    case GaugeData(ns) =>
      MergedKeys(ns, AttrsOfNumber, MergeGauge, (n: Number) => true);
      KeysAreKept(ns, AttrsOfNumber, MergeGauge, (n: Number) => true);
    case OtherData =>
  }

  lemma KeysAreKept<P(!new)>(xs: seq<P>, key: P -> Attrs, combine: (P, P) -> P, ok: P -> bool)
    requires KeepsKeys(key, combine, ok) && forall p :: p in xs ==> ok(p)
    ensures forall a :: a in MapSeq(Merged(xs, key, combine), key) <==> a in MapSeq(xs, key)
  {
    MergedKeys(xs, key, combine, ok);
    var out := Merged(xs, key, combine);
    forall a | a in MapSeq(xs, key)
      ensures a in MapSeq(out, key)
    {
      var i :| 0 <= i < |xs| && MapSeq(xs, key)[i] == a;
      assert a in FirstKeys(xs, key);
      var j :| 0 <= j < |out| && FirstKeys(xs, key)[j] == a;
      assert MapSeq(out, key)[j] == a;
    }
    forall a | a in MapSeq(out, key)
      ensures a in MapSeq(xs, key)
    {
      var j :| 0 <= j < |out| && MapSeq(out, key)[j] == a;
      assert a in FirstKeys(xs, key);
      var p :| p in xs && key(p) == a;
      var i :| 0 <= i < |xs| && xs[i] == p;
      assert MapSeq(xs, key)[i] == a;
    }
  }

  // ---- Conservation

  function CountOf(h: Histogram): real { h.count as real }
  function SumOf(h: Histogram): real { h.sum }
  function ValueOf(n: Number): real { n.value }
  function BucketOf(h: Histogram, j: nat): real { if j < |h.counts| then h.counts[j] as real else 0.0 }

  /** A rewrite conserves a histogram metric's total count and total sum. */
  lemma HistogramTotalsAreConserved(b: Budget, key: string, hs: seq<Histogram>)
    ensures var out := RewriteData(b, key, HistogramData(hs)).1;
            && out.HistogramData?
            && Total(out.histograms, CountOf) == Total(hs, CountOf)
            && Total(out.histograms, SumOf) == Total(hs, SumOf)
  {
    var sets := RewriteSets(b, key, SetsOf(HistogramData(hs))).1;
    var points := WithAttrsH(hs, sets);
    MergedConserves(points, AttrsOfHistogram, MergeHistogram, (h: Histogram) => true, CountOf);
    MergedConserves(points, AttrsOfHistogram, MergeHistogram, (h: Histogram) => true, SumOf);
    TotalIgnoresAttrs(hs, sets, CountOf);
    TotalIgnoresAttrs(hs, sets, SumOf);
  }

  /** With equally many buckets in every point, each bucket's total is conserved too. */
  lemma BucketTotalsAreConserved(b: Budget, key: string, hs: seq<Histogram>, buckets: nat, j: nat)
    requires forall h :: h in hs ==> |h.counts| == buckets
    ensures var out := RewriteData(b, key, HistogramData(hs)).1;
            && out.HistogramData?
            && Total(out.histograms, (h: Histogram) => BucketOf(h, j)) == Total(hs, (h: Histogram) => BucketOf(h, j))
            && forall h :: h in out.histograms ==> |h.counts| == buckets
  {
    var sets := RewriteSets(b, key, SetsOf(HistogramData(hs))).1;
    var points := WithAttrsH(hs, sets);
    var ok := (h: Histogram) => |h.counts| == buckets;
    var f := (h: Histogram) => BucketOf(h, j);
    assert forall p :: p in points ==> ok(p);
    MergedConserves(points, AttrsOfHistogram, MergeHistogram, ok, f);
    MergedKeys(points, AttrsOfHistogram, MergeHistogram, ok);
    TotalIgnoresAttrs(hs, sets, f);
  }

  /** A rewrite conserves the total of a sum metric. */
  lemma SumTotalIsConserved(b: Budget, key: string, ns: seq<Number>)
    ensures var out := RewriteData(b, key, SumData(ns)).1;
            out.SumData? && Total(out.sums, ValueOf) == Total(ns, ValueOf)
  {
    var sets := RewriteSets(b, key, SetsOf(SumData(ns))).1;
    var points := WithAttrsN(ns, sets);
    MergedConserves(points, AttrsOfNumber, MergeSum, (n: Number) => true, ValueOf);
    TotalsAgree(ns, points, ValueOf);
  }

  lemma TotalIgnoresAttrs(hs: seq<Histogram>, sets: seq<Attrs>, f: Histogram -> real)
    requires |sets| == |hs|
    requires forall h: Histogram, a: Attrs :: f(h.(attrs := a)) == f(h)
    ensures Total(WithAttrsH(hs, sets), f) == Total(hs, f)
  {
    TotalsAgree(hs, WithAttrsH(hs, sets), f);
  }

  lemma {:induction false} TotalsAgree<P>(xs: seq<P>, ys: seq<P>, f: P -> real)
    requires |xs| == |ys| && forall i :: 0 <= i < |xs| ==> f(xs[i]) == f(ys[i])
    ensures Total(xs, f) == Total(ys, f)
  {
    if xs != [] {
      TotalsAgree(xs[..|xs| - 1], ys[..|ys| - 1], f);
    }
  }

  // ---- What a group of points is combined into

  ghost predicate IsLeast(got: Option<real>, all: seq<Option<real>>) {
    && (got.None? <==> forall o :: o in all ==> o.None?)
    && (got.Some? ==> got in all && forall o :: o in all && o.Some? ==> got.value <= o.value)
  }

  ghost predicate IsGreatest(got: Option<real>, all: seq<Option<real>>) {
    && (got.None? <==> forall o :: o in all ==> o.None?)
    && (got.Some? ==> got in all && forall o :: o in all && o.Some? ==> o.value <= got.value)
  }

  lemma ExtremesGrow(all: seq<Option<real>>, got: Option<real>, next: Option<real>)
    ensures IsLeast(got, all) ==> IsLeast(Lower(got, next), all + [next])
    ensures IsGreatest(got, all) ==> IsGreatest(Higher(got, next), all + [next])
  {
    assert forall o :: o in all + [next] <==> o in all || o == next;
  }

  function MinOf(h: Histogram): Option<real> { h.min }
  function MaxOf(h: Histogram): Option<real> { h.max }

  function AllExemplars(hs: seq<Histogram>): seq<Exemplar> {
    if hs == [] then [] else AllExemplars(hs[..|hs| - 1]) + hs[|hs| - 1].exemplars
  }

  /** A merged histogram keeps the first point's set and bounds, has the least minimum and
      the greatest maximum any point recorded, and carries every exemplar in order. */
  lemma {:induction false} CombinedHistogram(g: seq<Histogram>)
    requires |g| > 0
    ensures var c := Combined(g, MergeHistogram);
            && c.attrs == g[0].attrs && c.bounds == g[0].bounds && |c.counts| == |g[0].counts|
            && IsLeast(c.min, MapSeq(g, MinOf))
            && IsGreatest(c.max, MapSeq(g, MaxOf))
            && c.exemplars == AllExemplars(g)
            && c.count as real == Total(g, CountOf) && c.sum == Total(g, SumOf)
  {
    if |g| == 1 {
      assert MapSeq(g, MinOf)[0] == g[0].min && MapSeq(g, MaxOf)[0] == g[0].max;
      assert g[..0] == [];
    } else {
      var before, last := g[..|g| - 1], g[|g| - 1];
      CombinedHistogram(before);
      assert MapSeq(g, MinOf) == MapSeq(before, MinOf) + [last.min];
      assert MapSeq(g, MaxOf) == MapSeq(before, MaxOf) + [last.max];
      ExtremesGrow(MapSeq(before, MinOf), Combined(before, MergeHistogram).min, last.min);
      ExtremesGrow(MapSeq(before, MaxOf), Combined(before, MergeHistogram).max, last.max);
    }
  }

  function AllNumberExemplars(ns: seq<Number>): seq<Exemplar> {
    if ns == [] then [] else AllNumberExemplars(ns[..|ns| - 1]) + ns[|ns| - 1].exemplars
  }

  /** Sum points add up, under the first one's set, with every exemplar in order. */
  lemma {:induction false} CombinedSum(g: seq<Number>)
    requires |g| > 0
    ensures var c := Combined(g, MergeSum);
            && c.attrs == g[0].attrs && c.value == Total(g, ValueOf) && c.exemplars == AllNumberExemplars(g)
  {
    if |g| == 1 {
      assert g[..0] == [];
    } else {
      CombinedSum(g[..|g| - 1]);
    }
  }

  /** Of several gauge points the last one recorded stands. */
  lemma CombinedGauge(g: seq<Number>)
    requires |g| > 0
    ensures Combined(g, MergeGauge) == g[|g| - 1]
  {
  }
}
