/** Cumulative bucket lists and their merge (internal/metricscap/reader.go, mergePrometheusHistogram). */
module PromBuckets {
  import opened Wrappers

  datatype CumBucket = CumBucket(bound: real, count: nat)

  // ---- What a bucket list records

  predicate HasBound(bs: seq<CumBucket>, x: real) {
    bs != [] && (bs[0].bound == x || HasBound(bs[1..], x))
  }

  /** The counts recorded at one bound; a list may repeat a bound. */
  function CountAt(bs: seq<CumBucket>, x: real): nat {
    if bs == [] then 0 else (if bs[0].bound == x then bs[0].count else 0) + CountAt(bs[1..], x)
  }

  /** `out` records exactly what the two lists record together. */
  ghost predicate RecordsBoth(out: seq<CumBucket>, d: seq<CumBucket>, s: seq<CumBucket>) {
    forall x :: CountAt(out, x) == CountAt(d, x) + CountAt(s, x) && (HasBound(out, x) <==> HasBound(d, x) || HasBound(s, x))
  }

  predicate Rising(bs: seq<CumBucket>) {
    |bs| <= 1 || (bs[0].bound <= bs[1].bound && Rising(bs[1..]))
  }

  /** Rising without a repeated bound. */
  predicate Sorted(bs: seq<CumBucket>) {
    |bs| <= 1 || (bs[0].bound < bs[1].bound && Sorted(bs[1..]))
  }

  predicate DistinctBounds(bs: seq<CumBucket>) {
    bs == [] || (!HasBound(bs[1..], bs[0].bound) && DistinctBounds(bs[1..]))
  }

  lemma {:induction false} HeadIsLeast(bs: seq<CumBucket>, x: real)
    requires Sorted(bs) && bs != [] && HasBound(bs[1..], x)
    ensures bs[0].bound < x
  {
    if bs[1].bound != x {
      HeadIsLeast(bs[1..], x);
    }
  }

  lemma {:induction false} SortedIsDistinct(bs: seq<CumBucket>)
    requires Sorted(bs)
    ensures DistinctBounds(bs)
  {
    if bs != [] {
      SortedIsDistinct(bs[1..]);
      if HasBound(bs[1..], bs[0].bound) {
        HeadIsLeast(bs, bs[0].bound);
      }
    }
  }

  lemma {:induction false} RisingAndDistinctIsSorted(bs: seq<CumBucket>)
    requires Rising(bs) && DistinctBounds(bs)
    ensures Sorted(bs)
  {
    if |bs| > 1 {
      RisingAndDistinctIsSorted(bs[1..]);
    }
  }

  lemma {:induction false} NoBoundNoCount(bs: seq<CumBucket>, x: real)
    requires !HasBound(bs, x)
    ensures CountAt(bs, x) == 0
  {
    if bs != [] {
      NoBoundNoCount(bs[1..], x);
    }
  }

  /** Sorted lists that record the same start with the same bucket. */
  lemma SameHead(a: seq<CumBucket>, b: seq<CumBucket>)
    requires Sorted(a) && Sorted(b) && a != [] && b != []
    requires HasBound(b, a[0].bound) && HasBound(a, b[0].bound) && CountAt(a, a[0].bound) == CountAt(b, a[0].bound)
    ensures a[0] == b[0]
  {
    if a[0].bound != b[0].bound {
      HeadIsLeast(a, b[0].bound);
      HeadIsLeast(b, a[0].bound);
    }
    SortedIsDistinct(a);
    SortedIsDistinct(b);
    NoBoundNoCount(a[1..], a[0].bound);
    NoBoundNoCount(b[1..], b[0].bound);
  }

  /** A sorted list is determined by what it records. */
  lemma {:induction false} SortedIsDetermined(a: seq<CumBucket>, b: seq<CumBucket>)
    requires Sorted(a) && Sorted(b) && forall x :: CountAt(a, x) == CountAt(b, x) && HasBound(a, x) == HasBound(b, x)
    ensures a == b
  {
    var least := if a != [] then a[0].bound else if b != [] then b[0].bound else 0.0;
    assert HasBound(a, least) == HasBound(b, least);
    if a != [] && b != [] {
      assert HasBound(b, a[0].bound) && HasBound(a, b[0].bound);
      SameHead(a, b);
      SortedIsDistinct(a);
      SortedIsDistinct(b);
      forall x ensures CountAt(a[1..], x) == CountAt(b[1..], x) && HasBound(a[1..], x) == HasBound(b[1..], x) {
        assert CountAt(a, x) == CountAt(b, x) && HasBound(a, x) == HasBound(b, x);
      }
      SortedIsDetermined(a[1..], b[1..]);
    }
  }

  // ---- The merge of two sorted lists

  /** Equal bounds add up, the others stand. */
  function MergeBuckets(d: seq<CumBucket>, s: seq<CumBucket>): seq<CumBucket> {
    if d == [] then s
    else if s == [] then d
    else if d[0].bound == s[0].bound then [CumBucket(d[0].bound, d[0].count + s[0].count)] + MergeBuckets(d[1..], s[1..])
    else if d[0].bound < s[0].bound then [d[0]] + MergeBuckets(d[1..], s)
    else [s[0]] + MergeBuckets(d, s[1..])
  }

  /** The merged list records at each bound what the two lists record there together. */
  lemma {:induction false} MergeBucketsRecords(d: seq<CumBucket>, s: seq<CumBucket>, x: real)
    ensures CountAt(MergeBuckets(d, s), x) == CountAt(d, x) + CountAt(s, x)
    ensures HasBound(MergeBuckets(d, s), x) <==> HasBound(d, x) || HasBound(s, x)
  {
    if d != [] && s != [] {
      if d[0].bound == s[0].bound {
        MergeBucketsRecords(d[1..], s[1..], x);
        RecordsFirst(CumBucket(d[0].bound, d[0].count + s[0].count), MergeBuckets(d[1..], s[1..]), x);
      } else if d[0].bound < s[0].bound {
        MergeBucketsRecords(d[1..], s, x);
        RecordsFirst(d[0], MergeBuckets(d[1..], s), x);
      } else {
        MergeBucketsRecords(d, s[1..], x);
        RecordsFirst(s[0], MergeBuckets(d, s[1..]), x);
      }
    }
  }

  lemma RecordsFirst(b: CumBucket, bs: seq<CumBucket>, x: real)
    ensures CountAt([b] + bs, x) == (if b.bound == x then b.count else 0) + CountAt(bs, x)
    ensures HasBound([b] + bs, x) <==> b.bound == x || HasBound(bs, x)
  {
    assert ([b] + bs)[1..] == bs;
  }

  lemma SortedWithFirst(b: CumBucket, bs: seq<CumBucket>)
    requires Sorted(bs) && (bs != [] ==> b.bound < bs[0].bound)
    ensures Sorted([b] + bs)
  {
    assert ([b] + bs)[1..] == bs;
  }

  lemma {:induction false} MergedIsSorted(d: seq<CumBucket>, s: seq<CumBucket>)
    requires Sorted(d) && Sorted(s)
    ensures Sorted(MergeBuckets(d, s))
  {
    if d != [] && s != [] {
      if d[0].bound == s[0].bound {
        MergedIsSorted(d[1..], s[1..]);
        SortedWithFirst(CumBucket(d[0].bound, d[0].count + s[0].count), MergeBuckets(d[1..], s[1..]));
      } else if d[0].bound < s[0].bound {
        MergedIsSorted(d[1..], s);
        SortedWithFirst(d[0], MergeBuckets(d[1..], s));
      } else {
        MergedIsSorted(d, s[1..]);
        SortedWithFirst(s[0], MergeBuckets(d, s[1..]));
      }
    }
  }

  // ---- The merge as the code does it

  /** Where the index of the destination points for a bound: at the last bucket that has it. */
  function LastWith(bs: seq<CumBucket>, x: real): (r: Option<nat>)
    ensures r.Some? ==> r.value < |bs| && bs[r.value].bound == x
  {
    if bs == [] then None
    else if bs[|bs| - 1].bound == x then Some(|bs| - 1)
    else LastWith(bs[..|bs| - 1], x)
  }

  /** One source bucket: added where the index points, or appended without being indexed. */
  function AddOne(dst: seq<CumBucket>, out: seq<CumBucket>, b: CumBucket): (r: seq<CumBucket>)
    requires |dst| <= |out|
    ensures |dst| <= |r|
  {
    var at := LastWith(dst, b.bound);
    if at.Some? then out[at.value := out[at.value].(count := out[at.value].count + b.count)] else out + [b]
  }

  function AddAll(dst: seq<CumBucket>, src: seq<CumBucket>): (r: seq<CumBucket>)
    ensures |dst| <= |r|
  {
    if src == [] then dst else AddOne(dst, AddAll(dst, src[..|src| - 1]), src[|src| - 1])
  }

  /** Insertion sort, for the sort by bound that ends the merge. */
  function Insert(b: CumBucket, bs: seq<CumBucket>): seq<CumBucket> {
    if bs == [] || b.bound <= bs[0].bound then [b] + bs else [bs[0]] + Insert(b, bs[1..])
  }

  function SortByBound(bs: seq<CumBucket>): seq<CumBucket> {
    if bs == [] then [] else Insert(bs[0], SortByBound(bs[1..]))
  }

  function MergedBuckets(dst: seq<CumBucket>, src: seq<CumBucket>): seq<CumBucket> {
    SortByBound(AddAll(dst, src))
  }

  /** Index the destination by bound, add or append each source bucket, sort at the end. */
  method MergeByBound(dst: seq<CumBucket>, src: seq<CumBucket>) returns (out: seq<CumBucket>)
    ensures out == MergedBuckets(dst, src)
  {
    var index := IndexByBound(dst);
    out := dst;
    for n := 0 to |src|
      invariant out == AddAll(dst, src[..n])
    {
      assert src[..n + 1][..n] == src[..n];
      if src[n].bound in index {
        var i := index[src[n].bound];
        out := out[i := out[i].(count := out[i].count + src[n].count)];
      } else {
        out := out + [src[n]];
      }
    }
    assert src[..|src|] == src;
    out := SortByBound(out);
  }

  method IndexByBound(dst: seq<CumBucket>) returns (index: map<real, nat>)
    ensures forall x :: x in index <==> LastWith(dst, x).Some?
    ensures forall x :: x in index ==> index[x] == LastWith(dst, x).value
  {
    index := map[];
    for n := 0 to |dst|
      invariant forall x :: x in index <==> LastWith(dst[..n], x).Some?
      invariant forall x :: x in index ==> index[x] == LastWith(dst[..n], x).value
    {
      assert dst[..n + 1][..n] == dst[..n];
      index := index[dst[n].bound := n];
    }
    assert dst[..|dst|] == dst;
  }

  // ---- Whatever the lists, nothing is lost

  lemma {:induction false} RecordsLast(bs: seq<CumBucket>, b: CumBucket, x: real)
    ensures CountAt(bs + [b], x) == CountAt(bs, x) + (if b.bound == x then b.count else 0)
    ensures HasBound(bs + [b], x) <==> b.bound == x || HasBound(bs, x)
  {
    if bs == [] {
      assert bs + [b] == [b] + [];
      RecordsFirst(b, [], x);
    } else {
      RecordsLast(bs[1..], b, x);
      assert (bs + [b])[1..] == bs[1..] + [b];
    }
  }

  lemma {:induction false} RecordsUpdate(bs: seq<CumBucket>, i: nat, more: nat, x: real)
    requires i < |bs|
    ensures var r := bs[i := bs[i].(count := bs[i].count + more)];
            && CountAt(r, x) == CountAt(bs, x) + (if bs[i].bound == x then more else 0)
            && (HasBound(r, x) <==> HasBound(bs, x))
  {
    var r := bs[i := bs[i].(count := bs[i].count + more)];
    if i == 0 {
      assert r[1..] == bs[1..];
    } else {
      RecordsUpdate(bs[1..], i - 1, more, x);
      assert r[1..] == bs[1..][i - 1 := bs[i].(count := bs[i].count + more)];
    }
  }

  lemma {:induction false} HasBoundAt(bs: seq<CumBucket>, i: nat)
    requires i < |bs|
    ensures HasBound(bs, bs[i].bound)
  {
    if i > 0 {
      HasBoundAt(bs[1..], i - 1);
    }
  }

  lemma {:induction false} LastWithFinds(bs: seq<CumBucket>, x: real)
    ensures LastWith(bs, x).Some? <==> HasBound(bs, x)
  {
    if bs != [] {
      var before := bs[..|bs| - 1];
      LastWithFinds(before, x);
      RecordsLast(before, bs[|bs| - 1], x);
      assert bs == before + [bs[|bs| - 1]];
    }
  }

  lemma {:induction false} AddAllKeepsPrefix(dst: seq<CumBucket>, src: seq<CumBucket>, i: nat)
    requires i < |dst|
    ensures AddAll(dst, src)[i].bound == dst[i].bound
  {
    if src != [] {
      AddAllKeepsPrefix(dst, src[..|src| - 1], i);
    }
  }

  lemma AddOneRecords(dst: seq<CumBucket>, out: seq<CumBucket>, b: CumBucket, x: real)
    requires |dst| <= |out| && forall i :: 0 <= i < |dst| ==> out[i].bound == dst[i].bound
    ensures CountAt(AddOne(dst, out, b), x) == CountAt(out, x) + (if b.bound == x then b.count else 0)
    ensures HasBound(AddOne(dst, out, b), x) <==> b.bound == x || HasBound(out, x)
  {
    var at := LastWith(dst, b.bound);
    if at.Some? {
      RecordsUpdate(out, at.value, b.count, x);
      HasBoundAt(out, at.value);
    } else {
      RecordsLast(out, b, x);
    }
  }

  lemma {:induction false} AddAllRecords(dst: seq<CumBucket>, src: seq<CumBucket>, x: real)
    ensures CountAt(AddAll(dst, src), x) == CountAt(dst, x) + CountAt(src, x)
    ensures HasBound(AddAll(dst, src), x) <==> HasBound(dst, x) || HasBound(src, x)
  {
    if src != [] {
      var before, b := src[..|src| - 1], src[|src| - 1];
      AddAllRecords(dst, before, x);
      forall i | 0 <= i < |dst| ensures AddAll(dst, before)[i].bound == dst[i].bound {
        AddAllKeepsPrefix(dst, before, i);
      }
      AddOneRecords(dst, AddAll(dst, before), b, x);
      RecordsLast(before, b, x);
      assert src == before + [b];
    }
  }

  lemma {:induction false} InsertRecords(b: CumBucket, bs: seq<CumBucket>, x: real)
    ensures CountAt(Insert(b, bs), x) == CountAt(bs, x) + (if b.bound == x then b.count else 0)
    ensures HasBound(Insert(b, bs), x) <==> b.bound == x || HasBound(bs, x)
  {
    if bs == [] || b.bound <= bs[0].bound {
      RecordsFirst(b, bs, x);
    } else {
      InsertRecords(b, bs[1..], x);
      RecordsFirst(bs[0], Insert(b, bs[1..]), x);
    }
  }

  lemma {:induction false} SortRecords(bs: seq<CumBucket>, x: real)
    ensures CountAt(SortByBound(bs), x) == CountAt(bs, x)
    ensures HasBound(SortByBound(bs), x) <==> HasBound(bs, x)
  {
    if bs != [] {
      SortRecords(bs[1..], x);
      InsertRecords(bs[0], SortByBound(bs[1..]), x);
    }
  }

  lemma RisingWithFirst(b: CumBucket, bs: seq<CumBucket>)
    requires Rising(bs) && (bs != [] ==> b.bound <= bs[0].bound)
    ensures Rising([b] + bs)
  {
    assert ([b] + bs)[1..] == bs;
  }

  lemma {:induction false} InsertRises(b: CumBucket, bs: seq<CumBucket>)
    requires Rising(bs)
    ensures Rising(Insert(b, bs)) && Insert(b, bs) != []
    ensures Insert(b, bs)[0] == b || (bs != [] && Insert(b, bs)[0] == bs[0])
  {
    if bs == [] || b.bound <= bs[0].bound {
      RisingWithFirst(b, bs);
    } else {
      InsertRises(b, bs[1..]);
      RisingWithFirst(bs[0], Insert(b, bs[1..]));
    }
  }

  lemma {:induction false} SortRises(bs: seq<CumBucket>)
    ensures Rising(SortByBound(bs))
  {
    if bs != [] {
      SortRises(bs[1..]);
      InsertRises(bs[0], SortByBound(bs[1..]));
    }
  }

  /** On all inputs, repeated and unsorted bounds included: the merged bounds never fall, and at
      every bound the merged list records what the two lists record together. */
  lemma MergedBucketsKeepEverything(dst: seq<CumBucket>, src: seq<CumBucket>)
    ensures Rising(MergedBuckets(dst, src))
    ensures RecordsBoth(MergedBuckets(dst, src), dst, src)
  {
    SortRises(AddAll(dst, src));
    forall x
      ensures CountAt(MergedBuckets(dst, src), x) == CountAt(dst, x) + CountAt(src, x)
      ensures HasBound(MergedBuckets(dst, src), x) <==> HasBound(dst, x) || HasBound(src, x)
    {
      AddAllRecords(dst, src, x);
      SortRecords(AddAll(dst, src), x);
    }
  }

  // ---- On sorted lists it is the merge

  lemma {:induction false} DistinctWithLast(bs: seq<CumBucket>, b: CumBucket)
    ensures DistinctBounds(bs + [b]) <==> DistinctBounds(bs) && !HasBound(bs, b.bound)
  {
    if bs == [] {
      assert (bs + [b])[1..] == [];
    } else {
      DistinctWithLast(bs[1..], b);
      RecordsLast(bs[1..], b, bs[0].bound);
      assert (bs + [b])[1..] == bs[1..] + [b];
    }
  }

  lemma {:induction false} DistinctAfterUpdate(bs: seq<CumBucket>, i: nat, more: nat)
    requires i < |bs| && DistinctBounds(bs)
    ensures DistinctBounds(bs[i := bs[i].(count := bs[i].count + more)])
  {
    var r := bs[i := bs[i].(count := bs[i].count + more)];
    if i == 0 {
      assert r[1..] == bs[1..];
    } else {
      DistinctAfterUpdate(bs[1..], i - 1, more);
      RecordsUpdate(bs[1..], i - 1, more, bs[0].bound);
      assert r[1..] == bs[1..][i - 1 := bs[i].(count := bs[i].count + more)];
    }
  }

  lemma {:induction false} AddAllKeepsDistinct(dst: seq<CumBucket>, src: seq<CumBucket>)
    requires DistinctBounds(dst) && DistinctBounds(src)
    ensures DistinctBounds(AddAll(dst, src))
  {
    if src != [] {
      var before, b := src[..|src| - 1], src[|src| - 1];
      assert src == before + [b];
      DistinctWithLast(before, b);
      AddAllKeepsDistinct(dst, before);
      AddAllRecords(dst, before, b.bound);
      LastWithFinds(dst, b.bound);
      if LastWith(dst, b.bound).Some? {
        DistinctAfterUpdate(AddAll(dst, before), LastWith(dst, b.bound).value, b.count);
      } else {
        DistinctWithLast(AddAll(dst, before), b);
      }
    }
  }

  lemma {:induction false} InsertKeepsDistinct(b: CumBucket, bs: seq<CumBucket>)
    requires DistinctBounds(bs) && !HasBound(bs, b.bound)
    ensures DistinctBounds(Insert(b, bs))
  {
    if bs == [] || b.bound <= bs[0].bound {
      assert ([b] + bs)[1..] == bs;
    } else {
      InsertKeepsDistinct(b, bs[1..]);
      InsertRecords(b, bs[1..], bs[0].bound);
      assert Insert(b, bs)[1..] == Insert(b, bs[1..]);
    }
  }

  lemma {:induction false} SortKeepsDistinct(bs: seq<CumBucket>)
    requires DistinctBounds(bs)
    ensures DistinctBounds(SortByBound(bs))
  {
    if bs != [] {
      SortKeepsDistinct(bs[1..]);
      SortRecords(bs[1..], bs[0].bound);
      InsertKeepsDistinct(bs[0], SortByBound(bs[1..]));
    }
  }

  /** What index, append and sort make of two sorted lists is their merge. */
  lemma MergedBucketsIsTheMerge(dst: seq<CumBucket>, src: seq<CumBucket>)
    requires Sorted(dst) && Sorted(src)
    ensures MergedBuckets(dst, src) == MergeBuckets(dst, src)
  {
    SortedIsDistinct(dst);
    SortedIsDistinct(src);
    AddAllKeepsDistinct(dst, src);
    SortKeepsDistinct(AddAll(dst, src));
    MergedBucketsKeepEverything(dst, src);
    RisingAndDistinctIsSorted(MergedBuckets(dst, src));
    MergedIsSorted(dst, src);
    forall x
      ensures CountAt(MergedBuckets(dst, src), x) == CountAt(MergeBuckets(dst, src), x)
      ensures HasBound(MergedBuckets(dst, src), x) == HasBound(MergeBuckets(dst, src), x)
    {
      MergeBucketsRecords(dst, src, x);
    }
    SortedIsDetermined(MergedBuckets(dst, src), MergeBuckets(dst, src));
  }

  // ---- Equal bounds

  function PrefixSum(counts: seq<nat>, n: nat): nat
    requires n <= |counts|
  {
    if n == 0 then 0 else PrefixSum(counts, n - 1) + counts[n - 1]
  }

  /** The cumulative rendering of per-bucket counts. */
  function Cumulative(bounds: seq<real>, counts: seq<nat>): (bs: seq<CumBucket>)
    requires |bounds| <= |counts|
    ensures |bs| == |bounds|
  {
    seq(|bounds|, i requires 0 <= i < |bounds| => CumBucket(bounds[i], PrefixSum(counts, i + 1)))
  }

  lemma {:induction false} PrefixSumsAdd(a: seq<nat>, b: seq<nat>, c: seq<nat>, n: nat)
    requires |a| == |b| == |c| && n <= |a| && forall i :: 0 <= i < |a| ==> c[i] == a[i] + b[i]
    ensures PrefixSum(c, n) == PrefixSum(a, n) + PrefixSum(b, n)
  {
    if n > 0 {
      PrefixSumsAdd(a, b, c, n - 1);
    }
  }

  lemma {:induction false} MergeOfEqualBounds(d: seq<CumBucket>, s: seq<CumBucket>)
    requires |d| == |s| && forall i :: 0 <= i < |d| ==> d[i].bound == s[i].bound
    ensures |MergeBuckets(d, s)| == |d|
    ensures forall i :: 0 <= i < |d| ==> MergeBuckets(d, s)[i] == CumBucket(d[i].bound, d[i].count + s[i].count)
  {
    if d != [] {
      MergeOfEqualBounds(d[1..], s[1..]);
    }
  }

  /** Histogram boundaries rise. */
  predicate RisingBounds(bounds: seq<real>) {
    forall i, j :: 0 <= i < j < |bounds| ==> bounds[i] < bounds[j]
  }

  lemma {:induction false} SortedByIndex(bs: seq<CumBucket>)
    requires forall i, j :: 0 <= i < j < |bs| ==> bs[i].bound < bs[j].bound
    ensures Sorted(bs)
  {
    if |bs| > 1 {
      SortedByIndex(bs[1..]);
    }
  }

  /** On equal bounds, merging cumulative lists is accumulating the merged counts. */
  lemma CumulativeCommutes(bounds: seq<real>, a: seq<nat>, b: seq<nat>, c: seq<nat>)
    requires RisingBounds(bounds)
    requires |a| == |b| == |c| && |bounds| <= |a| && forall i :: 0 <= i < |a| ==> c[i] == a[i] + b[i]
    ensures MergedBuckets(Cumulative(bounds, a), Cumulative(bounds, b)) == Cumulative(bounds, c)
  {
    SortedByIndex(Cumulative(bounds, a));
    SortedByIndex(Cumulative(bounds, b));
    MergedBucketsIsTheMerge(Cumulative(bounds, a), Cumulative(bounds, b));
    MergeOfEqualBounds(Cumulative(bounds, a), Cumulative(bounds, b));
    forall i | 0 <= i < |bounds|
      ensures MergeBuckets(Cumulative(bounds, a), Cumulative(bounds, b))[i] == Cumulative(bounds, c)[i]
    {
      PrefixSumsAdd(a, b, c, i + 1);
    }
  }

  lemma {:induction false} PrefixSumGrows(counts: seq<nat>, m: nat, n: nat)
    requires m <= n <= |counts|
    ensures PrefixSum(counts, m) <= PrefixSum(counts, n)
  {
    if m < n {
      PrefixSumGrows(counts, m, n - 1);
    }
  }
}
