/** The Prometheus cardinality limiter, and its agreement with the OTLP one (internal/metricscap/reader.go). */
module PromLimiter {
  import opened Wrappers
  import opened Budgets
  import opened PointMerge
  import opened OtlpPoints
  import opened PromBuckets

  /** What the labels naming an instrumentation scope start with, and the one with its name. */
  const SCOPE_PREFIX := "otel_scope_"
  const SCOPE_LABEL := "otel_scope_name"

  predicate IsScopeLabel(k: string) {
    SCOPE_PREFIX <= k
  }

  type Labels = map<string, string>

  datatype PromHistogram = PromHistogram(samples: nat, sum: real, buckets: seq<CumBucket>)

  datatype Series = Series(
    labels: Labels, counter: Option<real>, gauge: Option<real>, histogram: Option<PromHistogram>,
    untyped: Option<real>, summary: Option<string>, timestamp: Option<int>)

  datatype PromFamily = PromFamily(name: string, series: seq<Series>)

  datatype PromRule = PromRule(metric: string, label_: string, max: int, scope: string, budgetKey: string)

  predicate Usable(r: PromRule) {
    r.metric != "" && r.label_ != "" && r.max > 0
  }

  /** The name of the budget a rule draws on. */
  function BudgetName(r: PromRule): string {
    if r.budgetKey != "" then r.budgetKey else r.scope + "\0" + r.metric + "\0" + r.label_
  }

  function BudgetOf(bs: BudgetTable, r: PromRule): Budget
    requires Usable(r)
  {
    if BudgetName(r) in bs then bs[BudgetName(r)] else Budget(r.max, {})
  }

  ghost predicate AllUsable(rules: seq<PromRule>) {
    forall r :: r in rules ==> Usable(r)
  }

  /** The rules that can cap anything, in the order given. */
  function UsableOnly(rules: seq<PromRule>): (out: seq<PromRule>)
    ensures forall r :: r in out <==> r in rules && r.metric != "" && r.label_ != "" && r.max > 0
  {
    if rules == [] then []
    else
      var last := rules[|rules| - 1];
      UsableOnly(rules[..|rules| - 1]) + if Usable(last) then [last] else []
  }

  function LabelOf(s: Series, name: string): string {
    if name in s.labels then s.labels[name] else ""
  }

  /** Scope is matched per series: one family can carry series from several scopes. */
  predicate InScope(r: PromRule, s: Series) {
    r.scope == "" || LabelOf(s, SCOPE_LABEL) == r.scope
  }

  function RewriteLabel(b: Budget, r: PromRule, s: Series): (Budget, Series) {
    if !InScope(r, s) || r.label_ !in s.labels then (b, s)
    else
      var (b', next) := Observed(b, s.labels[r.label_]);
      (b', s.(labels := s.labels[r.label_ := next]))
  }

  function RewriteLabels(b: Budget, r: PromRule, ss: seq<Series>): (out: (Budget, seq<Series>))
    ensures |out.1| == |ss|
  {
    if ss == [] then (b, [])
    else
      var before := RewriteLabels(b, r, ss[..|ss| - 1]);
      var (after, last) := RewriteLabel(before.0, r, ss[|ss| - 1]);
      (after, before.1 + [last])
  }

  function AddReals(dst: Option<real>, src: Option<real>): Option<real> {
    if src.Some? && dst.Some? then Some(dst.value + src.value) else dst
  }

  function MergePromHistogram(dst: PromHistogram, src: PromHistogram): PromHistogram {
    PromHistogram(dst.samples + src.samples, dst.sum + src.sum, MergedBuckets(dst.buckets, src.buckets))
  }

  /** mergePrometheusMetric: counters, histograms and untyped values add up, gauges and
      summaries keep the later one with its timestamp. */
  function MergeSeries(dst: Series, src: Series): Series {
    dst.(counter := AddReals(dst.counter, src.counter),
         untyped := AddReals(dst.untyped, src.untyped),
         histogram := if src.histogram.Some? && dst.histogram.Some?
                      then Some(MergePromHistogram(dst.histogram.value, src.histogram.value)) else dst.histogram,
         gauge := if src.gauge.Some? then src.gauge else dst.gauge,
         summary := if src.summary.Some? then src.summary else dst.summary,
         timestamp := if src.gauge.Some? || src.summary.Some? then src.timestamp else dst.timestamp)
  }

  function LabelsOf(s: Series): Labels { s.labels }

  /** One rule applied to the series of one family. */
  ghost function RewriteFamily(b: Budget, r: PromRule, ss: seq<Series>): (Budget, seq<Series>) {
    var (b', rewritten) := RewriteLabels(b, r, ss);
    (b', Merged(rewritten, LabelsOf, MergeSeries))
  }

  method RewriteFamilySeries(bucket: Bucket, r: PromRule, ss: seq<Series>) returns (out: seq<Series>)
    modifies bucket
    ensures (bucket.View(), out) == RewriteFamily(old(bucket.View()), r, ss)
  {
    var rewritten := [];
    for n := 0 to |ss|
      invariant (bucket.View(), rewritten) == RewriteLabels(old(bucket.View()), r, ss[..n])
    {
      assert ss[..n + 1][..n] == ss[..n];
      var s := ss[n];
      if InScope(r, s) && r.label_ in s.labels {
        var next := bucket.Observe(s.labels[r.label_]);
        s := s.(labels := s.labels[r.label_ := next]);
      }
      rewritten := rewritten + [s];
    }
    assert ss[..|ss|] == ss;
    out := MergePoints(rewritten, LabelsOf, MergeSeries);
  }

  // ---- All rules on all families

  ghost function ApplyRule(bs: BudgetTable, r: PromRule, ss: seq<Series>): (BudgetTable, seq<Series>)
    requires Usable(r)
  {
    var (b, out) := RewriteFamily(BudgetOf(bs, r), r, ss);
    (bs[BudgetName(r) := b], out)
  }

  /** The rules for one family, in order. */
  ghost function ApplyRules(bs: BudgetTable, rules: seq<PromRule>, f: PromFamily): (BudgetTable, PromFamily)
    requires AllUsable(rules)
  {
    if rules == [] then (bs, f)
    else
      var (bs1, f1) := ApplyRules(bs, rules[..|rules| - 1], f);
      var r := rules[|rules| - 1];
      if f.name != r.metric then (bs1, f1)
      else var (bs2, out) := ApplyRule(bs1, r, f1.series); (bs2, f1.(series := out))
  }

  ghost function RewriteFamilies(bs: BudgetTable, rules: seq<PromRule>, fs: seq<PromFamily>): (r: (BudgetTable, seq<PromFamily>))
    requires AllUsable(rules)
    ensures |r.1| == |fs|
  {
    if fs == [] then (bs, [])
    else
      var (bs1, before) := RewriteFamilies(bs, rules, fs[..|fs| - 1]);
      var (bs2, last) := ApplyRules(bs1, rules, fs[|fs| - 1]);
      (bs2, before + [last])
  }

  /** The families of one scrape. */
  class Gathered {
    var families: seq<PromFamily>

    constructor (families: seq<PromFamily>)
      ensures this.families == families
    {
      this.families := families;
    }
  }

  class PrometheusLimiter {
    const rules: seq<PromRule>
    var buckets: map<string, Bucket>

    ghost predicate Valid()
      reads this
    {
      && AllUsable(rules)
      && forall j, k :: j in buckets && k in buckets && j != k ==> buckets[j] != buckets[k]
    }

    ghost function View(): BudgetTable
      reads this, buckets.Values
    {
      map k | k in buckets :: buckets[k].View()
    }

    /** Rules without a metric, a label or a positive cap are ignored. */
    constructor (rules: seq<PromRule>)
      ensures Valid() && View() == map[] && fresh(buckets.Values)
      ensures this.rules == UsableOnly(rules)
    {
      var usable: seq<PromRule> := [];
      for n := 0 to |rules|
        invariant usable == UsableOnly(rules[..n])
      {
        assert rules[..n + 1][..n] == rules[..n];
        if Usable(rules[n]) {
          usable := usable + [rules[n]];
        }
      }
      assert rules[..|rules|] == rules;
      this.rules := usable;
      buckets := map[];
    }

    method BucketFor(r: PromRule) returns (b: Bucket)
      requires Valid() && Usable(r)
      modifies this
      ensures Valid() && BudgetName(r) in buckets && b == buckets[BudgetName(r)]
      ensures b.View() == BudgetOf(old(View()), r)
      ensures View() == old(View())[BudgetName(r) := BudgetOf(old(View()), r)]
      ensures forall o :: o in buckets.Values ==> o in old(buckets.Values) || fresh(o)
    {
      var name := BudgetName(r);
      if name !in buckets {
        b := new Bucket(r.max);
        forall k | k in buckets
          ensures buckets[k] in buckets.Values
        {
        }
        buckets := buckets[name := b];
      }
      b := buckets[name];
    }

    method RewriteUnder(name: string, r: PromRule, ss: seq<Series>) returns (out: seq<Series>)
      requires Valid() && name in buckets
      modifies buckets[name]
      ensures Valid()
      ensures var (b, ss') := RewriteFamily(old(View())[name], r, ss);
              View() == old(View())[name := b] && out == ss'
    {
      out := RewriteFamilySeries(buckets[name], r, ss);
      assert forall k :: k in buckets && k != name ==> buckets[k].View() == old(buckets[k].View());
    }

    method ApplyRuleTo(r: PromRule, ss: seq<Series>) returns (out: seq<Series>)
      requires Valid() && Usable(r)
      modifies this, buckets.Values
      ensures Valid() && (View(), out) == ApplyRule(old(View()), r, ss)
      ensures forall o :: o in buckets.Values ==> o in old(buckets.Values) || fresh(o)
    {
      var b := BucketFor(r);
      ghost var table := View();
      assert b in buckets.Values && table[BudgetName(r)] == BudgetOf(old(View()), r);
      out := RewriteUnder(BudgetName(r), r, ss);
      UpdateTwice(old(View()), BudgetName(r), table[BudgetName(r)], View()[BudgetName(r)]);
    }

    method ApplyRulesTo(f: PromFamily) returns (out: PromFamily)
      requires Valid()
      modifies this, buckets.Values
      ensures Valid() && (View(), out) == ApplyRules(old(View()), rules, f)
      ensures forall o :: o in buckets.Values ==> o in old(buckets.Values) || fresh(o)
    {
      out := f;
      for n := 0 to |rules|
        invariant Valid() && (View(), out) == ApplyRules(old(View()), rules[..n], f) && out.name == f.name
        invariant forall o :: o in buckets.Values ==> o in old(buckets.Values) || fresh(o)
      {
        assert rules[..n + 1][..n] == rules[..n];
        if f.name == rules[n].metric {
          var series := ApplyRuleTo(rules[n], out.series);
          out := out.(series := series);
        }
      }
      assert rules[..|rules|] == rules;
    }

    /** Rewrites the families of a scrape in place. */
    method Rewrite(g: Gathered)
      requires Valid()
      modifies this, buckets.Values, g
      ensures Valid() && (View(), g.families) == RewriteFamilies(old(View()), rules, old(g.families))
    {
      var out := [];
      var families := g.families;
      for n := 0 to |families|
        invariant g.families == families == old(g.families)
        invariant Valid() && (View(), out) == RewriteFamilies(old(View()), rules, families[..n])
        invariant forall o :: o in buckets.Values ==> o in old(buckets.Values) || fresh(o)
      {
        assert families[..n + 1][..n] == families[..n];
        var f := ApplyRulesTo(families[n]);
        out := out + [f];
      }
      assert families[..|families|] == families;
      g.families := out;
    }
  }

  // ---- Agreement with the OTLP side

  function RenderLabels(a: Attrs): Labels {
    map k | k in a :: if a[k].Str? then a[k].s else a[k].repr
  }

  /** How the exporter renders a histogram point of a scope: its attributes and what names the scope
      as labels, cumulative counts, the total beside them. */
  function Render(scope: Labels, h: Histogram): Series
    requires |h.bounds| <= |h.counts|
  {
    Series(RenderLabels(h.attrs) + scope, None, None,
           Some(PromHistogram(h.count, h.sum, Cumulative(h.bounds, h.counts))), None, None, None)
  }

  /** A point with the given bounds, one count per bucket and one beyond, and string attributes
      other than the scope's labels, which are reserved. */
  predicate Regular(bounds: seq<real>, h: Histogram) {
    && RisingBounds(bounds) && h.bounds == bounds && |h.counts| == |bounds| + 1
    && forall k :: k in h.attrs ==> !IsScopeLabel(k) && h.attrs[k].Str?
  }

  ghost function Rendered(bounds: seq<real>, scope: Labels, h: Histogram): Series {
    if Regular(bounds, h) then Render(scope, h) else Series(scope, None, None, None, None, None, None)
  }

  ghost function Renderer(bounds: seq<real>, scope: Labels): Histogram -> Series {
    (h: Histogram) => Rendered(bounds, scope, h)
  }

  function IsRegular(bounds: seq<real>): Histogram -> bool {
    (h: Histogram) => Regular(bounds, h)
  }

  /** The labels that name a scope: its name, and its version or whatever else tells it apart. */
  predicate NamesScope(scope: Labels) {
    SCOPE_LABEL in scope && forall k :: k in scope ==> IsScopeLabel(k)
  }

  lemma LabelsIdentifyStrings(a: Attrs, b: Attrs, scope: Labels)
    requires (forall k :: k in a ==> !IsScopeLabel(k) && a[k].Str?) && (forall k :: k in b ==> !IsScopeLabel(k) && b[k].Str?)
    requires NamesScope(scope) && RenderLabels(a) + scope == RenderLabels(b) + scope
    ensures a == b
  {
    var la, lb := RenderLabels(a) + scope, RenderLabels(b) + scope;
    forall k
      ensures k in a <==> k in b
      ensures k in a ==> a[k] == b[k]
    {
      assert k in la <==> k in a || k in scope;
      assert k in lb <==> k in b || k in scope;
      if k in a {
        assert la[k] == a[k].s && lb[k] == b[k].s;
      }
    }
    assert a.Keys == b.Keys;
  }

  lemma OnePairIsCarried(bounds: seq<real>, scope: Labels, d: Histogram, s: Histogram)
    requires NamesScope(scope) && Regular(bounds, d) && Regular(bounds, s)
    ensures d.attrs == s.attrs <==> LabelsOf(Rendered(bounds, scope, d)) == LabelsOf(Rendered(bounds, scope, s))
    ensures Regular(bounds, MergeHistogram(d, s))
    ensures Rendered(bounds, scope, MergeHistogram(d, s)) == MergeSeries(Rendered(bounds, scope, d), Rendered(bounds, scope, s))
  {
    if LabelsOf(Rendered(bounds, scope, d)) == LabelsOf(Rendered(bounds, scope, s)) {
      LabelsIdentifyStrings(d.attrs, s.attrs, scope);
    }
    CumulativeCommutes(bounds, d.counts, s.counts, AddCounts(d.counts, s.counts));
  }

  /** Rendering carries the OTLP merge of regular points to the Prometheus merge. */
  lemma RenderingCarriesMerge(bounds: seq<real>, scope: Labels)
    requires NamesScope(scope)
    ensures KeepsKeys(AttrsOfHistogram, MergeHistogram, IsRegular(bounds))
    ensures Carries(Renderer(bounds, scope), AttrsOfHistogram, MergeHistogram, LabelsOf, MergeSeries,
                    IsRegular(bounds))
  {
    forall d: Histogram, s: Histogram | Regular(bounds, d) && Regular(bounds, s)
      ensures d.attrs == s.attrs <==> LabelsOf(Rendered(bounds, scope, d)) == LabelsOf(Rendered(bounds, scope, s))
      ensures Regular(bounds, MergeHistogram(d, s))
      ensures Rendered(bounds, scope, MergeHistogram(d, s)) == MergeSeries(Rendered(bounds, scope, d), Rendered(bounds, scope, s))
    {
      OnePairIsCarried(bounds, scope, d, s);
    }
  }

  /** The points a metric has in one instrumentation scope. */
  datatype ScopePoints = ScopePoints(scope: Labels, points: seq<Histogram>)

  /** The rule covers the scope. */
  predicate Covers(r: PromRule, scope: Labels) {
    r.scope == "" || (if SCOPE_LABEL in scope then scope[SCOPE_LABEL] else "") == r.scope
  }

  /** The family the scopes are rendered to. */
  ghost function Family(bounds: seq<real>, gs: seq<ScopePoints>): seq<Series> {
    if gs == [] then []
    else Family(bounds, gs[..|gs| - 1]) + Part(bounds, gs[|gs| - 1])
  }

  /** The OTLP limiter with the same rule on one scope: as it stands, or rewritten. */
  ghost function LimitScope(b: Budget, r: PromRule, g: ScopePoints): (Budget, ScopePoints) {
    if !Covers(r, g.scope) then (b, g)
    else
      var (b', d) := RewriteData(b, r.label_, HistogramData(g.points));
      assert d.HistogramData?;
      (b', ScopePoints(g.scope, d.histograms))
  }

  /** Scope after scope, on one budget. */
  ghost function LimitScopes(b: Budget, r: PromRule, gs: seq<ScopePoints>): (out: (Budget, seq<ScopePoints>))
    ensures |out.1| == |gs|
  {
    if gs == [] then (b, [])
    else
      var (b1, before) := LimitScopes(b, r, gs[..|gs| - 1]);
      var (b2, last) := LimitScope(b1, r, gs[|gs| - 1]);
      (b2, before + [last])
  }

  ghost predicate AllRegular(bounds: seq<real>, gs: seq<ScopePoints>) {
    forall i :: 0 <= i < |gs| ==> NamesScope(gs[i].scope) && RegularScope(bounds, gs[i])
  }

  ghost predicate ScopesApart(gs: seq<ScopePoints>) {
    forall i, j :: 0 <= i < j < |gs| ==> gs[i].scope != gs[j].scope
  }

  // ---- The labels

  lemma {:induction false} RewriteLabelsConcat(b: Budget, r: PromRule, xs: seq<Series>, ys: seq<Series>)
    ensures var (b1, out1) := RewriteLabels(b, r, xs);
            var (b2, out2) := RewriteLabels(b1, r, ys);
            RewriteLabels(b, r, xs + ys) == (b2, out1 + out2)
  {
    if ys == [] {
      assert xs + ys == xs;
      assert RewriteLabels(b, r, xs).1 + [] == RewriteLabels(b, r, xs).1;
    } else {
      var before, y := ys[..|ys| - 1], ys[|ys| - 1];
      RewriteLabelsConcat(b, r, xs, before);
      assert xs + ys == (xs + before) + [y] && ys == before + [y];
      ConcatOneMore(b, r, xs, before, y);
    }
  }

  lemma ConcatOneMore(b: Budget, r: PromRule, xs: seq<Series>, ys: seq<Series>, y: Series)
    requires var (b1, out1) := RewriteLabels(b, r, xs);
             var (b2, out2) := RewriteLabels(b1, r, ys);
             RewriteLabels(b, r, xs + ys) == (b2, out1 + out2)
    ensures var (b1, out1) := RewriteLabels(b, r, xs);
            var (b2, out2) := RewriteLabels(b1, r, ys + [y]);
            RewriteLabels(b, r, (xs + ys) + [y]) == (b2, out1 + out2)
  {
    var (b1, out1) := RewriteLabels(b, r, xs);
    var (b2, out2) := RewriteLabels(b1, r, ys);
    RewriteLabelsOneMore(b, r, xs + ys, y);
    RewriteLabelsOneMore(b1, r, ys, y);
    NewInNeither(out1, out2, RewriteLabel(b2, r, y).1);
  }

  lemma RewriteLabelsOneMore(b: Budget, r: PromRule, ss: seq<Series>, s: Series)
    ensures var (b1, before) := RewriteLabels(b, r, ss);
            var (b2, last) := RewriteLabel(b1, r, s);
            RewriteLabels(b, r, ss + [s]) == (b2, before + [last])
  {
    assert (ss + [s])[..|ss|] == ss;
  }

  lemma RewritingCarriesLabels(b: Budget, r: PromRule, bounds: seq<real>, scope: Labels, h: Histogram)
    requires Covers(r, scope) && NamesScope(scope) && !IsScopeLabel(r.label_) && Regular(bounds, h)
    ensures var (b', attrs) := RewriteSet(b, r.label_, h.attrs);
            && Regular(bounds, h.(attrs := attrs))
            && RewriteLabel(b, r, Rendered(bounds, scope, h)) == (b', Rendered(bounds, scope, h.(attrs := attrs)))
  {
    var attrs := RewriteSet(b, r.label_, h.attrs).1;
    if r.label_ in h.attrs {
      var next := Observed(b, h.attrs[r.label_].s).1;
      assert RenderLabels(attrs) + scope == (RenderLabels(h.attrs) + scope)[r.label_ := next];
    }
  }

  /** In a covered scope both sides meet the same values in the same order, so they take the same decisions. */
  lemma {:induction false} SameDecisions(b: Budget, r: PromRule, bounds: seq<real>, scope: Labels, hs: seq<Histogram>)
    requires Covers(r, scope) && NamesScope(scope) && !IsScopeLabel(r.label_) && forall h :: h in hs ==> Regular(bounds, h)
    ensures var (b', sets) := RewriteSets(b, r.label_, MapSeq(hs, AttrsOfHistogram));
            && RewriteLabels(b, r, MapSeq(hs, Renderer(bounds, scope)))
               == (b', MapSeq(WithAttrsH(hs, sets), Renderer(bounds, scope)))
            && forall h :: h in WithAttrsH(hs, sets) ==> Regular(bounds, h)
  {
    if hs != [] {
      var before, h := hs[..|hs| - 1], hs[|hs| - 1];
      SameDecisions(b, r, bounds, scope, before);
      assert hs == before + [h];
      SameDecision(b, r, bounds, scope, before, h);
    }
  }

  lemma SameDecision(b: Budget, r: PromRule, bounds: seq<real>, scope: Labels, before: seq<Histogram>, h: Histogram)
    requires Covers(r, scope) && NamesScope(scope) && !IsScopeLabel(r.label_) && Regular(bounds, h)
    requires var (b', sets) := RewriteSets(b, r.label_, MapSeq(before, AttrsOfHistogram));
             && RewriteLabels(b, r, MapSeq(before, Renderer(bounds, scope)))
                == (b', MapSeq(WithAttrsH(before, sets), Renderer(bounds, scope)))
             && forall k :: k in WithAttrsH(before, sets) ==> Regular(bounds, k)
    ensures var (b', sets) := RewriteSets(b, r.label_, MapSeq(before + [h], AttrsOfHistogram));
            && RewriteLabels(b, r, MapSeq(before + [h], Renderer(bounds, scope)))
               == (b', MapSeq(WithAttrsH(before + [h], sets), Renderer(bounds, scope)))
            && forall k :: k in WithAttrsH(before + [h], sets) ==> Regular(bounds, k)
  {
    var (b1, sets) := RewriteSets(b, r.label_, MapSeq(before, AttrsOfHistogram));
    var attrs := RewriteSet(b1, r.label_, h.attrs).1;
    RewritingCarriesLabels(b1, r, bounds, scope, h);
    MapOneMore(before, h, Renderer(bounds, scope));
    MapOneMore(before, h, AttrsOfHistogram);
    RewriteLabelsOneMore(b, r, MapSeq(before, Renderer(bounds, scope)), Rendered(bounds, scope, h));
    RewriteSetsOneMore(b, r.label_, MapSeq(before, AttrsOfHistogram), h.attrs);
    assert WithAttrsH(before + [h], sets + [attrs]) == WithAttrsH(before, sets) + [h.(attrs := attrs)];
    MapOneMore(WithAttrsH(before, sets), h.(attrs := attrs), Renderer(bounds, scope));
  }

  lemma MapOneMore<P, Q>(xs: seq<P>, x: P, f: P -> Q)
    ensures MapSeq(xs + [x], f) == MapSeq(xs, f) + [f(x)]
  {
  }

  lemma RewriteSetsOneMore(b: Budget, key: string, sets: seq<Attrs>, set_: Attrs)
    ensures var (b1, before) := RewriteSets(b, key, sets);
            var (b2, last) := RewriteSet(b1, key, set_);
            RewriteSets(b, key, sets + [set_]) == (b2, before + [last])
  {
    assert (sets + [set_])[..|sets|] == sets;
  }

  /** In a scope the rule does not cover no series is touched. */
  lemma {:induction false} UncoveredLabelsStay(b: Budget, r: PromRule, bounds: seq<real>, scope: Labels, hs: seq<Histogram>)
    requires NamesScope(scope) && !Covers(r, scope)
    ensures RewriteLabels(b, r, MapSeq(hs, Renderer(bounds, scope))) == (b, MapSeq(hs, Renderer(bounds, scope)))
  {
    if hs != [] {
      var before, h := hs[..|hs| - 1], hs[|hs| - 1];
      UncoveredLabelsStay(b, r, bounds, scope, before);
      assert hs == before + [h];
      MapOneMore(before, h, Renderer(bounds, scope));
      RewriteLabelsOneMore(b, r, MapSeq(before, Renderer(bounds, scope)), Rendered(bounds, scope, h));
    }
  }

  // ---- Scope after scope

  /** One scope's part of the family. */
  ghost function Part(bounds: seq<real>, g: ScopePoints): seq<Series> {
    MapSeq(g.points, Renderer(bounds, g.scope))
  }

  ghost predicate RegularScope(bounds: seq<real>, g: ScopePoints) {
    forall h :: h in g.points ==> Regular(bounds, h)
  }

  /** A scope the rule leaves alone has a point per set, as the SDK collects them. */
  ghost predicate Mergeable(r: PromRule, g: ScopePoints) {
    Covers(r, g.scope) || Distinct(SetsOf(HistogramData(g.points)))
  }

  lemma CoveredScopeAgrees(b: Budget, r: PromRule, bounds: seq<real>, g: ScopePoints)
    requires !IsScopeLabel(r.label_) && NamesScope(g.scope) && RegularScope(bounds, g) && Covers(r, g.scope)
    ensures var (b', out) := LimitScope(b, r, g);
            RewriteFamily(b, r, Part(bounds, g)) == (b', Part(bounds, out)) && RegularScope(bounds, out)
  {
    SameDecisions(b, r, bounds, g.scope, g.points);
    RenderingCarriesMerge(bounds, g.scope);
    var points := WithAttrsH(g.points, RewriteSets(b, r.label_, SetsOf(HistogramData(g.points))).1);
    MergedCommutes(points, Renderer(bounds, g.scope), AttrsOfHistogram, MergeHistogram, LabelsOf, MergeSeries, IsRegular(bounds));
    MergedKeys(points, AttrsOfHistogram, MergeHistogram, IsRegular(bounds));
  }

  lemma UncoveredScopeAgrees(b: Budget, r: PromRule, bounds: seq<real>, g: ScopePoints)
    requires !Covers(r, g.scope) && NamesScope(g.scope) && RegularScope(bounds, g) && Distinct(SetsOf(HistogramData(g.points)))
    ensures RewriteFamily(b, r, Part(bounds, g)) == (b, Part(bounds, g))
  {
    UncoveredLabelsStay(b, r, bounds, g.scope, g.points);
    var ss := Part(bounds, g);
    forall i, j | 0 <= i < j < |ss|
      ensures LabelsOf(ss[i]) != LabelsOf(ss[j])
    {
      OnePairIsCarried(bounds, g.scope, g.points[i], g.points[j]);
      assert SetsOf(HistogramData(g.points))[i] == g.points[i].attrs && SetsOf(HistogramData(g.points))[j] == g.points[j].attrs;
    }
    MergedOfDistinct(ss, LabelsOf, MergeSeries);
  }

  /** What the Prometheus limiter makes of one scope's part of the family. */
  lemma ScopeAgrees(b: Budget, r: PromRule, bounds: seq<real>, g: ScopePoints)
    requires !IsScopeLabel(r.label_) && NamesScope(g.scope) && RegularScope(bounds, g) && Mergeable(r, g)
    ensures var (b', out) := LimitScope(b, r, g);
            RewriteFamily(b, r, Part(bounds, g)) == (b', Part(bounds, out)) && RegularScope(bounds, out) && out.scope == g.scope
  {
    if Covers(r, g.scope) {
      CoveredScopeAgrees(b, r, bounds, g);
    } else {
      UncoveredScopeAgrees(b, r, bounds, g);
    }
  }

  /** The labels of a series that name its scope. */
  function ScopeOf(s: Series): Labels {
    map k | k in s.labels && IsScopeLabel(k) :: s.labels[k]
  }

  ghost predicate AllOfScope(ss: seq<Series>, scope: Labels) {
    forall s :: s in ss ==> ScopeOf(s) == scope
  }

  ghost predicate NoneOfScope(ss: seq<Series>, scope: Labels) {
    forall s :: s in ss ==> ScopeOf(s) != scope
  }

  lemma LabelKeepsScope(b: Budget, r: PromRule, s: Series)
    requires !IsScopeLabel(r.label_)
    ensures ScopeOf(RewriteLabel(b, r, s).1) == ScopeOf(s)
  {
  }

  lemma {:induction false} LabelsKeepScopes(b: Budget, r: PromRule, ss: seq<Series>)
    requires !IsScopeLabel(r.label_)
    ensures var out := RewriteLabels(b, r, ss).1;
            forall i :: 0 <= i < |ss| ==> ScopeOf(out[i]) == ScopeOf(ss[i])
  {
    if ss != [] {
      LabelsKeepScopes(b, r, ss[..|ss| - 1]);
      LabelKeepsScope(RewriteLabels(b, r, ss[..|ss| - 1]).0, r, ss[|ss| - 1]);
    }
  }

  lemma RenderedScope(bounds: seq<real>, scope: Labels, h: Histogram)
    requires NamesScope(scope)
    ensures ScopeOf(Rendered(bounds, scope, h)) == scope
  {
  }

  lemma PartIsOfScope(bounds: seq<real>, g: ScopePoints)
    requires NamesScope(g.scope)
    ensures AllOfScope(Part(bounds, g), g.scope)
  {
    forall s | s in Part(bounds, g) ensures ScopeOf(s) == g.scope {
      var i :| 0 <= i < |g.points| && Rendered(bounds, g.scope, g.points[i]) == s;
      RenderedScope(bounds, g.scope, g.points[i]);
    }
  }

  lemma {:induction false} FamilyScopes(bounds: seq<real>, gs: seq<ScopePoints>, scope: Labels)
    requires forall i :: 0 <= i < |gs| ==> NamesScope(gs[i].scope) && gs[i].scope != scope
    ensures NoneOfScope(Family(bounds, gs), scope)
  {
    if gs != [] {
      FamilyScopes(bounds, gs[..|gs| - 1], scope);
      PartIsOfScope(bounds, gs[|gs| - 1]);
    }
  }

  lemma ScopesMergeApart(b: Budget, r: PromRule, xs: seq<Series>, ys: seq<Series>, scope: Labels)
    requires !IsScopeLabel(r.label_) && NoneOfScope(xs, scope) && AllOfScope(ys, scope)
    ensures var (b1, family1) := RewriteFamily(b, r, xs);
            var (b2, family2) := RewriteFamily(b1, r, ys);
            RewriteFamily(b, r, xs + ys) == (b2, family1 + family2)
  {
    RewriteLabelsConcat(b, r, xs, ys);
    var (b1, out1) := RewriteLabels(b, r, xs);
    var (b2, out2) := RewriteLabels(b1, r, ys);
    LabelsKeepScopes(b, r, xs);
    LabelsKeepScopes(b1, r, ys);
    LabelsApart(xs, ys, out1, out2, scope);
    MergedConcat(out1, out2, LabelsOf, MergeSeries);
  }

  lemma LabelsApart(xs: seq<Series>, ys: seq<Series>, out1: seq<Series>, out2: seq<Series>, scope: Labels)
    requires NoneOfScope(xs, scope) && AllOfScope(ys, scope) && |out1| == |xs| && |out2| == |ys|
    requires forall i :: 0 <= i < |xs| ==> ScopeOf(out1[i]) == ScopeOf(xs[i])
    requires forall i :: 0 <= i < |ys| ==> ScopeOf(out2[i]) == ScopeOf(ys[i])
    ensures forall x, y :: x in out1 && y in out2 ==> LabelsOf(x) != LabelsOf(y)
  {
    forall x, y | x in out1 && y in out2
      ensures LabelsOf(x) != LabelsOf(y)
    {
      var i :| 0 <= i < |out1| && out1[i] == x;
      var j :| 0 <= j < |out2| && out2[j] == y;
      assert xs[i] in xs && ys[j] in ys;
    }
  }

  /** One rule: rewriting and merging on the Prometheus side gives the rendering of what rewriting and
      merging on the OTLP side gives, for a metric with any scopes, of which the rule covers all or
      those of one name, down to every cumulative bucket and the budget left behind. */
  lemma {:induction false} OneRuleAgrees(b: Budget, r: PromRule, bounds: seq<real>, gs: seq<ScopePoints>)
    requires !IsScopeLabel(r.label_) && AllRegular(bounds, gs) && ScopesApart(gs)
    requires forall i :: 0 <= i < |gs| ==> Mergeable(r, gs[i])
    ensures var (b', out) := LimitScopes(b, r, gs);
            RewriteFamily(b, r, Family(bounds, gs)) == (b', Family(bounds, out)) && AllRegular(bounds, out)
  {
    if gs == [] {
      assert MapSeq([], Renderer(bounds, map[])) == [];
    } else {
      var before, g := gs[..|gs| - 1], gs[|gs| - 1];
      OneRuleAgrees(b, r, bounds, before);
      FamilyScopes(bounds, before, g.scope);
      PartIsOfScope(bounds, g);
      var (b1, out) := LimitScopes(b, r, before);
      ScopesMergeApart(b, r, Family(bounds, before), Part(bounds, g), g.scope);
      ScopeAgrees(b1, r, bounds, g);
      FamilyOneMore(bounds, out, LimitScope(b1, r, g).1);
    }
  }

  lemma FamilyOneMore(bounds: seq<real>, gs: seq<ScopePoints>, g: ScopePoints)
    ensures Family(bounds, gs + [g]) == Family(bounds, gs) + Part(bounds, g)
    ensures AllRegular(bounds, gs) && NamesScope(g.scope) && RegularScope(bounds, g) ==> AllRegular(bounds, gs + [g])
  {
    assert (gs + [g])[..|gs|] == gs;
  }

  // ---- All rules

  /** A metric as it reaches both limiters. */
  datatype Metric = Metric(name: string, bounds: seq<real>, scopes: seq<ScopePoints>)

  ghost function RenderMetric(m: Metric): PromFamily {
    PromFamily(m.name, Family(m.bounds, m.scopes))
  }

  ghost function LimitRule(bs: BudgetTable, r: PromRule, m: Metric): (BudgetTable, Metric)
    requires Usable(r)
  {
    if m.name != r.metric then (bs, m)
    else
      var (b, scopes) := LimitScopes(BudgetOf(bs, r), r, m.scopes);
      (bs[BudgetName(r) := b], m.(scopes := scopes))
  }

  /** The rules one after the other, on a table of budgets they may share. */
  ghost function LimitRules(bs: BudgetTable, rules: seq<PromRule>, m: Metric): (BudgetTable, Metric)
    requires AllUsable(rules)
  {
    if rules == [] then (bs, m)
    else var (bs1, m1) := LimitRules(bs, rules[..|rules| - 1], m); LimitRule(bs1, rules[|rules| - 1], m1)
  }

  ghost function LimitMetrics(bs: BudgetTable, rules: seq<PromRule>, ms: seq<Metric>): (r: (BudgetTable, seq<Metric>))
    requires AllUsable(rules)
    ensures |r.1| == |ms|
  {
    if ms == [] then (bs, [])
    else
      var (bs1, before) := LimitMetrics(bs, rules, ms[..|ms| - 1]);
      var (bs2, last) := LimitRules(bs1, rules, ms[|ms| - 1]);
      (bs2, before + [last])
  }

  /** What a metric looks like on the way: regular points in scopes told apart by their labels. */
  ghost predicate WellFormed(m: Metric) {
    AllRegular(m.bounds, m.scopes) && ScopesApart(m.scopes)
  }

  /** A rule for this metric caps an attribute, and what it leaves alone has a point per set. */
  ghost predicate RuleFits(r: PromRule, m: Metric) {
    r.metric == m.name ==> !IsScopeLabel(r.label_) && forall i :: 0 <= i < |m.scopes| ==> Mergeable(r, m.scopes[i])
  }

  ghost predicate RulesFit(rules: seq<PromRule>, m: Metric) {
    forall r :: r in rules ==> RuleFits(r, m)
  }

  lemma LimitScopeKeepsFit(b: Budget, r: PromRule, q: PromRule, g: ScopePoints)
    requires Mergeable(q, g)
    ensures LimitScope(b, r, g).1.scope == g.scope && Mergeable(q, LimitScope(b, r, g).1)
  {
    if Covers(r, g.scope) {
      SetsOfMerged(WithSets(HistogramData(g.points), RewriteSets(b, r.label_, SetsOf(HistogramData(g.points))).1));
    }
  }

  lemma {:induction false} LimitScopesKeepFit(b: Budget, r: PromRule, q: PromRule, gs: seq<ScopePoints>)
    requires forall i :: 0 <= i < |gs| ==> Mergeable(q, gs[i])
    ensures forall i :: 0 <= i < |gs| ==> LimitScopes(b, r, gs).1[i].scope == gs[i].scope && Mergeable(q, LimitScopes(b, r, gs).1[i])
  {
    if gs != [] {
      LimitScopesKeepFit(b, r, q, gs[..|gs| - 1]);
      LimitScopeKeepsFit(LimitScopes(b, r, gs[..|gs| - 1]).0, r, q, gs[|gs| - 1]);
    }
  }

  lemma {:induction false} LimitScopesKeepScopes(b: Budget, r: PromRule, gs: seq<ScopePoints>)
    ensures forall i :: 0 <= i < |gs| ==> LimitScopes(b, r, gs).1[i].scope == gs[i].scope
  {
    if gs != [] {
      LimitScopesKeepScopes(b, r, gs[..|gs| - 1]);
    }
  }

  lemma LimitRuleKeepsFit(bs: BudgetTable, r: PromRule, q: PromRule, m: Metric)
    requires Usable(r) && RuleFits(q, m)
    ensures RuleFits(q, LimitRule(bs, r, m).1)
  {
    if m.name == r.metric && q.metric == m.name {
      LimitScopesKeepFit(BudgetOf(bs, r), r, q, m.scopes);
    }
  }

  lemma {:induction false} LimitRulesKeepFit(bs: BudgetTable, rules: seq<PromRule>, q: PromRule, m: Metric)
    requires AllUsable(rules) && RuleFits(q, m)
    ensures RuleFits(q, LimitRules(bs, rules, m).1)
  {
    if rules != [] {
      LimitRulesKeepFit(bs, rules[..|rules| - 1], q, m);
      var (bs1, m1) := LimitRules(bs, rules[..|rules| - 1], m);
      LimitRuleKeepsFit(bs1, rules[|rules| - 1], q, m1);
    }
  }

  lemma RuleAgrees(bs: BudgetTable, r: PromRule, m: Metric)
    requires Usable(r) && WellFormed(m) && RuleFits(r, m) && r.metric == m.name
    ensures var (bs', m') := LimitRule(bs, r, m);
            && WellFormed(m') && m'.name == m.name
            && ApplyRule(bs, r, RenderMetric(m).series) == (bs', RenderMetric(m').series)
  {
    OneRuleAgrees(BudgetOf(bs, r), r, m.bounds, m.scopes);
    LimitScopesKeepScopes(BudgetOf(bs, r), r, m.scopes);
  }

  lemma {:induction false} RulesAgree(bs: BudgetTable, rules: seq<PromRule>, m: Metric)
    requires AllUsable(rules) && WellFormed(m) && RulesFit(rules, m)
    ensures var (bs', m') := LimitRules(bs, rules, m);
            && WellFormed(m') && m'.name == m.name
            && ApplyRules(bs, rules, RenderMetric(m)) == (bs', RenderMetric(m'))
  {
    if rules != [] {
      var before, r := rules[..|rules| - 1], rules[|rules| - 1];
      RulesAgree(bs, before, m);
      LimitRulesKeepFit(bs, before, r, m);
      var (bs1, m1) := LimitRules(bs, before, m);
      if r.metric == m1.name {
        RuleAgrees(bs1, r, m1);
      }
    }
  }

  ghost predicate AllFit(rules: seq<PromRule>, ms: seq<Metric>) {
    forall i :: 0 <= i < |ms| ==> WellFormed(ms[i]) && RulesFit(rules, ms[i])
  }

  ghost function RenderMetrics(ms: seq<Metric>): seq<PromFamily> {
    MapSeq(ms, RenderMetric)
  }

  /** Any rules, sharing budgets or not, on any metrics: the Prometheus limiter makes of the rendered
      families what the OTLP merges, applied rule by rule on the same table of budgets, render to,
      down to every cumulative bucket and every budget left behind. */
  lemma {:induction false} LimitersAgree(bs: BudgetTable, rules: seq<PromRule>, ms: seq<Metric>)
    requires AllUsable(rules) && AllFit(rules, ms)
    ensures var (bs', out) := LimitMetrics(bs, rules, ms);
            && (forall i :: 0 <= i < |out| ==> WellFormed(out[i]))
            && RewriteFamilies(bs, rules, RenderMetrics(ms)) == (bs', RenderMetrics(out))
  {
    if ms != [] {
      var before, m := ms[..|ms| - 1], ms[|ms| - 1];
      LimitersAgree(bs, rules, before);
      RulesAgree(LimitMetrics(bs, rules, before).0, rules, m);
      MapOneMore(before, m, RenderMetric);
      assert ms == before + [m];
      var (bs1, out) := LimitMetrics(bs, rules, before);
      MapOneMore(out, LimitRules(bs1, rules, m).1, RenderMetric);
      FamiliesOneMore(bs, rules, RenderMetrics(before), RenderMetric(m));
    }
  }

  lemma FamiliesOneMore(bs: BudgetTable, rules: seq<PromRule>, fs: seq<PromFamily>, f: PromFamily)
    requires AllUsable(rules)
    ensures var (bs1, before) := RewriteFamilies(bs, rules, fs);
            var (bs2, last) := ApplyRules(bs1, rules, f);
            RewriteFamilies(bs, rules, fs + [f]) == (bs2, before + [last])
  {
    assert (fs + [f])[..|fs|] == fs;
  }

  // ---- Merged histograms stay well formed

  /** Every sample is in a bucket. */
  predicate Counted(h: Histogram) {
    h.count == PrefixSum(h.counts, |h.counts|)
  }

  /** Cumulative counts rise with the bound and, with the samples beyond the last
      bound, end at the sample count. */
  ghost predicate RisesToTotal(s: Series, beyond: nat) {
    && s.histogram.Some?
    && (forall i, j :: 0 <= i <= j < |s.histogram.value.buckets| ==>
          s.histogram.value.buckets[i].count <= s.histogram.value.buckets[j].count)
    && (s.histogram.value.buckets != [] ==>
          s.histogram.value.buckets[|s.histogram.value.buckets| - 1].count + beyond == s.histogram.value.samples)
  }

  lemma RenderedRises(bounds: seq<real>, scope: Labels, h: Histogram)
    requires Regular(bounds, h) && Counted(h)
    ensures RisesToTotal(Rendered(bounds, scope, h), h.counts[|bounds|])
  {
    var bs := Cumulative(bounds, h.counts);
    forall i, j | 0 <= i <= j < |bs|
      ensures bs[i].count <= bs[j].count
    {
      PrefixSumGrows(h.counts, i + 1, j + 1);
    }
  }

  function IsCounted(bounds: seq<real>): Histogram -> bool {
    (h: Histogram) => Regular(bounds, h) && Counted(h)
  }

  lemma MergeKeepsCounted(bounds: seq<real>)
    ensures KeepsKeys(AttrsOfHistogram, MergeHistogram, IsCounted(bounds))
  {
    forall d: Histogram, s: Histogram | Regular(bounds, d) && Counted(d) && Regular(bounds, s) && Counted(s)
      ensures Regular(bounds, MergeHistogram(d, s)) && Counted(MergeHistogram(d, s))
    {
      OnePairIsCarried(bounds, map[SCOPE_LABEL := ""], d, s);
      PrefixSumsAdd(d.counts, s.counts, AddCounts(d.counts, s.counts), |bounds| + 1);
    }
  }

  ghost predicate AllCounted(gs: seq<ScopePoints>) {
    forall i :: 0 <= i < |gs| ==> forall h :: h in gs[i].points ==> Counted(h)
  }

  lemma ScopeStaysCounted(b: Budget, r: PromRule, bounds: seq<real>, g: ScopePoints)
    requires !IsScopeLabel(r.label_) && NamesScope(g.scope) && RegularScope(bounds, g) && forall h :: h in g.points ==> Counted(h)
    ensures forall h :: h in LimitScope(b, r, g).1.points ==> Counted(h)
  {
    if Covers(r, g.scope) {
      SameDecisions(b, r, bounds, g.scope, g.points);
      var points := WithAttrsH(g.points, RewriteSets(b, r.label_, SetsOf(HistogramData(g.points))).1);
      MergeKeepsCounted(bounds);
      MergedKeys(points, AttrsOfHistogram, MergeHistogram, IsCounted(bounds));
    }
  }

  lemma {:induction false} ScopesStayCounted(b: Budget, r: PromRule, bounds: seq<real>, gs: seq<ScopePoints>)
    requires !IsScopeLabel(r.label_) && AllRegular(bounds, gs) && AllCounted(gs)
    ensures AllCounted(LimitScopes(b, r, gs).1)
  {
    if gs != [] {
      ScopesStayCounted(b, r, bounds, gs[..|gs| - 1]);
      ScopeStaysCounted(LimitScopes(b, r, gs[..|gs| - 1]).0, r, bounds, gs[|gs| - 1]);
    }
  }

  lemma {:induction false} MetricStaysCounted(bs: BudgetTable, rules: seq<PromRule>, m: Metric)
    requires AllUsable(rules) && WellFormed(m) && RulesFit(rules, m) && AllCounted(m.scopes)
    ensures AllCounted(LimitRules(bs, rules, m).1.scopes)
  {
    if rules != [] {
      var before, r := rules[..|rules| - 1], rules[|rules| - 1];
      RulesAgree(bs, before, m);
      LimitRulesKeepFit(bs, before, r, m);
      MetricStaysCounted(bs, before, m);
      var (bs1, m1) := LimitRules(bs, before, m);
      if r.metric == m1.name {
        ScopesStayCounted(BudgetOf(bs1, r), r, m1.bounds, m1.scopes);
      }
    }
  }

  lemma {:induction false} MetricsStayCounted(bs: BudgetTable, rules: seq<PromRule>, ms: seq<Metric>)
    requires AllUsable(rules) && AllFit(rules, ms) && forall i :: 0 <= i < |ms| ==> AllCounted(ms[i].scopes)
    ensures forall i :: 0 <= i < |ms| ==> AllCounted(LimitMetrics(bs, rules, ms).1[i].scopes)
  {
    if ms != [] {
      MetricsStayCounted(bs, rules, ms[..|ms| - 1]);
      MetricStaysCounted(LimitMetrics(bs, rules, ms[..|ms| - 1]).0, rules, ms[|ms| - 1]);
    }
  }

  /** Every series of the rewritten families is the rendering of a merged point; its buckets rise and,
      with exactly what that point counts beyond the last bound, end at the merged sample count. */
  lemma MergedSeriesRise(bs: BudgetTable, rules: seq<PromRule>, ms: seq<Metric>)
    requires AllUsable(rules) && AllFit(rules, ms) && forall i :: 0 <= i < |ms| ==> AllCounted(ms[i].scopes)
    ensures var out := LimitMetrics(bs, rules, ms).1;
            && RewriteFamilies(bs, rules, RenderMetrics(ms)).1 == RenderMetrics(out)
            && forall i, j, h :: 0 <= i < |out| && 0 <= j < |out[i].scopes| && h in out[i].scopes[j].points ==>
                 && |h.counts| == |out[i].bounds| + 1
                 && RisesToTotal(Rendered(out[i].bounds, out[i].scopes[j].scope, h), h.counts[|out[i].bounds|])
  {
    LimitersAgree(bs, rules, ms);
    MetricsStayCounted(bs, rules, ms);
    var out := LimitMetrics(bs, rules, ms).1;
    forall i, j, h | 0 <= i < |out| && 0 <= j < |out[i].scopes| && h in out[i].scopes[j].points
      ensures |h.counts| == |out[i].bounds| + 1
      ensures RisesToTotal(Rendered(out[i].bounds, out[i].scopes[j].scope, h), h.counts[|out[i].bounds|])
    {
      assert AllCounted(out[i].scopes) && RegularScope(out[i].bounds, out[i].scopes[j]);
      RenderedRises(out[i].bounds, out[i].scopes[j].scope, h);
    }
  }

  // ---- The other value kinds

  lemma {:induction false} RewriteLabelsKeepsValues(b: Budget, r: PromRule, ss: seq<Series>)
    ensures var rewritten := RewriteLabels(b, r, ss).1;
            forall i :: 0 <= i < |ss| ==> rewritten[i] == ss[i].(labels := rewritten[i].labels)
  {
    if ss != [] {
      RewriteLabelsKeepsValues(b, r, ss[..|ss| - 1]);
    }
  }

  function CounterOf(s: Series): real { if s.counter.Some? then s.counter.value else 0.0 }
  function UntypedOf(s: Series): real { if s.untyped.Some? then s.untyped.value else 0.0 }

  /** A family of counters, or of untyped values, keeps its total. */
  lemma CounterTotalsAreConserved(b: Budget, r: PromRule, ss: seq<Series>)
    ensures (forall s :: s in ss ==> s.counter.Some?) ==>
              Total(RewriteFamily(b, r, ss).1, CounterOf) == Total(ss, CounterOf)
    ensures (forall s :: s in ss ==> s.untyped.Some?) ==>
              Total(RewriteFamily(b, r, ss).1, UntypedOf) == Total(ss, UntypedOf)
  {
    var rewritten := RewriteLabels(b, r, ss).1;
    RewriteLabelsKeepsValues(b, r, ss);
    TotalsAgree(ss, rewritten, CounterOf);
    TotalsAgree(ss, rewritten, UntypedOf);
    if forall s :: s in ss ==> s.counter.Some? {
      MergedConserves(rewritten, LabelsOf, MergeSeries, (s: Series) => s.counter.Some?, CounterOf);
    }
    if forall s :: s in ss ==> s.untyped.Some? {
      MergedConserves(rewritten, LabelsOf, MergeSeries, (s: Series) => s.untyped.Some?, UntypedOf);
    }
  }

  /** Of several gauge or summary series the last stands, with its own timestamp. */
  lemma {:induction false} CombinedGaugeSeries(g: seq<Series>)
    requires |g| > 0
    ensures var c, last := Combined(g, MergeSeries), g[|g| - 1];
            && c.labels == g[0].labels
            && (last.gauge.Some? ==> c.gauge == last.gauge && c.timestamp == last.timestamp)
            && (last.summary.Some? ==> c.summary == last.summary && c.timestamp == last.timestamp)
  {
    if |g| > 1 {
      CombinedGaugeSeries(g[..|g| - 1]);
    }
  }
}
