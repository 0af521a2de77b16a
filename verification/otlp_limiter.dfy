/** The OTLP cardinality limiter: rules, shared budgets, and Rewrite (internal/metricscap/reader.go). */
module OtlpLimiter {
  import opened Budgets
  import opened PointMerge
  import opened OtlpPoints

  datatype Rule = Rule(instrument: string, key: string, max: int, scope: string, budgetKey: string)

  datatype Metric = Metric(name: string, data: Data)
  datatype ScopeMetrics = ScopeMetrics(scope: string, metrics: seq<Metric>)

  predicate Usable(r: Rule) {
    r.instrument != "" && r.key != "" && r.max > 0
  }

  predicate Applies(r: Rule, scope: string, name: string) {
    r.instrument == name && (r.scope == "" || r.scope == scope)
  }

  /** The name of the budget a rule draws on. */
  function BudgetName(r: Rule): string {
    if r.budgetKey != "" then r.budgetKey else r.scope + "\0" + r.instrument + "\0" + r.key
  }

  function BudgetOf(bs: BudgetTable, r: Rule): Budget
    requires Usable(r)
  {
    if BudgetName(r) in bs then bs[BudgetName(r)] else Budget(r.max, {})
  }

  ghost predicate AllUsable(rules: seq<Rule>) {
    forall r :: r in rules ==> Usable(r)
  }

  /** The rules that can cap anything, in the order given. */
  function UsableOnly(rules: seq<Rule>): (out: seq<Rule>)
    ensures forall r :: r in out <==> r in rules && r.instrument != "" && r.key != "" && r.max > 0
  {
    if rules == [] then []
    else
      var last := rules[|rules| - 1];
      UsableOnly(rules[..|rules| - 1]) + if Usable(last) then [last] else []
  }

  // ---- What Rewrite computes

  ghost function ApplyRule(bs: BudgetTable, r: Rule, d: Data): (BudgetTable, Data)
    requires Usable(r)
  {
    var (b, d') := RewriteData(BudgetOf(bs, r), r.key, d);
    (bs[BudgetName(r) := b], d')
  }

  /** The rules that match one metric, applied in order. */
  ghost function ApplyRules(bs: BudgetTable, rules: seq<Rule>, scope: string, m: Metric): (BudgetTable, Metric)
    requires AllUsable(rules)
  {
    if rules == [] then (bs, m)
    else
      var (bs1, m1) := ApplyRules(bs, rules[..|rules| - 1], scope, m);
      var r := rules[|rules| - 1];
      if !Applies(r, scope, m1.name) then (bs1, m1)
      else var (bs2, d) := ApplyRule(bs1, r, m1.data); (bs2, m1.(data := d))
  }

  ghost function RewriteMetrics(bs: BudgetTable, rules: seq<Rule>, scope: string, ms: seq<Metric>): (r: (BudgetTable, seq<Metric>))
    requires AllUsable(rules)
    ensures |r.1| == |ms|
  {
    if ms == [] then (bs, [])
    else
      var (bs1, before) := RewriteMetrics(bs, rules, scope, ms[..|ms| - 1]);
      var (bs2, last) := ApplyRules(bs1, rules, scope, ms[|ms| - 1]);
      (bs2, before + [last])
  }

  ghost function RewriteScopes(bs: BudgetTable, rules: seq<Rule>, ss: seq<ScopeMetrics>): (r: (BudgetTable, seq<ScopeMetrics>))
    requires AllUsable(rules)
    ensures |r.1| == |ss|
  {
    if ss == [] then (bs, [])
    else
      var (bs1, before) := RewriteScopes(bs, rules, ss[..|ss| - 1]);
      var s := ss[|ss| - 1];
      var (bs2, ms) := RewriteMetrics(bs1, rules, s.scope, s.metrics);
      (bs2, before + [ScopeMetrics(s.scope, ms)])
  }

  // ---- Budgets only grow

  lemma ApplyRuleGrows(bs: BudgetTable, r: Rule, d: Data)
    requires Sound(bs) && Usable(r)
    ensures Sound(ApplyRule(bs, r, d).0) && AllGrow(bs, ApplyRule(bs, r, d).0)
    ensures BudgetName(r) in ApplyRule(bs, r, d).0
  {
    RewriteIsAQuotient(BudgetOf(bs, r), r.key, d);
  }

  lemma {:induction false} ApplyRulesGrow(bs: BudgetTable, rules: seq<Rule>, scope: string, m: Metric)
    requires Sound(bs) && AllUsable(rules)
    ensures var (bs', m') := ApplyRules(bs, rules, scope, m);
            Sound(bs') && AllGrow(bs, bs') && m'.name == m.name
  {
    if rules != [] {
      var before, r := rules[..|rules| - 1], rules[|rules| - 1];
      ApplyRulesGrow(bs, before, scope, m);
      var (bs1, m1) := ApplyRules(bs, before, scope, m);
      if Applies(r, scope, m1.name) {
        ApplyRuleGrows(bs1, r, m1.data);
      }
    }
  }

  // ---- A second Rewrite changes nothing

  /** A set already carries the label the budget named `name` gives it. */
  ghost predicate SetSettled(bs: BudgetTable, name: string, key: string, a: Attrs) {
    key in a ==> a[key] == Str(OVERFLOW) || (name in bs && AsString(a[key]) in bs[name].seen)
  }

  /** Under rule r every point of d already carries the label its budget gives it. */
  ghost predicate Settled(bs: BudgetTable, r: Rule, d: Data) {
    forall a :: a in SetsOf(d) ==> SetSettled(bs, BudgetName(r), r.key, a)
  }

  ghost predicate SettledForAll(bs: BudgetTable, rules: seq<Rule>, scope: string, m: Metric) {
    && (forall r :: r in rules && Applies(r, scope, m.name) ==> Settled(bs, r, m.data))
    && ((exists r :: r in rules && Applies(r, scope, m.name)) ==> Distinct(SetsOf(m.data)))
  }

  lemma SettledStays(bs: BudgetTable, bs': BudgetTable, rules: seq<Rule>, scope: string, m: Metric)
    requires SettledForAll(bs, rules, scope, m) && AllGrow(bs, bs')
    ensures SettledForAll(bs', rules, scope, m)
  {
    forall r | r in rules && Applies(r, scope, m.name)
      ensures Settled(bs', r, m.data)
    {
      assert Settled(bs, r, m.data);
    }
  }

  /** Every set a rule leaves behind is the relabelling of one that was there. */
  lemma SetsAfterRule(b: Budget, key: string, d: Data, a: Attrs) returns (o: Attrs)
    requires |b.seen| <= b.max && a in SetsOf(RewriteData(b, key, d).1)
    ensures o in SetsOf(d) && a == Relabel(RewriteData(b, key, d).0, key, o)
    ensures SetDecided(RewriteData(b, key, d).0, key, o)
  {
    RewritingIsRelabelling(b, key, SetsOf(d));
    RewriteIsAQuotient(b, key, d);
    var (b', d') := RewriteData(b, key, d);
    assert a in SetsOf(RelabelAll(b', key, d));
    SetsOfRelabelled(b', key, d);
    var i :| 0 <= i < |SetsOf(d)| && SetsOf(RelabelAll(b', key, d))[i] == a;
    o := SetsOf(d)[i];
  }

  /** One set through one rule: that rule is settled, and others stay settled. */
  lemma RelabelSettles(bs: BudgetTable, bs': BudgetTable, r: Rule, q: Rule, o: Attrs)
    requires AllGrow(bs, bs') && BudgetName(r) in bs'
    requires SetDecided(bs'[BudgetName(r)], r.key, o)
    requires q == r || SetSettled(bs, BudgetName(q), q.key, o)
    ensures SetSettled(bs', BudgetName(q), q.key, Relabel(bs'[BudgetName(r)], r.key, o))
  {
  }

  /** Applying a rule settles it, and leaves the rules already settled that way. */
  lemma ApplyRuleSettles(bs: BudgetTable, r: Rule, d: Data, q: Rule)
    requires Sound(bs) && Usable(r) && (q == r || Settled(bs, q, d))
    ensures Settled(ApplyRule(bs, r, d).0, q, ApplyRule(bs, r, d).1)
    ensures Distinct(SetsOf(ApplyRule(bs, r, d).1))
  {
    var b := BudgetOf(bs, r);
    ApplyRuleGrows(bs, r, d);
    RewriteIsAQuotient(b, r.key, d);
    var (bs', d') := ApplyRule(bs, r, d);
    forall a | a in SetsOf(d')
      ensures SetSettled(bs', BudgetName(q), q.key, a)
    {
      var o := SetsAfterRule(b, r.key, d, a);
      RelabelSettles(bs, bs', r, q, o);
    }
  }

  lemma SetsOfRelabelled(b: Budget, key: string, d: Data)
    ensures SetsOf(RelabelAll(b, key, d)) == MapSeq(SetsOf(d), (a: Attrs) => Relabel(b, key, a))
  {
    var sets := MapSeq(SetsOf(d), (a: Attrs) => Relabel(b, key, a));
    SetsOfWithSets(d, sets);
  }

  lemma SetsOfWithSets(d: Data, sets: seq<Attrs>)
    requires |sets| == |SetsOf(d)|
    ensures SetsOf(WithSets(d, sets)) == sets
  {
    match d
    case HistogramData(hs) => assert forall i :: 0 <= i < |hs| ==> WithAttrsH(hs, sets)[i].attrs == sets[i];
    case SumData(ns) => assert forall i :: 0 <= i < |ns| ==> WithAttrsN(ns, sets)[i].attrs == sets[i];
    case GaugeData(ns) => assert forall i :: 0 <= i < |ns| ==> WithAttrsN(ns, sets)[i].attrs == sets[i];
    case OtherData =>
  }

  lemma {:induction false} ApplyRulesSettle(bs: BudgetTable, rules: seq<Rule>, scope: string, m: Metric)
    requires Sound(bs) && AllUsable(rules)
    ensures var (bs', m') := ApplyRules(bs, rules, scope, m);
            SettledForAll(bs', rules, scope, m')
  {
    if rules != [] {
      var before, r := rules[..|rules| - 1], rules[|rules| - 1];
      assert rules == before + [r];
      ApplyRulesSettle(bs, before, scope, m);
      ApplyRulesGrow(bs, before, scope, m);
      var (bs1, m1) := ApplyRules(bs, before, scope, m);
      if Applies(r, scope, m1.name) {
        forall q | q in rules && Applies(q, scope, m1.name)
          ensures Settled(ApplyRule(bs1, r, m1.data).0, q, ApplyRule(bs1, r, m1.data).1)
        {
          ApplyRuleSettles(bs1, r, m1.data, q);
        }
        ApplyRuleSettles(bs1, r, m1.data, r);
      }
    }
  }

  /** A settled metric goes through a rule unchanged. */
  lemma SettledIsUnchanged(bs: BudgetTable, r: Rule, d: Data)
    requires Sound(bs) && Usable(r) && Settled(bs, r, d) && Distinct(SetsOf(d))
    ensures ApplyRule(bs, r, d).1 == d
  {
    var b := BudgetOf(bs, r);
    var sets := SetsOf(d);
    SetsUnchanged(b, r.key, sets);
    assert WithSets(d, sets) == d by {
      match d
      case HistogramData(hs) => assert WithAttrsH(hs, sets) == hs;
      case SumData(ns) => assert WithAttrsN(ns, sets) == ns;
      case GaugeData(ns) => assert WithAttrsN(ns, sets) == ns;
      case OtherData =>
    }
    match d
    case HistogramData(hs) => MergedOfDistinct(hs, AttrsOfHistogram, MergeHistogram);
    case SumData(ns) => MergedOfDistinct(ns, AttrsOfNumber, MergeSum);
    case GaugeData(ns) => MergedOfDistinct(ns, AttrsOfNumber, MergeGauge);
    case OtherData =>
  }

  lemma {:induction false} SetsUnchanged(b: Budget, key: string, sets: seq<Attrs>)
    requires forall a :: a in sets ==> (key in a ==> a[key] == Str(OVERFLOW) || AsString(a[key]) in b.seen)
    ensures RewriteSets(b, key, sets).1 == sets && b.seen <= RewriteSets(b, key, sets).0.seen
  {
    if sets != [] {
      var before, last := sets[..|sets| - 1], sets[|sets| - 1];
      assert sets == before + [last];
      SetsUnchanged(b, key, before);
    }
  }

  lemma {:induction false} SettledMetricIsUnchanged(bs: BudgetTable, rules: seq<Rule>, scope: string, m: Metric)
    requires Sound(bs) && AllUsable(rules) && SettledForAll(bs, rules, scope, m)
    ensures ApplyRules(bs, rules, scope, m).1 == m
  {
    if rules != [] {
      var before, r := rules[..|rules| - 1], rules[|rules| - 1];
      assert rules == before + [r];
      SettledMetricIsUnchanged(bs, before, scope, m);
      ApplyRulesGrow(bs, before, scope, m);
      var bs1 := ApplyRules(bs, before, scope, m).0;
      SettledStays(bs, bs1, rules, scope, m);
      if Applies(r, scope, m.name) {
        SettledIsUnchanged(bs1, r, m.data);
      }
    }
  }

  ghost predicate MetricsSettled(bs: BudgetTable, rules: seq<Rule>, scope: string, ms: seq<Metric>) {
    forall i :: 0 <= i < |ms| ==> SettledForAll(bs, rules, scope, ms[i])
  }

  lemma {:induction false} RewriteMetricsSettles(bs: BudgetTable, rules: seq<Rule>, scope: string, ms: seq<Metric>)
    requires Sound(bs) && AllUsable(rules)
    ensures var (bs', ms') := RewriteMetrics(bs, rules, scope, ms);
            Sound(bs') && AllGrow(bs, bs') && MetricsSettled(bs', rules, scope, ms')
  {
    if ms != [] {
      var before, last := ms[..|ms| - 1], ms[|ms| - 1];
      RewriteMetricsSettles(bs, rules, scope, before);
      var (bs1, before') := RewriteMetrics(bs, rules, scope, before);
      ApplyRulesGrow(bs1, rules, scope, last);
      ApplyRulesSettle(bs1, rules, scope, last);
      var bs2 := ApplyRules(bs1, rules, scope, last).0;
      forall i | 0 <= i < |before'|
        ensures SettledForAll(bs2, rules, scope, before'[i])
      {
        SettledStays(bs1, bs2, rules, scope, before'[i]);
      }
    }
  }

  lemma {:induction false} SettledMetricsAreUnchanged(bs: BudgetTable, rules: seq<Rule>, scope: string, ms: seq<Metric>)
    requires Sound(bs) && AllUsable(rules) && MetricsSettled(bs, rules, scope, ms)
    ensures RewriteMetrics(bs, rules, scope, ms).1 == ms
  {
    if ms != [] {
      var before, last := ms[..|ms| - 1], ms[|ms| - 1];
      SettledMetricsAreUnchanged(bs, rules, scope, before);
      RewriteMetricsSettles(bs, rules, scope, before);
      var bs1 := RewriteMetrics(bs, rules, scope, before).0;
      SettledStays(bs, bs1, rules, scope, last);
      SettledMetricIsUnchanged(bs1, rules, scope, last);
    }
  }

  ghost predicate ScopesSettled(bs: BudgetTable, rules: seq<Rule>, ss: seq<ScopeMetrics>) {
    forall i :: 0 <= i < |ss| ==> MetricsSettled(bs, rules, ss[i].scope, ss[i].metrics)
  }

  lemma {:induction false} RewriteScopesSettles(bs: BudgetTable, rules: seq<Rule>, ss: seq<ScopeMetrics>)
    requires Sound(bs) && AllUsable(rules)
    ensures var (bs', ss') := RewriteScopes(bs, rules, ss);
            Sound(bs') && AllGrow(bs, bs') && ScopesSettled(bs', rules, ss')
  {
    if ss != [] {
      var before, s := ss[..|ss| - 1], ss[|ss| - 1];
      RewriteScopesSettles(bs, rules, before);
      var (bs1, before') := RewriteScopes(bs, rules, before);
      RewriteMetricsSettles(bs1, rules, s.scope, s.metrics);
      var bs2 := RewriteMetrics(bs1, rules, s.scope, s.metrics).0;
      forall i, j | 0 <= i < |before'| && 0 <= j < |before'[i].metrics|
        ensures SettledForAll(bs2, rules, before'[i].scope, before'[i].metrics[j])
      {
        assert MetricsSettled(bs1, rules, before'[i].scope, before'[i].metrics);
        SettledStays(bs1, bs2, rules, before'[i].scope, before'[i].metrics[j]);
      }
    }
  }

  lemma {:induction false} SettledScopesAreUnchanged(bs: BudgetTable, rules: seq<Rule>, ss: seq<ScopeMetrics>)
    requires Sound(bs) && AllUsable(rules) && ScopesSettled(bs, rules, ss)
    ensures RewriteScopes(bs, rules, ss).1 == ss
  {
    if ss != [] {
      var before, s := ss[..|ss| - 1], ss[|ss| - 1];
      SettledScopesAreUnchanged(bs, rules, before);
      RewriteScopesSettles(bs, rules, before);
      var bs1 := RewriteScopes(bs, rules, before).0;
      MetricsStaySettled(bs, bs1, rules, s.scope, s.metrics);
      SettledMetricsAreUnchanged(bs1, rules, s.scope, s.metrics);
      ScopesUnchangedSoFar(bs, rules, ss, before);
    }
  }

  lemma ScopesUnchangedSoFar(bs: BudgetTable, rules: seq<Rule>, ss: seq<ScopeMetrics>, before: seq<ScopeMetrics>)
    requires AllUsable(rules) && ss != [] && before == ss[..|ss| - 1] && RewriteScopes(bs, rules, before).1 == before
    requires var s := ss[|ss| - 1];
             RewriteMetrics(RewriteScopes(bs, rules, before).0, rules, s.scope, s.metrics).1 == s.metrics
    ensures RewriteScopes(bs, rules, ss).1 == ss
  {
    assert ss == before + [ss[|ss| - 1]];
  }

  lemma MetricsStaySettled(bs: BudgetTable, bs': BudgetTable, rules: seq<Rule>, scope: string, ms: seq<Metric>)
    requires Sound(bs) && Sound(bs') && AllGrow(bs, bs') && AllUsable(rules) && MetricsSettled(bs, rules, scope, ms)
    ensures MetricsSettled(bs', rules, scope, ms)
  {
    forall j | 0 <= j < |ms|
      ensures SettledForAll(bs', rules, scope, ms[j])
    {
      SettledStays(bs, bs', rules, scope, ms[j]);
    }
  }

  /** Whatever several rules, scopes and shared budgets did on a first Rewrite, and
      whatever the budgets admitted since, rewriting the result again changes nothing. */
  lemma RewriteIsIdempotent(bs: BudgetTable, rules: seq<Rule>, ss: seq<ScopeMetrics>, later: BudgetTable)
    requires Sound(bs) && AllUsable(rules)
    requires Sound(later) && AllGrow(RewriteScopes(bs, rules, ss).0, later)
    ensures RewriteScopes(later, rules, RewriteScopes(bs, rules, ss).1).1 == RewriteScopes(bs, rules, ss).1
  {
    RewriteScopesSettles(bs, rules, ss);
    var (bs1, out) := RewriteScopes(bs, rules, ss);
    forall i, j | 0 <= i < |out| && 0 <= j < |out[i].metrics|
      ensures SettledForAll(later, rules, out[i].scope, out[i].metrics[j])
    {
      assert MetricsSettled(bs1, rules, out[i].scope, out[i].metrics);
      SettledStays(bs1, later, rules, out[i].scope, out[i].metrics[j]);
    }
    SettledScopesAreUnchanged(later, rules, out);
  }

  // ---- What a whole Rewrite does to the labels

  /** The rules a metric is rewritten by. */
  function RulesFor(rules: seq<Rule>, scope: string, name: string): seq<Rule> {
    if rules == [] then []
    else
      var before, r := RulesFor(rules[..|rules| - 1], scope, name), rules[|rules| - 1];
      if Applies(r, scope, name) then before + [r] else before
  }

  /** One stage: the data relabelled by the budget of r, as the table has it, and merged. */
  ghost function Stage(bs: BudgetTable, r: Rule, d: Data): Data {
    if BudgetName(r) in bs then MergedData(RelabelAll(bs[BudgetName(r)], r.key, d)) else d
  }

  /** The stages of several rules, one after the other, all under one table. */
  ghost function Staged(bs: BudgetTable, rs: seq<Rule>, d: Data): Data {
    if rs == [] then d else Stage(bs, rs[|rs| - 1], Staged(bs, rs[..|rs| - 1], d))
  }

  /** The budget of r has decided on every value it meets in the data. */
  ghost predicate StageDecided(bs: BudgetTable, r: Rule, d: Data) {
    BudgetName(r) in bs && forall a :: a in SetsOf(d) ==> SetDecided(bs[BudgetName(r)], r.key, a)
  }

  ghost predicate AllDecided(bs: BudgetTable, rs: seq<Rule>, d: Data) {
    rs != [] ==> AllDecided(bs, rs[..|rs| - 1], d) && StageDecided(bs, rs[|rs| - 1], Staged(bs, rs[..|rs| - 1], d))
  }

  lemma DecidedLabelStays(b: Budget, b': Budget, key: string, a: Attrs)
    requires Grows(b, b') && SetDecided(b, key, a)
    ensures Relabel(b', key, a) == Relabel(b, key, a) && SetDecided(b', key, a)
  {
  }

  lemma StageStays(bs: BudgetTable, bs': BudgetTable, r: Rule, d: Data)
    requires StageDecided(bs, r, d) && AllGrow(bs, bs')
    ensures StageDecided(bs', r, d) && Stage(bs', r, d) == Stage(bs, r, d)
  {
    var b, b' := bs[BudgetName(r)], bs'[BudgetName(r)];
    forall a | a in SetsOf(d)
      ensures Relabel(b', r.key, a) == Relabel(b, r.key, a) && SetDecided(b', r.key, a)
    {
      DecidedLabelStays(b, b', r.key, a);
    }
    RelabelledAlike(b, b', r.key, d);
  }

  lemma RelabelledAlike(b: Budget, b': Budget, key: string, d: Data)
    requires forall a :: a in SetsOf(d) ==> Relabel(b', key, a) == Relabel(b, key, a)
    ensures RelabelAll(b', key, d) == RelabelAll(b, key, d)
  {
    var sets, sets' := MapSeq(SetsOf(d), (a: Attrs) => Relabel(b, key, a)), MapSeq(SetsOf(d), (a: Attrs) => Relabel(b', key, a));
    assert sets == sets';
  }

  lemma {:induction false} StagesStay(bs: BudgetTable, bs': BudgetTable, rs: seq<Rule>, d: Data)
    requires AllDecided(bs, rs, d) && AllGrow(bs, bs')
    ensures AllDecided(bs', rs, d) && Staged(bs', rs, d) == Staged(bs, rs, d)
  {
    if rs != [] {
      StagesStay(bs, bs', rs[..|rs| - 1], d);
      StageStays(bs, bs', rs[|rs| - 1], Staged(bs, rs[..|rs| - 1], d));
    }
  }

  lemma ApplyRuleIsAStage(bs: BudgetTable, r: Rule, d: Data)
    requires Sound(bs) && Usable(r)
    ensures var (bs', d') := ApplyRule(bs, r, d); StageDecided(bs', r, d) && d' == Stage(bs', r, d)
  {
    RewriteIsAQuotient(BudgetOf(bs, r), r.key, d);
    RewritingIsRelabelling(BudgetOf(bs, r), r.key, SetsOf(d));
  }

  lemma StagedOneMore(bs: BudgetTable, rs: seq<Rule>, r: Rule, d: Data)
    ensures Staged(bs, rs + [r], d) == Stage(bs, r, Staged(bs, rs, d))
    ensures AllDecided(bs, rs + [r], d) <==> AllDecided(bs, rs, d) && StageDecided(bs, r, Staged(bs, rs, d))
  {
    assert (rs + [r])[..|rs|] == rs;
  }

  lemma {:induction false} RulesAreStages(bs: BudgetTable, rules: seq<Rule>, scope: string, m: Metric)
    requires Sound(bs) && AllUsable(rules)
    ensures var (bs', m') := ApplyRules(bs, rules, scope, m);
            var rs := RulesFor(rules, scope, m.name);
            AllDecided(bs', rs, m.data) && m'.data == Staged(bs', rs, m.data)
  {
    if rules != [] {
      var before, r := rules[..|rules| - 1], rules[|rules| - 1];
      RulesAreStages(bs, before, scope, m);
      ApplyRulesGrow(bs, before, scope, m);
      var (bs1, m1) := ApplyRules(bs, before, scope, m);
      if Applies(r, scope, m.name) {
        OneMoreRuleIsAStage(bs1, RulesFor(before, scope, m.name), r, m.data, m1.data);
      }
    }
  }

  lemma OneMoreRuleIsAStage(bs: BudgetTable, rs: seq<Rule>, r: Rule, d: Data, d1: Data)
    requires Sound(bs) && Usable(r) && AllDecided(bs, rs, d) && d1 == Staged(bs, rs, d)
    ensures var (bs', d') := ApplyRule(bs, r, d1); AllDecided(bs', rs + [r], d) && d' == Staged(bs', rs + [r], d)
  {
    var bs' := ApplyRule(bs, r, d1).0;
    ApplyRuleGrows(bs, r, d1);
    ApplyRuleIsAStage(bs, r, d1);
    StagesStay(bs, bs', rs, d);
    StagedOneMore(bs', rs, r, d);
  }

  /** A metric comes out under a table as its rules' stages make it. */
  ghost predicate Exported(bs: BudgetTable, rules: seq<Rule>, scope: string, m: Metric, m': Metric) {
    var rs := RulesFor(rules, scope, m.name);
    m'.name == m.name && AllDecided(bs, rs, m.data) && m'.data == Staged(bs, rs, m.data)
  }

  lemma ExportedStays(bs: BudgetTable, bs': BudgetTable, rules: seq<Rule>, scope: string, m: Metric, m': Metric)
    requires Exported(bs, rules, scope, m, m') && AllGrow(bs, bs')
    ensures Exported(bs', rules, scope, m, m')
  {
    StagesStay(bs, bs', RulesFor(rules, scope, m.name), m.data);
  }

  lemma {:induction false} RewriteMetricsExports(bs: BudgetTable, rules: seq<Rule>, scope: string, ms: seq<Metric>, j: nat)
    requires Sound(bs) && AllUsable(rules) && j < |ms|
    ensures var (bs', out) := RewriteMetrics(bs, rules, scope, ms); Exported(bs', rules, scope, ms[j], out[j])
  {
    var before, m := ms[..|ms| - 1], ms[|ms| - 1];
    RewriteMetricsSettles(bs, rules, scope, before);
    var (bs1, out1) := RewriteMetrics(bs, rules, scope, before);
    ApplyRulesGrow(bs1, rules, scope, m);
    if j == |ms| - 1 {
      RulesAreStages(bs1, rules, scope, m);
    } else {
      RewriteMetricsExports(bs, rules, scope, before, j);
      ExportedStays(bs1, ApplyRules(bs1, rules, scope, m).0, rules, scope, ms[j], out1[j]);
    }
  }

  /** Every metric comes out relabelled and merged rule by rule under the budgets as the whole
      Rewrite leaves them, whatever was admitted before and after it. */
  lemma {:induction false} RewriteUsesTheFinalBudgets(bs: BudgetTable, rules: seq<Rule>, ss: seq<ScopeMetrics>, i: nat, j: nat)
    requires Sound(bs) && AllUsable(rules) && i < |ss| && j < |ss[i].metrics|
    ensures var (bs', out) := RewriteScopes(bs, rules, ss);
            && |out[i].metrics| == |ss[i].metrics|
            && Exported(bs', rules, ss[i].scope, ss[i].metrics[j], out[i].metrics[j])
  {
    var before, s := ss[..|ss| - 1], ss[|ss| - 1];
    RewriteScopesSettles(bs, rules, before);
    var (bs1, out1) := RewriteScopes(bs, rules, before);
    if i == |ss| - 1 {
      RewriteMetricsExports(bs1, rules, s.scope, s.metrics, j);
    } else {
      RewriteUsesTheFinalBudgets(bs, rules, before, i, j);
      RewriteMetricsSettles(bs1, rules, s.scope, s.metrics);
      ExportedStays(bs1, RewriteMetrics(bs1, rules, s.scope, s.metrics).0, rules, ss[i].scope, ss[i].metrics[j], out1[i].metrics[j]);
    }
  }

  lemma {:induction false} EarlierStagesDecided(bs: BudgetTable, rs: seq<Rule>, d: Data, n: nat)
    requires AllDecided(bs, rs, d) && n <= |rs|
    ensures AllDecided(bs, rs[..n], d)
  {
    if n == |rs| {
      assert rs[..n] == rs;
    } else {
      EarlierStagesDecided(bs, rs[..|rs| - 1], d, n);
      assert rs[..|rs| - 1][..n] == rs[..n];
    }
  }

  lemma LastStageDecided(bs: BudgetTable, all: seq<Rule>, before: seq<Rule>, r: Rule, d: Data)
    requires all == before + [r] && AllDecided(bs, all, d)
    ensures BudgetName(r) in bs && Staged(bs, all, d) == Stage(bs, r, Staged(bs, before, d))
  {
    StagedOneMore(bs, before, r, d);
  }

  lemma TakeOneMore<T>(xs: seq<T>, n: nat)
    requires n < |xs|
    ensures xs[..n + 1] == xs[..n] + [xs[n]]
  {
  }

  lemma DecidedHasBudgets(bs: BudgetTable, rs: seq<Rule>, d: Data, n: nat)
    requires AllDecided(bs, rs, d) && n < |rs|
    ensures BudgetName(rs[n]) in bs && Staged(bs, rs[..n + 1], d) == Stage(bs, rs[n], Staged(bs, rs[..n], d))
  {
    TakeOneMore(rs, n);
    EarlierStagesDecided(bs, rs, d, n + 1);
    LastStageDecided(bs, rs[..n + 1], rs[..n], rs[n], d);
  }

  /** Two metrics anywhere in the input and a rule of each, the n-th and the o-th that match, that
      share a BudgetKey: both stages relabel by one and the same budget, so a value has the same
      label in both, and a value overflows in one exactly when it does in the other. */
  lemma SharedBudgetsAgree(bs: BudgetTable, rules: seq<Rule>, ss: seq<ScopeMetrics>, i: nat, j: nat, n: nat, k: nat, l: nat, o: nat)
    requires Sound(bs) && AllUsable(rules)
    requires i < |ss| && j < |ss[i].metrics| && n < |RulesFor(rules, ss[i].scope, ss[i].metrics[j].name)|
    requires k < |ss| && l < |ss[k].metrics| && o < |RulesFor(rules, ss[k].scope, ss[k].metrics[l].name)|
    requires RulesFor(rules, ss[i].scope, ss[i].metrics[j].name)[n].budgetKey
          == RulesFor(rules, ss[k].scope, ss[k].metrics[l].name)[o].budgetKey != ""
    ensures var bs', rs, qs := RewriteScopes(bs, rules, ss).0, RulesFor(rules, ss[i].scope, ss[i].metrics[j].name),
                               RulesFor(rules, ss[k].scope, ss[k].metrics[l].name);
            var d, e := ss[i].metrics[j].data, ss[k].metrics[l].data;
            && rs[n].budgetKey in bs'
            && var b := bs'[rs[n].budgetKey];
               && Staged(bs', rs[..n + 1], d) == MergedData(RelabelAll(b, rs[n].key, Staged(bs', rs[..n], d)))
               && Staged(bs', qs[..o + 1], e) == MergedData(RelabelAll(b, qs[o].key, Staged(bs', qs[..o], e)))
  {
    var bs' := RewriteScopes(bs, rules, ss).0;
    RewriteUsesTheFinalBudgets(bs, rules, ss, i, j);
    RewriteUsesTheFinalBudgets(bs, rules, ss, k, l);
    DecidedHasBudgets(bs', RulesFor(rules, ss[i].scope, ss[i].metrics[j].name), ss[i].metrics[j].data, n);
    DecidedHasBudgets(bs', RulesFor(rules, ss[k].scope, ss[k].metrics[l].name), ss[k].metrics[l].data, o);
  }

  // ---- The limiter object

  lemma RewriteScopesOneMore(bs: BudgetTable, rules: seq<Rule>, ss: seq<ScopeMetrics>, n: nat)
    requires AllUsable(rules) && n < |ss|
    ensures var (bs1, before) := RewriteScopes(bs, rules, ss[..n]);
            var (bs2, ms) := RewriteMetrics(bs1, rules, ss[n].scope, ss[n].metrics);
            RewriteScopes(bs, rules, ss[..n + 1]) == (bs2, before + [ScopeMetrics(ss[n].scope, ms)])
  {
    assert ss[..n + 1][..n] == ss[..n];
  }

  lemma ReplacedNext(done: seq<ScopeMetrics>, given: seq<ScopeMetrics>, n: nat, s: ScopeMetrics)
    requires |done| == n < |given|
    ensures (done + given[n..])[n := s] == (done + [s]) + given[n + 1..]
  {
  }

  class Metrics {
    var scopes: seq<ScopeMetrics>

    constructor (scopes: seq<ScopeMetrics>)
      ensures this.scopes == scopes
    {
      this.scopes := scopes;
    }
  }

  class Limiter {
    const rules: seq<Rule>
    var buckets: map<string, Bucket>

    ghost predicate Valid()
      reads this
    {
      && AllUsable(rules)
      && forall j, k :: j in buckets && k in buckets && j != k ==> buckets[j] != buckets[k]
    }

    ghost function View(): BudgetTable
      reads this, buckets.Values
    {
      map k | k in buckets :: buckets[k].View()
    }

    /** Rules without an instrument, a key or a positive cap are ignored. */
    constructor (rules: seq<Rule>)
      ensures Valid() && View() == map[] && fresh(buckets.Values)
      ensures this.rules == UsableOnly(rules)
    {
      var usable: seq<Rule> := [];
      for n := 0 to |rules|
        invariant usable == UsableOnly(rules[..n])
      {
        assert rules[..n + 1][..n] == rules[..n];
        if Usable(rules[n]) {
          usable := usable + [rules[n]];
        }
      }
      assert rules[..|rules|] == rules;
      this.rules := usable;
      buckets := map[];
    }

    /** The bucket behind a rule's budget name, created on first use. */
    method BucketFor(r: Rule) returns (b: Bucket)
      requires Valid() && Usable(r)
      modifies this
      ensures Valid() && BudgetName(r) in buckets && b == buckets[BudgetName(r)]
      ensures b.View() == BudgetOf(old(View()), r)
      ensures View() == old(View())[BudgetName(r) := BudgetOf(old(View()), r)]
      ensures forall o :: o in buckets.Values ==> o in old(buckets.Values) || fresh(o)
    {
      var name := BudgetName(r);
      if name !in buckets {
        b := new Bucket(r.max);
        forall k | k in buckets
          ensures buckets[k] in buckets.Values
        {
        }
        buckets := buckets[name := b];
      }
      b := buckets[name];
    }

    method ApplyRuleTo(r: Rule, d: Data) returns (out: Data)
      requires Valid() && Usable(r)
      modifies this, buckets.Values
      ensures Valid() && (View(), out) == ApplyRule(old(View()), r, d)
      ensures forall o :: o in buckets.Values ==> o in old(buckets.Values) || fresh(o)
    {
      var b := BucketFor(r);
      ghost var table := View();
      assert b in buckets.Values && table[BudgetName(r)] == BudgetOf(old(View()), r);
      out := RewriteUnder(BudgetName(r), r.key, d);
      UpdateTwice(old(View()), BudgetName(r), table[BudgetName(r)], View()[BudgetName(r)]);
    }

    method RewriteUnder(name: string, key: string, d: Data) returns (out: Data)
      requires Valid() && name in buckets
      modifies buckets[name]
      ensures Valid()
      ensures var (b, d') := RewriteData(old(View())[name], key, d);
              View() == old(View())[name := b] && out == d'
    {
      out := RewriteMetric(buckets[name], key, d);
      assert forall k :: k in buckets && k != name ==> buckets[k].View() == old(buckets[k].View());
    }

    method ApplyRulesTo(scope: string, m: Metric) returns (out: Metric)
      requires Valid()
      modifies this, buckets.Values
      ensures Valid() && (View(), out) == ApplyRules(old(View()), rules, scope, m)
      ensures forall o :: o in buckets.Values ==> o in old(buckets.Values) || fresh(o)
    {
      out := m;
      for n := 0 to |rules|
        invariant Valid() && (View(), out) == ApplyRules(old(View()), rules[..n], scope, m)
        invariant forall o :: o in buckets.Values ==> o in old(buckets.Values) || fresh(o)
      {
        assert rules[..n + 1][..n] == rules[..n];
        var r := rules[n];
        if Applies(r, scope, out.name) {
          var d := ApplyRuleTo(r, out.data);
          out := out.(data := d);
        }
      }
      assert rules[..|rules|] == rules;
    }

    method RewriteScope(scope: string, ms: seq<Metric>) returns (out: seq<Metric>)
      requires Valid()
      modifies this, buckets.Values
      ensures Valid() && (View(), out) == RewriteMetrics(old(View()), rules, scope, ms)
      ensures forall o :: o in buckets.Values ==> o in old(buckets.Values) || fresh(o)
    {
      out := [];
      for n := 0 to |ms|
        invariant Valid() && (View(), out) == RewriteMetrics(old(View()), rules, scope, ms[..n])
        invariant forall o :: o in buckets.Values ==> o in old(buckets.Values) || fresh(o)
      {
        assert ms[..n + 1][..n] == ms[..n];
        var m := ApplyRulesTo(scope, ms[n]);
        out := out + [m];
      }
      assert ms[..|ms|] == ms;
    }

    /** Applies the rules to every matching data point of rm, in place. */
    method Rewrite(rm: Metrics)
      requires Valid()
      modifies this, buckets.Values, rm
      ensures Valid()
      ensures (View(), rm.scopes) == RewriteScopes(old(View()), rules, old(rm.scopes))
    {
      ghost var given := rm.scopes;
      ghost var done: seq<ScopeMetrics> := [];
      assert given[..0] == [];
      for n := 0 to |rm.scopes|
        invariant rm.scopes == done + given[n..] && |done| == n <= |given|
        invariant Valid() && (View(), done) == RewriteScopes(old(View()), rules, given[..n])
        invariant forall o :: o in buckets.Values ==> o in old(buckets.Values) || fresh(o)
      {
        RewriteScopesOneMore(old(View()), rules, given, n);
        var s := rm.scopes[n];
        var ms := RewriteScope(s.scope, s.metrics);
        rm.scopes := rm.scopes[n := ScopeMetrics(s.scope, ms)];
        ReplacedNext(done, given, n, ScopeMetrics(s.scope, ms));
        done := done + [ScopeMetrics(s.scope, ms)];
      }
      assert given[..|given|] == given && done + given[|given|..] == done;
    }
  }
}
