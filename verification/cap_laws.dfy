/**
 * What the caps promise about the values an OTLP export carries (internal/metricscap/reader.go:78-160):
 * never more than the budget's Max beside the overflow label, and all of them while they fit.
 */
module CapLaws {
  import opened Wrappers
  import opened Budgets
  import opened PointMerge
  import opened OtlpPoints
  import opened OtlpLimiter

  // ---- What is read off a metric

  /** Some point of d has the attribute set a. */
  ghost predicate HasSet(d: Data, a: Attrs) {
    match d
    case HistogramData(hs) => exists h :: h in hs && h.attrs == a
    case SumData(ns) => exists n :: n in ns && n.attrs == a
    case GaugeData(ns) => exists n :: n in ns && n.attrs == a
    case OtherData => false
  }

  /** Some point of d has the value v under key. */
  ghost predicate HasValue(d: Data, key: string, v: Value) {
    exists a :: HasSet(d, a) && key in a && a[key] == v
  }

  /** The string a value is told apart by: all values that are not strings count as one. */
  function Spelling(v: Value): string {
    match v
    case Str(s) => s
    case NotString(_) => ""
  }

  ghost predicate SameValues(d: Data, d': Data, key: string) {
    forall v :: HasValue(d, key, v) <==> HasValue(d', key, v)
  }

  lemma SetsAreThePoints(d: Data, a: Attrs)
    ensures HasSet(d, a) <==> a in SetsOf(d)
  {
    match d
    case HistogramData(hs) => PointsHaveSets(hs, AttrsOfHistogram, a);
    case SumData(ns) => PointsHaveSets(ns, AttrsOfNumber, a);
    case GaugeData(ns) => PointsHaveSets(ns, AttrsOfNumber, a);
    case OtherData =>
  }

  lemma PointsHaveSets<P>(ps: seq<P>, attrs: P -> Attrs, a: Attrs)
    ensures a in MapSeq(ps, attrs) <==> exists i :: 0 <= i < |ps| && attrs(ps[i]) == a
    ensures a in MapSeq(ps, attrs) ==> exists p :: p in ps && attrs(p) == a
  {
    if a in MapSeq(ps, attrs) {
      var i :| 0 <= i < |ps| && MapSeq(ps, attrs)[i] == a;
      assert ps[i] in ps && attrs(ps[i]) == a;
    }
    if i :| 0 <= i < |ps| && attrs(ps[i]) == a {
      assert MapSeq(ps, attrs)[i] == a;
    }
  }

  // ---- The cap a budget gets

  /** Every use of a rule in a Rewrite, in the order it happens. */
  function MetricUses(rules: seq<Rule>, scope: string, ms: seq<Metric>): seq<Rule> {
    if ms == [] then []
    else MetricUses(rules, scope, ms[..|ms| - 1]) + RulesFor(rules, scope, ms[|ms| - 1].name)
  }

  function Uses(rules: seq<Rule>, ss: seq<ScopeMetrics>): seq<Rule> {
    if ss == [] then []
    else Uses(rules, ss[..|ss| - 1]) + MetricUses(rules, ss[|ss| - 1].scope, ss[|ss| - 1].metrics)
  }

  /** The Max of the first use that draws on the named budget. */
  function FirstCap(us: seq<Rule>, name: string): Option<int> {
    if us == [] then None
    else if BudgetName(us[0]) == name then Some(us[0].max)
    else FirstCap(us[1..], name)
  }

  lemma {:induction false} FirstCapOfMore(us: seq<Rule>, vs: seq<Rule>, name: string)
    ensures FirstCap(us + vs, name) == if FirstCap(us, name).Some? then FirstCap(us, name) else FirstCap(vs, name)
  {
    if us == [] {
      assert us + vs == vs;
    } else {
      assert (us + vs)[1..] == us[1..] + vs;
      FirstCapOfMore(us[1..], vs, name);
    }
  }

  function CapIn(bs: BudgetTable, name: string): Option<int> {
    if name in bs then Some(bs[name].max) else None
  }

  function CapAfter(bs: BudgetTable, us: seq<Rule>, name: string): Option<int> {
    if name in bs then Some(bs[name].max) else FirstCap(us, name)
  }

  lemma CapsCompose(bs: BudgetTable, bs': BudgetTable, us: seq<Rule>, vs: seq<Rule>, name: string)
    requires CapIn(bs', name) == CapAfter(bs, us, name)
    ensures CapAfter(bs', vs, name) == CapAfter(bs, us + vs, name)
  {
    FirstCapOfMore(us, vs, name);
  }

  lemma RuleCaps(bs: BudgetTable, r: Rule, d: Data, name: string)
    requires Sound(bs) && Usable(r)
    ensures CapIn(ApplyRule(bs, r, d).0, name) == CapAfter(bs, [r], name)
  {
    RewriteIsAQuotient(BudgetOf(bs, r), r.key, d);
    var (b', d') := RewriteData(BudgetOf(bs, r), r.key, d);
    assert ApplyRule(bs, r, d).0 == bs[BudgetName(r) := b'];
    FirstCapOfOne(r, name);
  }

  lemma FirstCapOfOne(r: Rule, name: string)
    ensures FirstCap([r], name) == if BudgetName(r) == name then Some(r.max) else None
  {
    assert [r][1..] == [];
  }

  lemma {:induction false} RulesCap(bs: BudgetTable, rules: seq<Rule>, scope: string, m: Metric, name: string)
    requires Sound(bs) && AllUsable(rules)
    ensures CapIn(ApplyRules(bs, rules, scope, m).0, name) == CapAfter(bs, RulesFor(rules, scope, m.name), name)
  {
    if rules != [] {
      var before, r := rules[..|rules| - 1], rules[|rules| - 1];
      RulesCap(bs, before, scope, m, name);
      ApplyRulesGrow(bs, before, scope, m);
      var (bs1, m1) := ApplyRules(bs, before, scope, m);
      if Applies(r, scope, m.name) {
        RuleCaps(bs1, r, m1.data, name);
        CapsCompose(bs, bs1, RulesFor(before, scope, m.name), [r], name);
      }
    }
  }

  lemma {:induction false} MetricsCap(bs: BudgetTable, rules: seq<Rule>, scope: string, ms: seq<Metric>, name: string)
    requires Sound(bs) && AllUsable(rules)
    ensures CapIn(RewriteMetrics(bs, rules, scope, ms).0, name) == CapAfter(bs, MetricUses(rules, scope, ms), name)
  {
    if ms != [] {
      var before, m := ms[..|ms| - 1], ms[|ms| - 1];
      MetricsCap(bs, rules, scope, before, name);
      RewriteMetricsSettles(bs, rules, scope, before);
      var bs1 := RewriteMetrics(bs, rules, scope, before).0;
      RulesCap(bs1, rules, scope, m, name);
      CapsCompose(bs, bs1, MetricUses(rules, scope, before), RulesFor(rules, scope, m.name), name);
    }
  }

  /** A budget's cap after a Rewrite is the one it had, or that of its first use. */
  lemma {:induction false} ScopesCap(bs: BudgetTable, rules: seq<Rule>, ss: seq<ScopeMetrics>, name: string)
    requires Sound(bs) && AllUsable(rules)
    ensures CapIn(RewriteScopes(bs, rules, ss).0, name) == CapAfter(bs, Uses(rules, ss), name)
  {
    if ss != [] {
      var before, s := ss[..|ss| - 1], ss[|ss| - 1];
      ScopesCap(bs, rules, before, name);
      RewriteScopesSettles(bs, rules, before);
      var bs1 := RewriteScopes(bs, rules, before).0;
      MetricsCap(bs1, rules, s.scope, s.metrics, name);
      CapsCompose(bs, bs1, Uses(rules, before), MetricUses(rules, s.scope, s.metrics), name);
    }
  }

  // ---- No more than the cap

  lemma {:induction false} RewriteKeepsNames(bs: BudgetTable, rules: seq<Rule>, ss: seq<ScopeMetrics>, i: nat)
    requires Sound(bs) && AllUsable(rules) && i < |ss|
    ensures RewriteScopes(bs, rules, ss).1[i].scope == ss[i].scope
  {
    if i < |ss| - 1 {
      RewriteKeepsNames(bs, rules, ss[..|ss| - 1], i);
    }
  }

  /** The string v comes out under the key of some rule that draws on the named budget. */
  ghost predicate ComesOutOf(ss: seq<ScopeMetrics>, out: seq<ScopeMetrics>, rules: seq<Rule>, name: string, v: string) {
    exists q, i: nat, j: nat, x: Value ::
      q in rules && BudgetName(q) == name && ComesOutAt(ss, out, q, i, j, x) && Spelling(x) == v
  }

  /** Metric j of scope i, which rule q names, has the value x under the rule's key afterwards. */
  ghost predicate ComesOutAt(ss: seq<ScopeMetrics>, out: seq<ScopeMetrics>, q: Rule, i: nat, j: nat, x: Value) {
    && i < |ss| == |out| && j < |ss[i].metrics| == |out[i].metrics|
    && q.instrument == ss[i].metrics[j].name && (q.scope == "" || q.scope == ss[i].scope)
    && HasValue(out[i].metrics[j].data, q.key, x)
  }

  /** Whatever comes out under a rule's key, the overflow label apart, its budget has admitted. */
  lemma OutIsAdmitted(rules: seq<Rule>, ss: seq<ScopeMetrics>, q: Rule, i: nat, j: nat, x: Value)
    requires AllUsable(rules) && q in rules && ComesOutAt(ss, RewriteScopes(map[], rules, ss).1, q, i, j, x)
    requires Spelling(x) != OVERFLOW
    ensures var bs' := RewriteScopes(map[], rules, ss).0; BudgetName(q) in bs' && Spelling(x) in bs'[BudgetName(q)].seen
  {
    var (bs', out) := RewriteScopes(map[], rules, ss);
    RewriteScopesSettles(map[], rules, ss);
    RewriteUsesTheFinalBudgets(map[], rules, ss, i, j);
    RewriteKeepsNames(map[], rules, ss, i);
    var m := out[i].metrics[j];
    var a :| HasSet(m.data, a) && q.key in a && a[q.key] == x;
    SetsAreThePoints(m.data, a);
    assert MetricsSettled(bs', rules, out[i].scope, out[i].metrics);
    assert Applies(q, out[i].scope, m.name);
    assert Settled(bs', q, m.data);
    assert SetSettled(bs', BudgetName(q), q.key, a);
  }

  /** Over all scopes, metrics and rules that draw on one budget, no more distinct values come out,
      the overflow label apart, than the Max of the first rule that drew on it. */
  lemma NoMoreThanTheCapComesOut(rules: seq<Rule>, ss: seq<ScopeMetrics>, name: string, values: set<string>)
    requires AllUsable(rules)
    requires OVERFLOW !in values
    requires forall v :: v in values ==> ComesOutOf(ss, RewriteScopes(map[], rules, ss).1, rules, name, v)
    ensures values != {} ==> FirstCap(Uses(rules, ss), name).Some?
    ensures values != {} ==> |values| <= FirstCap(Uses(rules, ss), name).value
  {
    var (bs', out) := RewriteScopes(map[], rules, ss);
    RewriteScopesSettles(map[], rules, ss);
    ScopesCap(map[], rules, ss, name);
    forall v | v in values
      ensures name in bs' && v in bs'[name].seen
    {
      var q, i: nat, j: nat, x: Value :|
        q in rules && BudgetName(q) == name && ComesOutAt(ss, out, q, i, j, x) && Spelling(x) == v;
      OutIsAdmitted(rules, ss, q, i, j, x);
    }
    if values != {} {
      SubsetIsSmaller(values, bs'[name].seen);
    }
  }

  lemma {:induction false} SubsetIsSmaller<T>(xs: set<T>, ys: set<T>)
    requires xs <= ys
    ensures |xs| <= |ys|
    ensures |xs| == |ys| ==> xs == ys
    decreases xs
  {
    if xs != {} {
      var x :| x in xs;
      SubsetIsSmaller(xs - {x}, ys - {x});
    } else if ys != {} {
      var y :| y in ys;
      assert |ys - {y}| == |ys| - 1;
    }
  }

  // ---- While they fit, all of them

  /** The budget, if it is there, has admitted only what is in values and has room for all of them. */
  ghost predicate RoomFor(bs: BudgetTable, name: string, values: set<string>) {
    name in bs ==> bs[name].seen <= values && |values| <= bs[name].max
  }

  ghost predicate Within(d: Data, key: string, values: set<string>) {
    forall v :: HasValue(d, key, v) ==> Spelling(v) in values
  }

  lemma {:induction false} RoomyBudgetKeepsSets(b: Budget, key: string, sets: seq<Attrs>, values: set<string>)
    requires b.seen <= values && |values| <= b.max
    requires forall a :: a in sets && key in a ==> AsString(a[key]) in values
    ensures RewriteSets(b, key, sets).1 == sets
    ensures RewriteSets(b, key, sets).0.seen <= values && RewriteSets(b, key, sets).0.max == b.max
  {
    if sets != [] {
      var before, last := sets[..|sets| - 1], sets[|sets| - 1];
      assert sets == before + [last];
      RoomyBudgetKeepsSets(b, key, before, values);
      RoomyBudgetKeepsSet(RewriteSets(b, key, before).0, key, last, values);
    }
  }

  lemma RoomyBudgetKeepsSet(b: Budget, key: string, a: Attrs, values: set<string>)
    requires b.seen <= values && |values| <= b.max && (key in a ==> AsString(a[key]) in values)
    ensures RewriteSet(b, key, a).1 == a
    ensures RewriteSet(b, key, a).0.seen <= values && RewriteSet(b, key, a).0.max == b.max
  {
    SubsetIsSmaller(b.seen, values);
  }

  lemma OwnSetsChangeNothing(d: Data)
    ensures WithSets(d, SetsOf(d)) == d
  {
    match d
    case HistogramData(hs) => assert WithAttrsH(hs, SetsOf(d)) == hs;
    case SumData(ns) => assert WithAttrsN(ns, SetsOf(d)) == ns;
    case GaugeData(ns) => assert WithAttrsN(ns, SetsOf(d)) == ns;
    case OtherData =>
  }

  lemma SameSetsSameValues(d: Data, d': Data, key: string)
    requires forall a :: a in SetsOf(d) <==> a in SetsOf(d')
    ensures SameValues(d, d', key)
  {
    forall a
      ensures HasSet(d, a) <==> HasSet(d', a)
    {
      SetsAreThePoints(d, a);
      SetsAreThePoints(d', a);
    }
  }

  /** A rule drawing on a budget with room for all it meets leaves every value as it was. */
  lemma RoomyRuleKeepsValues(bs: BudgetTable, r: Rule, d: Data, key: string, values: set<string>)
    requires Sound(bs) && Usable(r) && RoomFor(bs, BudgetName(r), values) && Within(d, r.key, values)
    requires BudgetName(r) in bs || |values| <= r.max
    ensures RoomFor(ApplyRule(bs, r, d).0, BudgetName(r), values) && SameValues(d, ApplyRule(bs, r, d).1, key)
  {
    var b := BudgetOf(bs, r);
    forall a | a in SetsOf(d) && r.key in a
      ensures AsString(a[r.key]) in values
    {
      SetsAreThePoints(d, a);
      assert HasValue(d, r.key, a[r.key]);
    }
    RoomyBudgetKeepsSets(b, r.key, SetsOf(d), values);
    OwnSetsChangeNothing(d);
    SetsOfMerged(d);
    SameSetsSameValues(d, ApplyRule(bs, r, d).1, key);
  }

  /** A rule drawing on another budget leaves this one alone, and every value under other keys. */
  lemma OtherRuleKeepsValues(bs: BudgetTable, r: Rule, d: Data, name: string, key: string, values: set<string>)
    requires Sound(bs) && Usable(r) && BudgetName(r) != name && RoomFor(bs, name, values)
    ensures RoomFor(ApplyRule(bs, r, d).0, name, values)
    ensures r.key != key ==> SameValues(d, ApplyRule(bs, r, d).1, key)
  {
    var (b', d') := RewriteData(BudgetOf(bs, r), r.key, d);
    RewriteIsAQuotient(BudgetOf(bs, r), r.key, d);
    forall v | r.key != key
      ensures HasValue(d, key, v) <==> HasValue(d', key, v)
    {
      RelabellingKeepsOtherKeys(b', r.key, d, d', key, v);
    }
  }

  lemma RelabellingKeepsOtherKeys(b: Budget, capped: string, d: Data, d': Data, key: string, v: Value)
    requires capped != key && forall a :: a in SetsOf(d') <==> a in SetsOf(RelabelAll(b, capped, d))
    ensures HasValue(d, key, v) <==> HasValue(d', key, v)
  {
    if HasValue(d, key, v) {
      var a :| HasSet(d, a) && key in a && a[key] == v;
      SetsAreThePoints(d, a);
      RelabelledIsThere(b, capped, d, a);
      SetsAreThePoints(d', Relabel(b, capped, a));
    }
    if HasValue(d', key, v) {
      var a :| HasSet(d', a) && key in a && a[key] == v;
      SetsAreThePoints(d', a);
      var o := RelabelledFrom(b, capped, d, a);
      SetsAreThePoints(d, o);
    }
  }

  lemma RelabelledIsThere(b: Budget, capped: string, d: Data, a: Attrs)
    requires a in SetsOf(d)
    ensures Relabel(b, capped, a) in SetsOf(RelabelAll(b, capped, d))
  {
    SetsOfRelabelled(b, capped, d);
    var i :| 0 <= i < |SetsOf(d)| && SetsOf(d)[i] == a;
    assert SetsOf(RelabelAll(b, capped, d))[i] == Relabel(b, capped, a);
  }

  lemma RelabelledFrom(b: Budget, capped: string, d: Data, a: Attrs) returns (o: Attrs)
    requires a in SetsOf(RelabelAll(b, capped, d))
    ensures o in SetsOf(d) && a == Relabel(b, capped, o)
  {
    SetsOfRelabelled(b, capped, d);
    var i :| 0 <= i < |SetsOf(d)| && SetsOf(RelabelAll(b, capped, d))[i] == a;
    o := SetsOf(d)[i];
  }

  /** The values a metric brings to the named budget are all in values, and no other budget
      caps the same key of that metric. */
  ghost predicate Fits(rules: seq<Rule>, scope: string, m: Metric, name: string, values: set<string>) {
    forall q :: q in rules && Applies(q, scope, m.name) && BudgetName(q) == name ==>
      Within(m.data, q.key, values) && OnlyBudgetFor(rules, scope, m.name, name, q.key)
  }

  ghost predicate OnlyBudgetFor(rules: seq<Rule>, scope: string, metric: string, name: string, key: string) {
    forall p :: p in rules && Applies(p, scope, metric) && BudgetName(p) != name ==> p.key != key
  }

  ghost predicate CapHolds(cap: Option<int>, values: set<string>) {
    cap.Some? ==> |values| <= cap.value
  }

  lemma WithinFollows(d: Data, d': Data, key: string, values: set<string>)
    requires SameValues(d, d', key) && Within(d, key, values)
    ensures Within(d', key, values)
  {
  }

  lemma FitsFewer(rules: seq<Rule>, r: Rule, scope: string, m: Metric, name: string, values: set<string>)
    requires Fits(rules + [r], scope, m, name, values)
    ensures Fits(rules, scope, m, name, values)
    ensures Applies(r, scope, m.name) && BudgetName(r) == name ==>
              Within(m.data, r.key, values) && OnlyBudgetFor(rules, scope, m.name, name, r.key)
  {
    forall q | q in rules && Applies(q, scope, m.name) && BudgetName(q) == name
      ensures Within(m.data, q.key, values) && OnlyBudgetFor(rules, scope, m.name, name, q.key)
    {
      assert q in rules + [r];
      assert OnlyBudgetFor(rules + [r], scope, m.name, name, q.key);
    }
    if Applies(r, scope, m.name) && BudgetName(r) == name {
      assert r in rules + [r];
      assert OnlyBudgetFor(rules + [r], scope, m.name, name, r.key);
    }
  }

  /** One more rule over a metric whose values fit. */
  lemma OneMoreRuleKeepsValues(bs: BudgetTable, r: Rule, d: Data, name: string, key: string, values: set<string>)
    requires Sound(bs) && Usable(r) && RoomFor(bs, name, values)
    requires BudgetName(r) == name ==> Within(d, r.key, values) && (name in bs || |values| <= r.max)
    ensures RoomFor(ApplyRule(bs, r, d).0, name, values)
    ensures BudgetName(r) == name || r.key != key ==> SameValues(d, ApplyRule(bs, r, d).1, key)
  {
    if BudgetName(r) == name {
      RoomyRuleKeepsValues(bs, r, d, key, values);
    } else {
      OtherRuleKeepsValues(bs, r, d, name, key, values);
    }
  }

  lemma SameValuesTwice(d: Data, d1: Data, d2: Data, key: string)
    requires SameValues(d, d1, key) && SameValues(d1, d2, key)
    ensures SameValues(d, d2, key)
  {
  }

  lemma OnlyBudgetForFewer(rules: seq<Rule>, r: Rule, scope: string, metric: string, name: string, key: string)
    requires OnlyBudgetFor(rules + [r], scope, metric, name, key)
    ensures OnlyBudgetFor(rules, scope, metric, name, key)
    ensures Applies(r, scope, metric) ==> BudgetName(r) == name || r.key != key
  {
    assert r in rules + [r];
    assert forall p :: p in rules ==> p in rules + [r];
  }

  lemma {:induction false} FittingMetricKeepsValues(
      bs: BudgetTable, rules: seq<Rule>, scope: string, m: Metric, name: string, key: string, values: set<string>)
    requires Sound(bs) && AllUsable(rules) && RoomFor(bs, name, values) && Fits(rules, scope, m, name, values)
    requires CapHolds(CapAfter(bs, RulesFor(rules, scope, m.name), name), values)
    ensures RoomFor(ApplyRules(bs, rules, scope, m).0, name, values)
    ensures OnlyBudgetFor(rules, scope, m.name, name, key) ==> SameValues(m.data, ApplyRules(bs, rules, scope, m).1.data, key)
  {
    if rules != [] {
      var before, r := rules[..|rules| - 1], rules[|rules| - 1];
      assert rules == before + [r];
      FitsFewer(before, r, scope, m, name, values);
      CapOfFewer(bs, before, r, scope, m, name);
      FittingMetricKeepsValues(bs, before, scope, m, name, key, values);
      var (bs1, m1) := ApplyRules(bs, before, scope, m);
      ApplyRulesGrow(bs, before, scope, m);
      if Applies(r, scope, m.name) {
        RulesCap(bs, before, scope, m, name);
        if BudgetName(r) == name {
          FittingMetricKeepsValues(bs, before, scope, m, name, r.key, values);
          WithinFollows(m.data, m1.data, r.key, values);
        }
        OneMoreRuleKeepsValues(bs1, r, m1.data, name, key, values);
        if OnlyBudgetFor(rules, scope, m.name, name, key) {
          OnlyBudgetForFewer(before, r, scope, m.name, name, key);
          SameValuesTwice(m.data, m1.data, ApplyRule(bs1, r, m1.data).1, key);
        }
      } else if OnlyBudgetFor(rules, scope, m.name, name, key) {
        OnlyBudgetForFewer(before, r, scope, m.name, name, key);
      }
    }
  }

  /** A cap that holds once another rule is added held before, and holds for that rule's own use. */
  lemma CapOfFewer(bs: BudgetTable, rules: seq<Rule>, r: Rule, scope: string, m: Metric, name: string)
    ensures var cap := CapAfter(bs, RulesFor(rules, scope, m.name), name);
            var more := CapAfter(bs, RulesFor(rules + [r], scope, m.name), name);
            && (cap.Some? ==> more == cap)
            && (cap.None? && Applies(r, scope, m.name) && BudgetName(r) == name ==> more == Some(r.max))
  {
    assert (rules + [r])[..|rules|] == rules;
    FirstCapOfMore(RulesFor(rules, scope, m.name), [r], name);
  }

  ghost predicate AllFit(rules: seq<Rule>, scope: string, ms: seq<Metric>, name: string, values: set<string>) {
    forall m :: m in ms ==> Fits(rules, scope, m, name, values)
  }

  lemma CapOfEarlierUses(bs: BudgetTable, us: seq<Rule>, vs: seq<Rule>, name: string, values: set<string>)
    requires CapHolds(CapAfter(bs, us + vs, name), values)
    ensures CapHolds(CapAfter(bs, us, name), values)
  {
    FirstCapOfMore(us, vs, name);
  }

  /** The values of one metric, for the keys no other budget caps, are the same before and after. */
  ghost predicate Kept(rules: seq<Rule>, scope: string, m: Metric, m': Metric, name: string) {
    forall key :: OnlyBudgetFor(rules, scope, m.name, name, key) ==> SameValues(m.data, m'.data, key)
  }

  lemma FittingMetricIsKept(bs: BudgetTable, rules: seq<Rule>, scope: string, m: Metric, name: string, values: set<string>)
    requires Sound(bs) && AllUsable(rules) && RoomFor(bs, name, values) && Fits(rules, scope, m, name, values)
    requires CapHolds(CapAfter(bs, RulesFor(rules, scope, m.name), name), values)
    ensures RoomFor(ApplyRules(bs, rules, scope, m).0, name, values)
    ensures Kept(rules, scope, m, ApplyRules(bs, rules, scope, m).1, name)
  {
    FittingMetricKeepsValues(bs, rules, scope, m, name, "", values);
    forall key | OnlyBudgetFor(rules, scope, m.name, name, key)
      ensures SameValues(m.data, ApplyRules(bs, rules, scope, m).1.data, key)
    {
      FittingMetricKeepsValues(bs, rules, scope, m, name, key, values);
    }
  }

  ghost predicate AllKept(rules: seq<Rule>, scope: string, ms: seq<Metric>, out: seq<Metric>, name: string) {
    |out| == |ms| && forall j :: 0 <= j < |ms| ==> Kept(rules, scope, ms[j], out[j], name)
  }

  lemma {:induction false} FittingMetricsAreKept(
      bs: BudgetTable, rules: seq<Rule>, scope: string, ms: seq<Metric>, name: string, values: set<string>)
    requires Sound(bs) && AllUsable(rules) && RoomFor(bs, name, values) && AllFit(rules, scope, ms, name, values)
    requires CapHolds(CapAfter(bs, MetricUses(rules, scope, ms), name), values)
    ensures RoomFor(RewriteMetrics(bs, rules, scope, ms).0, name, values)
    ensures AllKept(rules, scope, ms, RewriteMetrics(bs, rules, scope, ms).1, name)
  {
    if ms != [] {
      var before, m := ms[..|ms| - 1], ms[|ms| - 1];
      assert m in ms && forall x :: x in before ==> x in ms;
      var us, vs := MetricUses(rules, scope, before), RulesFor(rules, scope, m.name);
      CapOfEarlierUses(bs, us, vs, name, values);
      FittingMetricsAreKept(bs, rules, scope, before, name, values);
      OneMoreMetricIsKept(bs, rules, scope, before, m, name, values);
      assert ms == before + [m];
    }
  }

  lemma OneMoreMetricIsKept(
      bs: BudgetTable, rules: seq<Rule>, scope: string, ms: seq<Metric>, m: Metric, name: string, values: set<string>)
    requires Sound(bs) && AllUsable(rules) && Fits(rules, scope, m, name, values)
    requires RoomFor(RewriteMetrics(bs, rules, scope, ms).0, name, values)
    requires AllKept(rules, scope, ms, RewriteMetrics(bs, rules, scope, ms).1, name)
    requires CapHolds(CapAfter(bs, MetricUses(rules, scope, ms) + RulesFor(rules, scope, m.name), name), values)
    ensures RoomFor(RewriteMetrics(bs, rules, scope, ms + [m]).0, name, values)
    ensures AllKept(rules, scope, ms + [m], RewriteMetrics(bs, rules, scope, ms + [m]).1, name)
  {
    var (bs1, out1) := RewriteMetrics(bs, rules, scope, ms);
    RewriteMetricsSettles(bs, rules, scope, ms);
    MetricsCap(bs, rules, scope, ms, name);
    CapsCompose(bs, bs1, MetricUses(rules, scope, ms), RulesFor(rules, scope, m.name), name);
    FittingMetricIsKept(bs1, rules, scope, m, name, values);
    RewriteMetricsOneMore(bs, rules, scope, ms, m);
    AllKeptOneMore(rules, scope, ms, out1, m, ApplyRules(bs1, rules, scope, m).1, name);
  }

  lemma RewriteMetricsOneMore(bs: BudgetTable, rules: seq<Rule>, scope: string, ms: seq<Metric>, m: Metric)
    requires AllUsable(rules)
    ensures var (bs1, out1) := RewriteMetrics(bs, rules, scope, ms);
            var (bs2, m') := ApplyRules(bs1, rules, scope, m);
            RewriteMetrics(bs, rules, scope, ms + [m]) == (bs2, out1 + [m'])
  {
    assert (ms + [m])[..|ms|] == ms;
  }

  lemma AllKeptOneMore(
      rules: seq<Rule>, scope: string, ms: seq<Metric>, out: seq<Metric>, m: Metric, m': Metric, name: string)
    requires AllKept(rules, scope, ms, out, name) && Kept(rules, scope, m, m', name)
    ensures AllKept(rules, scope, ms + [m], out + [m'], name)
  {
  }

  ghost predicate ScopesKept(rules: seq<Rule>, ss: seq<ScopeMetrics>, out: seq<ScopeMetrics>, name: string) {
    |out| == |ss| && forall i :: 0 <= i < |ss| ==> AllKept(rules, ss[i].scope, ss[i].metrics, out[i].metrics, name)
  }

  lemma {:induction false} FittingScopesAreKept(
      bs: BudgetTable, rules: seq<Rule>, ss: seq<ScopeMetrics>, name: string, values: set<string>)
    requires Sound(bs) && AllUsable(rules) && RoomFor(bs, name, values)
    requires forall s :: s in ss ==> AllFit(rules, s.scope, s.metrics, name, values)
    requires CapHolds(CapAfter(bs, Uses(rules, ss), name), values)
    ensures RoomFor(RewriteScopes(bs, rules, ss).0, name, values)
    ensures ScopesKept(rules, ss, RewriteScopes(bs, rules, ss).1, name)
  {
    if ss != [] {
      var before, s := ss[..|ss| - 1], ss[|ss| - 1];
      assert s in ss && forall x :: x in before ==> x in ss;
      CapOfEarlierUses(bs, Uses(rules, before), MetricUses(rules, s.scope, s.metrics), name, values);
      FittingScopesAreKept(bs, rules, before, name, values);
      OneMoreScopeIsKept(bs, rules, before, s, name, values);
      assert ss == before + [s];
    }
  }

  lemma OneMoreScopeIsKept(
      bs: BudgetTable, rules: seq<Rule>, ss: seq<ScopeMetrics>, s: ScopeMetrics, name: string, values: set<string>)
    requires Sound(bs) && AllUsable(rules) && AllFit(rules, s.scope, s.metrics, name, values)
    requires RoomFor(RewriteScopes(bs, rules, ss).0, name, values)
    requires ScopesKept(rules, ss, RewriteScopes(bs, rules, ss).1, name)
    requires CapHolds(CapAfter(bs, Uses(rules, ss) + MetricUses(rules, s.scope, s.metrics), name), values)
    ensures RoomFor(RewriteScopes(bs, rules, ss + [s]).0, name, values)
    ensures ScopesKept(rules, ss + [s], RewriteScopes(bs, rules, ss + [s]).1, name)
  {
    var (bs1, out1) := RewriteScopes(bs, rules, ss);
    RewriteScopesSettles(bs, rules, ss);
    ScopesCap(bs, rules, ss, name);
    CapsCompose(bs, bs1, Uses(rules, ss), MetricUses(rules, s.scope, s.metrics), name);
    FittingMetricsAreKept(bs1, rules, s.scope, s.metrics, name, values);
    RewriteOneMoreScope(bs, rules, ss, s);
    ScopesKeptOneMore(rules, ss, out1, s, ScopeMetrics(s.scope, RewriteMetrics(bs1, rules, s.scope, s.metrics).1), name);
  }

  lemma RewriteOneMoreScope(bs: BudgetTable, rules: seq<Rule>, ss: seq<ScopeMetrics>, s: ScopeMetrics)
    requires AllUsable(rules)
    ensures var (bs1, out1) := RewriteScopes(bs, rules, ss);
            var (bs2, ms) := RewriteMetrics(bs1, rules, s.scope, s.metrics);
            RewriteScopes(bs, rules, ss + [s]) == (bs2, out1 + [ScopeMetrics(s.scope, ms)])
  {
    assert (ss + [s])[..|ss|] == ss;
  }

  lemma ScopesKeptOneMore(
      rules: seq<Rule>, ss: seq<ScopeMetrics>, out: seq<ScopeMetrics>, s: ScopeMetrics, s': ScopeMetrics, name: string)
    requires ScopesKept(rules, ss, out, name) && AllKept(rules, s.scope, s.metrics, s'.metrics, name)
    ensures ScopesKept(rules, ss + [s], out + [s'], name)
  {
  }

  /** The input's values under the rules that draw on the named budget are all in values, and in
      each metric such a rule names, no rule drawing on another budget caps the same key. */
  ghost predicate InputFits(rules: seq<Rule>, ss: seq<ScopeMetrics>, name: string, values: set<string>) {
    forall s, m, q ::
      (s in ss && m in s.metrics && q in rules && BudgetName(q) == name
       && q.instrument == m.name && (q.scope == "" || q.scope == s.scope)) ==>
      && (forall v :: HasValue(m.data, q.key, v) ==> Spelling(v) in values)
      && (forall p :: p in rules && p.instrument == m.name && (p.scope == "" || p.scope == s.scope) && p.key == q.key ==>
            BudgetName(p) == name)
  }

  lemma InputFitsEverywhere(rules: seq<Rule>, ss: seq<ScopeMetrics>, name: string, values: set<string>)
    requires InputFits(rules, ss, name, values)
    ensures forall s :: s in ss ==> AllFit(rules, s.scope, s.metrics, name, values)
  {
    forall s, m, q | s in ss && m in s.metrics && q in rules && Applies(q, s.scope, m.name) && BudgetName(q) == name
      ensures Within(m.data, q.key, values) && OnlyBudgetFor(rules, s.scope, m.name, name, q.key)
    {
    }
  }

  /** When the values that reach a budget are no more than the Max of the first rule to draw on it,
      each metric comes out with exactly the values it had under the rule's key. */
  lemma FittingValuesComeOutUnchanged(
      rules: seq<Rule>, ss: seq<ScopeMetrics>, r: Rule, values: set<string>, i: nat, j: nat)
    requires AllUsable(rules) && r in rules && InputFits(rules, ss, BudgetName(r), values)
    requires CapHolds(FirstCap(Uses(rules, ss), BudgetName(r)), values)
    requires i < |ss| && j < |ss[i].metrics|
    requires r.instrument == ss[i].metrics[j].name && (r.scope == "" || r.scope == ss[i].scope)
    ensures var out := RewriteScopes(map[], rules, ss).1;
            && |out[i].metrics| == |ss[i].metrics|
            && forall v :: HasValue(out[i].metrics[j].data, r.key, v) <==> HasValue(ss[i].metrics[j].data, r.key, v)
  {
    InputFitsEverywhere(rules, ss, BudgetName(r), values);
    FittingScopesAreKept(map[], rules, ss, BudgetName(r), values);
    var s, m := ss[i], ss[i].metrics[j];
    assert OnlyBudgetFor(rules, s.scope, m.name, BudgetName(r), r.key) by {
      assert s in ss && m in s.metrics;
    }
    assert AllKept(rules, s.scope, s.metrics, RewriteScopes(map[], rules, ss).1[i].metrics, BudgetName(r));
    assert Kept(rules, s.scope, m, RewriteScopes(map[], rules, ss).1[i].metrics[j], BudgetName(r));
  }

  // ---- A rule with a budget of its own

  /** Rule r carries no BudgetKey, and whatever shares the name of its budget has the same Max. */
  ghost predicate OwnBudget(rules: seq<Rule>, r: Rule) {
    && r.budgetKey == ""
    && forall q :: q in rules && q.max != r.max ==>
         (if q.budgetKey != "" then q.budgetKey else q.scope + "\0" + q.instrument + "\0" + q.key)
         != r.scope + "\0" + r.instrument + "\0" + r.key
  }

  lemma {:induction false} FirstCapAmong(us: seq<Rule>, rules: seq<Rule>, r: Rule)
    requires OwnBudget(rules, r) && forall u :: u in us ==> u in rules
    ensures FirstCap(us, BudgetName(r)).Some? ==> FirstCap(us, BudgetName(r)).value == r.max
  {
    if us != [] {
      assert us[0] in rules;
      FirstCapAmong(us[1..], rules, r);
    }
  }

  lemma {:induction false} RulesForAreRules(rules: seq<Rule>, scope: string, name: string)
    ensures forall u :: u in RulesFor(rules, scope, name) ==> u in rules
  {
    if rules != [] {
      RulesForAreRules(rules[..|rules| - 1], scope, name);
    }
  }

  lemma {:induction false} MetricUsesAreRules(rules: seq<Rule>, scope: string, ms: seq<Metric>)
    ensures forall u :: u in MetricUses(rules, scope, ms) ==> u in rules
  {
    if ms != [] {
      MetricUsesAreRules(rules, scope, ms[..|ms| - 1]);
      RulesForAreRules(rules, scope, ms[|ms| - 1].name);
    }
  }

  lemma {:induction false} UsesAreRules(rules: seq<Rule>, ss: seq<ScopeMetrics>)
    ensures forall u :: u in Uses(rules, ss) ==> u in rules
  {
    if ss != [] {
      UsesAreRules(rules, ss[..|ss| - 1]);
      MetricUsesAreRules(rules, ss[|ss| - 1].scope, ss[|ss| - 1].metrics);
    }
  }

  /** Over all the metrics a rule names, at most Max distinct values come out under its key
      beside the overflow label. */
  lemma AtMostMaxValuesComeOut(rules: seq<Rule>, ss: seq<ScopeMetrics>, r: Rule, values: set<string>)
    requires AllUsable(rules) && r in rules && OwnBudget(rules, r) && OVERFLOW !in values
    requires forall v :: v in values ==>
               exists i: nat, j: nat, x: Value :: ComesOutAt(ss, RewriteScopes(map[], rules, ss).1, r, i, j, x) && Spelling(x) == v
    ensures |values| <= r.max
  {
    var out := RewriteScopes(map[], rules, ss).1;
    forall v | v in values
      ensures ComesOutOf(ss, out, rules, BudgetName(r), v)
    {
      var i: nat, j: nat, x: Value :| ComesOutAt(ss, out, r, i, j, x) && Spelling(x) == v;
    }
    NoMoreThanTheCapComesOut(rules, ss, BudgetName(r), values);
    UsesAreRules(rules, ss);
    FirstCapAmong(Uses(rules, ss), rules, r);
  }

  /** And when the input has at most Max of them, every one comes out as it was. */
  lemma AtMostMaxValuesStay(rules: seq<Rule>, ss: seq<ScopeMetrics>, r: Rule, values: set<string>, i: nat, j: nat)
    requires AllUsable(rules) && r in rules && OwnBudget(rules, r)
    requires InputFits(rules, ss, r.scope + "\0" + r.instrument + "\0" + r.key, values) && |values| <= r.max
    requires i < |ss| && j < |ss[i].metrics|
    requires r.instrument == ss[i].metrics[j].name && (r.scope == "" || r.scope == ss[i].scope)
    ensures var out := RewriteScopes(map[], rules, ss).1;
            && |out[i].metrics| == |ss[i].metrics|
            && forall v :: HasValue(out[i].metrics[j].data, r.key, v) <==> HasValue(ss[i].metrics[j].data, r.key, v)
  {
    UsesAreRules(rules, ss);
    FirstCapAmong(Uses(rules, ss), rules, r);
    FittingValuesComeOutUnchanged(rules, ss, r, values, i, j);
  }

  /** The budget counts every value that is not a string as the empty one: such values take one slot
      between them and come out as they were however many they are, so Max does not bound them. */
  lemma NonStringsAreNotCapped(rules: seq<Rule>, ss: seq<ScopeMetrics>, r: Rule, i: nat, j: nat)
    requires AllUsable(rules) && r in rules && OwnBudget(rules, r)
    requires InputFits(rules, ss, r.scope + "\0" + r.instrument + "\0" + r.key, {""})
    requires i < |ss| && j < |ss[i].metrics|
    requires r.instrument == ss[i].metrics[j].name && (r.scope == "" || r.scope == ss[i].scope)
    ensures var out := RewriteScopes(map[], rules, ss).1;
            && |out[i].metrics| == |ss[i].metrics|
            && forall v :: HasValue(out[i].metrics[j].data, r.key, v) <==> HasValue(ss[i].metrics[j].data, r.key, v)
  {
    AtMostMaxValuesStay(rules, ss, r, {""}, i, j);
  }

  // ---- What no rule names, and several exports

  lemma {:induction false} NoRulesFor(rules: seq<Rule>, scope: string, name: string)
    requires forall r :: r in rules ==> !(r.instrument == name && (r.scope == "" || r.scope == scope))
    ensures RulesFor(rules, scope, name) == []
  {
    if rules != [] {
      assert rules[|rules| - 1] in rules;
      NoRulesFor(rules[..|rules| - 1], scope, name);
    }
  }

  /** A metric that no rule names is not touched. */
  lemma UnnamedMetricsAreUntouched(bs: BudgetTable, rules: seq<Rule>, ss: seq<ScopeMetrics>, i: nat, j: nat)
    requires Sound(bs) && AllUsable(rules) && i < |ss| && j < |ss[i].metrics|
    requires forall r :: r in rules ==> !(r.instrument == ss[i].metrics[j].name && (r.scope == "" || r.scope == ss[i].scope))
    ensures var out := RewriteScopes(bs, rules, ss).1;
            |out[i].metrics| == |ss[i].metrics| && out[i].metrics[j] == ss[i].metrics[j]
  {
    RewriteUsesTheFinalBudgets(bs, rules, ss, i, j);
    NoRulesFor(rules, ss[i].scope, ss[i].metrics[j].name);
  }

  /** The result of two exports, one after the other. */
  ghost function Twice(bs: BudgetTable, rules: seq<Rule>, ss: seq<ScopeMetrics>, ts: seq<ScopeMetrics>):
      (BudgetTable, seq<ScopeMetrics>)
    requires AllUsable(rules)
  {
    var (bs1, first) := RewriteScopes(bs, rules, ss);
    var (bs2, second) := RewriteScopes(bs1, rules, ts);
    (bs2, first + second)
  }

  lemma TwiceOneMore(bs: BudgetTable, rules: seq<Rule>, ss: seq<ScopeMetrics>, ts: seq<ScopeMetrics>, t: ScopeMetrics)
    requires AllUsable(rules)
    ensures var (bs1, out1) := Twice(bs, rules, ss, ts);
            var (bs2, ms) := RewriteMetrics(bs1, rules, t.scope, t.metrics);
            Twice(bs, rules, ss, ts + [t]) == (bs2, out1 + [ScopeMetrics(t.scope, ms)])
  {
    var (bs1, first) := RewriteScopes(bs, rules, ss);
    var (bs2, second) := RewriteScopes(bs1, rules, ts);
    RewriteOneMoreScope(bs1, rules, ts, t);
    var last := [ScopeMetrics(t.scope, RewriteMetrics(bs2, rules, t.scope, t.metrics).1)];
    assert (first + second) + last == first + (second + last);
  }

  /** Two exports through one limiter come to one export of both: what is said above of a single
      Rewrite holds of all the exports of a limiter's life together. */
  lemma {:induction false} ExportsRunTogether(bs: BudgetTable, rules: seq<Rule>, ss: seq<ScopeMetrics>, ts: seq<ScopeMetrics>)
    requires AllUsable(rules)
    ensures RewriteScopes(bs, rules, ss + ts) == Twice(bs, rules, ss, ts)
  {
    if ts == [] {
      assert ss + ts == ss;
      assert RewriteScopes(bs, rules, ss).1 + [] == RewriteScopes(bs, rules, ss).1;
    } else {
      var before, t := ts[..|ts| - 1], ts[|ts| - 1];
      ExportsRunTogether(bs, rules, ss, before);
      RewriteOneMoreScope(bs, rules, ss + before, t);
      TwiceOneMore(bs, rules, ss, before, t);
      assert ts == before + [t] && ss + ts == (ss + before) + [t];
    }
  }
}
