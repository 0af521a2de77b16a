/**
 * The two limiters visit their input in different orders: the OTLP one scope by scope and rule by
 * rule within each metric, the Prometheus one family by family and rule by rule over all scopes
 * (internal/metricscap/reader.go:80-93, 221-242). What they export depends only on the budgets
 * they end with.
 */
module LimitersAgreement {
  import opened Budgets
  import opened PointMerge
  import opened OtlpPoints
  import opened PromLimiter
  import Otlp = OtlpLimiter

  /** The OTLP rule that caps the same attribute of the same metric. */
  function ToRule(r: PromRule): Otlp.Rule {
    Otlp.Rule(r.metric, r.label_, r.max, r.scope, r.budgetKey)
  }

  function ToRules(rules: seq<PromRule>): seq<Otlp.Rule> {
    MapSeq(rules, ToRule)
  }

  function ScopeName(scope: Labels): string {
    if SCOPE_LABEL in scope then scope[SCOPE_LABEL] else ""
  }

  /** The rules that cover one scope of a metric. */
  function RulesForScope(rules: seq<PromRule>, m: Metric, i: nat): seq<Otlp.Rule>
    requires i < |m.scopes|
  {
    Otlp.RulesFor(ToRules(rules), ScopeName(m.scopes[i].scope), m.name)
  }

  /** A scope comes out under a table as its rules' stages make it. */
  ghost predicate Exported(bs: BudgetTable, rules: seq<PromRule>, m: Metric, m': Metric, i: nat) {
    && m'.name == m.name && i < |m.scopes| == |m'.scopes|
    && m'.scopes[i].scope == m.scopes[i].scope
    && var rs := RulesForScope(rules, m, i);
       && Otlp.AllDecided(bs, rs, HistogramData(m.scopes[i].points))
       && HistogramData(m'.scopes[i].points) == Otlp.Staged(bs, rs, HistogramData(m.scopes[i].points))
  }

  // ---- One rule over the scopes

  /** One scope relabelled by a budget that has decided on all its values, and merged. */
  ghost predicate ScopeExported(b: Budget, r: PromRule, g: ScopePoints, g': ScopePoints) {
    && g'.scope == g.scope
    && (forall a :: a in SetsOf(HistogramData(g.points)) ==> SetDecided(b, r.label_, a))
    && HistogramData(g'.points) == MergedData(RelabelAll(b, r.label_, HistogramData(g.points)))
  }

  lemma ScopeIsRelabelled(b: Budget, r: PromRule, g: ScopePoints)
    requires |b.seen| <= b.max && Covers(r, g.scope)
    ensures var (b', g') := LimitScope(b, r, g); Grows(b, b') && |b'.seen| <= b'.max && ScopeExported(b', r, g, g')
  {
    RewriteIsAQuotient(b, r.label_, HistogramData(g.points));
    RewritingIsRelabelling(b, r.label_, SetsOf(HistogramData(g.points)));
  }

  lemma ScopeExportedStays(b: Budget, b': Budget, r: PromRule, g: ScopePoints, g': ScopePoints)
    requires ScopeExported(b, r, g, g') && Grows(b, b')
    ensures ScopeExported(b', r, g, g')
  {
    var d := HistogramData(g.points);
    forall a | a in SetsOf(d)
      ensures Relabel(b', r.label_, a) == Relabel(b, r.label_, a) && SetDecided(b', r.label_, a)
    {
      Otlp.DecidedLabelStays(b, b', r.label_, a);
    }
    Otlp.RelabelledAlike(b, b', r.label_, d);
  }

  lemma OneScopeGrows(b: Budget, r: PromRule, g: ScopePoints)
    requires |b.seen| <= b.max
    ensures var b' := LimitScope(b, r, g).0; Grows(b, b') && |b'.seen| <= b'.max
  {
    if Covers(r, g.scope) {
      ScopeIsRelabelled(b, r, g);
    }
  }

  lemma {:induction false} ScopesGrow(b: Budget, r: PromRule, gs: seq<ScopePoints>)
    requires |b.seen| <= b.max
    ensures var b' := LimitScopes(b, r, gs).0; Grows(b, b') && |b'.seen| <= b'.max
  {
    if gs != [] {
      ScopesGrow(b, r, gs[..|gs| - 1]);
      OneScopeGrows(LimitScopes(b, r, gs[..|gs| - 1]).0, r, gs[|gs| - 1]);
    }
  }

  /** Every covered scope is relabelled by the budget as the rule's whole pass leaves it. */
  lemma {:induction false} ScopesAreRelabelled(b: Budget, r: PromRule, gs: seq<ScopePoints>, i: nat)
    requires |b.seen| <= b.max && i < |gs|
    ensures var (b', out) := LimitScopes(b, r, gs);
            if Covers(r, gs[i].scope) then ScopeExported(b', r, gs[i], out[i]) else out[i] == gs[i]
  {
    var before, g := gs[..|gs| - 1], gs[|gs| - 1];
    ScopesGrow(b, r, before);
    var (b1, out1) := LimitScopes(b, r, before);
    OneScopeGrows(b1, r, g);
    if i == |gs| - 1 {
      if Covers(r, g.scope) {
        ScopeIsRelabelled(b1, r, g);
      }
    } else {
      ScopesAreRelabelled(b, r, before, i);
      if Covers(r, gs[i].scope) {
        ScopeExportedStays(b1, LimitScope(b1, r, g).0, r, gs[i], out1[i]);
      }
    }
  }

  // ---- All rules

  lemma LimitRuleGrows(bs: BudgetTable, r: PromRule, m: Metric)
    requires Sound(bs) && Usable(r)
    ensures Sound(LimitRule(bs, r, m).0) && AllGrow(bs, LimitRule(bs, r, m).0)
  {
    ScopesGrow(BudgetOf(bs, r), r, m.scopes);
  }

  lemma {:induction false} LimitRulesGrow(bs: BudgetTable, rules: seq<PromRule>, m: Metric)
    requires Sound(bs) && AllUsable(rules)
    ensures Sound(LimitRules(bs, rules, m).0) && AllGrow(bs, LimitRules(bs, rules, m).0)
  {
    if rules != [] {
      LimitRulesGrow(bs, rules[..|rules| - 1], m);
      var (bs1, m1) := LimitRules(bs, rules[..|rules| - 1], m);
      LimitRuleGrows(bs1, rules[|rules| - 1], m1);
    }
  }

  lemma RulesForScopeOneMore(rules: seq<PromRule>, r: PromRule, m: Metric, i: nat)
    requires i < |m.scopes|
    ensures RulesForScope(rules + [r], m, i)
         == if r.metric == m.name && Covers(r, m.scopes[i].scope) then RulesForScope(rules, m, i) + [ToRule(r)]
            else RulesForScope(rules, m, i)
  {
    assert ToRules(rules + [r]) == ToRules(rules) + [ToRule(r)];
    assert (ToRules(rules) + [ToRule(r)])[..|rules|] == ToRules(rules);
  }

  lemma OneMoreRuleExports(bs: BudgetTable, rules: seq<PromRule>, r: PromRule, m: Metric, m1: Metric, i: nat)
    requires Sound(bs) && Usable(r) && Exported(bs, rules, m, m1, i)
    ensures var (bs', m') := LimitRule(bs, r, m1); Exported(bs', rules + [r], m, m', i)
  {
    var (bs', m') := LimitRule(bs, r, m1);
    var rs, d := RulesForScope(rules, m, i), HistogramData(m.scopes[i].points);
    LimitRuleGrows(bs, r, m1);
    Otlp.StagesStay(bs, bs', rs, d);
    RulesForScopeOneMore(rules, r, m, i);
    if r.metric == m1.name {
      LimitScopesKeepScopes(BudgetOf(bs, r), r, m1.scopes);
      ScopesAreRelabelled(BudgetOf(bs, r), r, m1.scopes, i);
      if Covers(r, m.scopes[i].scope) {
        Otlp.StagedOneMore(bs', rs, ToRule(r), d);
      }
    }
  }

  lemma {:induction false} RulesExport(bs: BudgetTable, rules: seq<PromRule>, m: Metric, i: nat)
    requires Sound(bs) && AllUsable(rules) && i < |m.scopes|
    ensures var (bs', m') := LimitRules(bs, rules, m); Exported(bs', rules, m, m', i)
  {
    if rules != [] {
      var before, r := rules[..|rules| - 1], rules[|rules| - 1];
      RulesExport(bs, before, m, i);
      LimitRulesGrow(bs, before, m);
      var (bs1, m1) := LimitRules(bs, before, m);
      OneMoreRuleExports(bs1, before, r, m, m1, i);
      assert rules == before + [r];
    }
  }

  lemma ExportedStays(bs: BudgetTable, bs': BudgetTable, rules: seq<PromRule>, m: Metric, m': Metric, i: nat)
    requires Exported(bs, rules, m, m', i) && AllGrow(bs, bs')
    ensures Exported(bs', rules, m, m', i)
  {
    Otlp.StagesStay(bs, bs', RulesForScope(rules, m, i), HistogramData(m.scopes[i].points));
  }

  // ---- All metrics

  lemma {:induction false} LimitMetricsGrow(bs: BudgetTable, rules: seq<PromRule>, ms: seq<Metric>)
    requires Sound(bs) && AllUsable(rules)
    ensures Sound(LimitMetrics(bs, rules, ms).0) && AllGrow(bs, LimitMetrics(bs, rules, ms).0)
  {
    if ms != [] {
      LimitMetricsGrow(bs, rules, ms[..|ms| - 1]);
      LimitRulesGrow(LimitMetrics(bs, rules, ms[..|ms| - 1]).0, rules, ms[|ms| - 1]);
    }
  }

  /** Every scope of every metric comes out relabelled and merged rule by rule under the budgets as
      the whole scrape leaves them. */
  lemma {:induction false} ScrapeUsesTheFinalBudgets(bs: BudgetTable, rules: seq<PromRule>, ms: seq<Metric>, k: nat, i: nat)
    requires Sound(bs) && AllUsable(rules) && k < |ms| && i < |ms[k].scopes|
    ensures var (bs', out) := LimitMetrics(bs, rules, ms); Exported(bs', rules, ms[k], out[k], i)
  {
    var before, m := ms[..|ms| - 1], ms[|ms| - 1];
    LimitMetricsGrow(bs, rules, before);
    var (bs1, out1) := LimitMetrics(bs, rules, before);
    if k == |ms| - 1 {
      RulesExport(bs1, rules, m, i);
    } else {
      ScrapeUsesTheFinalBudgets(bs, rules, before, k, i);
      LimitRulesGrow(bs1, rules, m);
      ExportedStays(bs1, LimitRules(bs1, rules, m).0, rules, ms[k], out1[k], i);
    }
  }

  // ---- The same budgets, the same export

  /** Budgets that are in both tables are the same. */
  ghost predicate SameBudgets(bs: BudgetTable, bs': BudgetTable) {
    forall n :: n in bs && n in bs' ==> bs[n] == bs'[n]
  }

  lemma {:induction false} StagedAlike(bs: BudgetTable, bs': BudgetTable, rs: seq<Otlp.Rule>, d: Data)
    requires SameBudgets(bs, bs') && Otlp.AllDecided(bs, rs, d) && Otlp.AllDecided(bs', rs, d)
    ensures Otlp.Staged(bs, rs, d) == Otlp.Staged(bs', rs, d)
  {
    if rs != [] {
      StagedAlike(bs, bs', rs[..|rs| - 1], d);
    }
  }

  /** When an export through the OTLP limiter and a scrape through the Prometheus limiter leave the
      same budgets behind, whatever order each met the values in and whatever else it was given,
      a scope's points of a metric come out the same from both. */
  lemma SameBudgetsSameExport(
      bs: BudgetTable, otlpBs: BudgetTable, rules: seq<PromRule>, ms: seq<Metric>, ss: seq<Otlp.ScopeMetrics>,
      k: nat, i: nat, p: nat, q: nat)
    requires Sound(bs) && Sound(otlpBs) && AllUsable(rules) && Otlp.AllUsable(ToRules(rules))
    requires k < |ms| && i < |ms[k].scopes| && p < |ss| && q < |ss[p].metrics|
    requires ss[p].scope == ScopeName(ms[k].scopes[i].scope)
    requires ss[p].metrics[q] == Otlp.Metric(ms[k].name, HistogramData(ms[k].scopes[i].points))
    requires SameBudgets(LimitMetrics(bs, rules, ms).0, Otlp.RewriteScopes(otlpBs, ToRules(rules), ss).0)
    ensures var scraped := LimitMetrics(bs, rules, ms).1;
            var exported := Otlp.RewriteScopes(otlpBs, ToRules(rules), ss).1;
            && i < |scraped[k].scopes| && q < |exported[p].metrics|
            && exported[p].metrics[q].data == HistogramData(scraped[k].scopes[i].points)
  {
    ScrapeUsesTheFinalBudgets(bs, rules, ms, k, i);
    Otlp.RewriteUsesTheFinalBudgets(otlpBs, ToRules(rules), ss, p, q);
    StagedAlike(LimitMetrics(bs, rules, ms).0, Otlp.RewriteScopes(otlpBs, ToRules(rules), ss).0,
                RulesForScope(rules, ms[k], i), HistogramData(ms[k].scopes[i].points));
  }
}
