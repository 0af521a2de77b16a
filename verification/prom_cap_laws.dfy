/**
 * What the caps promise about the labels a scrape carries (internal/metricscap/reader.go:188-300):
 * the same two promises as for an OTLP export, series by series.
 */
module PromCapLaws {
  import opened Wrappers
  import opened Budgets
  import opened PointMerge
  import opened OtlpPoints
  import opened PromLimiter
  import Caps = CapLaws
  import Otlp = OtlpLimiter
  import LimitersAgreement

  // ---- What is read off a family

  /** The rule is about series with these labels. */
  predicate About(r: PromRule, l: Labels) {
    r.scope == "" || (SCOPE_LABEL in l && l[SCOPE_LABEL] == r.scope)
  }

  ghost predicate HasLabels(ss: seq<Series>, l: Labels) {
    exists s :: s in ss && s.labels == l
  }

  /** Some series the rule is about has the value v under its label. */
  ghost predicate Shows(ss: seq<Series>, r: PromRule, v: string) {
    exists l :: HasLabels(ss, l) && About(r, l) && r.label_ in l && l[r.label_] == v
  }

  ghost predicate SameShown(ss: seq<Series>, ss': seq<Series>, r: PromRule) {
    forall v :: Shows(ss, r, v) <==> Shows(ss', r, v)
  }

  // ---- One rule on one family

  /** The labels a budget that has decided leaves of a series. */
  function Relabelled(b: Budget, r: PromRule, l: Labels): Labels {
    if About(r, l) && r.label_ in l then l[r.label_ := Label(b, l[r.label_])] else l
  }

  ghost predicate LabelsDecided(b: Budget, r: PromRule, l: Labels) {
    About(r, l) && r.label_ in l ==> Decided(b, l[r.label_])
  }

  lemma {:induction false} LabelsUnderTheFinalBudget(b: Budget, r: PromRule, ss: seq<Series>)
    requires |b.seen| <= b.max
    ensures var (b', out) := RewriteLabels(b, r, ss);
            && Grows(b, b') && |b'.seen| <= b'.max
            && forall i :: 0 <= i < |ss| ==>
                 out[i].labels == Relabelled(b', r, ss[i].labels) && LabelsDecided(b', r, ss[i].labels)
  {
    if ss != [] {
      LabelsUnderTheFinalBudget(b, r, ss[..|ss| - 1]);
    }
  }

  lemma MergingKeepsLabels(ss: seq<Series>, l: Labels)
    ensures HasLabels(Merged(ss, LabelsOf, MergeSeries), l) <==> HasLabels(ss, l)
  {
    var out := Merged(ss, LabelsOf, MergeSeries);
    MergedKeys(ss, LabelsOf, MergeSeries, (s: Series) => true);
    var keys := FirstKeys(ss, LabelsOf);
    if HasLabels(out, l) {
      var i :| 0 <= i < |out| && out[i].labels == l;
      assert LabelsOf(out[i]) == keys[i] && l in keys;
    }
    if HasLabels(ss, l) {
      var s :| s in ss && s.labels == l;
      assert LabelsOf(s) == l && l in keys;
      var i :| 0 <= i < |keys| && keys[i] == l;
      assert LabelsOf(out[i]) == l;
    }
  }

  /** Each label set that comes out is one that went in, relabelled by the budget as the rule leaves it. */
  lemma FamilyIsRelabelled(b: Budget, r: PromRule, ss: seq<Series>)
    requires |b.seen| <= b.max
    ensures var (b', out) := RewriteFamily(b, r, ss);
            && Grows(b, b') && |b'.seen| <= b'.max
            && (forall l :: HasLabels(ss, l) ==> HasLabels(out, Relabelled(b', r, l)) && LabelsDecided(b', r, l))
            && (forall l :: HasLabels(out, l) ==> exists o :: HasLabels(ss, o) && l == Relabelled(b', r, o))
  {
    LabelsUnderTheFinalBudget(b, r, ss);
    var (b', rewritten) := RewriteLabels(b, r, ss);
    var out := Merged(rewritten, LabelsOf, MergeSeries);
    forall l | HasLabels(ss, l)
      ensures HasLabels(out, Relabelled(b', r, l)) && LabelsDecided(b', r, l)
    {
      var i :| 0 <= i < |ss| && ss[i].labels == l;
      assert rewritten[i] in rewritten;
      MergingKeepsLabels(rewritten, rewritten[i].labels);
    }
    forall l | HasLabels(out, l)
      ensures exists o :: HasLabels(ss, o) && l == Relabelled(b', r, o)
    {
      MergingKeepsLabels(rewritten, l);
      var i :| 0 <= i < |rewritten| && rewritten[i].labels == l;
      assert ss[i] in ss;
    }
  }

  // ---- No more than the cap

  lemma RuleGrows(bs: BudgetTable, r: PromRule, ss: seq<Series>)
    requires Sound(bs) && Usable(r)
    ensures Sound(ApplyRule(bs, r, ss).0) && AllGrow(bs, ApplyRule(bs, r, ss).0)
  {
    FamilyIsRelabelled(BudgetOf(bs, r), r, ss);
  }

  ghost predicate SettledLabels(bs: BudgetTable, r: PromRule, l: Labels) {
    About(r, l) && r.label_ in l ==>
      l[r.label_] == OVERFLOW || (BudgetName(r) in bs && l[r.label_] in bs[BudgetName(r)].seen)
  }

  /** Every series the rule is about carries the overflow label or a value its budget admitted. */
  ghost predicate SettledFamily(bs: BudgetTable, r: PromRule, ss: seq<Series>) {
    forall l :: HasLabels(ss, l) ==> SettledLabels(bs, r, l)
  }

  /** Rule q does not move series into the scope of r: a capped scope label becomes the overflow label. */
  predicate LeavesScope(q: PromRule, r: PromRule) {
    q.label_ == SCOPE_LABEL ==> r.scope != OVERFLOW
  }

  lemma RelabellingSettles(bs: BudgetTable, bs': BudgetTable, q: PromRule, r: PromRule, l: Labels)
    requires AllGrow(bs, bs') && BudgetName(q) in bs' && LabelsDecided(bs'[BudgetName(q)], q, l)
    requires LeavesScope(q, r) && (r == q || SettledLabels(bs, r, l))
    ensures SettledLabels(bs', r, Relabelled(bs'[BudgetName(q)], q, l))
  {
  }

  lemma RuleSettles(bs: BudgetTable, q: PromRule, ss: seq<Series>, r: PromRule)
    requires Sound(bs) && Usable(q) && LeavesScope(q, r) && (r == q || SettledFamily(bs, r, ss))
    ensures SettledFamily(ApplyRule(bs, q, ss).0, r, ApplyRule(bs, q, ss).1)
  {
    var (bs', out) := ApplyRule(bs, q, ss);
    FamilyIsRelabelled(BudgetOf(bs, q), q, ss);
    RuleGrows(bs, q, ss);
    forall l | HasLabels(out, l)
      ensures SettledLabels(bs', r, l)
    {
      var o :| HasLabels(ss, o) && l == Relabelled(bs'[BudgetName(q)], q, o);
      RelabellingSettles(bs, bs', q, r, o);
    }
  }

  lemma {:induction false} RulesGrow(bs: BudgetTable, rules: seq<PromRule>, f: PromFamily)
    requires Sound(bs) && AllUsable(rules)
    ensures var (bs', f') := ApplyRules(bs, rules, f); Sound(bs') && AllGrow(bs, bs') && f'.name == f.name
  {
    if rules != [] {
      var before, q := rules[..|rules| - 1], rules[|rules| - 1];
      RulesGrow(bs, before, f);
      var (bs1, f1) := ApplyRules(bs, before, f);
      if f.name == q.metric {
        RuleGrows(bs1, q, f1.series);
      }
    }
  }

  lemma {:induction false} RulesSettle(bs: BudgetTable, rules: seq<PromRule>, f: PromFamily, r: PromRule)
    requires Sound(bs) && AllUsable(rules) && r in rules && r.metric == f.name
    requires forall q :: q in rules ==> LeavesScope(q, r)
    ensures SettledFamily(ApplyRules(bs, rules, f).0, r, ApplyRules(bs, rules, f).1.series)
  {
    var before, q := rules[..|rules| - 1], rules[|rules| - 1];
    assert rules == before + [q];
    RulesGrow(bs, before, f);
    if r in before {
      RulesSettle(bs, before, f, r);
    }
    var (bs1, f1) := ApplyRules(bs, before, f);
    if f.name == q.metric {
      RuleSettles(bs1, q, f1.series, r);
    }
  }

  lemma SettledFamilyStays(bs: BudgetTable, bs': BudgetTable, r: PromRule, ss: seq<Series>)
    requires SettledFamily(bs, r, ss) && AllGrow(bs, bs')
    ensures SettledFamily(bs', r, ss)
  {
    forall l | HasLabels(ss, l)
      ensures SettledLabels(bs', r, l)
    {
      assert SettledLabels(bs, r, l);
    }
  }

  lemma {:induction false} FamiliesGrow(bs: BudgetTable, rules: seq<PromRule>, fs: seq<PromFamily>)
    requires Sound(bs) && AllUsable(rules)
    ensures Sound(RewriteFamilies(bs, rules, fs).0) && AllGrow(bs, RewriteFamilies(bs, rules, fs).0)
  {
    if fs != [] {
      FamiliesGrow(bs, rules, fs[..|fs| - 1]);
      RulesGrow(RewriteFamilies(bs, rules, fs[..|fs| - 1]).0, rules, fs[|fs| - 1]);
    }
  }

  lemma {:induction false} FamiliesSettle(bs: BudgetTable, rules: seq<PromRule>, fs: seq<PromFamily>, r: PromRule, i: nat)
    requires Sound(bs) && AllUsable(rules) && r in rules && i < |fs| && r.metric == fs[i].name
    requires forall q :: q in rules ==> LeavesScope(q, r)
    ensures SettledFamily(RewriteFamilies(bs, rules, fs).0, r, RewriteFamilies(bs, rules, fs).1[i].series)
  {
    var before, f := fs[..|fs| - 1], fs[|fs| - 1];
    FamiliesGrow(bs, rules, before);
    var (bs1, out1) := RewriteFamilies(bs, rules, before);
    RulesGrow(bs1, rules, f);
    if i == |fs| - 1 {
      RulesSettle(bs1, rules, f, r);
    } else {
      FamiliesSettle(bs, rules, before, r, i);
      SettledFamilyStays(bs1, ApplyRules(bs1, rules, f).0, r, out1[i].series);
    }
  }

  // ---- The cap a budget gets

  /** The uses of the rules on one family and on a scrape, in the order they happen. */
  function FamilyUses(rules: seq<PromRule>, name: string): seq<Otlp.Rule> {
    if rules == [] then []
    else
      var before, r := FamilyUses(rules[..|rules| - 1], name), rules[|rules| - 1];
      if r.metric == name then before + [LimitersAgreement.ToRule(r)] else before
  }

  function ScrapeUses(rules: seq<PromRule>, fs: seq<PromFamily>): seq<Otlp.Rule> {
    if fs == [] then [] else ScrapeUses(rules, fs[..|fs| - 1]) + FamilyUses(rules, fs[|fs| - 1].name)
  }

  lemma RuleCaps(bs: BudgetTable, r: PromRule, ss: seq<Series>, name: string)
    requires Sound(bs) && Usable(r)
    ensures Caps.CapIn(ApplyRule(bs, r, ss).0, name) == Caps.CapAfter(bs, [LimitersAgreement.ToRule(r)], name)
  {
    FamilyIsRelabelled(BudgetOf(bs, r), r, ss);
    assert ApplyRule(bs, r, ss).0 == bs[BudgetName(r) := RewriteFamily(BudgetOf(bs, r), r, ss).0];
    Caps.FirstCapOfOne(LimitersAgreement.ToRule(r), name);
  }

  lemma {:induction false} RulesCap(bs: BudgetTable, rules: seq<PromRule>, f: PromFamily, name: string)
    requires Sound(bs) && AllUsable(rules)
    ensures Caps.CapIn(ApplyRules(bs, rules, f).0, name) == Caps.CapAfter(bs, FamilyUses(rules, f.name), name)
  {
    if rules != [] {
      var before, r := rules[..|rules| - 1], rules[|rules| - 1];
      RulesCap(bs, before, f, name);
      RulesGrow(bs, before, f);
      var (bs1, f1) := ApplyRules(bs, before, f);
      if f.name == r.metric {
        RuleCaps(bs1, r, f1.series, name);
        Caps.CapsCompose(bs, bs1, FamilyUses(before, f.name), [LimitersAgreement.ToRule(r)], name);
      }
    }
  }

  lemma {:induction false} FamiliesCap(bs: BudgetTable, rules: seq<PromRule>, fs: seq<PromFamily>, name: string)
    requires Sound(bs) && AllUsable(rules)
    ensures Caps.CapIn(RewriteFamilies(bs, rules, fs).0, name) == Caps.CapAfter(bs, ScrapeUses(rules, fs), name)
  {
    if fs != [] {
      var before, f := fs[..|fs| - 1], fs[|fs| - 1];
      FamiliesCap(bs, rules, before, name);
      FamiliesGrow(bs, rules, before);
      var bs1 := RewriteFamilies(bs, rules, before).0;
      RulesCap(bs1, rules, f, name);
      Caps.CapsCompose(bs, bs1, ScrapeUses(rules, before), FamilyUses(rules, f.name), name);
    }
  }

  /** v comes out under the label of some rule that draws on the named budget. */
  ghost predicate ComesOutOf(fs: seq<PromFamily>, out: seq<PromFamily>, rules: seq<PromRule>, name: string, v: string) {
    exists q, i: nat ::
      q in rules && BudgetName(q) == name && i < |fs| == |out| && q.metric == fs[i].name && Shows(out[i].series, q, v)
  }

  /** Over all families and rules that draw on one budget, no more distinct values come out, the
      overflow label apart, than the Max of the first rule that drew on it. */
  lemma NoMoreThanTheCapComesOut(rules: seq<PromRule>, fs: seq<PromFamily>, name: string, values: set<string>)
    requires AllUsable(rules) && OVERFLOW !in values
    requires forall q, r :: q in rules && r in rules && BudgetName(r) == name ==> LeavesScope(q, r)
    requires forall v :: v in values ==> ComesOutOf(fs, RewriteFamilies(map[], rules, fs).1, rules, name, v)
    ensures values != {} ==> Caps.FirstCap(ScrapeUses(rules, fs), name).Some?
    ensures values != {} ==> |values| <= Caps.FirstCap(ScrapeUses(rules, fs), name).value
  {
    var (bs', out) := RewriteFamilies(map[], rules, fs);
    FamiliesGrow(map[], rules, fs);
    FamiliesCap(map[], rules, fs, name);
    forall v | v in values
      ensures name in bs' && v in bs'[name].seen
    {
      var q, i: nat :|
        q in rules && BudgetName(q) == name && i < |fs| == |out| && q.metric == fs[i].name && Shows(out[i].series, q, v);
      FamiliesSettle(map[], rules, fs, q, i);
      var l :| HasLabels(out[i].series, l) && About(q, l) && q.label_ in l && l[q.label_] == v;
      assert SettledLabels(bs', q, l);
    }
    if values != {} {
      Caps.SubsetIsSmaller(values, bs'[name].seen);
    }
  }

  // ---- While they fit, all of them

  lemma {:induction false} RoomyBudgetKeepsLabels(b: Budget, r: PromRule, ss: seq<Series>, values: set<string>)
    requires b.seen <= values && |values| <= b.max
    requires forall l :: HasLabels(ss, l) && About(r, l) && r.label_ in l ==> l[r.label_] in values
    ensures RewriteLabels(b, r, ss).1 == ss
    ensures RewriteLabels(b, r, ss).0.seen <= values && RewriteLabels(b, r, ss).0.max == b.max
  {
    if ss != [] {
      var before, last := ss[..|ss| - 1], ss[|ss| - 1];
      assert ss == before + [last];
      assert last in ss && HasLabels(ss, last.labels);
      assert forall s :: s in before ==> s in ss;
      RoomyBudgetKeepsLabels(b, r, before, values);
      RoomyBudgetKeepsSeries(RewriteLabels(b, r, before).0, r, last, values);
    }
  }

  lemma RoomyBudgetKeepsSeries(b: Budget, r: PromRule, s: Series, values: set<string>)
    requires b.seen <= values && |values| <= b.max
    requires About(r, s.labels) && r.label_ in s.labels ==> s.labels[r.label_] in values
    ensures RewriteLabel(b, r, s).1 == s
    ensures RewriteLabel(b, r, s).0.seen <= values && RewriteLabel(b, r, s).0.max == b.max
  {
    Caps.SubsetIsSmaller(b.seen, values);
    if About(r, s.labels) && r.label_ in s.labels {
      assert s.labels[r.label_ := s.labels[r.label_]] == s.labels;
    }
  }

  lemma RoomyRuleKeepsShown(bs: BudgetTable, q: PromRule, ss: seq<Series>, r: PromRule, values: set<string>)
    requires Sound(bs) && Usable(q) && Caps.RoomFor(bs, BudgetName(q), values)
    requires forall v :: Shows(ss, q, v) ==> v in values
    requires BudgetName(q) in bs || |values| <= q.max
    ensures Caps.RoomFor(ApplyRule(bs, q, ss).0, BudgetName(q), values) && SameShown(ss, ApplyRule(bs, q, ss).1, r)
  {
    forall l | HasLabels(ss, l) && About(q, l) && q.label_ in l
      ensures l[q.label_] in values
    {
      assert Shows(ss, q, l[q.label_]);
    }
    RoomyBudgetKeepsLabels(BudgetOf(bs, q), q, ss, values);
    var out := ApplyRule(bs, q, ss).1;
    forall l
      ensures HasLabels(out, l) <==> HasLabels(ss, l)
    {
      MergingKeepsLabels(ss, l);
    }
  }

  /** What q caps is none of what r looks at: another label, or series of another scope. */
  predicate Elsewhere(q: PromRule, r: PromRule) {
    q.label_ != SCOPE_LABEL && (q.label_ != r.label_ || (q.scope != "" && r.scope != "" && q.scope != r.scope))
  }

  lemma RelabellingElsewhere(b: Budget, q: PromRule, r: PromRule, l: Labels)
    requires Elsewhere(q, r)
    ensures var l' := Relabelled(b, q, l);
            && About(r, l') == About(r, l)
            && (About(r, l) ==> (r.label_ in l' <==> r.label_ in l) && (r.label_ in l ==> l'[r.label_] == l[r.label_]))
  {
  }

  lemma OtherRuleKeepsShown(bs: BudgetTable, q: PromRule, ss: seq<Series>, name: string, r: PromRule, values: set<string>)
    requires Sound(bs) && Usable(q) && BudgetName(q) != name && Caps.RoomFor(bs, name, values)
    ensures Caps.RoomFor(ApplyRule(bs, q, ss).0, name, values)
    ensures Elsewhere(q, r) ==> SameShown(ss, ApplyRule(bs, q, ss).1, r)
  {
    FamilyIsRelabelled(BudgetOf(bs, q), q, ss);
    var (b', out) := RewriteFamily(BudgetOf(bs, q), q, ss);
    forall v | Elsewhere(q, r)
      ensures Shows(ss, r, v) <==> Shows(out, r, v)
    {
      if Shows(ss, r, v) {
        var l :| HasLabels(ss, l) && About(r, l) && r.label_ in l && l[r.label_] == v;
        RelabellingElsewhere(b', q, r, l);
        assert HasLabels(out, Relabelled(b', q, l));
      }
      if Shows(out, r, v) {
        var l :| HasLabels(out, l) && About(r, l) && r.label_ in l && l[r.label_] == v;
        var o :| HasLabels(ss, o) && l == Relabelled(b', q, o);
        RelabellingElsewhere(b', q, r, o);
      }
    }
  }

  /** The values a family brings to the named budget are all in values, and no rule drawing on
      another budget caps them there. */
  ghost predicate Fits(rules: seq<PromRule>, f: PromFamily, name: string, values: set<string>) {
    forall q :: q in rules && q.metric == f.name && BudgetName(q) == name ==>
      (forall v :: Shows(f.series, q, v) ==> v in values) && OnlyBudgetFor(rules, f.name, name, q)
  }

  ghost predicate OnlyBudgetFor(rules: seq<PromRule>, metric: string, name: string, r: PromRule) {
    forall p :: p in rules && p.metric == metric && BudgetName(p) != name ==> Elsewhere(p, r)
  }

  lemma FitsFewer(rules: seq<PromRule>, q: PromRule, f: PromFamily, name: string, values: set<string>)
    requires Fits(rules + [q], f, name, values)
    ensures Fits(rules, f, name, values)
    ensures q.metric == f.name && BudgetName(q) == name ==>
              (forall v :: Shows(f.series, q, v) ==> v in values) && OnlyBudgetFor(rules, f.name, name, q)
  {
    assert forall p :: p in rules ==> p in rules + [q];
    assert q in rules + [q];
    forall p | p in rules + [q] && p.metric == f.name && BudgetName(p) == name
      ensures OnlyBudgetFor(rules, f.name, name, p)
    {
      OnlyBudgetForFewer(rules, q, f.name, name, p);
    }
  }

  lemma OnlyBudgetForFewer(rules: seq<PromRule>, q: PromRule, metric: string, name: string, r: PromRule)
    requires OnlyBudgetFor(rules + [q], metric, name, r)
    ensures OnlyBudgetFor(rules, metric, name, r)
    ensures q.metric == metric ==> BudgetName(q) == name || Elsewhere(q, r)
  {
    assert q in rules + [q];
    assert forall p :: p in rules ==> p in rules + [q];
  }

  lemma OneMoreRuleKeepsShown(bs: BudgetTable, q: PromRule, ss: seq<Series>, name: string, r: PromRule, values: set<string>)
    requires Sound(bs) && Usable(q) && Caps.RoomFor(bs, name, values)
    requires BudgetName(q) == name ==> (forall v :: Shows(ss, q, v) ==> v in values) && (name in bs || |values| <= q.max)
    ensures Caps.RoomFor(ApplyRule(bs, q, ss).0, name, values)
    ensures BudgetName(q) == name || Elsewhere(q, r) ==> SameShown(ss, ApplyRule(bs, q, ss).1, r)
  {
    if BudgetName(q) == name {
      RoomyRuleKeepsShown(bs, q, ss, r, values);
    } else {
      OtherRuleKeepsShown(bs, q, ss, name, r, values);
    }
  }

  lemma SameShownTwice(ss: seq<Series>, ss1: seq<Series>, ss2: seq<Series>, r: PromRule)
    requires SameShown(ss, ss1, r) && SameShown(ss1, ss2, r)
    ensures SameShown(ss, ss2, r)
  {
  }

  lemma CapOfFewer(bs: BudgetTable, rules: seq<PromRule>, q: PromRule, f: PromFamily, name: string)
    ensures var cap := Caps.CapAfter(bs, FamilyUses(rules, f.name), name);
            var more := Caps.CapAfter(bs, FamilyUses(rules + [q], f.name), name);
            && (cap.Some? ==> more == cap)
            && (cap.None? && q.metric == f.name && BudgetName(q) == name ==> more == Some(q.max))
  {
    var use := LimitersAgreement.ToRule(q);
    assert (rules + [q])[..|rules|] == rules;
    Caps.FirstCapOfMore(FamilyUses(rules, f.name), [use], name);
    Caps.FirstCapOfOne(use, name);
  }

  lemma {:induction false} FittingFamilyKeepsShown(
      bs: BudgetTable, rules: seq<PromRule>, f: PromFamily, name: string, r: PromRule, values: set<string>)
    requires Sound(bs) && AllUsable(rules) && Caps.RoomFor(bs, name, values) && Fits(rules, f, name, values)
    requires Caps.CapHolds(Caps.CapAfter(bs, FamilyUses(rules, f.name), name), values)
    ensures Caps.RoomFor(ApplyRules(bs, rules, f).0, name, values)
    ensures OnlyBudgetFor(rules, f.name, name, r) ==> SameShown(f.series, ApplyRules(bs, rules, f).1.series, r)
  {
    if rules != [] {
      var before, q := rules[..|rules| - 1], rules[|rules| - 1];
      assert rules == before + [q];
      FitsFewer(before, q, f, name, values);
      CapOfFewer(bs, before, q, f, name);
      FittingFamilyKeepsShown(bs, before, f, name, r, values);
      RulesGrow(bs, before, f);
      var (bs1, f1) := ApplyRules(bs, before, f);
      if OnlyBudgetFor(rules, f.name, name, r) {
        OnlyBudgetForFewer(before, q, f.name, name, r);
      }
      if f.name == q.metric {
        RulesCap(bs, before, f, name);
        if BudgetName(q) == name {
          FittingFamilyKeepsShown(bs, before, f, name, q, values);
        }
        OneMoreRuleKeepsShown(bs1, q, f1.series, name, r, values);
        if OnlyBudgetFor(rules, f.name, name, r) {
          SameShownTwice(f.series, f1.series, ApplyRule(bs1, q, f1.series).1, r);
        }
      }
    }
  }

  /** What each rule that draws on the named budget looks at is the same before and after. */
  ghost predicate Kept(rules: seq<PromRule>, f: PromFamily, f': PromFamily, name: string) {
    forall r :: OnlyBudgetFor(rules, f.name, name, r) ==> SameShown(f.series, f'.series, r)
  }

  ghost predicate AllKept(rules: seq<PromRule>, fs: seq<PromFamily>, out: seq<PromFamily>, name: string) {
    |out| == |fs| && forall i :: 0 <= i < |fs| ==> Kept(rules, fs[i], out[i], name)
  }

  lemma FittingFamilyIsKept(bs: BudgetTable, rules: seq<PromRule>, f: PromFamily, name: string, r: PromRule, values: set<string>)
    requires Sound(bs) && AllUsable(rules) && Caps.RoomFor(bs, name, values) && Fits(rules, f, name, values)
    requires Caps.CapHolds(Caps.CapAfter(bs, FamilyUses(rules, f.name), name), values)
    ensures Caps.RoomFor(ApplyRules(bs, rules, f).0, name, values) && Kept(rules, f, ApplyRules(bs, rules, f).1, name)
  {
    FittingFamilyKeepsShown(bs, rules, f, name, r, values);
    forall q | OnlyBudgetFor(rules, f.name, name, q)
      ensures SameShown(f.series, ApplyRules(bs, rules, f).1.series, q)
    {
      FittingFamilyKeepsShown(bs, rules, f, name, q, values);
    }
  }

  lemma RewriteOneMoreFamily(bs: BudgetTable, rules: seq<PromRule>, fs: seq<PromFamily>, f: PromFamily)
    requires AllUsable(rules)
    ensures var (bs1, out1) := RewriteFamilies(bs, rules, fs);
            var (bs2, f') := ApplyRules(bs1, rules, f);
            RewriteFamilies(bs, rules, fs + [f]) == (bs2, out1 + [f'])
  {
    assert (fs + [f])[..|fs|] == fs;
  }

  lemma OneMoreFamilyIsKept(
      bs: BudgetTable, rules: seq<PromRule>, fs: seq<PromFamily>, f: PromFamily, name: string, r: PromRule, values: set<string>)
    requires Sound(bs) && AllUsable(rules) && Fits(rules, f, name, values)
    requires Caps.RoomFor(RewriteFamilies(bs, rules, fs).0, name, values)
    requires AllKept(rules, fs, RewriteFamilies(bs, rules, fs).1, name)
    requires Caps.CapHolds(Caps.CapAfter(bs, ScrapeUses(rules, fs) + FamilyUses(rules, f.name), name), values)
    ensures Caps.RoomFor(RewriteFamilies(bs, rules, fs + [f]).0, name, values)
    ensures AllKept(rules, fs + [f], RewriteFamilies(bs, rules, fs + [f]).1, name)
  {
    var bs1 := RewriteFamilies(bs, rules, fs).0;
    FamiliesGrow(bs, rules, fs);
    FamiliesCap(bs, rules, fs, name);
    Caps.CapsCompose(bs, bs1, ScrapeUses(rules, fs), FamilyUses(rules, f.name), name);
    FittingFamilyIsKept(bs1, rules, f, name, r, values);
    RewriteOneMoreFamily(bs, rules, fs, f);
  }

  lemma {:induction false} FittingFamiliesAreKept(
      bs: BudgetTable, rules: seq<PromRule>, fs: seq<PromFamily>, name: string, r: PromRule, values: set<string>)
    requires Sound(bs) && AllUsable(rules) && Caps.RoomFor(bs, name, values)
    requires forall f :: f in fs ==> Fits(rules, f, name, values)
    requires Caps.CapHolds(Caps.CapAfter(bs, ScrapeUses(rules, fs), name), values)
    ensures Caps.RoomFor(RewriteFamilies(bs, rules, fs).0, name, values)
    ensures AllKept(rules, fs, RewriteFamilies(bs, rules, fs).1, name)
  {
    if fs != [] {
      var before, f := fs[..|fs| - 1], fs[|fs| - 1];
      assert f in fs && forall x :: x in before ==> x in fs;
      Caps.CapOfEarlierUses(bs, ScrapeUses(rules, before), FamilyUses(rules, f.name), name, values);
      FittingFamiliesAreKept(bs, rules, before, name, r, values);
      OneMoreFamilyIsKept(bs, rules, before, f, name, r, values);
      assert fs == before + [f];
    }
  }

  // ---- A rule with a budget of its own

  /** Rule r carries no BudgetKey, and whatever shares the name of its budget has the same Max. */
  ghost predicate OwnBudget(rules: seq<PromRule>, r: PromRule) {
    && r.budgetKey == ""
    && forall q :: q in rules && q.max != r.max ==>
         (if q.budgetKey != "" then q.budgetKey else q.scope + "\0" + q.metric + "\0" + q.label_)
         != r.scope + "\0" + r.metric + "\0" + r.label_
  }

  lemma {:induction false} FamilyUsesCap(rules: seq<PromRule>, all: seq<PromRule>, r: PromRule, name: string)
    requires OwnBudget(all, r) && forall q :: q in rules ==> q in all
    ensures var cap := Caps.FirstCap(FamilyUses(rules, name), BudgetName(r)); cap.Some? ==> cap.value == r.max
  {
    if rules != [] {
      var before, q := rules[..|rules| - 1], rules[|rules| - 1];
      assert q in rules;
      FamilyUsesCap(before, all, r, name);
      if q.metric == name {
        Caps.FirstCapOfMore(FamilyUses(before, name), [LimitersAgreement.ToRule(q)], BudgetName(r));
        Caps.FirstCapOfOne(LimitersAgreement.ToRule(q), BudgetName(r));
      }
    }
  }

  lemma {:induction false} ScrapeUsesCap(rules: seq<PromRule>, fs: seq<PromFamily>, r: PromRule)
    requires OwnBudget(rules, r)
    ensures var cap := Caps.FirstCap(ScrapeUses(rules, fs), BudgetName(r)); cap.Some? ==> cap.value == r.max
  {
    if fs != [] {
      ScrapeUsesCap(rules, fs[..|fs| - 1], r);
      FamilyUsesCap(rules, rules, r, fs[|fs| - 1].name);
      Caps.FirstCapOfMore(ScrapeUses(rules, fs[..|fs| - 1]), FamilyUses(rules, fs[|fs| - 1].name), BudgetName(r));
    }
  }

  /** Over all the families a rule names, at most Max distinct values come out under its label in
      the series of its scope, beside the overflow label. */
  lemma AtMostMaxValuesComeOut(rules: seq<PromRule>, fs: seq<PromFamily>, r: PromRule, values: set<string>)
    requires AllUsable(rules) && r in rules && OwnBudget(rules, r) && OVERFLOW !in values
    requires (forall q :: q in rules ==> q.label_ != SCOPE_LABEL) || (forall q :: q in rules ==> q.scope != OVERFLOW)
    requires forall v :: v in values ==>
               exists i: nat :: i < |fs| && fs[i].name == r.metric && Shows(RewriteFamilies(map[], rules, fs).1[i].series, r, v)
    ensures |values| <= r.max
  {
    var out := RewriteFamilies(map[], rules, fs).1;
    forall v | v in values
      ensures ComesOutOf(fs, out, rules, BudgetName(r), v)
    {
      var i: nat :| i < |fs| && fs[i].name == r.metric && Shows(out[i].series, r, v);
    }
    NoMoreThanTheCapComesOut(rules, fs, BudgetName(r), values);
    ScrapeUsesCap(rules, fs, r);
  }

  /** The values under the rules that draw on the named budget are all in values, and no rule that draws
      on another caps the same label of the same metric where the scopes meet, or the scope label. */
  ghost predicate InputFits(rules: seq<PromRule>, fs: seq<PromFamily>, name: string, values: set<string>) {
    forall f, q :: f in fs && q in rules && BudgetName(q) == name && q.metric == f.name ==>
      && (forall v :: Shows(f.series, q, v) ==> v in values)
      && (forall p :: p in rules && p.metric == f.name && BudgetName(p) != name ==>
            p.label_ != SCOPE_LABEL && (p.label_ != q.label_ || (p.scope != "" && q.scope != "" && p.scope != q.scope)))
  }

  /** And when the input has at most Max of them, every one comes out as it was. */
  lemma AtMostMaxValuesStay(rules: seq<PromRule>, fs: seq<PromFamily>, r: PromRule, values: set<string>, i: nat)
    requires AllUsable(rules) && r in rules && OwnBudget(rules, r)
    requires InputFits(rules, fs, r.scope + "\0" + r.metric + "\0" + r.label_, values) && |values| <= r.max
    requires i < |fs| && fs[i].name == r.metric
    ensures forall v :: Shows(RewriteFamilies(map[], rules, fs).1[i].series, r, v) <==> Shows(fs[i].series, r, v)
  {
    var name := BudgetName(r);
    forall f | f in fs
      ensures Fits(rules, f, name, values)
    {
    }
    ScrapeUsesCap(rules, fs, r);
    FittingFamiliesAreKept(map[], rules, fs, name, r, values);
    assert fs[i] in fs && OnlyBudgetFor(rules, fs[i].name, name, r);
    assert Kept(rules, fs[i], RewriteFamilies(map[], rules, fs).1[i], name);
  }

  // ---- What no rule names, and several scrapes

  lemma {:induction false} NoRuleNames(bs: BudgetTable, rules: seq<PromRule>, f: PromFamily)
    requires AllUsable(rules) && forall r :: r in rules ==> r.metric != f.name
    ensures ApplyRules(bs, rules, f) == (bs, f)
  {
    if rules != [] {
      assert rules[|rules| - 1] in rules;
      NoRuleNames(bs, rules[..|rules| - 1], f);
    }
  }

  /** A family that no rule names is not touched. */
  lemma {:induction false} UnnamedFamiliesAreUntouched(bs: BudgetTable, rules: seq<PromRule>, fs: seq<PromFamily>, i: nat)
    requires AllUsable(rules) && i < |fs| && forall r :: r in rules ==> r.metric != fs[i].name
    ensures RewriteFamilies(bs, rules, fs).1[i] == fs[i]
  {
    var before := fs[..|fs| - 1];
    if i == |fs| - 1 {
      NoRuleNames(RewriteFamilies(bs, rules, before).0, rules, fs[i]);
    } else {
      UnnamedFamiliesAreUntouched(bs, rules, before, i);
    }
  }

  /** The result of two scrapes, one after the other. */
  ghost function Twice(bs: BudgetTable, rules: seq<PromRule>, fs: seq<PromFamily>, gs: seq<PromFamily>):
      (BudgetTable, seq<PromFamily>)
    requires AllUsable(rules)
  {
    var (bs1, first) := RewriteFamilies(bs, rules, fs);
    var (bs2, second) := RewriteFamilies(bs1, rules, gs);
    (bs2, first + second)
  }

  lemma TwiceOneMore(bs: BudgetTable, rules: seq<PromRule>, fs: seq<PromFamily>, gs: seq<PromFamily>, g: PromFamily)
    requires AllUsable(rules)
    ensures var (bs1, out1) := Twice(bs, rules, fs, gs);
            var (bs2, g') := ApplyRules(bs1, rules, g);
            Twice(bs, rules, fs, gs + [g]) == (bs2, out1 + [g'])
  {
    var (bs1, first) := RewriteFamilies(bs, rules, fs);
    var (bs2, second) := RewriteFamilies(bs1, rules, gs);
    RewriteOneMoreFamily(bs1, rules, gs, g);
    var last := [ApplyRules(bs2, rules, g).1];
    assert (first + second) + last == first + (second + last);
  }

  /** Two scrapes through one limiter come to one scrape of both, so the caps bound all the scrapes
      of a limiter's life together. */
  lemma {:induction false} ScrapesRunTogether(bs: BudgetTable, rules: seq<PromRule>, fs: seq<PromFamily>, gs: seq<PromFamily>)
    requires AllUsable(rules)
    ensures RewriteFamilies(bs, rules, fs + gs) == Twice(bs, rules, fs, gs)
  {
    if gs == [] {
      assert fs + gs == fs;
      assert RewriteFamilies(bs, rules, fs).1 + [] == RewriteFamilies(bs, rules, fs).1;
    } else {
      var before, g := gs[..|gs| - 1], gs[|gs| - 1];
      ScrapesRunTogether(bs, rules, fs, before);
      RewriteOneMoreFamily(bs, rules, fs + before, g);
      TwiceOneMore(bs, rules, fs, before, g);
      assert gs == before + [g] && fs + gs == (fs + before) + [g];
    }
  }

  // ---- When the scope label itself is capped

  /** A series of a scope with one more label. */
  function Sample(scope: string, v: string): Series {
    Series(map[SCOPE_LABEL := scope, "l" := v], None, Some(1.0), None, None, None, None)
  }

  /** A rule about the scope "other", and one that caps the scope label. */
  const ABOUT_OTHER := PromRule("m", "l", 1, OVERFLOW, "")
  const SCOPE_CAP := PromRule("m", SCOPE_LABEL, 1, "", "")

  lemma {:induction false} NothingToRelabel(b: Budget, r: PromRule, ss: seq<Series>)
    requires forall s :: s in ss ==> !About(r, s.labels)
    ensures RewriteLabels(b, r, ss) == (b, ss)
  {
    if ss != [] {
      var before, last := ss[..|ss| - 1], ss[|ss| - 1];
      assert ss == before + [last] && last in ss;
      NothingToRelabel(b, r, before);
    }
  }

  lemma ScopeAdmitted(scope: string, v: string)
    ensures RewriteLabel(Budget(1, {}), SCOPE_CAP, Sample(scope, v)) == (Budget(1, {scope}), Sample(scope, v))
  {
    assert Sample(scope, v).labels[SCOPE_LABEL := scope] == Sample(scope, v).labels;
  }

  lemma ScopeOverflows(first: string, scope: string, v: string)
    requires scope != first
    ensures RewriteLabel(Budget(1, {first}), SCOPE_CAP, Sample(scope, v)) == (Budget(1, {first}), Sample(OVERFLOW, v))
  {
    assert Sample(scope, v).labels[SCOPE_LABEL := OVERFLOW] == Sample(OVERFLOW, v).labels;
  }

  lemma ThreeSeries(b: Budget, b': Budget, r: PromRule, x: Series, y: Series, z: Series, y': Series, z': Series)
    requires RewriteLabel(b, r, x) == (b', x) && RewriteLabel(b', r, y) == (b', y') && RewriteLabel(b', r, z) == (b', z')
    ensures RewriteLabels(b, r, [x, y, z]) == (b', [x, y', z'])
  {
    RewriteLabelsOneMore(b, r, [], x);
    RewriteLabelsOneMore(b, r, [x], y);
    RewriteLabelsOneMore(b, r, [x, y], z);
    assert [] + [x] == [x] && [x] + [y] == [x, y] && [x, y] + [z] == [x, y, z];
    assert RewriteLabels(b, r, []) == (b, []);
    assert [x] + [y'] == [x, y'] && [x, y'] + [z'] == [x, y', z'];
  }

  lemma DistinctSamples(x: Series, y: Series, z: Series)
    requires x.labels != y.labels && y.labels != z.labels && x.labels != z.labels
    ensures Merged([x, y, z], LabelsOf, MergeSeries) == [x, y, z]
  {
    MergedOfDistinct([x, y, z], LabelsOf, MergeSeries);
  }

  lemma SamplesDiffer(s: string, v: string, t: string, w: string)
    requires v != w
    ensures Sample(s, v).labels != Sample(t, w).labels
  {
    assert Sample(s, v).labels["l"] == v && Sample(t, w).labels["l"] == w;
  }

  lemma SamplesApart(s: string, t: string, u: string)
    ensures Merged([Sample(s, "x"), Sample(t, "y"), Sample(u, "z")], LabelsOf, MergeSeries)
         == [Sample(s, "x"), Sample(t, "y"), Sample(u, "z")]
  {
    SamplesDiffer(s, "x", t, "y");
    SamplesDiffer(t, "y", u, "z");
    SamplesDiffer(s, "x", u, "z");
    DistinctSamples(Sample(s, "x"), Sample(t, "y"), Sample(u, "z"));
  }

  lemma AboutOtherPasses()
    ensures ApplyRule(map[], ABOUT_OTHER, [Sample("a", "x"), Sample("b", "y"), Sample("c", "z")])
         == (map[BudgetName(ABOUT_OTHER) := Budget(1, {})], [Sample("a", "x"), Sample("b", "y"), Sample("c", "z")])
  {
    NothingToRelabel(Budget(1, {}), ABOUT_OTHER, [Sample("a", "x"), Sample("b", "y"), Sample("c", "z")]);
    SamplesApart("a", "b", "c");
  }

  lemma ScopeCapOverflows(bs: BudgetTable)
    requires BudgetName(SCOPE_CAP) in bs ==> bs[BudgetName(SCOPE_CAP)] == Budget(1, {})
    ensures ApplyRule(bs, SCOPE_CAP, [Sample("a", "x"), Sample("b", "y"), Sample("c", "z")]).1
         == [Sample("a", "x"), Sample(OVERFLOW, "y"), Sample(OVERFLOW, "z")]
  {
    ScopeAdmitted("a", "x");
    ScopeOverflows("a", "b", "y");
    ScopeOverflows("a", "c", "z");
    ThreeSeries(Budget(1, {}), Budget(1, {"a"}), SCOPE_CAP, Sample("a", "x"), Sample("b", "y"), Sample("c", "z"),
                Sample(OVERFLOW, "y"), Sample(OVERFLOW, "z"));
    SamplesApart("a", OVERFLOW, OVERFLOW);
  }

  lemma OverflowsShow(v: string, w: string)
    ensures var series := [Sample("a", "x"), Sample(OVERFLOW, v), Sample(OVERFLOW, w)];
            Shows(series, ABOUT_OTHER, v) && Shows(series, ABOUT_OTHER, w)
  {
    var series := [Sample("a", "x"), Sample(OVERFLOW, v), Sample(OVERFLOW, w)];
    assert series[1] in series && series[2] in series;
    assert HasLabels(series, Sample(OVERFLOW, v).labels) && HasLabels(series, Sample(OVERFLOW, w).labels);
  }

  lemma TwoRulesOneFamily(f: PromFamily, q: PromRule, r: PromRule)
    requires Usable(q) && Usable(r) && q.metric == f.name && r.metric == f.name
    ensures var (bs, ss) := ApplyRule(map[], q, f.series);
            RewriteFamilies(map[], [q, r], [f]).1 == [f.(series := ApplyRule(bs, r, ss).1)]
  {
    var (bs, ss) := ApplyRule(map[], q, f.series);
    assert [q, r][..1] == [q] && [q][..0] == [];
    assert ApplyRules(map[], [], f) == (map[], f);
    assert ApplyRules(map[], [q], f) == (bs, f.(series := ss));
    RewriteOneMoreFamily(map[], [q, r], [], f);
    assert [] + [f] == [f];
    assert RewriteFamilies(map[], [q, r], []) == (map[], []);
  }

  /** Where a rule is about the scope "other" and another rule caps the scope label, the first does
      not bound what comes out: series of overflowing scopes become series of its scope after it has
      passed. Here its Max is one, and two values come out. */
  lemma CappedScopeEscapesTheCap()
    ensures var f := PromFamily("m", [Sample("a", "x"), Sample("b", "y"), Sample("c", "z")]);
            var out := RewriteFamilies(map[], [ABOUT_OTHER, SCOPE_CAP], [f]).1;
            |out| == 1 && Shows(out[0].series, ABOUT_OTHER, "y") && Shows(out[0].series, ABOUT_OTHER, "z")
  {
    var f := PromFamily("m", [Sample("a", "x"), Sample("b", "y"), Sample("c", "z")]);
    AboutOtherPasses();
    ScopeCapOverflows(map[BudgetName(ABOUT_OTHER) := Budget(1, {})]);
    TwoRulesOneFamily(f, ABOUT_OTHER, SCOPE_CAP);
    OverflowsShow("y", "z");
  }
}
