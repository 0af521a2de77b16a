/** The admission budget behind a metric cap (internal/metricscap/reader.go, bucket.observe). */
module Budgets {

  const OVERFLOW := "other"

  /** A bucket's state: its cap and the real values admitted so far. */
  datatype Budget = Budget(max: nat, seen: set<string>)

  /** What observing one value does, and the label it is exported under. */
  function Observed(b: Budget, value: string): (Budget, string) {
    if value in b.seen then (b, value)
    else if |b.seen| >= b.max then (b, OVERFLOW)
    else (b.(seen := b.seen + {value}), value)
  }

  /** A run of observations: the budget it ends with and the labels it exported. */
  function ObserveAll(b: Budget, values: seq<string>): (r: (Budget, seq<string>))
    ensures |r.1| == |values|
  {
    if values == [] then (b, [])
    else
      var before := ObserveAll(b, values[..|values| - 1]);
      var (after, exported) := Observed(before.0, values[|values| - 1]);
      (after, before.1 + [exported])
  }

  /** The label a budget gives a value it has already decided on. */
  function Label(b: Budget, value: string): string {
    if value in b.seen then value else OVERFLOW
  }

  /** A value not admitted has run into a full budget. */
  ghost predicate Decided(b: Budget, value: string) {
    value in b.seen || |b.seen| >= b.max
  }

  /** b' may follow b: the same cap, and nothing admitted is ever dropped. */
  ghost predicate Grows(b: Budget, b': Budget) {
    b'.max == b.max && b.seen <= b'.seen && (|b.seen| >= b.max ==> b' == b)
  }

  /** The budgets of a limiter, by name. */
  type BudgetTable = map<string, Budget>

  ghost predicate Sound(bs: BudgetTable) {
    forall k :: k in bs ==> bs[k].max > 0 && |bs[k].seen| <= bs[k].max
  }

  ghost predicate AllGrow(bs: BudgetTable, bs': BudgetTable) {
    forall k :: k in bs ==> k in bs' && Grows(bs[k], bs'[k])
  }

  lemma UpdateTwice(bs: BudgetTable, name: string, x: Budget, y: Budget)
    ensures bs[name := x][name := y] == bs[name := y]
  {
  }

  /** A run admits at most Max distinct values, and every label it exported, the first
      included, is the one its final state gives: admitted stays admitted, collapsed
      stays collapsed. */
  lemma {:induction false} LabelsAreFixed(b: Budget, values: seq<string>)
    requires |b.seen| <= b.max
    ensures var (b', labels) := ObserveAll(b, values);
            && Grows(b, b') && |b'.seen| <= b.max
            && forall i :: 0 <= i < |values| ==> labels[i] == Label(b', values[i]) && Decided(b', values[i])
  {
    if values != [] {
      var before := values[..|values| - 1];
      LabelsAreFixed(b, before);
    }
  }

  function ValuesOf(values: seq<string>): set<string> {
    set v | v in values
  }

  /** i is where its value first occurs. */
  ghost predicate FirstAt(values: seq<string>, i: nat) {
    i < |values| && values[i] !in values[..i]
  }

  /** Which values get in: exactly those that fewer than Max distinct values came before. */
  lemma {:induction false} AdmittedAreTheFirstDistinct(max: nat, values: seq<string>, i: nat)
    requires FirstAt(values, i)
    ensures values[i] in ObserveAll(Budget(max, {}), values).0.seen <==> |ValuesOf(values[..i])| < max
    ensures |ValuesOf(values)| <= max ==> ObserveAll(Budget(max, {}), values).0.seen == ValuesOf(values)
  {
    var empty := Budget(max, {});
    LabelsAreFixed(empty, values[..i]);
    SeenSoFar(max, values[..i]);
    assert values[..i + 1][..i] == values[..i];
    LabelsAreFixed(empty, values[..i + 1]);
    LabelsAreFixed(empty, values);
    ObserveSplits(empty, values, i + 1);
    LabelsAreFixed(ObserveAll(empty, values[..i + 1]).0, values[i + 1..]);
    SeenSoFar(max, values);
  }

  /** What a budget has admitted of a set of values: all of them while they fit, and no fewer than fit. */
  predicate Filled(b: Budget, values: set<string>) {
    && b.seen <= values
    && (|values| <= b.max ==> b.seen == values)
    && (|values| > b.max ==> |b.seen| >= b.max)
  }

  lemma ObservingFills(b: Budget, values: set<string>, value: string)
    requires Filled(b, values)
    ensures Filled(Observed(b, value).0, values + {value})
  {
    if value in values {
      assert values + {value} == values;
    }
  }

  lemma ValuesOfMore(values: seq<string>, value: string)
    ensures ValuesOf(values + [value]) == ValuesOf(values) + {value}
  {
  }

  /** While at most Max distinct values came, all of them are in; afterwards the budget is full. */
  lemma {:induction false} SeenSoFar(max: nat, values: seq<string>)
    ensures ObserveAll(Budget(max, {}), values).0.max == max
    ensures Filled(ObserveAll(Budget(max, {}), values).0, ValuesOf(values))
  {
    if values != [] {
      var before, last := values[..|values| - 1], values[|values| - 1];
      SeenSoFar(max, before);
      ObservingFills(ObserveAll(Budget(max, {}), before).0, ValuesOf(before), last);
      ValuesOfMore(before, last);
      assert values == before + [last];
    }
  }

  lemma {:induction false} ObserveSplits(b: Budget, values: seq<string>, i: nat)
    requires i <= |values|
    ensures ObserveAll(b, values).0 == ObserveAll(ObserveAll(b, values[..i]).0, values[i..]).0
  {
    if i < |values| {
      var before := values[..|values| - 1];
      ObserveSplits(b, before, i);
      assert before[..i] == values[..i] && values[i..][..|values| - 1 - i] == before[i..];
    } else {
      assert values[..i] == values;
    }
  }

  class Bucket {
    const max: nat
    var seen: set<string>

    constructor (max: nat)
      ensures View() == Budget(max, {})
    {
      this.max := max;
      seen := {};
    }

    function View(): Budget
      reads this
    {
      Budget(max, seen)
    }

    /** Admits value while there is room and collapses it to the overflow label afterwards. */
    method Observe(value: string) returns (exported: string)
      modifies this
      ensures (View(), exported) == Observed(old(View()), value)
    {
      if value in seen {
        return value;
      }
      if |seen| >= max {
        return OVERFLOW;
      }
      seen := seen + {value};
      return value;
    }
  }
}
