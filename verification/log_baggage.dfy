/**
 * The handler that copies whitelisted baggage onto records without shadowing anything
 * already there (internal/log/handler.go:184-268, 333-369).
 */
module LogBaggage {
  import opened LogGroups

  /** Keys an attribute occupies at its own level: groups without a name are looked into, since
      they are inlined, and named ones are not. */
  function SameLevelKeys(attr: Attr): (r: set<string>)
    ensures "" !in r
    decreases attr.value
  {
    if attr == EMPTY then {}
    else if attr.key != "" then {attr.key}
    else if attr.value.Group? then SameLevelKeysOf(attr.value.attrs)
    else {}
  }

  function SameLevelKeysOf(attrs: seq<Attr>): (r: set<string>)
    ensures "" !in r
    decreases attrs
  {
    if attrs == [] then {} else SameLevelKeys(attrs[0]) + SameLevelKeysOf(attrs[1..])
  }

  // ---- Striking out in place

  function Struck(baggage: seq<Attr>, keys: set<string>): seq<Attr> {
    seq(|baggage|, i requires 0 <= i < |baggage| => if baggage[i].key in keys then EMPTY else baggage[i])
  }

  lemma StruckTwice(baggage: seq<Attr>, keys: set<string>, more: set<string>)
    requires "" !in keys && "" !in more
    ensures Struck(Struck(baggage, keys), more) == Struck(baggage, keys + more)
  {
  }

  method SuppressShadowed(attr: Attr, baggage: array<Attr>)
    modifies baggage
    ensures baggage[..] == Struck(old(baggage[..]), SameLevelKeys(attr))
    decreases attr.value
  {
    if attr == EMPTY {
      return;
    }
    if attr.key != "" {
      for i := 0 to baggage.Length
        invariant forall j :: 0 <= j < i ==>
          baggage[j] == if old(baggage[j]).key == attr.key then EMPTY else old(baggage[j])
        invariant forall j :: i <= j < baggage.Length ==> baggage[j] == old(baggage[j])
      {
        if baggage[i].key == attr.key {
          baggage[i] := EMPTY;
        }
      }
      return;
    }
    if attr.value.Group? {
      SuppressShadowedBy(attr.value.attrs, baggage);
    }
  }

  method SuppressShadowedBy(attrs: seq<Attr>, baggage: array<Attr>)
    modifies baggage
    ensures baggage[..] == Struck(old(baggage[..]), SameLevelKeysOf(attrs))
    decreases attrs
  {
    if attrs == [] {
      return;
    }
    SuppressShadowed(attrs[0], baggage);
    SuppressShadowedBy(attrs[1..], baggage);
    StruckTwice(old(baggage[..]), SameLevelKeys(attrs[0]), SameLevelKeysOf(attrs[1..]));
  }

  // ---- The handler

  /** What was passed to the base, and the keys installed at the innermost level. */
  datatype BaggageHandler = BaggageHandler(base: seq<Derivation>, presetKeys: set<string>)

  function Derive(h: BaggageHandler, op: Derivation): BaggageHandler {
    match op
    case WithAttrs(attrs) =>
      var resolved := ResolveAll(attrs);
      BaggageHandler(h.base + [WithAttrs(resolved)], h.presetKeys + SameLevelKeysOf(resolved))
    case WithGroup(name) => if name == "" then h else BaggageHandler(h.base + [op], {})
  }

  function Derived(ops: seq<Derivation>): BaggageHandler {
    if ops == [] then BaggageHandler([], {}) else Derive(Derived(ops[..|ops| - 1]), ops[|ops| - 1])
  }

  /** The record after resolving, which only one with a LogValuer needs. */
  function ResolveRecord(attrs: seq<Attr>): seq<Attr> {
    if AnyHasLogValuer(attrs) then AddAttrs([], ResolveAll(attrs)) else attrs
  }

  /** The baggage that shows: not empty, and under none of the keys. */
  function Kept(baggage: seq<Attr>, keys: set<string>): seq<Attr> {
    if baggage == [] then []
    else (if baggage[0] == EMPTY || baggage[0].key in keys then [] else [baggage[0]]) + Kept(baggage[1..], keys)
  }

  function Handled(h: BaggageHandler, attrs: seq<Attr>, baggage: seq<Attr>): seq<Attr> {
    if baggage == [] then attrs
    else
      var r := ResolveRecord(attrs);
      r + WithoutEmptyGroups(Kept(baggage, h.presetKeys + SameLevelKeysOf(r)))
  }

  lemma {:induction false} KeptOfStruck(baggage: seq<Attr>, keys: set<string>)
    ensures Kept(Struck(baggage, keys), {}) == Kept(baggage, keys)
  {
    if baggage != [] {
      KeptOfStruck(baggage[1..], keys);
      assert Struck(baggage, keys)[1..] == Struck(baggage[1..], keys);
    }
  }

  lemma KeptOfMore(baggage: seq<Attr>, keys: set<string>, first: seq<Attr>, rest: seq<Attr>)
    requires baggage != [] && rest == baggage[1..]
    requires first == if baggage[0] == EMPTY || baggage[0].key in keys then [] else [baggage[0]]
    ensures Kept(baggage, keys) == first + Kept(rest, keys)
  {
  }

  lemma {:induction false} KeptConcat(a: seq<Attr>, b: seq<Attr>, keys: set<string>)
    ensures Kept(a + b, keys) == Kept(a, keys) + Kept(b, keys)
  {
    if a == [] {
      assert a + b == b;
    } else {
      var first, rest := if a[0] == EMPTY || a[0].key in keys then [] else [a[0]], a[1..];
      KeptConcat(rest, b, keys);
      assert (a + b)[0] == a[0] && (a + b)[1..] == rest + b;
      KeptOfMore(a, keys, first, rest);
      KeptOfMore(a + b, keys, first, rest + b);
      AttrsAssociate(first, Kept(rest, keys), Kept(b, keys));
    }
  }

  lemma AttrsAssociate(p: seq<Attr>, q: seq<Attr>, r: seq<Attr>)
    ensures p + (q + r) == p + q + r
  {
  }

  lemma KeptOneMore(baggage: seq<Attr>, attr: Attr)
    ensures WithoutEmptyGroups(Kept(baggage + [attr], {}))
         == WithoutEmptyGroups(Kept(baggage, {})) + (if attr == EMPTY then [] else WithoutEmptyGroups([attr]))
  {
    KeptConcat(baggage, [attr], {});
    KeptOfOne(attr);
    WithoutEmptyGroupsConcat(Kept(baggage, {}), Kept([attr], {}));
  }

  lemma KeptOfOne(attr: Attr)
    ensures Kept([attr], {}) == if attr == EMPTY then [] else [attr]
  {
    assert [attr][1..] == [];
  }

  lemma WithoutEmptyGroupsOfMore(attrs: seq<Attr>, first: seq<Attr>, rest: seq<Attr>)
    requires attrs != [] && rest == attrs[1..]
    requires first == if attrs[0].value == Group([]) then [] else [attrs[0]]
    ensures WithoutEmptyGroups(attrs) == first + WithoutEmptyGroups(rest)
  {
  }

  lemma {:induction false} WithoutEmptyGroupsConcat(a: seq<Attr>, b: seq<Attr>)
    ensures WithoutEmptyGroups(a + b) == WithoutEmptyGroups(a) + WithoutEmptyGroups(b)
  {
    if a == [] {
      assert a + b == b;
    } else {
      var first, rest := if a[0].value == Group([]) then [] else [a[0]], a[1..];
      WithoutEmptyGroupsConcat(rest, b);
      WithoutEmptyGroupsOfMore(a, first, rest);
      assert (a + b)[0] == a[0] && (a + b)[1..] == rest + b;
      WithoutEmptyGroupsOfMore(a + b, first, rest + b);
      AttrsAssociate(first, WithoutEmptyGroups(rest), WithoutEmptyGroups(b));
    }
  }

  /** The record handed on, striking entries out of the baggage slice along the way. */
  method Handle(h: BaggageHandler, attrs: seq<Attr>, baggage: array<Attr>) returns (out: seq<Attr>)
    requires "" !in h.presetKeys
    modifies baggage
    ensures out == Handled(h, attrs, old(baggage[..]))
  {
    if baggage.Length == 0 {
      return attrs;
    }
    StrikePresets(h.presetKeys, baggage);
    var r := ResolveRecord(attrs);
    SuppressShadowedBy(r, baggage);
    StruckTwice(old(baggage[..]), h.presetKeys, SameLevelKeysOf(r));
    KeptOfStruck(old(baggage[..]), h.presetKeys + SameLevelKeysOf(r));
    out := AddKept(r, baggage[..]);
  }

  method StrikePresets(presetKeys: set<string>, baggage: array<Attr>)
    modifies baggage
    ensures baggage[..] == Struck(old(baggage[..]), presetKeys)
  {
    for i := 0 to baggage.Length
      invariant forall j :: 0 <= j < i ==>
        baggage[j] == if old(baggage[j]).key in presetKeys then EMPTY else old(baggage[j])
      invariant forall j :: i <= j < baggage.Length ==> baggage[j] == old(baggage[j])
    {
      if baggage[i].key in presetKeys {
        baggage[i] := EMPTY;
      }
    }
  }

  method AddKept(r: seq<Attr>, baggage: seq<Attr>) returns (out: seq<Attr>)
    ensures out == r + WithoutEmptyGroups(Kept(baggage, {}))
  {
    out := r;
    for i := 0 to |baggage|
      invariant out == r + WithoutEmptyGroups(Kept(baggage[..i], {}))
    {
      KeptOneMore(baggage[..i], baggage[i]);
      assert baggage[..i + 1] == baggage[..i] + [baggage[i]];
      if baggage[i] != EMPTY {
        out := AddAttrs(out, [baggage[i]]);
      }
    }
    assert baggage[..|baggage|] == baggage;
  }

  // ---- Nothing is shadowed

  /** The keys a reader finds at the top of a level. */
  function TopKeys(nodes: seq<Node>): set<string> {
    set n | n in nodes :: n.key
  }

  lemma TopKeysConcat(a: seq<Node>, b: seq<Node>)
    ensures TopKeys(a + b) == TopKeys(a) + TopKeys(b)
  {
    forall k | k in TopKeys(a) + TopKeys(b) ensures k in TopKeys(a + b) {
      var n :| n in a + b && n.key == k;
    }
  }

  lemma TopKeysOfAttr(attr: Attr)
    requires !HasLogValuer(attr.value)
    ensures TopKeys(Render(attr.key, attr.value)) <= SameLevelKeys(attr) + {""}
    decreases attr.value
  {
    if attr.value.Group? && attr.key == "" {
      TopKeysOfAll(attr.value.attrs);
    }
  }

  /** Every named field or group that shows at a level is among its same-level keys. */
  lemma {:induction false} TopKeysOfAll(attrs: seq<Attr>)
    requires !AnyHasLogValuer(attrs)
    ensures TopKeys(Tree(attrs)) <= SameLevelKeysOf(attrs) + {""}
    decreases attrs
  {
    if attrs != [] {
      TopKeysOfAttr(attrs[0]);
      TopKeysOfAll(attrs[1..]);
      TopKeysConcat(Render(attrs[0].key, attrs[0].value), Tree(attrs[1..]));
    }
  }

  lemma ResolveRecordIsInvisible(attrs: seq<Attr>)
    ensures Tree(ResolveRecord(attrs)) == Tree(attrs) && !AnyHasLogValuer(ResolveRecord(attrs))
  {
    ResolveAllIsInvisible(attrs);
    var resolved := ResolveAll(attrs);
    EmptyGroupsDoNotShow(resolved);
    DroppingKeepsResolved(resolved);
    assert [] + WithoutEmptyGroups(resolved) == WithoutEmptyGroups(resolved);
  }

  /** Attributes installed since the innermost group was opened. */
  function InnermostAttrs(ops: seq<Derivation>): seq<Attr> {
    if ops == [] then []
    else
      var before := InnermostAttrs(ops[..|ops| - 1]);
      match ops[|ops| - 1]
      case WithAttrs(attrs) => before + attrs
      case WithGroup(name) => if name == "" then before else []
  }

  // ---- The keys a level bears

  /** The attribute with every named member of its level made to show. */
  function Showing(attr: Attr): Attr
    decreases attr.value, 0
  {
    if attr.key != "" then Attr(attr.key, Leaf(""))
    else
      match attr.value
      case Group(attrs) => Attr("", Group(ShowingAll(attrs)))
      case _ => attr
  }

  function ShowingAll(attrs: seq<Attr>): seq<Attr>
    decreases attrs, 1
  {
    if attrs == [] then [] else [Showing(attrs[0])] + ShowingAll(attrs[1..])
  }

  /** The keys the attributes bear at their own level, whether or not they show. */
  function Borne(attrs: seq<Attr>): set<string> {
    TopKeys(Tree(ShowingAll(attrs))) - {""}
  }

  lemma ShowingAllOfMore(attrs: seq<Attr>, first: Attr, rest: seq<Attr>)
    requires attrs != [] && first == Showing(attrs[0]) && rest == attrs[1..]
    ensures ShowingAll(attrs) == [first] + ShowingAll(rest)
  {
  }

  lemma {:induction false} ShowingAllConcat(a: seq<Attr>, b: seq<Attr>)
    ensures ShowingAll(a + b) == ShowingAll(a) + ShowingAll(b)
  {
    if a == [] {
      assert a + b == b;
    } else {
      var first, rest := Showing(a[0]), a[1..];
      ShowingAllConcat(rest, b);
      ShowingAllOfMore(a, first, rest);
      assert (a + b)[0] == a[0] && (a + b)[1..] == rest + b;
      ShowingAllOfMore(a + b, first, rest + b);
      AttrsAssociate([first], ShowingAll(rest), ShowingAll(b));
    }
  }

  lemma BorneConcat(a: seq<Attr>, b: seq<Attr>)
    ensures Borne(a + b) == Borne(a) + Borne(b)
  {
    ShowingAllConcat(a, b);
    TreeConcat(ShowingAll(a), ShowingAll(b));
    TopKeysConcat(Tree(ShowingAll(a)), Tree(ShowingAll(b)));
  }

  lemma SameLevelKeysOfAttr(attr: Attr)
    requires !HasLogValuer(attr.value)
    ensures TopKeys(Render(Showing(attr).key, Showing(attr).value)) - {""} == SameLevelKeys(attr)
    decreases attr.value, 0
  {
    if attr.key != "" {
      assert Render(attr.key, Leaf("")) == [Field(attr.key, Leaf(""))];
      assert attr.key in TopKeys([Field(attr.key, Leaf(""))]) by {
        assert Field(attr.key, Leaf("")) in [Field(attr.key, Leaf(""))];
      }
    } else if attr.value.Group? {
      SameLevelKeysAreBorne(attr.value.attrs);
    }
  }

  /** The collected keys are exactly those: none is missed and none is taken from inside a named group. */
  lemma {:induction false} SameLevelKeysAreBorne(attrs: seq<Attr>)
    requires !AnyHasLogValuer(attrs)
    ensures SameLevelKeysOf(attrs) == Borne(attrs)
    decreases attrs, 1
  {
    if attrs != [] {
      SameLevelKeysOfAttr(attrs[0]);
      SameLevelKeysAreBorne(attrs[1..]);
      TopKeysConcat(Render(Showing(attrs[0]).key, Showing(attrs[0]).value), Tree(ShowingAll(attrs[1..])));
    }
  }

  lemma ResolveAllOfMore(attrs: seq<Attr>, first: Attr, rest: seq<Attr>)
    requires attrs != [] && first == ResolveAttr(attrs[0]).0 && rest == attrs[1..]
    ensures ResolveAll(attrs) == [first] + ResolveAll(rest)
  {
  }

  lemma {:induction false} ResolveAllConcat(a: seq<Attr>, b: seq<Attr>)
    ensures ResolveAll(a + b) == ResolveAll(a) + ResolveAll(b)
  {
    if a == [] {
      assert a + b == b;
    } else {
      var first, rest := ResolveAttr(a[0]).0, a[1..];
      ResolveAllConcat(rest, b);
      ResolveAllOfMore(a, first, rest);
      assert (a + b)[0] == a[0] && (a + b)[1..] == rest + b;
      ResolveAllOfMore(a + b, first, rest + b);
      AttrsAssociate([first], ResolveAll(rest), ResolveAll(b));
    }
  }

  /** The keys a logger keeps are those its attributes since the innermost group bear, and no others. */
  lemma {:induction false} PresetKeysAreTheLevels(ops: seq<Derivation>)
    ensures Derived(ops).presetKeys == Borne(ResolveAll(InnermostAttrs(ops)))
    ensures "" !in Derived(ops).presetKeys
  {
    if ops != [] {
      var before, op := ops[..|ops| - 1], ops[|ops| - 1];
      PresetKeysAreTheLevels(before);
      if op.WithAttrs? {
        ResolveAllIsInvisible(op.attrs);
        SameLevelKeysAreBorne(ResolveAll(op.attrs));
        ResolveAllConcat(InnermostAttrs(before), op.attrs);
        BorneConcat(ResolveAll(InnermostAttrs(before)), ResolveAll(op.attrs));
      }
    }
  }

  lemma {:induction false} KeptAvoids(baggage: seq<Attr>, keys: set<string>)
    ensures forall b :: b in Kept(baggage, keys) <==> b in baggage && b != EMPTY && b.key !in keys
  {
    if baggage != [] {
      KeptAvoids(baggage[1..], keys);
    }
  }

  /** Baggage members are strings. */
  predicate AllText(baggage: seq<Attr>) {
    forall b :: b in baggage ==> b.value.Leaf? && b.key != ""
  }

  lemma {:induction false} TextShows(baggage: seq<Attr>)
    requires AllText(baggage)
    ensures WithoutEmptyGroups(baggage) == baggage
    ensures |Tree(baggage)| == |baggage|
    ensures forall i :: 0 <= i < |baggage| ==> Tree(baggage)[i] == Field(baggage[i].key, baggage[i].value)
  {
    if baggage != [] {
      assert baggage[0] in baggage;
      TextShows(baggage[1..]);
    }
  }

  /** A record keeps all it showed, and no baggage behind it repeats a key set by the record or by the
      logger in the innermost group. Exactly the members are added whose keys no attribute of that
      level bears; an attribute bears its key even when it does not show, so a named group of nothing
      in the record still keeps the member of its name out, while attributes of outer groups do not. */
  lemma BaggageNeverShadows(ops: seq<Derivation>, attrs: seq<Attr>, baggage: seq<Attr>)
    requires AllText(baggage)
    ensures var out := Handled(Derived(ops), attrs, baggage);
            var level := Borne(ResolveAll(InnermostAttrs(ops))) + Borne(ResolveRecord(attrs));
            var kept := Kept(baggage, level);
            && Tree(out) == Tree(attrs) + Tree(kept)
            && TopKeys(Tree(kept)) !! TopKeys(Tree(attrs))
            && TopKeys(Tree(kept)) !! TopKeys(Tree(InnermostAttrs(ops)))
            && (forall b :: b in kept <==> b in baggage && b.key !in level)
  {
    var r := ResolveRecord(attrs);
    var keys := Derived(ops).presetKeys + SameLevelKeysOf(r);
    var kept := Kept(baggage, keys);
    KeptAvoids(baggage, keys);
    TextShows(kept);
    ResolveRecordIsInvisible(attrs);
    SameLevelKeysAreBorne(r);
    PresetKeysAreTheLevels(ops);
    TopKeysOfAll(r);
    ResolveAllIsInvisible(InnermostAttrs(ops));
    TopKeysOfAll(ResolveAll(InnermostAttrs(ops)));
    SameLevelKeysAreBorne(ResolveAll(InnermostAttrs(ops)));
    TreeConcat(r, kept);
    forall k | k in TopKeys(Tree(kept)) ensures k !in keys + {""} {
      var i :| 0 <= i < |kept| && Tree(kept)[i].key == k;
      assert kept[i] in kept;
    }
  }

  /** Deriving through this handler is invisible as long as no baggage is carried. */
  lemma {:induction false} DerivationsPassThrough(ops: seq<Derivation>, nodes: seq<Node>)
    ensures Surround(Derived(ops).base, nodes) == Surround(ops, nodes)
  {
    if ops != [] {
      var before, op := ops[..|ops| - 1], ops[|ops| - 1];
      assert before + [op] == ops;
      SurroundOneMore(before, op, nodes);
      if op.WithAttrs? {
        ResolveAllIsInvisible(op.attrs);
        SurroundOneMore(Derived(before).base, WithAttrs(ResolveAll(op.attrs)), nodes);
        DerivationsPassThrough(before, Tree(op.attrs) + nodes);
      } else {
        SurroundOneMore(Derived(before).base, op, nodes);
        DerivationsPassThrough(before, Enclose(op.name, nodes));
      }
    }
  }
}
