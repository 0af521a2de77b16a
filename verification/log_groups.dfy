/**
 * The log handler that owns slog's grouping so that the trace identifiers stay at the top
 * level (internal/log/handler.go:70-168, 270-331), against slog's own grouping.
 */
module LogGroups {
  /** An attribute value. A LogValuer stands for the value its method returns. */
  datatype Value = Nil | Leaf(text: string) | Group(attrs: seq<Attr>) | LogValuer(value: Value)

  datatype Attr = Attr(key: string, value: Value)

  const EMPTY := Attr("", Nil)

  /** What a reader of the log sees. */
  datatype Node = Field(key: string, value: Value) | Nested(key: string, nodes: seq<Node>)

  // ---- How slog renders attributes

  /** A group without content disappears and a group without a name is inlined. */
  function Enclose(name: string, inner: seq<Node>): seq<Node> {
    if name == "" then inner else if inner == [] then [] else [Nested(name, inner)]
  }

  function Render(key: string, value: Value): seq<Node>
    decreases value
  {
    match value
    case Nil => if key == "" then [] else [Field(key, Nil)]
    case Leaf(_) => [Field(key, value)]
    case Group(attrs) => Enclose(key, Tree(attrs))
    case LogValuer(v) => Render(key, v)
  }

  function Tree(attrs: seq<Attr>): seq<Node>
    decreases attrs
  {
    if attrs == [] then [] else Render(attrs[0].key, attrs[0].value) + Tree(attrs[1..])
  }

  /** Logger derivations. */
  datatype Derivation = WithAttrs(attrs: seq<Attr>) | WithGroup(name: string)

  /** Native grouping: what a logger derived by `ops` makes of a record rendering to `nodes`. */
  function Surround(ops: seq<Derivation>, nodes: seq<Node>): seq<Node> {
    if ops == [] then nodes
    else
      var rest := Surround(ops[1..], nodes);
      match ops[0]
      case WithAttrs(attrs) => Tree(attrs) + rest
      case WithGroup(name) => Enclose(name, rest)
  }

  lemma Associates(p: seq<Node>, q: seq<Node>, r: seq<Node>)
    ensures p + (q + r) == p + q + r
  {
  }

  lemma TreeOfMore(attrs: seq<Attr>, first: seq<Node>, rest: seq<Attr>)
    requires attrs != [] && first == Render(attrs[0].key, attrs[0].value) && rest == attrs[1..]
    ensures Tree(attrs) == first + Tree(rest)
  {
  }

  lemma {:induction false} TreeConcat(a: seq<Attr>, b: seq<Attr>)
    ensures Tree(a + b) == Tree(a) + Tree(b)
  {
    if a == [] {
      assert a + b == b;
    } else {
      var first, rest := Render(a[0].key, a[0].value), a[1..];
      TreeConcat(rest, b);
      TreeOfMore(a, first, rest);
      assert (a + b)[0] == a[0] && (a + b)[1..] == rest + b;
      TreeOfMore(a + b, first, rest + b);
      Associates(first, Tree(rest), Tree(b));
    }
  }

  lemma TreeOfOne(a: Attr)
    ensures Tree([a]) == Render(a.key, a.value)
  {
    assert [a][1..] == [];
  }

  lemma {:induction false} SurroundConcat(a: seq<Derivation>, b: seq<Derivation>, nodes: seq<Node>)
    ensures Surround(a + b, nodes) == Surround(a, Surround(b, nodes))
  {
    if a == [] {
      assert a + b == b;
    } else {
      SurroundConcat(a[1..], b, nodes);
      assert (a + b)[1..] == a[1..] + b;
    }
  }

  // ---- slog's constructors

  /** `GroupValue` and `Record.AddAttrs` leave out attributes that are groups of nothing. */
  function WithoutEmptyGroups(attrs: seq<Attr>): seq<Attr> {
    if attrs == [] then []
    else (if attrs[0].value == Group([]) then [] else [attrs[0]]) + WithoutEmptyGroups(attrs[1..])
  }

  function GroupValue(attrs: seq<Attr>): Value {
    Group(WithoutEmptyGroups(attrs))
  }

  function AddAttrs(attrs: seq<Attr>, more: seq<Attr>): seq<Attr> {
    attrs + WithoutEmptyGroups(more)
  }

  lemma {:induction false} EmptyGroupsDoNotShow(attrs: seq<Attr>)
    ensures Tree(WithoutEmptyGroups(attrs)) == Tree(attrs)
  {
    if attrs != [] {
      EmptyGroupsDoNotShow(attrs[1..]);
      TreeConcat(if attrs[0].value == Group([]) then [] else [attrs[0]], WithoutEmptyGroups(attrs[1..]));
      TreeOfOne(attrs[0]);
    }
  }

  lemma AddAttrsShows(attrs: seq<Attr>, more: seq<Attr>)
    ensures Tree(AddAttrs(attrs, more)) == Tree(attrs) + Tree(more)
  {
    TreeConcat(attrs, WithoutEmptyGroups(more));
    EmptyGroupsDoNotShow(more);
  }

  // ---- Resolving LogValuers

  function Resolved(v: Value): (r: Value)
    ensures !r.LogValuer?
    ensures v.LogValuer? ==> r < v
    ensures !v.LogValuer? ==> r == v
  {
    match v
    case LogValuer(w) => Resolved(w)
    case _ => v
  }

  function ResolveAttr(attr: Attr): (Attr, bool)
    decreases attr.value
  {
    var value := Resolved(attr.value);
    if !value.Group? then (Attr(attr.key, value), attr.value.LogValuer?)
    else
      var children := ResolveAll(value.attrs);
      var changed := attr.value.LogValuer? || ChangedAny(value.attrs);
      (Attr(attr.key, if changed then GroupValue(children) else value), changed)
  }

  function ResolveAll(attrs: seq<Attr>): (r: seq<Attr>)
    ensures |r| == |attrs|
    decreases attrs
  {
    if attrs == [] then [] else [ResolveAttr(attrs[0]).0] + ResolveAll(attrs[1..])
  }

  predicate ChangedAny(attrs: seq<Attr>)
    decreases attrs
  {
    attrs != [] && (ResolveAttr(attrs[0]).1 || ChangedAny(attrs[1..]))
  }

  predicate HasLogValuer(v: Value)
    decreases v
  {
    match v
    case LogValuer(_) => true
    case Group(attrs) => AnyHasLogValuer(attrs)
    case _ => false
  }

  predicate AnyHasLogValuer(attrs: seq<Attr>)
    decreases attrs
  {
    attrs != [] && (HasLogValuer(attrs[0].value) || AnyHasLogValuer(attrs[1..]))
  }

  lemma {:induction false} ResolvedShowsTheSame(key: string, v: Value)
    ensures Render(key, Resolved(v)) == Render(key, v)
  {
    if v.LogValuer? {
      ResolvedShowsTheSame(key, v.value);
    }
  }

  lemma {:induction false} DroppingKeepsResolved(attrs: seq<Attr>)
    requires !AnyHasLogValuer(attrs)
    ensures !AnyHasLogValuer(WithoutEmptyGroups(attrs))
  {
    if attrs != [] {
      DroppingKeepsResolved(attrs[1..]);
      var rest := WithoutEmptyGroups(attrs[1..]);
      assert ([attrs[0]] + rest)[1..] == rest;
      assert [] + rest == rest;
    }
  }

  /** Resolving changes nothing a reader sees, leaves no LogValuer at any depth, and reports a
      change exactly when there was one to resolve. */
  lemma {:induction false} ResolveAttrIsInvisible(attr: Attr)
    ensures var (r, changed) := ResolveAttr(attr);
            && Render(r.key, r.value) == Render(attr.key, attr.value)
            && r.key == attr.key
            && !HasLogValuer(r.value)
            && changed == HasLogValuer(attr.value)
            && (!changed ==> r == attr)
    decreases attr.value
  {
    var value := Resolved(attr.value);
    ResolvedShowsTheSame(attr.key, attr.value);
    if value.Group? {
      ResolveAllIsInvisible(value.attrs);
      EmptyGroupsDoNotShow(ResolveAll(value.attrs));
      DroppingKeepsResolved(ResolveAll(value.attrs));
    }
  }

  lemma {:induction false} ResolveAllIsInvisible(attrs: seq<Attr>)
    ensures Tree(ResolveAll(attrs)) == Tree(attrs)
    ensures !AnyHasLogValuer(ResolveAll(attrs))
    ensures ChangedAny(attrs) == AnyHasLogValuer(attrs)
    ensures !ChangedAny(attrs) ==> ResolveAll(attrs) == attrs
    decreases attrs
  {
    if attrs != [] {
      ResolveAttrIsInvisible(attrs[0]);
      ResolveAllIsInvisible(attrs[1..]);
      var first, rest := ResolveAttr(attrs[0]).0, ResolveAll(attrs[1..]);
      assert ([first] + rest)[1..] == rest;
    }
  }

  // ---- The handler

  /** An open group and the attributes installed inside it. */
  datatype Frame = Frame(name: string, attrs: seq<Attr>)

  /** What the handler passed on to its base, and the groups it holds open, outermost first. */
  datatype OtelHandler = OtelHandler(base: seq<Derivation>, groups: seq<Frame>)

  function Derive(h: OtelHandler, op: Derivation): OtelHandler {
    match op
    case WithAttrs(attrs) =>
      if attrs == [] then h
      else if h.groups == [] then h.(base := h.base + [op])
      else
        var last := |h.groups| - 1;
        h.(groups := h.groups[last := Frame(h.groups[last].name, h.groups[last].attrs + ResolveAll(attrs))])
    case WithGroup(name) => if name == "" then h else h.(groups := h.groups + [Frame(name, [])])
  }

  function Derived(ops: seq<Derivation>): OtelHandler {
    if ops == [] then OtelHandler([], []) else Derive(Derived(ops[..|ops| - 1]), ops[|ops| - 1])
  }

  /** The record's attributes inside the open groups; a group left without attributes collapses. */
  function Regrouped(groups: seq<Frame>, attrs: seq<Attr>): seq<Attr> {
    if groups == [] then attrs
    else
      var frame := groups[|groups| - 1];
      var inner := frame.attrs + attrs;
      Regrouped(groups[..|groups| - 1], if inner == [] then [] else [Attr(frame.name, GroupValue(inner))])
  }

  method Regroup(groups: seq<Frame>, attrs: seq<Attr>, ids: seq<Attr>) returns (out: seq<Attr>)
    ensures out == AddAttrs(AddAttrs([], ids), Regrouped(groups, attrs))
  {
    var nested := attrs;
    var i := |groups|;
    assert groups[..i] == groups;
    while i > 0
      invariant 0 <= i <= |groups|
      invariant Regrouped(groups[..i], nested) == Regrouped(groups, attrs)
    {
      i := i - 1;
      var frame := groups[i];
      assert groups[..i + 1][..i] == groups[..i];
      var inner := nested;
      if |frame.attrs| > 0 {
        inner := frame.attrs + nested;
      }
      assert inner == frame.attrs + nested;
      if |inner| == 0 {
        nested := [];
      } else {
        nested := [Attr(frame.name, GroupValue(inner))];
      }
    }
    out := AddAttrs([], ids);
    out := AddAttrs(out, nested);
  }

  /** The attributes of the record handed to the base; `ids` is empty without a valid span context. */
  function Handled(h: OtelHandler, attrs: seq<Attr>, ids: seq<Attr>): seq<Attr> {
    if h.groups != [] then AddAttrs(AddAttrs([], ids), Regrouped(h.groups, attrs))
    else if ids == [] then attrs
    else AddAttrs(attrs, ids)
  }

  // ---- The handler means what its derivations mean

  function FramesAsDerivations(groups: seq<Frame>): seq<Derivation> {
    if groups == [] then []
    else FramesAsDerivations(groups[..|groups| - 1]) + FrameAsDerivations(groups[|groups| - 1])
  }

  function FrameAsDerivations(frame: Frame): seq<Derivation> {
    [WithGroup(frame.name), WithAttrs(frame.attrs)]
  }

  predicate Named(groups: seq<Frame>) {
    forall i :: 0 <= i < |groups| ==> groups[i].name != ""
  }

  lemma FrameSurrounds(frame: Frame, nodes: seq<Node>)
    ensures Surround(FrameAsDerivations(frame), nodes) == Enclose(frame.name, Tree(frame.attrs) + nodes)
  {
    var inside := [WithAttrs(frame.attrs)];
    assert FrameAsDerivations(frame)[1..] == inside;
    assert inside[1..] == [];
    assert Surround(inside, nodes) == Tree(frame.attrs) + nodes;
  }

  lemma OneFrameRegroups(frame: Frame, attrs: seq<Attr>)
    requires frame.name != ""
    ensures var inner := frame.attrs + attrs;
            Tree(if inner == [] then [] else [Attr(frame.name, GroupValue(inner))])
              == Enclose(frame.name, Tree(frame.attrs) + Tree(attrs))
  {
    var inner := frame.attrs + attrs;
    TreeConcat(frame.attrs, attrs);
    EmptyGroupsDoNotShow(inner);
    if inner != [] {
      TreeOfOne(Attr(frame.name, GroupValue(inner)));
    }
  }

  /** Re-nesting the record at the end is the same as having opened the groups beneath it. */
  lemma {:induction false} RegroupingIsNativeGrouping(groups: seq<Frame>, attrs: seq<Attr>)
    requires Named(groups)
    ensures Tree(Regrouped(groups, attrs)) == Surround(FramesAsDerivations(groups), Tree(attrs))
  {
    if groups != [] {
      var outer, frame := groups[..|groups| - 1], groups[|groups| - 1];
      var inner := frame.attrs + attrs;
      var nested := if inner == [] then [] else [Attr(frame.name, GroupValue(inner))];
      OneFrameRegroups(frame, attrs);
      FrameSurrounds(frame, Tree(attrs));
      RegroupingIsNativeGrouping(outer, nested);
      SurroundConcat(FramesAsDerivations(outer), FrameAsDerivations(frame), Tree(attrs));
    }
  }

  /** Where the first group is opened. */
  function FirstGroup(ops: seq<Derivation>): (k: nat)
    ensures k <= |ops|
  {
    if ops == [] || (ops[0].WithGroup? && ops[0].name != "") then 0 else 1 + FirstGroup(ops[1..])
  }

  lemma {:induction false} FirstGroupOfMore(ops: seq<Derivation>, op: Derivation)
    ensures FirstGroup(ops + [op]) ==
            if FirstGroup(ops) < |ops| || (op.WithGroup? && op.name != "") then FirstGroup(ops) else |ops| + 1
  {
    if ops == [] {
      assert (ops + [op])[1..] == [];
    } else {
      FirstGroupOfMore(ops[1..], op);
      assert (ops + [op])[1..] == ops[1..] + [op];
    }
  }

  /** A handler for `ops`: its base has the attributes installed above every group, and base and
      held groups together surround a record as the derivations would. */
  ghost predicate StandsFor(h: OtelHandler, ops: seq<Derivation>) {
    && Named(h.groups)
    && (h.groups == [] <==> FirstGroup(ops) == |ops|)
    && (forall nodes :: Surround(h.base, nodes) == Surround(ops[..FirstGroup(ops)], []) + nodes)
    && (forall nodes :: Surround(h.base, Surround(FramesAsDerivations(h.groups), nodes)) == Surround(ops, nodes))
  }

  lemma SurroundOneMore(ops: seq<Derivation>, op: Derivation, nodes: seq<Node>)
    ensures Surround(ops + [op], nodes) == Surround(ops, Surround([op], nodes))
    ensures Surround([op], nodes) == if op.WithAttrs? then Tree(op.attrs) + nodes else Enclose(op.name, nodes)
  {
    SurroundConcat(ops, [op], nodes);
    assert [op][1..] == [];
  }

  lemma InnermostFrameGrows(groups: seq<Frame>, attrs: seq<Attr>, nodes: seq<Node>)
    requires groups != []
    ensures var last := |groups| - 1;
            var grown := groups[last := Frame(groups[last].name, groups[last].attrs + ResolveAll(attrs))];
            Surround(FramesAsDerivations(grown), nodes) == Surround(FramesAsDerivations(groups), Tree(attrs) + nodes)
  {
    var last := |groups| - 1;
    var outer, frame := FramesAsDerivations(groups[..last]), groups[last];
    var bigger := Frame(frame.name, frame.attrs + ResolveAll(attrs));
    assert groups[last := bigger][..last] == groups[..last];
    ResolveAllIsInvisible(attrs);
    TreeConcat(frame.attrs, ResolveAll(attrs));
    FrameSurrounds(bigger, nodes);
    FrameSurrounds(frame, Tree(attrs) + nodes);
    SurroundConcat(outer, FrameAsDerivations(bigger), nodes);
    SurroundConcat(outer, FrameAsDerivations(frame), Tree(attrs) + nodes);
    assert Tree(frame.attrs) + Tree(attrs) + nodes == Tree(frame.attrs) + (Tree(attrs) + nodes);
  }

  lemma NewFrameSurrounds(groups: seq<Frame>, name: string, nodes: seq<Node>)
    ensures Surround(FramesAsDerivations(groups + [Frame(name, [])]), nodes)
         == Surround(FramesAsDerivations(groups), Enclose(name, nodes))
  {
    var frame := Frame(name, []);
    assert (groups + [frame])[..|groups|] == groups;
    FrameSurrounds(frame, nodes);
    assert Tree([]) + nodes == nodes;
    SurroundConcat(FramesAsDerivations(groups), FrameAsDerivations(frame), nodes);
  }

  lemma AttrsStandFor(h: OtelHandler, ops: seq<Derivation>, op: Derivation)
    requires StandsFor(h, ops) && op.WithAttrs?
    ensures StandsFor(Derive(h, op), ops + [op])
  {
    var h', k := Derive(h, op), FirstGroup(ops);
    FirstGroupOfMore(ops, op);
    forall nodes
      ensures Surround(h'.base, nodes) == Surround((ops + [op])[..FirstGroup(ops + [op])], []) + nodes
    {
      assert Surround(h.base, nodes) == Surround(ops[..k], []) + nodes;
      if h.groups == [] {
        assert (ops + [op])[..|ops| + 1] == ops + [op] && ops[..k] == ops;
        SurroundOneMore(ops, op, []);
        assert Surround(h.base, Tree(op.attrs)) == Surround(ops, Tree(op.attrs));
        assert Surround(h.base, Tree(op.attrs)) == Surround(ops[..k], []) + Tree(op.attrs);
        SurroundOneMore(h.base, op, nodes);
        assert Surround(h.base, Tree(op.attrs) + nodes) == Surround(ops[..k], []) + (Tree(op.attrs) + nodes);
        assert Tree(op.attrs) + [] == Tree(op.attrs);
      } else {
        assert (ops + [op])[..k] == ops[..k];
      }
    }
    forall nodes
      ensures Surround(h'.base, Surround(FramesAsDerivations(h'.groups), nodes)) == Surround(ops + [op], nodes)
    {
      SurroundOneMore(ops, op, nodes);
      assert Surround(h.base, Surround(FramesAsDerivations(h.groups), Tree(op.attrs) + nodes))
          == Surround(ops, Tree(op.attrs) + nodes);
      if op.attrs == [] {
        assert Tree(op.attrs) + nodes == nodes;
      } else if h.groups == [] {
        SurroundOneMore(h.base, op, nodes);
      } else {
        InnermostFrameGrows(h.groups, op.attrs, nodes);
      }
    }
  }

  lemma GroupStandsFor(h: OtelHandler, ops: seq<Derivation>, op: Derivation)
    requires StandsFor(h, ops) && op.WithGroup?
    ensures StandsFor(Derive(h, op), ops + [op])
  {
    var h', k := Derive(h, op), FirstGroup(ops);
    FirstGroupOfMore(ops, op);
    SurroundOneMore(ops, op, []);
    if op.name == "" && k == |ops| {
      assert (ops + [op])[..|ops| + 1] == ops + [op] && ops[..k] == ops;
    } else {
      assert (ops + [op])[..k] == ops[..k];
    }
    forall nodes
      ensures Surround(h'.base, Surround(FramesAsDerivations(h'.groups), nodes)) == Surround(ops + [op], nodes)
    {
      SurroundOneMore(ops, op, nodes);
      NewFrameSurrounds(h.groups, op.name, nodes);
      assert Surround(h.base, Surround(FramesAsDerivations(h.groups), Enclose(op.name, nodes)))
          == Surround(ops, Enclose(op.name, nodes));
    }
  }

  lemma {:induction false} DerivedStandsFor(ops: seq<Derivation>)
    ensures StandsFor(Derived(ops), ops)
  {
    if ops == [] {
      assert FramesAsDerivations([]) == [];
      assert ops[..0] == [];
    } else {
      var before, op := ops[..|ops| - 1], ops[|ops| - 1];
      DerivedStandsFor(before);
      assert before + [op] == ops;
      if op.WithAttrs? {
        AttrsStandFor(Derived(before), before, op);
      } else {
        GroupStandsFor(Derived(before), before, op);
      }
    }
  }

  /** What comes out, when the base had already been derived by `outside`. */
  function Output(outside: seq<Derivation>, ops: seq<Derivation>, attrs: seq<Attr>, ids: seq<Attr>): seq<Node> {
    Surround(outside + Derived(ops).base, Tree(Handled(Derived(ops), attrs, ids)))
  }

  /** For every derivation history and record the output is native slog grouping with the
      identifiers inserted above every group opened through this handler: behind the attributes
      installed before the first group, or at the end when no group is open. */
  lemma IdentifiersStayAboveTheGroups(ops: seq<Derivation>, attrs: seq<Attr>, ids: seq<Attr>)
    returns (above: seq<Node>, below: seq<Node>)
    ensures above + below == Surround(ops, Tree(attrs))
    ensures Output([], ops, attrs, ids) == above + Tree(ids) + below
    ensures if FirstGroup(ops) == |ops| then below == [] else above == Surround(ops[..FirstGroup(ops)], [])
  {
    DerivedStandsFor(ops);
    var h := Derived(ops);
    assert [] + h.base == h.base;
    above, below := HandlerOutput(h, ops, attrs, ids);
  }

  lemma HandledShows(h: OtelHandler, attrs: seq<Attr>, ids: seq<Attr>)
    requires Named(h.groups)
    ensures Tree(Handled(h, attrs, ids)) ==
            if h.groups == [] then Tree(attrs) + Tree(ids)
            else Tree(ids) + Surround(FramesAsDerivations(h.groups), Tree(attrs))
  {
    if h.groups == [] {
      AddAttrsShows(attrs, ids);
    } else {
      RegroupingIsNativeGrouping(h.groups, attrs);
      AddAttrsShows([], ids);
      assert [] + Tree(ids) == Tree(ids);
      AddAttrsShows(AddAttrs([], ids), Regrouped(h.groups, attrs));
    }
  }

  lemma HandlerOutput(h: OtelHandler, ops: seq<Derivation>, attrs: seq<Attr>, ids: seq<Attr>)
    returns (above: seq<Node>, below: seq<Node>)
    requires StandsFor(h, ops)
    ensures above + below == Surround(ops, Tree(attrs))
    ensures Surround(h.base, Tree(Handled(h, attrs, ids))) == above + Tree(ids) + below
    ensures if FirstGroup(ops) == |ops| then below == [] else above == Surround(ops[..FirstGroup(ops)], [])
  {
    var top, shown := Surround(ops[..FirstGroup(ops)], []), Tree(attrs);
    HandledShows(h, attrs, ids);
    assert Surround(h.base, Tree(Handled(h, attrs, ids))) == top + Tree(Handled(h, attrs, ids));
    var inside := Surround(FramesAsDerivations(h.groups), shown);
    assert Surround(h.base, inside) == top + inside == Surround(ops, shown);
    if h.groups == [] {
      above, below := top + shown, [];
      Associates(top, shown, Tree(ids));
    } else {
      above, below := top, inside;
      Associates(top, Tree(ids), inside);
    }
  }

  datatype SpanContext = SpanContext(valid: bool, traceId: string, spanId: string)

  /** What the handler adds to a record. */
  function Identifiers(sc: SpanContext): seq<Attr> {
    if sc.valid then [Attr("traceId", Leaf(sc.traceId)), Attr("spanId", Leaf(sc.spanId))] else []
  }

  lemma IdentifiersShow(sc: SpanContext)
    requires sc.valid
    ensures Tree(Identifiers(sc)) == [Field("traceId", Leaf(sc.traceId)), Field("spanId", Leaf(sc.spanId))]
  {
    var first, second := Attr("traceId", Leaf(sc.traceId)), Attr("spanId", Leaf(sc.spanId));
    TreeConcat([first], [second]);
    TreeOfOne(first);
    TreeOfOne(second);
    assert [first] + [second] == Identifiers(sc);
  }

  /** Both identifiers are top-level fields of every record under a valid span context, whatever
      groups are open, and taking the two fields out leaves the native output. */
  lemma ValidSpanPutsBothFieldsOnTop(ops: seq<Derivation>, attrs: seq<Attr>, sc: SpanContext)
    returns (at: nat)
    requires sc.valid
    ensures var out := Output([], ops, attrs, Identifiers(sc));
            && at + 2 <= |out|
            && out[at] == Field("traceId", Leaf(sc.traceId))
            && out[at + 1] == Field("spanId", Leaf(sc.spanId))
            && out[..at] + out[at + 2..] == Surround(ops, Tree(attrs))
  {
    var above, below := IdentifiersStayAboveTheGroups(ops, attrs, Identifiers(sc));
    IdentifiersShow(sc);
    at := |above|;
    var out := Output([], ops, attrs, Identifiers(sc));
    assert out[..at] == above && out[at + 2..] == below;
  }

  /** Without a valid span context the handler cannot be told from its base. */
  lemma WithoutSpanTheHandlerIsInvisible(outside: seq<Derivation>, ops: seq<Derivation>, attrs: seq<Attr>)
    ensures Output(outside, ops, attrs, []) == Surround(outside + ops, Tree(attrs))
  {
    var above, below := IdentifiersStayAboveTheGroups(ops, attrs, []);
    var h := Derived(ops);
    assert above + Tree([]) + below == above + below;
    assert [] + h.base == h.base;
    SurroundConcat(outside, h.base, Tree(Handled(h, attrs, [])));
    SurroundConcat(outside, ops, Tree(attrs));
  }

  /** Groups opened on the base beforehand are out of the handler's hands: what it writes,
      identifiers included, nests inside them. */
  lemma OutsideGroupsNestTheIdentifiers(outside: seq<Derivation>, ops: seq<Derivation>, attrs: seq<Attr>, ids: seq<Attr>)
    ensures Output(outside, ops, attrs, ids) == Surround(outside, Output([], ops, attrs, ids))
  {
    var h := Derived(ops);
    assert [] + h.base == h.base;
    SurroundConcat(outside, h.base, Tree(Handled(h, attrs, ids)));
  }
}
