/**
 Keys claiming labels, in the abstract: of the acceptable keys rendering as one label the
 first given owns it, and the last value given for that key stands. This is what
 appendResourceAttribute (options.go) does call after call.
 */
module LabelClaims {

  datatype Attr = Attr(key: string, value: string)

  type Attrs = map<string, string>

  /** Whether a key may join those in m: acceptable, and on a label no other key there has. */
  ghost predicate Accepts(ok: string -> bool, render: string -> string, m: Attrs, k: string) {
    ok(k) && forall o :: o in m && o != k ==> render(o) != render(k)
  }

  ghost function Accept(ok: string -> bool, render: string -> string, m: Attrs, a: Attr): Attrs {
    if Accepts(ok, render, m, a.key) then m[a.key := a.value] else m
  }

  ghost function AcceptAll(ok: string -> bool, render: string -> string, m: Attrs, attrs: seq<Attr>): Attrs {
    if attrs == [] then m
    else Accept(ok, render, AcceptAll(ok, render, m, attrs[..|attrs| - 1]), attrs[|attrs| - 1])
  }

  /** f is acceptable, and no acceptable key before it renders as the same label. */
  ghost predicate Claims(ok: string -> bool, render: string -> string, attrs: seq<Attr>, f: nat) {
    && f < |attrs| && ok(attrs[f].key)
    && forall j :: 0 <= j < f && ok(attrs[j].key) ==> render(attrs[j].key) != render(attrs[f].key)
  }

  /** Every accepted key claimed its label first. */
  lemma {:induction false} AcceptedKeyClaims(ok: string -> bool, render: string -> string, attrs: seq<Attr>, k: string)
    requires k in AcceptAll(ok, render, map[], attrs)
    ensures exists f: nat :: Claims(ok, render, attrs, f) && attrs[f].key == k
  {
    var last := |attrs| - 1;
    var before := attrs[..last];
    var m := AcceptAll(ok, render, map[], before);
    if k in m {
      AcceptedKeyClaims(ok, render, before, k);
      var f: nat :| Claims(ok, render, before, f) && before[f].key == k;
      assert Claims(ok, render, attrs, f);
    } else {
      forall j | 0 <= j < last && ok(attrs[j].key)
        ensures render(attrs[j].key) != render(k)
      {
        assert before[j] == attrs[j];
        AcceptableLabelIsTaken(ok, render, before, j);
      }
      assert Claims(ok, render, attrs, last);
    }
  }

  /** Every acceptable key's label ends up owned by some key. */
  lemma {:induction false} AcceptableLabelIsTaken(ok: string -> bool, render: string -> string, attrs: seq<Attr>, j: nat)
    requires j < |attrs| && ok(attrs[j].key)
    ensures exists o :: o in AcceptAll(ok, render, map[], attrs) && render(o) == render(attrs[j].key)
  {
    var last := |attrs| - 1;
    var m, m' := AcceptAll(ok, render, map[], attrs[..last]), AcceptAll(ok, render, map[], attrs);
    if j < last {
      AcceptableLabelIsTaken(ok, render, attrs[..last], j);
      var o :| o in m && render(o) == render(attrs[j].key);
      assert o in m';
    } else if Accepts(ok, render, m, attrs[j].key) {
      assert attrs[j].key in m';
    } else {
      var o :| o in m && o != attrs[j].key && render(o) == render(attrs[j].key);
      assert o in m';
    }
  }

  /** Accepted keys are acceptable keys that were given. */
  lemma {:induction false} AcceptedKeyWasGiven(ok: string -> bool, render: string -> string, attrs: seq<Attr>, k: string)
    requires k in AcceptAll(ok, render, map[], attrs)
    ensures exists j :: 0 <= j < |attrs| && attrs[j].key == k && ok(k)
  {
    var last := |attrs| - 1;
    if k in AcceptAll(ok, render, map[], attrs[..last]) {
      AcceptedKeyWasGiven(ok, render, attrs[..last], k);
      var j :| 0 <= j < last && attrs[..last][j].key == k && ok(k);
      assert attrs[j].key == k;
    } else {
      assert attrs[last].key == k;
    }
  }

  /** Whoever claims a label first is accepted. */
  lemma {:induction false} ClaimIsAccepted(ok: string -> bool, render: string -> string, attrs: seq<Attr>, f: nat)
    requires Claims(ok, render, attrs, f)
    ensures attrs[f].key in AcceptAll(ok, render, map[], attrs)
  {
    var last := |attrs| - 1;
    var before := attrs[..last];
    var m := AcceptAll(ok, render, map[], before);
    if f < last {
      assert forall j :: 0 <= j < f ==> before[j] == attrs[j];
      assert Claims(ok, render, before, f);
      ClaimIsAccepted(ok, render, before, f);
    } else {
      forall o | o in m
        ensures render(o) != render(attrs[f].key)
      {
        AcceptedKeyWasGiven(ok, render, before, o);
        var j :| 0 <= j < last && before[j].key == o && ok(o);
        assert attrs[j] == before[j];
      }
    }
  }

  /** The last value given for an accepted key stands. */
  lemma {:induction false} LastValueStands(ok: string -> bool, render: string -> string, attrs: seq<Attr>, i: nat)
    requires i < |attrs| && attrs[i].key in AcceptAll(ok, render, map[], attrs)
    requires forall j :: i < j < |attrs| ==> attrs[j].key != attrs[i].key
    ensures AcceptAll(ok, render, map[], attrs)[attrs[i].key] == attrs[i].value
  {
    var last := |attrs| - 1;
    var m := AcceptAll(ok, render, map[], attrs[..last]);
    if i < last {
      assert attrs[last].key != attrs[i].key;
      LastValueStands(ok, render, attrs[..last], i);
    } else {
      AcceptedKeyClaims(ok, render, attrs, attrs[i].key);
      OwnersAreApart(ok, render, attrs);
      if attrs[i].key in m {
        OwnersAreApart(ok, render, attrs[..last]);
      }
    }
  }

  lemma {:induction false} OwnersAreApart(ok: string -> bool, render: string -> string, attrs: seq<Attr>)
    ensures var m := AcceptAll(ok, render, map[], attrs);
            && (forall k :: k in m ==> ok(k))
            && (forall j, k :: j in m && k in m && render(j) == render(k) ==> j == k)
  {
    if attrs != [] {
      OwnersAreApart(ok, render, attrs[..|attrs| - 1]);
    }
  }

  /** The whole outcome: exactly the first claimants, each with its last value. */
  lemma FirstKeyLastValue(ok: string -> bool, render: string -> string, attrs: seq<Attr>)
    ensures var m := AcceptAll(ok, render, map[], attrs);
            && (forall k :: k in m <==> exists f: nat :: Claims(ok, render, attrs, f) && attrs[f].key == k)
            && (forall i :: 0 <= i < |attrs| && attrs[i].key in m && (forall j :: i < j < |attrs| ==> attrs[j].key != attrs[i].key) ==>
                  m[attrs[i].key] == attrs[i].value)
  {
    var m := AcceptAll(ok, render, map[], attrs);
    forall k
      ensures k in m <==> exists f: nat :: Claims(ok, render, attrs, f) && attrs[f].key == k
    {
      if k in m {
        AcceptedKeyClaims(ok, render, attrs, k);
      }
      if f: nat :| Claims(ok, render, attrs, f) && attrs[f].key == k {
        ClaimIsAccepted(ok, render, attrs, f);
      }
    }
    forall i | 0 <= i < |attrs| && attrs[i].key in m && forall j :: i < j < |attrs| ==> attrs[j].key != attrs[i].key
      ensures m[attrs[i].key] == attrs[i].value
    {
      LastValueStands(ok, render, attrs, i);
    }
  }
}
