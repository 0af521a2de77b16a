/**
 The guards that keep every Resource attribute on a Prometheus label of its own:
 WithResourceAttributes (options.go), EnvResourceAttributes (internal/metrics/resourcekeys.go),
 the merge in buildResource (o11y.go) and targetInfoLabels (internal/metrics/targetinfo.go).
 */
module ResourceGuard {
  import opened Wrappers
  import opened LabelNames
  import opened LabelClaims

  const TELEMETRY_PREFIX := "telemetry_sdk_"
  const PROCESS_PREFIX := "process_"

  /** The keys the SDK sets itself, and the labels the exporter owns. */
  datatype Policy = Policy(identity: seq<Name>, detected: seq<Name>, ownedLabels: seq<Name>)

  predicate SameLabel(a: Name, b: Name) {
    Normalize(a) == Normalize(b)
  }

  // ---- SDK-owned keys

  /** Lower-case words separated by single dots, as every SDK-owned key is spelt. */
  predicate Simple(k: Name) {
    && k != "" && k[0] != '.'
    && (forall i :: 0 <= i < |k| ==> 'a' <= k[i] <= 'z' || k[i] == '.')
    && (forall i :: 0 < i < |k| && k[i] == '.' ==> k[i - 1] != '.')
  }

  function OwnedKeys(p: Policy): seq<Name> {
    p.identity + p.detected
  }

  ghost predicate PolicyOk(p: Policy) {
    forall k :: k in OwnedKeys(p) ==> Simple(k)
  }

  lemma {:induction false} SquashOfSimple(k: Name, under: bool)
    requires forall i :: 0 <= i < |k| ==> 'a' <= k[i] <= 'z' || k[i] == '.'
    requires forall i :: 0 < i < |k| && k[i] == '.' ==> k[i - 1] != '.'
    requires under && k != "" ==> k[0] != '.'
    ensures |Squash(k, under)| == |k|
    ensures forall i :: 0 <= i < |k| ==> Squash(k, under)[i] == if k[i] == '.' then '_' else k[i]
  {
    if k != "" {
      SquashOfSimple(k[1..], !IsAlnum(k[0]));
    }
  }

  /** Two SDK-owned keys never share a label, and each is a valid one. */
  lemma SimpleKeysHaveOwnLabels(a: Name, b: Name)
    requires Simple(a) && Simple(b)
    ensures SameLabel(a, b) ==> a == b
    ensures ValidForTargetInfo(a)
  {
    SquashOfSimple(a, false);
    SquashOfSimple(b, false);
    assert IsAlnum(a[0]);
    if SameLabel(a, b) {
      forall i | 0 <= i < |a|
        ensures a[i] == b[i]
      {
        assert Squash(a, false)[i] == Squash(b, false)[i];
      }
    }
  }

  function FirstAlias(keys: seq<Name>, k: Name): Option<Name> {
    if keys == [] then None else if SameLabel(k, keys[0]) then Some(keys[0]) else FirstAlias(keys[1..], k)
  }

  lemma {:induction false} FirstAliasFinds(keys: seq<Name>, k: Name)
    ensures FirstAlias(keys, k).Some? <==> exists o :: o in keys && SameLabel(k, o)
    ensures FirstAlias(keys, k).Some? ==> FirstAlias(keys, k).value in keys && SameLabel(k, FirstAlias(keys, k).value)
  {
    if keys != [] {
      FirstAliasFinds(keys[1..], k);
      assert forall o :: o in keys <==> o == keys[0] || o in keys[1..];
    }
  }

  function Owner(p: Policy, k: Name): Option<Name> {
    FirstAlias(OwnedKeys(p), k)
  }

  method AliasIn(keys: seq<Name>, k: Name) returns (alias: Option<Name>)
    ensures alias == FirstAlias(keys, k)
  {
    for n := 0 to |keys|
      invariant FirstAlias(keys, k) == FirstAlias(keys[n..], k)
    {
      if SameLabel(k, keys[n]) {
        return Some(keys[n]);
      }
    }
    return None;
  }

  /** The owner a key would be joined with, and whether it is an identity key. */
  method ResourceKeyOwner(p: Policy, k: Name) returns (owner: Option<Name>, identity: bool)
    ensures owner == Owner(p, k)
    ensures identity <==> exists o :: o in p.identity && SameLabel(k, o)
  {
    FirstAliasOfConcat(p.identity, p.detected, k);
    FirstAliasFinds(p.identity, k);
    owner := AliasIn(p.identity, k);
    identity := owner.Some?;
    if !identity {
      owner := AliasIn(p.detected, k);
    }
  }

  lemma {:induction false} FirstAliasOfConcat(a: seq<Name>, b: seq<Name>, k: Name)
    ensures FirstAlias(a + b, k) == if FirstAlias(a, k).Some? then FirstAlias(a, k) else FirstAlias(b, k)
  {
    if a == [] {
      assert a + b == b;
    } else {
      assert (a + b)[1..] == a[1..] + b;
      FirstAliasOfConcat(a[1..], b, k);
    }
  }

  /** A key neither SDK-owned, nor in a namespace the SDK closes, nor reserved. */
  ghost predicate Acceptable(p: Policy, k: Name) {
    && Owner(p, k).None?
    && !(TELEMETRY_PREFIX <= Normalize(k)) && !(PROCESS_PREFIX <= Normalize(k))
    && !Reserved(k, p.ownedLabels)
  }

  // ---- WithResourceAttributes

  function KeysOf(attrs: seq<Attr>): (ks: seq<Name>)
    ensures |ks| == |attrs|
  {
    seq(|attrs|, i requires 0 <= i < |attrs| => attrs[i].key)
  }

  /** Distinct keys with distinct labels. */
  ghost predicate LabelsApart(ks: seq<Name>) {
    forall i, j :: 0 <= i < j < |ks| ==> !SameLabel(ks[i], ks[j])
  }

  ghost predicate Guarded(p: Policy, attrs: seq<Attr>) {
    LabelsApart(KeysOf(attrs)) && forall k :: k in KeysOf(attrs) ==> Acceptable(p, k)
  }

  /** What a list of attributes sets: later ones override earlier ones. */
  function ToMap(attrs: seq<Attr>): Attrs {
    if attrs == [] then map[] else ToMap(attrs[..|attrs| - 1])[attrs[|attrs| - 1].key := attrs[|attrs| - 1].value]
  }

  lemma {:induction false} ToMapKeys(attrs: seq<Attr>)
    ensures forall k :: k in ToMap(attrs) <==> k in KeysOf(attrs)
    ensures forall i :: 0 <= i < |attrs| && IsLastOfKey(attrs, i) ==>
              attrs[i].key in ToMap(attrs) && ToMap(attrs)[attrs[i].key] == attrs[i].value
  {
    if attrs != [] {
      var before, last := attrs[..|attrs| - 1], attrs[|attrs| - 1];
      ToMapKeys(before);
      assert KeysOf(attrs) == KeysOf(before) + [last.key];
      forall i | 0 <= i < |attrs| && IsLastOfKey(attrs, i)
        ensures attrs[i].key in ToMap(attrs) && ToMap(attrs)[attrs[i].key] == attrs[i].value
      {
        if i < |before| {
          assert before[i] == attrs[i] && IsLastOfKey(before, i);
          assert attrs[i].key != last.key;
        }
      }
    }
  }

  /** No later attribute has this one's key. */
  ghost predicate IsLastOfKey(attrs: seq<Attr>, i: nat)
    requires i < |attrs|
  {
    forall j :: i < j < |attrs| ==> attrs[j].key != attrs[i].key
  }

  /** The keys the option accepts, and what a key renders as. */
  ghost function AcceptableTo(p: Policy): Name -> bool {
    (k: Name) => Acceptable(p, k)
  }

  function Rendering(): Name -> Name {
    (k: Name) => Normalize(k)
  }

  lemma ListAndMapAgree(p: Policy, attrs: seq<Attr>, k: Name)
    ensures Accepts(AcceptableTo(p), Rendering(), ToMap(attrs), k) <==>
              Acceptable(p, k) && forall o :: o in KeysOf(attrs) && o != k ==> !SameLabel(o, k)
  {
    ToMapKeys(attrs);
    forall o | o in KeysOf(attrs)
      ensures SameLabel(o, k) <==> Rendering()(o) == Rendering()(k)
    {
    }
  }

  /** What any calls of the option add up to: on each label the first acceptable key, with
      the last value given for it. */
  lemma OptionCallsAddUp(p: Policy, attrs: seq<Attr>)
    ensures var m := AcceptAll(AcceptableTo(p), Rendering(), map[], attrs);
            && (forall k :: k in m <==> exists f: nat :: Claims(AcceptableTo(p), Rendering(), attrs, f) && attrs[f].key == k)
            && (forall i :: 0 <= i < |attrs| && attrs[i].key in m && (forall j :: i < j < |attrs| ==> attrs[j].key != attrs[i].key) ==>
                  m[attrs[i].key] == attrs[i].value)
  {
    FirstKeyLastValue(AcceptableTo(p), Rendering(), attrs);
  }

  /** No other of the keys renders as this one's label. */
  ghost predicate LabelIsFree(ks: seq<Name>, key: Name) {
    forall k :: k in ks && k != key ==> !SameLabel(k, key)
  }

  ghost predicate ApartUpTo(ks: seq<Name>, n: nat, key: Name)
    requires n <= |ks|
  {
    forall j :: 0 <= j < n ==> !SameLabel(ks[j], key)
  }

  lemma AliasTakesTheLabel(ks: seq<Name>, i: nat, key: Name)
    requires i < |ks| && ks[i] != key && SameLabel(ks[i], key)
    ensures !LabelIsFree(ks, key)
  {
    assert ks[i] in ks;
  }

  class Config {
    const policy: Policy
    var resourceAttrs: seq<Attr>
    var warnings: nat

    ghost predicate Valid()
      reads this
    {
      AllPlain(policy.ownedLabels) && Guarded(policy, resourceAttrs)
    }

    constructor (policy: Policy)
      requires AllPlain(policy.ownedLabels)
      ensures Valid() && this.policy == policy && resourceAttrs == [] && warnings == 0
    {
      this.policy := policy;
      resourceAttrs := [];
      warnings := 0;
    }

    /** One attribute: refused with a warning unless acceptable and on a label no other
        key has; an equal key given again takes the later value. */
    method AddOne(groups: Groups, a: Attr)
      requires Valid() && GroupsAre(groups, policy.ownedLabels)
      modifies this
      ensures Valid()
      ensures ToMap(resourceAttrs) == Accept(AcceptableTo(policy), Rendering(), ToMap(old(resourceAttrs)), a)
      ensures warnings == old(warnings) + (if Accepts(AcceptableTo(policy), Rendering(), ToMap(old(resourceAttrs)), a.key) then 0 else 1)
    {
      ListAndMapAgree(policy, resourceAttrs, a.key);
      var owner, identity := ResourceKeyOwner(policy, a.key);
      var reserved := IsReservedAttributeKey(policy.ownedLabels, groups, a.key);
      if a.key == "" {
        warnings := warnings + 1;
      } else if owner.Some? && identity {
        warnings := warnings + 1;
      } else if owner.Some? {
        warnings := warnings + 1;
      } else if TELEMETRY_PREFIX <= Normalize(a.key) {
        warnings := warnings + 1;
      } else if PROCESS_PREFIX <= Normalize(a.key) {
        warnings := warnings + 1;
      } else if reserved {
        warnings := warnings + 1;
      } else {
        Append(a);
      }
    }

    /** appendResourceAttribute: replaces in place, refuses an alias, or appends. */
    method Append(a: Attr)
      requires Valid() && Acceptable(policy, a.key)
      modifies this
      ensures Valid()
      ensures if LabelIsFree(KeysOf(old(resourceAttrs)), a.key)
              then ToMap(resourceAttrs) == ToMap(old(resourceAttrs))[a.key := a.value] && warnings == old(warnings)
              else resourceAttrs == old(resourceAttrs) && warnings == old(warnings) + 1
    {
      ghost var ks := KeysOf(resourceAttrs);
      for i := 0 to |resourceAttrs|
        invariant resourceAttrs == old(resourceAttrs) && warnings == old(warnings)
        invariant ApartUpTo(ks, i, a.key)
      {
        var prev := resourceAttrs[i];
        assert prev.key == ks[i];
        if prev.key == a.key {
          ReplacedStaysGuarded(policy, resourceAttrs, i, a);
          resourceAttrs := resourceAttrs[i := a];
          return;
        }
        if SameLabel(prev.key, a.key) {
          AliasTakesTheLabel(ks, i, a.key);
          warnings := warnings + 1;
          return;
        }
      }
      AppendedStaysGuarded(policy, resourceAttrs, a, ks);
      resourceAttrs := resourceAttrs + [a];
    }

    /** Any list of attributes, given in any number of calls. */
    method WithResourceAttributes(groups: Groups, attrs: seq<Attr>)
      requires Valid() && GroupsAre(groups, policy.ownedLabels)
      modifies this
      ensures Valid()
      ensures ToMap(resourceAttrs) == AcceptAll(AcceptableTo(policy), Rendering(), ToMap(old(resourceAttrs)), attrs)
    {
      for i := 0 to |attrs|
        invariant Valid()
        invariant ToMap(resourceAttrs) == AcceptAll(AcceptableTo(policy), Rendering(), ToMap(old(resourceAttrs)), attrs[..i])
      {
        assert attrs[..i + 1][..i] == attrs[..i];
        AddOne(groups, attrs[i]);
      }
      assert attrs[..|attrs|] == attrs;
    }
  }

  lemma ReplacedStaysGuarded(p: Policy, attrs: seq<Attr>, i: nat, a: Attr)
    requires Guarded(p, attrs) && i < |attrs| && attrs[i].key == a.key
    ensures Guarded(p, attrs[i := a]) && LabelIsFree(KeysOf(attrs), a.key)
    ensures ToMap(attrs[i := a]) == ToMap(attrs)[a.key := a.value]
  {
    OthersAreApart(KeysOf(attrs), i);
    ReplaceInPlace(attrs, i, a);
    assert KeysOf(attrs[i := a]) == KeysOf(attrs);
  }

  lemma AppendedKey(ks: seq<Name>, k: Name)
    requires LabelsApart(ks) && ApartUpTo(ks, |ks|, k)
    ensures LabelsApart(ks + [k]) && LabelIsFree(ks, k)
  {
  }

  lemma ToMapOneMore(attrs: seq<Attr>, a: Attr)
    ensures ToMap(attrs + [a]) == ToMap(attrs)[a.key := a.value]
  {
    assert (attrs + [a])[..|attrs|] == attrs;
  }

  lemma AppendedStaysGuarded(p: Policy, attrs: seq<Attr>, a: Attr, ks: seq<Name>)
    requires Guarded(p, attrs) && ks == KeysOf(attrs)
    requires Acceptable(p, a.key) && ApartUpTo(ks, |ks|, a.key)
    ensures Guarded(p, attrs + [a]) && LabelIsFree(ks, a.key)
    ensures ToMap(attrs + [a]) == ToMap(attrs)[a.key := a.value]
  {
    AppendedKey(ks, a.key);
    ToMapOneMore(attrs, a);
    assert KeysOf(attrs + [a]) == ks + [a.key];
  }

  lemma OthersAreApart(ks: seq<Name>, i: nat)
    requires LabelsApart(ks) && i < |ks|
    ensures forall k :: k in ks && k != ks[i] ==> !SameLabel(k, ks[i])
  {
    forall k | k in ks && k != ks[i]
      ensures !SameLabel(k, ks[i])
    {
      var j :| 0 <= j < |ks| && ks[j] == k;
      assert j < i ==> !SameLabel(ks[j], ks[i]);
      assert i < j ==> !SameLabel(ks[i], ks[j]);
    }
  }

  lemma {:induction false} ReplaceInPlace(attrs: seq<Attr>, i: nat, a: Attr)
    requires i < |attrs| && attrs[i].key == a.key && LabelsApart(KeysOf(attrs))
    ensures ToMap(attrs[i := a]) == ToMap(attrs)[a.key := a.value]
  {
    var last := |attrs| - 1;
    var ks := KeysOf(attrs);
    if i == last {
      assert attrs[i := a][..last] == attrs[..last];
    } else {
      assert attrs[i := a][..last] == attrs[..last][i := a];
      assert KeysOf(attrs[..last]) == ks[..last];
      ReplaceInPlace(attrs[..last], i, a);
      assert !SameLabel(ks[i], ks[last]);
    }
  }

  // ---- The environment

  datatype EnvVerdict = EnvVerdict(kept: seq<Attr>, dropped: seq<Name>)

  /** Whether an environment attribute may join those kept so far. */
  ghost predicate Keeps(p: Policy, caller: seq<Name>, kept: seq<Attr>, k: Name) {
    if Owner(p, k) == Some(k) then true
    else
      && Acceptable(p, k)
      && (forall c :: c in caller && c != k ==> !SameLabel(c, k))
      && (forall o :: o in KeysOf(kept) ==> !SameLabel(o, k))
  }

  ghost function GuardEnv(p: Policy, caller: seq<Name>, env: seq<Attr>): EnvVerdict {
    if env == [] then EnvVerdict([], [])
    else
      var before := GuardEnv(p, caller, env[..|env| - 1]);
      var a := env[|env| - 1];
      if Keeps(p, caller, before.kept, a.key) then before.(kept := before.kept + [a])
      else before.(dropped := before.dropped + [a.key])
  }

  function FirstOtherAlias(keys: seq<Name>, k: Name): Option<Name> {
    if keys == [] then None
    else if keys[0] != k && SameLabel(keys[0], k) then Some(keys[0]) else FirstOtherAlias(keys[1..], k)
  }

  lemma {:induction false} FirstOtherAliasFinds(keys: seq<Name>, k: Name)
    ensures FirstOtherAlias(keys, k).Some? <==> exists o :: o in keys && o != k && SameLabel(o, k)
  {
    if keys != [] {
      FirstOtherAliasFinds(keys[1..], k);
      assert forall o :: o in keys <==> o == keys[0] || o in keys[1..];
    }
  }

  /** The table of labels already kept. */
  ghost predicate SeenAre(seen: map<Name, Name>, ks: seq<Name>) {
    && (forall k :: k in ks ==> Normalize(k) in seen)
    && (forall l :: l in seen ==> seen[l] in ks && Normalize(seen[l]) == l)
  }

  lemma SeenGrows(seen: map<Name, Name>, ks: seq<Name>, k: Name)
    requires SeenAre(seen, ks)
    ensures SeenAre(seen[Normalize(k) := k], ks + [k])
  {
  }

  /** EnvResourceAttributes: its switch, with the table of labels already kept. */
  method EnvResourceAttributes(p: Policy, groups: Groups, callerAttrs: seq<Attr>, env: seq<Attr>)
    returns (kept: seq<Attr>, dropped: seq<Name>)
    requires AllPlain(p.ownedLabels) && GroupsAre(groups, p.ownedLabels)
    ensures EnvVerdict(kept, dropped) == GuardEnv(p, KeysOf(callerAttrs), env)
  {
    var seen: map<Name, Name> := map[];
    kept, dropped := [], [];
    for n := 0 to |env|
      invariant EnvVerdict(kept, dropped) == GuardEnv(p, KeysOf(callerAttrs), env[..n])
      invariant SeenAre(seen, KeysOf(kept))
    {
      var a := env[n];
      assert env[..n + 1][..n] == env[..n];
      var owner, identity := ResourceKeyOwner(p, a.key);
      var reserved := IsReservedAttributeKey(p.ownedLabels, groups, a.key);
      var alias := FirstOtherAlias(KeysOf(callerAttrs), a.key);
      FirstOtherAliasFinds(KeysOf(callerAttrs), a.key);
      var lab := Normalize(a.key);
      if owner == Some(a.key) {
        SeenGrows(seen, KeysOf(kept), a.key);
        assert KeysOf(kept + [a]) == KeysOf(kept) + [a.key];
        seen := seen[lab := a.key];
        kept := kept + [a];
      } else if owner.Some? {
        dropped := dropped + [a.key];
      } else if TELEMETRY_PREFIX <= lab {
        dropped := dropped + [a.key];
      } else if PROCESS_PREFIX <= lab {
        dropped := dropped + [a.key];
      } else if reserved {
        dropped := dropped + [a.key];
      } else if alias.Some? {
        dropped := dropped + [a.key];
      } else if lab in seen {
        dropped := dropped + [a.key];
      } else {
        SeenGrows(seen, KeysOf(kept), a.key);
        assert KeysOf(kept + [a]) == KeysOf(kept) + [a.key];
        seen := seen[lab := a.key];
        kept := kept + [a];
      }
    }
    assert env[..|env|] == env;
  }

  // ---- The merged Resource

  /** buildResource's merge: environment, then detectors, then the caller, then identity. */
  function BuildResource(kept: seq<Attr>, detected: Attrs, caller: seq<Attr>, identity: Attrs): Attrs {
    ToMap(kept) + detected + ToMap(caller) + identity
  }

  /** What the detectors and identity options set, whichever detectors succeed. */
  ghost predicate SetsOwned(p: Policy, detected: Attrs, identity: Attrs) {
    (forall k :: k in detected ==> k in p.detected) && (forall k :: k in identity ==> k in p.identity)
  }

  /** Identity values and caller values always reach the Resource: the caller's can
      neither shadow nor be shadowed by what the SDK sets. */
  lemma MergePrecedence(p: Policy, kept: seq<Attr>, detected: Attrs, caller: seq<Attr>, identity: Attrs, k: Name)
    requires Guarded(p, caller) && SetsOwned(p, detected, identity)
    ensures var res := BuildResource(kept, detected, caller, identity);
            && (k in identity ==> k in res && res[k] == identity[k])
            && (k in KeysOf(caller) ==> k in ToMap(caller) && k in res && res[k] == ToMap(caller)[k])
            && (k in detected && k !in identity ==> k in res && res[k] == detected[k])
  {
    ToMapKeys(caller);
    GuardedKeyIsNotOwned(p, caller, k);
  }

  lemma {:induction false} ToMapOfDistinct(attrs: seq<Attr>, a: Attr)
    requires LabelsApart(KeysOf(attrs)) && a in attrs
    ensures a.key in ToMap(attrs) && ToMap(attrs)[a.key] == a.value
  {
    var i :| 0 <= i < |attrs| && attrs[i] == a;
    ToMapKeys(attrs);
    forall j | i < j < |attrs| ensures attrs[j].key != a.key {
      assert !SameLabel(KeysOf(attrs)[i], KeysOf(attrs)[j]);
    }
    assert IsLastOfKey(attrs, i);
  }

  /** A kept environment attribute that neither the detectors, nor the caller, nor the identity options
      set reaches the Resource with the value it had in the environment; and the Resource has no key
      that none of the four brought. */
  lemma EnvValuesReachTheResource(p: Policy, env: seq<Attr>, detected: Attrs, caller: seq<Attr>, identity: Attrs, i: nat)
    requires PolicyOk(p) && DistinctKeys(env) && i < |env|
    ensures var kept := GuardEnv(p, KeysOf(caller), env).kept;
            var res, k := BuildResource(kept, detected, caller, identity), env[i].key;
            && (env[i] in kept && k !in detected && k !in KeysOf(caller) && k !in identity ==> k in res && res[k] == env[i].value)
            && (k in res ==> env[i] in kept || k in detected || k in KeysOf(caller) || k in identity)
  {
    var kept, k := GuardEnv(p, KeysOf(caller), env).kept, env[i].key;
    KeptEnv(p, KeysOf(caller), env);
    KeptAreFromEnv(p, KeysOf(caller), env);
    ToMapKeys(kept);
    ToMapKeys(caller);
    if env[i] in kept {
      ToMapOfDistinct(kept, env[i]);
    }
    if k in KeysOf(kept) {
      var n :| 0 <= n < |kept| && kept[n].key == k;
      assert kept[n] in env;
    }
  }

  lemma GuardedKeyIsNotOwned(p: Policy, caller: seq<Attr>, k: Name)
    requires Guarded(p, caller)
    ensures k in KeysOf(caller) ==> k !in OwnedKeys(p)
  {
    FirstAliasFinds(OwnedKeys(p), k);
    assert k in KeysOf(caller) ==> Acceptable(p, k);
  }

  ghost predicate DistinctKeys(env: seq<Attr>) {
    forall i, j :: 0 <= i < j < |env| ==> env[i].key != env[j].key
  }

  /** A label client_golang and the translator accept. */
  predicate ValidForTargetInfo(k: Name) {
    Normalize(k) != "" && !("__" <= Normalize(k)) && HasAlnum(k)
  }

  lemma LastKeyIsNew(env: seq<Attr>)
    requires env != [] && DistinctKeys(env)
    ensures env[|env| - 1].key !in KeysOf(env[..|env| - 1])
  {
    var ks := KeysOf(env[..|env| - 1]);
    forall i | 0 <= i < |ks|
      ensures ks[i] != env[|env| - 1].key
    {
      assert env[i].key != env[|env| - 1].key;
    }
  }

  /** What the environment guard lets through. */
  lemma {:induction false} KeptEnv(p: Policy, caller: seq<Name>, env: seq<Attr>)
    requires PolicyOk(p) && DistinctKeys(env)
    ensures var v := GuardEnv(p, caller, env);
            && LabelsApart(KeysOf(v.kept))
            && (forall k :: k in KeysOf(v.kept) ==>
                  k in KeysOf(env)
                  && (k in OwnedKeys(p) || (Acceptable(p, k) && forall c :: c in caller && c != k ==> !SameLabel(c, k))))
            && (forall k :: k in KeysOf(env) ==> k in KeysOf(v.kept) || k in v.dropped)
            && (forall k :: k in v.dropped ==> k in KeysOf(env) && k !in KeysOf(v.kept))
  {
    if env != [] {
      var before, a := env[..|env| - 1], env[|env| - 1];
      KeptEnv(p, caller, before);
      var v, w := GuardEnv(p, caller, before), GuardEnv(p, caller, env);
      assert KeysOf(env) == KeysOf(before) + [a.key];
      LastKeyIsNew(env);
      FirstAliasFinds(OwnedKeys(p), a.key);
      if Keeps(p, caller, v.kept, a.key) {
        assert KeysOf(w.kept) == KeysOf(v.kept) + [a.key];
        forall o | o in KeysOf(v.kept)
          ensures !SameLabel(o, a.key)
        {
          KeptKeyIsApart(p, caller, v.kept, o, a.key);
        }
      }
    }
  }

  lemma KeptOneMore(p: Policy, caller: seq<Name>, env: seq<Attr>, a: Attr)
    ensures var kept := GuardEnv(p, caller, env).kept;
            GuardEnv(p, caller, env + [a]).kept == if Keeps(p, caller, kept, a.key) then kept + [a] else kept
  {
    assert (env + [a])[..|env|] == env;
  }

  /** What is kept is from the environment, values included. */
  lemma {:induction false} KeptAreFromEnv(p: Policy, caller: seq<Name>, env: seq<Attr>)
    ensures forall a :: a in GuardEnv(p, caller, env).kept ==> a in env
  {
    if env != [] {
      var before, a := env[..|env| - 1], env[|env| - 1];
      assert env == before + [a];
      KeptAreFromEnv(p, caller, before);
      KeptOneMore(p, caller, before, a);
    }
  }

  /** The environment guard, from the entry's side: it may be kept, given what was before it. */
  ghost predicate MayStay(p: Policy, caller: seq<Name>, env: seq<Attr>, i: nat, kept: seq<Attr>)
    requires i < |env|
  {
    var k := env[i].key;
    k in OwnedKeys(p) ||
    (&& Acceptable(p, k)
     && (forall c :: c in caller && c != k ==> !SameLabel(c, k))
     && (forall j :: 0 <= j < i && SameLabel(env[j].key, k) ==> env[j] !in kept))
  }

  lemma OwnedIsItsOwner(p: Policy, k: Name)
    requires PolicyOk(p)
    ensures k in OwnedKeys(p) <==> Owner(p, k) == Some(k)
  {
    FirstAliasFinds(OwnedKeys(p), k);
    if k in OwnedKeys(p) {
      SimpleKeysHaveOwnLabels(k, Owner(p, k).value);
    }
  }

  lemma LastStaysExactly(p: Policy, caller: seq<Name>, env: seq<Attr>, a: Attr)
    requires PolicyOk(p)
    ensures Keeps(p, caller, GuardEnv(p, caller, env).kept, a.key)
       <==> MayStay(p, caller, env + [a], |env|, GuardEnv(p, caller, env).kept)
  {
    var kept, all := GuardEnv(p, caller, env).kept, env + [a];
    OwnedIsItsOwner(p, a.key);
    KeptAreFromEnv(p, caller, env);
    if o :| o in KeysOf(kept) && SameLabel(o, a.key) {
      var i :| 0 <= i < |kept| && kept[i].key == o;
      assert kept[i] in env;
      var j :| 0 <= j < |env| && env[j] == kept[i];
      assert all[j] == env[j];
    }
    if j :| 0 <= j < |env| && SameLabel(all[j].key, a.key) && all[j] in kept {
      var i :| 0 <= i < |kept| && kept[i] == all[j];
      assert KeysOf(kept)[i] == all[j].key;
    }
  }

  /** An environment attribute is kept exactly when its key is one of the SDK's, or acceptable, with a
      label that no other key of the caller's has and no attribute kept before it. */
  lemma {:induction false} EnvKeyIsKeptExactly(p: Policy, caller: seq<Name>, env: seq<Attr>, i: nat)
    requires PolicyOk(p) && DistinctKeys(env) && i < |env|
    ensures env[i] in GuardEnv(p, caller, env).kept <==> MayStay(p, caller, env, i, GuardEnv(p, caller, env).kept)
  {
    var before, a := env[..|env| - 1], env[|env| - 1];
    var kept := GuardEnv(p, caller, before).kept;
    assert env == before + [a];
    KeptOneMore(p, caller, before, a);
    KeptAreFromEnv(p, caller, before);
    forall j | 0 <= j < |before|
      ensures env[j] in GuardEnv(p, caller, env).kept <==> before[j] in kept
    {
      assert env[j].key != a.key;
    }
    if i < |before| {
      EnvKeyIsKeptExactly(p, caller, before, i);
    } else {
      assert a !in kept by {
        forall j | 0 <= j < |before| ensures before[j] != a { assert env[j].key != a.key; }
      }
      LastStaysExactly(p, caller, before, a);
    }
  }

  lemma KeptKeyIsApart(p: Policy, caller: seq<Name>, kept: seq<Attr>, o: Name, k: Name)
    requires PolicyOk(p) && Keeps(p, caller, kept, k) && o in KeysOf(kept) && o != k
    requires o in OwnedKeys(p) || Acceptable(p, o)
    ensures !SameLabel(o, k)
  {
    FirstAliasFinds(OwnedKeys(p), k);
    FirstAliasFinds(OwnedKeys(p), o);
    if o in OwnedKeys(p) && k in OwnedKeys(p) {
      SimpleKeysHaveOwnLabels(o, k);
    }
  }

  /** Where a key of the guarded Resource comes from. */
  lemma ResourceKeys(p: Policy, env: seq<Attr>, detected: Attrs, caller: seq<Attr>, identity: Attrs, k: Name)
    requires PolicyOk(p) && DistinctKeys(env) && Guarded(p, caller) && SetsOwned(p, detected, identity)
    requires k in BuildResource(GuardEnv(p, KeysOf(caller), env).kept, detected, caller, identity)
    ensures k in OwnedKeys(p) || k in KeysOf(caller) || k in KeysOf(GuardEnv(p, KeysOf(caller), env).kept)
    ensures k !in OwnedKeys(p) ==> Acceptable(p, k)
  {
    var kept := GuardEnv(p, KeysOf(caller), env).kept;
    KeptEnv(p, KeysOf(caller), env);
    ToMapKeys(kept);
    ToMapKeys(caller);
  }

  /** No two keys of the final Resource render as the same label, every key renders as a
      valid one, and only the SDK's own detectors reach the telemetry.sdk and process namespaces. */
  lemma FinalLabelsAreApart(p: Policy, env: seq<Attr>, detected: Attrs, caller: seq<Attr>, identity: Attrs, j: Name, k: Name)
    requires PolicyOk(p) && DistinctKeys(env) && Guarded(p, caller) && SetsOwned(p, detected, identity)
    requires var res := BuildResource(GuardEnv(p, KeysOf(caller), env).kept, detected, caller, identity);
             j in res && k in res
    ensures SameLabel(j, k) ==> j == k
    ensures ValidForTargetInfo(k)
    ensures TELEMETRY_PREFIX <= Normalize(k) || PROCESS_PREFIX <= Normalize(k) ==> k in OwnedKeys(p)
  {
    ResourceKeys(p, env, detected, caller, identity, j);
    ResourceKeys(p, env, detected, caller, identity, k);
    FirstAliasFinds(OwnedKeys(p), j);
    FirstAliasFinds(OwnedKeys(p), k);
    KeptEnv(p, KeysOf(caller), env);
    if k in OwnedKeys(p) {
      SimpleKeysHaveOwnLabels(k, if j in OwnedKeys(p) then j else k);
    } else {
      NormalizedIsALabel(k);
      var n := Normalize(k);
      assert !("__" <= n) by {
        if |n| >= 2 {
          assert !(n[1 - 1] == '_' && n[1] == '_');
        }
      }
    }
    KeysAreApart(KeysOf(caller));
    KeysAreApart(KeysOf(GuardEnv(p, KeysOf(caller), env).kept));
  }

  lemma KeysAreApart(ks: seq<Name>)
    requires LabelsApart(ks)
    ensures forall j, k :: j in ks && k in ks && SameLabel(j, k) ==> j == k
  {
    forall i | 0 <= i < |ks|
      ensures forall k :: k in ks && k != ks[i] ==> !SameLabel(k, ks[i])
    {
      OthersAreApart(ks, i);
    }
  }

  // ---- target_info

  /** What targetInfoLabels makes of a list of attributes. */
  function TargetInfo(attrs: seq<Attr>): (seq<Name>, seq<string>) {
    if attrs == [] then ([], [])
    else
      var (keys, values) := TargetInfo(attrs[..|attrs| - 1]);
      var a := attrs[|attrs| - 1];
      if !ValidForTargetInfo(a.key) || Normalize(a.key) in keys then (keys, values)
      else (keys + [Normalize(a.key)], values + [a.value])
  }

  method TargetInfoLabels(attrs: seq<Attr>) returns (keys: seq<Name>, values: seq<string>)
    ensures (keys, values) == TargetInfo(attrs)
  {
    var seen: set<Name> := {};
    keys, values := [], [];
    for n := 0 to |attrs|
      invariant (keys, values) == TargetInfo(attrs[..n])
      invariant forall l :: l in seen <==> l in keys
    {
      assert attrs[..n + 1][..n] == attrs[..n];
      var a := attrs[n];
      var lab := Normalize(a.key);
      if lab == "" || "__" <= lab || !HasAlnum(a.key) {
        continue;
      }
      if lab in seen {
        continue;
      }
      seen := seen + {lab};
      keys := keys + [lab];
      values := values + [a.value];
    }
    assert attrs[..|attrs|] == attrs;
  }

  /** Labels never repeat, and every valid key's label is there. */
  lemma {:induction false} TargetInfoLabelsAreAllThere(attrs: seq<Attr>)
    ensures var (keys, values) := TargetInfo(attrs);
            && |keys| == |values|
            && (forall i, j :: 0 <= i < j < |keys| ==> keys[i] != keys[j])
            && (forall a :: a in attrs && ValidForTargetInfo(a.key) ==> Normalize(a.key) in keys)
  {
    if attrs != [] {
      TargetInfoLabelsAreAllThere(attrs[..|attrs| - 1]);
      assert forall a :: a in attrs <==> a in attrs[..|attrs| - 1] || a == attrs[|attrs| - 1];
    }
  }

  lemma LaterAttributesKeepTheFirst(attrs: seq<Attr>, l: Name, value: string)
    requires attrs != [] && FirstWith(attrs[..|attrs| - 1], l, value)
    ensures FirstWith(attrs, l, value)
  {
    var before := attrs[..|attrs| - 1];
    var n :| 0 <= n < |before| && IsFirstWith(before, n, l, value);
    assert IsFirstWith(attrs, n, l, value);
  }

  /** Each label has the value of the first valid attribute that renders as it. */
  lemma {:induction false} TargetInfoIsFirstPerLabel(attrs: seq<Attr>, i: nat)
    requires i < |TargetInfo(attrs).0| == |TargetInfo(attrs).1|
    ensures FirstWith(attrs, TargetInfo(attrs).0[i], TargetInfo(attrs).1[i])
  {
    var before, a := attrs[..|attrs| - 1], attrs[|attrs| - 1];
    TargetInfoLabelsAreAllThere(before);
    var (keys, values) := TargetInfo(before);
    if i < |keys| {
      TargetInfoIsFirstPerLabel(before, i);
      LaterAttributesKeepTheFirst(attrs, keys[i], values[i]);
    } else {
      forall m | 0 <= m < |before| && ValidForTargetInfo(attrs[m].key)
        ensures Normalize(attrs[m].key) != Normalize(a.key)
      {
        assert before[m] in before;
      }
      assert IsFirstWith(attrs, |attrs| - 1, Normalize(a.key), a.value);
    }
  }

  ghost predicate IsFirstWith(attrs: seq<Attr>, n: nat, l: Name, value: string) {
    && n < |attrs| && ValidForTargetInfo(attrs[n].key) && Normalize(attrs[n].key) == l && attrs[n].value == value
    && forall m :: 0 <= m < n && ValidForTargetInfo(attrs[m].key) ==> Normalize(attrs[m].key) != l
  }

  ghost predicate FirstWith(attrs: seq<Attr>, l: Name, value: string) {
    exists n :: 0 <= n < |attrs| && IsFirstWith(attrs, n, l, value)
  }

  /** Valid keys with labels apart all get through, one label each. */
  lemma {:induction false} TargetInfoOfApart(attrs: seq<Attr>)
    requires LabelsApart(KeysOf(attrs)) && forall i :: 0 <= i < |attrs| ==> ValidForTargetInfo(attrs[i].key)
    ensures |TargetInfo(attrs).0| == |attrs| == |TargetInfo(attrs).1|
    ensures forall i :: 0 <= i < |attrs| ==>
              TargetInfo(attrs).0[i] == Normalize(attrs[i].key) && TargetInfo(attrs).1[i] == attrs[i].value
  {
    if attrs != [] {
      var last := |attrs| - 1;
      assert KeysOf(attrs[..last]) == KeysOf(attrs)[..last];
      TargetInfoOfApart(attrs[..last]);
      forall i | 0 <= i < last
        ensures Normalize(attrs[i].key) != Normalize(attrs[last].key)
      {
        assert !SameLabel(KeysOf(attrs)[i], KeysOf(attrs)[last]);
      }
    }
  }

  /** On the guarded Resource, in any order, target_info drops nothing: one label per
      attribute, with the attribute's own value. */
  lemma TargetInfoDropsNothing(
      p: Policy, env: seq<Attr>, detected: Attrs, caller: seq<Attr>, identity: Attrs, attrs: seq<Attr>)
    requires PolicyOk(p) && DistinctKeys(env) && Guarded(p, caller) && SetsOwned(p, detected, identity)
    requires DistinctKeys(attrs)
    requires forall i :: 0 <= i < |attrs| ==>
               attrs[i].key in BuildResource(GuardEnv(p, KeysOf(caller), env).kept, detected, caller, identity)
    ensures |TargetInfo(attrs).0| == |attrs| == |TargetInfo(attrs).1|
    ensures forall i :: 0 <= i < |attrs| ==>
              TargetInfo(attrs).0[i] == Normalize(attrs[i].key) && TargetInfo(attrs).1[i] == attrs[i].value
  {
    forall i | 0 <= i < |attrs|
      ensures ValidForTargetInfo(attrs[i].key)
    {
      FinalLabelsAreApart(p, env, detected, caller, identity, attrs[i].key, attrs[i].key);
    }
    forall i, j | 0 <= i < j < |attrs|
      ensures !SameLabel(KeysOf(attrs)[i], KeysOf(attrs)[j])
    {
      FinalLabelsAreApart(p, env, detected, caller, identity, attrs[i].key, attrs[j].key);
    }
    TargetInfoOfApart(attrs);
  }

  // ---- The provider's Resource

  function Neutralized(dropped: seq<Name>): Attrs {
    map k | k in dropped :: ""
  }

  /** What a trace or log provider ends up with: it merges the raw environment underneath. */
  function ProviderResource(env: seq<Attr>, res: Attrs, dropped: seq<Name>): Attrs {
    ToMap(env) + (res + Neutralized(dropped))
  }

  /** Neutralising overrides nothing the guarded Resource sets, and nothing of the raw
      environment comes back: a key the guard dropped carries the empty value. */
  lemma DroppedKeysStayNeutral(p: Policy, env: seq<Attr>, detected: Attrs, caller: seq<Attr>, identity: Attrs)
    requires PolicyOk(p) && DistinctKeys(env) && Guarded(p, caller) && SetsOwned(p, detected, identity)
    ensures var v := GuardEnv(p, KeysOf(caller), env);
            var res := BuildResource(v.kept, detected, caller, identity);
            var out := ProviderResource(env, res, v.dropped);
            && (forall k :: k in res ==> k !in v.dropped && k in out && out[k] == res[k])
            && (forall k :: k in v.dropped ==> k in out && out[k] == "")
            && (forall k :: k in out ==> k in res || k in v.dropped)
  {
    var v := GuardEnv(p, KeysOf(caller), env);
    var res := BuildResource(v.kept, detected, caller, identity);
    KeptEnv(p, KeysOf(caller), env);
    ToMapKeys(env);
    ToMapKeys(v.kept);
    ToMapKeys(caller);
    KeysAreApart(KeysOf(caller));
    forall k | k in v.dropped
      ensures k !in res
    {
      DroppedIsNotInResource(p, KeysOf(caller), env, k);
    }
  }

  /** A dropped key is no SDK-owned key; and if acceptable it has an alias among the
      caller's keys or those kept. */
  lemma {:induction false} DroppedIsNotInResource(p: Policy, caller: seq<Name>, env: seq<Attr>, k: Name)
    requires PolicyOk(p) && DistinctKeys(env) && k in GuardEnv(p, caller, env).dropped
    ensures k !in OwnedKeys(p)
    ensures Acceptable(p, k) ==>
              || (exists c :: c in caller && c != k && SameLabel(c, k))
              || (k !in caller)
  {
    var before, a := env[..|env| - 1], env[|env| - 1];
    KeptEnv(p, caller, before);
    if k in GuardEnv(p, caller, before).dropped {
      DroppedIsNotInResource(p, caller, before, k);
    } else {
      var kept := GuardEnv(p, caller, before).kept;
      assert k == a.key && !Keeps(p, caller, kept, k);
      FirstAliasFinds(OwnedKeys(p), k);
      if k in OwnedKeys(p) {
        SimpleKeysHaveOwnLabels(k, Owner(p, k).value);
      }
      if Acceptable(p, k) && k in caller && forall c :: c in caller && c != k ==> !SameLabel(c, k) {
        var o :| o in KeysOf(kept) && SameLabel(o, k);
        FirstAliasFinds(OwnedKeys(p), o);
      }
    }
  }

  // ---- The SDK's own policy

  const IDENTITY_KEYS: seq<Name> :=
    ["service.name", "service.version", "service.namespace", "deployment.environment.name"]
  const DETECTED_KEYS: seq<Name> :=
    ["telemetry.sdk.name", "telemetry.sdk.language", "telemetry.sdk.version", "process.pid",
     "process.executable.name", "process.runtime.name", "process.runtime.version", "host.name"]

  lemma SdkKeysAreSimple()
    ensures forall k :: k in IDENTITY_KEYS || k in DETECTED_KEYS ==> Simple(k)
  {
    IdentityKeysAreSimple();
    TelemetryKeysAreSimple();
    ProcessKeysAreSimple();
  }

  lemma IdentityKeysAreSimple()
    ensures Simple("service.name") && Simple("service.version")
    ensures Simple("service.namespace") && Simple("deployment.environment.name")
  {
  }

  lemma TelemetryKeysAreSimple()
    ensures Simple("telemetry.sdk.name") && Simple("telemetry.sdk.language") && Simple("telemetry.sdk.version")
  {
  }

  lemma ProcessKeysAreSimple()
    ensures Simple("process.pid") && Simple("process.executable.name") && Simple("process.runtime.name")
    ensures Simple("process.runtime.version") && Simple("host.name")
  {
  }

  /** The SDK's own keys and labels satisfy what the guards need of them. */
  lemma SdkPolicyIsOk()
    ensures var p := Policy(IDENTITY_KEYS, DETECTED_KEYS, OwnedLabels(CONSTANT_LABEL_KEYS, EXPOSED_FORMAT_LABELS));
            PolicyOk(p) && AllPlain(p.ownedLabels)
  {
    SdkKeysAreSimple();
    TablesArePlain();
    OwnedLabelsArePlain(CONSTANT_LABEL_KEYS, EXPOSED_FORMAT_LABELS);
  }
}
