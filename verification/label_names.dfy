/** Prometheus label normalisation and the reserved-key test (internal/metrics/reserved.go). */
module LabelNames {

  /** A key or label, one character per rune. */
  type Name = string

  predicate IsAlnum(c: char) {
    'a' <= c <= 'z' || 'A' <= c <= 'Z' || '0' <= c <= '9'
  }

  predicate IsDigit(c: char) {
    '0' <= c <= '9'
  }

  predicate HasAlnum(k: Name) {
    exists i :: 0 <= i < |k| && IsAlnum(k[i])
  }

  /** The "__x__" shape the translator keeps as a reserved name. */
  predicate IsReservedShape(k: Name) {
    |k| >= 4 && k[0] == '_' && k[1] == '_' && k[|k| - 1] == '_' && k[|k| - 2] == '_'
  }

  /** Every rune that is not alphanumeric becomes an underscore, and runs of them one.
      `under` tells whether what came before ended in an underscore. */
  function Squash(k: Name, under: bool): Name {
    if k == [] then ""
    else if IsAlnum(k[0]) then [k[0]] + Squash(k[1..], false)
    else if under then Squash(k[1..], true)
    else "_" + Squash(k[1..], true)
  }

  function Normalize(k: Name): Name
    decreases |k|
  {
    if k == "" then ""
    else if IsReservedShape(k) then "__" + Normalize(k[2..|k| - 2]) + "__"
    else
      var out := Squash(k, false);
      if out != "" && IsDigit(out[0]) then "key_" + out else out
  }

  // ---- What the normaliser's result looks like

  /** Only alphanumerics and underscores, and no two underscores in a row. */
  predicate Squashed(s: Name) {
    && (forall i :: 0 <= i < |s| ==> IsAlnum(s[i]) || s[i] == '_')
    && (forall i :: 0 < i < |s| ==> !(s[i - 1] == '_' && s[i] == '_'))
  }

  lemma {:induction false} SquashIsSquashed(k: Name, under: bool)
    ensures Squashed(Squash(k, under))
    ensures under && Squash(k, under) != "" ==> IsAlnum(Squash(k, under)[0])
    ensures !under && k != "" ==> Squash(k, under) != "" && Squash(k, under)[0] == (if IsAlnum(k[0]) then k[0] else '_')
  {
    if k != [] {
      SquashIsSquashed(k[1..], !IsAlnum(k[0]));
    }
  }

  /** What is already squashed goes through unchanged. */
  lemma {:induction false} SquashIsIdentityOnSquashed(s: Name, under: bool)
    requires Squashed(s) && (under && s != "" ==> s[0] != '_')
    ensures Squash(s, under) == s
  {
    if s != [] {
      assert forall i :: 0 < i < |s[1..]| ==> s[1..][i - 1] == s[i] && s[1..][i] == s[i + 1];
      SquashIsIdentityOnSquashed(s[1..], !IsAlnum(s[0]));
    }
  }

  /** The alphanumerics, in order. */
  function Letters(k: Name): Name {
    if k == [] then "" else (if IsAlnum(k[0]) then [k[0]] else "") + Letters(k[1..])
  }

  lemma {:induction false} SquashKeepsLetters(k: Name, under: bool)
    ensures Letters(Squash(k, under)) == Letters(k)
  {
    if k != [] {
      SquashKeepsLetters(k[1..], !IsAlnum(k[0]));
      var rest := Squash(k[1..], !IsAlnum(k[0]));
      assert ([k[0]] + rest)[1..] == rest && ("_" + rest)[1..] == rest;
    }
  }

  /** An unreserved key normalises to a valid label: squashed, not starting with a digit,
      and with the key's alphanumerics in order (after key_ for a leading digit). */
  lemma NormalizedIsALabel(k: Name)
    requires k != "" && !IsReservedShape(k)
    ensures Squashed(Normalize(k)) && Normalize(k) != "" && !IsDigit(Normalize(k)[0])
    ensures Letters(Normalize(k)) == (if IsDigit(k[0]) then "key" else "") + Letters(k)
  {
    SquashIsSquashed(k, false);
    SquashKeepsLetters(k, false);
    var out := Squash(k, false);
    if IsDigit(out[0]) {
      var n := "key_" + out;
      assert forall i :: 4 <= i < |n| ==> n[i] == out[i - 4];
      LettersOfConcat("key_", out);
      LettersOfKeyPrefix();
    }
  }

  lemma LettersOfMore(k: Name, first: Name, rest: Name)
    requires k != [] && rest == k[1..] && first == if IsAlnum(k[0]) then [k[0]] else ""
    ensures Letters(k) == first + Letters(rest)
  {
  }

  lemma Associates(p: Name, q: Name, r: Name)
    ensures p + (q + r) == p + q + r
  {
  }

  lemma {:induction false} LettersOfConcat(a: Name, b: Name)
    ensures Letters(a + b) == Letters(a) + Letters(b)
  {
    if a == [] {
      assert a + b == b;
    } else {
      var first, rest := if IsAlnum(a[0]) then [a[0]] else "", a[1..];
      LettersOfConcat(rest, b);
      assert (a + b)[0] == a[0] && (a + b)[1..] == rest + b;
      LettersOfMore(a, first, rest);
      LettersOfMore(a + b, first, rest + b);
      Associates(first, Letters(rest), Letters(b));
    }
  }

  lemma LettersOfKeyPrefix()
    ensures Letters("key_") == "key"
  {
    var p := "key_";
    assert p[1..] == "ey_" && p[1..][1..] == "y_" && p[1..][1..][1..] == "_";
  }

  /** A key between double underscores keeps them, and what is inside becomes a label by itself. */
  lemma ReservedKeepsItsFrame(x: Name)
    ensures Normalize("__" + x + "__") == "__" + Normalize(x) + "__"
  {
    var k := "__" + x + "__";
    assert IsReservedShape(k) && k[2..|k| - 2] == x;
  }

  lemma UnreservedIsIdempotent(k: Name)
    requires k != "" && !IsReservedShape(k)
    ensures Normalize(Normalize(k)) == Normalize(k)
  {
    NormalizedIsALabel(k);
    var n := Normalize(k);
    assert !IsReservedShape(n) by {
      if |n| >= 2 {
        assert !(n[1 - 1] == '_' && n[1] == '_');
      }
    }
    SquashIsIdentityOnSquashed(n, false);
  }

  /** Normalising again changes nothing, whatever the key, reserved ones nested in one another included. */
  lemma {:induction false} NormalizeIsIdempotent(k: Name)
    ensures Normalize(Normalize(k)) == Normalize(k)
    decreases |k|
  {
    if IsReservedShape(k) {
      var x := k[2..|k| - 2];
      assert k == "__" + x + "__";
      ReservedKeepsItsFrame(x);
      NormalizeIsIdempotent(x);
      ReservedKeepsItsFrame(Normalize(x));
    } else if k != "" {
      UnreservedIsIdempotent(k);
    }
  }

  /** Which keys are their own labels: of those not reserved, exactly the ones of letters, digits and
      single underscores that start with no digit. */
  lemma OwnLabelExactly(k: Name)
    requires k != "" && !(|k| >= 4 && k[..2] == "__" == k[|k| - 2..])
    ensures Normalize(k) == k <==>
              && (forall i :: 0 <= i < |k| ==>
                    'a' <= k[i] <= 'z' || 'A' <= k[i] <= 'Z' || '0' <= k[i] <= '9' || k[i] == '_')
              && (forall i :: 0 < i < |k| ==> !(k[i - 1] == '_' && k[i] == '_'))
              && !('0' <= k[0] <= '9')
  {
    assert |k| >= 4 ==> (k[..2] == "__" <==> k[0] == '_' && k[1] == '_');
    assert |k| >= 4 ==> (k[|k| - 2..] == "__" <==> k[|k| - 2] == '_' && k[|k| - 1] == '_');
    SquashIsSquashed(k, false);
    if Squashed(k) {
      SquashIsIdentityOnSquashed(k, false);
    }
    if Normalize(k) == k {
      NormalizedIsALabel(k);
    }
  }

  /** What one more character adds, after text that ends in an underscore or not. */
  function Adds(under: bool, c: char): Name {
    if IsAlnum(c) then [c] else if under then "" else "_"
  }

  lemma {:induction false} SquashOneMore(k: Name, under: bool, c: char)
    ensures Squash(k + [c], under) == Squash(k, under) + Adds(if k == "" then under else !IsAlnum(k[|k| - 1]), c)
    ensures k != "" && Squash(k, under) != "" ==> (!IsAlnum(k[|k| - 1]) <==> Squash(k, under)[|Squash(k, under)| - 1] == '_')
    ensures k != "" && Squash(k, under) == "" ==> under && !IsAlnum(k[|k| - 1])
  {
    if k != "" {
      assert (k + [c])[1..] == k[1..] + [c];
      SquashOneMore(k[1..], !IsAlnum(k[0]), c);
    } else {
      assert (k + [c])[1..] == "";
    }
  }

  /** The label, character by character: a letter or digit is taken over, anything else adds an
      underscore unless one stands there already. */
  lemma NormalizeOneMore(k: Name, c: char)
    requires k != "" && !IsReservedShape(k) && !IsReservedShape(k + [c])
    ensures var n := Normalize(k);
            && n != ""
            && Normalize(k + [c])
            == if 'a' <= c <= 'z' || 'A' <= c <= 'Z' || '0' <= c <= '9' then n + [c]
               else if n[|n| - 1] == '_' then n else n + "_"
  {
    SquashOneMore(k, false, c);
    SquashIsSquashed(k, false);
    var out := Squash(k, false);
    assert (out + [c])[0] == out[0] && (out + "_")[0] == out[0];
    Associates("key_", out, [c]);
    Associates("key_", out, "_");
    assert out + "" == out;
  }

  lemma NormalizeOfOne(c: char)
    ensures Normalize([c])
         == if '0' <= c <= '9' then "key_" + [c] else if 'a' <= c <= 'z' || 'A' <= c <= 'Z' then [c] else "_"
  {
    assert [c][1..] == "";
    assert Squash([c], false) == Adds(false, c);
  }

  /** One turn of the loop, on what is still to be squashed. */
  lemma SquashTurn(whole: Name, out: Name, key: Name, i: nat, under: bool)
    requires i < |key| && whole == out + Squash(key[i..], under)
    ensures whole == (if IsAlnum(key[i]) then out + [key[i]] else if under then out else out + "_")
                     + Squash(key[i + 1..], !IsAlnum(key[i]))
  {
    assert key[i..][1..] == key[i + 1..];
  }

  /** The loop with its builder. */
  method NormalizeLabelName(key: Name) returns (out: Name)
    ensures out == Normalize(key)
    decreases |key|
  {
    if key == "" {
      return "";
    }
    if IsReservedShape(key) {
      var inner := NormalizeLabelName(key[2..|key| - 2]);
      return "__" + inner + "__";
    }
    out := "";
    var prevUnderscore := false;
    ghost var whole := Squash(key, false);
    assert key[0..] == key;
    for i := 0 to |key|
      invariant whole == out + Squash(key[i..], prevUnderscore)
    {
      var r := key[i];
      SquashTurn(whole, out, key, i, prevUnderscore);
      if IsAlnum(r) {
        out := out + [r];
        prevUnderscore := false;
      } else if !prevUnderscore {
        out := out + "_";
        prevUnderscore := true;
      }
    }
    assert key[|key|..] == [];
    if out != "" && IsDigit(out[0]) {
      out := "key_" + out;
    }
  }

  // ---- The streaming comparison

  function CommonPrefix(a: Name, b: Name): nat {
    if a == [] || b == [] || a[0] != b[0] then 0 else 1 + CommonPrefix(a[1..], b[1..])
  }

  lemma {:induction false} CommonPrefixIsLongest(a: Name, b: Name)
    ensures var n := CommonPrefix(a, b);
            && n <= |a| && n <= |b| && a[..n] == b[..n]
            && (n < |a| && n < |b| ==> a[n] != b[n])
  {
    if a != [] && b != [] && a[0] == b[0] {
      CommonPrefixIsLongest(a[1..], b[1..]);
      var n := CommonPrefix(a[1..], b[1..]);
      assert a[..n + 1] == [a[0]] + a[1..][..n] && b[..n + 1] == [b[0]] + b[1..][..n];
    }
  }

  /** Walks key and compares the squashed form byte by byte with want, without building it. */
  method NormalizedMatchLen(key: Name, want: Name) returns (matched: nat, complete: bool)
    ensures matched == CommonPrefix(Squash(key, false), want)
    ensures complete <==> Squash(key, false) <= want
  {
    ghost var whole := Squash(key, false);
    CommonPrefixIsLongest(whole, want);
    var i := 0;
    var prevUnderscore := false;
    for p := 0 to |key|
      invariant i <= |whole| && i <= |want| && whole[..i] == want[..i]
      invariant whole[i..] == Squash(key[p..], prevUnderscore)
    {
      var r := key[p];
      assert key[p..][1..] == key[p + 1..];
      var out := r;
      var emit := true;
      if IsAlnum(r) {
        prevUnderscore := false;
      } else if prevUnderscore {
        emit := false;
      } else {
        out := '_';
        prevUnderscore := true;
      }
      if emit {
        assert whole[i] == out && whole[i + 1..] == whole[i..][1..];
        if i >= |want| || want[i] != out {
          MatchStopsAt(whole, want, i);
          return i, false;
        }
        i := i + 1;
      }
    }
    assert key[|key|..] == [];
    assert whole[..i] == whole;
    MatchRunsOut(whole, want);
    return i, true;
  }

  lemma {:induction false} MatchStopsAt(a: Name, b: Name, i: nat)
    requires i < |a| && i <= |b| && a[..i] == b[..i] && (i < |b| ==> b[i] != a[i])
    ensures CommonPrefix(a, b) == i && !(a <= b)
  {
    if i > 0 {
      assert a[..i][0] == b[..i][0];
      assert a[1..][..i - 1] == a[..i][1..] && b[1..][..i - 1] == b[..i][1..];
      MatchStopsAt(a[1..], b[1..], i - 1);
    }
  }

  lemma {:induction false} MatchRunsOut(a: Name, b: Name)
    requires a <= b
    ensures CommonPrefix(a, b) == |a|
  {
    if a != [] {
      assert a[0] == b[0];
      MatchRunsOut(a[1..], b[1..]);
    }
  }

  method NormalizedEquals(key: Name, want: Name) returns (r: bool)
    ensures r <==> Squash(key, false) == want
  {
    var n, complete := NormalizedMatchLen(key, want);
    CommonPrefixIsLongest(Squash(key, false), want);
    if Squash(key, false) <= want {
      MatchRunsOut(Squash(key, false), want);
    }
    return complete && n == |want|;
  }

  method NormalizedHasPrefix(key: Name, prefix: Name) returns (r: bool)
    ensures r <==> prefix <= Squash(key, false)
  {
    var n, complete := NormalizedMatchLen(key, prefix);
    CommonPrefixIsLongest(Squash(key, false), prefix);
    if prefix <= Squash(key, false) {
      PrefixMatchesFully(Squash(key, false), prefix);
    }
    return n == |prefix|;
  }

  lemma {:induction false} PrefixMatchesFully(a: Name, b: Name)
    requires b <= a
    ensures CommonPrefix(a, b) == |b|
  {
    if b != [] {
      assert a[0] == b[0];
      PrefixMatchesFully(a[1..], b[1..]);
    }
  }

  // ---- When the streaming comparison stands in for the normaliser

  /** A target the comparison may be used on. */
  predicate Streamable(want: Name) {
    want != "" && !IsDigit(want[0]) && !("key_" <= want && |want| > 4 && IsDigit(want[4]))
  }

  ghost predicate StreamingAgrees(want: Name) {
    forall k :: k != "" && !IsReservedShape(k) ==> (Normalize(k) == want <==> Squash(k, false) == want)
  }

  /** For a squashed target the two comparisons agree on every key exactly when the target
      starts with neither a digit nor key_ and a digit. */
  lemma StreamingAgreesExactly(want: Name)
    requires want != "" && Squashed(want)
    ensures StreamingAgrees(want) <==> Streamable(want)
  {
    forall k | k != "" && !IsReservedShape(k) && Streamable(want)
      ensures Normalize(k) == want <==> Squash(k, false) == want
    {
      StreamingAgreesOn(k, want);
    }
    assert !IsReservedShape(want) by {
      if |want| >= 2 {
        assert !(want[1 - 1] == '_' && want[1] == '_');
      }
    }
    if IsDigit(want[0]) {
      SquashIsIdentityOnSquashed(want, false);
      assert Normalize(want) == "key_" + want;
    } else if !Streamable(want) {
      var k := want[4..];
      forall i | 0 < i < |k|
        ensures !(k[i - 1] == '_' && k[i] == '_')
      {
        assert k[i - 1] == want[i + 3] && k[i] == want[i + 4];
      }
      SquashIsIdentityOnSquashed(k, false);
      assert !IsReservedShape(k);
      assert want == "key_" + k && Normalize(k) == want;
    }
  }

  lemma StreamingAgreesOn(k: Name, want: Name)
    requires k != "" && !IsReservedShape(k) && Streamable(want)
    ensures Normalize(k) == want <==> Squash(k, false) == want
  {
    var out := Squash(k, false);
    if out != "" && IsDigit(out[0]) {
      assert ("key_" + out)[4] == out[0];
    }
  }

  /** The same for prefixes, when the prefix does not start like key_. */
  lemma StreamingPrefixAgreesOn(k: Name, prefix: Name)
    requires k != "" && !IsReservedShape(k) && prefix != "" && !IsDigit(prefix[0]) && prefix[0] != 'k'
    ensures prefix <= Normalize(k) <==> prefix <= Squash(k, false)
  {
    var out := Squash(k, false);
    if out != "" && IsDigit(out[0]) {
      assert ("key_" + out)[0] == 'k';
    }
  }

  // ---- The reserved labels

  const SCOPE_PREFIX := "otel_scope_"
  const CONSTANT_LABEL_KEYS: seq<Name> :=
    ["service.namespace", "service.name", "service.version", "deployment.environment.name"]
  const EXPOSED_FORMAT_LABELS: seq<Name> := ["le", "quantile"]

  /** The labels the exporter or the exposition format owns: the constant labels in their
      normalised form, and the ones the format synthesises. */
  function OwnedLabels(keys: seq<Name>, labels: seq<Name>): seq<Name> {
    seq(|keys|, i requires 0 <= i < |keys| => Normalize(keys[i])) + labels
  }

  /** Starts with a letter other than k, so its first rune survives normalisation and
      cannot come from a key_ prefix. */
  predicate StartsPlainly(l: Name) {
    l != "" && 'a' <= l[0] <= 'z' && l[0] != 'k'
  }

  lemma PlainKeysRenderPlainly(k: Name)
    requires StartsPlainly(k)
    ensures StartsPlainly(Normalize(k))
  {
    SquashIsSquashed(k, false);
  }

  predicate AllPlain(labels: seq<Name>) {
    forall i :: 0 <= i < |labels| ==> StartsPlainly(labels[i])
  }

  lemma OwnedLabelsArePlain(keys: seq<Name>, labels: seq<Name>)
    requires AllPlain(keys) && AllPlain(labels)
    ensures AllPlain(OwnedLabels(keys, labels))
  {
    forall j | 0 <= j < |OwnedLabels(keys, labels)|
      ensures StartsPlainly(OwnedLabels(keys, labels)[j])
    {
      if j < |keys| {
        PlainKeysRenderPlainly(keys[j]);
      } else {
        assert OwnedLabels(keys, labels)[j] == labels[j - |keys|];
      }
    }
  }

  lemma TablesArePlain()
    ensures AllPlain(CONSTANT_LABEL_KEYS) && AllPlain(EXPOSED_FORMAT_LABELS)
  {
  }

  lemma PlainStartIsStreamable(l: Name)
    requires StartsPlainly(l)
    ensures Streamable(l)
  {
  }

  type Groups = map<char, seq<Name>>

  function GroupFor(groups: Groups, c: char): seq<Name> {
    if c in groups then groups[c] else []
  }

  ghost predicate Grouped(groups: Groups, labels: seq<Name>, c: char, l: Name) {
    l in GroupFor(groups, c) <==> l in labels && l != "" && l[0] == c
  }

  ghost predicate GroupsAre(groups: Groups, labels: seq<Name>) {
    forall c, l :: Grouped(groups, labels, c, l)
  }

  /** Grouping by first byte, as the table is built at start-up. */
  method GroupByFirst(labels: seq<Name>) returns (groups: Groups)
    ensures GroupsAre(groups, labels)
  {
    groups := map[];
    for n := 0 to |labels|
      invariant GroupsAre(groups, labels[..n])
    {
      var l := labels[n];
      assert labels[..n + 1] == labels[..n] + [l];
      ghost var before, upTo := groups, labels[..n + 1];
      if l != "" {
        groups := groups[l[0] := GroupFor(groups, l[0]) + [l]];
      }
      forall c: char, x: Name
        ensures Grouped(groups, upTo, c, x)
      {
        assert Grouped(before, labels[..n], c, x);
      }
    }
    assert labels[..|labels|] == labels;
  }

  /** A key no exported series may carry: empty, untranslatable, or rendering as a label
      the exporter or the exposition format owns. */
  ghost predicate Reserved(k: Name, owned: seq<Name>) {
    k == "" || IsReservedShape(k) || !HasAlnum(k) || SCOPE_PREFIX <= Normalize(k) || Normalize(k) in owned
  }

  /** The allocation-free test, with its first-byte dispatch. */
  method IsReservedAttributeKey(ghost owned: seq<Name>, groups: Groups, k: Name) returns (r: bool)
    requires AllPlain(owned) && GroupsAre(groups, owned)
    ensures r <==> Reserved(k, owned)
  {
    if k == "" {
      return true;
    }
    if IsReservedShape(k) || !HasAlnum(k) {
      return true;
    }
    ScopedKeysStartLikeThePrefix(k);
    if k[0] == SCOPE_PREFIX[0] {
      var scoped := NormalizedHasPrefix(k, SCOPE_PREFIX);
      if scoped {
        return true;
      }
    }
    var candidates := GroupFor(groups, k[0]);
    DispatchLosesNothing(owned, groups, k);
    for n := 0 to |candidates|
      invariant forall i :: 0 <= i < n ==> Squash(k, false) != candidates[i]
    {
      var equal := NormalizedEquals(k, candidates[n]);
      if equal {
        assert candidates[n] in candidates;
        return true;
      }
    }
    return false;
  }

  lemma ScopedKeysStartLikeThePrefix(k: Name)
    requires k != "" && !IsReservedShape(k)
    ensures SCOPE_PREFIX <= Normalize(k) <==> SCOPE_PREFIX <= Squash(k, false)
    ensures SCOPE_PREFIX <= Normalize(k) ==> k[0] == SCOPE_PREFIX[0]
  {
    SquashIsSquashed(k, false);
    StreamingPrefixAgreesOn(k, SCOPE_PREFIX);
  }

  /** Looking only at the key's own first rune finds every reserved label it renders as. */
  lemma DispatchLosesNothing(owned: seq<Name>, groups: Groups, k: Name)
    requires AllPlain(owned) && GroupsAre(groups, owned) && k != "" && !IsReservedShape(k)
    ensures Normalize(k) in owned <==> Squash(k, false) in GroupFor(groups, k[0])
  {
    var out := Squash(k, false);
    SquashIsSquashed(k, false);
    assert Grouped(groups, owned, k[0], out);
    if Normalize(k) in owned {
      PlainStartIsStreamable(Normalize(k));
      StreamingAgreesOn(k, Normalize(k));
    } else if out in owned {
      PlainStartIsStreamable(out);
      StreamingAgreesOn(k, out);
    }
  }

  /** The package's own table: built once, then asked about any key. */
  method IsReservedByThePackage(k: Name) returns (r: bool)
    ensures r <==> Reserved(k, OwnedLabels(CONSTANT_LABEL_KEYS, EXPOSED_FORMAT_LABELS))
  {
    TablesArePlain();
    r := IsReservedIn(CONSTANT_LABEL_KEYS, EXPOSED_FORMAT_LABELS, k);
  }

  method IsReservedIn(keys: seq<Name>, labels: seq<Name>, k: Name) returns (r: bool)
    requires AllPlain(keys) && AllPlain(labels)
    ensures r <==> Reserved(k, OwnedLabels(keys, labels))
  {
    OwnedLabelsArePlain(keys, labels);
    var groups := GroupByFirst(OwnedLabels(keys, labels));
    r := IsReservedAttributeKey(OwnedLabels(keys, labels), groups, k);
  }
}
