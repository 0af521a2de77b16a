/** What a CQL statement and a batch address (cassandra/attributes.go, cassandra/batch.go). */
module CqlTargets {
  import opened Wrappers
  import opened CqlText

  function UpperChar(c: char): char {
    if 'a' <= c <= 'z' then c - 'a' + 'A' else c
  }

  function Upper(s: string): string {
    seq(|s|, i requires 0 <= i < |s| => UpperChar(s[i]))
  }

  /** A keyspace qualifier and a bare table name; either may be empty. */
  datatype Target = Target(keyspace: string, table: string)

  const NO_TARGET := Target("", "")

  // ---- Identifiers

  function Count(s: string, c: char): nat {
    if s == "" then 0 else (if s[0] == c then 1 else 0) + Count(s[1..], c)
  }

  /** strings.ReplaceAll of a doubled quote by a single one. */
  function Undouble(s: string, q: char): (r: string)
    ensures forall c :: c in r ==> c in s
  {
    if |s| < 2 then s
    else if s[0] == q && s[1] == q then [q] + Undouble(s[2..], q)
    else [s[0]] + Undouble(s[1..], q)
  }

  predicate WrappedIn(token: string, q: char) {
    |token| >= 2 && token[0] == q && token[|token| - 1] == q
  }

  /** The bare identifier in a token, or nothing when a quote in it is unbalanced. */
  function UnquoteIdentifier(token: string): string {
    if Count(token, '\"') % 2 != 0 || Count(token, '`') % 2 != 0 then ""
    else if WrappedIn(token, '\"') then Undouble(token[1..|token| - 1], '\"')
    else if WrappedIn(token, '`') then Undouble(token[1..|token| - 1], '`')
    else token
  }

  /** Up to the first character that cannot be part of an identifier. */
  function BeforeClause(token: string): (r: string)
    ensures r <= token
  {
    if token == "" || token[0] == '(' || token[0] == ';' || token[0] == ',' then ""
    else [token[0]] + BeforeClause(token[1..])
  }

  /** The index of the last dot. */
  function LastDot(s: string): (r: Option<nat>)
    ensures r.Some? ==> r.value < |s| && s[r.value] == '.' && '.' !in s[r.value + 1..]
    ensures r.None? ==> '.' !in s
  {
    if s == "" then None
    else if s[|s| - 1] == '.' then Some(|s| - 1)
    else
      var r := LastDot(s[..|s| - 1]);
      assert s == s[..|s| - 1] + [s[|s| - 1]];
      assert r.Some? ==> s[r.value + 1..] == s[..|s| - 1][r.value + 1..] + [s[|s| - 1]];
      r
  }

  function NormalizeTable(token: string): Target {
    var t := BeforeClause(token);
    match LastDot(t)
    case Some(i) => Target(UnquoteIdentifier(t[..i]), UnquoteIdentifier(t[i + 1..]))
    case None => Target("", UnquoteIdentifier(t))
  }

  // ---- Statements

  function AfterKeyword(fields: seq<string>, keyword: string, i: nat): Target
    decreases |fields| - i
  {
    if i + 1 >= |fields| then NO_TARGET
    else if Upper(fields[i]) == keyword then NormalizeTable(fields[i + 1])
    else AfterKeyword(fields, keyword, i + 1)
  }

  function ObjectToken(fields: seq<string>, start: nat): Target
    decreases |fields| - start
  {
    if start >= |fields| then NO_TARGET
    else
      var w := Upper(fields[start]);
      if w == "IF" || w == "NOT" || w == "EXISTS" then ObjectToken(fields, start + 1)
      else NormalizeTable(fields[start])
  }

  function DdlTarget(fields: seq<string>): Target {
    if |fields| < 3 then NO_TARGET
    else
      var kind := Upper(fields[1]);
      if kind == "TABLE" || kind == "COLUMNFAMILY" then ObjectToken(fields, 2)
      else if kind == "KEYSPACE" || kind == "SCHEMA" then Target(ObjectToken(fields, 2).table, "")
      else NO_TARGET
  }

  function TableFields(fields: seq<string>): Target {
    if |fields| < 2 then NO_TARGET
    else
      var verb := Upper(fields[0]);
      if verb == "SELECT" || verb == "DELETE" then AfterKeyword(fields, "FROM", 1)
      else if verb == "INSERT" then AfterKeyword(fields, "INTO", 1)
      else if verb == "UPDATE" then NormalizeTable(fields[1])
      else if verb == "TRUNCATE" then
        if Upper(fields[1]) == "TABLE" then ObjectToken(fields, 2) else ObjectToken(fields, 1)
      else if verb == "CREATE" || verb == "DROP" || verb == "ALTER" then DdlTarget(fields)
      else NO_TARGET
  }

  datatype Parsed = Parsed(operation: string, target: Target)

  function ParseStatement(stmt: string): Parsed {
    var fields := Fields(Strip(stmt));
    if fields == [] then Parsed("", NO_TARGET) else Parsed(Upper(fields[0]), TableFields(fields))
  }

  /** A block comment at the start, or after whitespace outside quotes and comments, never
      changes the operation, keyspace or table. */
  lemma CommentsDoNotChangeTheParse(a: string, body: string, b: string)
    requires a == "" || (EndsInSpace(a) && EndsOutside(a))
    requires IsCommentBody(body)
    ensures ParseStatement(a + ("/*" + body + "*/" + b)) == ParseStatement(a + b)
  {
    CommentsDoNotChangeTokens(a, body, b);
  }

  /** Stripping first makes no difference. */
  lemma ParsingIgnoresStripping(stmt: string)
    ensures ParseStatement(Strip(stmt)) == ParseStatement(stmt)
  {
    StripIsIdempotent(stmt);
  }

  // ---- Quoting round trip

  /** The name with every q doubled. */
  function Double(s: string, q: char): string {
    if s == "" then "" else (if s[0] == q then [q, q] else [s[0]]) + Double(s[1..], q)
  }

  /** A name between two q, with every q in it doubled. */
  function QuotedBy(name: string, q: char): string {
    [q] + Double(name, q) + [q]
  }

  function Quoted(name: string): string {
    QuotedBy(name, '\"')
  }

  lemma {:induction false} UndoubleDouble(s: string, q: char)
    ensures Undouble(Double(s, q), q) == s
  {
    if s != "" {
      var rest := Double(s[1..], q);
      UndoubleDouble(s[1..], q);
      if s[0] == q {
        assert ([q, q] + rest)[2..] == rest;
      } else {
        assert ([s[0]] + rest)[1..] == rest;
      }
    }
  }

  lemma {:induction false} CountOfConcat(a: string, b: string, c: char)
    ensures Count(a + b, c) == Count(a, c) + Count(b, c)
  {
    if a == "" {
      assert a + b == b;
    } else {
      assert (a + b)[1..] == a[1..] + b;
      CountOfConcat(a[1..], b, c);
    }
  }

  lemma {:induction false} CountOfDouble(s: string, q: char, c: char)
    ensures Count(Double(s, q), c) == if c == q then 2 * Count(s, c) else Count(s, c)
  {
    if s != "" {
      var rest := Double(s[1..], q);
      CountOfDouble(s[1..], q, c);
      if s[0] == q {
        assert ([q, q] + rest)[1..] == [q] + rest && ([q] + rest)[1..] == rest;
      } else {
        assert ([s[0]] + rest)[1..] == rest;
      }
    }
  }

  lemma CountOfQuotedBy(name: string, q: char, c: char)
    ensures Count(QuotedBy(name, q), c) == if c == q then 2 + 2 * Count(name, q) else Count(name, c)
  {
    var d, quote := Double(name, q), [q];
    CountOfDouble(name, q, c);
    CountOfConcat(quote + d, quote, c);
    CountOfConcat(quote, d, c);
    assert quote[1..] == "";
  }

  /** A name quoted the CQL way is read back exactly when its backticks are paired; with an
      odd number of them the code takes the token for a cut-off one and reports nothing. */
  lemma QuotedNameRoundTrips(name: string)
    ensures UnquoteIdentifier(Quoted(name)) == if Count(name, '`') % 2 == 0 then name else ""
    ensures UnquoteIdentifier(Quoted(name)) == name <==> Count(name, '`') % 2 == 0
  {
    var token, d := Quoted(name), Double(name, '\"');
    CountOfQuotedBy(name, '\"', '\"');
    CountOfQuotedBy(name, '\"', '`');
    UndoubleDouble(name, '\"');
    assert token[1..|token| - 1] == d && WrappedIn(token, '\"');
    UnquoteByParity(token, d, Count(name, '\"'), Count(name, '`'));
    OddCountIsNonempty(name, '`');
  }

  /** A name between backticks is read back exactly when its double quotes are paired. */
  lemma TickedNameRoundTrips(name: string)
    ensures UnquoteIdentifier(QuotedBy(name, '`')) == if Count(name, '\"') % 2 == 0 then name else ""
    ensures UnquoteIdentifier(QuotedBy(name, '`')) == name <==> Count(name, '\"') % 2 == 0
  {
    var token, d := QuotedBy(name, '`'), Double(name, '`');
    CountOfQuotedBy(name, '`', '`');
    CountOfQuotedBy(name, '`', '\"');
    UndoubleDouble(name, '`');
    assert token[1..|token| - 1] == d && WrappedIn(token, '`') && !WrappedIn(token, '\"');
    UntickByParity(token, d, Count(name, '`'), Count(name, '\"'));
    OddCountIsNonempty(name, '\"');
  }

  lemma UnquoteByParity(token: string, inner: string, quotes: nat, ticks: nat)
    requires WrappedIn(token, '\"') && inner == token[1..|token| - 1]
    requires Count(token, '\"') == 2 + 2 * quotes && Count(token, '`') == ticks
    ensures UnquoteIdentifier(token) == if ticks % 2 == 0 then Undouble(inner, '\"') else ""
  {
  }

  lemma UntickByParity(token: string, inner: string, ticks: nat, quotes: nat)
    requires WrappedIn(token, '`') && !WrappedIn(token, '\"') && inner == token[1..|token| - 1]
    requires Count(token, '`') == 2 + 2 * ticks && Count(token, '\"') == quotes
    ensures UnquoteIdentifier(token) == if quotes % 2 == 0 then Undouble(inner, '`') else ""
  {
  }

  lemma OddCountIsNonempty(s: string, c: char)
    ensures Count(s, c) % 2 != 0 ==> s != ""
  {
  }

  predicate IsClauseChar(c: char) {
    c == '(' || c == ';' || c == ','
  }

  lemma {:induction false} BeforeClauseStops(token: string, suffix: string)
    requires forall c :: c in token ==> !IsClauseChar(c)
    requires suffix == "" || IsClauseChar(suffix[0])
    ensures BeforeClause(token + suffix) == token
  {
    if token == "" {
      assert token + suffix == suffix;
    } else {
      assert (token + suffix)[1..] == token[1..] + suffix && token[0] in token;
      BeforeClauseStops(token[1..], suffix);
    }
  }

  lemma {:induction false} LastDotOfQualified(a: string, b: string)
    requires '.' !in b
    ensures LastDot(a + "." + b) == Some(|a|)
  {
    var s := a + "." + b;
    if b == "" {
      assert s == a + ".";
    } else {
      var b' := b[..|b| - 1];
      assert s[..|s| - 1] == a + "." + b' && s[|s| - 1] == b[|b| - 1];
      LastDotOfQualified(a, b');
    }
  }

  lemma {:induction false} DoubleUsesTheName(s: string, q: char)
    ensures forall c :: c in Double(s, q) ==> c in s
  {
    if s != "" {
      DoubleUsesTheName(s[1..], q);
    }
  }

  /** A quoted keyspace and table in one token are split at the right dot, and each half is read
      back, or dropped when its backticks do not pair; the keyspace may itself hold dots. */
  lemma QualifiedNameRoundTrips(ks: string, table: string, clause: string)
    requires (forall c :: c in ks ==> !IsClauseChar(c)) && forall c :: c in table ==> c != '.' && !IsClauseChar(c)
    requires clause == "" || IsClauseChar(clause[0])
    ensures NormalizeTable(Quoted(ks) + "." + Quoted(table) + clause)
         == Target(if Count(ks, '`') % 2 == 0 then ks else "", if Count(table, '`') % 2 == 0 then table else "")
  {
    var token := Quoted(ks) + "." + Quoted(table);
    DoubleUsesTheName(ks, '\"');
    DoubleUsesTheName(table, '\"');
    BeforeClauseStops(token, clause);
    LastDotOfQualified(Quoted(ks), Quoted(table));
    assert token[..|Quoted(ks)|] == Quoted(ks) && token[|Quoted(ks)| + 1..] == Quoted(table);
    QuotedNameRoundTrips(ks);
    QuotedNameRoundTrips(table);
  }

  /** The same for a quoted table alone. */
  lemma BareNameRoundTrips(table: string, clause: string)
    requires forall c :: c in table ==> c != '.' && !IsClauseChar(c)
    requires clause == "" || IsClauseChar(clause[0])
    ensures NormalizeTable(Quoted(table) + clause) == Target("", if Count(table, '`') % 2 == 0 then table else "")
  {
    DoubleUsesTheName(table, '\"');
    BeforeClauseStops(Quoted(table), clause);
    assert '.' !in Quoted(table) && LastDot(Quoted(table)).None?;
    QuotedNameRoundTrips(table);
  }

  /** The table of a SELECT, DELETE or INSERT is the token after the first FROM or INTO. */
  lemma {:induction false} AfterKeywordIsTheFirst(fields: seq<string>, keyword: string, i: nat, k: nat)
    requires i <= k < |fields| - 1 && Upper(fields[k]) == keyword
    requires forall j :: i <= j < k ==> Upper(fields[j]) != keyword
    ensures AfterKeyword(fields, keyword, i) == NormalizeTable(fields[k + 1])
    decreases k - i
  {
    if i < k {
      AfterKeywordIsTheFirst(fields, keyword, i + 1, k);
    }
  }

  // ---- The comparison key of a batch

  /** A parsed table never contains a dot. */
  lemma TableHasNoDot(stmt: string)
    ensures '.' !in ParseStatement(stmt).target.table
  {
    var fields := Fields(Strip(stmt));
    if |fields| >= 2 {
      AfterKeywordHasNoDot(fields, "FROM", 1);
      AfterKeywordHasNoDot(fields, "INTO", 1);
      NormalizedTableHasNoDot(fields[1]);
      ObjectTokenHasNoDot(fields, 1);
      ObjectTokenHasNoDot(fields, 2);
    }
  }

  lemma NormalizedTableHasNoDot(token: string)
    ensures '.' !in NormalizeTable(token).table
  {
    var t := BeforeClause(token);
    var rest := if LastDot(t).Some? then t[LastDot(t).value + 1..] else t;
    assert '.' !in rest;
    assert forall c :: c in UnquoteIdentifier(rest) ==> c in rest;
  }

  lemma {:induction false} AfterKeywordHasNoDot(fields: seq<string>, keyword: string, i: nat)
    ensures '.' !in AfterKeyword(fields, keyword, i).table
    decreases |fields| - i
  {
    if i + 1 < |fields| {
      NormalizedTableHasNoDot(fields[i + 1]);
      AfterKeywordHasNoDot(fields, keyword, i + 1);
    }
  }

  lemma {:induction false} ObjectTokenHasNoDot(fields: seq<string>, start: nat)
    ensures '.' !in ObjectToken(fields, start).table
    decreases |fields| - start
  {
    if start < |fields| {
      NormalizedTableHasNoDot(fields[start]);
      ObjectTokenHasNoDot(fields, start + 1);
    }
  }

  function JoinedKey(t: Target): string {
    t.keyspace + "." + t.table
  }

  lemma DotFallsBeforeTable(a: Target, b: Target)
    requires '.' !in b.table && JoinedKey(a) == JoinedKey(b)
    ensures |a.keyspace| <= |b.keyspace|
  {
    var s, dot := JoinedKey(a), |a.keyspace|;
    assert s[dot] == '.';
    forall i | |b.keyspace| < i < |s|
      ensures s[i] != '.'
    {
      assert s[i] == JoinedKey(b)[i] == b.table[i - |b.keyspace| - 1];
    }
  }

  /** Joining keyspace and table with a dot confuses no two targets. */
  lemma JoinedKeyIsInjective(a: Target, b: Target)
    requires '.' !in a.table && '.' !in b.table && JoinedKey(a) == JoinedKey(b)
    ensures a == b
  {
    DotFallsBeforeTable(a, b);
    DotFallsBeforeTable(b, a);
    var n := |a.keyspace|;
    assert a.keyspace == JoinedKey(a)[..n] == JoinedKey(b)[..n] == b.keyspace;
    assert a.table == JoinedKey(a)[n + 1..] == JoinedKey(b)[n + 1..] == b.table;
  }

  // ---- Batches

  /** A statement's target with the session's keyspace filled in. */
  function Effective(session: string, t: Target): Target {
    if t.keyspace == "" then t.(keyspace := session) else t
  }

  function Targets(stmts: seq<string>): (ts: seq<Target>)
    ensures |ts| == |stmts|
  {
    seq(|stmts|, i requires 0 <= i < |stmts| => ParseStatement(stmts[i]).target)
  }

  /** The keyspace every statement of the batch works in, if there is a single one; an
      empty batch reports the session's. */
  ghost function BatchNamespace(session: string, ts: seq<Target>): string {
    if ts == [] then session
    else
      var first := Effective(session, ts[0]).keyspace;
      if forall i :: 0 <= i < |ts| ==> Effective(session, ts[i]).keyspace == first then first else ""
  }

  /** The table every statement addresses, in one keyspace, if there is a single one. */
  ghost function BatchTable(session: string, ts: seq<Target>): string {
    if ts != [] && forall i :: 0 <= i < |ts| ==> Effective(session, ts[i]) == Effective(session, ts[0])
    then ts[0].table else ""
  }

  /** The pass over a batch's statements. */
  method ResolveTargets(session: string, ts: seq<Target>) returns (namespace: string, table: string)
    requires forall i :: 0 <= i < |ts| ==> '.' !in ts[i].table
    ensures namespace == BatchNamespace(session, ts) && table == BatchTable(session, ts)
  {
    var resolvedNS, nsConflict := "", false;
    var resolvedTbl, resolvedKey, tblConflict := "", "", false;
    for n := 0 to |ts|
      invariant nsConflict <==> !NamespaceSoFar(session, ts, n)
      invariant resolvedNS == if nsConflict || n == 0 then "" else Effective(session, ts[0]).keyspace
      invariant tblConflict <==> !TableSoFar(session, ts, n)
      invariant resolvedTbl == if tblConflict || n == 0 then "" else ts[0].table
      invariant !tblConflict ==> resolvedKey == if n == 0 then "" else JoinedKey(Effective(session, ts[0]))
    {
      var ks, tbl := ts[n].keyspace, ts[n].table;
      if ks == "" {
        ks := session;
      }
      if !nsConflict {
        if ks == "" {
          resolvedNS, nsConflict := "", true;
        } else if resolvedNS == "" {
          resolvedNS := ks;
        } else if resolvedNS != ks {
          resolvedNS, nsConflict := "", true;
        }
      }
      if !tblConflict {
        var key := ks + "." + tbl;
        if tbl == "" {
          resolvedTbl, tblConflict := "", true;
        } else if resolvedKey == "" {
          resolvedTbl, resolvedKey := tbl, key;
        } else if resolvedKey != key {
          resolvedTbl, tblConflict := "", true;
        } else {
          JoinedKeyIsInjective(Effective(session, ts[0]), Effective(session, ts[n]));
        }
      }
    }
    if resolvedNS == "" && !nsConflict {
      resolvedNS := session;
    }
    return resolvedNS, resolvedTbl;
  }

  /** The first n statements share one nonempty keyspace. */
  ghost predicate NamespaceSoFar(session: string, ts: seq<Target>, n: nat)
    requires n <= |ts|
  {
    forall i :: 0 <= i < n ==>
      Effective(session, ts[i]).keyspace != "" && Effective(session, ts[i]).keyspace == Effective(session, ts[0]).keyspace
  }

  /** The first n statements address one table. */
  ghost predicate TableSoFar(session: string, ts: seq<Target>, n: nat)
    requires n <= |ts|
  {
    forall i :: 0 <= i < n ==> ts[i].table != "" && Effective(session, ts[i]) == Effective(session, ts[0])
  }

  /** What a statement says on its own: the keyspace it works in, the session's when it names none. */
  function KeyspaceOf(session: string, stmt: string): string {
    var ks := ParseStatement(stmt).target.keyspace;
    if ks == "" then session else ks
  }

  function TableOf(stmt: string): string {
    ParseStatement(stmt).target.table
  }

  /** Statement i works in the same keyspace as the first, on the same table. */
  predicate LikeTheFirst(session: string, stmts: seq<string>, i: nat)
    requires i < |stmts|
  {
    KeyspaceOf(session, stmts[i]) == KeyspaceOf(session, stmts[0]) && TableOf(stmts[i]) == TableOf(stmts[0])
  }

  /** The keyspace all statements work in, when they agree on one, and the table, when they agree on
      both; otherwise nothing. An empty batch reports the session's keyspace. */
  method BatchTargets(session: string, stmts: seq<string>) returns (namespace: string, table: string)
    ensures namespace == BatchNamespace(session, Targets(stmts)) && table == BatchTable(session, Targets(stmts))
    ensures stmts == [] ==> namespace == session && table == ""
    ensures stmts != [] ==>
              namespace == if forall i :: 0 <= i < |stmts| ==> KeyspaceOf(session, stmts[i]) == KeyspaceOf(session, stmts[0])
                           then KeyspaceOf(session, stmts[0]) else ""
    ensures stmts != [] ==>
              table == if forall i :: 0 <= i < |stmts| ==> LikeTheFirst(session, stmts, i) then TableOf(stmts[0]) else ""
  {
    var ts := Targets(stmts);
    forall i | 0 <= i < |ts|
      ensures '.' !in ts[i].table
      ensures Effective(session, ts[i]) == Target(KeyspaceOf(session, stmts[i]), TableOf(stmts[i]))
    {
      TableHasNoDot(stmts[i]);
    }
    namespace, table := ResolveTargets(session, ts);
    if stmts != [] {
      BatchesAgree(session, stmts, ts);
    }
  }

  lemma BatchesAgree(session: string, stmts: seq<string>, ts: seq<Target>)
    requires |ts| == |stmts| > 0
    requires forall i :: 0 <= i < |ts| ==> Effective(session, ts[i]) == Target(KeyspaceOf(session, stmts[i]), TableOf(stmts[i]))
    ensures BatchNamespace(session, ts)
         == if forall i :: 0 <= i < |stmts| ==> KeyspaceOf(session, stmts[i]) == KeyspaceOf(session, stmts[0])
            then KeyspaceOf(session, stmts[0]) else ""
    ensures BatchTable(session, ts)
         == if forall i :: 0 <= i < |stmts| ==> LikeTheFirst(session, stmts, i) then TableOf(stmts[0]) else ""
  {
    forall i | 0 <= i < |ts|
      ensures Effective(session, ts[i]) == Effective(session, ts[0]) <==> LikeTheFirst(session, stmts, i)
    {
    }
    assert ts[0].table == Effective(session, ts[0]).table;
    if forall i :: 0 <= i < |ts| ==> Effective(session, ts[i]) == Effective(session, ts[0]) {
      forall i | 0 <= i < |stmts| ensures LikeTheFirst(session, stmts, i) {
        assert Effective(session, ts[i]) == Effective(session, ts[0]);
      }
    }
  }
}
