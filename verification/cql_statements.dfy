/**
 * Which names a statement gives back, written plainly or quoted, for every form of statement the
 * parser knows (cassandra/attributes.go:48-55, 136-241).
 */
module CqlStatements {
  import opened Wrappers
  import opened CqlText
  import opened CqlTargets
  import opened CqlNames

  // ---- Letter case

  /** The ASCII letters in lower case. */
  function Lower(s: string): string {
    seq(|s|, i requires 0 <= i < |s| => if 'A' <= s[i] <= 'Z' then s[i] - 'A' + 'a' else s[i])
  }

  /** Keywords are told apart without regard to case: text and its lower-case form are the same in
      upper case, and text without lower-case letters is left as it is. */
  lemma UpperForgetsCase(s: string)
    ensures Upper(Lower(s)) == Upper(s)
    ensures (forall i :: 0 <= i < |s| ==> !('a' <= s[i] <= 'z')) ==> Upper(s) == s
    ensures |Upper(s)| == |s| && forall i :: 0 <= i < |s| ==> !('a' <= Upper(s)[i] <= 'z')
  {
    assert forall i :: 0 <= i < |s| ==> Upper(Lower(s))[i] == Upper(s)[i];
  }

  // ---- Plain text

  predicate OpensComment(c: char, d: char) {
    (c == '-' && d == '-') || (c == '/' && d == '/') || (c == '/' && d == '*')
  }

  /** Text without quotes and without comment markers. */
  ghost predicate PlainText(s: string) {
    && (forall i :: 0 <= i < |s| ==> !IsQuote(s[i]))
    && (forall i :: 0 < i < |s| ==> !OpensComment(s[i - 1], s[i]))
  }

  /** Text that makes no comment marker with what stands before it. */
  predicate StartsCalmly(s: string) {
    s == "" || (s[0] != '-' && s[0] != '/' && s[0] != '*')
  }

  lemma CharIsCopied(c: char, s: string)
    requires !IsQuote(c) && (s != "" ==> !OpensComment(c, s[0]))
    ensures Strip([c] + s) == [c] + Strip(s)
  {
    assert ([c] + s)[1..] == s;
  }

  lemma RestIsPlain(p: string)
    requires PlainText(p) && p != ""
    ensures PlainText(p[1..]) && p == [p[0]] + p[1..]
  {
    var rest := p[1..];
    assert forall i :: 0 < i < |rest| ==> rest[i - 1] == p[i] && rest[i] == p[i + 1];
  }

  /** What comes after the first character of plain text does not make a comment of it. */
  lemma NoCommentOpens(p: string, x: string)
    requires PlainText(p) && p != "" && StartsCalmly(x)
    ensures !IsQuote(p[0]) && (p[1..] + x != "" ==> !OpensComment(p[0], (p[1..] + x)[0]))
  {
    if |p| > 1 {
      assert (p[1..] + x)[0] == p[1];
    }
  }

  lemma {:induction false} PlainTextIsCopied(p: string, x: string)
    requires PlainText(p) && StartsCalmly(x)
    ensures Strip(p + x) == p + Strip(x)
  {
    if p == "" {
      assert p + x == x && "" + Strip(x) == Strip(x);
    } else {
      RestIsPlain(p);
      PlainTextIsCopied(p[1..], x);
      NoCommentOpens(p, x);
      CharIsCopied(p[0], p[1..] + x);
      Associates([p[0]], p[1..], x);
      Associates([p[0]], p[1..], Strip(x));
    }
  }

  /** The operation a statement is reported under is its first word in upper case. */
  lemma OperationIsReported(word: string, tail: string)
    requires word != "" && PlainText(word) && NoSpace(word) && (tail == "" || IsSpace(tail[0]))
    ensures ParseStatement(word + tail).operation == Upper(word)
  {
    PlainTextIsCopied(word, tail);
    var s := word + Strip(tail);
    if tail != "" {
      SpaceOpensNothing(tail);
    }
    TokenLenOfConcat(word, Strip(tail));
    assert word[0] in word;
    FieldsOfToken(s, s[..TokenLen(s)], s[TokenLen(s)..]);
    assert s[..|word|] == word;
  }

  // ---- Names as they are written

  /** An identifier written as it is, in double quotes, or between backticks. */
  datatype Name = Plain(text: string) | InQuotes(text: string) | InTicks(text: string)

  function Spelled(n: Name): string {
    match n
    case Plain(text) => text
    case InQuotes(text) => QuotedBy(text, '\"')
    case InTicks(text) => QuotedBy(text, '`')
  }

  /** The quotes of the other kind in a quoted name are paired. */
  predicate Paired(n: Name) {
    match n
    case Plain(_) => true
    case InQuotes(text) => Count(text, '`') % 2 == 0
    case InTicks(text) => Count(text, '\"') % 2 == 0
  }

  predicate IsModifier(word: string) {
    Upper(word) == "IF" || Upper(word) == "NOT" || Upper(word) == "EXISTS"
  }

  /** A plain name that the scanner takes as one: not empty, not starting with whitespace, without
      quotes and comment markers. */
  ghost predicate Writable(n: Name) {
    n.Plain? ==> n.text != "" && !IsSpace(n.text[0]) && PlainText(n.text)
  }

  /** A name that can be read back: no whitespace and no clause character, and in quotes only with
      the other kind of quotes paired. */
  predicate Readable(n: Name) {
    NoSpace(n.text) && NoClause(n.text) && Paired(n)
  }

  lemma SpelledIsCopied(n: Name, x: string)
    requires Writable(n) && StartsCalmly(x)
    ensures Strip(Spelled(n) + x) == Spelled(n) + Strip(x)
  {
    match n
    case Plain(text) => PlainTextIsCopied(text, x);
    case InQuotes(text) => QuotedIsCopied(text, '\"', x);
    case InTicks(text) => QuotedIsCopied(text, '`', x);
  }

  lemma {:induction false} NoneCounted(s: string, c: char)
    requires c !in s
    ensures Count(s, c) == 0
  {
    if s != "" {
      assert s[0] in s;
      NoneCounted(s[1..], c);
    }
  }

  /** The name, or nothing when it is quoted with an odd number of the other quotes in it. */
  function Unquoted(n: Name): string {
    if Paired(n) then n.text else ""
  }

  /** Unquoting gives just that back. */
  lemma SpelledIsUnquoted(n: Name)
    requires Writable(n)
    ensures UnquoteIdentifier(Spelled(n)) == Unquoted(n)
  {
    match n
    case Plain(text) => NoneCounted(text, '\"'); NoneCounted(text, '`');
    case InQuotes(text) => QuotedNameRoundTrips(text);
    case InTicks(text) => TickedNameRoundTrips(text);
  }

  lemma SpelledUsesTheName(n: Name)
    ensures forall c :: c in Spelled(n) ==> c in n.text || c == '\"' || c == '`'
  {
    DoubleUsesTheName(n.text, '\"');
    DoubleUsesTheName(n.text, '`');
  }

  lemma SpelledStarts(n: Name)
    requires Writable(n)
    ensures Spelled(n) != "" && !IsSpace(Spelled(n)[0])
    ensures NoSpace(n.text) ==> NoSpace(Spelled(n))
  {
    SpelledUsesTheName(n);
  }

  // ---- Tokens

  /** A token without dots is a table. */
  lemma TokenOfTable(n: Name, clause: string)
    requires Writable(n) && NoClause(n.text) && '.' !in n.text && (clause == "" || IsClauseChar(clause[0]))
    ensures NormalizeTable(Spelled(n) + clause) == Target("", Unquoted(n))
  {
    SpelledUsesTheName(n);
    BeforeClauseStops(Spelled(n), clause);
    assert '.' !in Spelled(n) && LastDot(Spelled(n)).None?;
    SpelledIsUnquoted(n);
  }

  function Dotted(ks: Name, n: Name): string {
    Spelled(ks) + "." + Spelled(n)
  }

  /** A keyspace may be left out before the dot. */
  ghost predicate WritableKeyspace(ks: Name) {
    ks == Plain("") || Writable(ks)
  }

  lemma NormalizedAtDot(ks: string, table: string, clause: string)
    requires NoClause(ks) && NoClause(table) && '.' !in table && (clause == "" || IsClauseChar(clause[0]))
    ensures NormalizeTable((ks + "." + table) + clause) == Target(UnquoteIdentifier(ks), UnquoteIdentifier(table))
  {
    var token := ks + "." + table;
    BeforeClauseStops(token, clause);
    LastDotOfQualified(ks, table);
    assert token[..|ks|] == ks && token[|ks| + 1..] == table;
  }

  lemma SpelledHasNoClause(n: Name)
    requires NoClause(n.text)
    ensures NoClause(Spelled(n)) && ('.' !in n.text ==> '.' !in Spelled(n))
  {
    SpelledUsesTheName(n);
  }

  lemma TokenOfDotted(ks: Name, n: Name, clause: string)
    requires WritableKeyspace(ks) && Writable(n) && NoClause(ks.text) && NoClause(n.text) && '.' !in n.text
    requires clause == "" || IsClauseChar(clause[0])
    ensures NormalizeTable(Dotted(ks, n) + clause) == Target(Unquoted(ks), Unquoted(n))
  {
    SpelledHasNoClause(ks);
    SpelledHasNoClause(n);
    NormalizedAtDot(Spelled(ks), Spelled(n), clause);
    if ks != Plain("") {
      SpelledIsUnquoted(ks);
    }
    SpelledIsUnquoted(n);
  }

  // ---- Statements

  predicate AllModifiers(words: seq<string>) {
    forall w :: w in words ==> IsModifier(w)
  }

  /** The tokens of a TRUNCATE, or of a CREATE, DROP or ALTER of a table, up to its name. */
  predicate AwaitsObject(head: seq<string>) {
    head != [] &&
    if Upper(head[0]) == "TRUNCATE" then
      AllModifiers(head[if |head| > 1 && Upper(head[1]) == "TABLE" then 2 else 1..])
    else DefinesAfter(head, "TABLE", "COLUMNFAMILY")
  }

  predicate DefinesAfter(head: seq<string>, kind: string, other: string) {
    && |head| >= 2 && (Upper(head[0]) == "CREATE" || Upper(head[0]) == "DROP" || Upper(head[0]) == "ALTER")
    && (Upper(head[1]) == kind || Upper(head[1]) == other)
    && AllModifiers(head[2..])
  }

  /** The same for a keyspace. */
  predicate AwaitsKeyspace(head: seq<string>) {
    DefinesAfter(head, "KEYSPACE", "SCHEMA")
  }

  lemma {:induction false} ModifiersAreSkipped(fields: seq<string>, i: nat, k: nat)
    requires i <= k < |fields| && AllModifiers(fields[i..k]) && !IsModifier(fields[k])
    ensures ObjectToken(fields, i) == NormalizeTable(fields[k])
    decreases k - i
  {
    if i < k {
      assert fields[i] == fields[i..k][0] && fields[i..k][0] in fields[i..k];
      assert fields[i + 1..k] == fields[i..k][1..];
      ModifiersAreSkipped(fields, i + 1, k);
    }
  }

  lemma ModifiersBefore(head: seq<string>, token: string, more: seq<string>, i: nat)
    requires i <= |head| && AllModifiers(head[i..]) && !IsModifier(token)
    ensures ObjectToken(head + ([token] + more), i) == NormalizeTable(token)
  {
    var fields := head + ([token] + more);
    assert fields[i..|head|] == head[i..] && fields[|head|] == token;
    ModifiersAreSkipped(fields, i, |head|);
  }

  lemma TokenIsTheObject(head: seq<string>, token: string, more: seq<string>)
    requires AwaitsObject(head) && !IsModifier(token) && (|head| == 1 ==> Upper(token) != "TABLE")
    ensures TableFields(head + ([token] + more)) == NormalizeTable(token)
  {
    var fields := head + ([token] + more);
    assert fields[0] == head[0] && (if |head| > 1 then fields[1] == head[1] else fields[1] == token);
    if Upper(head[0]) == "TRUNCATE" {
      ModifiersBefore(head, token, more, if |head| > 1 && Upper(head[1]) == "TABLE" then 2 else 1);
    } else {
      ModifiersBefore(head, token, more, 2);
    }
  }

  lemma TokenIsTheKeyspace(head: seq<string>, token: string, more: seq<string>)
    requires AwaitsKeyspace(head) && !IsModifier(token)
    ensures TableFields(head + ([token] + more)) == Target(NormalizeTable(token).table, "")
  {
    var fields := head + ([token] + more);
    assert fields[0] == head[0] && fields[1] == head[1];
    ModifiersBefore(head, token, more, 2);
  }

  /** A token with a character that is no letter is not a keyword. */
  lemma NoKeyword(token: string, i: nat)
    requires i < |token| && (IsQuote(token[i]) || token[i] == '.' || IsClauseChar(token[i]))
    ensures !IsModifier(token) && Upper(token) != "TABLE"
  {
    assert Upper(token)[i] == token[i];
  }

  /** What can be reported at all holds no whitespace, no clause character and no dot in the table. */
  predicate Clean(t: Target) {
    NoSpace(t.keyspace) && NoClause(t.keyspace) && NoSpace(t.table) && NoClause(t.table) && '.' !in t.table
  }

  lemma {:induction false} AfterKeywordIsClean(fields: seq<string>, keyword: string, i: nat)
    requires forall f :: f in fields ==> NoSpace(f)
    ensures Clean(AfterKeyword(fields, keyword, i))
    decreases |fields| - i
  {
    if i + 1 < |fields| {
      TargetHolds(fields[i + 1]);
      AfterKeywordIsClean(fields, keyword, i + 1);
    }
  }

  lemma {:induction false} ObjectIsClean(fields: seq<string>, i: nat)
    requires forall f :: f in fields ==> NoSpace(f)
    ensures Clean(ObjectToken(fields, i))
    decreases |fields| - i
  {
    if i < |fields| {
      TargetHolds(fields[i]);
      ObjectIsClean(fields, i + 1);
    }
  }

  lemma ReportedIsClean(stmt: string)
    ensures Clean(ParseStatement(stmt).target)
  {
    var fields := Fields(Strip(stmt));
    FieldsAreTheTokens(Strip(stmt));
    assert forall f :: f in fields ==> NoSpace(f);
    if |fields| >= 2 {
      AfterKeywordIsClean(fields, "FROM", 1);
      AfterKeywordIsClean(fields, "INTO", 1);
      TargetHolds(fields[1]);
      ObjectIsClean(fields, 1);
      ObjectIsClean(fields, 2);
    }
  }

  // ---- Every form gives its name back

  /** The forms of statement that name a table or a keyspace. */
  datatype Form = OfTable | OfObject | OfKeyspace

  /** The tokens so far lead up to a name, in this form. */
  predicate Awaits(form: Form, head: seq<string>) {
    match form
    case OfTable => AwaitsTable(head)
    case OfObject => AwaitsObject(head)
    case OfKeyspace => AwaitsKeyspace(head)
  }

  /** A plain name that would be taken for one of the form's own keywords. */
  predicate TakenForKeyword(form: Form, head: seq<string>, n: Name) {
    n.Plain? && !form.OfTable? && (IsModifier(n.text) || (|head| == 1 && Upper(n.text) == "TABLE"))
  }

  /** What is reported of a target: a keyspace statement reports the bare name as the keyspace. */
  function Reported(form: Form, t: Target): Target {
    if form.OfKeyspace? then Target(t.table, "") else t
  }

  lemma TokenIsReported(form: Form, head: seq<string>, token: string, more: seq<string>)
    requires Awaits(form, head)
    requires !form.OfTable? ==> !IsModifier(token) && (|head| == 1 ==> Upper(token) != "TABLE")
    ensures TableFields(head + ([token] + more)) == Reported(form, NormalizeTable(token))
  {
    match form
    case OfTable => NextTokenIsTheTarget(head, [token] + more);
    case OfObject => TokenIsTheObject(head, token, more);
    case OfKeyspace => TokenIsTheKeyspace(head, token, more);
  }

  lemma FirstTokenOf(text: string, tail: string) returns (clause: string)
    requires text != "" && NoSpace(text) && EndsToken(tail) && Strip(text + tail) == text + Strip(tail)
    ensures FirstToken(text + Strip(tail)) == text + clause && (clause == "" || IsClauseChar(clause[0]))
  {
    TailStaysATail(tail);
    clause := TokenOfQuoted(text, Strip(tail));
  }

  lemma TailIsCalm(tail: string)
    requires EndsToken(tail)
    ensures StartsCalmly(tail)
  {
  }

  lemma ReadableIsReported(form: Form, a: string, n: Name, tail: string)
    requires EndsInSpace(a) && EndsOutside(a) && Awaits(form, Fields(Strip(a))) && EndsToken(tail)
    requires Writable(n) && !TakenForKeyword(form, Fields(Strip(a)), n)
    requires NoSpace(n.text) && NoClause(n.text) && '.' !in n.text
    ensures ParseStatement(a + (Spelled(n) + tail)).target
         == Reported(form, Target("", Unquoted(n)))
  {
    TailIsCalm(tail);
    SpelledIsCopied(n, tail);
    SpelledStarts(n);
    var head := Fields(Strip(a));
    var clause := FirstTokenOf(Spelled(n), tail);
    var more := StatementFields(a, Spelled(n), tail);
    TokenOfTable(n, clause);
    TokenIsNoKeyword(form, head, n, clause);
    TokenIsReported(form, head, Spelled(n) + clause, more);
  }

  lemma TokenIsNoKeyword(form: Form, head: seq<string>, n: Name, clause: string)
    requires !TakenForKeyword(form, head, n) && (clause == "" || IsClauseChar(clause[0]))
    ensures var token := Spelled(n) + clause;
            !form.OfTable? ==> !IsModifier(token) && (|head| == 1 ==> Upper(token) != "TABLE")
  {
    var token := Spelled(n) + clause;
    if !n.Plain? {
      NoKeyword(token, 0);
    } else if clause != "" {
      NoKeyword(token, |n.text|);
    } else {
      assert token == n.text;
    }
  }

  lemma CleanTarget(form: Form, t: Target, n: Name)
    requires Clean(t) && t == (if form.OfKeyspace? then Target(n.text, "") else Target("", n.text))
    requires form.OfKeyspace? ==> '.' !in t.keyspace
    ensures NoSpace(n.text) && NoClause(n.text) && '.' !in n.text
  {
  }

  /** A statement that names a keyspace reports no dot in it either: it is the table half. */
  lemma KeyspaceHasNoDot(head: seq<string>, rest: seq<string>)
    requires AwaitsKeyspace(head) && rest != []
    ensures '.' !in TableFields(head + rest).keyspace
  {
    var fields := head + rest;
    assert fields[0] == head[0] && fields[1] == head[1];
    ObjectTokenHasNoDot(fields, 2);
  }

  lemma ReportedCanBeRead(form: Form, a: string, n: Name, tail: string)
    requires EndsInSpace(a) && EndsOutside(a) && Awaits(form, Fields(Strip(a))) && EndsToken(tail) && Writable(n)
    requires ParseStatement(a + (Spelled(n) + tail)).target
          == (if form.OfKeyspace? then Target(n.text, "") else Target("", n.text))
    ensures NoSpace(n.text) && NoClause(n.text) && '.' !in n.text
  {
    ReportedIsClean(a + (Spelled(n) + tail));
    if form.OfKeyspace? {
      TailIsCalm(tail);
      SpelledIsCopied(n, tail);
      SpelledStarts(n);
      var more := StatementFields(a, Spelled(n), tail);
      KeyspaceHasNoDot(Fields(Strip(a)), [FirstToken(Spelled(n) + Strip(tail))] + more);
    }
    CleanTarget(form, ParseStatement(a + (Spelled(n) + tail)).target, n);
  }

  lemma UnquotedIsTheName(n: Name)
    ensures Unquoted(n) == n.text <==> Paired(n)
  {
    OddCountIsNonempty(n.text, '`');
    OddCountIsNonempty(n.text, '\"');
  }

  /** A table named behind the keyword of any SELECT, INSERT, UPDATE or DELETE, of a TRUNCATE with or
      without TABLE, or of a CREATE, DROP or ALTER TABLE with or without IF NOT EXISTS, is what the
      parse reports if and only if it can be read back and has no dot; a keyspace named in a CREATE,
      DROP or ALTER KEYSPACE likewise. */
  lemma NameIsReportedExactly(form: Form, a: string, n: Name, tail: string)
    requires EndsInSpace(a) && EndsOutside(a) && Awaits(form, Fields(Strip(a))) && EndsToken(tail)
    requires Writable(n) && !TakenForKeyword(form, Fields(Strip(a)), n)
    ensures ParseStatement(a + (Spelled(n) + tail)).target
         == (if form.OfKeyspace? then Target(n.text, "") else Target("", n.text))
       <==> Readable(n) && '.' !in n.text
  {
    var t := ParseStatement(a + (Spelled(n) + tail)).target;
    if NoSpace(n.text) && NoClause(n.text) && '.' !in n.text {
      ReadableIsReported(form, a, n, tail);
      UnquotedIsTheName(n);
    } else if t == (if form.OfKeyspace? then Target(n.text, "") else Target("", n.text)) {
      ReportedCanBeRead(form, a, n, tail);
    }
  }

  // ---- With a keyspace before it

  lemma DottedParts(ks: string, n: string, z: string)
    ensures (ks + "." + n) + z == ks + (['.'] + (n + z))
  {
  }

  lemma KeyspaceIsCopied(ks: Name, x: string)
    requires WritableKeyspace(ks) && StartsCalmly(x)
    ensures Strip(Spelled(ks) + x) == Spelled(ks) + Strip(x)
  {
    if ks == Plain("") {
      assert "" + x == x && "" + Strip(x) == Strip(x);
    } else {
      SpelledIsCopied(ks, x);
    }
  }

  lemma DottedIsCopied(ks: Name, n: Name, tail: string)
    requires WritableKeyspace(ks) && Writable(n) && EndsToken(tail)
    ensures Strip(Dotted(ks, n) + tail) == Dotted(ks, n) + Strip(tail)
  {
    TailIsCalm(tail);
    DottedParts(Spelled(ks), Spelled(n), tail);
    DottedParts(Spelled(ks), Spelled(n), Strip(tail));
    KeyspaceIsCopied(ks, ['.'] + (Spelled(n) + tail));
    PlainCharIsCopied('.', Spelled(n) + tail);
    SpelledIsCopied(n, tail);
  }

  lemma DottedStarts(ks: Name, n: Name)
    requires WritableKeyspace(ks) && Writable(n)
    ensures Dotted(ks, n) != "" && !IsSpace(Dotted(ks, n)[0])
    ensures NoSpace(ks.text) && NoSpace(n.text) ==> NoSpace(Dotted(ks, n))
  {
    SpelledUsesTheName(ks);
    SpelledUsesTheName(n);
  }

  lemma ReadableDottedIsReported(form: Form, a: string, ks: Name, n: Name, tail: string)
    requires EndsInSpace(a) && EndsOutside(a) && Awaits(form, Fields(Strip(a))) && EndsToken(tail)
    requires WritableKeyspace(ks) && Writable(n)
    requires NoSpace(ks.text) && NoClause(ks.text) && NoSpace(n.text) && NoClause(n.text) && '.' !in n.text
    ensures ParseStatement(a + (Dotted(ks, n) + tail)).target == Reported(form, Target(Unquoted(ks), Unquoted(n)))
  {
    DottedIsCopied(ks, n, tail);
    DottedStarts(ks, n);
    var head, text := Fields(Strip(a)), Dotted(ks, n);
    var clause := FirstTokenOf(text, tail);
    var more := StatementFields(a, text, tail);
    TokenOfDotted(ks, n, clause);
    assert (text + clause)[|Spelled(ks)|] == '.';
    NoKeyword(text + clause, |Spelled(ks)|);
    TokenIsReported(form, head, text + clause, more);
  }

  /** A table with its keyspace, either written plainly, in quotes or between backticks, is reported with both halves if
      and only if both can be read back and the table has no dot; the keyspace may have dots. */
  lemma DottedIsReportedExactly(form: Form, a: string, ks: Name, n: Name, tail: string)
    requires EndsInSpace(a) && EndsOutside(a) && Awaits(form, Fields(Strip(a))) && EndsToken(tail)
    requires WritableKeyspace(ks) && Writable(n) && !form.OfKeyspace?
    ensures ParseStatement(a + (Dotted(ks, n) + tail)).target == Target(ks.text, n.text)
       <==> Readable(ks) && Readable(n) && '.' !in n.text
  {
    ReportedIsClean(a + (Dotted(ks, n) + tail));
    if NoSpace(ks.text) && NoClause(ks.text) && NoSpace(n.text) && NoClause(n.text) && '.' !in n.text {
      ReadableDottedIsReported(form, a, ks, n, tail);
      UnquotedIsTheName(ks);
      UnquotedIsTheName(n);
    }
  }
}
