/**
 * Which quoted names a statement gives back: what the scanner, the tokenizer and the table parser
 * together make of `"name"` (cassandra/attributes.go:48-55, 79-156, 196-241).
 */
module CqlNames {
  import opened CqlText
  import opened CqlTargets

  // ---- The scanner leaves quoted names alone

  /** What stripping leaves of text that starts inside a run of q. */
  function StripInRun(s: string, q: char): string {
    s[..UntilQuote(s, q)] + Strip(s[UntilQuote(s, q)..])
  }

  lemma OpeningQuote(s: string, q: char)
    requires IsQuote(q)
    ensures Strip([q] + s) == [q] + StripInRun(s, q)
  {
    var t := [q] + s;
    var n := UntilQuote(s, q);
    assert t[1..] == s && QuotedRun(t) == 1 + n;
    assert t[..1 + n] == [q] + s[..n] && t[1 + n..] == s[n..];
    Associates([q], s[..n], Strip(s[n..]));
  }

  lemma ClosingQuote(s: string, q: char)
    ensures StripInRun([q] + s, q) == [q] + Strip(s)
  {
    assert ([q] + s)[..1] == [q] && ([q] + s)[1..] == s;
  }

  lemma InsideRun(c: char, s: string, q: char)
    requires c != q
    ensures StripInRun([c] + s, q) == [c] + StripInRun(s, q)
  {
    var n := UntilQuote(s, q);
    assert ([c] + s)[1..] == s;
    assert ([c] + s)[..1 + n] == [c] + s[..n] && ([c] + s)[1 + n..] == s[n..];
    Associates([c], s[..n], Strip(s[n..]));
  }

  lemma DoubledQuoteInRun(y: string, out: string, q: char)
    requires IsQuote(q) && StripInRun(y, q) == out
    ensures StripInRun([q] + ([q] + y), q) == [q] + ([q] + out)
  {
    ClosingQuote([q] + y, q);
    OpeningQuote(y, q);
  }

  lemma DoubleOfMore(name: string, z: string, q: char)
    requires name != ""
    ensures Double(name, q) + z == if name[0] == q then [q] + ([q] + (Double(name[1..], q) + z))
                                   else [name[0]] + (Double(name[1..], q) + z)
  {
  }

  lemma {:induction false} DoubledInRun(name: string, y: string, out: string, q: char)
    requires IsQuote(q) && StripInRun(y, q) == out
    ensures StripInRun(Double(name, q) + y, q) == Double(name, q) + out
  {
    if name == "" {
      assert "" + y == y && "" + out == out;
    } else {
      DoubledInRun(name[1..], y, out, q);
      DoubleOfMore(name, y, q);
      DoubleOfMore(name, out, q);
      if name[0] == q {
        DoubledQuoteInRun(Double(name[1..], q) + y, Double(name[1..], q) + out, q);
      } else {
        InsideRun(name[0], Double(name[1..], q) + y, q);
      }
    }
  }

  /** Quoted text and what follows, taken apart at the quotes. */
  lemma QuotedParts(name: string, z: string, q: char)
    ensures QuotedBy(name, q) + z == [q] + (Double(name, q) + ([q] + z))
  {
  }

  /** Whatever a string literal, a quoted name or one between backticks holds, comment markers and
      doubled quotes included, it is copied. */
  lemma QuotedIsCopied(name: string, q: char, x: string)
    requires q == '\'' || q == '\"' || q == '`'
    ensures Strip(QuotedBy(name, q) + x) == QuotedBy(name, q) + Strip(x)
  {
    QuotedParts(name, x, q);
    OpeningQuote(Double(name, q) + ([q] + x), q);
    ClosingQuote(x, q);
    DoubledInRun(name, [q] + x, [q] + Strip(x), q);
    QuotedParts(name, Strip(x), q);
  }

  lemma PlainCharIsCopied(c: char, x: string)
    requires !IsQuote(c) && c != '-' && c != '/'
    ensures Strip([c] + x) == [c] + Strip(x)
  {
    assert ([c] + x)[1..] == x;
  }

  /** What may follow a table's token: nothing, whitespace, or a clause character. */
  predicate EndsToken(tail: string) {
    tail == "" || IsSpace(tail[0]) || IsClauseChar(tail[0])
  }

  lemma TailStaysATail(tail: string)
    requires EndsToken(tail)
    ensures EndsToken(Strip(tail))
  {
    if tail != "" {
      assert tail == [tail[0]] + tail[1..];
      PlainCharIsCopied(tail[0], tail[1..]);
    }
  }

  // ---- The tokenizer

  predicate NoSpace(s: string) {
    forall c :: c in s ==> !IsSpace(c)
  }

  predicate NoClause(s: string) {
    forall c :: c in s ==> !IsClauseChar(c)
  }

  lemma {:induction false} TokenLenOfConcat(q: string, x: string)
    requires NoSpace(q)
    ensures TokenLen(q + x) == |q| + TokenLen(x)
  {
    if q == "" {
      assert q + x == x;
    } else {
      assert q[0] in q && (q + x)[1..] == q[1..] + x;
      TokenLenOfConcat(q[1..], x);
    }
  }

  /** The token text starts with. */
  function FirstToken(s: string): string {
    s[..TokenLen(s)]
  }

  /** Quoted text without whitespace is one token with the clause written against it. */
  lemma TokenOfQuoted(q: string, tail: string) returns (clause: string)
    requires NoSpace(q) && EndsToken(tail)
    ensures FirstToken(q + tail) == q + clause && (clause == "" || IsClauseChar(clause[0]))
  {
    clause := FirstToken(tail);
    TokenLenOfConcat(q, tail);
    assert (q + tail)[..|q| + TokenLen(tail)] == q + tail[..TokenLen(tail)];
  }

  lemma {:induction false} BeforeClauseHasNone(token: string)
    ensures NoClause(BeforeClause(token))
  {
    if token != "" {
      BeforeClauseHasNone(token[1..]);
    }
  }

  /** Nothing comes out of a token that is not in it: no whitespace, no clause character, and no dot
      in the table. */
  lemma TargetHolds(token: string)
    requires NoSpace(token)
    ensures var t := NormalizeTable(token);
            NoSpace(t.keyspace) && NoClause(t.keyspace) && NoSpace(t.table) && NoClause(t.table) && '.' !in t.table
  {
    BeforeClauseHasNone(token);
    NormalizedTableHasNoDot(token);
    var t := BeforeClause(token);
    assert forall c :: c in t ==> c in token;
    var at := LastDot(t);
    if at.Some? {
      UnquotedHolds(t[..at.value], t);
      UnquotedHolds(t[at.value + 1..], t);
    } else {
      UnquotedHolds(t, t);
    }
  }

  lemma UnquotedHolds(part: string, token: string)
    requires forall c :: c in part ==> c in token
    ensures forall c :: c in UnquoteIdentifier(part) ==> c in token
  {
    assert forall c :: c in UnquoteIdentifier(part) ==> c in part;
  }

  lemma FirstTokenHasNoSpace(s: string)
    ensures NoSpace(FirstToken(s))
  {
    TokenHasNoSpaces(s);
  }

  lemma QuotedHolds(name: string)
    ensures NoSpace(name) ==> NoSpace(Quoted(name))
  {
    DoubleUsesTheName(name, '\"');
  }

  // ---- The token of a quoted name

  predicate PairedTicks(name: string) {
    Count(name, '`') % 2 == 0
  }

  /** A keyspace that can be read back from its quoted form. */
  predicate ReadableKeyspace(name: string) {
    NoSpace(name) && NoClause(name) && PairedTicks(name)
  }

  /** A table that can. */
  predicate ReadableTable(name: string) {
    ReadableKeyspace(name) && '.' !in name
  }

  lemma UnpairedIsNonempty(name: string)
    requires !PairedTicks(name)
    ensures name != ""
  {
  }

  lemma BareTokenExactly(table: string, tail: string)
    requires EndsToken(tail)
    ensures NormalizeTable(FirstToken(Quoted(table) + tail)) == Target("", table) <==> ReadableTable(table)
  {
    var token := FirstToken(Quoted(table) + tail);
    FirstTokenHasNoSpace(Quoted(table) + tail);
    TargetHolds(token);
    if NoSpace(table) && NoClause(table) && '.' !in table {
      QuotedHolds(table);
      var clause := TokenOfQuoted(Quoted(table), tail);
      BareNameRoundTrips(table, clause);
      if !PairedTicks(table) {
        UnpairedIsNonempty(table);
      }
    }
  }

  function Qualified(ks: string, table: string): string {
    Quoted(ks) + "." + Quoted(table)
  }

  lemma QualifiedTokenExactly(ks: string, table: string, tail: string)
    requires EndsToken(tail)
    ensures NormalizeTable(FirstToken(Qualified(ks, table) + tail)) == Target(ks, table)
       <==> ReadableKeyspace(ks) && ReadableTable(table)
  {
    var token := FirstToken(Qualified(ks, table) + tail);
    FirstTokenHasNoSpace(Qualified(ks, table) + tail);
    TargetHolds(token);
    if NoSpace(ks) && NoClause(ks) && NoSpace(table) && NoClause(table) && '.' !in table {
      QuotedHolds(ks);
      QuotedHolds(table);
      var clause := TokenOfQuoted(Qualified(ks, table), tail);
      QualifiedNameRoundTrips(ks, table, clause);
      if !PairedTicks(ks) {
        UnpairedIsNonempty(ks);
      }
      if !PairedTicks(table) {
        UnpairedIsNonempty(table);
      }
    }
  }

  // ---- Whole statements

  /** The tokens of a SELECT, DELETE or INSERT up to its first FROM or INTO, or of an UPDATE. */
  predicate AwaitsTable(head: seq<string>) {
    head != [] &&
    var verb, last := Upper(head[0]), |head| - 1;
    if verb == "SELECT" || verb == "DELETE" then KeywordIsLast(head, "FROM")
    else if verb == "INSERT" then KeywordIsLast(head, "INTO")
    else verb == "UPDATE" && |head| == 1
  }

  predicate KeywordIsLast(head: seq<string>, keyword: string) {
    |head| > 1 && Upper(head[|head| - 1]) == keyword && forall j :: 1 <= j < |head| - 1 ==> Upper(head[j]) != keyword
  }

  lemma NextTokenIsTheTarget(head: seq<string>, rest: seq<string>)
    requires AwaitsTable(head) && rest != []
    ensures TableFields(head + rest) == NormalizeTable(rest[0])
  {
    var fields := head + rest;
    var verb := Upper(head[0]);
    assert fields[0] == head[0] && fields[|head|] == rest[0];
    assert forall j :: 0 <= j < |head| ==> fields[j] == head[j];
    if verb == "SELECT" || verb == "DELETE" {
      AfterKeywordIsTheFirst(fields, "FROM", 1, |head| - 1);
    } else if verb == "INSERT" {
      AfterKeywordIsTheFirst(fields, "INTO", 1, |head| - 1);
    }
  }

  /** A statement's tokens, taken apart where a token starts that the scanner copies. */
  lemma StatementFields(a: string, q: string, tail: string) returns (more: seq<string>)
    requires EndsInSpace(a) && EndsOutside(a)
    requires q != "" && !IsSpace(q[0]) && Strip(q + tail) == q + Strip(tail)
    ensures Fields(Strip(a + (q + tail))) == Fields(Strip(a)) + ([FirstToken(q + Strip(tail))] + more)
  {
    var behind := q + Strip(tail);
    StripSplits(a, q + tail);
    StripEndsInSpace(a);
    FieldsSplit(Strip(a), behind);
    more := Fields(behind[TokenLen(behind)..]);
    FieldsOfToken(behind, FirstToken(behind), behind[TokenLen(behind)..]);
  }

  /** The target of a statement is that of the first token behind its keyword. */
  lemma StatementTarget(a: string, q: string, tail: string)
    requires EndsInSpace(a) && EndsOutside(a) && AwaitsTable(Fields(Strip(a)))
    requires q != "" && !IsSpace(q[0]) && Strip(q + tail) == q + Strip(tail)
    ensures ParseStatement(a + (q + tail)).target == NormalizeTable(FirstToken(q + Strip(tail)))
  {
    var more := StatementFields(a, q, tail);
    NextTokenIsTheTarget(Fields(Strip(a)), [FirstToken(q + Strip(tail))] + more);
  }

  /** A quoted table behind the keyword of any SELECT, INSERT, UPDATE or DELETE is what the parse
      reports if and only if it has no whitespace, dot or clause character and its backticks pair,
      whatever stands before and behind it. */
  lemma TableIsReadBackExactly(a: string, table: string, tail: string)
    requires EndsInSpace(a) && EndsOutside(a) && AwaitsTable(Fields(Strip(a))) && EndsToken(tail)
    ensures ParseStatement(a + (Quoted(table) + tail)).target == Target("", table) <==> ReadableTable(table)
  {
    QuotedIsCopied(table, '\"', tail);
    StatementTarget(a, Quoted(table), tail);
    TailStaysATail(tail);
    BareTokenExactly(table, Strip(tail));
  }

  lemma QualifiedParts(ks: string, table: string, z: string)
    ensures Qualified(ks, table) + z == Quoted(ks) + (['.'] + (Quoted(table) + z))
  {
  }

  lemma QualifiedIsCopied(ks: string, table: string, tail: string)
    ensures Strip(Qualified(ks, table) + tail) == Qualified(ks, table) + Strip(tail)
  {
    QualifiedParts(ks, table, tail);
    QuotedIsCopied(ks, '\"', ['.'] + (Quoted(table) + tail));
    PlainCharIsCopied('.', Quoted(table) + tail);
    QuotedIsCopied(table, '\"', tail);
    QualifiedParts(ks, table, Strip(tail));
  }

  /** The same with a quoted keyspace before it, which may hold dots. */
  lemma QualifiedIsReadBackExactly(a: string, ks: string, table: string, tail: string)
    requires EndsInSpace(a) && EndsOutside(a) && AwaitsTable(Fields(Strip(a))) && EndsToken(tail)
    ensures ParseStatement(a + (Qualified(ks, table) + tail)).target == Target(ks, table)
       <==> ReadableKeyspace(ks) && ReadableTable(table)
  {
    QualifiedIsCopied(ks, table, tail);
    StatementTarget(a, Qualified(ks, table), tail);
    TailStaysATail(tail);
    QualifiedTokenExactly(ks, table, Strip(tail));
  }
}
