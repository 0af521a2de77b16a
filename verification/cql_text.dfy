/** Reading a CQL statement: comment stripping, tokens, table targets (cassandra/attributes.go). */
module CqlText {

  predicate IsQuote(c: char) {
    c == '\'' || c == '\"' || c == '`'
  }

  /** strings.Fields' separators. */
  predicate IsSpace(c: char) {
    c == ' ' || c == '\t' || c == '\n' || c == '\r' || c == '\U{0B}' || c == '\U{0C}' || c == '\U{85}' || c == '\U{A0}'
    || c == '\U{1680}' || '\U{2000}' <= c <= '\U{200A}' || c == '\U{2028}' || c == '\U{2029}' || c == '\U{202F}'
    || c == '\U{205F}' || c == '\U{3000}'
  }

  // ---- Segments: what one turn of the scanner consumes

  /** The length of the quoted run s opens with, up to and including its closing quote. */
  function QuotedRun(s: string): (n: nat)
    requires s != "" && IsQuote(s[0])
    ensures 1 <= n <= |s|
  {
    1 + UntilQuote(s[1..], s[0])
  }

  function UntilQuote(s: string, q: char): (n: nat)
    ensures n <= |s|
  {
    if s == "" then 0 else if s[0] == q then 1 else 1 + UntilQuote(s[1..], q)
  }

  predicate OpensLineComment(s: string) {
    |s| >= 2 && ((s[0] == '-' && s[1] == '-') || (s[0] == '/' && s[1] == '/'))
  }

  predicate OpensBlockComment(s: string) {
    |s| >= 2 && s[0] == '/' && s[1] == '*'
  }

  predicate ClosesBlockComment(s: string) {
    |s| >= 2 && s[0] == '*' && s[1] == '/'
  }

  /** The index of the first newline, or |s| when there is none. */
  function NewlineIndex(s: string): (n: nat)
    ensures n <= |s|
  {
    if s == "" || s[0] == '\n' then 0 else 1 + NewlineIndex(s[1..])
  }

  /** The index of the first star and slash, or |s| when there is none. */
  function CloseIndex(s: string): (n: nat)
    ensures n <= |s| && (n < |s| ==> n + 2 <= |s| && s[n] == '*' && s[n + 1] == '/')
  {
    if s == "" || ClosesBlockComment(s) then 0 else 1 + CloseIndex(s[1..])
  }

  /** How much one turn of the scanner consumes, and what it leaves in the output. */
  datatype Segment = Segment(consumed: nat, left: string)

  function Scan(s: string): (g: Segment)
    requires s != ""
    ensures 1 <= g.consumed <= |s|
  {
    if IsQuote(s[0]) then Segment(QuotedRun(s), s[..QuotedRun(s)])
    else if OpensLineComment(s) then
      var nl := NewlineIndex(s);
      if nl == |s| then Segment(|s|, "") else Segment(nl + 1, " ")
    else if OpensBlockComment(s) then
      var end := CloseIndex(s);
      if end == |s| then Segment(|s|, "") else Segment(end + 2, " ")
    else Segment(1, [s[0]])
  }

  /** stripComments: quoted runs verbatim, a space for each comment, nothing after an
      unterminated one. */
  function Strip(s: string): string
    decreases |s|
  {
    if s == "" then "" else Scan(s).left + Strip(s[Scan(s).consumed..])
  }

  lemma UntilQuoteStops(s: string, q: char, i: nat)
    requires i <= |s| && (forall k :: 0 <= k < i ==> s[k] != q)
    ensures i < |s| && s[i] == q ==> UntilQuote(s, q) == i + 1
    ensures i == |s| ==> UntilQuote(s, q) == i
  {
    if i > 0 {
      UntilQuoteStops(s[1..], q, i - 1);
    }
  }

  /** The scanner's inner loop: copies a quoted run up to and including its closing quote. */
  method CopyQuoted(stmt: string, start: nat) returns (copied: string, i: nat)
    requires start < |stmt| && IsQuote(stmt[start])
    ensures i == start + QuotedRun(stmt[start..]) && copied == stmt[start..i]
  {
    var quote := stmt[start];
    ghost var rest := stmt[start..][1..];
    copied := [quote];
    i := start + 1;
    while i < |stmt|
      invariant start < i <= |stmt| && copied == stmt[start..i]
      invariant forall k :: 0 <= k < i - start - 1 ==> rest[k] != quote
      decreases |stmt| - i
    {
      copied := copied + [stmt[i]];
      if stmt[i] == quote {
        UntilQuoteStops(rest, quote, i - start - 1);
        i := i + 1;
        return;
      }
      i := i + 1;
    }
    UntilQuoteStops(rest, quote, i - start - 1);
  }

  /** One turn of the scanner, from position i. */
  lemma Turn(stmt: string, i: nat)
    requires i < |stmt|
    ensures var g := Scan(stmt[i..]);
            i + g.consumed <= |stmt| && Strip(stmt[i..]) == g.left + Strip(stmt[i + g.consumed..])
  {
    assert stmt[i..][Scan(stmt[i..]).consumed..] == stmt[i + Scan(stmt[i..]).consumed..];
  }

  /** One turn as the code takes it. */
  method ScanOnce(stmt: string, i: nat) returns (left: string, next: nat)
    requires i < |stmt|
    ensures i < next <= |stmt| && Scan(stmt[i..]) == Segment(next - i, left)
  {
    var rest := stmt[i..];
    if IsQuote(stmt[i]) {
      left, next := CopyQuoted(stmt, i);
      assert left == rest[..next - i];
    } else if OpensLineComment(rest) {
      var nl := NewlineIndex(rest);
      if nl == |rest| {
        return "", |stmt|;
      }
      left, next := " ", i + nl + 1;
    } else if OpensBlockComment(rest) {
      var end := CloseIndex(rest);
      if end == |rest| {
        return "", |stmt|;
      }
      left, next := " ", i + end + 2;
    } else {
      left, next := [stmt[i]], i + 1;
    }
  }

  lemma TurnMovesOn(whole: string, b: string, stmt: string, i: nat, left: string, next: nat)
    requires i < next <= |stmt| && Scan(stmt[i..]) == Segment(next - i, left)
    requires whole == b + Strip(stmt[i..])
    ensures whole == (b + left) + Strip(stmt[next..])
  {
    Turn(stmt, i);
    Associates(b, left, Strip(stmt[next..]));
  }

  /** The scanner's loop. */
  method StripComments(stmt: string) returns (b: string)
    ensures b == Strip(stmt)
  {
    b := "";
    var i := 0;
    ghost var whole := Strip(stmt);
    assert stmt[0..] == stmt;
    while i < |stmt|
      invariant i <= |stmt| && whole == b + Strip(stmt[i..])
      decreases |stmt| - i
    {
      var left, next := ScanOnce(stmt, i);
      TurnMovesOn(whole, b, stmt, i, left, next);
      b := b + left;
      i := next;
    }
    assert stmt[i..] == "";
  }

  // ---- Idempotence

  lemma {:induction false} StripStartsAlike(s: string)
    ensures Strip(s) != "" ==> s != "" && (Strip(s)[0] == s[0] || Strip(s)[0] == ' ')
  {
    if s != "" && Scan(s).left == "" {
      assert s[Scan(s).consumed..] == "";
    }
  }

  /** A quoted run that ends in its own quote. */
  predicate QuoteCloses(s: string)
    requires s != "" && IsQuote(s[0])
  {
    QuotedRun(s) >= 2 && s[QuotedRun(s) - 1] == s[0]
  }

  lemma {:induction false} UntilQuoteOfPrefix(s: string, q: char, x: string)
    requires UntilQuote(s, q) > 0 && s[UntilQuote(s, q) - 1] == q
    ensures UntilQuote(s[..UntilQuote(s, q)] + x, q) == UntilQuote(s, q)
    ensures UntilQuote(s + x, q) == UntilQuote(s, q)
  {
    var n := UntilQuote(s, q);
    assert (s + x)[1..] == s[1..] + x;
    if s[0] != q {
      UntilQuoteOfPrefix(s[1..], q, x);
      assert (s[..n] + x)[1..] == s[1..][..n - 1] + x;
    }
  }

  lemma {:induction false} UnclosedRunIsWhole(s: string, q: char)
    requires UntilQuote(s, q) == 0 || s[UntilQuote(s, q) - 1] != q
    ensures UntilQuote(s, q) == |s|
  {
    if s != "" && s[0] != q {
      if |s| > 1 {
        assert UntilQuote(s, q) == 1 + UntilQuote(s[1..], q);
        UnclosedRunIsWhole(s[1..], q);
      }
    }
  }

  /** A closed quoted run is scanned the same whatever follows. */
  lemma ClosedRunScansAlone(s: string, x: string)
    requires s != "" && IsQuote(s[0]) && QuoteCloses(s)
    ensures Scan(s[..QuotedRun(s)] + x) == Scan(s)
    ensures Scan(s + x) == Scan(s)
  {
    var n := QuotedRun(s);
    UntilQuoteOfPrefix(s[1..], s[0], x);
    assert (s[..n] + x)[1..] == s[1..][..n - 1] + x && (s + x)[1..] == s[1..] + x;
    assert (s[..n] + x)[..n] == s[..n] && (s + x)[..n] == s[..n];
  }

  /** Stripping what is already stripped changes nothing. */
  lemma {:induction false} StripIsIdempotent(s: string)
    ensures Strip(Strip(s)) == Strip(s)
    decreases |s|
  {
    if s != "" {
      var g := Scan(s);
      var rest := Strip(s[g.consumed..]);
      StripIsIdempotent(s[g.consumed..]);
      StripStartsAlike(s[g.consumed..]);
      var out := g.left + rest;
      if IsQuote(s[0]) {
        if QuoteCloses(s) {
          ClosedRunScansAlone(s, rest);
        } else {
          UnclosedRunIsWhole(s[1..], s[0]);
          assert out == s;
        }
      } else if OpensLineComment(s) || OpensBlockComment(s) {
        if g.left == " " {
          assert Scan(out) == Segment(1, " ");
        }
      } else {
        assert !OpensLineComment(out) && !OpensBlockComment(out);
        assert Scan(out) == Segment(1, [s[0]]);
      }
      if out != "" {
        assert out[Scan(out).consumed..] == rest;
      }
    }
  }

  // ---- Splitting a statement outside quotes and comments

  /** Every quoted run and comment s opens, it also closes. */
  predicate EndsOutside(s: string)
    decreases |s|
  {
    s == "" || (Closes(s) && EndsOutside(s[Scan(s).consumed..]))
  }

  /** The segment s opens with is complete. */
  predicate Closes(s: string)
    requires s != ""
  {
    if IsQuote(s[0]) then QuoteCloses(s)
    else if OpensLineComment(s) then NewlineIndex(s) < |s|
    else if OpensBlockComment(s) then CloseIndex(s) < |s|
    else true
  }

  predicate EndsInSpace(s: string) {
    s != "" && IsSpace(s[|s| - 1])
  }

  lemma {:induction false} NewlineIndexExtends(s: string, x: string)
    requires NewlineIndex(s) < |s|
    ensures NewlineIndex(s + x) == NewlineIndex(s)
  {
    assert (s + x)[1..] == s[1..] + x;
    if s[0] != '\n' {
      NewlineIndexExtends(s[1..], x);
    }
  }

  lemma {:induction false} CloseIndexExtends(s: string, x: string)
    requires CloseIndex(s) < |s|
    ensures CloseIndex(s + x) == CloseIndex(s)
  {
    assert (s + x)[1..] == s[1..] + x;
    if !ClosesBlockComment(s) {
      CloseIndexExtends(s[1..], x);
    }
  }

  lemma SpaceOpensNothing(s: string)
    requires s != "" && IsSpace(s[0])
    ensures Scan(s) == Segment(1, [s[0]])
  {
  }

  /** A complete segment is scanned the same whatever follows. */
  lemma CompleteSegmentScansAlone(s: string, x: string)
    requires EndsInSpace(s) && Closes(s)
    ensures Scan(s + x) == Scan(s)
  {
    if |s| == 1 {
      SpaceOpensNothing(s);
      SpaceOpensNothing(s + x);
    } else {
      assert (s + x)[0] == s[0] && (s + x)[1] == s[1];
      if IsQuote(s[0]) {
        ClosedRunScansAlone(s, x);
      } else if OpensLineComment(s) {
        NewlineIndexExtends(s, x);
      } else if OpensBlockComment(s) {
        CloseIndexExtends(s, x);
      }
    }
  }

  lemma LastSegmentLeavesSpace(a: string)
    requires EndsInSpace(a) && Closes(a) && Scan(a).consumed == |a|
    ensures EndsInSpace(Scan(a).left)
  {
  }

  /** The first segment of a, and the rest of it, do not depend on what follows a. */
  lemma FirstSegmentSplits(a: string, x: string) returns (n: nat, left: string)
    requires EndsInSpace(a) && EndsOutside(a)
    ensures 1 <= n <= |a|
    ensures Strip(a) == left + Strip(a[n..]) && Strip(a + x) == left + Strip(a[n..] + x)
    ensures n < |a| ==> EndsInSpace(a[n..]) && EndsOutside(a[n..])
  {
    n, left := Scan(a).consumed, Scan(a).left;
    CompleteSegmentScansAlone(a, x);
    assert (a + x)[n..] == a[n..] + x;
  }

  ghost predicate Splits(a: string, x: string) {
    Strip(a + x) == Strip(a) + Strip(x)
  }

  lemma RestSplits(a: string, x: string, n: nat, left: string)
    requires n <= |a| && Splits(a[n..], x)
    requires Strip(a) == left + Strip(a[n..]) && Strip(a + x) == left + Strip(a[n..] + x)
    ensures Splits(a, x)
  {
    Associates(left, Strip(a[n..]), Strip(x));
  }

  /** Outside quotes and comments, after whitespace, stripping splits. */
  lemma {:induction false} StripSplits(a: string, x: string)
    requires EndsInSpace(a) && EndsOutside(a)
    ensures Splits(a, x)
    decreases |a|
  {
    var n, left := FirstSegmentSplits(a, x);
    if n < |a| {
      StripSplits(a[n..], x);
    } else {
      NothingLeft(a, x);
    }
    RestSplits(a, x, n, left);
  }

  lemma Associates(p: string, q: string, r: string)
    ensures p + (q + r) == (p + q) + r
  {
  }

  lemma NothingLeft(a: string, x: string)
    ensures a[|a|..] == "" && a[|a|..] + x == x
  {
  }

  /** What stripping leaves of such a part still ends in whitespace. */
  lemma {:induction false} StripEndsInSpace(a: string)
    requires EndsInSpace(a) && EndsOutside(a)
    ensures EndsInSpace(Strip(a))
    decreases |a|
  {
    var n := Scan(a).consumed;
    if n == |a| {
      assert a[n..] == "";
      LastSegmentLeavesSpace(a);
    } else {
      StripEndsInSpace(a[n..]);
    }
  }

  /** The body of a block comment: it neither holds a closing nor makes one with the opening's star. */
  ghost predicate IsCommentBody(body: string) {
    (body == "" || body[0] != '/') && HoldsNoClose(body)
  }

  ghost predicate HoldsNoClose(body: string) {
    forall k :: 0 < k < |body| ==> !(body[k - 1] == '*' && body[k] == '/')
  }

  lemma {:induction false} CloseIndexAfterBody(body: string, b: string)
    requires HoldsNoClose(body)
    ensures CloseIndex(body + "*/" + b) == |body|
  {
    var s := body + "*/" + b;
    if body != "" {
      assert s[1..] == body[1..] + "*/" + b;
      forall k | 0 < k < |body[1..]|
        ensures !(body[1..][k - 1] == '*' && body[1..][k] == '/')
      {
        assert body[1..][k] == body[k + 1];
      }
      CloseIndexAfterBody(body[1..], b);
      assert s[1] == if |body| >= 2 then body[1] else '*';
    }
  }

  lemma CloseIndexOfComment(body: string, b: string)
    requires IsCommentBody(body)
    ensures CloseIndex("/*" + body + "*/" + b) == |body| + 2
  {
    var t := body + "*/" + b;
    var s := "/*" + body + "*/" + b;
    assert s[1..][1..] == t && t[0] == if body == "" then '*' else body[0];
    CloseIndexAfterBody(body, b);
    assert s[0] == '/' && s[1..][0] == '*' && s[1..][1] == t[0];
    assert CloseIndex(s[1..]) == 1 + CloseIndex(t);
  }

  /** A block comment leaves one space, whatever is in it. */
  lemma StripBlockComment(body: string, b: string)
    requires IsCommentBody(body)
    ensures Strip("/*" + body + "*/" + b) == " " + Strip(b)
  {
    var s := "/*" + body + "*/" + b;
    CloseIndexOfComment(body, b);
    assert s[0] == '/' && s[1] == '*';
    assert Scan(s) == Segment(|body| + 4, " ");
    Turn(s, 0);
    assert s[0..] == s && s[|body| + 4..] == b;
  }

  // ---- Tokens

  function TokenLen(s: string): (n: nat)
    ensures n <= |s|
  {
    if s == "" || IsSpace(s[0]) then 0 else 1 + TokenLen(s[1..])
  }

  /** strings.Fields. */
  function Fields(s: string): seq<string>
    decreases |s|
  {
    if s == "" then []
    else if IsSpace(s[0]) then Fields(s[1..])
    else [s[..TokenLen(s)]] + Fields(s[TokenLen(s)..])
  }

  lemma {:induction false} TokenLenOfPrefix(x: string, y: string)
    requires EndsInSpace(x)
    ensures TokenLen(x + y) == TokenLen(x) < |x|
  {
    assert (x + y)[1..] == x[1..] + y;
    if !IsSpace(x[0]) {
      TokenLenOfPrefix(x[1..], y);
    }
  }

  lemma FieldsOfSpace(s: string, rest: string)
    requires s != "" && IsSpace(s[0]) && rest == s[1..]
    ensures Fields(s) == Fields(rest)
  {
  }

  lemma FieldsOfToken(s: string, token: string, rest: string)
    requires s != "" && !IsSpace(s[0]) && token == s[..TokenLen(s)] && rest == s[TokenLen(s)..]
    ensures Fields(s) == [token] + Fields(rest)
  {
  }

  lemma {:induction false} FieldsSplit(x: string, y: string)
    requires EndsInSpace(x)
    ensures Fields(x + y) == Fields(x) + Fields(y)
    decreases |x|
  {
    if IsSpace(x[0]) {
      var rest := x[1..];
      assert (x + y)[1..] == rest + y;
      FieldsOfSpace(x + y, rest + y);
      FieldsOfSpace(x, rest);
      if rest == "" {
        assert rest + y == y;
      } else {
        FieldsSplit(rest, y);
      }
    } else {
      TokenLenOfPrefix(x, y);
      var token, rest := x[..TokenLen(x)], x[TokenLen(x)..];
      assert (x + y)[..TokenLen(x)] == token && (x + y)[TokenLen(x)..] == rest + y;
      FieldsOfToken(x + y, token, rest + y);
      FieldsOfToken(x, token, rest);
      FieldsSplit(rest, y);
      assert [token] + (Fields(rest) + Fields(y)) == [token] + Fields(rest) + Fields(y);
    }
  }

  function NonSpaces(s: string): string {
    if s == "" then "" else (if IsSpace(s[0]) then "" else [s[0]]) + NonSpaces(s[1..])
  }

  function Joined(fields: seq<string>): string {
    if fields == [] then "" else fields[0] + Joined(fields[1..])
  }

  lemma {:induction false} TokenHasNoSpaces(s: string)
    ensures forall i :: 0 <= i < TokenLen(s) ==> !IsSpace(s[i])
    ensures TokenLen(s) < |s| ==> IsSpace(s[TokenLen(s)])
    ensures NonSpaces(s) == s[..TokenLen(s)] + NonSpaces(s[TokenLen(s)..])
  {
    if s != "" && !IsSpace(s[0]) {
      TokenHasNoSpaces(s[1..]);
      var n := TokenLen(s[1..]);
      assert s[1..][n..] == s[n + 1..] && [s[0]] + s[1..][..n] == s[..n + 1];
    }
  }

  /** The tokens are nonempty, hold no whitespace, and together hold everything else. */
  lemma {:induction false} FieldsAreTheTokens(s: string)
    ensures forall f :: f in Fields(s) ==> f != "" && forall c :: c in f ==> !IsSpace(c)
    ensures Joined(Fields(s)) == NonSpaces(s)
    decreases |s|
  {
    if s != "" {
      if IsSpace(s[0]) {
        FieldsAreTheTokens(s[1..]);
      } else {
        TokenHasNoSpaces(s);
        FieldsAreTheTokens(s[TokenLen(s)..]);
        assert Fields(s)[1..] == Fields(s[TokenLen(s)..]);
      }
    }
  }

  /** A comment at the start, or after whitespace outside quotes and comments, does not
      change the tokens. */
  lemma CommentsDoNotChangeTokens(a: string, body: string, b: string)
    requires a == "" || (EndsInSpace(a) && EndsOutside(a))
    requires IsCommentBody(body)
    ensures Fields(Strip(a + ("/*" + body + "*/" + b))) == Fields(Strip(a + b))
  {
    var c := "/*" + body + "*/" + b;
    StripBlockComment(body, b);
    FieldsSplit(" ", Strip(b));
    assert Fields(" ") == [];
    if a == "" {
      assert a + c == c && a + b == b;
    } else {
      StripSplits(a, c);
      StripSplits(a, b);
      StripEndsInSpace(a);
      FieldsSplit(Strip(a), Strip(b));
      FieldsSplit(Strip(a), " " + Strip(b));
    }
  }

  /** Behind an opening and a slash the scanner is already past the comment: it reads the opening's
      star and that slash as the end, and what follows as text. */
  lemma SlashAfterOpeningClosesTheComment(rest: string)
    ensures Strip("/*/" + rest) == " " + Strip(rest)
  {
    var s := "/*/" + rest;
    assert s[0] == '/' && s[1] == '*' && s[2] == '/';
    assert s[3..] == rest && s[0..] == s && s[1..][0] == '*' && s[1..][1] == '/';
    assert CloseIndex(s[1..]) == 0;
    assert Scan(s) == Segment(3, " ");
    Turn(s, 0);
  }

  lemma {:induction false} CloseIndexAtMost(s: string, i: nat)
    requires i + 1 < |s| && s[i] == '*' && s[i + 1] == '/'
    ensures CloseIndex(s) <= i
  {
    if i > 0 {
      CloseIndexAtMost(s[1..], i - 1);
    }
  }

  lemma {:induction false} NoNewlineBehind(x: string)
    requires NewlineIndex(x) == |x|
    ensures NewlineIndex(x + "x") == |x| + 1
  {
    if x == "" {
      assert "x"[1..] == "";
    } else {
      assert (x + "x")[1..] == x[1..] + "x";
      NoNewlineBehind(x[1..]);
    }
  }

  /** Text ending in a closing leaves something behind, unless it opens a line comment that runs on. */
  lemma ClosingShows(x: string)
    requires |x| >= 2 && x[|x| - 2] == '*' && x[|x| - 1] == '/'
    requires OpensLineComment(x) ==> NewlineIndex(x) < |x|
    ensures Strip(x) != ""
  {
    CloseIndexAtMost(x, |x| - 2);
    assert Scan(x).left != "";
  }

  lemma RunningLineCommentSwallows(x: string)
    requires OpensLineComment(x) && NewlineIndex(x) == |x|
    ensures Strip(x + "x") == "" && Strip("x") == "x"
  {
    NoNewlineBehind(x);
    var s := x + "x";
    assert OpensLineComment(s) && Scan(s) == Segment(|s|, "");
    assert s[|s|..] == "" && "x"[1..] == "";
  }

  lemma SlashBodyIsSeen(body: string) returns (b: string)
    requires body != "" && body[0] == '/'
    ensures Strip("/*" + body + "*/" + b) != " " + Strip(b)
  {
    var x := body[1..] + "*/";
    b := if OpensLineComment(x) && NewlineIndex(x) == |x| then "x" else "";
    assert "/*" + body + "*/" + b == "/*/" + (x + b);
    SlashAfterOpeningClosesTheComment(x + b);
    if b == "" {
      assert x + b == x;
      ClosingShows(x);
    } else {
      RunningLineCommentSwallows(x);
    }
  }

  /** A comment whose body holds no closing leaves one space and nothing else, whatever follows it,
      if and only if the body does not start with a slash. */
  lemma CommentLeavesOneSpaceExactly(body: string)
    requires HoldsNoClose(body)
    ensures (forall b :: Strip("/*" + body + "*/" + b) == " " + Strip(b)) <==> body == "" || body[0] != '/'
  {
    if body == "" || body[0] != '/' {
      forall b ensures Strip("/*" + body + "*/" + b) == " " + Strip(b) {
        StripBlockComment(body, b);
      }
    } else {
      var b := SlashBodyIsSeen(body);
    }
  }
}
