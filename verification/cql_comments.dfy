/**
 * Line comments, comments that never end, and what separates tokens
 * (cassandra/attributes.go:48-55, 79-117).
 */
module CqlComments {
  import opened CqlText
  import opened CqlTargets

  // ---- Line comments

  lemma {:induction false} NewlineIndexAfter(body: string, b: string)
    requires '\n' !in body
    ensures NewlineIndex(body) == |body| && NewlineIndex(body + "\n" + b) == |body|
  {
    var s := body + "\n" + b;
    if body != "" {
      assert body[0] in body && s[1..] == body[1..] + "\n" + b && s[0] == body[0];
      NewlineIndexAfter(body[1..], b);
    } else {
      assert s[0] == '\n';
    }
  }

  predicate IsLineMarker(marker: string) {
    marker == "--" || marker == "//"
  }

  lemma MarkedLine(marker: string, body: string, b: string)
    requires IsLineMarker(marker) && '\n' !in body
    ensures var s := marker + body + "\n" + b; OpensLineComment(s) && NewlineIndex(s) == |body| + 2 < |s|
    ensures var s := marker + body; OpensLineComment(s) && NewlineIndex(s) == |s|
  {
    assert '\n' !in marker + body;
    NewlineIndexAfter(marker + body, b);
    assert marker[0] == (marker + body + "\n" + b)[0] && marker[1] == (marker + body + "\n" + b)[1];
    assert marker[0] == (marker + body)[0] && marker[1] == (marker + body)[1];
  }

  /** A comment to the end of the line leaves one space, in either spelling and whatever is in it. */
  lemma LineCommentLeavesASpace(marker: string, body: string, b: string)
    requires IsLineMarker(marker) && '\n' !in body
    ensures Strip(marker + body + "\n" + b) == " " + Strip(b)
  {
    var s := marker + body + "\n" + b;
    MarkedLine(marker, body, b);
    assert Scan(s) == Segment(|body| + 3, " ");
    Turn(s, 0);
    assert s[0..] == s && s[|body| + 3..] == b;
  }

  // ---- Comments that never end

  lemma {:induction false} NoCloseBehind(body: string)
    requires HoldsNoClose(body)
    ensures CloseIndex(body) == |body|
  {
    if body != "" {
      assert forall k :: 0 < k < |body[1..]| ==> body[1..][k - 1] == body[k] && body[1..][k] == body[k + 1];
      NoCloseBehind(body[1..]);
    }
  }

  lemma UnendedBlock(body: string)
    requires IsCommentBody(body)
    ensures Strip("/*" + body) == ""
  {
    var s := "/*" + body;
    assert s[0] == '/' && s[1] == '*' && s[1..] == "*" + body && s[1..][1..] == body;
    NoCloseBehind(body);
    assert !ClosesBlockComment(s) && !ClosesBlockComment(s[1..]);
    assert CloseIndex(s[1..]) == 1 + CloseIndex(body) && CloseIndex(s) == |s|;
    assert Scan(s) == Segment(|s|, "") && s[|s|..] == "";
  }

  /** A comment without an end: a block that is not closed, or a last line. */
  ghost predicate NeverEnds(comment: string) {
    || (|comment| >= 2 && IsLineMarker(comment[..2]) && '\n' !in comment)
    || (|comment| >= 2 && comment[..2] == "/*" && IsCommentBody(comment[2..]))
  }

  /** It leaves nothing of itself and nothing behind it. */
  lemma UnendedCommentIsNothing(comment: string)
    requires NeverEnds(comment)
    ensures Strip(comment) == ""
  {
    assert comment == comment[..2] + comment[2..];
    if IsLineMarker(comment[..2]) && '\n' !in comment {
      MarkedLine(comment[..2], comment[2..], "");
      assert Scan(comment) == Segment(|comment|, "") && comment[|comment|..] == "";
    } else {
      UnendedBlock(comment[2..]);
    }
  }

  // ---- Neither changes what a statement addresses

  lemma BehindSpace(a: string, c: string, d: string)
    requires a == "" || (EndsInSpace(a) && EndsOutside(a))
    requires Fields(Strip(c)) == Fields(Strip(d))
    ensures Fields(Strip(a + c)) == Fields(Strip(a + d))
  {
    if a == "" {
      assert a + c == c && a + d == d;
    } else {
      StripSplits(a, c);
      StripSplits(a, d);
      StripEndsInSpace(a);
      FieldsSplit(Strip(a), Strip(c));
      FieldsSplit(Strip(a), Strip(d));
    }
  }

  /** A line comment at the start, or after whitespace outside quotes and comments, never changes the
      operation, keyspace or table. */
  lemma LineCommentsDoNotChangeTheParse(a: string, marker: string, body: string, b: string)
    requires a == "" || (EndsInSpace(a) && EndsOutside(a))
    requires IsLineMarker(marker) && '\n' !in body
    ensures ParseStatement(a + (marker + body + "\n" + b)) == ParseStatement(a + b)
  {
    LineCommentLeavesASpace(marker, body, b);
    FieldsSplit(" ", Strip(b));
    assert Fields(" ") == [];
    BehindSpace(a, marker + body + "\n" + b, b);
  }

  /** Nor does one that never ends: what stands before it is all there is. */
  lemma UnendedCommentsEndTheStatement(a: string, comment: string)
    requires a == "" || (EndsInSpace(a) && EndsOutside(a))
    requires NeverEnds(comment)
    ensures ParseStatement(a + comment) == ParseStatement(a)
  {
    UnendedCommentIsNothing(comment);
    BehindSpace(a, comment, "");
    assert a + "" == a;
  }

  // ---- What separates tokens

  /** The characters of Unicode's White_Space property, by code point. */
  const WHITE_SPACE: set<int> :=
    {9, 10, 11, 12, 13, 32, 133, 160, 5760, 8192, 8193, 8194, 8195, 8196, 8197, 8198, 8199, 8200, 8201, 8202,
     8232, 8233, 8239, 8287, 12288}

  lemma SpacesAreWhiteSpace(c: char)
    ensures IsSpace(c) <==> c as int in WHITE_SPACE
  {
  }

  lemma OneToken(s: string)
    requires s != "" && forall i :: 0 <= i < |s| ==> !IsSpace(s[i])
    ensures Fields(s) == [s]
  {
    AllOneToken(s);
    FieldsOfToken(s, s, "");
    assert s[..|s|] == s && s[|s|..] == "";
  }

  lemma {:induction false} AllOneToken(s: string)
    requires forall i :: 0 <= i < |s| ==> !IsSpace(s[i])
    ensures TokenLen(s) == |s|
  {
    if s != "" {
      AllOneToken(s[1..]);
    }
  }

  /** A character between two words separates them exactly when it is white space. */
  lemma WhiteSpaceSeparatesExactly(x: string, c: char, y: string)
    requires x != "" && y != ""
    requires (forall i :: 0 <= i < |x| ==> x[i] as int !in WHITE_SPACE) && (forall i :: 0 <= i < |y| ==> y[i] as int !in WHITE_SPACE)
    ensures Fields(x + [c] + y) == if c as int in WHITE_SPACE then [x, y] else [x + [c] + y]
  {
    SpacesAreWhiteSpace(c);
    forall i | 0 <= i < |x| ensures !IsSpace(x[i]) { SpacesAreWhiteSpace(x[i]); }
    forall i | 0 <= i < |y| ensures !IsSpace(y[i]) { SpacesAreWhiteSpace(y[i]); }
    if IsSpace(c) {
      FieldsSplit(x + [c], y);
      OneToken(y);
      SpaceEndsToken(x, c);
    } else {
      OneToken(x + [c] + y);
    }
  }

  lemma SpaceEndsToken(x: string, c: char)
    requires x != "" && IsSpace(c) && forall i :: 0 <= i < |x| ==> !IsSpace(x[i])
    ensures Fields(x + [c]) == [x]
  {
    TokenLenUpTo(x, c);
    assert (x + [c])[..|x|] == x && (x + [c])[|x|..] == [c];
    FieldsOfToken(x + [c], x, [c]);
    assert [c][1..] == "";
  }

  lemma {:induction false} TokenLenUpTo(x: string, c: char)
    requires IsSpace(c) && forall i :: 0 <= i < |x| ==> !IsSpace(x[i])
    ensures TokenLen(x + [c]) == |x|
  {
    if x != "" {
      assert (x + [c])[1..] == x[1..] + [c];
      TokenLenUpTo(x[1..], c);
    }
  }
}
