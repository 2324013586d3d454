/**
 What may stand between the tokens of a document: blanks everywhere, and comments where the
 features allow them.
 */
module JsonTrivia {
  import opened JsonValue
  import opened JsonText
  import opened JsonGrammar

  predicate AreBlanks(s: string) {
    forall i :: 0 <= i < |s| ==> s[i] in {' ', '\t', '\r', '\n'}
  }

  /** Blanks before a token make no difference, not even to where it is. */
  lemma {:induction false} BlanksAreSkipped(blanks: string, s: string)
    requires AreBlanks(blanks)
    ensures SkipSpaces(blanks + s) == SkipSpaces(s) && ReadToken(blanks + s) == ReadToken(s)
  {
    if blanks == [] {
      assert blanks + s == s;
    } else {
      assert AreBlanks(blanks[1..]) by { assert forall i :: 0 <= i < |blanks| - 1 ==> blanks[1..][i] == blanks[i + 1]; }
      assert (blanks + s)[1..] == blanks[1..] + s;
      BlanksAreSkipped(blanks[1..], s);
    }
  }

  /** The text ends with the first comment end in it. */
  predicate ClosesComment(text: string) {
    && |text| >= 2 && text[|text| - 2] == '*' && text[|text| - 1] == '/'
    && forall i :: 0 <= i < |text| - 2 ==> !(text[i] == '*' && text[i + 1] == '/')
  }

  /** The text is the rest of a line with its end. */
  predicate EndsLine(text: string) {
    && text != [] && text[|text| - 1] in {'\r', '\n'}
    && forall i :: 0 <= i < |text| - 1 ==> text[i] !in {'\r', '\n'}
  }

  predicate IsComment(c: string) {
    |c| >= 2 && c[0] == '/' && ((c[1] == '*' && ClosesComment(c[2..])) || (c[1] == '/' && EndsLine(c[2..])))
  }

  lemma {:induction false} ClosedCommentEnds(text: string, s: string)
    requires ClosesComment(text)
    ensures CStyleComment(text + s) == (true, s)
  {
    var t := text + s;
    if |text| == 2 {
      assert t[2..] == s;
    } else {
      assert !(t[0] == '*' && t[1] == '/') && t[1..] == text[1..] + s;
      assert forall i :: 0 <= i < |text| - 1 ==> text[1..][i] == text[i + 1];
      ClosedCommentEnds(text[1..], s);
    }
  }

  lemma {:induction false} LineEnds(text: string, s: string)
    requires EndsLine(text)
    ensures CppStyleComment(text + s) == s
  {
    var t := text + s;
    if |text| == 1 {
      assert t[1..] == s;
    } else {
      assert t[1..] == text[1..] + s;
      assert forall i :: 0 <= i < |text| - 1 ==> text[1..][i] == text[i + 1];
      LineEnds(text[1..], s);
    }
  }

  /** A comment is one token, of which nothing is left. */
  lemma CommentIsToken(c: string, s: string)
    requires IsComment(c)
    ensures ReadToken(c + s) == (Token(CommentToken, c, |c + s|), s)
  {
    var t, body := c + s, c[2..];
    assert SkipSpaces(t) == t;
    assert t[1..][1..] == body + s && t[1..][0] == c[1];
    if c[1] == '*' { ClosedCommentEnds(body, s); } else { LineEnds(body, s); }
    assert t[..|t| - |s|] == c;
  }

  /** Where the features allow comments one before a value makes no difference; elsewhere it is an error. */
  lemma CommentBeforeValue(cfg: Config, c: string, s: string, before: Value)
    requires IsComment(c)
    ensures cfg.allowComments ==> ParseValue(cfg, c + s, before) == ParseValue(cfg, s, before)
    ensures !cfg.allowComments ==> !ParseValue(cfg, c + s, before).ok
  {
    CommentIsToken(c, s);
  }

  /** After an element of an array a comment makes no difference, whatever the features. */
  lemma CommentAfterItem(cfg: Config, c: string, s: string, items: seq<Value>)
    requires IsComment(c)
    ensures ParseItemEnd(cfg, c + s, items) == ParseItemEnd(cfg, s, items)
  {
    CommentIsToken(c, s);
  }

  /** Nor does it before the name of a member. */
  lemma CommentBeforeName(cfg: Config, c: string, s: string, last: string, members: seq<Member>)
    requires IsComment(c)
    ensures ParseMembers(cfg, c + s, last, members) == ParseMembers(cfg, s, last, members)
  {
    CommentIsToken(c, s);
  }

  /**
   Behind a member's value a comment does make a difference: without it only a comma or the closing
   brace may follow, but after it every token that does not close the object passes for the comma.
   */
  lemma CommentMakesComma(cfg: Config, c: string, s: string, name: string, ms: seq<Member>)
    requires IsComment(c) && ReadToken(s).0.kind !in {ObjectEnd, CommentToken}
    ensures ParseMemberEnd(cfg, c + s, name, ms) == ParseMembers(cfg, ReadToken(s).1, name, ms)
    ensures ReadToken(s).0.kind != ArraySeparator ==> !ParseMemberEnd(cfg, s, name, ms).ok
  {
    CommentIsToken(c, s);
  }
}
