/**
 Both printers write the same tokens.  `FastWriter` writes a value's tokens with no whitespace,
 `StyledWriter` the same tokens with whitespace between them, whatever layout it picks.
 */
module JsonSpelling {
  import opened JsonValue
  import opened JsonText
  import opened JsonWriter

  lemma {:induction false} FastSpells(fmt: RealFormat, yaml: bool, v: Value)
    requires VisibleFormat(fmt)
    ensures Spells(FastText(fmt, yaml, v), Tokens(fmt, v))
    decreases v
  {
    TokensVisible(fmt, v);
    match v
    case Array(xs) =>
      FastItemsSpell(fmt, yaml, xs);
      Bracket("[", FastItems(fmt, yaml, xs), "]", ItemTokens(fmt, xs));
    case Object(ms) =>
      FastMembersSpell(fmt, yaml, ms);
      Bracket("{", FastMembers(fmt, yaml, ms), "}", MemberTokens(fmt, ms));
    case _ => SpellsOne(Tokens(fmt, v)[0]);
  }

  lemma Bracket(open: string, middle: string, close: string, tokens: seq<string>)
    requires Visible(open) && Visible(close) && AllVisible([open] + tokens + [close]) && Spells(middle, tokens)
    ensures Spells(open + middle + close, [open] + tokens + [close])
  {
    assert forall i :: 0 <= i < |tokens| ==> tokens[i] == ([open] + tokens + [close])[i + 1];
    SpellsOne(open);
    SpellsOne(close);
    SpellsConcat(open, [open], middle, tokens);
    SpellsConcat(open + middle, [open] + tokens, close, [close]);
  }

  lemma SeparatorSpells(first: bool)
    ensures Spells(if first then "" else ",", Separator(first)) && AllVisible(Separator(first))
  {
    if first { SpacesSpellNothing(""); } else { SpellsOne(","); }
  }

  lemma {:induction false} FastItemsSpell(fmt: RealFormat, yaml: bool, xs: seq<Value>)
    requires VisibleFormat(fmt)
    ensures Spells(FastItems(fmt, yaml, xs), ItemTokens(fmt, xs))
    decreases xs
  {
    if xs != [] {
      var front, last := xs[..|xs| - 1], xs[|xs| - 1];
      FastItemsSpell(fmt, yaml, front);
      FastSpells(fmt, yaml, last);
      ItemTokensVisible(fmt, front);
      SeparatorSpells(front == []);
      SpellsConcat(if front == [] then "" else ",", Separator(front == []), FastText(fmt, yaml, last), Tokens(fmt, last));
      SpellsConcat(FastItems(fmt, yaml, front), ItemTokens(fmt, front),
                   FastItem(fmt, yaml, last, front == []), Separator(front == []) + Tokens(fmt, last));
      ItemTokensLast(fmt, xs);
    }
  }

  lemma ColonSpells(colon: string)
    requires colon in {":", ": ", " : "}
    ensures Spells(colon, [":"])
  {
    assert [":"][1..] == [];
    if colon == " : " { assert SkipSpaces(colon) == colon[1..]; }
    assert SkipSpaces(SkipSpaces(colon)[1..]) == [];
  }

  lemma MemberSpells(fmt: RealFormat, name: string, colon: string, text: string, v: Value)
    requires VisibleFormat(fmt) && Spells(text, Tokens(fmt, v)) && colon in {":", ": ", " : "}
    ensures Spells(Quoted(name) + colon + text, MemberToken(fmt, Member(name, v)))
  {
    SpellsOne(Quoted(name));
    ColonSpells(colon);
    SpellsConcat(Quoted(name), [Quoted(name)], colon, [":"]);
    assert [Quoted(name)] + [":"] == [Quoted(name), ":"];
    SpellsConcat(Quoted(name) + colon, [Quoted(name), ":"], text, Tokens(fmt, v));
  }

  lemma FastMemberSpells(fmt: RealFormat, yaml: bool, m: Member, first: bool)
    requires VisibleFormat(fmt)
    ensures Spells(FastMember(fmt, yaml, m, first), Separator(first) + MemberToken(fmt, m))
    decreases m
  {
    var comma, text := if first then "" else ",", FastText(fmt, yaml, m.value);
    FastSpells(fmt, yaml, m.value);
    MemberSpells(fmt, m.name, Colon(yaml), text, m.value);
    SeparatorSpells(first);
    SpellsConcat(comma, Separator(first), Quoted(m.name) + Colon(yaml) + text, MemberToken(fmt, m));
  }

  lemma {:induction false} FastMembersSpell(fmt: RealFormat, yaml: bool, ms: seq<Member>)
    requires VisibleFormat(fmt)
    ensures Spells(FastMembers(fmt, yaml, ms), MemberTokens(fmt, ms))
    decreases ms
  {
    if ms != [] {
      var front, last := ms[..|ms| - 1], ms[|ms| - 1];
      FastMembersSpell(fmt, yaml, front);
      FastMemberSpells(fmt, yaml, last, front == []);
      MemberTokensVisible(fmt, front);
      SpellsConcat(FastMembers(fmt, yaml, front), MemberTokens(fmt, front),
                   FastMember(fmt, yaml, last, front == []), Separator(front == []) + MemberToken(fmt, last));
      MemberTokensLast(fmt, ms);
    }
  }

  // ---------- The styled printer ----------

  /** Printing continues a document: it adds text that spells the given tokens. */
  ghost predicate Continues(before: string, after: string, tokens: seq<string>) {
    before <= after && Spells(after[|before|..], tokens)
  }

  lemma ContinuesTwice(a: string, b: string, c: string, x: seq<string>, y: seq<string>)
    requires Continues(a, b, x) && Continues(b, c, y) && AllVisible(x)
    ensures Continues(a, c, x + y)
  {
    assert c[|a|..] == b[|a|..] + c[|b|..];
    SpellsConcat(b[|a|..], x, c[|b|..], y);
  }

  lemma ContinuesText(before: string, text: string, tokens: seq<string>)
    requires Spells(text, tokens)
    ensures Continues(before, before + text, tokens)
  {
    assert (before + text)[|before|..] == text;
  }

  lemma {:induction false} SpacesSpellNothing(s: string)
    requires forall i :: 0 <= i < |s| ==> IsSpace(s[i])
    ensures Spells(s, [])
  {
    if s != [] {
      assert forall i :: 0 <= i < |s| - 1 ==> s[1..][i] == s[i + 1];
      SpacesSpellNothing(s[1..]);
    }
  }

  ghost predicate Spaces(s: string) {
    forall i :: 0 <= i < |s| ==> s[i] == ' '
  }

  lemma IndentContinues(document: string, indent: string)
    requires Spaces(indent)
    ensures Continues(document, WithIndent(document, indent), [])
  {
    SpacesSpellNothing(indent);
    SpacesSpellNothing("\n" + indent);
    SpacesSpellNothing("");
    var after := WithIndent(document, indent);
    if after == document {
      assert after[|document|..] == "";
    } else if after == document + "\n" + indent {
      assert after[|document|..] == "\n" + indent;
    } else {
      assert after[|document|..] == indent;
    }
  }

  lemma FlatSpells(fmt: RealFormat, v: Value)
    requires VisibleFormat(fmt) && Flat(v)
    ensures Spells(FlatText(fmt, v), Tokens(fmt, v))
  {
    FastSpells(fmt, false, v);
    if v.Array? || v.Object? { assert FlatText(fmt, v) == FastText(fmt, false, v); }
  }

  lemma {:induction false} StyledSpells(fmt: RealFormat, document: string, indent: string, v: Value)
    requires VisibleFormat(fmt) && Spaces(indent)
    ensures Continues(document, StyledValue(fmt, document, indent, v), Tokens(fmt, v))
    decreases v
  {
    if Flat(v) {
      FlatSpells(fmt, v);
      ContinuesText(document, FlatText(fmt, v), Tokens(fmt, v));
    } else if v.Array? && !Multiline(fmt, v.items) {
      OneLineSpells(fmt, document, v.items);
    } else {
      var open := if v.Array? then "[" else "{";
      var start := WithIndent(document, indent) + open;
      IndentedToken(document, indent, open);
      if v.Array? {
        StyledItemsSpell(fmt, start, indent + INDENT, v.items);
        ItemTokensVisible(fmt, v.items);
        CloseBracket(document, start, StyledItems(fmt, start, indent + INDENT, v.items), indent, open, "]", ItemTokens(fmt, v.items));
      } else {
        StyledMembersSpell(fmt, start, indent + INDENT, v.members);
        MemberTokensVisible(fmt, v.members);
        CloseBracket(document, start, StyledMembers(fmt, start, indent + INDENT, v.members), indent, open, "}", MemberTokens(fmt, v.members));
      }
    }
  }

  lemma IndentedToken(document: string, indent: string, token: string)
    requires Spaces(indent) && Visible(token)
    ensures Continues(document, WithIndent(document, indent) + token, [token])
  {
    IndentContinues(document, indent);
    SpellsOne(token);
    ContinuesText(WithIndent(document, indent), token, [token]);
    ContinuesTwice(document, WithIndent(document, indent), WithIndent(document, indent) + token, [], [token]);
    assert [] + [token] == [token];
  }

  lemma CloseBracket(document: string, start: string, end: string, indent: string, open: string, close: string, tokens: seq<string>)
    requires Spaces(indent) && Visible(open) && Visible(close) && AllVisible(tokens)
    requires Continues(document, start, [open]) && Continues(start, end, tokens)
    ensures Continues(document, WithIndent(end, indent) + close, [open] + tokens + [close])
  {
    ContinuesTwice(document, start, end, [open], tokens);
    IndentedToken(end, indent, close);
    ContinuesTwice(document, end, WithIndent(end, indent) + close, [open] + tokens, [close]);
  }

  lemma CommaSpaceSpells(first: bool)
    ensures Spells(if first then "" else ", ", Separator(first)) && AllVisible(Separator(first))
  {
    SeparatorSpells(first);
    if !first {
      assert [","][1..] == [];
      assert SkipSpaces(", "[1..]) == [];
    }
  }

  lemma {:induction false} JoinedSpells(fmt: RealFormat, xs: seq<Value>)
    requires VisibleFormat(fmt) && AllFlat(xs)
    ensures Spells(Joined(FlatTexts(fmt, xs)), ItemTokens(fmt, xs))
  {
    if xs != [] {
      var front, last := xs[..|xs| - 1], xs[|xs| - 1];
      var text, comma := FlatText(fmt, last), if front == [] then "" else ", ";
      JoinedSpells(fmt, front);
      FlatSpells(fmt, last);
      ItemTokensVisible(fmt, front);
      CommaSpaceSpells(front == []);
      SpellsConcat(comma, Separator(front == []), text, Tokens(fmt, last));
      SpellsConcat(Joined(FlatTexts(fmt, front)), ItemTokens(fmt, front), comma + text, Separator(front == []) + Tokens(fmt, last));
      ItemTokensLast(fmt, xs);
      assert Joined(FlatTexts(fmt, xs)) == Joined(FlatTexts(fmt, front)) + (comma + text) by {
        assert FlatTexts(fmt, xs)[..|xs| - 1] == FlatTexts(fmt, front);
      }
    }
  }

  lemma OneLineSpells(fmt: RealFormat, document: string, xs: seq<Value>)
    requires VisibleFormat(fmt) && AllFlat(xs)
    ensures Continues(document, document + "[ " + Joined(FlatTexts(fmt, xs)) + " ]", Tokens(fmt, Array(xs)))
  {
    var items := Joined(FlatTexts(fmt, xs));
    JoinedSpells(fmt, xs);
    ItemTokensVisible(fmt, xs);
    assert Spells("[ ", ["["]) by { assert ["["][1..] == []; assert SkipSpaces("[ "[1..]) == []; }
    assert Spells(" ]", ["]"]) by { assert ["]"][1..] == []; assert SkipSpaces(" ]") == "]"; assert SkipSpaces("]"[1..]) == []; }
    SpellsConcat("[ ", ["["], items, ItemTokens(fmt, xs));
    SpellsConcat("[ " + items, ["["] + ItemTokens(fmt, xs), " ]", ["]"]);
    ContinuesText(document, "[ " + items + " ]", Tokens(fmt, Array(xs)));
    assert document + "[ " + items + " ]" == document + ("[ " + items + " ]");
  }

  lemma {:induction false} StyledItemsSpell(fmt: RealFormat, document: string, indent: string, xs: seq<Value>)
    requires VisibleFormat(fmt) && Spaces(indent)
    ensures Continues(document, StyledItems(fmt, document, indent, xs), ItemTokens(fmt, xs))
    decreases xs
  {
    if xs == [] {
      SpacesSpellNothing("");
      assert document[|document|..] == "";
    } else {
      var front, last := xs[..|xs| - 1], xs[|xs| - 1];
      var d0 := StyledItems(fmt, document, indent, front);
      var d1 := WithIndent(d0 + (if front == [] then "" else ","), indent);
      var d2 := StyledValue(fmt, d1, indent, last);
      StyledItemsSpell(fmt, document, indent, front);
      assert Continues(d0, d2, Separator(front == []) + Tokens(fmt, last)) by {
        CommaContinues(d0, indent, front == []);
        StyledSpells(fmt, d1, indent, last);
        SeparatorSpells(front == []);
        ContinuesTwice(d0, d1, d2, Separator(front == []), Tokens(fmt, last));
      }
      ItemTokensVisible(fmt, front);
      ContinuesTwice(document, d0, d2, ItemTokens(fmt, front), Separator(front == []) + Tokens(fmt, last));
      ItemTokensLast(fmt, xs);
    }
  }

  lemma CommaContinues(document: string, indent: string, first: bool)
    requires Spaces(indent)
    ensures Continues(document, WithIndent(document + (if first then "" else ","), indent), Separator(first))
  {
    var comma, token := if first then "" else ",", Separator(first);
    SeparatorSpells(first);
    ContinuesText(document, comma, token);
    IndentContinues(document + comma, indent);
    ContinuesTwice(document, document + comma, WithIndent(document + comma, indent), token, []);
    assert token + [] == token;
  }

  lemma StyledMemberSpells(fmt: RealFormat, document: string, indent: string, m: Member)
    requires VisibleFormat(fmt) && Spaces(indent)
    ensures Continues(document, StyledValue(fmt, document + Quoted(m.name) + " : ", indent, m.value), MemberToken(fmt, m))
    decreases m
  {
    var d0 := document + Quoted(m.name);
    var d1 := d0 + " : ";
    var d2 := StyledValue(fmt, d1, indent, m.value);
    SpellsOne(Quoted(m.name));
    ContinuesText(document, Quoted(m.name), [Quoted(m.name)]);
    ColonSpells(" : ");
    ContinuesText(d0, " : ", [":"]);
    StyledSpells(fmt, d1, indent, m.value);
    ContinuesTwice(document, d0, d1, [Quoted(m.name)], [":"]);
    assert [Quoted(m.name)] + [":"] == [Quoted(m.name), ":"];
    ContinuesTwice(document, d1, d2, [Quoted(m.name), ":"], Tokens(fmt, m.value));
  }

  lemma {:induction false} StyledMembersSpell(fmt: RealFormat, document: string, indent: string, ms: seq<Member>)
    requires VisibleFormat(fmt) && Spaces(indent)
    ensures Continues(document, StyledMembers(fmt, document, indent, ms), MemberTokens(fmt, ms))
    decreases ms
  {
    if ms == [] {
      SpacesSpellNothing("");
      assert document[|document|..] == "";
    } else {
      var front, last := ms[..|ms| - 1], ms[|ms| - 1];
      var d0 := StyledMembers(fmt, document, indent, front);
      var d1 := WithIndent(d0 + (if front == [] then "" else ","), indent);
      var d2 := StyledValue(fmt, d1 + Quoted(last.name) + " : ", indent, last.value);
      StyledMembersSpell(fmt, document, indent, front);
      assert Continues(d0, d2, Separator(front == []) + MemberToken(fmt, last)) by {
        CommaContinues(d0, indent, front == []);
        StyledMemberSpells(fmt, d1, indent, last);
        SeparatorSpells(front == []);
        ContinuesTwice(d0, d1, d2, Separator(front == []), MemberToken(fmt, last));
      }
      MemberTokensVisible(fmt, front);
      ContinuesTwice(document, d0, d2, MemberTokens(fmt, front), Separator(front == []) + MemberToken(fmt, last));
      MemberTokensLast(fmt, ms);
    }
  }

  /** For every value, both printers' documents spell the same tokens. */
  lemma PrintersAgree(fmt: RealFormat, yaml: bool, v: Value)
    requires VisibleFormat(fmt)
    ensures Spells(FastText(fmt, yaml, v) + "\n", Tokens(fmt, v))
    ensures Spells(StyledValue(fmt, "", "", v) + "\n", Tokens(fmt, v))
  {
    FastSpells(fmt, yaml, v);
    StyledSpells(fmt, "", "", v);
    TokensVisible(fmt, v);
    SpacesSpellNothing("\n");
    var styled := StyledValue(fmt, "", "", v);
    assert styled[0..] == styled;
    SpellsConcat(FastText(fmt, yaml, v), Tokens(fmt, v), "\n", []);
    SpellsConcat(styled, Tokens(fmt, v), "\n", []);
    assert Tokens(fmt, v) + [] == Tokens(fmt, v);
  }
}
