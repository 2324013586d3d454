/**
 What any document at all can be parsed into, and what becomes of it when it is printed and
 parsed again.
 */
module JsonParsed {
  import opened Options
  import opened JsonValue
  import opened JsonText
  import opened JsonGrammar
  import opened JsonRoundTrip
  import JsonWriter

  /** A value the library can hold: integers in range, strings ended by their NUL, sorted names. */
  predicate Sound(v: Value)
    decreases v
  {
    match v
    case Int(n) => -TWO_63 <= n < TWO_63
    case UInt(u) => 0 <= u < TWO_64
    case String(s) => NulFree(s)
    case Array(xs) => forall i :: 0 <= i < |xs| ==> Sound(xs[i])
    case Object(ms) => Sorted(ms) && forall i :: 0 <= i < |ms| ==> NulFree(ms[i].name) && Sound(ms[i].value)
    case _ => true
  }

  predicate NoReals(v: Value)
    decreases v
  {
    match v
    case Real(_) => false
    case Array(xs) => forall i :: 0 <= i < |xs| ==> NoReals(xs[i])
    case Object(ms) => forall i :: 0 <= i < |ms| ==> NoReals(ms[i].value)
    case _ => true
  }

  lemma {:induction false} WellFormedIsSoundWithoutReals(v: Value)
    ensures WellFormed(v) <==> Sound(v) && NoReals(v)
    decreases v
  {
    match v
    case Array(xs) =>
      forall i | 0 <= i < |xs| ensures WellFormed(xs[i]) <==> Sound(xs[i]) && NoReals(xs[i]) {
        WellFormedIsSoundWithoutReals(xs[i]);
      }
    case Object(ms) =>
      forall i | 0 <= i < |ms| ensures WellFormed(ms[i].value) <==> Sound(ms[i].value) && NoReals(ms[i].value) {
        WellFormedIsSoundWithoutReals(ms[i].value);
      }
    case _ =>
  }

  // ---------- Objects ----------

  predicate SoundMember(m: Member) {
    NulFree(m.name) && Sound(m.value)
  }

  predicate SoundMembers(ms: seq<Member>) {
    Sorted(ms) && forall i :: 0 <= i < |ms| ==> SoundMember(ms[i])
  }

  lemma MembersAreObject(ms: seq<Member>)
    ensures SoundMembers(ms) <==> Sound(Object(ms))
  {
    forall i | 0 <= i < |ms| ensures SoundMember(ms[i]) <==> NulFree(ms[i].name) && Sound(ms[i].value) {}
  }

  lemma TailIsSound(ms: seq<Member>)
    requires SoundMembers(ms) && ms != []
    ensures SoundMembers(ms[1..])
  {
    assert forall i :: 0 <= i < |ms| - 1 ==> ms[1..][i] == ms[i + 1];
  }

  lemma FrontIsSound(m: Member, ms: seq<Member>)
    requires SoundMembers(ms) && SoundMember(m) && forall i :: 0 <= i < |ms| ==> StringLess(m.name, ms[i].name)
    ensures SoundMembers([m] + ms)
  {
  }

  /** `resolveReference` keeps the names in order and adds no other. */
  lemma {:induction false} SetMemberIsSound(ms: seq<Member>, name: string, v: Value)
    requires SoundMembers(ms) && SoundMember(Member(name, v))
    ensures SoundMembers(SetMember(ms, name, v))
    ensures forall bound :: StringLess(bound, name) && (forall i :: 0 <= i < |ms| ==> StringLess(bound, ms[i].name)) ==>
      forall i :: 0 <= i < |SetMember(ms, name, v)| ==> StringLess(bound, SetMember(ms, name, v)[i].name)
  {
    if ms != [] {
      TailIsSound(ms);
      assert forall i :: 0 <= i < |ms| - 1 ==> ms[1..][i] == ms[i + 1];
      if StringLess(ms[0].name, name) {
        SetMemberIsSound(ms[1..], name, v);
        FrontIsSound(ms[0], SetMember(ms[1..], name, v));
      } else {
        StringTrichotomy(ms[0].name, name);
        var rest := if ms[0].name == name then ms[1..] else ms;
        forall i | 0 <= i < |rest| ensures StringLess(name, rest[i].name) {
          if ms[0].name != name && i > 0 { StringLessTransitive(name, ms[0].name, ms[i].name); }
        }
        FrontIsSound(Member(name, v), rest);
      }
    }
  }

  /** An object member read back is what was stored; the others are as before. */
  lemma {:induction false} FindAfterSet(ms: seq<Member>, name: string, v: Value, other: string)
    requires Sorted(ms)
    ensures FindMember(SetMember(ms, name, v), other) == if other == name then Some(v) else FindMember(ms, other)
  {
    StringTrichotomy(name, other);
    if ms != [] {
      StringTrichotomy(ms[0].name, name);
      StringTrichotomy(ms[0].name, other);
      assert ([ms[0]] + SetMember(ms[1..], name, v))[1..] == SetMember(ms[1..], name, v);
      assert ([Member(name, v)] + ms)[1..] == ms;
      if StringLess(ms[0].name, name) {
        assert Sorted(ms[1..]) by { assert forall i :: 0 <= i < |ms| - 1 ==> ms[1..][i] == ms[i + 1]; }
        FindAfterSet(ms[1..], name, v, other);
      } else if StringLess(other, name) {
        OtherIsAbsent(ms, name, other);
      }
    }
  }

  lemma OtherIsAbsent(ms: seq<Member>, name: string, other: string)
    requires ms != [] && !StringLess(ms[0].name, name) && StringLess(other, name)
    ensures FindMember(ms, other).None?
  {
    StringTrichotomy(ms[0].name, name);
    if StringLess(name, ms[0].name) { StringLessTransitive(other, name, ms[0].name); }
    StringTrichotomy(ms[0].name, other);
  }

  lemma {:induction false} FoundIsSound(ms: seq<Member>, name: string)
    requires SoundMembers(ms)
    ensures Sound(MemberOrNull(ms, name))
  {
    if ms != [] {
      TailIsSound(ms);
      FoundIsSound(ms[1..], name);
      assert SoundMember(ms[0]);
    }
  }

  // ---------- Tokens ----------

  lemma {:induction false} CStringIsNulFree(s: string)
    ensures NulFree(CString(s))
  {
    if s != [] && s[0] != '\0' { CStringIsNulFree(s[1..]); }
  }

  lemma {:induction false} ScanFits(s: string, value: nat, threshold: nat, lastDigit: nat)
    requires value < TWO_64
    ensures var r := ScanInteger(s, value, threshold, lastDigit); r.Fits? ==> r.n < TWO_64
  {
    if s != [] && IsDigit(s[0]) {
      ScanFits(s[1..], (value * 10 + DigitValue(s[0])) % TWO_64, threshold, lastDigit);
    }
  }

  lemma NumbersAreSound(cfg: Config, text: string)
    ensures DecodeNumber(cfg, text).Good? ==> Sound(DecodeNumber(cfg, text).value)
  {
    var negative := text != [] && text[0] == '-';
    var max := MaxInteger(negative);
    ScanFits(if negative then text[1..] else text, 0, max / 10, max % 10);
  }

  lemma ScalarsAreSound(cfg: Config, token: Token, rest: string, before: Value)
    requires Sound(before)
    ensures Sound(ParseScalar(cfg, token, rest, before).value)
  {
    NumbersAreSound(cfg, token.text);
    var d := DecodeString(token.text);
    if d.Good? { CStringIsNulFree(d.value); }
  }

  // ---------- Values, along the grammar ----------

  predicate SoundItems(xs: seq<Value>) {
    forall i :: 0 <= i < |xs| ==> Sound(xs[i])
  }

  /** Whatever the document, well-formed or not, the value built is sound. */
  lemma {:induction false} ParsedIsSound(cfg: Config, s: string, before: Value)
    requires Sound(before)
    ensures Sound(ParseValue(cfg, s, before).value)
    decreases |s|, 0
  {
    var (token, rest) := NextToken(cfg, s);
    match token.kind
    case ObjectBegin => MembersAreSound(cfg, rest, "", []);
    case ArrayBegin =>
      SkipSpacesShortens(rest);
      if !(SkipSpaces(rest) != [] && SkipSpaces(rest)[0] == ']') { ItemsAreSound(cfg, SkipSpaces(rest), []); }
    case _ => ScalarsAreSound(cfg, token, rest, before);
  }

  lemma {:induction false} ItemsAreSound(cfg: Config, s: string, items: seq<Value>)
    requires SoundItems(items)
    ensures Sound(ParseItems(cfg, s, items).value)
    decreases |s|, 1
  {
    var v := ParseValue(cfg, s, Null);
    ParsedIsSound(cfg, s, Null);
    if v.ok { ItemEndIsSound(cfg, v.rest, items + [v.value]); }
  }

  lemma {:induction false} ItemEndIsSound(cfg: Config, s: string, items: seq<Value>)
    requires SoundItems(items)
    ensures Sound(ParseItemEnd(cfg, s, items).value)
    decreases |s|, 2
  {
    var (token, rest) := ReadPastComments(s);
    if token.kind == ArraySeparator { ItemsAreSound(cfg, rest, items); }
  }

  lemma {:induction false} MembersAreSound(cfg: Config, s: string, name: string, ms: seq<Member>)
    requires SoundMembers(ms)
    ensures Sound(ParseMembers(cfg, s, name, ms).value)
    decreases |s|, 1
  {
    MembersAreObject(ms);
    var (token, rest) := ReadPastComments(s);
    if token.kind == StringToken { NamedIsSound(cfg, token, rest, ms); }
  }

  lemma {:induction false} NamedIsSound(cfg: Config, token: Token, s: string, ms: seq<Member>)
    requires SoundMembers(ms)
    ensures Sound(ParseNamed(cfg, token, s, ms).value)
    decreases |s|, 4
  {
    MembersAreObject(ms);
    var d := DecodeString(token.text);
    if d.Good? {
      var (colon, rest) := ReadToken(s);
      if colon.kind == MemberSeparator { MemberIsSound(cfg, rest, d.value, ms); }
    }
  }

  lemma {:induction false} MemberIsSound(cfg: Config, s: string, name: string, ms: seq<Member>)
    requires SoundMembers(ms)
    ensures Sound(ParseMember(cfg, s, name, ms).value)
    decreases |s|, 2
  {
    var key := CString(name);
    var before := MemberOrNull(ms, key);
    CStringIsNulFree(name);
    FoundIsSound(ms, key);
    ParsedIsSound(cfg, s, before);
    var v := ParseValue(cfg, s, before);
    var ms' := SetMember(ms, key, v.value);
    assert SoundMembers(ms') by { SetMemberIsSound(ms, key, v.value); }
    MembersAreObject(ms');
    if v.ok {
      var (comma, rest) := ReadToken(v.rest);
      if comma.kind in {ObjectEnd, ArraySeparator, CommentToken} {
        var (last, after) := if comma.kind == CommentToken then ReadPastComments(rest) else (comma, rest);
        if last.kind != ObjectEnd { MembersAreSound(cfg, after, name, ms'); }
      }
    }
  }

  // ---------- Parsing, printing and parsing again ----------

  lemma {:induction false} NormIsIdempotent(v: Value)
    ensures Norm(Norm(v)) == Norm(v)
    decreases v
  {
    match v
    case Array(xs) => NormItemsIdempotent(xs);
    case Object(ms) => NormMembersIdempotent(ms);
    case _ =>
  }

  lemma {:induction false} NormItemsIdempotent(xs: seq<Value>)
    ensures NormItems(NormItems(xs)) == NormItems(xs)
    decreases xs
  {
    if xs != [] {
      NormIsIdempotent(xs[0]);
      NormItemsIdempotent(xs[1..]);
      assert NormItems(xs)[1..] == NormItems(xs[1..]);
    }
  }

  lemma {:induction false} NormMembersIdempotent(ms: seq<Member>)
    ensures NormMembers(NormMembers(ms)) == NormMembers(ms)
    decreases ms
  {
    if ms != [] {
      NormIsIdempotent(ms[0].value);
      NormMembersIdempotent(ms[1..]);
      assert NormMembers(ms)[1..] == NormMembers(ms[1..]);
    }
  }

  /**
   For every document whatsoever: if what was parsed has no doubles, printing it and parsing the
   text gives it again up to the integer tags, and once more changes nothing.
   */
  lemma ReparsedIsTheSame(cfg: Config, fmt: RealFormat, yaml: bool, document: string)
    requires VisibleFormat(fmt) && NoReals(ParseDocument(cfg, document).value)
    ensures
      var v := ParseDocument(cfg, document).value;
      var again := ParseDocument(cfg, JsonWriter.FastText(fmt, yaml, v) + "\n").value;
      && again == Norm(v)
      && Norm(again) == again
  {
    var v := ParseDocument(cfg, document).value;
    ParsedIsSound(cfg, document, Null);
    WellFormedIsSoundWithoutReals(v);
    RoundTrip(cfg, fmt, yaml, v);
    NormIsIdempotent(v);
  }
}
