/**
 `Json::Reader`: a cursor over the document, a stack of the values being built and a list of
 errors, all updated in place. Every method is tied to the function of the remaining characters
 in `JsonGrammar` that says what it reads. A node that is popped is written back to the slot of
 its parent that it stands for.
 */
module JsonReader {
  import opened Options
  import opened JsonValue
  import opened JsonText
  import opened JsonGrammar

  // ---------- Decoding one token's text ----------

  method InspectNumber(text: string) returns (isDouble: bool)
    ensures isDouble == LooksDouble(text)
  {
    isDouble := false;
    for i := 0 to |text|
      invariant isDouble <==> exists k :: 0 <= k < i && (text[k] in {'.', 'e', 'E', '+'} || (text[k] == '-' && k > 0))
    {
      isDouble := isDouble || text[i] in {'.', 'e', 'E', '+'} || (text[i] == '-' && i > 0);
    }
  }

  method ScanDigits(digits: string, max: nat) returns (r: IntegerScan)
    ensures r == ScanInteger(digits, 0, max / 10, max % 10)
  {
    var threshold, lastDigit := max / 10, max % 10;
    var i := 0;
    var value: nat := 0;
    assert digits[0..] == digits;
    while i < |digits|
      invariant 0 <= i <= |digits|
      invariant ScanInteger(digits[i..], value, threshold, lastDigit) == ScanInteger(digits, 0, threshold, lastDigit)
    {
      var c := digits[i];
      i := i + 1;
      if !IsDigit(c) { return NotDigits; }
      var digit := DigitValue(c);
      if value >= threshold {
        if i != |digits| || digit > lastDigit { return TooBig; }
      }
      value := (value * 10 + digit) % TWO_64;
    }
    return Fits(value);
  }

  method NumberOf(cfg: Config, text: string) returns (d: Decoded<Value>)
    ensures d == DecodeNumber(cfg, text)
  {
    var isDouble := InspectNumber(text);
    if isDouble { return DecodeDouble(cfg, text); }
    var negative := text != [] && text[0] == '-';
    var max := if negative then TWO_63 else TWO_64 - 1;
    var scan := ScanDigits(if negative then text[1..] else text, max);
    match scan
    case NotDigits => return Bad(NotANumber(text));
    case TooBig => return DecodeDouble(cfg, text);
    case Fits(value) =>
      if negative { return Good(Int(NegateSigned(ToSigned64(value)))); }
      if value <= MAX_INT { return Good(Int(value)); }
      return Good(UInt(value));
  }

  /** What the first `n` of up to four hexadecimal digits denote. */
  function HexPrefix(s: string, n: nat): int
    requires n <= |s|
  {
    if n == 0 then 0 else HexPrefix(s, n - 1) * 16 + HexOrZero(s[n - 1])
  }

  function HexOrZero(c: char): nat {
    match HexValue(c)
    case Some(d) => d
    case None => 0
  }

  lemma FourHexDigits(s: string)
    requires |s| >= 4 && forall k :: 0 <= k < 4 ==> HexValue(s[k]).Some?
    ensures Hex4(s) == Good(HexPrefix(s, 4))
  {
    var a, b, c, d := HexOrZero(s[0]), HexOrZero(s[1]), HexOrZero(s[2]), HexOrZero(s[3]);
    HexOfFour(s, a, b, c, d);
    PrefixOfFour(s, a, b, c, d);
  }

  lemma HexOfFour(s: string, a: nat, b: nat, c: nat, d: nat)
    requires |s| >= 4
    requires HexValue(s[0]) == Some(a) && HexValue(s[1]) == Some(b) && HexValue(s[2]) == Some(c) && HexValue(s[3]) == Some(d)
    ensures Hex4(s) == Good(((a * 16 + b) * 16 + c) * 16 + d)
  {
  }

  lemma PrefixOfFour(s: string, a: nat, b: nat, c: nat, d: nat)
    requires |s| >= 4
    requires HexOrZero(s[0]) == a && HexOrZero(s[1]) == b && HexOrZero(s[2]) == c && HexOrZero(s[3]) == d
    ensures HexPrefix(s, 4) == ((a * 16 + b) * 16 + c) * 16 + d
  {
    assert HexPrefix(s, 1) == a;
    assert HexPrefix(s, 2) == a * 16 + b;
    assert HexPrefix(s, 3) == (a * 16 + b) * 16 + c;
  }

  lemma NoHexDigit(s: string, k: nat)
    requires k < 4 <= |s| && HexValue(s[k]).None?
    ensures Hex4(s) == Bad("Bad unicode escape sequence in string: hexadecimal digit expected.")
  {
    assert k == 0 || k == 1 || k == 2 || k == 3;
  }

  method UnicodeEscape(s: string) returns (r: Decoded<int>)
    ensures r == Hex4(s)
  {
    if |s| < 4 { return Bad("Bad unicode escape sequence in string: four digits expected."); }
    var unicode := 0;
    for index := 0 to 4
      invariant forall k :: 0 <= k < index ==> HexValue(s[k]).Some?
      invariant unicode == HexPrefix(s, index)
    {
      var digit := HexValue(s[index]);
      if digit.None? {
        NoHexDigit(s, index);
        return Bad("Bad unicode escape sequence in string: hexadecimal digit expected.");
      }
      unicode := unicode * 16 + digit.value;
    }
    FourHexDigits(s);
    return Good(unicode);
  }

  lemma PrependJoins(a: string, b: string, d: Decoded<string>)
    ensures Prepend(a, Prepend(b, d)) == Prepend(a + b, d)
  {
    if d.Good? { assert a + (b + d.value) == (a + b) + d.value; }
  }

  /** The escape after a backslash: the characters it stands for and how many it took. */
  method DecodeEscape(s: string) returns (r: Decoded<string>, taken: nat)
    requires s != []
    ensures r.Good? ==> 0 < taken <= |s|
    ensures DecodeBody(['\\'] + s) == if r.Good? then Prepend(r.value, DecodeBody(s[taken..])) else r
  {
    var whole := ['\\'] + s;
    assert whole[1] == s[0] && whole[2..] == s[1..];
    taken := 1;
    var simple := SimpleEscape(s[0]);
    if simple.Some? { return Good([simple.value]), 1; }
    if s[0] != 'u' { return Bad("Bad escape sequence in string"), 1; }
    var point := CodePoint(s[1..]);
    match point
    case Bad(m) => return Bad(m), 1;
    case Good((code, n)) =>
      assert whole[2 + n..] == s[1 + n..];
      return Good(Utf8(code)), 1 + n;
  }

  method DecodeText(body: string) returns (r: Decoded<string>)
    ensures r == DecodeBody(body)
  {
    var decoded := "";
    var i := 0;
    assert body[0..] == body;
    assert Prepend("", DecodeBody(body)) == DecodeBody(body) by {
      if DecodeBody(body).Good? { assert "" + DecodeBody(body).value == DecodeBody(body).value; }
    }
    while i != |body|
      invariant 0 <= i <= |body|
      invariant Prepend(decoded, DecodeBody(body[i..])) == DecodeBody(body)
      decreases |body| - i
    {
      ghost var rest := body[i..];
      var c := body[i];
      i := i + 1;
      assert rest[1..] == body[i..];
      if c == '\"' {
        assert decoded + "" == decoded;
        return Good(decoded);
      } else if c == '\\' {
        if i == |body| { return Bad("Empty escape sequence in string"); }
        var escape, taken := DecodeEscape(body[i..]);
        assert rest == ['\\'] + body[i..];
        if escape.Bad? { return escape; }
        PrependJoins(decoded, escape.value, DecodeBody(body[i..][taken..]));
        decoded := decoded + escape.value;
        i := i + taken;
      } else {
        PrependJoins(decoded, [c], DecodeBody(body[i..]));
        decoded := decoded + [c];
      }
    }
    assert body[i..] == [];
    assert decoded + "" == decoded;
    return Good(decoded);
  }

  // ---------- Objects under construction ----------

  lemma {:induction false} NotLessThanItself(s: string)
    ensures !StringLess(s, s)
  {
    if s != [] { NotLessThanItself(s[1..]); }
  }

  lemma {:induction false} SetMemberTwice(ms: seq<Member>, name: string, u: Value, v: Value)
    ensures SetMember(SetMember(ms, name, u), name, v) == SetMember(ms, name, v)
  {
    NotLessThanItself(name);
    if ms != [] && StringLess(ms[0].name, name) {
      assert ([ms[0]] + SetMember(ms[1..], name, u))[1..] == SetMember(ms[1..], name, u);
      SetMemberTwice(ms[1..], name, u, v);
    } else if ms != [] && ms[0].name != name {
      assert ([Member(name, u)] + ms)[1..] == ms;
    }
  }

  lemma {:induction false} SetMemberFound(ms: seq<Member>, name: string)
    requires FindMember(ms, name).Some?
    ensures SetMember(ms, name, FindMember(ms, name).value) == ms
  {
    if StringLess(ms[0].name, name) { SetMemberFound(ms[1..], name); }
  }

  /** What `operator[]` leaves behind: a null member where there was none. */
  function Touch(ms: seq<Member>, name: string): (r: seq<Member>)
  {
    if FindMember(ms, name).None? then SetMember(ms, name, Null) else ms
  }

  lemma TouchedThenSet(ms: seq<Member>, name: string, v: Value)
    ensures SetMember(Touch(ms, name), name, v) == SetMember(ms, name, v)
  {
    SetMemberTwice(ms, name, Null, v);
  }

  // ---------- The reader ----------

  datatype Progress = Finished(ok: bool) | Another

  class Reader {
    const cfg: Config
    var document: string
    var current: nat
    var errors: seq<Error>
    var nodes: seq<Value>

    constructor (cfg: Config)
      ensures this.cfg == cfg
    {
      this.cfg := cfg;
      document, current, errors, nodes := "", 0, [], [];
    }

    ghost predicate Valid()
      reads this
    {
      current <= |document|
    }

    /** The characters not yet read. */
    ghost function Rest(): string
      reads this
      requires Valid()
    {
      document[current..]
    }

    /** What a method that read the value `p` leaves: the node on top replaced, the ones below untouched. */
    ghost predicate Left(ok: bool, p: Parsed, below: seq<Value>, recorded: seq<Error>)
      reads this
    {
      && Valid()
      && ok == p.ok
      && Rest() == p.rest
      && nodes == below + [p.value]
      && errors == recorded + p.errors
    }

    /** Inside `readArray` that is to leave `goal`, with `count` elements read unless the loop has ended. */
    ghost predicate InArray(progress: Progress, goal: Parsed, count: nat, below: seq<Value>, recorded: seq<Error>)
      reads this
    {
      match progress
      case Finished(ok) => Left(ok, goal, below, recorded)
      case Another =>
        && Valid() && nodes != [] && Below() == below && errors == recorded
        && Top().Array? && |Top().items| == count
        && ParseItems(cfg, Rest(), Top().items) == goal
    }

    /** Inside `readObject` that is to leave `goal`, `name` being the member name read last. */
    ghost predicate InObject(progress: Progress, name: string, goal: Parsed, below: seq<Value>, recorded: seq<Error>)
      reads this
    {
      match progress
      case Finished(ok) => Left(ok, goal, below, recorded)
      case Another =>
        && Valid() && nodes != [] && Below() == below && errors == recorded
        && Top().Object?
        && ParseMembers(cfg, Rest(), name, Top().members) == goal
    }

    // ----- Characters -----

    /** The character under the cursor; the buffer ends in a NUL. */
    function Peek(): (c: char)
      reads this
      requires Valid()
      ensures c == if Rest() == [] then '\0' else Rest()[0]
    {
      if current == |document| then '\0' else document[current]
    }

    method GetNextChar() returns (c: char)
      requires Valid()
      modifies this`current
      ensures Valid()
      ensures c == if old(Rest()) == [] then '\0' else old(Rest())[0]
      ensures Rest() == if old(Rest()) == [] then [] else old(Rest())[1..]
    {
      if current == |document| { return '\0'; }
      c := document[current];
      current := current + 1;
    }

    method SkipSpaces()
      requires Valid()
      modifies this`current
      ensures Valid() && Rest() == JsonText.SkipSpaces(old(Rest()))
    {
      while current != |document|
        invariant Valid() && JsonText.SkipSpaces(Rest()) == JsonText.SkipSpaces(old(Rest()))
        decreases |document| - current
      {
        var c := document[current];
        if c == ' ' || c == '\t' || c == '\r' || c == '\n' {
          current := current + 1;
        } else {
          break;
        }
      }
    }

    method Match(pattern: string) returns (ok: bool)
      requires Valid()
      modifies this`current
      ensures Valid() && (ok, Rest()) == JsonGrammar.Match(old(Rest()), pattern)
    {
      if |document| - current < |pattern| { return false; }
      var index := |pattern|;
      while index > 0
        invariant 0 <= index <= |pattern|
        invariant forall k :: index <= k < |pattern| ==> document[current + k] == pattern[k]
      {
        index := index - 1;
        if document[current + index] != pattern[index] {
          assert Rest()[index] != pattern[index];
          return false;
        }
      }
      assert pattern == Rest()[..|pattern|];
      current := current + |pattern|;
      return true;
    }

    // ----- Tokens -----

    method ReadString() returns (ok: bool)
      requires Valid()
      modifies this`current
      ensures Valid() && (ok, Rest()) == StringBody(old(Rest()))
    {
      var c := '\0';
      while current != |document|
        invariant Valid() && c != '\"' && StringBody(Rest()) == StringBody(old(Rest()))
        decreases |document| - current
      {
        c := GetNextChar();
        if c == '\\' {
          var skipped := GetNextChar();
        } else if c == '\"' {
          break;
        }
      }
      ok := c == '\"';
    }

    method ReadNumber()
      requires Valid()
      modifies this`current
      ensures Valid() && Rest() == AfterNumber(old(Rest()))
    {
      while current != |document|
        invariant Valid() && AfterNumber(Rest()) == AfterNumber(old(Rest()))
        decreases |document| - current
      {
        if !IsDigit(document[current]) && document[current] !in {'.', 'e', 'E', '+', '-'} { break; }
        current := current + 1;
      }
    }

    method ReadCStyleComment() returns (ok: bool)
      requires Valid()
      modifies this`current
      ensures Valid() && (ok, Rest()) == CStyleComment(old(Rest()))
    {
      ghost var goal := CStyleComment(Rest());
      while current != |document|
        invariant Valid() && CStyleComment(Rest()) == goal
        decreases |document| - current
      {
        var c := GetNextChar();
        if c == '*' && Peek() == '/' {
          assert goal == (true, Rest()[1..]);
          break;
        }
      }
      var slash := GetNextChar();
      ok := slash == '/';
    }

    method ReadCppStyleComment()
      requires Valid()
      modifies this`current
      ensures Valid() && Rest() == CppStyleComment(old(Rest()))
    {
      ghost var goal := CppStyleComment(Rest());
      while current != |document|
        invariant Valid() && CppStyleComment(Rest()) == goal
        decreases |document| - current
      {
        var c := GetNextChar();
        if c == '\r' || c == '\n' {
          assert goal == Rest();
          return;
        }
      }
    }

    method ReadComment() returns (ok: bool)
      requires Valid()
      modifies this`current
      ensures Valid() && (ok, Rest()) == Comment(old(Rest()))
    {
      var c := GetNextChar();
      ok := false;
      if c == '*' {
        ok := ReadCStyleComment();
      } else if c == '/' {
        ReadCppStyleComment();
        ok := true;
      }
    }

    /** The kind of the token that begins with `c`, the rest of the token being consumed. */
    method ReadKind(c: char) returns (kind: Kind)
      requires Valid()
      modifies this`current
      ensures Valid() && (kind, Rest()) == Classify(c, old(Rest()))
    {
      var ok := true;
      if c == '{' { kind := ObjectBegin; }
      else if c == '}' { kind := ObjectEnd; }
      else if c == '[' { kind := ArrayBegin; }
      else if c == ']' { kind := ArrayEnd; }
      else if c == '\"' { kind := StringToken; ok := ReadString(); }
      else if c == '/' { kind := CommentToken; ok := ReadComment(); }
      else if IsDigit(c) || c == '-' { kind := NumberToken; ReadNumber(); }
      else if c == 't' { kind := TrueToken; ok := Match("rue"); }
      else if c == 'f' { kind := FalseToken; ok := Match("alse"); }
      else if c == 'n' { kind := NullToken; ok := Match("ull"); }
      else if c == ',' { kind := ArraySeparator; }
      else if c == ':' { kind := MemberSeparator; }
      else if c == '\0' { kind := EndOfStream; }
      else { kind := ErrorToken; ok := false; }
      if !ok { kind := ErrorToken; }
    }

    method ReadToken() returns (token: Token)
      requires Valid()
      modifies this`current
      ensures Valid() && (token, Rest()) == JsonGrammar.ReadToken(old(Rest()))
    {
      SkipSpaces();
      ghost var t := Rest();
      var start := current;
      var c := GetNextChar();
      var kind := ReadKind(c);
      token := Token(kind, document[start..current], |document| - start);
      if t != [] {
        assert |t| - |Rest()| == current - start;
        assert t[..current - start] == document[start..current];
      }
    }

    method SkipCommentTokens() returns (token: Token)
      requires Valid()
      modifies this`current
      ensures Valid() && (token, Rest()) == NextToken(cfg, old(Rest()))
    {
      if cfg.allowComments {
        token := ReadToken();
        token := SkipComments(token);
      } else {
        token := ReadToken();
      }
    }

    /** The loops that read on while `first`, the token read last, is a comment. */
    method SkipComments(first: Token) returns (token: Token)
      requires Valid()
      modifies this`current
      ensures Valid()
      ensures (token, Rest()) == if first.kind == CommentToken then ReadPastComments(old(Rest())) else (first, old(Rest()))
    {
      token := first;
      while token.kind == CommentToken
        invariant Valid()
        invariant first.kind != CommentToken ==> token == first && Rest() == old(Rest())
        invariant first.kind == CommentToken ==>
          ReadPastComments(old(Rest())) == if token.kind == CommentToken then ReadPastComments(Rest()) else (token, Rest())
        decreases |document| - current, token.kind == CommentToken
      {
        token := ReadToken();
      }
    }

    // ----- Errors -----

    method AddError(message: string, token: Token) returns (ok: bool)
      modifies this`errors
      ensures !ok && errors == old(errors) + [Error(message, token.left)]
    {
      errors := errors + [Error(message, token.left)];
      return false;
    }

    method RecoverFromError(until: Kind) returns (ok: bool)
      requires Valid()
      modifies this`current
      ensures Valid() && !ok && Rest() == Recover(old(Rest()), until)
    {
      while true
        invariant Valid() && Recover(Rest(), until) == Recover(old(Rest()), until)
        decreases |document| - current
      {
        var skip := ReadToken();
        if skip.kind == until || skip.kind == EndOfStream { return false; }
      }
      return false;
    }

    method AddErrorAndRecover(message: string, token: Token, until: Kind) returns (ok: bool)
      requires Valid() && nodes != []
      modifies this`current, this`errors
      ensures Left(ok, Failed(message, token, old(Rest()), until, nodes[|nodes| - 1]), nodes[..|nodes| - 1], old(errors))
    {
      ok := AddError(message, token);
      ok := RecoverFromError(until);
      assert nodes == nodes[..|nodes| - 1] + [nodes[|nodes| - 1]];
    }

    // ----- The node stack -----

    ghost function Below(): seq<Value>
      reads this
      requires nodes != []
    {
      nodes[..|nodes| - 1]
    }

    function Top(): Value
      reads this
      requires nodes != []
    {
      nodes[|nodes| - 1]
    }

    method SetTop(v: Value)
      requires nodes != []
      modifies this`nodes
      ensures nodes == old(Below()) + [v]
    {
      nodes := nodes[..|nodes| - 1] + [v];
    }

    /** `nodes_.push( &currentValue()[ index ] )` for the index after the last. */
    method PushItem()
      requires nodes != [] && Top().Array?
      modifies this`nodes
      ensures nodes == old(Below()) + [Array(old(Top()).items + [Null]), Null]
    {
      var items := Top().items;
      nodes := nodes[..|nodes| - 1] + [Array(items + [Null]), Null];
    }

    method PopItem(index: nat)
      requires |nodes| >= 2 && nodes[|nodes| - 2].Array? && index < |nodes[|nodes| - 2].items|
      modifies this`nodes
      ensures nodes == old(nodes[..|nodes| - 2]) + [Array(old(nodes[|nodes| - 2]).items[index := old(Top())])]
    {
      var v := Top();
      var items := nodes[|nodes| - 2].items;
      nodes := nodes[..|nodes| - 2] + [Array(items[index := v])];
    }

    /** `nodes_.push( &currentValue()[ name ] )` */
    method PushMember(name: string)
      requires nodes != [] && Top().Object?
      modifies this`nodes
      ensures nodes == old(Below()) + [Object(Touch(old(Top()).members, name)), MemberOrNull(old(Top()).members, name)]
    {
      var ms := Top().members;
      nodes := nodes[..|nodes| - 1] + [Object(Touch(ms, name)), MemberOrNull(ms, name)];
    }

    method PopMember(name: string)
      requires |nodes| >= 2 && nodes[|nodes| - 2].Object?
      modifies this`nodes
      ensures nodes == old(nodes[..|nodes| - 2]) + [Object(SetMember(old(nodes[|nodes| - 2]).members, name, old(Top())))]
    {
      var v := Top();
      var ms := nodes[|nodes| - 2].members;
      nodes := nodes[..|nodes| - 2] + [Object(SetMember(ms, name, v))];
    }

    // ----- Values -----

    /** `decodeNumber` and `decodeString` on the current node. */
    method Store(d: Decoded<Value>, token: Token) returns (ok: bool)
      requires Valid() && nodes != []
      modifies this`nodes, this`errors
      ensures Left(ok, FromDecoded(d, token, Rest(), old(Top())), old(Below()), old(errors))
    {
      match d
      case Good(v) =>
        SetTop(v);
        ok := true;
      case Bad(m) =>
        ok := AddError(m, token);
        assert nodes == Below() + [Top()];
    }

    method StoreString(token: Token) returns (ok: bool)
      requires Valid() && nodes != []
      modifies this`nodes, this`errors
      ensures Left(ok, FromDecoded(StringValue(token.text), token, Rest(), old(Top())), old(Below()), old(errors))
    {
      var decoded := DecodeText(if |token.text| < 2 then "" else token.text[1..|token.text| - 1]);
      match decoded
      case Good(t) => ok := Store(Good(String(CString(t))), token);
      case Bad(m) => ok := Store(Bad(m), token);
    }

    method ReadValue() returns (ok: bool)
      requires Valid() && nodes != []
      modifies this`current, this`nodes, this`errors
      ensures Left(ok, ParseValue(cfg, old(Rest()), old(Top())), old(Below()), old(errors))
      decreases |document| - current, 0
    {
      ghost var s, before := Rest(), Top();
      var token := SkipCommentTokens();
      if token.kind == ObjectBegin {
        ok := ReadObject();
      } else if token.kind == ArrayBegin {
        ok := ReadArray();
      } else {
        ok := ReadScalar(token);
      }
    }

    method ReadScalar(token: Token) returns (ok: bool)
      requires Valid() && nodes != []
      modifies this`nodes, this`errors
      ensures Left(ok, ParseScalar(cfg, token, Rest(), old(Top())), old(Below()), old(errors))
    {
      match token.kind
      case NumberToken =>
        var d := NumberOf(cfg, token.text);
        ok := Store(d, token);
      case StringToken => ok := StoreString(token);
      case TrueToken => ok := Store(Good(Bool(true)), token);
      case FalseToken => ok := Store(Good(Bool(false)), token);
      case NullToken => ok := Store(Good(Null), token);
      case _ => ok := Store(Bad(SYNTAX_ERROR), token);
    }

    method ReadArray() returns (ok: bool)
      requires Valid() && nodes != []
      modifies this`current, this`nodes, this`errors
      ensures Left(ok, ParseArray(cfg, old(Rest())), old(Below()), old(errors))
      decreases |document| - current, 3
    {
      ghost var below := Below();
      SetTop(Array([]));
      SkipSpaces();
      SkipSpacesIdempotent(old(Rest()));
      SkipSpacesShortens(old(Rest()));
      if Peek() == ']' {
        var end := ReadToken();
        return true;
      }
      ghost var goal := ParseItems(cfg, Rest(), []);
      var index := 0;
      var progress := Another;
      while progress == Another
        invariant Valid() && current >= old(current) && InArray(progress, goal, index, below, old(errors))
        decreases |document| - current, progress == Another
      {
        progress := ReadItem(index);
        index := index + 1;
      }
      return progress.ok;
    }

    /** The element after the last is read into its own node and written back. */
    method ReadItemValue(index: nat) returns (ok: bool)
      requires Valid() && nodes != [] && Top().Array? && |Top().items| == index
      modifies this`current, this`nodes, this`errors
      ensures
        var v := ParseValue(cfg, old(Rest()), Null);
        Left(ok, v.(value := Array(old(Top()).items + [v.value])), old(Below()), old(errors))
      decreases |document| - current, 1
    {
      ghost var items := Top().items;
      ghost var v := ParseValue(cfg, Rest(), Null);
      PushItem();
      ok := ReadValue();
      assert nodes[|nodes| - 2] == Array(items + [Null]);
      PopItem(index);
      assert (items + [Null])[index := v.value] == items + [v.value];
      assert nodes == old(Below()) + [Array(items + [v.value])];
    }

    /** One turn of the loop of `readArray`. */
    method ReadItem(index: nat) returns (progress: Progress)
      requires Valid() && nodes != [] && Top().Array? && |Top().items| == index
      modifies this`current, this`nodes, this`errors
      ensures InArray(progress, ParseItems(cfg, old(Rest()), old(Top()).items), index + 1, old(Below()), old(errors))
      ensures Valid() && current >= old(current) && (progress == Another ==> current > old(current))
      decreases |document| - current, 2
    {
      ghost var v := ParseValue(cfg, Rest(), Null);
      ghost var items := Top().items + [v.value];
      ghost var below, recorded := Below(), errors;
      var ok := ReadItemValue(index);
      assert Top() == Array(items) && Below() == below;
      if !ok {
        ok := RecoverFromError(ArrayEnd);
        return Finished(ok);
      }
      progress := ReadItemEnd();
    }

    /** The turn after its element. */
    method ReadItemEnd() returns (progress: Progress)
      requires Valid() && nodes != [] && Top().Array?
      modifies this`current, this`errors
      ensures InArray(progress, ParseItemEnd(cfg, old(Rest()), old(Top()).items), |old(Top()).items|, old(Below()), old(errors))
      ensures Valid() && current >= old(current) && (progress == Another ==> current > old(current))
    {
      ghost var goal, items, below := ParseItemEnd(cfg, Rest(), Top().items), Top().items, Below();
      assert nodes == below + [Array(items)];
      ghost var s := Rest();
      var token := ReadToken();
      token := SkipComments(token);
      assert (token, Rest()) == ReadPastComments(s);
      if token.kind == ArrayEnd {
        progress := Finished(true);
      } else if token.kind == ArraySeparator {
        progress := Another;
      } else {
        var ok := AddErrorAndRecover(MISSING_COMMA_OR_BRACKET, token, ArrayEnd);
        progress := Finished(ok);
      }
    }

    method ReadObject() returns (ok: bool)
      requires Valid() && nodes != []
      modifies this`current, this`nodes, this`errors
      ensures Left(ok, ParseMembers(cfg, old(Rest()), "", []), old(Below()), old(errors))
      decreases |document| - current, 3
    {
      ghost var below := Below();
      ghost var goal := ParseMembers(cfg, Rest(), "", []);
      var name := "";
      SetTop(Object([]));
      var progress := Another;
      while progress == Another
        invariant Valid() && current >= old(current) && InObject(progress, name, goal, below, old(errors))
        decreases |document| - current, progress == Another
      {
        progress, name := ReadMember(name);
      }
      return progress.ok;
    }

    /** One turn of the loop of `readObject`. */
    method ReadMember(last: string) returns (progress: Progress, name: string)
      requires Valid() && nodes != [] && Top().Object?
      modifies this`current, this`nodes, this`errors
      ensures InObject(progress, name, ParseMembers(cfg, old(Rest()), last, old(Top()).members), old(Below()), old(errors))
      ensures Valid() && current >= old(current) && (progress == Another ==> current > old(current))
      decreases |document| - current, 2
    {
      name := last;
      var tokenName := ReadToken();
      tokenName := SkipComments(tokenName);
      if tokenName.kind == ObjectEnd && name == "" {
        assert nodes == Below() + [Top()];
        return Finished(true), name;
      }
      if tokenName.kind != StringToken {
        var ok := AddErrorAndRecover(MISSING_BRACE_OR_NAME, tokenName, ObjectEnd);
        return Finished(ok), name;
      }
      progress, name := ReadName(tokenName);
    }

    /** The turn from a string token on. */
    method ReadName(token: Token) returns (progress: Progress, name: string)
      requires Valid() && nodes != [] && Top().Object?
      modifies this`current, this`nodes, this`errors
      ensures InObject(progress, name, ParseNamed(cfg, token, old(Rest()), old(Top()).members), old(Below()), old(errors))
      ensures Valid() && current >= old(current) && (progress == Another ==> current > old(current))
      decreases |document| - current, 4
    {
      name := "";
      var decoded := DecodeText(if |token.text| < 2 then "" else token.text[1..|token.text| - 1]);
      if decoded.Bad? {
        var ok := AddErrorAndRecover(decoded.message, token, ObjectEnd);
        return Finished(ok), name;
      }
      name := decoded.value;
      progress := ReadColon(name);
    }

    /** The turn from the colon on. */
    method ReadColon(name: string) returns (progress: Progress)
      requires Valid() && nodes != [] && Top().Object?
      modifies this`current, this`nodes, this`errors
      ensures InObject(progress, name, ParseColon(cfg, old(Rest()), name, old(Top()).members), old(Below()), old(errors))
      ensures Valid() && current >= old(current) && (progress == Another ==> current > old(current))
      decreases |document| - current, 3
    {
      var colon := ReadToken();
      if colon.kind != MemberSeparator {
        var ok := AddErrorAndRecover(MISSING_COLON, colon, ObjectEnd);
        return Finished(ok);
      }
      progress := ReadMemberValue(name);
    }

    /** The member's value and what follows it. */
    method ReadMemberValue(name: string) returns (progress: Progress)
      requires Valid() && nodes != [] && Top().Object?
      modifies this`current, this`nodes, this`errors
      ensures InObject(progress, name, ParseMember(cfg, old(Rest()), name, old(Top()).members), old(Below()), old(errors))
      ensures Valid() && current >= old(current) && (progress == Another ==> current > old(current))
      decreases |document| - current, 2
    {
      ghost var ms, below, recorded := Top().members, Below(), errors;
      var key := CString(name);
      ghost var v := ParseValue(cfg, Rest(), MemberOrNull(ms, key));
      ghost var ms' := SetMember(ms, key, v.value);
      ghost var goal := ParseMember(cfg, Rest(), name, ms);
      assert goal == if !v.ok then Parsed(false, Recover(v.rest, ObjectEnd), Object(ms'), v.errors) else ParseMemberEnd(cfg, v.rest, name, ms');
      var ok := ReadSlot(key);
      assert Top() == Object(ms') && Below() == below && Rest() == v.rest;
      if !ok {
        ok := RecoverFromError(ObjectEnd);
        progress := Finished(ok);
        assert InObject(progress, name, goal, below, recorded);
        return;
      }
      assert v.errors == [] && errors == recorded;
      progress := ReadMemberEnd(name);
      assert InObject(progress, name, goal, below, recorded);
    }

    /** The value is read into the member's slot. */
    method ReadSlot(key: string) returns (ok: bool)
      requires Valid() && nodes != [] && Top().Object?
      modifies this`current, this`nodes, this`errors
      ensures
        var ms := old(Top()).members;
        var v := ParseValue(cfg, old(Rest()), MemberOrNull(ms, key));
        Left(ok, v.(value := Object(SetMember(ms, key, v.value))), old(Below()), old(errors))
      decreases |document| - current, 1
    {
      ghost var ms := Top().members;
      ghost var v := ParseValue(cfg, Rest(), MemberOrNull(ms, key));
      PushMember(key);
      ok := ReadValue();
      assert nodes[|nodes| - 2] == Object(Touch(ms, key));
      PopMember(key);
      TouchedThenSet(ms, key, v.value);
      assert nodes == old(Below()) + [Object(SetMember(ms, key, v.value))];
    }

    /** What follows the value. */
    method ReadMemberEnd(ghost name: string) returns (progress: Progress)
      requires Valid() && nodes != [] && Top().Object?
      modifies this`current, this`errors
      ensures InObject(progress, name, ParseMemberEnd(cfg, old(Rest()), name, old(Top()).members), old(Below()), old(errors))
      ensures Valid() && current >= old(current) && (progress == Another ==> current > old(current))
    {
      assert nodes == Below() + [Top()];
      var comma := ReadToken();
      if comma.kind != ObjectEnd && comma.kind != ArraySeparator && comma.kind != CommentToken {
        var ok := AddErrorAndRecover(MISSING_COMMA_OR_BRACE, comma, ObjectEnd);
        return Finished(ok);
      }
      comma := SkipComments(comma);
      if comma.kind == ObjectEnd { return Finished(true); }
      return Another;
    }

    /** `parse`: true exactly when no error was recorded. */
    method Parse(text: string) returns (ok: bool, root: Value)
      modifies this
      ensures
        var p := ParseDocument(cfg, text);
        ok == p.ok && root == p.value && errors == p.errors && nodes == [root]
      ensures ok <==> errors == []
    {
      document, current, errors, nodes := text, 0, [], [Null];
      assert Rest() == text;
      ok := ReadValue();
      assert nodes == [ParseValue(cfg, text, Null).value];
      var token := SkipCommentTokens();
      root := nodes[0];
      if cfg.strictRoot && !root.Array? && !root.Object? {
        ok := AddError(NOT_A_DOCUMENT, Token(ErrorToken, text, |text|));
      }
    }
  }
}
