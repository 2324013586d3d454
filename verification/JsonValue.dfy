/**
 JSON values and their ordering, `Value::operator<`, `operator==` and `compare`.  Arrays are
 dense; an object's members are listed as its `std::map` iterates them.  Strings are C strings.
 */
module JsonValue {
  import opened Options

  datatype Value =
    | Null
    | Int(n: int)
    | UInt(u: int)
    | Real(r: real)
    | String(s: string)
    | Bool(b: bool)
    | Array(items: seq<Value>)
    | Object(members: seq<Member>)

  datatype Member = Member(name: string, value: Value)

  /** The position of a value's type in the `ValueType` enumeration. */
  function TypeIndex(v: Value): nat {
    match v
    case Null => 0
    case Int(_) => 1
    case UInt(_) => 2
    case Real(_) => 3
    case String(_) => 4
    case Bool(_) => 5
    case Array(_) => 6
    case Object(_) => 7
  }

  /** `strcmp(a, b) < 0` */
  predicate StringLess(a: string, b: string) {
    if b == [] then false
    else if a == [] then true
    else a[0] < b[0] || (a[0] == b[0] && StringLess(a[1..], b[1..]))
  }

  // Sizes, to let the comparisons recurse with their arguments in either order.

  function Size(v: Value): nat {
    match v
    case Array(xs) => 1 + ItemsSize(xs)
    case Object(ms) => 1 + MembersSize(ms)
    case _ => 1
  }

  function ItemsSize(xs: seq<Value>): nat {
    if xs == [] then 0 else Size(xs[0]) + ItemsSize(xs[1..])
  }

  function MembersSize(ms: seq<Member>): nat {
    if ms == [] then 0 else Size(ms[0].value) + MembersSize(ms[1..])
  }

  /** `Value::operator<` */
  predicate Less(a: Value, b: Value)
    decreases Size(a) + Size(b), 0
  {
    if TypeIndex(a) != TypeIndex(b) then TypeIndex(a) < TypeIndex(b)
    else
      match a
      case Null => false
      case Int(n) => n < b.n
      case UInt(u) => u < b.u
      case Real(r) => r < b.r
      case String(s) => StringLess(s, b.s)
      case Bool(x) => !x && b.b
      case Array(xs) => if |xs| != |b.items| then |xs| < |b.items| else ItemsLess(xs, b.items)
      case Object(ms) => if |ms| != |b.members| then |ms| < |b.members| else MembersLess(ms, b.members)
  }

  /** `std::map::operator<` on two arrays: lexicographic by element. */
  predicate ItemsLess(xs: seq<Value>, ys: seq<Value>)
    decreases ItemsSize(xs) + ItemsSize(ys), 1
  {
    if ys == [] then false
    else if xs == [] then true
    else Less(xs[0], ys[0]) || (!Less(ys[0], xs[0]) && ItemsLess(xs[1..], ys[1..]))
  }

  /** `std::pair::operator<`: name first, then value. */
  predicate MemberLess(x: Member, y: Member)
    decreases Size(x.value) + Size(y.value), 1
  {
    StringLess(x.name, y.name) || (!StringLess(y.name, x.name) && Less(x.value, y.value))
  }

  predicate MembersLess(xs: seq<Member>, ys: seq<Member>)
    decreases MembersSize(xs) + MembersSize(ys), 2
  {
    if ys == [] then false
    else if xs == [] then true
    else MemberLess(xs[0], ys[0]) || (!MemberLess(ys[0], xs[0]) && MembersLess(xs[1..], ys[1..]))
  }

  /** `Value::operator==` */
  predicate Equal(a: Value, b: Value)
    decreases a
  {
    TypeIndex(a) == TypeIndex(b)
    && match a
       case Null => true
       case Int(n) => n == b.n
       case UInt(u) => u == b.u
       case Real(r) => r == b.r
       case String(s) => s == b.s
       case Bool(x) => x == b.b
       case Array(xs) => |xs| == |b.items| && ItemsEqual(xs, b.items)
       case Object(ms) => |ms| == |b.members| && MembersEqual(ms, b.members)
  }

  predicate ItemsEqual(xs: seq<Value>, ys: seq<Value>)
    requires |xs| == |ys|
    decreases xs
  {
    xs != [] ==> Equal(xs[0], ys[0]) && ItemsEqual(xs[1..], ys[1..])
  }

  predicate MembersEqual(xs: seq<Member>, ys: seq<Member>)
    requires |xs| == |ys|
    decreases xs
  {
    xs != [] ==> xs[0].name == ys[0].name && Equal(xs[0].value, ys[0].value) && MembersEqual(xs[1..], ys[1..])
  }

  /** `Value::compare` */
  function Compare(a: Value, b: Value): int {
    if Less(a, b) then -1 else if Less(b, a) then 1 else 0
  }

  // ---------- Equality is structural ----------

  lemma {:induction false} EqualIsIdentity(a: Value, b: Value)
    ensures Equal(a, b) <==> a == b
    decreases a
  {
    match a
    case Array(xs) => if b.Array? && |xs| == |b.items| { ItemsEqualIsIdentity(xs, b.items); }
    case Object(ms) => if b.Object? && |ms| == |b.members| { MembersEqualIsIdentity(ms, b.members); }
    case _ =>
  }

  lemma {:induction false} ItemsEqualIsIdentity(xs: seq<Value>, ys: seq<Value>)
    requires |xs| == |ys|
    ensures ItemsEqual(xs, ys) <==> xs == ys
    decreases xs
  {
    if xs != [] {
      EqualIsIdentity(xs[0], ys[0]);
      ItemsEqualIsIdentity(xs[1..], ys[1..]);
      assert xs == [xs[0]] + xs[1..] && ys == [ys[0]] + ys[1..];
    }
  }

  lemma {:induction false} MembersEqualIsIdentity(xs: seq<Member>, ys: seq<Member>)
    requires |xs| == |ys|
    ensures MembersEqual(xs, ys) <==> xs == ys
    decreases xs
  {
    if xs != [] {
      EqualIsIdentity(xs[0].value, ys[0].value);
      MembersEqualIsIdentity(xs[1..], ys[1..]);
      assert xs == [xs[0]] + xs[1..] && ys == [ys[0]] + ys[1..];
    }
  }

  // ---------- Exactly one of a < b, a == b, b < a ----------

  ghost predicate ExactlyOne(p: bool, q: bool, r: bool) {
    (p || q || r) && !(p && q) && !(q && r) && !(p && r)
  }

  lemma {:induction false} StringTrichotomy(a: string, b: string)
    ensures ExactlyOne(StringLess(a, b), a == b, StringLess(b, a))
  {
    if a != [] && b != [] {
      StringTrichotomy(a[1..], b[1..]);
      assert a == [a[0]] + a[1..] && b == [b[0]] + b[1..];
    }
  }

  lemma {:induction false} Trichotomy(a: Value, b: Value)
    ensures ExactlyOne(Less(a, b), a == b, Less(b, a))
    decreases a
  {
    if TypeIndex(a) == TypeIndex(b) {
      match a
      case String(s) => StringTrichotomy(s, b.s);
      case Array(xs) => if |xs| == |b.items| { ItemsTrichotomy(xs, b.items); }
      case Object(ms) => if |ms| == |b.members| { MembersTrichotomy(ms, b.members); }
      case _ =>
    }
  }

  lemma {:induction false} ItemsTrichotomy(xs: seq<Value>, ys: seq<Value>)
    ensures ExactlyOne(ItemsLess(xs, ys), xs == ys, ItemsLess(ys, xs))
    decreases xs
  {
    if xs != [] && ys != [] {
      Trichotomy(xs[0], ys[0]);
      ItemsTrichotomy(xs[1..], ys[1..]);
      assert xs == [xs[0]] + xs[1..] && ys == [ys[0]] + ys[1..];
    }
  }

  lemma MemberTrichotomy(x: Member, y: Member)
    ensures ExactlyOne(MemberLess(x, y), x == y, MemberLess(y, x))
    decreases x
  {
    StringTrichotomy(x.name, y.name);
    Trichotomy(x.value, y.value);
  }

  lemma {:induction false} MembersTrichotomy(xs: seq<Member>, ys: seq<Member>)
    ensures ExactlyOne(MembersLess(xs, ys), xs == ys, MembersLess(ys, xs))
    decreases xs
  {
    if xs != [] && ys != [] {
      MemberTrichotomy(xs[0], ys[0]);
      MembersTrichotomy(xs[1..], ys[1..]);
      assert xs == [xs[0]] + xs[1..] && ys == [ys[0]] + ys[1..];
    }
  }

  // ---------- Transitivity ----------

  lemma {:induction false} StringLessTransitive(a: string, b: string, c: string)
    requires StringLess(a, b) && StringLess(b, c)
    ensures StringLess(a, c)
  {
    if a != [] && a[0] == b[0] && b[0] == c[0] { StringLessTransitive(a[1..], b[1..], c[1..]); }
  }

  lemma {:induction false} LessTransitive(a: Value, b: Value, c: Value)
    requires Less(a, b) && Less(b, c)
    ensures Less(a, c)
    decreases a
  {
    if TypeIndex(a) == TypeIndex(b) == TypeIndex(c) {
      match a
      case String(s) => StringLessTransitive(s, b.s, c.s);
      case Array(xs) => if |xs| == |b.items| == |c.items| { ItemsLessTransitive(xs, b.items, c.items); }
      case Object(ms) => if |ms| == |b.members| == |c.members| { MembersLessTransitive(ms, b.members, c.members); }
      case _ =>
    }
  }

  lemma {:induction false} ItemsLessTransitive(xs: seq<Value>, ys: seq<Value>, zs: seq<Value>)
    requires ItemsLess(xs, ys) && ItemsLess(ys, zs)
    ensures ItemsLess(xs, zs)
    decreases xs
  {
    if xs != [] {
      Trichotomy(xs[0], ys[0]);
      Trichotomy(ys[0], zs[0]);
      Trichotomy(xs[0], zs[0]);
      if Less(xs[0], ys[0]) && Less(ys[0], zs[0]) {
        LessTransitive(xs[0], ys[0], zs[0]);
      } else if xs[0] == ys[0] && ys[0] == zs[0] {
        ItemsLessTransitive(xs[1..], ys[1..], zs[1..]);
      }
    }
  }

  lemma MemberLessTransitive(x: Member, y: Member, z: Member)
    requires MemberLess(x, y) && MemberLess(y, z)
    ensures MemberLess(x, z)
    decreases x
  {
    StringTrichotomy(x.name, y.name);
    StringTrichotomy(y.name, z.name);
    StringTrichotomy(x.name, z.name);
    if StringLess(x.name, y.name) && StringLess(y.name, z.name) {
      StringLessTransitive(x.name, y.name, z.name);
    } else if x.name == y.name && y.name == z.name {
      LessTransitive(x.value, y.value, z.value);
    }
  }

  lemma {:induction false} MembersLessTransitive(xs: seq<Member>, ys: seq<Member>, zs: seq<Member>)
    requires MembersLess(xs, ys) && MembersLess(ys, zs)
    ensures MembersLess(xs, zs)
    decreases xs
  {
    if xs != [] {
      MemberTrichotomy(xs[0], ys[0]);
      MemberTrichotomy(ys[0], zs[0]);
      MemberTrichotomy(xs[0], zs[0]);
      if MemberLess(xs[0], ys[0]) && MemberLess(ys[0], zs[0]) {
        MemberLessTransitive(xs[0], ys[0], zs[0]);
      } else if xs[0] == ys[0] && ys[0] == zs[0] {
        MembersLessTransitive(xs[1..], ys[1..], zs[1..]);
      }
    }
  }

  /** `operator<` is a strict total order that agrees with `operator==`, and `compare` follows both. */
  lemma OrderIsTotal(a: Value, b: Value, c: Value)
    ensures ExactlyOne(Less(a, b), Equal(a, b), Less(b, a))
    ensures Less(a, b) && Less(b, c) ==> Less(a, c)
    ensures Compare(a, b) == -Compare(b, a)
    ensures Compare(a, b) == 0 <==> Equal(a, b)
  {
    Trichotomy(a, b);
    EqualIsIdentity(a, b);
    if Less(a, b) && Less(b, c) { LessTransitive(a, b, c); }
  }
}
