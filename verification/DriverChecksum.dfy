/**
 The IPv6 upper-layer checksum: 16-bit addition with end-around carry over the big-endian words
 of a packet, as in section 8.1 of RFC 2460 and section 2.3 of RFC 4443.
 */
module DriverChecksum {
  newtype Byte = n: int | 0 <= n < 256

  const WORD := 0x1_0000

  /** One step of `calc_sum`, in 16-bit arithmetic: the carry shows as a sum below the addend. */
  function AddWord(sum: nat, t: nat): (r: nat)
    requires sum < WORD && t < WORD
    ensures r < WORD
  {
    var s := (sum + t) % WORD;
    if s < t then s + 1 else s
  }

  /** The ones'-complement representative of a natural number: 0 for 0, else within 1 .. 0xFFFF. */
  function OnesComplement(n: nat): (r: nat)
    ensures r < WORD && (r == 0 <==> n == 0)
  {
    if n == 0 then 0 else (n - 1) % 0xFFFF + 1
  }

  /** The sum of the big-endian words of some bytes, a last odd byte being padded with a zero byte. */
  function Total(data: seq<Byte>): nat {
    if |data| == 0 then 0
    else if |data| % 2 == 1 then Total(data[..|data| - 1]) + data[|data| - 1] as nat * 256
    else Total(data[..|data| - 2]) + data[|data| - 2] as nat * 256 + data[|data| - 1] as nat
  }

  lemma AddWordIsOnesComplement(n: nat, t: nat)
    requires t < WORD
    ensures AddWord(OnesComplement(n), t) == OnesComplement(n + t)
  {
    if n != 0 {
      var q, r := (n - 1) / 0xFFFF, (n - 1) % 0xFFFF;
      assert n - 1 == q * 0xFFFF + r;
      if r + t < 0xFFFF {
        QuotientIs(n + t - 1, q, r + t);
      } else if r + t < 2 * 0xFFFF {
        QuotientIs(n + t - 1, q + 1, r + t - 0xFFFF);
      }
    } else if t != 0 {
      QuotientIs(t - 1, 0, t - 1);
    }
  }

  lemma QuotientIs(n: nat, q: nat, r: nat)
    requires n == q * 0xFFFF + r && r < 0xFFFF
    ensures n % 0xFFFF == r
  {
  }

  lemma SmallIsItself(n: nat)
    requires n < WORD
    ensures OnesComplement(n) == n
  {
  }

  lemma TotalPair(data: seq<Byte>, i: nat)
    requires i % 2 == 0 && i + 2 <= |data|
    ensures Total(data[..i + 2]) == Total(data[..i]) + data[i] as nat * 256 + data[i + 1] as nat
  {
    assert data[..i + 2][..i] == data[..i];
  }

  /** A carry shows as a sum below the addend. */
  method AddCarrying(sum: nat, t: nat, ghost n: nat) returns (r: nat)
    requires t < WORD && sum == OnesComplement(n)
    ensures r == OnesComplement(n + t)
  {
    AddWordIsOnesComplement(n, t);
    r := (sum + t) % WORD;
    if r < t { r := r + 1; }
  }

  /** `calc_sum` is the ones'-complement sum of the start value and the words of the data. */
  method CalcSum(sum: nat, data: seq<Byte>) returns (r: nat)
    requires sum < WORD
    ensures r == OnesComplement(sum + Total(data))
  {
    r := sum;
    var i := 0;
    var last := |data| - 1;
    SmallIsItself(sum);
    ghost var n: nat := sum;
    while i < last
      invariant 0 <= i <= |data| && i % 2 == 0
      invariant r == OnesComplement(n) && n == sum + Total(data[..i])
    {
      TotalPair(data, i);
      var t := data[i] as nat * 256 + data[i + 1] as nat;
      r := AddCarrying(r, t, n);
      n := n + t;
      i := i + 2;
    }
    if i == last {
      assert Total(data) == Total(data[..i]) + data[i] as nat * 256;
      r := AddCarrying(r, data[i] as nat * 256, n);
    } else {
      assert data[..i] == data;
    }
  }

  // ---------- Splitting ----------

  lemma LastByte(data: seq<Byte>)
    requires |data| % 2 == 1
    ensures Total(data) == Total(data[..|data| - 1]) + data[|data| - 1] as nat * 256
  {
  }

  lemma LastWord(data: seq<Byte>)
    requires |data| % 2 == 0 && data != []
    ensures Total(data) == Total(data[..|data| - 2]) + WordAt(data, |data| - 2)
  {
  }

  lemma {:induction false} TotalConcat(a: seq<Byte>, b: seq<Byte>)
    requires |a| % 2 == 0
    ensures Total(a + b) == Total(a) + Total(b)
    decreases |b|
  {
    if b == [] {
      assert a + b == a;
    } else if |b| % 2 == 1 {
      LastByte(a + b);
      assert (a + b)[..|a + b| - 1] == a + b[..|b| - 1];
      TotalConcat(a, b[..|b| - 1]);
    } else {
      LastWord(a + b);
      assert (a + b)[..|a + b| - 2] == a + b[..|b| - 2];
      TotalConcat(a, b[..|b| - 2]);
    }
  }

  lemma OnesComplementIdempotent(m: nat, n: nat)
    ensures OnesComplement(OnesComplement(m) + n) == OnesComplement(m + n)
  {
    if m != 0 {
      var q := (m - 1) / 0xFFFF;
      Periodic(OnesComplement(m) + n, q);
    }
  }

  lemma {:induction false} Periodic(n: nat, q: nat)
    requires n > 0
    ensures OnesComplement(n + q * 0xFFFF) == OnesComplement(n)
  {
    var r := (n - 1) % 0xFFFF;
    assert n - 1 == (n - 1) / 0xFFFF * 0xFFFF + r;
    QuotientIs(n + q * 0xFFFF - 1, (n - 1) / 0xFFFF + q, r);
  }

  /** Summing in two calls gives the sum of the whole when the first part has an even length. */
  lemma SumsCompose(sum: nat, a: seq<Byte>, b: seq<Byte>)
    requires |a| % 2 == 0
    ensures OnesComplement(OnesComplement(sum + Total(a)) + Total(b)) == OnesComplement(sum + Total(a + b))
  {
    TotalConcat(a, b);
    OnesComplementIdempotent(sum + Total(a), Total(b));
  }

  /** After an odd part it does not: the padding shifts what follows. */
  lemma OddSplitDoesNotCompose()
    ensures
      var a, b: seq<Byte> := [1], [2];
      OnesComplement(OnesComplement(Total(a)) + Total(b)) != OnesComplement(Total(a + b))
  {
    var a, b: seq<Byte> := [1], [2];
    assert a[..0] == [] && b[..0] == [] && a + b == [1, 2] && [1, 2][..0] == [];
    assert Total(a) == 256 && Total(b) == 512 && Total(a + b) == 258;
  }

  // ---------- Packets ----------

  const HEADER := 40
  const CHECKSUM := HEADER + 2
  const PROTO_ICMP6 := 58

  function WordAt(packet: seq<Byte>, i: nat): (w: nat)
    requires i + 2 <= |packet|
    ensures w < WORD
  {
    packet[i] as nat * 256 + packet[i + 1] as nat
  }

  function PayloadLength(packet: seq<Byte>): nat
    requires |packet| >= HEADER
  {
    WordAt(packet, 4)
  }

  /** An IPv6 packet in memory: its header and the payload its header announces. */
  predicate IsPacket(packet: seq<Byte>) {
    |packet| >= HEADER && |packet| >= HEADER + PayloadLength(packet)
  }

  /** The source and destination addresses. */
  function Addresses(packet: seq<Byte>): seq<Byte>
    requires IsPacket(packet)
  {
    packet[8..HEADER]
  }

  function Payload(packet: seq<Byte>): seq<Byte>
    requires IsPacket(packet)
  {
    packet[HEADER..HEADER + PayloadLength(packet)]
  }

  /** The pseudo-header of section 8.1 of RFC 2460: both addresses, the 32-bit length, three zero bytes and the protocol. */
  function PseudoHeader(packet: seq<Byte>, proto: nat): seq<Byte>
    requires IsPacket(packet) && proto < 256
  {
    packet[8..24] + packet[24..40] + [0, 0, packet[4], packet[5]] + [0, 0, 0, proto as Byte]
  }

  /** What a receiver sums. */
  function VerificationSum(packet: seq<Byte>, proto: nat): nat
    requires IsPacket(packet) && proto < 256
  {
    OnesComplement(Total(PseudoHeader(packet, proto) + packet[40..40 + PayloadLength(packet)]))
  }

  /** The pseudo-header can be summed as the driver does: one addition for length and protocol, then the addresses. */
  lemma PseudoHeaderSum(packet: seq<Byte>, proto: nat)
    requires IsPacket(packet) && proto < 256
    ensures VerificationSum(packet, proto) == OnesComplement(PayloadLength(packet) + proto + Total(Addresses(packet)) + Total(Payload(packet)))
  {
    var addresses, length, next := packet[8..24] + packet[24..40], [0, 0, packet[4], packet[5]], [0, 0, 0, proto as Byte];
    assert addresses == Addresses(packet);
    TotalConcat(PseudoHeader(packet, proto), Payload(packet));
    TotalConcat(addresses + length, next);
    TotalConcat(addresses, length);
    TwoWords(0, 0, packet[4], packet[5]);
    TwoWords(0, 0, 0, proto as Byte);
  }

  lemma TwoWords(a: Byte, b: Byte, c: Byte, d: Byte)
    ensures Total([a, b, c, d]) == (a as nat * 256 + b as nat) + (c as nat * 256 + d as nat)
  {
    TotalAround([a, b], c, d, []);
    TotalAround([], a, b, []);
    assert [a, b] + ([c, d] + []) == [a, b, c, d] && [] + ([a, b] + []) == [a, b];
  }

  /** `calc_upper_layer_chksum`, whose first addition is cut to 16 bits. */
  method CalcUpperLayerChecksum(packet: array<Byte>, proto: nat) returns (r: nat)
    requires IsPacket(packet[..]) && proto < 256
    ensures r == 0xFFFF - OnesComplement((PayloadLength(packet[..]) + proto) % WORD + Total(Addresses(packet[..])) + Total(Payload(packet[..])))
  {
    var length := packet[4] as nat * 256 + packet[5] as nat;
    var first := (length + proto) % WORD;
    assert packet[8..HEADER] == Addresses(packet[..]);
    assert packet[HEADER..HEADER + length] == Payload(packet[..]);
    var sum := CalcSum(first, packet[8..HEADER]);
    OnesComplementIdempotent(first + Total(Addresses(packet[..])), Total(Payload(packet[..])));
    sum := CalcSum(sum, packet[HEADER..HEADER + length]);
    r := 0xFFFF - sum;
  }

  function WithChecksum(packet: seq<Byte>, c: nat): (r: seq<Byte>)
    requires |packet| >= CHECKSUM + 2 && c < WORD
    ensures |r| == |packet|
  {
    packet[CHECKSUM := (c / 256) as Byte][CHECKSUM + 1 := (c % 256) as Byte]
  }

  /** The checksum `calc_icmp_chksum` computes for a packet, whatever its checksum field holds. */
  function IcmpChecksum(packet: seq<Byte>): (r: nat)
    requires IsPacket(packet) && PayloadLength(packet) >= 4
    ensures r < WORD
  {
    var cleared := WithChecksum(packet, 0);
    0xFFFF - OnesComplement((PayloadLength(packet) + PROTO_ICMP6) % WORD + Total(Addresses(cleared)) + Total(Payload(cleared)))
  }

  /** `calc_icmp_chksum` clears the field in place; its caller then stores the result there. */
  method SetIcmpChecksum(packet: array<Byte>)
    requires IsPacket(packet[..]) && PayloadLength(packet[..]) >= 4
    modifies packet
    ensures packet[..] == WithChecksum(old(packet[..]), IcmpChecksum(old(packet[..])))
  {
    ghost var before := packet[..];
    packet[CHECKSUM] := 0;
    packet[CHECKSUM + 1] := 0;
    assert packet[..] == WithChecksum(before, 0);
    var c := CalcUpperLayerChecksum(packet, PROTO_ICMP6);
    packet[CHECKSUM] := (c / 256) as Byte;
    packet[CHECKSUM + 1] := (c % 256) as Byte;
    assert packet[..] == WithChecksum(before, c);
  }

  lemma TotalAround(front: seq<Byte>, hi: Byte, lo: Byte, back: seq<Byte>)
    requires |front| % 2 == 0
    ensures Total(front + ([hi, lo] + back)) == Total(front) + (hi as nat * 256 + lo as nat) + Total(back)
  {
    TotalConcat(front, [hi, lo] + back);
    TotalConcat([hi, lo], back);
    assert Total([hi, lo]) == hi as nat * 256 + lo as nat by { LastWord([hi, lo]); }
  }

  function WithWord(packet: seq<Byte>, i: nat, hi: Byte, lo: Byte): (r: seq<Byte>)
    requires i + 2 <= |packet|
    ensures |r| == |packet|
  {
    packet[i := hi][i + 1 := lo]
  }

  lemma TotalReplaced(data: seq<Byte>, i: nat, hi: Byte, lo: Byte)
    requires i % 2 == 0 && i + 2 <= |data|
    ensures Total(data) >= WordAt(data, i)
    ensures Total(WithWord(data, i, hi, lo)) == Total(data) - WordAt(data, i) + (hi as nat * 256 + lo as nat)
  {
    var front, back, changed := data[..i], data[i + 2..], WithWord(data, i, hi, lo);
    SplitAt(data, i);
    SplitAt(changed, i);
    assert changed[..i] == front && changed[i + 2..] == back;
  }

  lemma SplitAt(data: seq<Byte>, i: nat)
    requires i % 2 == 0 && i + 2 <= |data|
    ensures Total(data) == Total(data[..i]) + WordAt(data, i) + Total(data[i + 2..])
  {
    var front, hi, lo, back := data[..i], data[i], data[i + 1], data[i + 2..];
    assert data == front + ([hi, lo] + back);
    var total := Total(front + ([hi, lo] + back));
    assert total == Total(front) + WordAt(data, i) + Total(back) by { TotalAround(front, hi, lo, back); }
  }

  lemma TotalWithWord(data: seq<Byte>, i: nat, c: nat)
    requires i % 2 == 0 && i + 2 <= |data| && c < WORD
    requires data[i] == 0 && data[i + 1] == 0
    ensures Total(data[i := (c / 256) as Byte][i + 1 := (c % 256) as Byte]) == Total(data) + c
  {
    TotalReplaced(data, i, (c / 256) as Byte, (c % 256) as Byte);
  }

  lemma ChecksumInPayload(packet: seq<Byte>, c: nat)
    requires IsPacket(packet) && PayloadLength(packet) >= 4 && c < WORD
    ensures
      var cleared, stored := WithChecksum(packet, 0), WithChecksum(packet, c);
      && IsPacket(cleared) && IsPacket(stored)
      && PayloadLength(stored) == PayloadLength(packet) && Addresses(stored) == Addresses(cleared)
      && Total(Payload(stored)) == Total(Payload(cleared)) + c
  {
    var cleared, stored := WithChecksum(packet, 0), WithChecksum(packet, c);
    var p := Payload(cleared);
    assert Payload(stored) == p[2 := (c / 256) as Byte][3 := (c % 256) as Byte];
    TotalWithWord(p, 2, c);
  }

  /**
   A packet whose checksum field was set this way verifies, its sum being 0xFFFF, exactly when
   the payload length and the protocol number add up without overflowing 16 bits; else the
   dropped carry makes it 1.
   */
  lemma ChecksumVerifies(packet: seq<Byte>)
    requires IsPacket(packet) && PayloadLength(packet) >= 4
    ensures
      var sent := WithChecksum(packet, IcmpChecksum(packet));
      && IsPacket(sent)
      && (VerificationSum(sent, PROTO_ICMP6) == 0xFFFF <==> PayloadLength(packet) + PROTO_ICMP6 < WORD)
      && (PayloadLength(packet) + PROTO_ICMP6 >= WORD ==> VerificationSum(sent, PROTO_ICMP6) == 1)
  {
    var c := IcmpChecksum(packet);
    var cleared, sent := WithChecksum(packet, 0), WithChecksum(packet, c);
    ChecksumInPayload(packet, c);
    var first, more := PayloadLength(packet) + PROTO_ICMP6, Total(Addresses(cleared)) + Total(Payload(cleared));
    var n := first + more + c;
    assert VerificationSum(sent, PROTO_ICMP6) == OnesComplement(n) by {
      PseudoHeaderSum(sent, PROTO_ICMP6);
      assert n == PayloadLength(sent) + PROTO_ICMP6 + Total(Addresses(sent)) + Total(Payload(sent));
    }
    CutComplements(first, more, c);
  }

  /** Complementing a sum whose first addition lost its carry. */
  lemma CutComplements(first: nat, more: nat, c: nat)
    requires first < 2 * WORD && c == 0xFFFF - OnesComplement(first % WORD + more)
    ensures OnesComplement(first + more + c) == if first < WORD then 0xFFFF else 1
  {
    var n := first % WORD + more;
    Complements(n);
    if first >= WORD {
      assert first % WORD == first - WORD;
      Wraps(n + c + WORD, n + c);
    }
  }

  lemma Complements(n: nat)
    ensures OnesComplement(n + (0xFFFF - OnesComplement(n))) == 0xFFFF
  {
    if n == 0 {
      SmallIsItself(0xFFFF);
    } else {
      Periodic(0xFFFF, (n - 1) / 0xFFFF);
      SmallIsItself(0xFFFF);
    }
  }

  lemma Wraps(m: nat, n: nat)
    requires m == n + WORD && OnesComplement(n) == 0xFFFF
    ensures OnesComplement(m) == 1
  {
    QuotientIs(m - 1, (n - 1) / 0xFFFF + 2, 0);
  }

  // ---------- What a receiver notices ----------

  /** Two sums have the same representative exactly when they differ by a multiple of 0xFFFF, 0 apart. */
  lemma SameComplement(m: nat, a: nat, b: nat)
    requires m > 0 && a < WORD && b < WORD
    ensures OnesComplement(m + a) == OnesComplement(m + b) <==> a == b || {a, b} == {0, 0xFFFF}
  {
    if a <= b { Apart(m + a, b - a); } else { Apart(m + b, a - b); }
  }

  lemma Apart(n: nat, d: nat)
    requires n > 0 && d < WORD
    ensures OnesComplement(n) == OnesComplement(n + d) <==> d == 0 || d == 0xFFFF
  {
    var q, r := (n - 1) / 0xFFFF, (n - 1) % 0xFFFF;
    assert n - 1 == q * 0xFFFF + r;
    if r + d < 0xFFFF {
      QuotientIs(n + d - 1, q, r + d);
    } else if r + d < 2 * 0xFFFF {
      QuotientIs(n + d - 1, q + 1, r + d - 0xFFFF);
    }
  }

  /** What the receiver sums moves with each word of the addresses and the payload. */
  lemma SumMoves(packet: seq<Byte>, proto: nat, i: nat, hi: Byte, lo: Byte) returns (m: nat)
    requires IsPacket(packet) && 0 < proto < 256
    requires i % 2 == 0 && 8 <= i && i + 2 <= HEADER + PayloadLength(packet)
    ensures IsPacket(WithWord(packet, i, hi, lo)) && m > 0
    ensures VerificationSum(packet, proto) == OnesComplement(m + WordAt(packet, i))
    ensures VerificationSum(WithWord(packet, i, hi, lo), proto) == OnesComplement(m + (hi as nat * 256 + lo as nat))
  {
    var changed, w := WithWord(packet, i, hi, lo), hi as nat * 256 + lo as nat;
    var before, after := Total(Addresses(packet)) + Total(Payload(packet)), Total(Addresses(changed)) + Total(Payload(changed));
    SummedMoves(packet, i, hi, lo);
    m := PayloadLength(packet) + proto + (before - WordAt(packet, i));
    assert VerificationSum(packet, proto) == OnesComplement(m + WordAt(packet, i)) by { PseudoHeaderSum(packet, proto); }
    assert VerificationSum(changed, proto) == OnesComplement(m + w) by { PseudoHeaderSum(changed, proto); }
  }

  lemma SummedMoves(packet: seq<Byte>, i: nat, hi: Byte, lo: Byte)
    requires IsPacket(packet) && i % 2 == 0 && 8 <= i && i + 2 <= HEADER + PayloadLength(packet)
    ensures
      var changed := WithWord(packet, i, hi, lo);
      var before := Total(Addresses(packet)) + Total(Payload(packet));
      && IsPacket(changed) && PayloadLength(changed) == PayloadLength(packet) && before >= WordAt(packet, i)
      && Total(Addresses(changed)) + Total(Payload(changed)) == before - WordAt(packet, i) + (hi as nat * 256 + lo as nat)
  {
    var changed := WithWord(packet, i, hi, lo);
    if i < HEADER {
      assert Addresses(changed) == WithWord(Addresses(packet), i - 8, hi, lo) && Payload(changed) == Payload(packet);
      TotalReplaced(Addresses(packet), i - 8, hi, lo);
    } else {
      assert Payload(changed) == WithWord(Payload(packet), i - HEADER, hi, lo) && Addresses(changed) == Addresses(packet);
      TotalReplaced(Payload(packet), i - HEADER, hi, lo);
    }
  }

  /**
   In a packet that verifies, a word of either address or of the payload can be replaced without
   being noticed only by itself or by the other zero of ones'-complement arithmetic.
   */
  lemma ReplacedWordIsNoticed(packet: seq<Byte>, i: nat, hi: Byte, lo: Byte)
    requires IsPacket(packet) && VerificationSum(packet, PROTO_ICMP6) == 0xFFFF
    requires i % 2 == 0 && 8 <= i && i + 2 <= 40 + (packet[4] as nat * 256 + packet[5] as nat)
    ensures
      var before, after, changed := packet[i] as nat * 256 + packet[i + 1] as nat, hi as nat * 256 + lo as nat, packet[i := hi][i + 1 := lo];
      && IsPacket(changed)
      && (VerificationSum(changed, PROTO_ICMP6) == 0xFFFF <==> before == after || {before, after} == {0, 0xFFFF})
  {
    var m := SumMoves(packet, PROTO_ICMP6, i, hi, lo);
    SameComplement(m, WordAt(packet, i), hi as nat * 256 + lo as nat);
  }

  /** The two zeros of ones'-complement arithmetic differ in both bytes. */
  lemma ZerosDifferTwice(a: Byte, b: Byte, c: Byte)
    ensures {a as nat * 256 + c as nat, b as nat * 256 + c as nat} != {0, 0xFFFF}
    ensures {c as nat * 256 + a as nat, c as nat * 256 + b as nat} != {0, 0xFFFF}
  {
    assert a as nat * 256 + c as nat == 0xFFFF ==> c == 255;
    assert c as nat * 256 + a as nat == 0xFFFF ==> c == 255;
    assert b as nat * 256 + c as nat == 0xFFFF ==> c == 255;
    assert c as nat * 256 + b as nat == 0xFFFF ==> c == 255;
  }

  lemma ReplacedHalfIsNoticed(packet: seq<Byte>, i: nat, hi: Byte, lo: Byte)
    requires IsPacket(packet) && VerificationSum(packet, PROTO_ICMP6) == 0xFFFF
    requires i % 2 == 0 && 8 <= i && i + 2 <= HEADER + PayloadLength(packet)
    requires hi == packet[i] || lo == packet[i + 1]
    ensures
      var changed := WithWord(packet, i, hi, lo);
      && IsPacket(changed)
      && (VerificationSum(changed, PROTO_ICMP6) == 0xFFFF <==> hi == packet[i] && lo == packet[i + 1])
  {
    ReplacedWordIsNoticed(packet, i, hi, lo);
    if hi == packet[i] { ZerosDifferTwice(packet[i + 1], lo, hi); } else { ZerosDifferTwice(packet[i], hi, lo); }
  }

  /** A single byte of the addresses or the payload, the odd last one included, cannot change unnoticed. */
  lemma ChangedByteIsNoticed(packet: seq<Byte>, j: nat, b: Byte)
    requires IsPacket(packet) && VerificationSum(packet, PROTO_ICMP6) == 0xFFFF
    requires 8 <= j < 40 + (packet[4] as nat * 256 + packet[5] as nat)
    ensures
      var changed := packet[j := b];
      && IsPacket(changed)
      && (VerificationSum(changed, PROTO_ICMP6) == 0xFFFF <==> b == packet[j])
  {
    if j % 2 == 1 {
      assert WithWord(packet, j - 1, packet[j - 1], b) == packet[j := b];
      ReplacedHalfIsNoticed(packet, j - 1, packet[j - 1], b);
    } else if j + 2 <= HEADER + PayloadLength(packet) {
      assert WithWord(packet, j, b, packet[j + 1]) == packet[j := b];
      ReplacedHalfIsNoticed(packet, j, b, packet[j + 1]);
    } else {
      OddByteIsNoticed(packet, b);
    }
  }

  lemma OddByteIsNoticed(packet: seq<Byte>, b: Byte)
    requires IsPacket(packet) && VerificationSum(packet, PROTO_ICMP6) == 0xFFFF && PayloadLength(packet) % 2 == 1
    ensures
      var j := HEADER + PayloadLength(packet) - 1;
      var changed := packet[j := b];
      && IsPacket(changed)
      && (VerificationSum(changed, PROTO_ICMP6) == 0xFFFF <==> b == packet[j])
  {
    var n := PayloadLength(packet);
    var changed := packet[HEADER + n - 1 := b];
    var m := n + PROTO_ICMP6 + Total(Addresses(packet)) + Total(Payload(packet)[..n - 1]);
    assert Addresses(changed) == Addresses(packet) && Payload(changed) == Payload(packet)[n - 1 := b];
    assert VerificationSum(packet, PROTO_ICMP6) == OnesComplement(m + packet[HEADER + n - 1] as nat * 256) by {
      PseudoHeaderSum(packet, PROTO_ICMP6);
      LastByte(Payload(packet));
    }
    assert VerificationSum(changed, PROTO_ICMP6) == OnesComplement(m + b as nat * 256) by {
      PseudoHeaderSum(changed, PROTO_ICMP6);
      assert Payload(changed)[..n - 1] == Payload(packet)[..n - 1];
      LastByte(Payload(changed));
    }
    SameComplement(m, packet[HEADER + n - 1] as nat * 256, b as nat * 256);
  }

  // ---------- One packet ----------

  /** An echo request from `::1` to `::2` that carries nothing. */
  const EchoRequest: seq<Byte> := [0x60, 0, 0, 0, 0, 8, 58, 64] + LoopbackTo(1) + LoopbackTo(2) + [128, 0, 0, 0, 0, 0, 0, 0]

  function LoopbackTo(last: Byte): seq<Byte> {
    [0, 0, 0, 0, 0, 0, 0, 0, 0, 0, 0, 0, 0, 0, 0, last]
  }

  lemma {:induction false} ZerosAddNothing(data: seq<Byte>)
    requires |data| % 2 == 0 && forall i :: 0 <= i < |data| ==> data[i] == 0
    ensures Total(data) == 0
  {
    if data != [] {
      LastWord(data);
      ZerosAddNothing(data[..|data| - 2]);
    }
  }

  lemma TotalOfLoopback(last: Byte)
    ensures Total(LoopbackTo(last)) == last as nat
  {
    var a := LoopbackTo(last);
    LastWord(a);
    ZerosAddNothing(a[..14]);
  }

  /** Its length is 8 and its protocol 58, so that its words add up to 0x8045. */
  lemma EchoRequestChecksum()
    ensures IsPacket(EchoRequest) && PayloadLength(EchoRequest) == 8
    ensures IcmpChecksum(EchoRequest) == 0x7FBA
    ensures WithChecksum(EchoRequest, 0x7FBA)[40..48] == [128, 0, 0x7F, 0xBA, 0, 0, 0, 0]
  {
    var p := EchoRequest;
    assert WithChecksum(p, 0) == p;
    assert Total(Addresses(p)) == 3 by {
      assert Addresses(p) == LoopbackTo(1) + LoopbackTo(2);
      TotalConcat(LoopbackTo(1), LoopbackTo(2));
      TotalOfLoopback(1);
      TotalOfLoopback(2);
    }
    assert Total(Payload(p)) == 0x8000 by {
      assert Payload(p) == [128, 0, 0, 0] + [0, 0, 0, 0];
      TotalConcat([128, 0, 0, 0], [0, 0, 0, 0]);
      TwoWords(128, 0, 0, 0);
      TwoWords(0, 0, 0, 0);
    }
    assert OnesComplement(0x8045) == 0x8045;
  }
}
