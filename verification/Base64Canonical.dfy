/** Which texts encoding gives back after decoding them. */
module Base64Canonical {
  import opened Base64

  function Padding(k: nat): string {
    seq(k, _ => '=')
  }

  // No single character is left over, and the bits behind the last octet are zero.
  predicate NoBitsLeft(p: string) {
    && |p| % 4 != 1
    && (|p| % 4 == 2 ==> Value(p[|p| - 1]) % 16 == 0)
    && (|p| % 4 == 3 ==> Value(p[|p| - 1]) % 4 == 0)
  }

  // And the padding is exactly the missing characters.
  predicate Canonical(t: string) {
    var p := Payload(t);
    NoBitsLeft(p) && t == p + Padding((4 - |p| % 4) % 4)
  }

  /// Decoded octets, cut into groups of six bits again

  lemma {:induction false} OctetIsCompleted(p: string, n: nat, q: nat, r: nat)
    requires 1 <= r < 4 && 4 * q + r < n <= |p|
    ensures Octet(Octets(p, n), 3 * q + r - 1) == Completed(p, 4 * q + r)
    decreases n
  {
    OctetCount(p, n);
    OctetCount(p, n - 1);
    PositionInGroup(4 * q + r, q, r);
    if 4 * q + r == n - 1 {
    } else {
      OctetIsCompleted(p, n - 1, q, r);
    }
  }

  lemma OctetMissing(p: string, q: nat, r: nat)
    requires 1 <= r < 4 && |p| == 4 * q + r
    ensures Octet(Octets(p, |p|), 3 * q + r - 1) == 0
  {
    OctetCount(p, |p|);
    assert (|p| + 3) / 4 == q + 1;
  }

  // The pieces of two neighbouring characters.
  lemma First(a: int, b: int)
    requires 0 <= a < 64 && 0 <= b < 64
    ensures (a * 64 + b) / 16 % 256 / 4 == a && (a * 64 + b) / 16 % 256 % 4 * 16 == b / 16 * 16
  {
  }

  lemma Quarter(k: int, l: int)
    requires 0 <= l < 4
    ensures (k * 4 + l) / 4 == k
  {
  }

  lemma LowByte(c: int, r: int)
    requires 0 <= r < 256
    ensures (c * 256 + r) % 256 == r
  {
  }

  lemma SecondParts(c: int, d: int, h: int, l: int)
    requires 0 <= d < 16 && 0 <= h < 16 && 0 <= l < 4
    ensures ((c * 16 + d) * 64 + (h * 4 + l)) / 4 % 256 == d * 16 + h
  {
    Quarter(c * 256 + (d * 16 + h), l);
    LowByte(c, d * 16 + h);
  }

  lemma Second(a: int, b: int)
    requires 0 <= a < 64 && 0 <= b < 64
    ensures (a * 64 + b) / 4 % 256 / 16 == a % 16 && (a * 64 + b) / 4 % 256 % 16 * 4 == b / 4 * 4
  {
    SecondParts(a / 16, a % 16, b / 4, b % 4);
    assert a == a / 16 * 16 + a % 16 && b == b / 4 * 4 + b % 4;
  }

  lemma Third(a: int, b: int)
    requires 0 <= a < 64 && 0 <= b < 64
    ensures (a * 64 + b) % 256 / 64 == a % 4 && (a * 64 + b) % 256 % 64 == b
  {
  }

  lemma CompletedIs(p: string, q: nat, r: nat)
    requires 1 <= r < 4 && 4 * q + r < |p|
    ensures Completed(p, 4 * q + r) == Shifted(Value(p[4 * q + r - 1]) * 64 + Value(p[4 * q + r]), r) % 256
  {
    PositionInGroup(4 * q + r, q, r);
  }

  lemma LegalAt(p: string, i: nat)
    requires Legal(p) && i < |p|
    ensures 0 <= Value(p[i]) < 64
  {
  }

  lemma ShiftedIs(v: int)
    ensures Shifted(v, 1) == v / 16 && Shifted(v, 2) == v / 4 && Shifted(v, 3) == v
  {
  }

  lemma SextetIs(x: seq<byte>, q: nat)
    ensures Sextet(x, 4 * q + 1) == Octet(x, 3 * q) % 4 * 16 + Octet(x, 3 * q + 1) / 16
    ensures Sextet(x, 4 * q + 2) == Octet(x, 3 * q + 1) % 16 * 4 + Octet(x, 3 * q + 2) / 64
  {
    assert (4 * q + 1) / 4 == q == (4 * q + 2) / 4;
  }

  lemma LastIs(p: string, q: nat)
    requires NoBitsLeft(p)
    ensures |p| == 4 * q + 2 ==> Value(p[4 * q + 1]) % 16 == 0
    ensures |p| == 4 * q + 3 ==> Value(p[4 * q + 2]) % 4 == 0
  {
  }

  lemma FirstBack(p: string, q: nat)
    requires Legal(p) && 4 * q < |p| && NoBitsLeft(p)
    ensures Sextet(Octets(p, |p|), 4 * q) == Value(p[4 * q])
  {
    hide Completed, Octets, Value;
    assert 4 * q + 1 < |p|;
    OctetIsCompleted(p, |p|, q, 1);
    CompletedIs(p, q, 1);
    First(Value(p[4 * q]), Value(p[4 * q + 1]));
  }

  lemma SecondBack(p: string, q: nat)
    requires Legal(p) && 4 * q + 1 < |p| && NoBitsLeft(p)
    ensures Sextet(Octets(p, |p|), 4 * q + 1) == Value(p[4 * q + 1])
  {
    hide *;
    var x, v := Octets(p, |p|), Value(p[4 * q + 1]);
    OctetIsCompleted(p, |p|, q, 1);
    CompletedIs(p, q, 1);
    LegalAt(p, 4 * q);
    LegalAt(p, 4 * q + 1);
    First(Value(p[4 * q]), v);
    ShiftedIs(Value(p[4 * q]) * 64 + v);
    SextetIs(x, q);
    if 4 * q + 2 < |p| {
      OctetIsCompleted(p, |p|, q, 2);
      CompletedIs(p, q, 2);
      LegalAt(p, 4 * q + 2);
      Second(v, Value(p[4 * q + 2]));
      ShiftedIs(v * 64 + Value(p[4 * q + 2]));
    } else {
      OctetMissing(p, q, 2);
      LastIs(p, q);
    }
  }

  lemma ThirdBack(p: string, q: nat)
    requires Legal(p) && 4 * q + 2 < |p| && NoBitsLeft(p)
    ensures Sextet(Octets(p, |p|), 4 * q + 2) == Value(p[4 * q + 2])
  {
    hide *;
    var x, v := Octets(p, |p|), Value(p[4 * q + 2]);
    OctetIsCompleted(p, |p|, q, 2);
    CompletedIs(p, q, 2);
    LegalAt(p, 4 * q + 1);
    LegalAt(p, 4 * q + 2);
    Second(Value(p[4 * q + 1]), v);
    ShiftedIs(Value(p[4 * q + 1]) * 64 + v);
    SextetIs(x, q);
    if 4 * q + 3 < |p| {
      OctetIsCompleted(p, |p|, q, 3);
      CompletedIs(p, q, 3);
      LegalAt(p, 4 * q + 3);
      Third(v, Value(p[4 * q + 3]));
      ShiftedIs(v * 64 + Value(p[4 * q + 3]));
    } else {
      OctetMissing(p, q, 3);
      LastIs(p, q);
    }
  }

  lemma FourthBack(p: string, q: nat)
    requires Legal(p) && 4 * q + 3 < |p|
    ensures Sextet(Octets(p, |p|), 4 * q + 3) == Value(p[4 * q + 3])
  {
    hide Completed, Octets, Value;
    OctetIsCompleted(p, |p|, q, 3);
    CompletedIs(p, q, 3);
    Third(Value(p[4 * q + 2]), Value(p[4 * q + 3]));
  }

  lemma SextetsBack(p: string, j: nat)
    requires Legal(p) && NoBitsLeft(p) && j < |p|
    ensures Letter(Sextet(Octets(p, |p|), j)) == p[j]
  {
    hide Sextet, Octets, Letter;
    var q := j / 4;
    if j % 4 == 0 { FirstBack(p, q); }
    else if j % 4 == 1 { SecondBack(p, q); }
    else if j % 4 == 2 { ThirdBack(p, q); }
    else { FourthBack(p, q); }
  }

  /// Both directions

  lemma LengthsAt(n: nat, m: nat, k: nat, r: nat)
    requires n == 4 * k + r && r < 4 && m == n - (n + 3) / 4 && r != 1
    ensures Carrying(m) == n && (m + 2) / 3 * 4 == n + (4 - r) % 4
  {
    assert m == 3 * k + if r == 0 then 0 else r - 1;
  }

  lemma Lengths(n: nat, m: nat)
    requires m == n - (n + 3) / 4 && n % 4 != 1
    ensures Carrying(m) == n && (m + 2) / 3 * 4 == n + (4 - n % 4) % 4
  {
    LengthsAt(n, m, n / 4, n % 4);
  }

  lemma CanonicalParts(t: string)
    requires Canonical(t)
    ensures var p := Payload(t); var n := |p|;
      && NoBitsLeft(p) && |t| == n + (4 - n % 4) % 4
      && (forall j | 0 <= j < n :: t[j] == p[j]) && forall j | n <= j < |t| :: t[j] == '='
  {
    hide Payload, Value;
  }

  lemma CanonicalComesBack(t: string)
    requires Legal(Payload(t)) && Canonical(t)
    ensures Rfc4648(Octets(Payload(t), |Payload(t)|)) == t
  {
    hide *;
    var p := Payload(t);
    var n, x := |p|, Octets(p, |p|);
    CanonicalParts(t);
    OctetCount(p, n);
    assert n % 4 != 1 by { NoneLeftOver(p); }
    Lengths(n, |x|);
    RfcIsSextets(x);
    forall j | 0 <= j < |t| ensures Rfc4648(x)[j] == t[j] {
      if j < n { SextetsBack(p, j); }
    }
  }

  lemma NoneLeftOver(p: string)
    requires NoBitsLeft(p)
    ensures |p| % 4 != 1
  {
  }

  lemma PaddedLengths(m: nat, n: nat)
    requires n == Carrying(m)
    ensures n % 4 != 1 && (m + 2) / 3 * 4 == n + (4 - n % 4) % 4
    ensures n % 4 == 2 ==> m == (n - 1) / 4 * 3 + 1
    ensures n % 4 == 3 ==> m == (n - 1) / 4 * 3 + 2
  {
  }

  lemma LastBits(x: seq<byte>, n: nat)
    requires n == Carrying(|x|)
    ensures n % 4 == 2 ==> Sextet(x, n - 1) % 16 == 0
    ensures n % 4 == 3 ==> Sextet(x, n - 1) % 4 == 0
  {
    PaddedLengths(|x|, n);
    hide Carrying;
  }

  lemma EncodedPayload(x: seq<byte>)
    ensures Carrying(|x|) <= |Rfc4648(x)|
    ensures Payload(Rfc4648(x)) == Rfc4648(x)[..Carrying(|x|)] && Legal(Payload(Rfc4648(x)))
    ensures forall j | 0 <= j < Carrying(|x|) :: Value(Rfc4648(x)[j]) == Sextet(x, j)
  {
    hide Octets, Sextet, Rfc4648, Letter, Value, Payload, Carrying, Stops;
    var t, n := Rfc4648(x), Carrying(|x|);
    RfcIsSextets(x);
    forall j | 0 <= j < n ensures !Stops(t[j]) && Value(t[j]) == Sextet(x, j) { ValueOfLetter(Sextet(x, j)); }
    assert n < |t| ==> Stops(t[n]) by { EqualsStops(); }
    PayloadEnds(t, n);
  }

  lemma EqualsStops()
    ensures Stops('=')
  {
  }

  lemma EncodedIsCanonical(x: seq<byte>)
    ensures Legal(Payload(Rfc4648(x))) && Canonical(Rfc4648(x))
  {
    hide Rfc4648, Sextet, Value, Payload, Carrying, Letter;
    var t, n := Rfc4648(x), Carrying(|x|);
    RfcIsSextets(x);
    EncodedPayload(x);
    PaddedLengths(|x|, n);
    LastBits(x, n);
    assert t == t[..n] + Padding((4 - n % 4) % 4);
  }

  // Encoding undoes decoding exactly for the canonical texts.
  lemma ConverseExactly(t: string)
    requires Legal(Payload(t))
    ensures Rfc4648(Octets(Payload(t), |Payload(t)|)) == t <==> Canonical(t)
  {
    hide Canonical, Octets, Payload, Rfc4648, Legal;
    if Canonical(t) { CanonicalComesBack(t); }
    EncodedIsCanonical(Octets(Payload(t), |Payload(t)|));
  }

  // The string versions: every text, legal or not.
  method ReEncode(t: string) returns (again: string)
    requires |t| < 0x3fff_ffff
    ensures again == t <==> Legal(Payload(t)) && Canonical(t)
  {
    hide Canonical, Octets, Rfc4648;
    var x := DecodeBase64(t);
    again := EncodeBase64(x);
    PayloadAt(t, 0);
    if Legal(Payload(t)) {
      OctetCount(Payload(t), |Payload(t)|);
      ConverseExactly(t);
    }
    assert Rfc4648([]) == "" by { RfcIsSextets([]); }
  }
}
