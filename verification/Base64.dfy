/** The base64 coder of src/Util/base64.cpp: a lazy bit accumulator in 32-bit
    words on both sides, against section 4 of RFC 4648. */
module Base64 {
  import opened Wrappers

  type byte = x: int | 0 <= x < 256

  const UINT_MAX := 0xffff_ffff
  const ALPHABET := "ABCDEFGHIJKLM" + "NOPQRSTUVWXYZ" + "abcdefghijklm" + "nopqrstuvwxyz" + "0123456789+/"

  const MAP2: seq<int> :=
    [0x3e, 0xff, 0xff, 0xff, 0x3f, 0x34, 0x35, 0x36]
    + [0x37, 0x38, 0x39, 0x3a, 0x3b, 0x3c, 0x3d, 0xff]
    + [0xff, 0xff, 0xff, 0xff, 0xff, 0xff, 0x00, 0x01]
    + [0x02, 0x03, 0x04, 0x05, 0x06, 0x07, 0x08, 0x09]
    + [0x0a, 0x0b, 0x0c, 0x0d, 0x0e, 0x0f, 0x10, 0x11]
    + [0x12, 0x13, 0x14, 0x15, 0x16, 0x17, 0x18, 0x19]
    + [0xff, 0xff, 0xff, 0xff, 0xff, 0xff, 0x1a, 0x1b]
    + [0x1c, 0x1d, 0x1e, 0x1f, 0x20, 0x21, 0x22, 0x23]
    + [0x24, 0x25, 0x26, 0x27, 0x28, 0x29, 0x2a, 0x2b]
    + [0x2c, 0x2d, 0x2e, 0x2f, 0x30, 0x31, 0x32, 0x33]

  function AvBase64Size(n: nat): nat {
    (n + 2) / 3 * 4 + 1
  }

  /// Section 4 of RFC 4648: groups of three octets become four characters.

  // Table 1.
  function Letter(v: int): char
    requires 0 <= v < 64
  {
    if v < 26 then 'A' + v as char
    else if v < 52 then 'a' + (v - 26) as char
    else if v < 62 then '0' + (v - 52) as char
    else if v == 62 then '+' else '/'
  }

  // Table 1 read backwards; 0xff for a character outside the alphabet.
  function Value(c: char): (v: int)
    ensures 0 <= v < 64 || v == 0xff
    ensures v != 0xff ==> Letter(v) == c
  {
    if 'A' <= c <= 'Z' then c as int - 'A' as int
    else if 'a' <= c <= 'z' then c as int - 'a' as int + 26
    else if '0' <= c <= '9' then c as int - '0' as int + 52
    else if c == '+' then 62 else if c == '/' then 63 else 0xff
  }

  lemma UpperLetters(v: int)
    requires 0 <= v < 26
    ensures ALPHABET[v] == Letter(v)
  {
  }

  lemma LowerLetters(v: int)
    requires 26 <= v < 52
    ensures ALPHABET[v] == Letter(v)
  {
  }

  lemma OtherLetters(v: int)
    requires 52 <= v < 64
    ensures ALPHABET[v] == Letter(v)
  {
  }

  lemma Map2Low(c: char)
    requires 43 <= c as int < 67
    ensures MAP2[c as int - 43] == Value(c)
  {
  }

  lemma Map2Middle(c: char)
    requires 67 <= c as int < 91
    ensures MAP2[c as int - 43] == Value(c)
  {
  }

  lemma Map2High(c: char)
    requires 91 <= c as int < 123
    ensures MAP2[c as int - 43] == Value(c)
  {
  }

  // The table lookups of the code.
  method EncodeSix(v: int) returns (c: char)
    requires 0 <= v < 64
    ensures c == Letter(v)
  {
    if v < 26 { UpperLetters(v); } else if v < 52 { LowerLetters(v); } else { OtherLetters(v); }
    c := ALPHABET[v];
  }

  // A char below '+' gives a huge unsigned index, like one past the table.
  method DecodeSix(c: char) returns (v: int)
    ensures v == Value(c)
  {
    var index := c as int - 43;
    if index < 0 || index >= |MAP2| {
      return 0xff;
    }
    if index < 24 { Map2Low(c); } else if index < 48 { Map2Middle(c); } else { Map2High(c); }
    return MAP2[index];
  }

  function Rfc4648(x: seq<byte>): string {
    if |x| == 0 then ""
    else if |x| == 1 then [Letter(x[0] / 4), Letter(x[0] % 4 * 16), '=', '=']
    else if |x| == 2 then [Letter(x[0] / 4), Letter(x[0] % 4 * 16 + x[1] / 16), Letter(x[1] % 16 * 4), '=']
    else
      [Letter(x[0] / 4), Letter(x[0] % 4 * 16 + x[1] / 16), Letter(x[1] % 16 * 4 + x[2] / 64), Letter(x[2] % 64)]
      + Rfc4648(x[3..])
  }

  // The octets of x followed by zero bits.
  function Octet(x: seq<byte>, i: int): int {
    if 0 <= i < |x| then x[i] else 0
  }

  // The j-th group of six bits.
  function Sextet(x: seq<byte>, j: nat): (v: int)
    ensures 0 <= v < 64
  {
    var g := j / 4 * 3;
    if j % 4 == 0 then Octet(x, g) / 4
    else if j % 4 == 1 then Octet(x, g) % 4 * 16 + Octet(x, g + 1) / 16
    else if j % 4 == 2 then Octet(x, g + 1) % 16 * 4 + Octet(x, g + 2) / 64
    else Octet(x, g + 2) % 64
  }

  // Characters that carry bits: the ceiling of 8n/6.
  function Carrying(n: nat): nat {
    (8 * n + 5) / 6
  }

  lemma {:induction false} RfcIsSextets(x: seq<byte>)
    ensures |Rfc4648(x)| == (|x| + 2) / 3 * 4 >= Carrying(|x|)
    ensures forall j | 0 <= j < Carrying(|x|) :: Rfc4648(x)[j] == Letter(Sextet(x, j))
    ensures forall j | Carrying(|x|) <= j < |Rfc4648(x)| :: Rfc4648(x)[j] == '='
    decreases |x|
  {
    if |x| < 3 {
      ShortGroup(x);
    } else {
      RfcIsSextets(x[3..]);
      LongGroup(x);
      hide Sextet, Letter;
      forall j | 4 <= j < Carrying(|x|)
        ensures Sextet(x, j) == Sextet(x[3..], j - 4)
      {
        SextetOfRest(x, j);
      }
    }
  }

  lemma ShortGroup(x: seq<byte>)
    requires |x| < 3
    ensures |Rfc4648(x)| == (|x| + 2) / 3 * 4 >= Carrying(|x|)
    ensures forall j | 0 <= j < Carrying(|x|) :: Rfc4648(x)[j] == Letter(Sextet(x, j))
    ensures forall j | Carrying(|x|) <= j < |Rfc4648(x)| :: Rfc4648(x)[j] == '='
  {
  }

  lemma LongGroup(x: seq<byte>)
    requires |x| >= 3
    ensures |Rfc4648(x)| == 4 + |Rfc4648(x[3..])| && Carrying(|x|) == Carrying(|x| - 3) + 4
    ensures forall j | 0 <= j < 4 :: Rfc4648(x)[j] == Letter(Sextet(x, j))
    ensures forall j | 4 <= j < |Rfc4648(x)| :: Rfc4648(x)[j] == Rfc4648(x[3..])[j - 4]
  {
    FirstGroup(x);
    hide Letter, Sextet, Rfc4648;
  }

  lemma FirstGroup(x: seq<byte>)
    requires |x| >= 3
    ensures Rfc4648(x) ==
      [Letter(Sextet(x, 0)), Letter(Sextet(x, 1)), Letter(Sextet(x, 2)), Letter(Sextet(x, 3))] + Rfc4648(x[3..])
  {
    FirstSextets(x);
    hide Letter, Sextet;
  }

  lemma FirstSextets(x: seq<byte>)
    requires |x| >= 3
    ensures Sextet(x, 0) == x[0] / 4
    ensures Sextet(x, 1) == x[0] % 4 * 16 + x[1] / 16
    ensures Sextet(x, 2) == x[1] % 16 * 4 + x[2] / 64
    ensures Sextet(x, 3) == x[2] % 64
  {
  }

  lemma SextetOfRest(x: seq<byte>, j: nat)
    requires |x| >= 3 && j >= 4
    ensures Sextet(x, j) == Sextet(x[3..], j - 4)
  {
  }

  /// Encoding.

  // (i_bits << 6 >> i_shift) & 0x3f, in 32 bits.
  function Emitted(bits: nat, shift: nat): (v: int)
    requires shift in {2, 4, 6, 8, 10, 12, 14}
    ensures 0 <= v < 64
  {
    bits * 64 % 0x1_0000_0000 / Pow2(shift) % 64
  }

  function Pow2(n: nat): (p: nat)
    ensures p > 0
  {
    if n == 2 then 4 else if n == 4 then 16 else if n == 6 then 64 else if n == 8 then 256
    else if n == 10 then 1024 else if n == 12 then 4096 else if n == 14 then 16384 else 1
  }

  // The low 24 bits of the accumulator: the last three octets read.
  function Window(x: seq<byte>, k: nat): int {
    Octet(x, k - 3) * 65536 + Octet(x, k - 2) * 256 + Octet(x, k - 1)
  }

  lemma Mod32(q: int, r: int)
    requires 0 <= r < 0x1_0000_0000
    ensures (q * 0x1_0000_0000 + r) % 0x1_0000_0000 == r
  {
  }

  lemma Mod24(q: int, r: int)
    requires 0 <= r < 0x100_0000
    ensures (q * 0x100_0000 + r) % 0x100_0000 == r
  {
  }

  lemma WindowShifts(x: seq<byte>, k: nat, bits: nat)
    requires k < |x| && bits < 0x1_0000_0000 && bits % 0x100_0000 == Window(x, k)
    ensures bits * 256 % 0x1_0000_0000 + x[k] < 0x1_0000_0000
    ensures (bits * 256 % 0x1_0000_0000 + x[k]) % 0x100_0000 == Window(x, k + 1)
  {
    var a, b, c := Octet(x, k - 3), Octet(x, k - 2), Octet(x, k - 1);
    var h, w := bits / 0x100_0000, a * 65536 + b * 256 + c;
    hide *;
    assert bits == h * 0x100_0000 + w;
    assert bits * 256 == h * 0x1_0000_0000 + w * 256;
    Mod32(h, w * 256);
    Mod24(a, b * 65536 + c * 256 + x[k]);
    assert w * 256 + x[k] == a * 0x100_0000 + (b * 65536 + c * 256 + x[k]);
    assert Window(x, k + 1) == b * 65536 + c * 256 + x[k] by { NextWindow(x, k); }
  }

  lemma NextWindow(x: seq<byte>, k: nat)
    requires k < |x|
    ensures Window(x, k + 1) == Octet(x, k - 2) * 65536 + Octet(x, k - 1) * 256 + x[k]
  {
  }

  // What is emitted is the next six bits, whatever was wrapped away above.
  lemma EmittedIsSextet(x: seq<byte>, k: nat, dst: nat, bits: nat, shift: nat)
    requires 0 < k <= |x| && bits < 0x1_0000_0000 && bits % 0x100_0000 == Window(x, k)
    requires shift == 8 * k - 6 * dst && shift in {2, 4, 6, 8, 10, 12, 14}
    requires shift < 6 ==> k == |x|
    ensures Emitted(bits, shift) == Sextet(x, dst)
  {
    var a, b, c := Octet(x, k - 3), Octet(x, k - 2), Octet(x, k - 1);
    WrappedWord(bits, a, b, c);
    var h := bits / 0x100_0000 % 4;
    LowBits((h * 0x100_0000 + a * 65536 + b * 256 + c) * 64, h, a, b, c, shift);
    SextetFromWindow(x, k, dst, shift);
  }

  lemma WrappedWord(bits: nat, a: int, b: int, c: int)
    requires 0 <= a < 256 && 0 <= b < 256 && 0 <= c < 256 && bits % 0x100_0000 == a * 65536 + b * 256 + c
    ensures bits * 64 % 0x1_0000_0000 == (bits / 0x100_0000 % 4 * 0x100_0000 + a * 65536 + b * 256 + c) * 64
  {
  }

  // Where the next six bits lie among the last octets read.
  lemma SextetFromWindow(x: seq<byte>, k: nat, dst: nat, shift: nat)
    requires 0 < k <= |x| && shift == 8 * k - 6 * dst && shift in {2, 4, 6, 8, 10, 12, 14}
    requires shift < 6 ==> k == |x|
    ensures var b, c := Octet(x, k - 2), Octet(x, k - 1);
      Sextet(x, dst) ==
      if shift == 2 then c % 4 * 16
      else if shift == 4 then c % 16 * 4
      else if shift == 6 then c % 64
      else if shift == 8 then c / 4
      else if shift == 10 then b % 4 * 16 + c / 16
      else if shift == 12 then b % 16 * 4 + c / 64
      else b % 64
  {
    if shift == 8 { GroupOf(x, k, dst, 0, 1); }
    else if shift == 2 { GroupOf(x, k, dst, 1, 1); }
    else if shift == 10 { GroupOf(x, k, dst, 1, 2); }
    else if shift == 4 { GroupOf(x, k, dst, 2, 2); }
    else if shift == 12 { GroupOf(x, k, dst, 2, 3); }
    else if shift == 6 { GroupOf(x, k, dst, 3, 3); }
    else { GroupOf(x, k, dst, 3, 4); }
  }

  lemma GroupOf(x: seq<byte>, k: nat, dst: nat, r: nat, n: nat)
    requires 4 * (k - n) == 3 * (dst - r) && r < 4 && 1 <= n <= 4 && k >= n && dst >= r
    ensures dst % 4 == r && dst / 4 * 3 == k - n
  {
  }

  lemma Quotient(low: int, p: int, q: int, v: int, r: int)
    requires p in {4, 16, 64, 256, 1024, 4096, 16384}
    requires 0 <= v < 64 && 0 <= r < p && low == (q * 64 + v) * p + r
    ensures low / p % 64 == v
  {
    assert low / p == q * 64 + v by {
      if p == 4 {} else if p == 16 {} else if p == 64 {} else if p == 256 {}
      else if p == 1024 {} else if p == 4096 {} else {}
    }
  }

  lemma LowBits(low: int, h: int, a: int, b: int, c: int, shift: nat)
    requires 0 <= h < 4 && 0 <= a < 256 && 0 <= b < 256 && 0 <= c < 256
    requires low == (h * 0x100_0000 + a * 65536 + b * 256 + c) * 64
    requires shift in {2, 4, 6, 8, 10, 12, 14}
    ensures low / Pow2(shift) % 64 ==
            if shift == 2 then c % 4 * 16
            else if shift == 4 then c % 16 * 4
            else if shift == 6 then c % 64
            else if shift == 8 then c / 4
            else if shift == 10 then b % 4 * 16 + c / 16
            else if shift == 12 then b % 16 * 4 + c / 64
            else b % 64
  {
    if shift == 2 {
      Quotient(low, 4, h * 0x40_0000 + a * 16384 + b * 64 + c / 4, c % 4 * 16, 0);
    } else if shift == 4 {
      Quotient(low, 16, h * 0x10_0000 + a * 4096 + b * 16 + c / 16, c % 16 * 4, 0);
    } else if shift == 6 {
      Quotient(low, 64, h * 0x4_0000 + a * 1024 + b * 4 + c / 64, c % 64, 0);
    } else if shift == 8 {
      Quotient(low, 256, h * 65536 + a * 256 + b, c / 4, c % 4 * 64);
    } else if shift == 10 {
      Quotient(low, 1024, h * 16384 + a * 64 + b / 4, b % 4 * 16 + c / 16, c % 16 * 64);
    } else if shift == 12 {
      Quotient(low, 4096, h * 4096 + a * 16 + b / 16, b % 16 * 4 + c / 64, c % 64 * 64);
    } else {
      Quotient(low, 16384, h * 1024 + a * 4 + b / 64, b % 64, c * 64);
    }
  }

  // The first dst characters are written and nothing past the promised size is touched.
  ghost predicate Written(x: seq<byte>, was: seq<char>, out: seq<char>, dst: int) {
    && |was| == |out| && 0 <= dst <= Carrying(|x|) < AvBase64Size(|x|) <= |out|
    && (forall j | 0 <= j < dst :: out[j] == Letter(Sextet(x, j)))
    && forall j | AvBase64Size(|x|) <= j < |out| :: out[j] == was[j]
  }

  lemma CarryingBound(n: nat, k: nat, dst: int)
    requires k <= n && 6 * dst < 8 * k + 6
    ensures dst <= Carrying(n)
    ensures k == n && 8 * n <= 6 * dst ==> dst == Carrying(n)
  {
  }

  lemma SizeBound(n: nat)
    ensures Carrying(n) <= (n + 2) / 3 * 4 < AvBase64Size(n)
    ensures (n + 2) / 3 * 4 < Carrying(n) + 4
  {
  }

  // The do loop: k octets are read, at least six of their bits are pending.
  method EmitPending(out: array<char>, ghost x: seq<byte>, ghost was: seq<char>, bits: nat, k: nat, last: bool, shift0: int, dst0: int)
    returns (shift: int, dst: int)
    requires 0 < k <= |x| && (last <==> k == |x|)
    requires bits < 0x1_0000_0000 && bits % 0x100_0000 == Window(x, k)
    requires Written(x, was, out[..], dst0) && shift0 == 8 * k - 6 * dst0 && 8 <= shift0 <= 14
    modifies out
    ensures Written(x, was, out[..], dst) && shift == 8 * k - 6 * dst
    ensures if last then -6 < shift <= 0 else 0 < shift <= 6
  {
    hide Window, Sextet, Emitted, Letter, Carrying, AvBase64Size;
    shift, dst := shift0, dst0;
    var again := true;
    while again
      invariant Written(x, was, out[..], dst) && shift == 8 * k - 6 * dst
      invariant again ==> 0 < shift <= 14 && (shift < 8 ==> last)
      invariant !again ==> if last then -6 < shift <= 0 else 0 < shift <= 6
      decreases shift + 6, again
    {
      assert shift % 2 == 0;
      EmittedIsSextet(x, k, dst, bits, shift);
      var c := EncodeSix(Emitted(bits, shift));
      CarryingBound(|x|, k, dst + 1);
      out[dst] := c;
      dst := dst + 1;
      shift := shift - 6;
      again := shift > 6 || (last && shift > 0);
    }
  }

  // av_base64_encode_l; None stands for the null pointer.
  method EncodeL(out: array<char>, outSize: int, input: seq<byte>) returns (size: Option<nat>)
    requires outSize <= out.Length
    modifies out
    ensures size.Some? <==> |input| < 0x3fff_ffff && (|input| + 2) / 3 * 4 + 1 <= outSize
    ensures size.Some? ==>
      && size.value == |Rfc4648(input)| == (|input| + 2) / 3 * 4
      && out[..size.value] == Rfc4648(input) && out[size.value] == '\0'
      && out[size.value + 1..] == old(out[size.value + 1..])
    ensures size.None? ==> out[..] == old(out[..])
  {
    if |input| >= UINT_MAX / 4 || outSize < AvBase64Size(|input|) {
      return None;
    }
    var n := |input|;
    ghost var was := out[..];
    SizeBound(n);
    var bits: int, shift: int, dst: int, k := 0, 0, 0, 0;
    while k < n
      invariant 0 <= k <= n && 0 <= bits < 0x1_0000_0000
      invariant bits % 0x100_0000 == Window(input, k)
      invariant Written(input, was, out[..], dst) && shift == 8 * k - 6 * dst
      invariant if k == 0 then shift == 0 else if k < n then 0 < shift <= 6 else -6 < shift <= 0
    {
      WindowShifts(input, k, bits);
      bits := bits * 256 % 0x1_0000_0000 + input[k];
      k := k + 1;
      shift, dst := EmitPending(out, input, was, bits, k, k == n, shift + 8, dst);
    }
    CarryingBound(n, n, dst);
    RfcIsSextets(input);
    dst := Pad(out, was, input);
    out[dst] := '\0';
    assert out[..dst] == Rfc4648(input);
    return Some(dst);
  }

  method Pad(out: array<char>, ghost was: seq<char>, input: seq<byte>) returns (dst: nat)
    requires Written(input, was, out[..], Carrying(|input|))
    modifies out
    ensures dst == |Rfc4648(input)| < AvBase64Size(|input|) <= out.Length == |was|
    ensures forall j | 0 <= j < dst :: out[j] == Rfc4648(input)[j]
    ensures forall j | AvBase64Size(|input|) <= j < out.Length :: out[j] == was[j]
  {
    hide Sextet, Letter, Rfc4648, Carrying, AvBase64Size;
    RfcIsSextets(input);
    SizeBound(|input|);
    ghost var end := |Rfc4648(input)|;
    dst := Carrying(|input|);
    assert forall j | 0 <= j < dst :: out[..][j] == Letter(Sextet(input, j));
    while dst % 4 != 0
      invariant Carrying(|input|) <= dst <= end && end % 4 == 0
      invariant forall j | 0 <= j < dst :: out[j] == Rfc4648(input)[j]
      invariant forall j | AvBase64Size(|input|) <= j < out.Length :: out[j] == was[j]
      decreases end - dst
    {
      out[dst] := '=';
      dst := dst + 1;
    }
  }

  method EncodeBase64(txt: seq<byte>) returns (ret: string)
    ensures ret == if |txt| < 0x3fff_ffff then Rfc4648(txt) else ""
  {
    if txt == [] {
      return "";
    }
    var buffer := new char[AvBase64Size(|txt|) + 10](_ => '\0');
    var size := EncodeL(buffer, buffer.Length, txt);
    if size.None? {
      return "";
    }
    return buffer[..size.value];
  }

  /// Decoding.

  function CharAt(s: string, i: nat): char {
    if i < |s| then s[i] else '\0'
  }

  predicate Stops(c: char) {
    c == '\0' || c == '='
  }

  // The octet completed by the i-th character.
  function Completed(s: string, i: nat): byte
    requires 0 < i < |s| && i % 4 != 0
  {
    Shifted(Value(s[i - 1]) * 64 + Value(s[i]), i % 4) % 256
  }

  // v >> (6 - 2 * r), an arithmetic shift.
  function Shifted(v: int, r: int): int {
    if r == 1 then v / 16 else if r == 2 then v / 4 else v
  }

  // The octets completed by the first n characters.
  function Octets(s: string, n: nat): seq<byte>
    requires n <= |s|
  {
    if n == 0 then []
    else if (n - 1) % 4 == 0 then Octets(s, n - 1)
    else Octets(s, n - 1) + [Completed(s, n - 1)]
  }

  // The characters before the terminator.
  function Payload(s: string): string {
    if s == "" || Stops(s[0]) then "" else [s[0]] + Payload(s[1..])
  }

  predicate Legal(s: string) {
    forall i | 0 <= i < |s| :: Value(s[i]) != 0xff
  }

  lemma {:induction false} PayloadAt(s: string, i: nat)
    requires i <= |Payload(s)|
    ensures |Payload(s)| <= |s|
    ensures i < |Payload(s)| ==> Payload(s)[i] == s[i] && !Stops(s[i])
    ensures i == |Payload(s)| ==> Stops(CharAt(s, i))
    decreases |s|
  {
    if i > 0 {
      PayloadAt(s[1..], i - 1);
    } else if s != "" && !Stops(s[0]) {
      PayloadAt(s[1..], 0);
    }
  }

  lemma {:induction false} OctetCount(s: string, n: nat)
    requires n <= |s|
    ensures |Octets(s, n)| == n - (n + 3) / 4
  {
    if n == 0 {
    } else {
      OctetCount(s, n - 1);
    }
  }

  function Wrap32(v: int): int {
    (v + 0x8000_0000) % 0x1_0000_0000 - 0x8000_0000
  }

  lemma DropMultiple(k: int, a: int)
    ensures (k * 256 + a) % 256 == a % 256
  {
  }

  lemma ShiftBy4(v: int, q: int, w: int)
    requires v == q * 4096 + w
    ensures v / 16 == q * 256 + w / 16
  {
  }

  lemma ShiftBy2(v: int, q: int, w: int)
    requires v == q * 4096 + w
    ensures v / 4 == q * 1024 + w / 4
  {
  }

  // An arithmetic right shift stored in eight bits loses the wrapped part.
  lemma ShiftedOctet(v: int, w: int, r: int)
    requires 0 <= w < 4096 && v % 4096 == w
    ensures Shifted(v, r) % 256 == Shifted(w, r) % 256
  {
    var q := v / 4096;
    if r == 1 {
      ShiftBy4(v, q, w);
      DropMultiple(q, w / 16);
    } else if r == 2 {
      ShiftBy2(v, q, w);
      DropMultiple(q * 4, w / 4);
    } else {
      DropMultiple(q * 16, w);
    }
  }

  function Min(a: int, b: int): int {
    if a < b then a else b
  }

  // The octets that fit in the output buffer are stored.
  ghost predicate Stored(out: seq<byte>, all: seq<byte>, outSize: nat, dst: int) {
    dst == Min(|all|, outSize) <= |out| && out[..dst] == all[..dst]
  }

  // av_base64_decode; the number of octets, or -1.
  method Decode(out: array<byte>, input: string, outSize: nat) returns (n: int)
    requires outSize <= out.Length
    modifies out
    ensures Legal(Payload(input)) ==> Stored(out[..], Octets(Payload(input), |Payload(input)|), outSize, n)
    ensures !Legal(Payload(input)) ==> n == -1
  {
    hide Value, Wrap32, Shifted, Payload;
    ghost var t := Payload(input);
    var dst, v, i := 0, 0, 0;
    PayloadAt(input, 0);
    while !Stops(CharAt(input, i))
      invariant i <= |t| <= |input| && Legal(t[..i])
      invariant i > 0 ==> v % 64 == Value(t[i - 1]) < 64
      invariant Stored(out[..], Octets(t, i), outSize, dst)
      decreases |input| - i
    {
      PayloadAt(input, i);
      var m := DecodeSix(input[i]);
      if m == 0xff {
        assert Value(t[i]) == 0xff;
        return -1;
      }
      Accumulated(v, m);
      ghost var w := v % 64 * 64 + m;
      v := Wrap32(v * 64) + m;
      if i % 4 != 0 {
        ShiftedOctet(v, w, i % 4);
        assert Shifted(v, i % 4) % 256 == Completed(t, i);
        dst := Store(out, Shifted(v, i % 4) % 256, Octets(t, i), outSize, dst);
      }
      assert t[..i + 1] == t[..i] + [t[i]];
      i := i + 1;
      PayloadAt(input, i);
    }
    assert i == |t| by { if i < |t| { PayloadAt(input, i); } }
    assert t[..i] == t;
    return dst;
  }

  method Store(out: array<byte>, octet: byte, ghost all: seq<byte>, outSize: nat, dst0: nat) returns (dst: nat)
    requires outSize <= out.Length && Stored(out[..], all, outSize, dst0)
    modifies out
    ensures Stored(out[..], all + [octet], outSize, dst)
  {
    dst := dst0;
    if dst < outSize {
      out[dst] := octet;
      dst := dst + 1;
    }
  }

  lemma Mod4096(q: int, r: int)
    requires 0 <= r < 4096
    ensures (q * 4096 + r) % 4096 == r
  {
  }

  lemma Mod64(q: int, r: int)
    requires 0 <= r < 64
    ensures (q * 64 + r) % 64 == r
  {
  }

  // The low twelve bits of (v << 6) + m.
  lemma Accumulated(v: int, m: int)
    requires 0 <= m < 64
    ensures (Wrap32(v * 64) + m) % 4096 == v % 64 * 64 + m
    ensures (Wrap32(v * 64) + m) % 64 == m
  {
    var k := (v * 64 + 0x8000_0000) / 0x1_0000_0000;
    var q, w := v / 64, v % 64;
    assert Wrap32(v * 64) == v * 64 - k * 0x1_0000_0000;
    assert v == q * 64 + w;
    assert Wrap32(v * 64) + m == (q - k * 1048576) * 4096 + (w * 64 + m);
    assert Wrap32(v * 64) + m == (v - k * 0x400_0000) * 64 + m;
    Mod4096(q - k * 1048576, w * 64 + m);
    Mod64(v - k * 0x400_0000, m);
  }

  method DecodeBase64(txt: string) returns (ret: seq<byte>)
    ensures ret == if Legal(Payload(txt)) then Octets(Payload(txt), |Payload(txt)|) else []
  {
    if txt == "" {
      return [];
    }
    var buffer := new byte[|txt| * 3 / 4 + 10](_ => 0);
    var size := Decode(buffer, txt, buffer.Length);
    PayloadAt(txt, 0);
    OctetCount(Payload(txt), |Payload(txt)|);
    if size <= 0 {
      return [];
    }
    return buffer[..size];
  }

  /// The two sides together.

  lemma ValueOfLetter(v: int)
    requires 0 <= v < 64
    ensures Value(Letter(v)) == v && !Stops(Letter(v))
  {
  }

  lemma {:induction false} PayloadEnds(s: string, n: nat)
    requires n <= |s| && (forall i | 0 <= i < n :: !Stops(s[i])) && (n < |s| ==> Stops(s[n]))
    ensures Payload(s) == s[..n]
    decreases n
  {
    if n == 0 {
    } else {
      PayloadEnds(s[1..], n - 1);
      assert s[..n] == [s[0]] + s[1..][..n - 1];
    }
  }

  lemma CompletedIsOctet(x: seq<byte>, s: string, i: nat)
    requires 0 < i < |s| <= Carrying(|x|) && i % 4 != 0
    requires forall j | 0 <= j < |s| :: s[j] == Letter(Sextet(x, j))
    ensures i - (i + 3) / 4 < |x| && Completed(s, i) == x[i - (i + 3) / 4]
  {
    hide *;
    ValueOfLetter(Sextet(x, i - 1));
    ValueOfLetter(Sextet(x, i));
    var m := i - (i + 3) / 4;
    Enough(|x|, i);
    NeighbouringSextets(x, i);
    assert Octet(x, m) == x[m] by { OctetOf(x, m); }
    OctetOf(x, m - 1);
    OctetOf(x, m + 1);
    Regrouped(x[m], Octet(x, m - 1), Octet(x, m + 1), i % 4);
    assert Completed(s, i) == Shifted(Sextet(x, i - 1) * 64 + Sextet(x, i), i % 4) % 256 by { CompletedFrom(x, s, i); }
  }

  lemma OctetOf(x: seq<byte>, m: int)
    ensures 0 <= Octet(x, m) < 256
    ensures 0 <= m < |x| ==> Octet(x, m) == x[m]
  {
  }

  lemma Enough(n: nat, i: nat)
    requires i < Carrying(n)
    ensures i % 4 != 0 ==> i - (i + 3) / 4 < n
  {
  }

  lemma CompletedFrom(x: seq<byte>, s: string, i: nat)
    requires 0 < i < |s| && i % 4 != 0
    requires Value(s[i - 1]) == Sextet(x, i - 1) && Value(s[i]) == Sextet(x, i)
    ensures Completed(s, i) == Shifted(Sextet(x, i - 1) * 64 + Sextet(x, i), i % 4) % 256
  {
  }

  // The two groups of six bits that share the octet m.
  lemma NeighbouringSextets(x: seq<byte>, i: nat)
    requires i % 4 != 0
    ensures var m := i - (i + 3) / 4;
      var b, before, after := Octet(x, m), Octet(x, m - 1), Octet(x, m + 1);
      && (i % 4 == 1 ==> Sextet(x, i - 1) == b / 4 && Sextet(x, i) == b % 4 * 16 + after / 16)
      && (i % 4 == 2 ==> Sextet(x, i - 1) == before % 4 * 16 + b / 16 && Sextet(x, i) == b % 16 * 4 + after / 64)
      && (i % 4 == 3 ==> Sextet(x, i - 1) == before % 16 * 4 + b / 64 && Sextet(x, i) == b % 64)
  {
    var q, r := i / 4, i % 4;
    PositionInGroup(i, q, r);
  }

  lemma PositionInGroup(i: nat, q: nat, r: nat)
    requires i == 4 * q + r && 1 <= r < 4
    ensures i / 4 == (i - 1) / 4 == q && (i - 1) % 4 == r - 1
    ensures i - (i + 3) / 4 == 3 * q + r - 1
  {
  }

  // An octet is cut between two groups of six bits and put together again.
  lemma CutAfter6(b: int, a: int)
    requires 0 <= b < 256 && 0 <= a < 16
    ensures (b / 4 * 64 + (b % 4 * 16 + a)) / 16 % 256 == b
  {
  }

  lemma CutAfter4(p: int, b: int, a: int)
    requires 0 <= b < 256 && 0 <= a < 4
    ensures ((p * 16 + b / 16) * 64 + (b % 16 * 4 + a)) / 4 % 256 == b
  {
  }

  lemma CutAfter2(p: int, b: int)
    requires 0 <= b < 256
    ensures ((p * 4 + b / 64) * 64 + b % 64) % 256 == b
  {
  }

  lemma Regrouped(b: int, before: int, after: int, r: int)
    requires 0 <= b < 256 && 0 <= before < 256 && 0 <= after < 256 && 1 <= r < 4
    ensures r == 1 ==> Shifted(b / 4 * 64 + (b % 4 * 16 + after / 16), 1) % 256 == b
    ensures r == 2 ==> Shifted((before % 4 * 16 + b / 16) * 64 + (b % 16 * 4 + after / 64), 2) % 256 == b
    ensures r == 3 ==> Shifted((before % 16 * 4 + b / 64) * 64 + b % 64, 3) % 256 == b
  {
    if r == 1 {
      CutAfter6(b, after / 16);
    } else if r == 2 {
      CutAfter4(before % 4, b, after / 64);
    } else {
      CutAfter2(before % 16, b);
    }
  }

  lemma {:induction false} OctetsOfSextets(x: seq<byte>, s: string, n: nat)
    requires n <= |s| <= Carrying(|x|) && forall j | 0 <= j < |s| :: s[j] == Letter(Sextet(x, j))
    ensures |Octets(s, n)| == n - (n + 3) / 4 <= |x| && Octets(s, n) == x[..n - (n + 3) / 4]
    decreases n
  {
    hide Completed, Sextet, Letter, Carrying;
    OctetCount(s, n);
    if n == 0 {
    } else {
      OctetsOfSextets(x, s, n - 1);
      if (n - 1) % 4 != 0 {
        CompletedIsOctet(x, s, n - 1);
      }
    }
  }

  lemma DecodesToInput(x: seq<byte>)
    ensures var p := Payload(Rfc4648(x)); Legal(p) && Octets(p, |p|) == x
  {
    var s, n := Rfc4648(x), Carrying(|x|);
    RfcIsSextets(x);
    forall j | 0 <= j < n
      ensures !Stops(s[j]) && Value(s[j]) != 0xff
    {
      ValueOfLetter(Sextet(x, j));
    }
    PayloadEnds(s, n);
    OctetsOfSextets(x, s[..n], n);
  }

  method RoundTrip(x: seq<byte>) returns (y: seq<byte>)
    requires |x| < 0x3fff_ffff
    ensures y == x
  {
    var s := EncodeBase64(x);
    y := DecodeBase64(s);
    DecodesToInput(x);
  }

  lemma EncodingInjective(x: seq<byte>, y: seq<byte>)
    requires Rfc4648(x) == Rfc4648(y)
    ensures x == y
  {
    DecodesToInput(x);
    DecodesToInput(y);
  }

  // The converse round trip fails: leftover bits before the padding are ignored.
  lemma LeftoverBitsIgnored()
    ensures Octets(Payload("QQ=="), 2) == Octets(Payload("QR=="), 2) == [65]
    ensures Payload("QQ==") == "QQ" && Payload("QR==") == "QR"
  {
    PayloadEnds("QQ==", 2);
    PayloadEnds("QR==", 2);
    var s, t := "QQ", "QR";
    assert Value('Q') == 16 && Value('R') == 17;
    assert Octets(s, 1) == [] == Octets(t, 1);
  }
}
