/** Characters, numbers and slices that both HTTP parsers and printers use. */
module HttpText {
  const CR := '\r'
  const LF := '\n'
  const CRLF := "\r\n"

  predicate IsBlank(c: char) { c == ' ' || c == '\t' }

  predicate IsUpper(c: char) { 'A' <= c <= 'Z' }

  predicate IsDigit(c: char) { '0' <= c <= '9' }

  // The text with the NUL that ends it.
  function CharAt(msg: string, i: nat): char {
    if i < |msg| then msg[i] else '\0'
  }

  // std::string(begin + a, begin + b).
  function Slice(msg: string, a: nat, b: nat): string {
    if a <= b <= |msg| then msg[a..b] else ""
  }

  // What is left of the text at position i.
  function Rest(msg: string, i: nat): nat {
    if i <= |msg| then |msg| - i else 0
  }

  // s stands at position i.
  predicate At(msg: string, i: nat, s: string) {
    i + |s| <= |msg| && msg[i..i + |s|] == s
  }

  lemma AtSplits(msg: string, i: nat, a: string, b: string)
    requires At(msg, i, a + b)
    ensures At(msg, i, a) && At(msg, i + |a|, b)
  {
    var s := msg[i..i + |a + b|];
    assert s[..|a|] == a && s[|a|..] == b;
    assert msg[i..i + |a|] == s[..|a|];
    assert msg[i + |a|..i + |a| + |b|] == s[|a|..];
  }

  lemma AtJoins(msg: string, i: nat, a: string, b: string)
    requires At(msg, i, a) && At(msg, i + |a|, b)
    ensures At(msg, i, a + b)
  {
    assert msg[i..i + |a + b|] == msg[i..i + |a|] + msg[i + |a|..i + |a| + |b|];
  }

  lemma AtChar(msg: string, i: nat, s: string, k: nat)
    requires At(msg, i, s) && k < |s|
    ensures CharAt(msg, i + k) == s[k]
  {
  }

  lemma Slices(msg: string, i: nat, s: string)
    requires At(msg, i, s)
    ensures i + |s| <= |msg| && Slice(msg, i, i + |s|) == s
    ensures forall k | i <= k < i + |s| :: CharAt(msg, k) == s[k - i]
  {
    forall k | i <= k < i + |s| ensures CharAt(msg, k) == s[k - i] { AtChar(msg, i, s, k - i); }
  }

  /// std::to_string and atoi.

  function Digit(d: nat): char
    requires d < 10
  {
    '0' + d as char
  }

  function DigitValue(c: char): nat
    requires IsDigit(c)
  {
    c as nat - '0' as nat
  }

  function Decimal(n: nat): (s: string)
    ensures s != "" && forall i | 0 <= i < |s| :: IsDigit(s[i])
  {
    if n < 10 then [Digit(n)] else Decimal(n / 10) + [Digit(n % 10)]
  }

  function ToString(n: int): string {
    if n < 0 then "-" + Decimal(-n) else Decimal(n)
  }

  function Accumulate(s: string, acc: nat): nat {
    if s == "" || !IsDigit(s[0]) then acc else Accumulate(s[1..], acc * 10 + DigitValue(s[0]))
  }

  predicate IsSpace(c: char) {
    IsBlank(c) || c == CR || c == LF || c == 11 as char || c == 12 as char
  }

  function SkipSpace(s: string): string {
    if s != "" && IsSpace(s[0]) then SkipSpace(s[1..]) else s
  }

  const LONG_MAX := 0x7fff_ffff_ffff_ffff

  function ToInt32(n: int): int {
    (n + 0x8000_0000) % 0x1_0000_0000 - 0x8000_0000
  }

  predicate Negative(s0: string) {
    var s := SkipSpace(s0);
    s != "" && s[0] == '-'
  }

  // What follows white space and a sign.
  function Digits(s0: string): string {
    var s := SkipSpace(s0);
    if s != "" && (s[0] == '-' || s[0] == '+') then s[1..] else s
  }

  // (int) strtol(s, 0, 10)
  function Atoi(s0: string): int {
    var n: int := Accumulate(Digits(s0), 0);
    ToInt32(if Negative(s0) then (if n > LONG_MAX then -LONG_MAX - 1 else -n) else if n > LONG_MAX then LONG_MAX else n)
  }

  lemma {:induction false} AccumulateSnoc(s: string, c: char, acc: nat)
    requires (forall i | 0 <= i < |s| :: IsDigit(s[i])) && IsDigit(c)
    ensures Accumulate(s + [c], acc) == Accumulate(s, acc) * 10 + DigitValue(c)
    decreases |s|
  {
    if s == "" {
      assert s + [c] == [c];
    } else {
      assert (s + [c])[1..] == s[1..] + [c];
      AccumulateSnoc(s[1..], c, acc * 10 + DigitValue(s[0]));
    }
  }

  lemma {:induction false} AccumulateDecimal(n: nat)
    ensures Accumulate(Decimal(n), 0) == n
  {
    if n < 10 {
    } else {
      AccumulateDecimal(n / 10);
      AccumulateSnoc(Decimal(n / 10), Digit(n % 10), 0);
    }
  }

  lemma AtoiDecimal(n: nat)
    requires n < 0x8000_0000
    ensures Atoi(Decimal(n)) == n
  {
    AccumulateDecimal(n);
    assert IsDigit(Decimal(n)[0]);
  }

  // White space in front of a number does not count.
  lemma AtoiIgnoresSpace(c: char, s: string)
    requires c in " \t\n\r" || c == 11 as char || c == 12 as char
    ensures Atoi([c] + s) == Atoi(s)
  {
    assert ([c] + s)[1..] == s;
  }

  predicate Int32Of(r: int, m: int) {
    -0x8000_0000 <= r < 0x8000_0000 && (r - m) % 0x1_0000_0000 == 0
  }

  lemma ToInt32Is(m: int)
    ensures Int32Of(ToInt32(m), m)
  {
    var k := (m + 0x8000_0000) / 0x1_0000_0000;
    assert ToInt32(m) - m == -k * 0x1_0000_0000;
  }

  // Beyond the range of a long the number is cut off there, and then to an int.
  lemma AtoiWraps(n: nat)
    ensures Int32Of(Atoi(Decimal(n)), if n <= 0x7fff_ffff_ffff_ffff then n else 0x7fff_ffff_ffff_ffff)
    ensures Int32Of(Atoi("-" + Decimal(n)), if n <= 0x8000_0000_0000_0000 then -(n as int) else -0x8000_0000_0000_0000)
  {
    AccumulateDecimal(n);
    DecimalStarts(n);
    var m: int := if n <= 0x7fff_ffff_ffff_ffff then n else 0x7fff_ffff_ffff_ffff;
    ToInt32Is(m);
    ToInt32Is(if n <= 0x8000_0000_0000_0000 then -(n as int) else -0x8000_0000_0000_0000);
    hide ToInt32, Int32Of, Decimal, Accumulate, SkipSpace;
  }

  lemma DecimalStarts(n: nat)
    ensures var d := Decimal(n);
      SkipSpace(d) == d && d[0] != '-' && d[0] != '+' && ("-" + d)[1..] == d && SkipSpace("-" + d) == "-" + d
  {
    assert IsDigit(Decimal(n)[0]);
  }

  // Some byte ends the number, so that atoi reads none after it.
  predicate AtoiStops(s0: string) {
    exists i | 0 <= i < |Digits(s0)| :: !IsDigit(Digits(s0)[i])
  }

  lemma {:induction false} SkipSpaceStops(s: string, more: string)
    requires SkipSpace(s) != ""
    ensures SkipSpace(s + more) == SkipSpace(s) + more
    decreases |s|
  {
    if !IsSpace(s[0]) {
    } else {
      assert (s + more)[1..] == s[1..] + more;
      SkipSpaceStops(s[1..], more);
    }
  }

  lemma {:induction false} AccumulateStops(s: string, more: string, acc: nat)
    requires exists i | 0 <= i < |s| :: !IsDigit(s[i])
    ensures Accumulate(s + more, acc) == Accumulate(s, acc)
    decreases |s|
  {
    assert (s + more)[0] == s[0];
    if !IsDigit(s[0]) {
    } else {
      var i :| 0 <= i < |s| && !IsDigit(s[i]);
      assert !IsDigit(s[1..][i - 1]);
      assert (s + more)[1..] == s[1..] + more;
      AccumulateStops(s[1..], more, acc * 10 + DigitValue(s[0]));
    }
  }

  lemma MoreDigits(s: string, more: string)
    requires SkipSpace(s) != ""
    ensures Digits(s + more) == Digits(s) + more && (Negative(s + more) <==> Negative(s))
  {
    SkipSpaceStops(s, more);
    hide SkipSpace;
    var t := SkipSpace(s);
    assert (t + more)[0] == t[0] && (t + more)[1..] == t[1..] + more;
  }

  // Then whatever lies behind the text makes no difference.
  lemma AtoiReadsNoFurther(s0: string, more: string)
    requires AtoiStops(s0)
    ensures Atoi(s0 + more) == Atoi(s0)
  {
    assert Digits(s0) != "" && SkipSpace(s0) != "";
    hide Accumulate, SkipSpace, IsDigit, Digits, Negative;
    MoreDigits(s0, more);
    AccumulateStops(Digits(s0), more, 0);
  }

  // A text of at most ten bytes, as an array of that length holds it, ends the
  // number exactly when a digit behind it makes no difference.
  lemma AtoiStopsExactly(s0: string)
    requires |s0| <= 10
    ensures AtoiStops(s0) <==> Atoi(s0 + "0") == Atoi(s0 + "1")
  {
    if AtoiStops(s0) {
      AtoiReadsNoFurther(s0, "0");
      AtoiReadsNoFurther(s0, "1");
    } else if SkipSpace(s0) == "" {
      OnlySpace(s0, "0");
      OnlySpace(s0, "1");
      ZeroAndOne(s0);
    } else {
      SkippedLength(s0);
      hide SkipSpace, Accumulate, Atoi, Digits, Negative, ToInt32;
      DigitBehind(s0, '0');
      DigitBehind(s0, '1');
      NextDiffers(10 * Accumulate(Digits(s0), 0), Negative(s0));
    }
  }

  lemma ZeroAndOne(s0: string)
    requires SkipSpace(s0 + "0") == SkipSpace("0") && SkipSpace(s0 + "1") == SkipSpace("1")
    ensures Atoi(s0 + "0") != Atoi(s0 + "1")
  {
    assert "0"[1..] == "" && "1"[1..] == "";
    assert Accumulate("0", 0) == 0 && Accumulate("1", 0) == 1;
  }

  function Signed(n: nat, negative: bool): int {
    if negative then -(n as int) else n
  }

  lemma {:induction false} DigitBehind(s0: string, c: char)
    requires SkipSpace(s0) != "" && |Digits(s0)| <= 10 && (c == '0' || c == '1')
    requires forall i | 0 <= i < |Digits(s0)| :: IsDigit(Digits(s0)[i])
    ensures Atoi(s0 + [c]) == ToInt32(Signed(10 * Accumulate(Digits(s0), 0) + if c == '0' then 0 else 1, Negative(s0)))
  {
    MoreDigits(s0, [c]);
    AccumulateSnoc(Digits(s0), c, 0);
    TenDigitNumber(Digits(s0));
    hide SkipSpace, Accumulate, Digits, Negative, ToInt32;
    assert Accumulate(Digits(s0) + [c], 0) == 10 * Accumulate(Digits(s0), 0) + if c == '0' then 0 else 1;
  }

  lemma TenDigitNumber(s: string)
    requires |s| <= 10 && forall i | 0 <= i < |s| :: IsDigit(s[i])
    ensures Accumulate(s, 0) < 10000000000
  {
    AccumulateBound(s, 0);
    TenDigits(|s|);
  }

  lemma NextDiffers(n: nat, negative: bool)
    ensures ToInt32(Signed(n, negative)) != ToInt32(Signed(n + 1, negative))
  {
    ToInt32Is(Signed(n, negative));
    ToInt32Is(Signed(n + 1, negative));
  }

  lemma {:induction false} SkippedLength(s: string)
    ensures |SkipSpace(s)| <= |s| && |Digits(s)| <= |s|
    decreases |s|
  {
    if s == "" || !IsSpace(s[0]) {
    } else {
      SkippedLength(s[1..]);
    }
  }

  lemma {:induction false} OnlySpace(s: string, x: string)
    requires SkipSpace(s) == ""
    ensures SkipSpace(s + x) == SkipSpace(x)
    decreases |s|
  {
    if s == "" {
      assert s + x == x;
    } else {
      assert (s + x)[1..] == s[1..] + x;
      OnlySpace(s[1..], x);
    }
  }

  function Tens(n: nat): (p: nat)
    ensures p > 0
  {
    if n == 0 then 1 else 10 * Tens(n - 1)
  }

  lemma TenDigits(n: nat)
    requires n <= 10
    ensures Tens(n) <= 10000000000
  {
    assert Tens(1) == 10 && Tens(2) == 100 && Tens(3) == 1000 && Tens(4) == 10000 && Tens(5) == 100000;
    assert Tens(6) == 1000000 && Tens(7) == 10000000 && Tens(8) == 100000000 && Tens(9) == 1000000000;
  }

  // A number of n digits is below the n-th power of ten.
  lemma {:induction false} AccumulateBound(s: string, acc: nat)
    requires forall i | 0 <= i < |s| :: IsDigit(s[i])
    ensures Accumulate(s, acc) < (acc + 1) * Tens(|s|)
    decreases |s|
  {
    if s == "" {
    } else {
      var d := DigitValue(s[0]);
      AccumulateBound(s[1..], acc * 10 + d);
      Scaled(acc, d, Tens(|s| - 1));
    }
  }

  lemma Scaled(acc: nat, d: nat, p: nat)
    requires d < 10
    ensures (acc * 10 + d + 1) * p <= (acc + 1) * (10 * p)
  {
    assert (acc + 1) * (10 * p) == (acc * 10 + 10) * p;
    assert (acc * 10 + 10) * p == (acc * 10 + d + 1) * p + (9 - d) * p;
  }

  /// The grammar of messages

  // Which bytes may stand where, whatever a parser tests for.

  predicate Gap(c: char) { c == ' ' || c == '\t' }

  predicate Skipped(c: char) { Gap(c) || c == '\r' || c == '\n' }

  function Blanks(s: string): (j: nat)
    ensures j <= |s| && (forall i | 0 <= i < j :: Gap(s[i])) && (j < |s| ==> !Gap(s[j]))
  {
    if s != "" && Gap(s[0]) then 1 + Blanks(s[1..]) else 0
  }

  function Lead(s: string): (j: nat)
    ensures j <= |s| && (forall i | 0 <= i < j :: Skipped(s[i])) && (j < |s| ==> !Skipped(s[j]))
  {
    if s != "" && Skipped(s[0]) then 1 + Lead(s[1..]) else 0
  }

  // Upper-case letters, at least one, with anything in front that is skipped.
  predicate Capitals(m: string) {
    Lead(m) < |m| && forall i | Lead(m) <= i < |m| :: 'A' <= m[i] <= 'Z'
  }

  predicate GoodVersion(s: string) {
    s != "" && '0' <= s[0] <= '9' && forall i | 1 <= i < |s| :: '0' <= s[i] <= '9' || s[i] == '.'
  }

  // Digits, at least one, with blanks in front.
  predicate GoodCode(s: string) {
    Blanks(s) < |s| && forall i | Blanks(s) <= i < |s| :: '0' <= s[i] <= '9'
  }

  // A non-blank byte, and no CR after the first one.
  predicate GoodReason(s: string) {
    var j := Blanks(s);
    j < |s| && forall i | j < i < |s| :: s[i] != '\r'
  }

  predicate GoodKey(k: string) {
    && k != "" && k[0] != '\r' && !Gap(k[0])
    && forall i | 1 <= i < |k| :: k[i] != ':'
  }

  predicate GoodValue(v: string) {
    '\r' !in v
  }

  function HeaderLine(k: string, v: string): string {
    k + ": " + v + CRLF
  }

  type Headers = seq<(string, string)>

  function HeaderLines(hs: Headers): string {
    if hs == [] then "" else HeaderLine(hs[0].0, hs[0].1) + HeaderLines(hs[1..])
  }

  // A later entry overwrites an earlier one.
  function LastWins(m: map<string, string>, hs: Headers): map<string, string>
    decreases |hs|
  {
    if hs == [] then m else LastWins(m[hs[0].0 := hs[0].1], hs[1..])
  }

  lemma {:induction false} HeaderLinesJoin(a: Headers, b: Headers)
    ensures HeaderLines(a + b) == HeaderLines(a) + HeaderLines(b)
    decreases |a|
  {
    if a == [] {
      assert a + b == b;
    } else {
      HeaderLinesJoin(a[1..], b);
      assert (a + b)[1..] == a[1..] + b;
    }
  }

  lemma {:induction false} LastWinsJoin(m: map<string, string>, a: Headers, b: Headers)
    ensures LastWins(m, a + b) == LastWins(LastWins(m, a), b)
    decreases |a|
  {
    if a == [] {
      assert a + b == b;
    } else {
      LastWinsJoin(m[a[0].0 := a[0].1], a[1..], b);
      assert (a + b)[1..] == a[1..] + b;
    }
  }

  // A header line as anybody may write it.  Whatever byte follows the colon, it
  // is not part of the value.
  function RawLine(k: string, raw: string): string {
    k + (":" + (raw + CRLF))
  }

  function RawLines(hs: Headers): string {
    if hs == [] then "" else RawLine(hs[0].0, hs[0].1) + RawLines(hs[1..])
  }

  predicate GoodRaw(hs: Headers) {
    forall i | 0 <= i < |hs| :: GoodKey(hs[i].0) && hs[i].1 != "" && GoodValue(hs[i].1)
  }

  function Values(hs: Headers): Headers
    requires forall i | 0 <= i < |hs| :: hs[i].1 != ""
  {
    seq(|hs|, i requires 0 <= i < |hs| => (hs[i].0, hs[i].1[1..]))
  }

  // The printers put a blank behind the colon.
  function Spaced(hs: Headers): Headers {
    seq(|hs|, i requires 0 <= i < |hs| => (hs[i].0, " " + hs[i].1))
  }

  lemma {:induction false} SpacedLines(hs: Headers)
    ensures RawLines(Spaced(hs)) == HeaderLines(hs)
    decreases |hs|
  {
    if hs == [] {
    } else {
      assert Spaced(hs)[1..] == Spaced(hs[1..]);
      SpacedLines(hs[1..]);
      var k, v := hs[0].0, hs[0].1;
      assert k + ": " + v + CRLF == k + (":" + ((" " + v) + CRLF));
    }
  }

  lemma SpacedValues(hs: Headers)
    requires GoodHeaders(hs)
    ensures GoodRaw(Spaced(hs)) && Values(Spaced(hs)) == hs
  {
    forall i | 0 <= i < |hs| ensures Spaced(hs)[i].1[1..] == hs[i].1 && GoodValue(Spaced(hs)[i].1) {
      assert (" " + hs[i].1)[1..] == hs[i].1;
    }
    assert Values(Spaced(hs)) == hs;
  }

  predicate GoodHeaders(hs: Headers) {
    forall i | 0 <= i < |hs| :: GoodKey(hs[i].0) && GoodValue(hs[i].1)
  }

  lemma RawParts(msg: string, i: nat, k: string, raw: string)
    requires At(msg, i, RawLine(k, raw))
    ensures At(msg, i, k) && At(msg, i + |k|, ":") && At(msg, i + |k| + 1, raw) && At(msg, i + |k| + 1 + |raw|, CRLF)
    ensures |RawLine(k, raw)| == |k| + 1 + |raw| + 2
  {
    hide At;
    AtSplits(msg, i, k, ":" + (raw + CRLF));
    AtSplits(msg, i + |k|, ":", raw + CRLF);
    AtSplits(msg, i + |k| + 1, raw, CRLF);
  }

  lemma WholeMessage(msg: string)
    ensures At(msg, 0, msg)
  {
  }

  /// Maps and the order in which they are walked.

  predicate Enumerates(order: seq<string>, headers: map<string, string>) {
    && (forall k | k in order :: k in headers)
    && (forall k | k in headers :: k in order)
    && forall i, j | 0 <= i < j < |order| :: order[i] != order[j]
  }

  function Entries(headers: map<string, string>, order: seq<string>): Headers
    requires forall k | k in order :: k in headers
  {
    seq(|order|, i requires 0 <= i < |order| => (order[i], headers[order[i]]))
  }

  // The order in which the map is printed does not matter.
  lemma {:induction false} EntriesMerge(m: map<string, string>, headers: map<string, string>, order: seq<string>)
    requires forall k | k in order :: k in headers
    ensures LastWins(m, Entries(headers, order)) == m + map k | k in order :: headers[k]
    decreases |order|
  {
    if order == [] {
    } else {
      var k := order[0];
      assert Entries(headers, order)[1..] == Entries(headers, order[1..]);
      EntriesMerge(m[k := headers[k]], headers, order[1..]);
    }
  }

  predicate GoodMap(headers: map<string, string>) {
    forall k | k in headers :: GoodKey(k) && GoodValue(headers[k])
  }

  lemma {:induction false} GoodHeadersMerge(m: map<string, string>, hs: Headers)
    requires GoodMap(m) && GoodHeaders(hs)
    ensures GoodMap(LastWins(m, hs))
    decreases |hs|
  {
    hide GoodKey, GoodValue;
    if hs == [] {
    } else {
      GoodHeadersMerge(m[hs[0].0 := hs[0].1], hs[1..]);
    }
  }

  lemma ValuesAreGood(hs: Headers)
    requires GoodRaw(hs)
    ensures GoodHeaders(Values(hs))
  {
  }

  /// Small facts about text.

  // Leading blanks of a number do not matter.
  lemma {:induction false} AtoiPadded(blanks: string, n: nat)
    requires Blanks(blanks) == |blanks| && n < 0x8000_0000
    ensures GoodCode(blanks + Decimal(n)) && Atoi(blanks + Decimal(n)) == n
  {
    AtoiDecimal(n);
    var d := Decimal(n);
    PaddingSkipped(blanks, d);
    var s := blanks + d;
    assert !Gap(s[|blanks|]) && forall i | 0 <= i < |blanks| :: s[i] == blanks[i];
    assert SkipSpace(d) == d;
  }

  lemma {:induction false} PaddingSkipped(blanks: string, s: string)
    requires Blanks(blanks) == |blanks|
    ensures SkipSpace(blanks + s) == SkipSpace(s)
    decreases |blanks|
  {
    if blanks == "" {
      assert blanks + s == s;
    } else {
      assert (blanks + s)[1..] == blanks[1..] + s;
      PaddingSkipped(blanks[1..], s);
    }
  }

  // atoi of what to_string prints, negative numbers too.
  lemma AtoiToString(n: int)
    requires -0x8000_0000 <= n < 0x8000_0000
    ensures Atoi(ToString(n)) == n
  {
    if n >= 0 {
      AtoiDecimal(n);
    } else {
      AccumulateDecimal(-n);
      assert ToString(n)[1..] == Decimal(-n);
    }
  }

  lemma AtSlice(msg: string, i: nat, j: nat)
    requires i <= j <= |msg|
    ensures At(msg, i, msg[i..j])
  {
  }

  lemma AtByte(msg: string, i: nat)
    requires i < |msg|
    ensures At(msg, i, [msg[i]])
  {
  }

  lemma LeadIs(s: string, a: nat)
    requires a < |s| && (forall i | 0 <= i < a :: Skipped(s[i])) && !Skipped(s[a])
    ensures Lead(s) == a
  {
  }

  lemma BlanksIs(s: string, a: nat)
    requires a < |s| && (forall i | 0 <= i < a :: Gap(s[i])) && !Gap(s[a])
    ensures Blanks(s) == a
  {
  }

  lemma LineJoined(msg: string, i: nat, k: string, raw: string)
    requires At(msg, i, k) && At(msg, i + |k|, ":") && At(msg, i + |k| + 1, raw) && At(msg, i + |k| + 1 + |raw|, CRLF)
    ensures At(msg, i, RawLine(k, raw)) && |RawLine(k, raw)| > 0
  {
    hide At;
    AtJoins(msg, i + |k| + 1, raw, CRLF);
    AtJoins(msg, i + |k|, ":", raw + CRLF);
    AtJoins(msg, i, k, ":" + (raw + CRLF));
  }

  lemma WholeText(msg: string, s: string)
    requires At(msg, 0, s) && |s| == |msg|
    ensures s == msg
  {
  }

  lemma ValueChar(v: string, k: nat)
    requires GoodValue(v) && k < |v|
    ensures v[k] != CR
  {
  }
}
