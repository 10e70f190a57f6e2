/** Each rule that only one direction has, firing between a '<' and its end, can
    lead the backward scan elsewhere; it need not. */
module AngleRules {
  import opened Wrappers
  import opened ExpressionScanner
  import opened AngleTracking

  /// Scans with nothing but angles on the stack: one angle and the soft
  /// characters behind it.

  function Angles(c: char, n: nat): seq<char> {
    seq(n, _ => c)
  }

  predicate SoftBetween(line: string, i: nat, j: nat) {
    i <= j <= |line| && forall k | i <= k < j :: !Solid(line[k])
  }

  lemma {:induction false} SoftForward(line: string, i: nat, j: nat, stack: seq<char>)
    requires SoftBetween(line, i, j)
    ensures Forward(line, i, stack) == Forward(line, j, stack)
    decreases j - i
  {
    if i == j {
    } else {
      SoftForward(line, i + 1, j, stack);
    }
  }

  lemma {:induction false} SoftBackward(line: string, m: nat, n: nat, stack: seq<char>)
    requires SoftBetween(line, m, n)
    ensures Backward(line, n, stack) == Backward(line, m, stack)
    decreases n - m
  {
    if n == m {
    } else {
      SoftBackward(line, m, n - 1, stack);
    }
  }

  lemma PushTo(line: string, i: nat, j: nat, n: nat)
    requires i < |line| && line[i] == '<' && ForwardPushes(line, i) && SoftBetween(line, i + 1, j)
    ensures Forward(line, i, Angles('<', n)) == Forward(line, j, Angles('<', n + 1))
  {
    assert Angles('<', n) + ['<'] == Angles('<', n + 1);
    SoftForward(line, i + 1, j, Angles('<', n + 1));
  }

  lemma PopTo(line: string, i: nat, j: nat, n: nat)
    requires n > 1 && i < |line| && SoftBetween(line, i + 1, j)
    requires (line[i] == '>' && ForwardPops(line, i)) || (line[i] == '<' && i > 0 && line[i - 1] == '<')
    ensures Forward(line, i, Angles('<', n)) == Forward(line, j, Angles('<', n - 1))
  {
    assert Angles('<', n)[..n - 1] == Angles('<', n - 1);
    SoftForward(line, i + 1, j, Angles('<', n - 1));
  }

  lemma PopLast(line: string, i: nat)
    requires i < |line| && line[i] == '>' && ForwardPops(line, i)
    ensures Forward(line, i, Angles('<', 1)) == Found(i + 1)
  {
  }

  // A '<' or '>' that belongs to the word operator.
  lemma OperatorTo(line: string, i: nat, j: nat, n: nat)
    requires 0 < i < |line| && SoftBetween(line, i + 1, j)
    requires if line[i] == '<' then line[i - 1] != '<' && EndsWithOperator(line[..i]) else line[i] == '>' && !ForwardPops(line, i)
    ensures Forward(line, i, Angles('<', n)) == Forward(line, j, Angles('<', n))
  {
    SoftForward(line, i + 1, j, Angles('<', n));
  }

  lemma PushBackTo(line: string, i: nat, m: nat, n: nat)
    requires i < |line| && line[i] == '>' && BackwardPushes(line, i) && SoftBetween(line, m, i)
    ensures Backward(line, i + 1, Angles('>', n)) == Backward(line, m, Angles('>', n + 1))
  {
    assert Angles('>', n) + ['>'] == Angles('>', n + 1);
    SoftBackward(line, m, i, Angles('>', n + 1));
  }

  lemma SkipBackTo(line: string, i: nat, m: nat, n: nat)
    requires 0 < i < |line| && Skips(line, i) && SoftBetween(line, m, i - 1)
    ensures Backward(line, i + 1, Angles('>', n)) == Backward(line, m, Angles('>', n))
  {
    SoftBackward(line, m, i - 1, Angles('>', n));
  }

  lemma PopBack(line: string, i: nat, n: nat)
    requires n > 0 && i < |line| && line[i] == '<' && !Skips(line, i)
    ensures Backward(line, i + 1, Angles('>', n)) == if n == 1 then Found(i) else Backward(line, i, Angles('>', n - 1))
  {
    assert Angles('>', n)[..n - 1] == Angles('>', n - 1);
  }

  lemma NothingLeft(line: string, n: nat)
    ensures Backward(line, 0, Angles('>', n)) == Unfinished(Angles('>', n))
  {
  }

  lemma EmptyStack()
    ensures Angles('<', 0) == [] && Angles('>', 0) == []
  {
  }

  /// Where the word operator ends

  lemma {:induction false} TrimTo(s: string, k: nat)
    requires k <= |s| && (k > 0 ==> !IsSpace(s[k - 1])) && forall i | k <= i < |s| :: IsSpace(s[i])
    ensures TrimRight(s) == s[..k]
    decreases |s|
  {
    if |s| == k {
      assert s[..k] == s;
    } else {
      TrimTo(s[..|s| - 1], k);
      assert s[..|s| - 1][..k] == s[..k];
    }
  }

  // Not without an 'r' before the blanks.
  lemma NoOperator(s: string, k: nat)
    requires k <= |s| && (k > 0 ==> !IsSpace(s[k - 1]) && s[k - 1] != 'r') && forall i | k <= i < |s| :: IsSpace(s[i])
    ensures !EndsWithOperator(s)
  {
    TrimTo(s, k);
    var t := TrimRight(s);
    if |t| >= |OPERATOR| { assert t[|t| - |OPERATOR|..][|OPERATOR| - 1] == t[|t| - 1]; }
  }

  /// The texts each regular expression matches

  predicate Space(c: char) {
    c in " \t\n\r" || c == 11 as char || c == 12 as char
  }

  predicate WordEnds(a: string) {
    a != "" ==>
      var c := a[|a| - 1];
      !('a' <= c <= 'z') && !('A' <= c <= 'Z') && !('0' <= c <= '9') && c != '_'
  }

  predicate OperatorAt(s: string, k: nat) {
    k + 8 <= |s| && s[k..k + 8] == "operator" && WordEnds(s[..k]) && forall i | k + 8 <= i < |s| :: Space(s[i])
  }

  lemma {:induction false} Trimmed(s: string)
    ensures var t := TrimRight(s);
      && |t| <= |s| && t == s[..|t|] && (t != "" ==> !IsSpace(t[|t| - 1])) && forall i | |t| <= i < |s| :: IsSpace(s[i])
    decreases |s|
  {
    if s == "" || !IsSpace(s[|s| - 1]) {
      assert s[..|s|] == s;
    } else {
      Trimmed(s[..|s| - 1]);
      var t := TrimRight(s);
      assert s[..|s| - 1][..|t|] == s[..|t|];
    }
  }

  // \boperator\s*$
  lemma OperatorExactly(s: string)
    ensures EndsWithOperator(s) <==> exists k: nat :: OperatorAt(s, k)
  {
    if EndsWithOperator(s) {
      Trimmed(s);
      var t := TrimRight(s);
      var k: nat := |t| - 8;
      assert t[k..] == s[k..k + 8] && OperatorAt(s, k);
    }
    forall k: nat | OperatorAt(s, k) ensures EndsWithOperator(s) {
      assert s[k..k + 8][7] == s[k + 7] == 'r';
      TrimTo(s, k + 8);
      assert TrimRight(s)[k..] == s[k..k + 8];
    }
  }

  // \s>=\s
  lemma SpacedGeExactly(s: string)
    ensures StartsWithSpacedGe(s) <==> exists a, b, rest :: Space(a) && Space(b) && s == [a] + (">=" + ([b] + rest))
  {
    if StartsWithSpacedGe(s) {
      assert Space(s[0]) && Space(s[3]) && s == [s[0]] + (">=" + ([s[3]] + s[4..]));
    }
  }

  // <[<=]
  lemma ShiftOrLeExactly(s: string)
    ensures StartsWithShiftOrLe(s) <==> exists rest :: s == "<<" + rest || s == "<=" + rest
  {
    if StartsWithShiftOrLe(s) {
      var rest := s[2..];
      assert s == [s[0], s[1]] + rest;
      assert s == "<<" + rest || s == "<=" + rest;
    }
  }

  lemma BehindOperator(line: string)
    requires |line| > 10 && line[..10] == "< operator"
    ensures EndsWithOperator(line[..10]) && line[0] == '<' && line[9] == 'r' && SoftBetween(line, 1, 10)
  {
    var s := line[..10];
    assert s[9] == 'r';
    TrimTo(s, 10);
    assert s[..10] == s && s[2..] == OPERATOR;
    assert forall k | 0 <= k < 10 :: line[k] == s[k];
  }

  /// The lines

  // A blank, ">=" and a blank are skipped backwards only.
  const SPACED := "< < >= > >"

  lemma Spaced()
    ensures Forward(SPACED, 0, Angles('<', 0)) == Found(8)
    ensures Backward(SPACED, 8, Angles('>', 0)) == Found(2)
  {
    var line := SPACED;
    hide Forward, Backward, EndsWithOperator, Angles;
    assert line[0] == line[2] == '<' && line[1] == line[3] == ' ' && line[4] == '>' && line[5] == '=';
    NoOperator(line[..2], 1);
    NoOperator(line[..3], 3);
    NoOperator(line[..6], 6);
    NoOperator(line[..7], 6);
    assert !StartsWithSpacedGe(line[6..]) && StartsWithSpacedGe(line[3..]);
    PushTo(line, 0, 2, 0);
    PushTo(line, 2, 4, 1);
    PopTo(line, 4, 7, 2);
    PopLast(line, 7);
    PushBackTo(line, 7, 5, 0);
    SkipBackTo(line, 4, 3, 1);
    PopBack(line, 2, 1);
  }

  // "operator<" is skipped forwards only.
  const LESS := "< operator< >"

  lemma Less()
    ensures Forward(LESS, 0, Angles('<', 0)) == Found(13)
    ensures Backward(LESS, 13, Angles('>', 0)) == Found(10)
  {
    var line := LESS;
    hide Forward, Backward, EndsWithOperator, Angles;
    assert line[10] == '<' && line[11] == ' ' && line[12] == '>' && line[..10] == "< operator";
    NoOperator(line[..11], 11);
    BehindOperator(line);
    NoOperator(line[..12], 11);
    assert !StartsWithSpacedGe(line[11..]);
    PushTo(line, 0, 10, 0);
    OperatorTo(line, 10, 12, 1);
    PopLast(line, 12);
    PushBackTo(line, 12, 11, 0);
    PopBack(line, 10, 1);
  }

  // "operator=>" is skipped forwards only.
  const ARROW := "< operator=> >"

  lemma Arrow()
    ensures Forward(ARROW, 0, Angles('<', 0)) == Found(14)
    ensures Backward(ARROW, 14, Angles('>', 0)) == Unfinished(Angles('>', 1))
  {
    var line := ARROW;
    hide Forward, Backward, EndsWithOperator, Angles;
    assert line[10] == '=' && line[11] == '>' && line[12] == ' ' && line[13] == '>' && line[..10] == "< operator";
    NoOperator(line[..12], 12);
    BehindOperator(line);
    NoOperator(line[..11], 11);
    NoOperator(line[..13], 12);
    assert !StartsWithSpacedGe(line[12..]) && !StartsWithSpacedGe(line[10..]);
    PushTo(line, 0, 11, 0);
    OperatorTo(line, 11, 13, 1);
    PopLast(line, 13);
    PushBackTo(line, 13, 12, 0);
    PushBackTo(line, 11, 1, 1);
    PopBack(line, 0, 2);
    NothingLeft(line, 1);
  }

  // "<<" pops forwards only: three of them close an angle too many.
  const TRIPLE := "< < <<< > >"

  lemma Triple()
    ensures Forward(TRIPLE, 0, Angles('<', 0)) == Found(9)
    ensures Backward(TRIPLE, 9, Angles('>', 0)) == Found(4)
  {
    var line := TRIPLE;
    hide Forward, Backward, EndsWithOperator, Angles;
    assert line[0] == line[2] == line[4] == line[5] == line[6] == '<' && line[1] == line[3] == line[7] == ' ';
    NoOperator(line[..2], 1);
    NoOperator(line[..4], 3);
    NoOperator(line[..7], 7);
    NoOperator(line[..8], 7);
    assert !StartsWithSpacedGe(line[7..]);
    PushTo(line, 0, 2, 0);
    PushTo(line, 2, 4, 1);
    PushTo(line, 4, 5, 2);
    PopTo(line, 5, 6, 3);
    PopTo(line, 6, 8, 2);
    PopLast(line, 8);
    PushBackTo(line, 8, 7, 0);
    SkipBackTo(line, 6, 5, 1);
    PopBack(line, 4, 1);
  }

  // Two of them do no harm: the rules may fire and the scans still agree.
  const DOUBLE := "< << >"

  lemma Double()
    ensures Forward(DOUBLE, 0, Angles('<', 0)) == Found(6)
    ensures Backward(DOUBLE, 6, Angles('>', 0)) == Found(0)
  {
    var line := DOUBLE;
    hide Forward, Backward, EndsWithOperator, Angles;
    assert line[0] == '<' && line[1] == ' ' && line[2] == '<' && line[3] == '<' && line[4] == ' ';
    NoOperator(line[..2], 1);
    NoOperator(line[..4], 4);
    NoOperator(line[..5], 4);
    assert !StartsWithSpacedGe(line[4..]);
    PushTo(line, 0, 2, 0);
    PushTo(line, 2, 3, 1);
    PopTo(line, 3, 5, 2);
    PopLast(line, 5);
    PushBackTo(line, 5, 4, 0);
    SkipBackTo(line, 3, 1, 1);
    PopBack(line, 0, 1);
  }

  /// The same for the scanners of whole files

  lemma OneLineForward(line: string)
    requires line != "" && line[0] == '<' && !StartsWithShiftOrLe(line) && Forward(line, 0, []).Found?
    ensures Close([line], 0, 0) == Some(Place(0, Forward(line, 0, []).at))
  {
    assert line[0..] == line;
  }

  lemma OneLineBackward(line: string, n: nat)
    requires 0 < n <= |line| && line[n - 1] == '>'
    ensures ReverseClose([line], 0, n - 1) ==
            match Backward(line, n, []) case Found(b) => Some(Place(0, b)) case _ => None
  {
  }

  // Four lines in which a rule between a '<' and its end misleads the way back,
  // and one in which it does not.
  lemma RulesCanMislead()
    ensures Close([SPACED], 0, 0) == Some(Place(0, 8)) && ReverseClose([SPACED], 0, 7) == Some(Place(0, 2))
    ensures Close([LESS], 0, 0) == Some(Place(0, 13)) && ReverseClose([LESS], 0, 12) == Some(Place(0, 10))
    ensures Close([ARROW], 0, 0) == Some(Place(0, 14)) && ReverseClose([ARROW], 0, 13) == None
    ensures Close([TRIPLE], 0, 0) == Some(Place(0, 9)) && ReverseClose([TRIPLE], 0, 8) == Some(Place(0, 4))
    ensures Close([DOUBLE], 0, 0) == Some(Place(0, 6)) && ReverseClose([DOUBLE], 0, 5) == Some(Place(0, 0))
  {
    hide Forward, Backward, Close, ReverseClose;
    EmptyStack();
    Spaced();
    Less();
    Arrow();
    Triple();
    Double();
    OneLineForward(SPACED);
    OneLineBackward(SPACED, 8);
    OneLineForward(LESS);
    OneLineBackward(LESS, 13);
    OneLineForward(ARROW);
    OneLineBackward(ARROW, 14);
    OneLineForward(TRIPLE);
    OneLineBackward(TRIPLE, 9);
    OneLineForward(DOUBLE);
    OneLineBackward(DOUBLE, 6);
  }
}
