/** The template heuristics never matter for real brackets: from a '(', '[' or
    '{' the scanners compute plain typed matching over the whole file, so the
    forward and the backward scanner undo each other. */
module ScannerTheorems {
  import opened Wrappers
  import opened Brackets
  import opened ExpressionScanner

  /// Positions (line, column) inside the text of the whole file.

  function Flat(lines: seq<string>): string {
    if lines == [] then [] else Flat(lines[..|lines| - 1]) + lines[|lines| - 1]
  }

  function Offset(lines: seq<string>, l: nat): nat
    requires l <= |lines|
  {
    |Flat(lines[..l])|
  }

  lemma {:induction false} OffsetSplits(lines: seq<string>, l: nat)
    requires l <= |lines|
    ensures Offset(lines, l) <= |Flat(lines)|
    ensures Flat(lines)[..Offset(lines, l)] == Flat(lines[..l])
    ensures l == |lines| ==> Offset(lines, l) == |Flat(lines)|
    ensures l < |lines| ==>
      && Offset(lines, l + 1) == Offset(lines, l) + |lines[l]| <= |Flat(lines)|
      && Flat(lines)[Offset(lines, l)..Offset(lines, l + 1)] == lines[l]
  {
    var n := |lines|;
    if l == n {
      assert lines[..n] == lines;
    } else {
      var front := lines[..n - 1];
      assert Flat(lines) == Flat(front) + lines[n - 1];
      assert front[..l] == lines[..l];
      assert lines[..l + 1][..l] == lines[..l];
      if l == n - 1 {
        assert lines[..l] == front;
        assert lines[..l + 1] == lines;
      } else {
        assert front[..l + 1] == lines[..l + 1];
        OffsetSplits(front, l);
        assert Flat(front) == Flat(lines)[..|Flat(front)|];
      }
    }
  }

  lemma OffsetStart(lines: seq<string>)
    ensures Offset(lines, 0) == 0
  {
  }

  lemma CharAt(lines: seq<string>, l: nat, i: nat)
    requires l < |lines| && i < |lines[l]|
    ensures Offset(lines, l) + i < Offset(lines, l + 1) <= |Flat(lines)|
    ensures Flat(lines)[Offset(lines, l) + i] == lines[l][i]
  {
    OffsetSplits(lines, l);
    assert Flat(lines)[Offset(lines, l)..Offset(lines, l + 1)][i] == lines[l][i];
  }

  lemma {:induction false} OffsetMonotone(lines: seq<string>, l: nat, l': nat)
    requires l <= l' <= |lines|
    ensures Offset(lines, l) <= Offset(lines, l')
    decreases l'
  {
    if l == l' {
    } else {
      OffsetMonotone(lines, l, l' - 1);
      OffsetSplits(lines, l' - 1);
    }
  }

  lemma PositionUnique(lines: seq<string>, l: nat, i: nat, l': nat, i': nat)
    requires l < |lines| && i < |lines[l]| && l' < |lines| && i' < |lines[l']|
    requires Offset(lines, l) + i == Offset(lines, l') + i'
    ensures l == l' && i == i'
  {
    OffsetSplits(lines, l);
    OffsetSplits(lines, l');
    if l < l' { OffsetMonotone(lines, l + 1, l'); }
    if l' < l { OffsetMonotone(lines, l' + 1, l); }
  }

  /// The scanner's stack without its angle brackets is the plain stack.

  function Strip(stack: seq<char>, angle: char): seq<char> {
    if stack == [] then []
    else
      var s := Strip(stack[..|stack| - 1], angle);
      var c := stack[|stack| - 1];
      if c == angle then s else s + [c]
  }

  predicate Tracks(stack: seq<char>, angle: char, plain: seq<char>) {
    && stack != []
    && stack[0] != angle
    && Strip(stack, angle) == plain
    && plain != []
  }

  lemma {:induction false} StripDropped(stack: seq<char>, angle: char)
    ensures Strip(DropAngles(stack, angle), angle) == Strip(stack, angle)
    ensures stack != [] && stack[0] != angle ==> DropAngles(stack, angle) != []
    decreases |stack|
  {
    if stack != [] && stack[|stack| - 1] == angle {
      StripDropped(stack[..|stack| - 1], angle);
    }
  }

  lemma StripPush(stack: seq<char>, angle: char, c: char)
    ensures Strip(stack + [c], angle) == if c == angle then Strip(stack, angle) else Strip(stack, angle) + [c]
  {
  }

  lemma StripNonempty(stack: seq<char>, angle: char)
    requires stack != [] && stack[0] != angle
    ensures Strip(stack, angle) != []
  {
  }

  // A bracket or a ';' first removes the angles above the last bracket.
  lemma StripPop(stack: seq<char>, angle: char, plain: seq<char>)
    requires Tracks(stack, angle, plain)
    ensures var s := DropAngles(stack, angle);
      && Tracks(s, angle, plain)
      && s[|s| - 1] == plain[|plain| - 1]
      && Strip(s[..|s| - 1], angle) == plain[..|plain| - 1]
      && (|s| == 1 <==> |plain| == 1)
      && (|s| > 1 ==> Tracks(s[..|s| - 1], angle, plain[..|plain| - 1]))
  {
    StripDropped(stack, angle);
    var s := DropAngles(stack, angle);
    if |s| == 1 {
    } else {
      StripNonempty(s[..|s| - 1], angle);
    }
  }

  lemma StripAngleTop(stack: seq<char>, angle: char, plain: seq<char>)
    requires Tracks(stack, angle, plain) && stack[|stack| - 1] == angle
    ensures |stack| > 1 && Tracks(stack[..|stack| - 1], angle, plain)
  {
  }

  lemma ForwardCharTracks(line: string, i: nat, stack: seq<char>, plain: seq<char>)
    requires i < |line| && Tracks(stack, '<', plain)
    ensures match Step(plain, line[i])
      case None => ForwardChar(line, i, stack) == Failed
      case Some(next) =>
        if next == [] then ForwardChar(line, i, stack) == Found(i + 1)
        else ForwardChar(line, i, stack).Unfinished? && Tracks(ForwardChar(line, i, stack).stack, '<', next)
  {
    hide Strip, DropAngles, EndsWithOperator;
    var c := line[i];
    if IsClose(c) || c == ';' {
      StripPop(stack, '<', plain);
    } else {
      StripPush(stack, '<', c);
      if stack[|stack| - 1] == '<' { StripAngleTop(stack, '<', plain); }
    }
  }

  lemma BackwardCharTracks(line: string, i: nat, stack: seq<char>, plain: seq<char>)
    requires i < |line| && Tracks(stack, '>', plain)
    ensures match StepBack(plain, line[i])
      case None => BackwardChar(line, i, stack) == BackStep(Failed, 0)
      case Some(next) =>
        if next == [] then BackwardChar(line, i, stack) == BackStep(Found(i), 0)
        else
          var r := BackwardChar(line, i, stack);
          r.verdict.Unfinished? && Tracks(r.verdict.stack, '>', next)
  {
    hide Strip, DropAngles, EndsWithOperator, StartsWithSpacedGe;
    var c := line[i];
    if IsOpen(c) || c == ';' {
      StripPop(stack, '>', plain);
    } else {
      StripPush(stack, '>', c);
      if stack[|stack| - 1] == '>' { StripAngleTop(stack, '>', plain); }
    }
  }

  // The extra character the backward scanner steps over is no bracket.
  lemma SkippedIsNoBracket(line: string, i: nat, stack: seq<char>)
    requires i < |line|
    ensures BackwardChar(line, i, stack).skip <= 1
    ensures BackwardChar(line, i, stack).skip == 1 ==> !IsOpen(line[i - 1]) && !IsClose(line[i - 1])
  {
  }

  /// One line, then many lines, in step with Run over the flat text.

  // Everything from p up to k is open.
  ghost predicate Busy(text: string, p: nat, k: nat) {
    p < k <= |text| && forall j | p < j <= k :: Inside(text, p, j)
  }

  ghost predicate InStep(text: string, p: nat, k: nat, stack: seq<char>) {
    Busy(text, p, k) && Inside(text, p, k) && Tracks(stack, '<', Run(text, p, k).value)
  }

  lemma BusyExtends(text: string, p: nat, k: nat)
    requires Busy(text, p, k) && k < |text| && Inside(text, p, k + 1)
    ensures Busy(text, p, k + 1)
  {
  }

  lemma ForwardStepTracks(text: string, line: string, off: nat, p: nat, i: nat, stack: seq<char>)
    requires i < |line| && off + |line| <= |text| && text[off..off + |line|] == line
    requires InStep(text, p, off + i, stack) && IsOpen(text[p])
    ensures match ForwardChar(line, i, stack)
      case Found(e) => e == i + 1 && Matches(text, p, off + i)
      case Failed => Unmatched(text, p)
      case Unfinished(s) => InStep(text, p, off + i + 1, s)
  {
    hide ForwardChar, Tracks, Strip, DropAngles;
    var k, c := off + i, line[i];
    assert text[k] == c;
    var plain := Run(text, p, k).value;
    ForwardCharTracks(line, i, stack, plain);
    assert Run(text, p, k + 1) == Step(plain, c);
    match Step(plain, c) {
      case None => NeverMatched(text, p, k);
      case Some(next) => if next != [] { BusyExtends(text, p, k); }
    }
  }

  lemma {:induction false} ForwardTracks(text: string, line: string, off: nat, p: nat, i: nat, stack: seq<char>)
    requires i <= |line| && off + |line| <= |text| && text[off..off + |line|] == line
    requires InStep(text, p, off + i, stack) && IsOpen(text[p])
    ensures match Forward(line, i, stack)
      case Found(e) => i < e <= |line| && Matches(text, p, off + e - 1)
      case Failed => Unmatched(text, p)
      case Unfinished(s) => InStep(text, p, off + |line|, s)
    decreases |line| - i
  {
    hide ForwardChar, Run, Matches, Unmatched, Tracks;
    if i == |line| {
    } else {
      ForwardStepTracks(text, line, off, p, i, stack);
      var v := ForwardChar(line, i, stack);
      if v.Unfinished? {
        ForwardTracks(text, line, off, p, i + 1, v.stack);
      }
    }
  }

  // Wrong brackets, or the end of the text, with the bracket still open.
  lemma NeverMatched(text: string, p: nat, k: nat)
    requires Busy(text, p, k)
    requires k == |text| || Run(text, p, k + 1) == None
    ensures Unmatched(text, p)
  {
    forall q: nat ensures !Matches(text, p, q) {
      if p < q < |text| {
        assert q < k ==> Inside(text, p, q + 1);
        if q >= k { RunStuck(text, p, k + 1, q + 1); }
      }
    }
  }

  lemma {:induction false} CloseFromTracks(lines: seq<string>, p: nat, l: nat, i: nat, stack: seq<char>)
    requires l < |lines| && i <= |lines[l]| && p < |Flat(lines)| && IsOpen(Flat(lines)[p])
    requires InStep(Flat(lines), p, Offset(lines, l) + i, stack)
    ensures match CloseFrom(lines, l, i, stack)
      case Some(at) =>
        && l <= at.line < |lines| && 0 < at.col <= |lines[at.line]|
        && Matches(Flat(lines), p, Offset(lines, at.line) + at.col - 1)
      case None => Unmatched(Flat(lines), p)
    decreases |lines| - l
  {
    hide Forward, Flat, Offset, Run, Matches, Unmatched, Strip;
    var text := Flat(lines);
    OffsetSplits(lines, l);
    ForwardTracks(text, lines[l], Offset(lines, l), p, i, stack);
    match Forward(lines[l], i, stack) {
      case Found(e) =>
      case Failed =>
      case Unfinished(s) =>
        OffsetSplits(lines, l + 1);
        if l + 1 < |lines| {
          CloseFromTracks(lines, p, l + 1, 0, s);
        } else {
          NeverMatched(text, p, |text|);
        }
    }
  }

  lemma FirstForward(line: string, pos: nat)
    requires pos < |line| && IsOpen(line[pos])
    ensures Forward(line, pos, []) == Forward(line, pos + 1, [line[pos]])
  {
    assert [] + [line[pos]] == [line[pos]];
  }

  lemma FirstInStep(text: string, p: nat)
    requires p < |text| && IsOpen(text[p])
    ensures InStep(text, p, p + 1, [text[p]])
  {
    var c := text[p];
    assert [] + [c] == [c];
    assert Run(text, p, p) == Some([]);
    assert Run(text, p, p + 1) == Some([c]);
    assert Inside(text, p, p + 1);
    StripPush([], '<', c);
  }

  lemma CloseFromNext(lines: seq<string>, l: nat, pos: nat)
    requires l < |lines| && pos < |lines[l]| && IsOpen(lines[l][pos])
    ensures Close(lines, l, pos) == CloseFrom(lines, l, pos + 1, [lines[l][pos]])
  {
    FirstForward(lines[l], pos);
  }

  // From a real bracket CloseExpression is plain typed matching.
  lemma CloseIsPlainMatching(lines: seq<string>, l: nat, pos: nat)
    requires l < |lines| && pos < |lines[l]| && IsOpen(lines[l][pos])
    ensures match Close(lines, l, pos)
      case Some(at) =>
        && l <= at.line < |lines| && 0 < at.col <= |lines[at.line]|
        && Matches(Flat(lines), Offset(lines, l) + pos, Offset(lines, at.line) + at.col - 1)
      case None => Unmatched(Flat(lines), Offset(lines, l) + pos)
  {
    hide *;
    CharAt(lines, l, pos);
    CloseFromNext(lines, l, pos);
    FirstInStep(Flat(lines), Offset(lines, l) + pos);
    CloseFromTracks(lines, Offset(lines, l) + pos, l, pos + 1, [lines[l][pos]]);
  }

  /// The same, right to left.

  ghost predicate BusyBack(text: string, k: nat, q: nat) {
    k <= q < |text| && forall j | k <= j <= q :: InsideBack(text, j, q)
  }

  ghost predicate InStepBack(text: string, k: nat, q: nat, stack: seq<char>) {
    BusyBack(text, k, q) && InsideBack(text, k, q) && Tracks(stack, '>', RunBack(text, k, q).value)
  }

  ghost predicate UnmatchedBack(text: string, q: nat) {
    forall p: nat :: !MatchesBack(text, p, q)
  }

  lemma {:induction false} RunBackStuck(text: string, q: nat, k: nat, k': nat)
    requires k <= q + 1 <= |text| && RunBack(text, k, q) == None
    requires k' <= k
    ensures RunBack(text, k', q) == None
    decreases k - k'
  {
    if k' == k {
    } else {
      RunBackStuck(text, q, k, k' + 1);
    }
  }

  lemma NeverMatchedBack(text: string, k: nat, q: nat)
    requires BusyBack(text, k, q)
    requires k == 0 || RunBack(text, k - 1, q) == None
    ensures UnmatchedBack(text, q)
  {
    forall p: nat ensures !MatchesBack(text, p, q) {
      if p < q {
        assert p >= k ==> InsideBack(text, p, q);
        if p < k { RunBackStuck(text, q, k - 1, p); }
      }
    }
  }

  lemma BusyBackExtends(text: string, k: nat, q: nat)
    requires BusyBack(text, k + 1, q) && InsideBack(text, k, q)
    ensures BusyBack(text, k, q)
  {
  }

  lemma BackwardStepTracks(text: string, line: string, off: nat, q: nat, n: nat, stack: seq<char>)
    requires 0 < n <= |line| && off + |line| <= |text| && text[off..off + |line|] == line
    requires InStepBack(text, off + n, q, stack) && IsClose(text[q])
    ensures var step := BackwardChar(line, n - 1, stack);
      match step.verdict
      case Found(b) => b == n - 1 && MatchesBack(text, off + b, q)
      case Failed => UnmatchedBack(text, q)
      case Unfinished(s) => InStepBack(text, off + n - 1 - step.skip, q, s)
  {
    hide BackwardChar, Tracks, Strip, DropAngles;
    var k, c := off + n - 1, line[n - 1];
    assert text[k] == c;
    var plain := RunBack(text, k + 1, q).value;
    BackwardCharTracks(line, n - 1, stack, plain);
    SkippedIsNoBracket(line, n - 1, stack);
    assert RunBack(text, k, q) == StepBack(plain, c);
    match StepBack(plain, c) {
      case None => NeverMatchedBack(text, k + 1, q);
      case Some(next) =>
        if next != [] {
          BusyBackExtends(text, k, q);
          if BackwardChar(line, n - 1, stack).skip == 1 {
            assert text[k - 1] == line[n - 2];
            BusyBackExtends(text, k - 1, q);
          }
        }
    }
  }

  lemma {:induction false} BackwardTracks(text: string, line: string, off: nat, q: nat, n: nat, stack: seq<char>)
    requires n <= |line| && off + |line| <= |text| && text[off..off + |line|] == line
    requires InStepBack(text, off + n, q, stack) && IsClose(text[q])
    ensures match Backward(line, n, stack)
      case Found(b) => b < n && MatchesBack(text, off + b, q)
      case Failed => UnmatchedBack(text, q)
      case Unfinished(s) => InStepBack(text, off, q, s)
    decreases n
  {
    hide BackwardChar, RunBack, MatchesBack, UnmatchedBack, Tracks;
    if n == 0 {
    } else {
      BackwardStepTracks(text, line, off, q, n, stack);
      var step := BackwardChar(line, n - 1, stack);
      if step.verdict.Unfinished? {
        BackwardTracks(text, line, off, q, n - 1 - step.skip, step.verdict.stack);
      }
    }
  }

  lemma {:induction false} OpenFromTracks(lines: seq<string>, q: nat, l: nat, n: nat, stack: seq<char>)
    requires l < |lines| && n <= |lines[l]| && q < |Flat(lines)| && IsClose(Flat(lines)[q])
    requires InStepBack(Flat(lines), Offset(lines, l) + n, q, stack)
    ensures match OpenFrom(lines, l, n, stack)
      case Some(at) =>
        && at.line <= l && at.col < |lines[at.line]|
        && MatchesBack(Flat(lines), Offset(lines, at.line) + at.col, q)
      case None => UnmatchedBack(Flat(lines), q)
    decreases l
  {
    hide Backward, Flat, Offset, RunBack, MatchesBack, UnmatchedBack, Strip;
    var text := Flat(lines);
    OffsetSplits(lines, l);
    BackwardTracks(text, lines[l], Offset(lines, l), q, n, stack);
    match Backward(lines[l], n, stack) {
      case Found(b) =>
      case Failed =>
      case Unfinished(s) =>
        if l > 0 {
          OffsetSplits(lines, l - 1);
          OpenFromTracks(lines, q, l - 1, |lines[l - 1]|, s);
        } else {
          OffsetStart(lines);
          NeverMatchedBack(text, 0, q);
        }
    }
  }

  lemma FirstInStepBack(text: string, q: nat)
    requires q < |text| && IsClose(text[q])
    ensures InStepBack(text, q, q, [text[q]])
  {
    var c := text[q];
    assert [] + [c] == [c];
    assert RunBack(text, q + 1, q) == Some([]);
    assert RunBack(text, q, q) == Some([c]);
    assert InsideBack(text, q, q);
    StripPush([], '>', c);
  }

  lemma OpenFromNext(lines: seq<string>, l: nat, pos: nat)
    requires l < |lines| && pos < |lines[l]| && IsClose(lines[l][pos])
    ensures ReverseClose(lines, l, pos) == OpenFrom(lines, l, pos, [lines[l][pos]])
  {
    assert [] + [lines[l][pos]] == [lines[l][pos]];
    assert BackwardChar(lines[l], pos, []) == BackStep(Unfinished([lines[l][pos]]), 0);
  }

  // From a real bracket ReverseCloseExpression is plain typed matching too.
  lemma ReverseCloseIsPlainMatching(lines: seq<string>, l: nat, pos: nat)
    requires l < |lines| && pos < |lines[l]| && IsClose(lines[l][pos])
    ensures match ReverseClose(lines, l, pos)
      case Some(at) =>
        && at.line <= l && at.col < |lines[at.line]|
        && MatchesBack(Flat(lines), Offset(lines, at.line) + at.col, Offset(lines, l) + pos)
      case None => UnmatchedBack(Flat(lines), Offset(lines, l) + pos)
  {
    hide *;
    CharAt(lines, l, pos);
    OpenFromNext(lines, l, pos);
    FirstInStepBack(Flat(lines), Offset(lines, l) + pos);
    OpenFromTracks(lines, Offset(lines, l) + pos, l, pos, [lines[l][pos]]);
  }

  /// The two scanners undo each other.

  lemma CloseThenReverse(lines: seq<string>, l: nat, pos: nat)
    requires l < |lines| && pos < |lines[l]| && IsOpen(lines[l][pos])
    ensures match Close(lines, l, pos)
      case Some(at) =>
        && at.line < |lines| && 0 < at.col <= |lines[at.line]| && IsClose(lines[at.line][at.col - 1])
        && ReverseClose(lines, at.line, at.col - 1) == Some(Place(l, pos))
      case None => true
  {
    CloseIsPlainMatching(lines, l, pos);
    if Close(lines, l, pos).Some? {
      var at := Close(lines, l, pos).value;
      var text, p, q := Flat(lines), Offset(lines, l) + pos, Offset(lines, at.line) + at.col - 1;
      DirectionIrrelevant(text, p, q);
      CharAt(lines, at.line, at.col - 1);
      ReverseCloseIsPlainMatching(lines, at.line, at.col - 1);
      assert !UnmatchedBack(text, q);
      var back := ReverseClose(lines, at.line, at.col - 1).value;
      DirectionIrrelevant(text, Offset(lines, back.line) + back.col, q);
      MatchUnique(text, p, q, Offset(lines, back.line) + back.col, q);
      PositionUnique(lines, l, pos, back.line, back.col);
    }
  }

  lemma ReverseThenClose(lines: seq<string>, l: nat, pos: nat)
    requires l < |lines| && pos < |lines[l]| && IsClose(lines[l][pos])
    ensures match ReverseClose(lines, l, pos)
      case Some(at) =>
        && at.line < |lines| && at.col < |lines[at.line]| && IsOpen(lines[at.line][at.col])
        && Close(lines, at.line, at.col) == Some(Place(l, pos + 1))
      case None => true
  {
    ReverseCloseIsPlainMatching(lines, l, pos);
    if ReverseClose(lines, l, pos).Some? {
      var at := ReverseClose(lines, l, pos).value;
      var text, p, q := Flat(lines), Offset(lines, at.line) + at.col, Offset(lines, l) + pos;
      DirectionIrrelevant(text, p, q);
      CharAt(lines, at.line, at.col);
      CloseIsPlainMatching(lines, at.line, at.col);
      assert !Unmatched(text, p);
      var end := Close(lines, at.line, at.col).value;
      MatchUnique(text, p, q, p, Offset(lines, end.line) + end.col - 1);
      PositionUnique(lines, l, pos, end.line, end.col - 1);
    }
  }

  // For '<' the property fails: "< >= >" is closed at its first '>', which
  // the backward scanner takes for an operator.
  lemma AnglesDoNotUndo()
    ensures Close(["< >= >"], 0, 0) == Some(Place(0, 3))
    ensures ReverseClose(["< >= >"], 0, 2) == None
  {
    var line := "< >= >";
    assert line[0..] == line;
    assert line[1..] == " >= >";
    assert EndsWithOperator([line[0]]) == false;
    assert line[..1] == [line[0]];
    assert Forward(line, 2, ['<']) == Found(3);
    assert [] + ['<'] == ['<'];
    assert Forward(line, 0, []) == Found(3);
    assert Backward(line, 1, []) == Unfinished([]);
    assert Backward(line, 3, []) == Unfinished([]);
  }

  lemma FlatOne(text: string)
    ensures Flat([text]) == text && Offset([text], 0) == 0
  {
  }

  // One text, one line: the third matcher and the forward scanner agree.
  method CheckGetTextInside(text: string, start: nat) returns (inside: Option<string>)
    requires 0 < start <= |text| && IsOpen(text[start - 1])
    ensures match Close([text], 0, start - 1)
      case Some(at) => start < at.col <= |text| && inside == Some(text[start..at.col - 1])
      case None => inside == None
  {
    inside := GetTextInside(text, start);
    var lines := [text];
    FlatOne(text);
    CloseIsPlainMatching(lines, 0, start - 1);
    hide Close, Flat, Offset, Matches;
    hide Inside;
    if inside.Some? {
      ghost var q: nat :| Matches(text, start - 1, q) && inside.value == text[start..q];
      MatchUnique(text, start - 1, q, start - 1, Close(lines, 0, start - 1).value.col - 1);
    }
  }
}
