/** From a '>' on, ReverseCloseExpression is angle matching over the tokens. */
module AngleBackward {
  import opened Wrappers
  import opened Brackets
  import opened ExpressionScanner
  import opened ScannerTheorems
  import opened AngleTracking
  import opened AngleForward
  import A = AngleMatching

  // No bracket closed up to q is open at k, so that angles count there.
  ghost predicate CountsBack(text: string, k: nat, q: nat) {
    k <= q + 1 <= |text| && A.RunBack(text, k, q).Some? && A.RunBack(text, k, q).value.brackets == []
  }

  // Where angles count, every character from a up to b reads the same both ways.
  ghost predicate SymmetricBack(lines: seq<string>, a: nat, b: nat, q: nat) {
    forall l: nat, i: nat |
      l < |lines| && i < |lines[l]| && a <= Offset(lines, l) + i < b && CountsBack(TokenText(lines), Offset(lines, l) + i + 1, q) ::
      SymmetricAt(lines[l], i)
  }

  lemma SymmetricBackPart(lines: seq<string>, a: nat, b: nat, a': nat, b': nat, q: nat)
    requires SymmetricBack(lines, a, b, q) && a <= a' && b' <= b
    ensures SymmetricBack(lines, a', b', q)
  {
    hide CountsBack, SymmetricAt;
  }

  ghost predicate AlongBack(text: string, k: nat, q: nat, stack: seq<char>) {
    && k <= q < |text| && (forall j | k <= j <= q :: A.InsideBack(text, j, q))
    && Based(stack, '>') && A.RunBack(text, k, q) == Some(Abs(stack, '>'))
  }

  /// Where an opening can be found

  lemma {:induction false} FoundBehind(line: string, n: nat, stack: seq<char>)
    requires n <= |line| && Backward(line, n, stack).Found?
    ensures Backward(line, n, stack).at < n
    decreases n
  {
    hide BackwardChar;
    if n == 0 {
    } else {
      FoundThere(line, n - 1, stack);
      var step := BackwardChar(line, n - 1, stack);
      if step.verdict.Unfinished? { FoundBehind(line, n - 1 - step.skip, step.verdict.stack); }
    }
  }

  lemma FoundThere(line: string, i: nat, stack: seq<char>)
    requires i < |line|
    ensures var v := BackwardChar(line, i, stack).verdict; v.Found? ==> v.at == i && (line[i] == '<' || IsOpen(line[i]))
  {
    hide DropAngles, EndsWithOperator, StartsWithSpacedGe;
  }

  lemma {:induction false} OpenedBehind(lines: seq<string>, l: nat, n: nat, stack: seq<char>)
    requires l < |lines| && n <= |lines[l]| && OpenFrom(lines, l, n, stack).Some?
    ensures var at := OpenFrom(lines, l, n, stack).value;
      at.line <= l && at.col < |lines[at.line]| && (at.line == l ==> at.col < n)
    decreases l
  {
    match Backward(lines[l], n, stack) {
      case Found(_) => FoundBehind(lines[l], n, stack);
      case Failed =>
      case Unfinished(s) => OpenedBehind(lines, l - 1, |lines[l - 1]|, s);
    }
  }

  /// One character, then many

  lemma OneBackward(lines: seq<string>, q: nat, l: nat, i: nat, stack: seq<char>) returns (s: seq<char>)
    requires l < |lines| && i < |lines[l]| && AlongBack(TokenText(lines), Offset(lines, l) + i + 1, q, stack)
    requires CountsBack(TokenText(lines), Offset(lines, l) + i + 1, q) ==> SymmetricAt(lines[l], i)
    requires Solid(lines[l][i]) && !Skips(lines[l], i)
    ensures var k := Offset(lines, l) + i;
      match A.RunBack(TokenText(lines), k, q)
      case None => OpenFrom(lines, l, i + 1, stack) == None
      case Some(n) =>
        if n.angles == 0 then
          n == A.OUTSIDE && lines[l][i] == '<' && OpenFrom(lines, l, i + 1, stack) == Some(Place(l, i))
        else AlongBack(TokenText(lines), k, q, s) && OpenFrom(lines, l, i + 1, stack) == OpenFrom(lines, l, i, s)
  {
    hide BackwardChar, Abs, Token, A.StepBack, Offset, TokenText, SymmetricAt, Skips;
    var line := lines[l];
    TokenAt(lines, l, i);
    var r := BackwardChar(line, i, stack);
    s := if r.verdict.Unfinished? then r.verdict.stack else stack;
    SkipsAtMostOne(line, i, stack);
    if IsOpen(line[i]) || IsClose(line[i]) || line[i] == ';' {
      BackwardBracket(line, i, stack);
      TokenIsChar(line, i);
    } else {
      BackwardAngle(line, i, stack);
    }
    AnglesLeftBack(s);
  }

  lemma SkipsAtMostOne(line: string, i: nat, stack: seq<char>)
    requires i < |line|
    ensures BackwardChar(line, i, stack).skip <= 1
  {
    SkippedIsNoBracket(line, i, stack);
  }

  lemma AnglesLeftBack(s: seq<char>)
    ensures Based(s, '>') ==> Abs(s, '>').angles > 0
  {
  }

  // A character that is no bracket in either direction changes nothing, nor
  // does an angle where angles do not count.
  lemma SoftChangesNothing(text: string, k: nat, q: nat)
    requires k <= q < |text| && A.InsideBack(text, k + 1, q)
    requires !Solid(text[k]) || (!CountsBack(text, k + 1, q) && (text[k] == '<' || text[k] == '>'))
    ensures A.RunBack(text, k, q) == A.RunBack(text, k + 1, q) && A.InsideBack(text, k, q)
  {
  }

  lemma SoftToken(line: string, i: nat)
    requires i < |line|
    requires !Solid(line[i]) || line[i] == '<' || line[i] == '>'
    ensures !Solid(Token(line, i)) || Token(line, i) == line[i]
    ensures !Solid(line[i]) || (Skips(line, i) && SymmetricAt(line, i)) ==> !Solid(Token(line, i))
  {
  }

  // The scanner steps over a soft character, and over two with a skipped one.
  lemma OverSoft(lines: seq<string>, q: nat, l: nat, i: nat, stack: seq<char>) returns (skip: nat)
    requires l < |lines| && i < |lines[l]| && AlongBack(TokenText(lines), Offset(lines, l) + i + 1, q, stack)
    requires CountsBack(TokenText(lines), Offset(lines, l) + i + 1, q) ==> SymmetricAt(lines[l], i)
    requires !Solid(lines[l][i]) || Skips(lines[l], i)
    ensures skip <= i && OpenFrom(lines, l, i + 1, stack) == OpenFrom(lines, l, i - skip, stack)
    ensures skip == 0 ||
      (skip == 1 && (!Solid(lines[l][i - 1]) || (lines[l][i - 1] == '<' && !CountsBack(TokenText(lines), Offset(lines, l) + i, q))))
    ensures AlongBack(TokenText(lines), Offset(lines, l) + i - skip, q, stack)
  {
    hide Abs, A.RunBack, Offset, TokenText, Skips, SymmetricAt, Token;
    var line, text, k := lines[l], TokenText(lines), Offset(lines, l) + i;
    TokenAt(lines, l, i);
    SkippedIsAngle(line, i);
    SoftToken(line, i);
    SoftChangesNothing(text, k, q);
    skip := 0;
    if Skips(line, i) {
      SkippedBefore(line, i);
      if line[i] == '<' { NoShift(line, i); }
      TokenAt(lines, l, i - 1);
      SoftToken(line, i - 1);
      SoftChangesNothing(text, k - 1, q);
      skip := 1;
    }
    SoftStep(line, i, stack, skip);
  }

  lemma SkippedIsAngle(line: string, i: nat)
    requires i < |line|
    ensures Skips(line, i) ==> line[i] == '<' || line[i] == '>'
  {
  }

  lemma NoShift(line: string, i: nat)
    requires i < |line| && line[i] == '<' && Skips(line, i)
    ensures !SymmetricAt(line, i)
  {
  }

  lemma SoftStep(line: string, i: nat, stack: seq<char>, skip: nat)
    requires i < |line| && (!Solid(line[i]) || Skips(line, i))
    requires skip == if Skips(line, i) then 1 else 0
    ensures BackwardChar(line, i, stack) == BackStep(Unfinished(stack), skip)
  {
    hide EndsWithOperator, StartsWithSpacedGe, DropAngles;
  }

  // While the machine is inside, the scanner goes on to any character that it
  // does not step over unread.
  lemma {:induction false} WalkBack(lines: seq<string>, q: nat, l: nat, n: nat, stack: seq<char>, l2: nat, j: nat)
    returns (s: seq<char>)
    requires l2 <= l < |lines| && n <= |lines[l]| && j < |lines[l2]| && Solid(lines[l2][j]) && (l == l2 ==> j < n)
    requires lines[l2][j] == '<' ==>
      CountsBack(TokenText(lines), Offset(lines, l2) + j + 1, q) || OpenFrom(lines, l, n, stack) == Some(Place(l2, j))
    requires AlongBack(TokenText(lines), Offset(lines, l) + n, q, stack)
    requires SymmetricBack(lines, Offset(lines, l2) + j + 1, Offset(lines, l) + n, q)
    requires q < |TokenText(lines)|
    requires forall k | Offset(lines, l2) + j < k <= q :: A.InsideBack(TokenText(lines), k, q)
    ensures AlongBack(TokenText(lines), Offset(lines, l2) + j + 1, q, s)
    ensures OpenFrom(lines, l, n, stack) == OpenFrom(lines, l2, j + 1, s)
    decreases l, n
  {
    hide Backward, TokenText, Offset, A.RunBack, Abs, SymmetricAt, Solid, Skips, CountsBack, SymmetricBack, OpenFrom;
    if l == l2 && n == j + 1 {
      s := stack;
    } else if n == 0 {
      OffsetSplits(lines, l - 1);
      LineBefore(lines, l, stack);
      s := WalkBack(lines, q, l - 1, |lines[l - 1]|, stack, l2, j);
    } else {
      var i := n - 1;
      Earlier(lines, l2, j, l, i);
      var a, k := Offset(lines, l2) + j + 1, Offset(lines, l) + i;
      ReadsTheSameBack(lines, l, i, a, k + 1, q);
      SymmetricBackPart(lines, a, k + 1, a, k, q);
      if !Solid(lines[l][i]) || Skips(lines[l], i) {
        var skip := OverSoft(lines, q, l, i, stack);
        if OpenFrom(lines, l, i - skip, stack).Some? { OpenedBehind(lines, l, i - skip, stack); }
        assert l == l2 && skip == 1 ==> i - 1 != j;
        SymmetricBackPart(lines, a, k + 1, a, k - skip, q);
        s := WalkBack(lines, q, l, i - skip, stack, l2, j);
      } else {
        assert A.InsideBack(TokenText(lines), k, q);
        var s1 := OneBackward(lines, q, l, i, stack);
        s := WalkBack(lines, q, l, i, s1, l2, j);
      }
    }
  }

  lemma ReadsTheSameBack(lines: seq<string>, l: nat, i: nat, a: nat, b: nat, q: nat)
    requires l < |lines| && i < |lines[l]| && SymmetricBack(lines, a, b, q) && a <= Offset(lines, l) + i < b
    ensures CountsBack(TokenText(lines), Offset(lines, l) + i + 1, q) ==> SymmetricAt(lines[l], i)
  {
    hide CountsBack, SymmetricAt;
  }

  lemma LineBefore(lines: seq<string>, l: nat, stack: seq<char>)
    requires 0 < l < |lines| && stack != []
    ensures OpenFrom(lines, l, 0, stack) == OpenFrom(lines, l - 1, |lines[l - 1]|, stack)
  {
  }

  /// From the '>'

  lemma LastLevel(text: string, q: nat)
    requires q < |text| && text[q] == '>'
    ensures A.RunBack(text, q, q) == Some(A.Level(1, []))
  {
    assert A.RunBack(text, q + 1, q) == Some(A.OUTSIDE);
    assert A.StepBack(A.OUTSIDE, '>') == Some(A.Level(1, []));
  }

  lemma StartsBack(lines: seq<string>, l: nat, pos: nat)
    requires l < |lines| && pos < |lines[l]| && lines[l][pos] == '>'
    requires BackwardPushes(lines[l], pos) && ForwardPops(lines[l], pos)
    ensures var q := Offset(lines, l) + pos;
      && q < |TokenText(lines)| && TokenText(lines)[q] == '>' && AlongBack(TokenText(lines), q, q, ['>'])
      && OpenFrom(lines, l, pos + 1, []) == OpenFrom(lines, l, pos, ['>'])
  {
    hide TokenText, Offset, EndsWithOperator, StartsWithSpacedGe;
    TokenAt(lines, l, pos);
    LevelLast(['>'], '>');
    assert [] + ['>'] == ['>'];
    assert BackwardChar(lines[l], pos, []) == BackStep(Unfinished(['>']), 0);
    var text, q := TokenText(lines), Offset(lines, l) + pos;
    LastLevel(text, q);
    hide A.RunBack, Abs;
    assert forall j | q <= j <= q :: A.InsideBack(text, j, q);
  }

  lemma MatchOpened(lines: seq<string>, l: nat, pos: nat, l2: nat, j: nat)
    requires l < |lines| && pos < |lines[l]| && l2 < |lines| && j < |lines[l2]|
    requires lines[l][pos] == '>' && BackwardPushes(lines[l], pos) && ForwardPops(lines[l], pos)
    requires lines[l2][j] == '<' && ForwardPushes(lines[l2], j)
    requires A.MatchesBack(TokenText(lines), Offset(lines, l2) + j, Offset(lines, l) + pos)
    requires SymmetricBack(lines, Offset(lines, l2) + j + 1, Offset(lines, l) + pos, Offset(lines, l) + pos)
    ensures OpenFrom(lines, l, pos + 1, []) == Some(Place(l2, j))
  {
    hide Backward, TokenText, Offset, A.RunBack, Abs, SymmetricAt, Token, BackwardPushes, ForwardPushes, ForwardPops,
         CountsBack, SymmetricBack, OpenFrom, Skips;
    var p, q := Offset(lines, l2) + j, Offset(lines, l) + pos;
    StartsBack(lines, l, pos);
    PlacesInOrder(lines, l2, j + 1, l, pos);
    CountsAtStart(TokenText(lines), p, q);
    assert Solid('<');
    var s := WalkBack(lines, q, l, pos, ['>'], l2, j);
    PushingIsSymmetric(lines[l2], j);
    s := OneBackward(lines, q, l2, j, s);
  }

  lemma CountsAtStart(text: string, p: nat, q: nat)
    requires A.MatchesBack(text, p, q)
    ensures CountsBack(text, p + 1, q)
  {
    assert A.InsideBack(text, p + 1, q);
  }

  lemma PushingIsSymmetric(line: string, i: nat)
    requires i < |line| && line[i] == '<' && ForwardPushes(line, i)
    ensures SymmetricAt(line, i) && !Skips(line, i) && Token(line, i) == '<'
  {
  }

  lemma {:induction false} StaysInsideBack(lines: seq<string>, q: nat, l: nat, pos: nat, at: Place, k: nat)
    requires l < |lines| && pos < |lines[l]| && lines[l][pos] == '>'
    requires BackwardPushes(lines[l], pos) && ForwardPops(lines[l], pos)
    requires OpenFrom(lines, l, pos + 1, []) == Some(at) && at.line < |lines| && at.col < |lines[at.line]|
    requires Offset(lines, at.line) + at.col < k <= q == Offset(lines, l) + pos < |TokenText(lines)|
    requires SymmetricBack(lines, Offset(lines, at.line) + at.col + 1, q, q)
    ensures forall j | k <= j <= q :: A.InsideBack(TokenText(lines), j, q)
    decreases q - k
  {
    hide Backward, TokenText, Offset, A.RunBack, Abs, SymmetricAt, Token, OpenFrom, BackwardPushes, ForwardPushes, ForwardPops,
         Solid, CountsBack, SymmetricBack, Skips;
    StartsBack(lines, l, pos);
    if k == q {
    } else {
      StaysInsideBack(lines, q, l, pos, at, k + 1);
      TokenTextLength(lines);
      var l', i' := Locate(lines, k);
      TokenAt(lines, l', i');
      var a := Offset(lines, at.line) + at.col + 1;
      ReadsTheSameBack(lines, l', i', a, q, q);
      if Solid(lines[l'][i']) && !Skips(lines[l'], i') && (lines[l'][i'] == '<' ==> CountsBack(TokenText(lines), k + 1, q)) {
        PlacesInOrder(lines, l', i' + 1, l, pos);
        SymmetricBackPart(lines, a, q, k + 1, q, q);
        var s := WalkBack(lines, q, l, pos, ['>'], l', i');
        s := OneBackward(lines, q, l', i', s);
      } else {
        SkippedIsAngle(lines[l'], i');
        SoftToken(lines[l'], i');
        SoftChangesNothing(TokenText(lines), k, q);
      }
    }
  }

  // The scanner comes to the '<' it finds with no bracket open.
  lemma ComesTo(lines: seq<string>, l: nat, pos: nat, at: Place) returns (s: seq<char>)
    requires l < |lines| && pos < |lines[l]| && lines[l][pos] == '>'
    requires BackwardPushes(lines[l], pos) && ForwardPops(lines[l], pos)
    requires OpenFrom(lines, l, pos + 1, []) == Some(at) && at.line < |lines| && at.col < |lines[at.line]|
    requires lines[at.line][at.col] == '<'
    requires SymmetricBack(lines, Offset(lines, at.line) + at.col + 1, Offset(lines, l) + pos, Offset(lines, l) + pos)
    ensures var p, q := Offset(lines, at.line) + at.col, Offset(lines, l) + pos;
      && p < q < |TokenText(lines)| && TokenText(lines)[q] == '>'
      && (forall k | p < k <= q :: A.InsideBack(TokenText(lines), k, q))
      && AlongBack(TokenText(lines), p + 1, q, s) && OpenFrom(lines, at.line, at.col + 1, s) == Some(at)
      && CountsBack(TokenText(lines), p + 1, q)
  {
    hide Backward, TokenText, Offset, A.RunBack, Abs, SymmetricAt, Token, OpenFrom, BackwardPushes, ForwardPops, CountsBack,
         SymmetricBack;
    var p, q := Offset(lines, at.line) + at.col, Offset(lines, l) + pos;
    StartsBack(lines, l, pos);
    OpenedBehind(lines, l, pos, ['>']);
    Earlier(lines, at.line, at.col, l, pos);
    StaysInsideBack(lines, q, l, pos, at, p + 1);
    PlacesInOrder(lines, at.line, at.col + 1, l, pos);
    assert Solid('<');
    s := WalkBack(lines, q, l, pos, ['>'], at.line, at.col);
    FoundAlone(lines, at.line, at.col, s);
    CountsHere(TokenText(lines), p + 1, q, s);
  }

  lemma CountsHere(text: string, k: nat, q: nat, stack: seq<char>)
    requires AlongBack(text, k, q, stack) && |stack| == 1
    ensures CountsBack(text, k, q)
  {
    LevelLast(stack, '>');
  }

  lemma LastPopped(line: string, i: nat, stack: seq<char>)
    requires i < |line| && line[i] == '<'
    ensures var v := BackwardChar(line, i, stack).verdict; !v.Failed? && (v.Found? ==> |stack| == 1)
  {
  }

  lemma FoundAlone(lines: seq<string>, l: nat, i: nat, stack: seq<char>)
    requires l < |lines| && i < |lines[l]| && lines[l][i] == '<' && OpenFrom(lines, l, i + 1, stack) == Some(Place(l, i))
    ensures |stack| == 1
  {
    hide *;
    LastPopped(lines[l], i, stack);
    var r := BackwardChar(lines[l], i, stack);
    if r.verdict.Unfinished? {
      GoesOn(lines, l, i, stack);
      OpenedBehind(lines, l, i - r.skip, r.verdict.stack);
    }
  }

  lemma GoesOn(lines: seq<string>, l: nat, i: nat, stack: seq<char>)
    requires l < |lines| && i < |lines[l]| && BackwardChar(lines[l], i, stack).verdict.Unfinished?
    ensures var r := BackwardChar(lines[l], i, stack);
      OpenFrom(lines, l, i + 1, stack) == OpenFrom(lines, l, i - r.skip, r.verdict.stack)
  {
    hide BackwardChar;
  }

  lemma OpenedMatches(lines: seq<string>, l: nat, pos: nat, at: Place)
    requires l < |lines| && pos < |lines[l]| && lines[l][pos] == '>'
    requires BackwardPushes(lines[l], pos) && ForwardPops(lines[l], pos)
    requires OpenFrom(lines, l, pos + 1, []) == Some(at) && at.line < |lines| && at.col < |lines[at.line]|
    requires lines[at.line][at.col] == '<' && ForwardPushes(lines[at.line], at.col)
    requires SymmetricBack(lines, Offset(lines, at.line) + at.col + 1, Offset(lines, l) + pos, Offset(lines, l) + pos)
    ensures A.MatchesBack(TokenText(lines), Offset(lines, at.line) + at.col, Offset(lines, l) + pos)
  {
    hide Backward, TokenText, Offset, A.RunBack, Abs, SymmetricAt, Token, OpenFrom, BackwardPushes, ForwardPops, ForwardPushes,
         CountsBack, SymmetricBack, Skips;
    var p, q := Offset(lines, at.line) + at.col, Offset(lines, l) + pos;
    var s := ComesTo(lines, l, pos, at);
    TokenAt(lines, at.line, at.col);
    PushingIsSymmetric(lines[at.line], at.col);
    assert Solid('<');
    s := OneBackward(lines, q, at.line, at.col, s);
    if A.RunBack(TokenText(lines), p, q).value.angles > 0 { OpenedBehind(lines, at.line, at.col, s); }
  }
}
