/** When the scanners undo each other from a '<' or a '>': the rules that only
    one direction has decide it. */
module AngleTheorems {
  import opened Wrappers
  import opened Brackets
  import opened ExpressionScanner
  import opened ScannerTheorems
  import opened AngleTracking
  import opened AngleForward
  import opened AngleBackward
  import A = AngleMatching

  /// What a scan that starts with an empty stack finds

  lemma EmptyBackStep(lines: seq<string>, l: nat, n: nat) returns (m: nat)
    requires l < |lines| && 0 < n <= |lines[l]| && OpenFrom(lines, l, n, []).Some?
    requires !IsClose(lines[l][n - 1]) && !(lines[l][n - 1] == '>' && BackwardPushes(lines[l], n - 1))
    ensures m < n && OpenFrom(lines, l, n, []) == OpenFrom(lines, l, m, [])
    ensures forall k | m <= k < n :: A.NoBracket(lines[l][k])
  {
    hide EndsWithOperator, StartsWithSpacedGe;
    SkippedIsNoBracket(lines[l], n - 1, []);
    var r := BackwardChar(lines[l], n - 1, []);
    assert DropAngles([], '>') == [];
    assert r.verdict == Unfinished([]);
    m := n - 1 - r.skip;
  }

  // It ends at a '<' only because of a '>' on its first line.
  lemma {:induction false} EmptyBack(lines: seq<string>, l: nat, n: nat, at: Place) returns (j: nat)
    requires l < |lines| && n <= |lines[l]| && OpenFrom(lines, l, n, []) == Some(at)
    requires at.line < |lines| && at.col < |lines[at.line]| && lines[at.line][at.col] == '<'
    ensures j < n && lines[l][j] == '>' && BackwardPushes(lines[l], j) && OpenFrom(lines, l, j + 1, []) == Some(at)
    ensures forall k | j <= k < n :: A.NoBracket(lines[l][k])
    decreases n
  {
    hide BackwardPushes, Backward;
    if n == 0 {
      NothingBefore(lines, l);
    } else if IsClose(lines[l][n - 1]) {
      assert ReverseClose(lines, l, n - 1) == Some(at);
      ReverseThenClose(lines, l, n - 1);
    } else if lines[l][n - 1] == '>' && BackwardPushes(lines[l], n - 1) {
      j := n - 1;
    } else {
      var m := EmptyBackStep(lines, l, n);
      j := EmptyBack(lines, l, m, at);
    }
  }

  lemma NothingBefore(lines: seq<string>, l: nat)
    requires l < |lines|
    ensures OpenFrom(lines, l, 0, []) == None
  {
  }

  lemma EmptyForwardStep(lines: seq<string>, l: nat, i: nat)
    requires l < |lines| && i < |lines[l]| && CloseFrom(lines, l, i, []).Some?
    requires !IsOpen(lines[l][i]) && !(lines[l][i] == '<' && ForwardPushes(lines[l], i))
    ensures CloseFrom(lines, l, i, []) == CloseFrom(lines, l, i + 1, []) && A.NoBracket(lines[l][i])
  {
    hide EndsWithOperator;
    assert DropAngles([], '<') == [];
    assert ForwardChar(lines[l], i, []) == Unfinished([]);
  }

  lemma NothingAfter(lines: seq<string>, l: nat, i: nat)
    requires l < |lines| && i >= |lines[l]|
    ensures CloseFrom(lines, l, i, []) == None
  {
  }

  lemma {:induction false} EmptyForward(lines: seq<string>, l: nat, i: nat, at: Place) returns (j: nat)
    requires l < |lines| && CloseFrom(lines, l, i, []) == Some(at)
    requires at.line < |lines| && 0 < at.col <= |lines[at.line]| && lines[at.line][at.col - 1] == '>'
    ensures i <= j < |lines[l]| && lines[l][j] == '<' && ForwardPushes(lines[l], j) && CloseFrom(lines, l, j, []) == Some(at)
    ensures forall k | i <= k < j :: A.NoBracket(lines[l][k])
    decreases |lines[l]| - i
  {
    hide ForwardPushes, Forward;
    if i >= |lines[l]| {
      NothingAfter(lines, l, i);
    } else if IsOpen(lines[l][i]) {
      OpenIsNoShift(lines[l], i);
      assert Close(lines, l, i) == Some(at);
      CloseThenReverse(lines, l, i);
    } else if lines[l][i] == '<' && ForwardPushes(lines[l], i) {
      j := i;
    } else {
      EmptyForwardStep(lines, l, i);
      j := EmptyForward(lines, l, i + 1, at);
    }
  }

  lemma OpenIsNoShift(line: string, i: nat)
    requires i < |line| && IsOpen(line[i])
    ensures !StartsWithShiftOrLe(line[i..])
  {
  }

  /// From '>' on, an opening is a '<'

  lemma {:induction false} BasedFinds(line: string, n: nat, stack: seq<char>)
    requires n <= |line| && Based(stack, '>')
    ensures match Backward(line, n, stack)
      case Found(b) => b < n && line[b] == '<'
      case Failed => true
      case Unfinished(s) => Based(s, '>')
    decreases n
  {
    hide BackwardChar;
    if n == 0 {
    } else {
      BasedStep(line, n - 1, stack);
      var r := BackwardChar(line, n - 1, stack);
      if r.verdict.Unfinished? { BasedFinds(line, n - 1 - r.skip, r.verdict.stack); }
    }
  }

  lemma BasedStep(line: string, i: nat, stack: seq<char>)
    requires i < |line| && Based(stack, '>')
    ensures match BackwardChar(line, i, stack).verdict
      case Found(b) => b == i && line[b] == '<'
      case Failed => true
      case Unfinished(s) => Based(s, '>')
  {
    if IsOpen(line[i]) || IsClose(line[i]) || line[i] == ';' { BackwardBracket(line, i, stack); }
    hide EndsWithOperator, StartsWithSpacedGe, DropAngles;
  }

  lemma {:induction false} OpenedIsAngle(lines: seq<string>, l: nat, n: nat, stack: seq<char>)
    requires l < |lines| && n <= |lines[l]| && Based(stack, '>') && OpenFrom(lines, l, n, stack).Some?
    ensures var at := OpenFrom(lines, l, n, stack).value;
      at.line <= l && at.col < |lines[at.line]| && lines[at.line][at.col] == '<'
    decreases l
  {
    BasedFinds(lines[l], n, stack);
    match Backward(lines[l], n, stack) {
      case Found(_) =>
      case Failed =>
      case Unfinished(s) => OpenedIsAngle(lines, l - 1, |lines[l - 1]|, s);
    }
  }

  /// Where angles count does not depend on the direction.

  lemma TokenNoBracket(line: string, i: nat)
    requires i < |line|
    ensures A.NoBracket(Token(line, i)) <==> A.NoBracket(line[i])
  {
  }

  lemma OtherIsSymmetric(line: string, i: nat)
    requires i < |line| && !A.NoBracket(line[i])
    ensures SymmetricAt(line, i)
  {
  }

  lemma ForwardIsBack(lines: seq<string>, p: nat, a: nat, b: nat, q: nat)
    requires Symmetric(lines, p, a, b) && p <= a && b <= q + 1 && Counts(TokenText(lines), p, q + 1)
    ensures SymmetricBack(lines, a, b, q)
  {
    hide SymmetricAt, Offset, TokenText, Token, A.Run, A.RunBack, A.NoBracket;
    var text := TokenText(lines);
    forall l: nat, i: nat |
      l < |lines| && i < |lines[l]| && a <= Offset(lines, l) + i < b && CountsBack(text, Offset(lines, l) + i + 1, q)
      ensures SymmetricAt(lines[l], i)
    {
      var k := Offset(lines, l) + i;
      TokenAt(lines, l, i);
      TokenNoBracket(lines[l], i);
      if A.NoBracket(lines[l][i]) {
        A.BracketsTurned(text, p, q, k + 1);
        NothingMirrored(A.Run(text, p, k + 1).value.brackets);
        A.SameBrackets(text, p, k, k + 1);
        assert Counts(text, p, k);
      } else {
        OtherIsSymmetric(lines[l], i);
      }
    }
  }

  lemma NothingMirrored(s: seq<char>)
    requires Mirrored(s) == []
    ensures s == []
  {
    assert |Mirrored(s)| == |s|;
  }

  lemma BackIsForward(lines: seq<string>, p: nat, a: nat, b: nat, q: nat)
    requires SymmetricBack(lines, a, b, q) && p <= a && b <= q + 1 && CountsBack(TokenText(lines), p, q)
    ensures Symmetric(lines, p, a, b)
  {
    hide SymmetricAt, Offset, TokenText, Token, A.Run, A.RunBack, A.NoBracket;
    var text := TokenText(lines);
    forall l: nat, i: nat |
      l < |lines| && i < |lines[l]| && a <= Offset(lines, l) + i < b && Counts(text, p, Offset(lines, l) + i)
      ensures SymmetricAt(lines[l], i)
    {
      var k := Offset(lines, l) + i;
      TokenAt(lines, l, i);
      TokenNoBracket(lines[l], i);
      if A.NoBracket(lines[l][i]) {
        A.BracketsTurnedBack(text, p, q, k);
        NothingMirrored(A.RunBack(text, k, q).value.brackets);
        A.SameBracketsBack(text, k, k + 1, q);
        assert CountsBack(text, k + 1, q);
      } else {
        OtherIsSymmetric(lines[l], i);
      }
    }
  }

  // No bracket in the line from i up to j, so none in the text.
  lemma NoneBetween(lines: seq<string>, l: nat, i: nat, j: nat)
    requires l < |lines| && i <= j <= |lines[l]| && forall k | i <= k < j :: A.NoBracket(lines[l][k])
    ensures Offset(lines, l) + j <= |TokenText(lines)|
    ensures forall k | Offset(lines, l) + i <= k < Offset(lines, l) + j :: A.NoBracket(TokenText(lines)[k])
  {
    hide Offset, TokenText, Token, A.NoBracket;
    OffsetSplits(lines, l);
    TokenTextLength(lines);
    forall k | Offset(lines, l) + i <= k < Offset(lines, l) + j ensures A.NoBracket(TokenText(lines)[k]) {
      TokenAt(lines, l, k - Offset(lines, l));
      TokenNoBracket(lines[l], k - Offset(lines, l));
    }
  }

  /// The two theorems

  lemma PopsToken(line: string, i: nat)
    requires i < |line| && line[i] == '>' && Token(line, i) == '>'
    ensures ForwardPops(line, i)
  {
  }

  lemma MatchCounts(text: string, p: nat, q: nat)
    requires A.Matches(text, p, q)
    ensures Counts(text, p, q + 1) && A.MatchesBack(text, p, q) && CountsBack(text, p, q)
  {
    A.DirectionIrrelevant(text, p, q);
  }

  lemma FoundAgain(lines: seq<string>, l: nat, pos: nat, at: Place)
    requires l < |lines| && pos < |lines[l]| && lines[l][pos] == '<' && Close(lines, l, pos) == Some(at)
    requires at.line < |lines| && 0 < at.col <= |lines[at.line]| && ForwardPushes(lines[l], pos)
    requires Symmetric(lines, Offset(lines, l) + pos, Offset(lines, l) + pos, Offset(lines, at.line) + at.col - 1)
    ensures lines[at.line][at.col - 1] == '>'
    ensures ReverseClose(lines, at.line, at.col - 1) == Some(Place(l, pos)) <==> BackwardPushes(lines[at.line], at.col - 1)
  {
    hide *;
    var m, j := at.line, at.col - 1;
    var p, q := Offset(lines, l) + pos, Offset(lines, m) + j;
    CloseIsScan(lines, l, pos);
    ClosedMatches(lines, l, pos, at);
    PopsToken(lines[m], j);
    MatchCounts(TokenText(lines), p, q);
    ReverseIsScan(lines, m, j);
    if BackwardPushes(lines[m], j) {
      SymmetricPart(lines, p, p, q, p + 1, q);
      ForwardIsBack(lines, p, p + 1, q, q);
      MatchOpened(lines, m, j, l, pos);
    } else if ReverseClose(lines, m, j) == Some(Place(l, pos)) {
      var j' := EmptyBack(lines, m, j + 1, Place(l, pos));
      EarlierEnd(lines, l, pos, m, j, j');
    }
  }

  lemma CloseIsScan(lines: seq<string>, l: nat, pos: nat)
    requires l < |lines| && pos < |lines[l]| && Close(lines, l, pos).Some?
    ensures Close(lines, l, pos) == CloseFrom(lines, l, pos, []) && !StartsWithShiftOrLe(lines[l][pos..])
  {
  }

  lemma ReverseIsScan(lines: seq<string>, l: nat, pos: nat)
    requires l < |lines| && pos < |lines[l]| && lines[l][pos] == '>'
    ensures ReverseClose(lines, l, pos) == OpenFrom(lines, l, pos + 1, [])
  {
  }

  // An earlier '>' that leads back to the same '<' is where the forward scan ends.
  lemma EarlierEnd(lines: seq<string>, l: nat, pos: nat, m: nat, j: nat, j': nat)
    requires l < |lines| && pos < |lines[l]| && lines[l][pos] == '<' && ForwardPushes(lines[l], pos)
    requires m < |lines| && j' < j < |lines[m]| && A.Matches(TokenText(lines), Offset(lines, l) + pos, Offset(lines, m) + j)
    requires Symmetric(lines, Offset(lines, l) + pos, Offset(lines, l) + pos, Offset(lines, m) + j)
    requires lines[m][j'] == '>' && BackwardPushes(lines[m], j') && OpenFrom(lines, m, j' + 1, []) == Some(Place(l, pos))
    requires forall k | j' <= k < j + 1 :: A.NoBracket(lines[m][k])
    ensures CloseFrom(lines, l, pos, []) == Some(Place(m, j' + 1))
  {
    hide BackwardPushes, ForwardPushes, ForwardPops, Offset, TokenText, A.MatchesBack, A.Matches, A.Run, CloseFrom, OpenFrom,
         A.NoBracket, SymmetricAt, Symmetric, SymmetricBack;
    var text, p, q', q := TokenText(lines), Offset(lines, l) + pos, Offset(lines, m) + j', Offset(lines, m) + j;
    OpenedBefore(lines, m, j', Place(l, pos));
    Earlier(lines, l, pos, m, j');
    MatchCounts(text, p, q);
    NoneBetween(lines, m, j', j + 1);
    A.SameBrackets(text, p, q' + 1, q + 1);
    A.SameBrackets(text, p, q', q + 1);
    PopsAt(lines, p, m, j', p, q);
    SymmetricPart(lines, p, p, q, p, q');
    SymmetricPart(lines, p, p, q, p + 1, q');
    ForwardIsBack(lines, p, p + 1, q', q');
    OpenedMatches(lines, m, j', Place(l, pos));
    A.DirectionIrrelevant(text, p, q');
    MatchClosed(lines, l, pos, m, j');
  }

  lemma OpenedBefore(lines: seq<string>, l: nat, pos: nat, at: Place)
    requires l < |lines| && pos < |lines[l]| && lines[l][pos] == '>' && OpenFrom(lines, l, pos + 1, []) == Some(at)
    ensures at.line <= l && at.col < |lines[at.line]| && (at.line == l ==> at.col < pos)
  {
    hide OpenFrom, EndsWithOperator, StartsWithSpacedGe;
    var r := BackwardChar(lines[l], pos, []);
    GoesOn(lines, l, pos, []);
    OpenedBehind(lines, l, pos - r.skip, r.verdict.stack);
  }

  lemma PopsAt(lines: seq<string>, p: nat, m: nat, j: nat, a: nat, b: nat)
    requires m < |lines| && j < |lines[m]| && Symmetric(lines, p, a, b) && a <= Offset(lines, m) + j < b
    requires Counts(TokenText(lines), p, Offset(lines, m) + j) && lines[m][j] == '>' && BackwardPushes(lines[m], j)
    ensures ForwardPops(lines[m], j)
  {
    hide Counts, BackwardPushes, ForwardPops;
    assert SymmetricAt(lines[m], j);
  }

  lemma ScanIsClose(lines: seq<string>, l: nat, pos: nat)
    requires l < |lines| && pos < |lines[l]| && lines[l][pos] == '<' && !StartsWithShiftOrLe(lines[l][pos..])
    ensures Close(lines, l, pos) == CloseFrom(lines, l, pos, [])
  {
  }

  lemma FirstIsAngle(lines: seq<string>, l: nat, pos: nat, at: Place)
    requires l < |lines| && pos < |lines[l]| && lines[l][pos] == '>' && BackwardPushes(lines[l], pos)
    requires OpenFrom(lines, l, pos + 1, []) == Some(at)
    ensures at.line < |lines| && at.col < |lines[at.line]| && lines[at.line][at.col] == '<'
  {
    hide EndsWithOperator, StartsWithSpacedGe;
    assert [] + ['>'] == ['>'];
    assert BackwardChar(lines[l], pos, []) == BackStep(Unfinished(['>']), 0);
    assert OpenFrom(lines, l, pos + 1, []) == OpenFrom(lines, l, pos, ['>']);
    OpenedIsAngle(lines, l, pos, ['>']);
  }

  lemma ScannedFrom(lines: seq<string>, m: nat, j: nat, l: nat, pos: nat)
    requires l < |lines| && pos < |lines[l]| && lines[l][pos] == '>' && BackwardPushes(lines[l], pos) && ForwardPops(lines[l], pos)
    requires m < |lines| && j < |lines[m]| && lines[m][j] == '<' && ForwardPushes(lines[m], j)
    requires OpenFrom(lines, l, pos + 1, []) == Some(Place(m, j))
    requires SymmetricBack(lines, Offset(lines, m) + j + 1, Offset(lines, l) + pos, Offset(lines, l) + pos)
    ensures CloseFrom(lines, m, j, []) == Some(Place(l, pos + 1))
  {
    hide *;
    var p, q := Offset(lines, m) + j, Offset(lines, l) + pos;
    OpenedMatches(lines, l, pos, Place(m, j));
    A.DirectionIrrelevant(TokenText(lines), p, q);
    MatchCounts(TokenText(lines), p, q);
    WithStart(lines, m, j, q);
    BackIsForward(lines, p, p, q, q);
    MatchClosed(lines, m, j, l, pos);
  }

  lemma WithStart(lines: seq<string>, m: nat, j: nat, q: nat)
    requires m < |lines| && j < |lines[m]| && lines[m][j] == '<' && ForwardPushes(lines[m], j)
    requires SymmetricBack(lines, Offset(lines, m) + j + 1, q, q)
    ensures SymmetricBack(lines, Offset(lines, m) + j, q, q)
  {
    hide SymmetricAt, Offset, CountsBack, TokenText;
    var p := Offset(lines, m) + j;
    forall l: nat, i: nat |
      l < |lines| && i < |lines[l]| && p <= Offset(lines, l) + i < q && CountsBack(TokenText(lines), Offset(lines, l) + i + 1, q)
      ensures SymmetricAt(lines[l], i)
    {
      if Offset(lines, l) + i == p {
        PositionUnique(lines, l, i, m, j);
        PushingIsSymmetric(lines[m], j);
      }
    }
  }

  // A later '<' that leads to the same '>' is where the backward scan ends.
  lemma LaterStart(lines: seq<string>, m: nat, j: nat, j': nat, l: nat, pos: nat)
    requires l < |lines| && pos < |lines[l]| && lines[l][pos] == '>' && BackwardPushes(lines[l], pos) && ForwardPops(lines[l], pos)
    requires m < |lines| && j < j' < |lines[m]| && lines[m][j] == lines[m][j'] == '<' && ForwardPushes(lines[m], j')
    requires OpenFrom(lines, l, pos + 1, []) == Some(Place(m, j)) && CloseFrom(lines, m, j', []) == Some(Place(l, pos + 1))
    requires SymmetricBack(lines, Offset(lines, m) + j + 1, Offset(lines, l) + pos, Offset(lines, l) + pos)
    requires forall k | j <= k < j' :: A.NoBracket(lines[m][k])
    ensures OpenFrom(lines, l, pos + 1, []) == Some(Place(m, j'))
  {
    hide BackwardPushes, ForwardPushes, ForwardPops, Offset, TokenText, A.MatchesBack, A.Matches, A.RunBack, CloseFrom, OpenFrom,
         A.NoBracket, SymmetricAt, Symmetric, SymmetricBack, Abs, Ends;
    var text, p, p', q := TokenText(lines), Offset(lines, m) + j, Offset(lines, m) + j', Offset(lines, l) + pos;
    var s := ComesTo(lines, l, pos, Place(m, j));
    ClosedAhead(lines, m, j', []);
    Earlier(lines, m, j', l, pos);
    NoneBetween(lines, m, j + 1, j');
    assert A.InsideBack(text, p', q);
    SameBehind(text, p + 1, p', q);
    SymmetricBackPart(lines, p + 1, q, p', q, q);
    SymmetricBackPart(lines, p + 1, q, p' + 1, q, q);
    BackIsForward(lines, p', p', q, q);
    ClosedMatches(lines, m, j', Place(l, pos + 1));
    A.DirectionIrrelevant(text, p', q);
    MatchOpened(lines, l, pos, m, j');
  }

  lemma SameBehind(text: string, k: nat, k': nat, q: nat)
    requires k <= k' <= q < |text| && CountsBack(text, k, q) && forall i | k <= i < k' :: A.NoBracket(text[i])
    ensures CountsBack(text, k', q)
  {
    A.SameBracketsBack(text, k, k', q);
  }

  lemma ClosedAgain(lines: seq<string>, l: nat, pos: nat, at: Place)
    requires l < |lines| && pos < |lines[l]| && lines[l][pos] == '>' && BackwardPushes(lines[l], pos) && ForwardPops(lines[l], pos)
    requires OpenFrom(lines, l, pos + 1, []) == Some(at) && at.line < |lines| && at.col < |lines[at.line]|
    requires lines[at.line][at.col] == '<'
    requires SymmetricBack(lines, Offset(lines, at.line) + at.col + 1, Offset(lines, l) + pos, Offset(lines, l) + pos)
    ensures Close(lines, at.line, at.col) == Some(Place(l, pos + 1)) <==>
            ForwardPushes(lines[at.line], at.col) && !StartsWithShiftOrLe(lines[at.line][at.col..])
  {
    hide *;
    var m, j := at.line, at.col;
    if ForwardPushes(lines[m], j) && !StartsWithShiftOrLe(lines[m][j..]) {
      ScannedFrom(lines, m, j, l, pos);
      ScanIsClose(lines, m, j);
    } else if Close(lines, m, j) == Some(Place(l, pos + 1)) {
      CloseIsScan(lines, m, j);
      var j' := EmptyForward(lines, m, j, Place(l, pos + 1));
      LaterStart(lines, m, j, j', l, pos);
    }
  }

  /// For every file

  // Where no character that counts reads differently, a '<' whose end is found
  // is found again from that end exactly when the end is no operator backwards.
  lemma AngleCloseThenReverse(lines: seq<string>, l: nat, pos: nat)
    requires l < |lines| && pos < |lines[l]| && lines[l][pos] == '<'
    ensures match Close(lines, l, pos)
      case None => true
      case Some(at) =>
        && at.line < |lines| && 0 < at.col <= |lines[at.line]|
        && var p, q := Offset(lines, l) + pos, Offset(lines, at.line) + at.col - 1;
          Symmetric(lines, p, p, q) ==>
            && lines[at.line][at.col - 1] == '>'
            && (ReverseClose(lines, at.line, at.col - 1) == Some(Place(l, pos)) <==>
                BackwardPushes(lines[at.line], at.col - 1))
  {
    hide ForwardPushes, BackwardPushes, Close, Offset, CloseFrom, ReverseClose, Symmetric, TokenText;
    if Close(lines, l, pos).Some? {
      var at := Close(lines, l, pos).value;
      CloseIsScan(lines, l, pos);
      ClosedAhead(lines, l, pos, []);
      Earlier(lines, l, pos, at.line, at.col - 1);
      var p, q := Offset(lines, l) + pos, Offset(lines, at.line) + at.col - 1;
      if Symmetric(lines, p, p, q) {
        CountsFirst(lines, l, pos);
        ReadsTheSame(lines, p, l, pos, p, q);
        FoundAgain(lines, l, pos, at);
      }
    }
  }

  lemma CountsFirst(lines: seq<string>, l: nat, pos: nat)
    requires l < |lines| && pos < |lines[l]|
    ensures Counts(TokenText(lines), Offset(lines, l) + pos, Offset(lines, l) + pos)
    ensures CountsBack(TokenText(lines), Offset(lines, l) + pos + 1, Offset(lines, l) + pos)
  {
    hide Offset, TokenText;
    TokenAt(lines, l, pos);
  }

  // Conversely, what is found from a '>' leads back to it exactly when the '>' is
  // no operator and what was found is an opening forwards: no "operator<", and
  // neither "<<" nor "<=".
  lemma AngleReverseThenClose(lines: seq<string>, l: nat, pos: nat)
    requires l < |lines| && pos < |lines[l]| && lines[l][pos] == '>'
    ensures match ReverseClose(lines, l, pos)
      case None => true
      case Some(at) =>
        && at.line < |lines| && at.col < |lines[at.line]|
        && var q := Offset(lines, l) + pos;
          SymmetricBack(lines, Offset(lines, at.line) + at.col + 1, q + 1, q) ==>
            (Close(lines, at.line, at.col) == Some(Place(l, pos + 1)) <==>
             && BackwardPushes(lines[l], pos) && ForwardPushes(lines[at.line], at.col)
             && !StartsWithShiftOrLe(lines[at.line][at.col..]))
  {
    hide *;
    ReverseIsScan(lines, l, pos);
    if ReverseClose(lines, l, pos).Some? {
      var at := ReverseClose(lines, l, pos).value;
      OpenedBefore(lines, l, pos, at);
      Earlier(lines, at.line, at.col, l, pos);
      var a, q := Offset(lines, at.line) + at.col + 1, Offset(lines, l) + pos;
      if SymmetricBack(lines, a, q + 1, q) {
        CountsFirst(lines, l, pos);
        ReadsTheSameBack(lines, l, pos, a, q + 1, q);
        SameAtEnd(lines[l], pos);
        if BackwardPushes(lines[l], pos) {
          FirstIsAngle(lines, l, pos, at);
          SymmetricBackPart(lines, a, q + 1, a, q, q);
          ClosedAgain(lines, l, pos, at);
        } else if Close(lines, at.line, at.col) == Some(Place(l, pos + 1)) {
          CloseIsScan(lines, at.line, at.col);
          ClosedAhead(lines, at.line, at.col, []);
        }
      }
    }
  }

  lemma SameAtEnd(line: string, i: nat)
    requires i < |line| && line[i] == '>' && SymmetricAt(line, i)
    ensures ForwardPops(line, i) <==> BackwardPushes(line, i)
    ensures Ends(line, i) ==> ForwardPops(line, i)
  {
  }
}
