/** From a '<' on, CloseExpression is angle matching over the tokens. */
module AngleForward {
  import opened Wrappers
  import opened Brackets
  import opened ExpressionScanner
  import opened ScannerTheorems
  import opened AngleTracking
  import A = AngleMatching

  // No bracket opened since p is open at k, so that angles count there.
  ghost predicate Counts(text: string, p: nat, k: nat) {
    p <= k <= |text| && A.Run(text, p, k).Some? && A.Run(text, p, k).value.brackets == []
  }

  // Where angles count, every character from a up to b reads the same both ways.
  ghost predicate Symmetric(lines: seq<string>, p: nat, a: nat, b: nat) {
    forall l: nat, i: nat |
      l < |lines| && i < |lines[l]| && a <= Offset(lines, l) + i < b && Counts(TokenText(lines), p, Offset(lines, l) + i) ::
      SymmetricAt(lines[l], i)
  }

  lemma SymmetricPart(lines: seq<string>, p: nat, a: nat, b: nat, a': nat, b': nat)
    requires Symmetric(lines, p, a, b) && a <= a' && b' <= b
    ensures Symmetric(lines, p, a', b')
  {
    hide Counts, SymmetricAt;
  }

  ghost predicate Along(text: string, p: nat, k: nat, stack: seq<char>) {
    && p < k <= |text| && (forall j | p < j <= k :: A.Inside(text, p, j))
    && Based(stack, '<') && A.Run(text, p, k) == Some(Abs(stack, '<'))
  }

  /// Places

  lemma {:induction false} Locate(lines: seq<string>, k: nat) returns (l: nat, i: nat)
    requires k < |Flat(lines)|
    ensures l < |lines| && i < |lines[l]| && Offset(lines, l) + i == k
    decreases |lines|
  {
    var front := lines[..|lines| - 1];
    if k < |Flat(front)| {
      l, i := Locate(front, k);
      assert front[..l] == lines[..l];
    } else {
      l, i := |lines| - 1, k - |Flat(front)|;
    }
  }

  lemma PlacesInOrder(lines: seq<string>, l: nat, i: nat, l2: nat, j: nat)
    requires l < |lines| && i <= |lines[l]| && l2 < |lines| && j < |lines[l2]|
    requires Offset(lines, l) + i <= Offset(lines, l2) + j
    ensures l <= l2 && (l == l2 ==> i <= j)
  {
    if l2 < l {
      OffsetMonotone(lines, l2 + 1, l);
      CharAt(lines, l2, j);
    }
  }

  // The forward scanner can end behind this character.
  predicate Ends(line: string, i: nat)
    requires i < |line|
  {
    IsClose(line[i]) || (line[i] == '>' && ForwardPops(line, i))
  }

  lemma {:induction false} FoundAhead(line: string, i: nat, stack: seq<char>)
    requires Forward(line, i, stack).Found?
    ensures var e := Forward(line, i, stack).at; i < e <= |line| && Ends(line, e - 1)
    decreases |line| - i
  {
    hide ForwardChar, Ends;
    if i >= |line| {
    } else {
      FoundHere(line, i, stack);
      if ForwardChar(line, i, stack).Unfinished? { FoundAhead(line, i + 1, ForwardChar(line, i, stack).stack); }
    }
  }

  lemma FoundHere(line: string, i: nat, stack: seq<char>)
    requires i < |line|
    ensures ForwardChar(line, i, stack).Found? ==> ForwardChar(line, i, stack).at == i + 1 && Ends(line, i)
  {
    hide DropAngles, EndsWithOperator;
  }

  lemma {:induction false} ClosedAhead(lines: seq<string>, l: nat, i: nat, stack: seq<char>)
    requires l < |lines| && CloseFrom(lines, l, i, stack).Some?
    ensures var at := CloseFrom(lines, l, i, stack).value;
      l <= at.line < |lines| && 0 < at.col <= |lines[at.line]| && (at.line == l ==> i < at.col) && Ends(lines[at.line], at.col - 1)
    decreases |lines| - l
  {
    hide Ends;
    match Forward(lines[l], i, stack) {
      case Found(_) => FoundAhead(lines[l], i, stack);
      case Failed =>
      case Unfinished(s) => ClosedAhead(lines, l + 1, 0, s);
    }
  }

  /// One character, then many

  // What the machine says of the next character is what the scanner does.
  lemma OneForward(lines: seq<string>, p: nat, l: nat, i: nat, stack: seq<char>) returns (s: seq<char>)
    requires l < |lines| && i < |lines[l]| && Along(TokenText(lines), p, Offset(lines, l) + i, stack)
    requires Counts(TokenText(lines), p, Offset(lines, l) + i) && lines[l][i] == '<' ==> ForwardPushes(lines[l], i)
    ensures var k := Offset(lines, l) + i;
      k < |TokenText(lines)| &&
      match A.Run(TokenText(lines), p, k + 1)
      case None => CloseFrom(lines, l, i, stack) == None
      case Some(n) =>
        if n.angles == 0 then
          n == A.OUTSIDE && lines[l][i] == '>' && Token(lines[l], i) == '>' && CloseFrom(lines, l, i, stack) == Some(Place(l, i + 1))
        else Along(TokenText(lines), p, k + 1, s) && CloseFrom(lines, l, i, stack) == CloseFrom(lines, l, i + 1, s)
  {
    hide ForwardChar, Abs, Token, A.Step, Offset, TokenText, ForwardPushes;
    var line := lines[l];
    TokenAt(lines, l, i);
    var v := ForwardChar(line, i, stack);
    s := if v.Unfinished? then v.stack else stack;
    if IsOpen(line[i]) || IsClose(line[i]) || line[i] == ';' {
      ForwardBracket(line, i, stack);
      TokenIsChar(line, i);
    } else {
      ForwardAngle(line, i, stack);
      TokenIsPop(line, i);
    }
    AnglesLeft(s);
  }

  lemma TokenIsChar(line: string, i: nat)
    requires i < |line| && line[i] != '<' && line[i] != '>'
    ensures Token(line, i) == line[i]
  {
  }

  lemma TokenIsPop(line: string, i: nat)
    requires i < |line|
    ensures forall s: A.Level :: s.angles > 0 && A.Step(s, Token(line, i)) == Some(A.OUTSIDE) ==> Token(line, i) == '>'
  {
  }

  lemma AnglesLeft(s: seq<char>)
    ensures Based(s, '<') ==> Abs(s, '<').angles > 0
  {
  }

  // While the machine is inside, the scanner goes on.
  lemma {:induction false} Walk(lines: seq<string>, p: nat, l: nat, i: nat, stack: seq<char>, l2: nat, j: nat)
    returns (s: seq<char>)
    requires l <= l2 < |lines| && i <= |lines[l]| && j < |lines[l2]| && (l == l2 ==> i <= j)
    requires Along(TokenText(lines), p, Offset(lines, l) + i, stack)
    requires Symmetric(lines, p, Offset(lines, l) + i, Offset(lines, l2) + j)
    requires Offset(lines, l2) + j <= |TokenText(lines)|
    requires forall k | p < k <= Offset(lines, l2) + j :: A.Inside(TokenText(lines), p, k)
    ensures Along(TokenText(lines), p, Offset(lines, l2) + j, s)
    ensures CloseFrom(lines, l, i, stack) == CloseFrom(lines, l2, j, s)
    decreases l2 - l, |lines[l]| - i
  {
    hide Forward, TokenText, Offset, A.Run, Abs, Symmetric, Counts, ForwardPushes;
    if l == l2 && i == j {
      s := stack;
    } else if i == |lines[l]| {
      OffsetSplits(lines, l);
      NextLine(lines, l, stack);
      s := Walk(lines, p, l + 1, 0, stack, l2, j);
    } else {
      Earlier(lines, l, i, l2, j);
      ReadsTheSame(lines, p, l, i, Offset(lines, l) + i, Offset(lines, l2) + j);
      var s1 := OneForward(lines, p, l, i, stack);
      assert A.Inside(TokenText(lines), p, Offset(lines, l) + i + 1);
      SymmetricPart(lines, p, Offset(lines, l) + i, Offset(lines, l2) + j, Offset(lines, l) + i + 1, Offset(lines, l2) + j);
      s := Walk(lines, p, l, i + 1, s1, l2, j);
    }
  }

  lemma ReadsTheSame(lines: seq<string>, p: nat, l: nat, i: nat, a: nat, b: nat)
    requires l < |lines| && i < |lines[l]| && Symmetric(lines, p, a, b) && a <= Offset(lines, l) + i < b
    ensures Counts(TokenText(lines), p, Offset(lines, l) + i) && lines[l][i] == '<' ==> ForwardPushes(lines[l], i)
  {
    hide Counts, ForwardPushes, ForwardPops, BackwardPushes;
    assert Counts(TokenText(lines), p, Offset(lines, l) + i) ==> SymmetricAt(lines[l], i);
  }

  lemma NextLine(lines: seq<string>, l: nat, stack: seq<char>)
    requires l + 1 < |lines| && stack != []
    ensures CloseFrom(lines, l, |lines[l]|, stack) == CloseFrom(lines, l + 1, 0, stack)
  {
  }

  lemma Earlier(lines: seq<string>, l: nat, i: nat, l2: nat, j: nat)
    requires l <= l2 < |lines| && i < |lines[l]| && j < |lines[l2]| && (l == l2 ==> i < j)
    ensures Offset(lines, l) + i < Offset(lines, l2) + j
  {
    OffsetSplits(lines, l);
    if l < l2 { OffsetMonotone(lines, l + 1, l2); }
  }

  /// From the '<'

  lemma FirstLevel(text: string, p: nat)
    requires p < |text| && text[p] == '<'
    ensures A.Run(text, p, p + 1) == Some(A.Level(1, []))
  {
    assert A.Run(text, p, p) == Some(A.OUTSIDE);
    assert A.Step(A.OUTSIDE, '<') == Some(A.Level(1, []));
  }

  lemma Starts(lines: seq<string>, l: nat, pos: nat)
    requires l < |lines| && pos < |lines[l]| && lines[l][pos] == '<' && ForwardPushes(lines[l], pos)
    ensures var p := Offset(lines, l) + pos;
      && p < |TokenText(lines)| && TokenText(lines)[p] == '<' && Along(TokenText(lines), p, p + 1, ['<'])
      && CloseFrom(lines, l, pos, []) == CloseFrom(lines, l, pos + 1, ['<'])
  {
    hide TokenText, Offset, EndsWithOperator;
    TokenAt(lines, l, pos);
    LevelLast(['<'], '<');
    assert [] + ['<'] == ['<'];
    assert ForwardChar(lines[l], pos, []) == Unfinished(['<']);
    var text, p := TokenText(lines), Offset(lines, l) + pos;
    FirstLevel(text, p);
    hide A.Run, Abs;
    assert forall j | p < j <= p + 1 :: A.Inside(text, p, j);
  }

  // A match in the tokens is found.
  lemma MatchClosed(lines: seq<string>, l: nat, pos: nat, l2: nat, j: nat)
    requires l < |lines| && pos < |lines[l]| && l2 < |lines| && j < |lines[l2]|
    requires lines[l][pos] == '<' && ForwardPushes(lines[l], pos)
    requires A.Matches(TokenText(lines), Offset(lines, l) + pos, Offset(lines, l2) + j)
    requires Symmetric(lines, Offset(lines, l) + pos, Offset(lines, l) + pos, Offset(lines, l2) + j)
    ensures CloseFrom(lines, l, pos, []) == Some(Place(l2, j + 1))
  {
    hide Forward, TokenText, Offset, A.Run, Abs, Symmetric, Counts, ForwardPushes, Token, CloseFrom;
    Starts(lines, l, pos);
    PlacesInOrder(lines, l, pos + 1, l2, j);
    TokenAt(lines, l2, j);
    var p := Offset(lines, l) + pos;
    SymmetricPart(lines, p, p, Offset(lines, l2) + j, p + 1, Offset(lines, l2) + j);
    var s := Walk(lines, p, l, pos + 1, ['<'], l2, j);
    TokenPops(lines[l2], j);
    s := OneForward(lines, p, l2, j, s);
  }

  lemma TokenPops(line: string, j: nat)
    requires j < |line| && Token(line, j) == '>'
    ensures line[j] == '>'
  {
  }

  // The scanner has not been outside before the end it finds.
  lemma {:induction false} StaysInside(lines: seq<string>, p: nat, l: nat, pos: nat, at: Place, k: nat)
    requires l < |lines| && pos < |lines[l]| && lines[l][pos] == '<' && ForwardPushes(lines[l], pos)
    requires CloseFrom(lines, l, pos, []) == Some(at) && at.line < |lines| && 0 < at.col <= |lines[at.line]|
    requires p == Offset(lines, l) + pos < k <= Offset(lines, at.line) + at.col - 1
    requires Symmetric(lines, p, p, Offset(lines, at.line) + at.col - 1)
    ensures k <= |TokenText(lines)|
    ensures forall j | p < j <= k :: A.Inside(TokenText(lines), p, j)
    decreases k
  {
    hide Forward, TokenText, Offset, A.Run, Abs, Symmetric, Counts, ForwardPushes, Token, CloseFrom, Ends;
    Starts(lines, l, pos);
    TokenAt(lines, at.line, at.col - 1);
    if k == p + 1 {
    } else {
      StaysInside(lines, p, l, pos, at, k - 1);
      var l', i' := Locate(lines, k - 1);
      PlacesInOrder(lines, l, pos + 1, l', i');
      SymmetricPart(lines, p, p, Offset(lines, at.line) + at.col - 1, p + 1, k - 1);
      var s := Walk(lines, p, l, pos + 1, ['<'], l', i');
      ReadsTheSame(lines, p, l', i', p, Offset(lines, at.line) + at.col - 1);
      s := OneForward(lines, p, l', i', s);
    }
  }

  // What is found is a match in the tokens.
  lemma ClosedMatches(lines: seq<string>, l: nat, pos: nat, at: Place)
    requires l < |lines| && pos < |lines[l]| && lines[l][pos] == '<' && ForwardPushes(lines[l], pos)
    requires CloseFrom(lines, l, pos, []) == Some(at) && at.line < |lines| && 0 < at.col <= |lines[at.line]|
    requires Symmetric(lines, Offset(lines, l) + pos, Offset(lines, l) + pos, Offset(lines, at.line) + at.col - 1)
    ensures lines[at.line][at.col - 1] == '>' && Token(lines[at.line], at.col - 1) == '>'
    ensures A.Matches(TokenText(lines), Offset(lines, l) + pos, Offset(lines, at.line) + at.col - 1)
  {
    hide Forward, TokenText, Offset, A.Run, Abs, Symmetric, Counts, ForwardPushes, Token, CloseFrom, Ends;
    var p, q := Offset(lines, l) + pos, Offset(lines, at.line) + at.col - 1;
    Starts(lines, l, pos);
    ClosedAhead(lines, l, pos + 1, ['<']);
    Earlier(lines, l, pos, at.line, at.col - 1);
    StaysInside(lines, p, l, pos, at, q);
    TokenAt(lines, at.line, at.col - 1);
    PlacesInOrder(lines, l, pos + 1, at.line, at.col - 1);
    SymmetricPart(lines, p, p, q, p + 1, q);
    var s := Walk(lines, p, l, pos + 1, ['<'], at.line, at.col - 1);
    EndsHere(lines, at.line, at.col - 1, s);
    s := OneForward(lines, p, at.line, at.col - 1, s);
    if A.Run(TokenText(lines), p, q + 1).value.angles > 0 { ClosedAhead(lines, at.line, at.col, s); }
  }

  // The end found at a character is no '<'.
  lemma EndsHere(lines: seq<string>, l: nat, i: nat, s: seq<char>)
    requires l < |lines| && i < |lines[l]| && CloseFrom(lines, l, i, s) == Some(Place(l, i + 1))
    ensures lines[l][i] != '<'
  {
    ClosedAhead(lines, l, i, s);
  }
}
