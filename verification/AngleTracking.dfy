/** The scanner's stack from a '<' or a '>' on, in step with AngleMatching. */
module AngleTracking {
  import opened Wrappers
  import opened Brackets
  import opened ExpressionScanner
  import opened ScannerTheorems
  import A = AngleMatching

  /// How each direction reads an angle

  // "operator<" and the second of "<<" are no brackets forwards.
  predicate ForwardPushes(line: string, i: nat)
    requires i < |line|
  {
    i == 0 || (line[i - 1] != '<' && !EndsWithOperator(line[..i]))
  }

  predicate ForwardPops(line: string, i: nat)
    requires i < |line|
  {
    i == 0 || (line[i - 1] != '-' && !EndsWithOperator(line[..i - 1]))
  }

  predicate BackwardPushes(line: string, i: nat)
    requires i < |line|
  {
    i == 0 || (line[i - 1] != '-' && !StartsWithSpacedGe(line[i - 1..]) && !EndsWithOperator(line[..i]))
  }

  // No rule of one direction only applies to the character.
  predicate SymmetricAt(line: string, i: nat)
    requires i < |line|
  {
    && (line[i] == '<' ==> ForwardPushes(line, i))
    && (line[i] == '>' ==> (ForwardPops(line, i) <==> BackwardPushes(line, i)))
  }

  // The character as the forward scanner takes it.
  function Token(line: string, i: nat): char
    requires i < |line|
  {
    var c := line[i];
    if c == '<' then (if ForwardPushes(line, i) then '<' else ' ')
    else if c == '>' then (if ForwardPops(line, i) then '>' else ' ')
    else c
  }

  function Tokens(line: string): string {
    seq(|line|, i requires 0 <= i < |line| => Token(line, i))
  }

  function TokenText(lines: seq<string>): string {
    if lines == [] then "" else TokenText(lines[..|lines| - 1]) + Tokens(lines[|lines| - 1])
  }

  lemma {:induction false} TokenTextLength(lines: seq<string>)
    ensures |TokenText(lines)| == |Flat(lines)|
    decreases |lines|
  {
    if lines == [] {
    } else {
      TokenTextLength(lines[..|lines| - 1]);
    }
  }

  lemma {:induction false} TokenAt(lines: seq<string>, l: nat, i: nat)
    requires l < |lines| && i < |lines[l]|
    ensures Offset(lines, l) + i < |TokenText(lines)| == |Flat(lines)|
    ensures TokenText(lines)[Offset(lines, l) + i] == Token(lines[l], i)
    decreases |lines|
  {
    hide Token;
    TokenTextLength(lines);
    CharAt(lines, l, i);
    var front := lines[..|lines| - 1];
    TokenTextLength(front);
    if l == |lines| - 1 {
      assert lines[..l] == front;
    } else {
      TokenAt(front, l, i);
      assert front[..l] == lines[..l];
    }
  }

  /// The stack as a level

  function Lead(stack: seq<char>, angle: char): (n: nat)
    ensures n <= |stack| && (forall i | 0 <= i < n :: stack[i] == angle) && (n < |stack| ==> stack[n] != angle)
  {
    if stack == [] || stack[0] != angle then 0 else 1 + Lead(stack[1..], angle)
  }

  function Abs(stack: seq<char>, angle: char): A.Level {
    A.Level(Lead(stack, angle), Strip(stack, angle))
  }

  predicate Based(stack: seq<char>, angle: char) {
    stack != [] && stack[0] == angle
  }

  lemma {:induction false} StripAll(stack: seq<char>, angle: char)
    ensures Strip(stack, angle) == [] <==> Lead(stack, angle) == |stack|
    decreases |stack|
  {
    if stack == [] {
    } else {
      StripAll(stack[..|stack| - 1], angle);
    }
  }

  lemma LeadPrefix(stack: seq<char>, n: nat, angle: char)
    requires n <= |stack|
    ensures Lead(stack[..n], angle) == if n < Lead(stack, angle) then n else Lead(stack, angle)
  {
  }

  lemma {:induction false} LeadPush(stack: seq<char>, angle: char, c: char)
    ensures Lead(stack + [c], angle) ==
            if c == angle && Lead(stack, angle) == |stack| then |stack| + 1 else Lead(stack, angle)
    decreases |stack|
  {
    if stack == [] {
      assert [] + [c] == [c] && [c][1..] == [];
    } else {
      assert (stack + [c])[0] == stack[0] && (stack + [c])[1..] == stack[1..] + [c];
      LeadPush(stack[1..], angle, c);
    }
  }

  // Pushing, at the base and above brackets.
  lemma LevelPush(stack: seq<char>, angle: char, c: char)
    requires Based(stack, angle)
    ensures Based(stack + [c], angle)
    ensures Abs(stack + [c], angle) ==
      if c != angle then Abs(stack, angle).(brackets := Strip(stack, angle) + [c])
      else if Strip(stack, angle) == [] then Abs(stack, angle).(angles := Lead(stack, angle) + 1)
      else Abs(stack, angle)
  {
    StripPush(stack, angle, c);
    StripAll(stack, angle);
    LeadPush(stack, angle, c);
    hide Strip, Lead;
  }

  // Popping an angle.
  lemma LevelPop(stack: seq<char>, angle: char)
    requires Based(stack, angle) && stack[|stack| - 1] == angle && |stack| > 1
    ensures var s := stack[..|stack| - 1];
      && Based(s, angle)
      && Abs(s, angle) ==
         if Strip(stack, angle) == [] then Abs(stack, angle).(angles := Lead(stack, angle) - 1) else Abs(stack, angle)
  {
    StripAll(stack, angle);
    LeadPrefix(stack, |stack| - 1, angle);
  }

  lemma LevelLast(stack: seq<char>, angle: char)
    requires Based(stack, angle) && |stack| == 1
    ensures Abs(stack, angle) == A.Level(1, [])
  {
    assert stack == [angle];
    StripAll(stack, angle);
  }

  // Dropping the angles on top: nothing is left exactly without brackets.
  lemma LevelDrop(stack: seq<char>, angle: char)
    requires Based(stack, angle)
    ensures var s := DropAngles(stack, angle);
      && (s == [] <==> Strip(stack, angle) == [])
      && (s != [] ==>
          && |s| > Lead(stack, angle) && Based(s, angle) && Abs(s, angle) == Abs(stack, angle)
          && s[|s| - 1] == Strip(stack, angle)[|Strip(stack, angle)| - 1])
  {
    var s := DropAngles(stack, angle);
    StripDropped(stack, angle);
    StripAll(stack, angle);
    LeadPrefix(stack, |s|, angle);
    if s != [] { assert Strip(s, angle) == Strip(s[..|s| - 1], angle) + [s[|s| - 1]]; }
  }

  // Closing the last bracket.
  lemma LevelClose(s: seq<char>, angle: char)
    requires Based(s, angle) && s[|s| - 1] != angle && |s| > Lead(s, angle)
    ensures |s| > 1 && Based(s[..|s| - 1], angle)
    ensures Strip(s, angle) != []
    ensures Abs(s[..|s| - 1], angle) == Abs(s, angle).(brackets := Strip(s, angle)[..|Strip(s, angle)| - 1])
  {
    LeadPrefix(s, |s| - 1, angle);
  }

  /// One character

  lemma ForwardBracket(line: string, i: nat, stack: seq<char>)
    requires i < |line| && Based(stack, '<') && (IsOpen(line[i]) || IsClose(line[i]) || line[i] == ';')
    ensures match ForwardChar(line, i, stack)
      case Found(_) => false
      case Failed => A.Step(Abs(stack, '<'), line[i]) == None
      case Unfinished(s) => Based(s, '<') && A.Step(Abs(stack, '<'), line[i]) == Some(Abs(s, '<'))
  {
    hide Strip, Lead, DropAngles, EndsWithOperator;
    var c := line[i];
    if IsOpen(c) {
      LevelPush(stack, '<', c);
    } else {
      LevelDrop(stack, '<');
      var s := DropAngles(stack, '<');
      if s != [] && IsClose(c) { LevelClose(s, '<'); }
    }
  }

  lemma ForwardAngle(line: string, i: nat, stack: seq<char>)
    requires i < |line| && Based(stack, '<') && (Abs(stack, '<').brackets == [] && line[i] == '<' ==> ForwardPushes(line, i))
    requires !(IsOpen(line[i]) || IsClose(line[i]) || line[i] == ';')
    ensures match ForwardChar(line, i, stack)
      case Found(e) => e == i + 1 && line[i] == '>' && A.Step(Abs(stack, '<'), Token(line, i)) == Some(A.OUTSIDE)
      case Failed => false
      case Unfinished(s) => Based(s, '<') && A.Step(Abs(stack, '<'), Token(line, i)) == Some(Abs(s, '<'))
  {
    hide Strip, Lead, DropAngles, EndsWithOperator;
    if line[i] == '<' && i > 0 && line[i - 1] == '<' {
      if |stack| == 1 {
        LevelLast(stack, '<');
      } else if stack[|stack| - 1] == '<' {
        LevelPop(stack, '<');
      }
    } else if line[i] == '<' && ForwardPushes(line, i) {
      LevelPush(stack, '<', '<');
    } else if line[i] == '>' && ForwardPops(line, i) {
      if |stack| == 1 {
        LevelLast(stack, '<');
      } else if stack[|stack| - 1] == '<' {
        LevelPop(stack, '<');
        NotBelowOne(stack, '<');
      } else {
        BracketOnTop(stack, '<');
      }
    }
  }

  lemma BracketOnTop(stack: seq<char>, angle: char)
    requires stack != [] && stack[|stack| - 1] != angle
    ensures Strip(stack, angle) != []
  {
  }

  lemma NotBelowOne(stack: seq<char>, angle: char)
    requires Based(stack, angle)
    ensures Lead(stack, angle) > 0
  {
  }

  lemma BackwardBracket(line: string, i: nat, stack: seq<char>)
    requires i < |line| && Based(stack, '>') && (IsOpen(line[i]) || IsClose(line[i]) || line[i] == ';')
    ensures BackwardChar(line, i, stack).skip == 0
    ensures match BackwardChar(line, i, stack).verdict
      case Found(_) => false
      case Failed => A.StepBack(Abs(stack, '>'), line[i]) == None
      case Unfinished(s) => Based(s, '>') && A.StepBack(Abs(stack, '>'), line[i]) == Some(Abs(s, '>'))
  {
    hide Strip, Lead, DropAngles, EndsWithOperator, StartsWithSpacedGe;
    var c := line[i];
    if IsClose(c) {
      LevelPush(stack, '>', c);
    } else {
      LevelDrop(stack, '>');
      var s := DropAngles(stack, '>');
      if s != [] && IsOpen(c) { LevelClose(s, '>'); }
    }
  }

  // The backward scanner takes the character before as well.
  predicate Skips(line: string, i: nat)
    requires i < |line|
  {
    || (line[i] == '>' && !BackwardPushes(line, i))
    || (line[i] == '<' && i > 0 && line[i - 1] == '<')
  }

  lemma BackwardAngle(line: string, i: nat, stack: seq<char>)
    requires i < |line| && Based(stack, '>') && (Abs(stack, '>').brackets == [] ==> SymmetricAt(line, i))
    requires !(IsOpen(line[i]) || IsClose(line[i]) || line[i] == ';')
    ensures BackwardChar(line, i, stack).skip == 1 <==> Skips(line, i)
    ensures match BackwardChar(line, i, stack).verdict
      case Found(e) => e == i && line[i] == '<' && A.StepBack(Abs(stack, '>'), Token(line, i)) == Some(A.OUTSIDE)
      case Failed => false
      case Unfinished(s) => Based(s, '>') && A.StepBack(Abs(stack, '>'), Token(line, i)) == Some(Abs(s, '>'))
  {
    hide Strip, Lead, DropAngles, EndsWithOperator, StartsWithSpacedGe;
    if line[i] == '>' && BackwardPushes(line, i) {
      LevelPush(stack, '>', '>');
    } else if line[i] == '<' && !Skips(line, i) {
      if |stack| == 1 {
        LevelLast(stack, '>');
      } else if stack[|stack| - 1] == '>' {
        LevelPop(stack, '>');
        NotBelowOne(stack, '>');
      } else {
        BracketOnTop(stack, '>');
      }
    }
  }

  // Characters the backward scanner never steps over unread.
  predicate Solid(c: char) {
    IsOpen(c) || IsClose(c) || c == '<' || c == '>' || c == ';'
  }

  lemma OperatorTail(s: string)
    requires EndsWithOperator(s)
    ensures s != "" && !Solid(s[|s| - 1])
  {
  }

  lemma SkippedBefore(line: string, i: nat)
    requires i < |line| && Skips(line, i)
    ensures i > 0 && if line[i] == '>' then !Solid(line[i - 1]) else line[i - 1] == '<'
  {
    if i > 0 && EndsWithOperator(line[..i]) { OperatorTail(line[..i]); }
  }
}
