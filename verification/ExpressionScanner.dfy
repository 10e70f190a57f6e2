/** FindEndOfExpressionInLine, CloseExpression, their backward twins and
    _GetTextInside, with every '<', '>' and ';' heuristic they apply. */
module ExpressionScanner {
  import opened Wrappers
  import opened Brackets

  /// The regular expressions the scanners test.

  predicate IsSpace(c: char) {
    c == ' ' || c == '\t' || c == '\n' || c == '\r' || c == 11 as char || c == 12 as char
  }

  predicate IsWord(c: char) {
    'a' <= c <= 'z' || 'A' <= c <= 'Z' || '0' <= c <= '9' || c == '_'
  }

  function TrimRight(s: string): string {
    if s != [] && IsSpace(s[|s| - 1]) then TrimRight(s[..|s| - 1]) else s
  }

  const OPERATOR := "operator"

  // \boperator\s*$
  predicate EndsWithOperator(s: string) {
    var t := TrimRight(s);
    && |t| >= |OPERATOR|
    && t[|t| - |OPERATOR|..] == OPERATOR
    && (|t| == |OPERATOR| || !IsWord(t[|t| - |OPERATOR| - 1]))
  }

  // \s>=\s at the start of s
  predicate StartsWithSpacedGe(s: string) {
    |s| >= 4 && IsSpace(s[0]) && s[1] == '>' && s[2] == '=' && IsSpace(s[3])
  }

  // <[<=] at the start of s
  predicate StartsWithShiftOrLe(s: string) {
    |s| >= 2 && s[0] == '<' && (s[1] == '<' || s[1] == '=')
  }

  /// What one line does to the stack, reading left to right.

  datatype Verdict = Found(at: nat) | Failed | Unfinished(stack: seq<char>)

  function DropAngles(stack: seq<char>, angle: char): (r: seq<char>)
    ensures |r| <= |stack| && r == stack[..|r|]
    ensures r == [] || r[|r| - 1] != angle
    ensures forall i | |r| <= i < |stack| :: stack[i] == angle
  {
    if stack != [] && stack[|stack| - 1] == angle then DropAngles(stack[..|stack| - 1], angle) else stack
  }

  function ForwardChar(line: string, i: nat, stack: seq<char>): Verdict
    requires i < |line|
  {
    var c := line[i];
    if IsOpen(c) then
      Unfinished(stack + [c])
    else if c == '<' then
      if i > 0 && line[i - 1] == '<' then
        if stack != [] && stack[|stack| - 1] == '<' then
          if |stack| == 1 then Failed else Unfinished(stack[..|stack| - 1])
        else Unfinished(stack)
      else if i > 0 && EndsWithOperator(line[..i]) then Unfinished(stack)
      else Unfinished(stack + ['<'])
    else if IsClose(c) then
      var s := DropAngles(stack, '<');
      if s == [] then Failed
      else if Pairs(s[|s| - 1], c) then
        if |s| == 1 then Found(i + 1) else Unfinished(s[..|s| - 1])
      else Failed
    else if c == '>' then
      if i > 0 && (line[i - 1] == '-' || EndsWithOperator(line[..i - 1])) then Unfinished(stack)
      else if stack != [] && stack[|stack| - 1] == '<' then
        if |stack| == 1 then Found(i + 1) else Unfinished(stack[..|stack| - 1])
      else Unfinished(stack)
    else if c == ';' then
      var s := DropAngles(stack, '<');
      if s == [] then Failed else Unfinished(s)
    else Unfinished(stack)
  }

  function Forward(line: string, i: nat, stack: seq<char>): Verdict
    decreases |line| - i
  {
    if i >= |line| then Unfinished(stack)
    else match ForwardChar(line, i, stack)
      case Unfinished(s) => Forward(line, i + 1, s)
      case v => v
  }

  method FindEndOfExpressionInLine(line: string, startpos: nat, stack0: seq<char>)
    returns (endPos: int, newStack: Option<seq<char>>)
    ensures match Forward(line, startpos, stack0)
      case Found(e) => endPos == e && newStack == None
      case Failed => endPos == -1 && newStack == None
      case Unfinished(s) => endPos == -1 && newStack == Some(s)
  {
    var stack := stack0;
    var i := startpos;
    while i < |line|
      invariant i <= |line| || i == startpos
      invariant Forward(line, i, stack) == Forward(line, startpos, stack0)
    {
      var c := line[i];
      if IsOpen(c) {
        stack := stack + [c];
      } else if c == '<' {
        if i > 0 && line[i - 1] == '<' {
          if stack != [] && stack[|stack| - 1] == '<' {
            stack := stack[..|stack| - 1];
            if stack == [] {
              return -1, None;
            }
          }
        } else if i > 0 && EndsWithOperator(line[..i]) {
        } else {
          stack := stack + ['<'];
        }
      } else if IsClose(c) {
        stack := PopAngles(stack, '<');
        if stack == [] {
          return -1, None;
        }
        if Pairs(stack[|stack| - 1], c) {
          stack := stack[..|stack| - 1];
          if stack == [] {
            return i + 1, None;
          }
        } else {
          return -1, None;
        }
      } else if c == '>' {
        if i > 0 && (line[i - 1] == '-' || EndsWithOperator(line[..i - 1])) {
        } else if stack != [] && stack[|stack| - 1] == '<' {
          stack := stack[..|stack| - 1];
          if stack == [] {
            return i + 1, None;
          }
        }
      } else if c == ';' {
        stack := PopAngles(stack, '<');
        if stack == [] {
          return -1, None;
        }
      }
      i := i + 1;
    }
    return -1, Some(stack);
  }

  method PopAngles(stack: seq<char>, angle: char) returns (r: seq<char>)
    ensures r == DropAngles(stack, angle)
  {
    r := stack;
    while r != [] && r[|r| - 1] == angle
      invariant DropAngles(r, angle) == DropAngles(stack, angle)
    {
      r := r[..|r| - 1];
    }
  }

  /// Many lines.

  datatype Place = Place(line: nat, col: nat)

  function CloseFrom(lines: seq<string>, l: nat, i: nat, stack: seq<char>): Option<Place>
    requires l < |lines|
    decreases |lines| - l
  {
    match Forward(lines[l], i, stack)
    case Found(e) => Some(Place(l, e))
    case Failed => None
    case Unfinished(s) => if s != [] && l + 1 < |lines| then CloseFrom(lines, l + 1, 0, s) else None
  }

  function Close(lines: seq<string>, l: nat, pos: nat): Option<Place>
    requires l < |lines| && pos < |lines[l]|
  {
    var c := lines[l][pos];
    if !(IsOpen(c) || c == '<') || StartsWithShiftOrLe(lines[l][pos..]) then None
    else CloseFrom(lines, l, pos, [])
  }

  method CloseExpression(lines: seq<string>, linenum0: nat, pos: nat)
    returns (line: string, linenum: nat, endPos: int)
    requires linenum0 < |lines| && pos < |lines[linenum0]|
    ensures match Close(lines, linenum0, pos)
      case Some(at) => at.line < |lines| && line == lines[at.line] && linenum == at.line && endPos == at.col
      case None => linenum == |lines| && endPos == -1
  {
    linenum := linenum0;
    line := lines[linenum];
    var c := line[pos];
    if !(IsOpen(c) || c == '<') || StartsWithShiftOrLe(line[pos..]) {
      return line, |lines|, -1;
    }
    var newStack: Option<seq<char>>;
    endPos, newStack := FindEndOfExpressionInLine(line, pos, []);
    if endPos > -1 {
      return;
    }
    while newStack.Some? && newStack.value != [] && linenum < |lines| - 1
      decreases |lines| - linenum
      invariant linenum < |lines|
      invariant Close(lines, linenum0, pos) ==
                if newStack.Some? && newStack.value != [] && linenum + 1 < |lines|
                then CloseFrom(lines, linenum + 1, 0, newStack.value) else None
    {
      linenum := linenum + 1;
      line := lines[linenum];
      endPos, newStack := FindEndOfExpressionInLine(line, 0, newStack.value);
      if endPos > -1 {
        return;
      }
    }
    return line, |lines|, -1;
  }

  /// Right to left.  A step also says how many characters it consumed.

  datatype BackStep = BackStep(verdict: Verdict, skip: nat)

  function BackwardChar(line: string, i: nat, stack: seq<char>): (r: BackStep)
    requires i < |line|
    ensures r.skip <= i
  {
    var c := line[i];
    if IsClose(c) then
      BackStep(Unfinished(stack + [c]), 0)
    else if c == '>' then
      if i > 0 && (line[i - 1] == '-' || StartsWithSpacedGe(line[i - 1..]) || EndsWithOperator(line[..i])) then
        BackStep(Unfinished(stack), 1)
      else BackStep(Unfinished(stack + ['>']), 0)
    else if c == '<' then
      if i > 0 && line[i - 1] == '<' then BackStep(Unfinished(stack), 1)
      else if stack != [] && stack[|stack| - 1] == '>' then
        BackStep(if |stack| == 1 then Found(i) else Unfinished(stack[..|stack| - 1]), 0)
      else BackStep(Unfinished(stack), 0)
    else if IsOpen(c) then
      var s := DropAngles(stack, '>');
      if s == [] then BackStep(Failed, 0)
      else if Pairs(c, s[|s| - 1]) then
        BackStep(if |s| == 1 then Found(i) else Unfinished(s[..|s| - 1]), 0)
      else BackStep(Failed, 0)
    else if c == ';' then
      var s := DropAngles(stack, '>');
      BackStep(if s == [] then Failed else Unfinished(s), 0)
    else BackStep(Unfinished(stack), 0)
  }

  // Reads line[..n] from its end.
  function Backward(line: string, n: nat, stack: seq<char>): Verdict
    requires n <= |line|
    decreases n
  {
    if n == 0 then Unfinished(stack)
    else
      var step := BackwardChar(line, n - 1, stack);
      match step.verdict
      case Unfinished(s) => Backward(line, n - 1 - step.skip, s)
      case v => v
  }

  method FindStartOfExpressionInLine(line: string, endpos: int, stack0: seq<char>)
    returns (startPos: int, newStack: Option<seq<char>>)
    requires -1 <= endpos < |line|
    ensures match Backward(line, endpos + 1, stack0)
      case Found(b) => startPos == b && newStack == None
      case Failed => startPos == -1 && newStack == None
      case Unfinished(s) => startPos == -1 && newStack == Some(s)
  {
    var stack := stack0;
    var i := endpos;
    while i >= 0
      invariant -1 <= i <= endpos
      invariant Backward(line, i + 1, stack) == Backward(line, endpos + 1, stack0)
    {
      var c := line[i];
      if IsClose(c) {
        stack := stack + [c];
      } else if c == '>' {
        if i > 0 && (line[i - 1] == '-' || StartsWithSpacedGe(line[i - 1..]) || EndsWithOperator(line[..i])) {
          i := i - 1;
        } else {
          stack := stack + ['>'];
        }
      } else if c == '<' {
        if i > 0 && line[i - 1] == '<' {
          i := i - 1;
        } else if stack != [] && stack[|stack| - 1] == '>' {
          stack := stack[..|stack| - 1];
          if stack == [] {
            return i, None;
          }
        }
      } else if IsOpen(c) {
        stack := PopAngles(stack, '>');
        if stack == [] {
          return -1, None;
        }
        if Pairs(c, stack[|stack| - 1]) {
          stack := stack[..|stack| - 1];
          if stack == [] {
            return i, None;
          }
        } else {
          return -1, None;
        }
      } else if c == ';' {
        stack := PopAngles(stack, '>');
        if stack == [] {
          return -1, None;
        }
      }
      i := i - 1;
    }
    return -1, Some(stack);
  }

  function OpenFrom(lines: seq<string>, l: nat, n: nat, stack: seq<char>): Option<Place>
    requires l < |lines| && n <= |lines[l]|
    decreases l
  {
    match Backward(lines[l], n, stack)
    case Found(b) => Some(Place(l, b))
    case Failed => None
    case Unfinished(s) => if s != [] && l > 0 then OpenFrom(lines, l - 1, |lines[l - 1]|, s) else None
  }

  function ReverseClose(lines: seq<string>, l: nat, pos: nat): Option<Place>
    requires l < |lines| && pos < |lines[l]|
  {
    var c := lines[l][pos];
    if !(IsClose(c) || c == '>') then None else OpenFrom(lines, l, pos + 1, [])
  }

  method ReverseCloseExpression(lines: seq<string>, linenum0: nat, pos: nat)
    returns (line: string, linenum: nat, startPos: int)
    requires linenum0 < |lines| && pos < |lines[linenum0]|
    ensures match ReverseClose(lines, linenum0, pos)
      case Some(at) => at.line < |lines| && line == lines[at.line] && linenum == at.line && startPos == at.col
      case None => linenum == 0 && startPos == -1
  {
    linenum := linenum0;
    line := lines[linenum];
    var c := line[pos];
    if !(IsClose(c) || c == '>') {
      return line, 0, -1;
    }
    var newStack: Option<seq<char>>;
    startPos, newStack := FindStartOfExpressionInLine(line, pos, []);
    if startPos > -1 {
      return;
    }
    while newStack.Some? && newStack.value != [] && linenum > 0
      decreases linenum
      invariant linenum < |lines|
      invariant ReverseClose(lines, linenum0, pos) ==
                if newStack.Some? && newStack.value != [] && linenum > 0
                then OpenFrom(lines, linenum - 1, |lines[linenum - 1]|, newStack.value) else None
    {
      linenum := linenum - 1;
      line := lines[linenum];
      startPos, newStack := FindStartOfExpressionInLine(line, |line| - 1, newStack.value);
      if startPos > -1 {
        return;
      }
    }
    return line, 0, -1;
  }

  /// The third matcher, over one text.

  // start is the position just after the opening punctuation.
  method GetTextInside(text: string, start: nat) returns (inside: Option<string>)
    requires 0 < start <= |text| && IsOpen(text[start - 1])
    ensures match inside
      case Some(t) => exists q: nat :: Matches(text, start - 1, q) && t == text[start..q]
      case None => Unmatched(text, start - 1)
  {
    ghost var p := start - 1;
    var stack := [Mirror(text[start - 1])];
    assert Run(text, p, p + 1) == Some(Mirrored(stack)) by {
      assert [] + [text[p]] == Mirrored(stack);
    }
    var position := start;
    while stack != [] && position < |text|
      decreases |text| - position
      invariant start <= position <= |text|
      invariant AllClose(stack)
      invariant Run(text, p, position) == Some(Mirrored(stack))
      invariant forall k | p < k < position :: Inside(text, p, k)
      invariant stack == [] ==> position > start
    {
      var c := text[position];
      ghost var before := stack;
      if c == stack[|stack| - 1] {
        stack := stack[..|stack| - 1];
        assert Mirrored(stack) == Mirrored(before)[..|before| - 1];
      } else if IsClose(c) {
        assert Run(text, p, position + 1) == None;
        forall q: nat ensures !Matches(text, p, q) {
          if Matches(text, p, q) {
            assert q + 1 <= position ==> q < position;
            assert p < q + 1 <= position ==> Inside(text, p, q + 1);
            RunStuck(text, p, position + 1, q + 1);
          }
        }
        return None;
      } else if IsOpen(c) {
        stack := stack + [Mirror(c)];
        assert Mirrored(stack) == Mirrored(before) + [c];
      }
      assert Inside(text, p, position);
      position := position + 1;
    }
    assert Mirrored([]) == [];
    if stack != [] {
      forall q: nat ensures !Matches(text, p, q) {
        assert p < q + 1 <= position ==> Inside(text, p, q + 1);
      }
      return None;
    }
    assert Matches(text, p, position - 1);
    return Some(text[start..position - 1]);
  }

  // Once the brackets are wrong they stay wrong.
  lemma {:induction false} RunStuck(text: string, p: nat, k: nat, k': nat)
    requires p <= k <= |text| && Run(text, p, k) == None
    requires k' <= |text|
    ensures k <= k' ==> Run(text, p, k') == None
    decreases k'
  {
    if k' <= k {
    } else {
      RunStuck(text, p, k, k' - 1);
    }
  }
}
