/** NestingState.UpdatePreprocessor of cpplint: "if" saves the nesting stack,
    "else" puts it back, "endif" keeps the stack of the first branch. */
module Preprocessor {

  // A line as the three regular expressions see it; its body is what the rest
  // of the update makes of it, for a directive too.
  datatype Line<L> = If(body: L) | Else(body: L) | Endif(body: L) | Code(body: L)

  datatype Info<T> = Info(beforeIf: seq<T>, beforeElse: seq<T>, seenElse: bool)

  datatype Nesting<T> = Nesting(stack: seq<T>, pp: seq<Info<T>>)

  function Directive<T, L>(n: Nesting<T>, line: Line<L>): Nesting<T> {
    match line
    case If(_) => n.(pp := n.pp + [Info(n.stack, [], false)])
    case Else(_) =>
      if n.pp == [] then n
      else
        var last := |n.pp| - 1;
        var top := n.pp[last];
        var top' := if top.seenElse then top else top.(seenElse := true, beforeElse := n.stack);
        Nesting(top.beforeIf, n.pp[last := top'])
    case Endif(_) =>
      if n.pp == [] then n
      else
        var last := |n.pp| - 1;
        Nesting(if n.pp[last].seenElse then n.pp[last].beforeElse else n.stack, n.pp[..last])
    case Code(_) => n
  }

  class NestingState<T> {
    var stack: seq<T>
    var ppStack: seq<Info<T>>

    constructor ()
      ensures stack == [] && ppStack == []
    {
      stack, ppStack := [], [];
    }

    function View(): Nesting<T>
      reads this
    {
      Nesting(stack, ppStack)
    }

    method UpdatePreprocessor<L>(line: Line<L>)
      modifies this
      ensures View() == Directive(old(View()), line)
    {
      match line {
        case If(_) =>
          ppStack := ppStack + [Info(stack, [], false)];
        case Else(_) =>
          if ppStack != [] {
            var last := |ppStack| - 1;
            if !ppStack[last].seenElse {
              ppStack := ppStack[last := ppStack[last].(seenElse := true)];
              ppStack := ppStack[last := ppStack[last].(beforeElse := stack)];
            }
            stack := ppStack[last].beforeIf;
          }
        case Endif(_) =>
          if ppStack != [] {
            var last := |ppStack| - 1;
            if ppStack[last].seenElse {
              stack := ppStack[last].beforeElse;
            }
            ppStack := ppStack[..last];
          }
        case Code(_) =>
      }
    }

    // One line: the directive first, then whatever the line does to the stack.
    method Update<L>(line: Line<L>, effect: (L, seq<T>) -> seq<T>)
      modifies this
      ensures View() == Read(old(View()), line, effect)
    {
      UpdatePreprocessor(line);
      stack := effect(line.body, stack);
    }
  }

  function Read<T, L>(n: Nesting<T>, line: Line<L>, effect: (L, seq<T>) -> seq<T>): Nesting<T> {
    var d := Directive(n, line);
    d.(stack := effect(line.body, d.stack))
  }

  function ReadAll<T, L>(n: Nesting<T>, lines: seq<Line<L>>, effect: (L, seq<T>) -> seq<T>): Nesting<T> {
    if lines == [] then n
    else Read(ReadAll(n, lines[..|lines| - 1], effect), lines[|lines| - 1], effect)
  }

  /// Erasure: the text without what a conditional has from its first else on,
  /// that line included and its endif excluded.

  // For each open conditional, whether its #else was seen.
  function Open<L>(lines: seq<Line<L>>): seq<bool> {
    if lines == [] then [] else OpenStep(Open(lines[..|lines| - 1]), lines[|lines| - 1])
  }

  function OpenStep<L>(o: seq<bool>, line: Line<L>): seq<bool> {
    match line
    case If(_) => o + [false]
    case Else(_) => if o == [] then o else o[|o| - 1 := true]
    case Endif(_) => if o == [] then o else o[..|o| - 1]
    case Code(_) => o
  }

  predicate Live(o: seq<bool>) {
    forall i | 0 <= i < |o| :: !o[i]
  }

  function Erased<L>(lines: seq<Line<L>>): seq<L> {
    if lines == [] then []
    else
      var front := lines[..|lines| - 1];
      var last := lines[|lines| - 1];
      if Live(Open(lines)) then Erased(front) + [last.body] else Erased(front)
  }

  function RunCode<T, L>(stack: seq<T>, code: seq<L>, effect: (L, seq<T>) -> seq<T>): seq<T> {
    if code == [] then stack
    else effect(code[|code| - 1], RunCode(stack, code[..|code| - 1], effect))
  }

  function FirstSeen<T>(pp: seq<Info<T>>): (j: nat)
    ensures j <= |pp| && (j < |pp| ==> pp[j].seenElse)
    ensures forall i | 0 <= i < j :: !pp[i].seenElse
  {
    if pp == [] || pp[0].seenElse then 0 else 1 + FirstSeen(pp[1..])
  }

  // The stack the erased text would give: the current one, or the one that the
  // outermost conditional already past its #else is holding back.
  function Kept<T>(n: Nesting<T>): seq<T> {
    var j := FirstSeen(n.pp);
    if j == |n.pp| then n.stack else n.pp[j].beforeElse
  }

  ghost predicate SameFlags<T>(n: Nesting<T>, o: seq<bool>) {
    |o| == |n.pp| && forall i | 0 <= i < |o| :: o[i] == n.pp[i].seenElse
  }

  lemma KeptStep<T, L>(n: Nesting<T>, line: Line<L>, effect: (L, seq<T>) -> seq<T>)
    ensures Kept(Read(n, line, effect)) ==
            if FirstSeen(Directive(n, line).pp) == |Directive(n, line).pp| then effect(line.body, Kept(n)) else Kept(n)
  {
    var n' := Read(n, line, effect);
    var j, j' := FirstSeen(n.pp), FirstSeen(n'.pp);
    if j < |n.pp| && j < |n'.pp| {
      assert n'.pp[j].seenElse && j' == j;
    } else if n.pp != [] && line.Else? {
      assert n'.pp[|n.pp| - 1].seenElse;
      assert j == |n.pp| ==> j' == |n.pp| - 1;
    }
  }

  lemma FlagsStep<T, L>(n: Nesting<T>, o: seq<bool>, line: Line<L>, effect: (L, seq<T>) -> seq<T>)
    requires SameFlags(n, o)
    ensures SameFlags(Read(n, line, effect), OpenStep(o, line))
    ensures Live(OpenStep(o, line)) <==> FirstSeen(Directive(n, line).pp) == |Directive(n, line).pp|
  {
    var d := Directive(n, line);
    assert SameFlags(d, OpenStep(o, line));
    assert FirstSeen(d.pp) < |d.pp| ==> OpenStep(o, line)[FirstSeen(d.pp)];
  }

  lemma {:induction false} KeptIsErased<T, L>(n: Nesting<T>, lines: seq<Line<L>>, effect: (L, seq<T>) -> seq<T>)
    requires n.pp == []
    ensures SameFlags(ReadAll(n, lines, effect), Open(lines))
    ensures Kept(ReadAll(n, lines, effect)) == RunCode(n.stack, Erased(lines), effect)
    decreases |lines|
  {
    hide SameFlags, Live, Read, OpenStep, Directive, FirstSeen;
    if lines == [] {
      NothingOpen(n);
    } else {
      var front, last := lines[..|lines| - 1], lines[|lines| - 1];
      KeptIsErased(n, front, effect);
      var before := ReadAll(n, front, effect);
      KeptStep(before, last, effect);
      FlagsStep(before, Open(front), last, effect);
      assert (Erased(front) + [last.body])[..|Erased(front)|] == Erased(front);
    }
  }

  lemma NothingOpen<T>(n: Nesting<T>)
    requires n.pp == []
    ensures SameFlags(n, []) && Kept(n) == n.stack
  {
  }

  // Reading the whole text gives the stack of the erased text, unless some
  // conditional is left open after its #else.
  lemma ErasureKeepsStack<T, L>(stack: seq<T>, lines: seq<Line<L>>, effect: (L, seq<T>) -> seq<T>)
    requires Live(Open(lines))
    ensures ReadAll(Nesting(stack, []), lines, effect).stack == RunCode(stack, Erased(lines), effect)
  {
    KeptIsErased(Nesting(stack, []), lines, effect);
  }

  /// Properly nested text.

  datatype Text<L> =
    | End
    | Then(body: L, rest: Text<L>)
    | Conditional(opening: L, first: Text<L>, others: Branches<L>, closing: L, after: Text<L>)
  datatype Branches<L> = NoMore | Branch(turn: L, text: Text<L>, more: Branches<L>)

  function Written<L>(t: Text<L>): seq<Line<L>> {
    match t
    case End => []
    case Then(body, rest) => [Code(body)] + Written(rest)
    case Conditional(opening, first, others, closing, after) =>
      [If(opening)] + Written(first) + WrittenBranches(others) + [Endif(closing)] + Written(after)
  }

  function WrittenBranches<L>(b: Branches<L>): seq<Line<L>> {
    match b
    case NoMore => []
    case Branch(turn, text, more) => [Else(turn)] + Written(text) + WrittenBranches(more)
  }

  // What is left when every branch but the first is cut out, at every depth.
  function FirstBranches<L>(t: Text<L>): seq<L> {
    match t
    case End => []
    case Then(body, rest) => [body] + FirstBranches(rest)
    case Conditional(opening, first, _, closing, after) =>
      [opening] + FirstBranches(first) + [closing] + FirstBranches(after)
  }

  /// Reading a nested text, line by line and part by part.

  lemma {:induction false} ReadsOn<T, L>(n: Nesting<T>, a: seq<Line<L>>, b: seq<Line<L>>, effect: (L, seq<T>) -> seq<T>)
    ensures ReadAll(n, a + b, effect) == ReadAll(ReadAll(n, a, effect), b, effect)
    decreases |b|
  {
    hide Read;
    if b == [] {
      assert a + b == a;
    } else {
      assert (a + b)[..|a + b| - 1] == a + b[..|b| - 1];
      ReadsOn(n, a, b[..|b| - 1], effect);
    }
  }

  lemma ReadsOne<T, L>(n: Nesting<T>, line: Line<L>, b: seq<Line<L>>, effect: (L, seq<T>) -> seq<T>)
    ensures ReadAll(n, [line] + b, effect) == ReadAll(Read(n, line, effect), b, effect)
  {
    ReadsOn(n, [line], b, effect);
    ReadsLast(n, line, effect);
  }

  lemma ReadsLast<T, L>(n: Nesting<T>, line: Line<L>, effect: (L, seq<T>) -> seq<T>)
    ensures ReadAll(n, [line], effect) == Read(n, line, effect)
  {
    assert [line][..0] == [];
  }

  lemma {:induction false} RunsOn<T, L>(s: seq<T>, a: seq<L>, b: seq<L>, effect: (L, seq<T>) -> seq<T>)
    ensures RunCode(s, a + b, effect) == RunCode(RunCode(s, a, effect), b, effect)
    decreases |b|
  {
    if b == [] {
      assert a + b == a;
    } else {
      assert (a + b)[..|a + b| - 1] == a + b[..|b| - 1];
      RunsOn(s, a, b[..|b| - 1], effect);
    }
  }

  lemma RunsOne<T, L>(s: seq<T>, body: L, b: seq<L>, effect: (L, seq<T>) -> seq<T>)
    ensures RunCode(s, [body] + b, effect) == RunCode(effect(body, s), b, effect)
  {
    RunsOn(s, [body], b, effect);
    RunsLast(s, body, effect);
  }

  lemma RunsLast<T, L>(s: seq<T>, body: L, effect: (L, seq<T>) -> seq<T>)
    ensures RunCode(s, [body], effect) == effect(body, s)
  {
    assert [body][..0] == [];
  }

  // After any lines a nested text changes the stack as its first branches do,
  // and leaves the conditionals around it as they are.
  lemma {:induction false} ReadsText<T, L>(n: Nesting<T>, t: Text<L>, effect: (L, seq<T>) -> seq<T>)
    ensures ReadAll(n, Written(t), effect) == n.(stack := RunCode(n.stack, FirstBranches(t), effect))
    decreases t, 1
  {
    hide ReadAll, RunCode;
    match t {
      case End =>
        ReadsNothing(n, effect);
      case Then(body, rest) =>
        ReadsOne(n, Code(body), Written(rest), effect);
        ReadsText(Read(n, Code(body), effect), rest, effect);
        RunsOne(n.stack, body, FirstBranches(rest), effect);
      case Conditional(opening, first, others, closing, after) =>
        var conditional := [If(opening)] + Written(first) + WrittenBranches(others) + [Endif(closing)];
        ReadsOn(n, conditional, Written(after), effect);
        ReadsConditional(n, t, effect);
        var code := [opening] + FirstBranches(first) + [closing];
        ReadsText(n.(stack := RunCode(n.stack, code, effect)), after, effect);
        RunsOn(n.stack, code, FirstBranches(after), effect);
    }
  }

  lemma {:induction false} ReadsConditional<T, L>(n: Nesting<T>, t: Text<L>, effect: (L, seq<T>) -> seq<T>)
    requires t.Conditional?
    ensures ReadAll(n, [If(t.opening)] + Written(t.first) + WrittenBranches(t.others) + [Endif(t.closing)], effect) ==
            n.(stack := RunCode(n.stack, [t.opening] + FirstBranches(t.first) + [t.closing], effect))
    decreases t, 0
  {
    hide ReadAll, RunCode, Written, WrittenBranches, FirstBranches;
    var a, b, c := [If(t.opening)], Written(t.first), WrittenBranches(t.others);
    ReadsOn(n, a + b + c, [Endif(t.closing)], effect);
    ReadsOn(n, a + b, c, effect);
    ReadsOn(n, a, b, effect);
    ReadsLast(n, If(t.opening), effect);
    var n1 := Read(n, If(t.opening), effect);
    ReadsText(n1, t.first, effect);
    var n2 := n1.(stack := RunCode(n1.stack, FirstBranches(t.first), effect));
    ReadsBranches(n2, t.others, effect);
    assert n1.pp[..|n.pp|] == n.pp;
    ReadsLast(ReadAll(n2, c, effect), Endif(t.closing), effect);
    RunsOn(n.stack, [t.opening] + FirstBranches(t.first), [t.closing], effect);
    RunsOn(n.stack, [t.opening], FirstBranches(t.first), effect);
    RunsLast(n.stack, t.opening, effect);
    RunsLast(n2.stack, t.closing, effect);
  }

  lemma ReadsNothing<T, L>(n: Nesting<T>, effect: (L, seq<T>) -> seq<T>)
    ensures ReadAll(n, [], effect) == n && RunCode(n.stack, [], effect) == n.stack
  {
  }

  // The innermost conditional, after some branches behind its first: what was
  // before it stays, and the stack of the first branch is put aside once.
  function Turned<T>(n: Nesting<T>): Info<T>
    requires n.pp != []
  {
    var top := n.pp[|n.pp| - 1];
    if top.seenElse then top else top.(seenElse := true, beforeElse := n.stack)
  }

  lemma {:induction false} ReadsBranches<T, L>(n: Nesting<T>, b: Branches<L>, effect: (L, seq<T>) -> seq<T>)
    requires n.pp != []
    ensures var m, last := ReadAll(n, WrittenBranches(b), effect), |n.pp| - 1;
      if b == NoMore then m == n else m.pp == n.pp[last := Turned(n)]
    decreases b, 1
  {
    hide ReadAll, RunCode;
    match b {
      case NoMore =>
        ReadsNothing(n, effect);
      case Branch(turn, text, more) =>
        assert WrittenBranches(b) == [Else(turn)] + (Written(text) + WrittenBranches(more));
        ReadsOne(n, Else(turn), Written(text) + WrittenBranches(more), effect);
        var n1 := Read(n, Else(turn), effect);
        ReadsOn(n1, Written(text), WrittenBranches(more), effect);
        ReadsText(n1, text, effect);
        ReadsBranches(n1.(stack := RunCode(n1.stack, FirstBranches(text), effect)), more, effect);
    }
  }

  // Every properly nested text leaves the stack of its first branches.
  lemma NestedTextKeepsFirstBranches<T, L>(stack: seq<T>, t: Text<L>, effect: (L, seq<T>) -> seq<T>)
    ensures ReadAll(Nesting(stack, []), Written(t), effect) == Nesting(RunCode(stack, FirstBranches(t), effect), [])
  {
    ReadsText(Nesting(stack, []), t, effect);
  }

  /// A point inside a nested text: the texts around it are not finished yet.

  datatype Point<L> =
    | Behind(text: Text<L>)
    | InFirst(before: Text<L>, opening: L, here: Point<L>)
    | InLater(before: Text<L>, opening: L, first: Text<L>, earlier: Branches<L>, turn: L, here: Point<L>)

  function WrittenUpTo<L>(p: Point<L>): seq<Line<L>> {
    match p
    case Behind(text) => Written(text)
    case InFirst(before, opening, here) => Written(before) + ([If(opening)] + WrittenUpTo(here))
    case InLater(before, opening, first, earlier, turn, here) =>
      Written(before) + ([If(opening)] + (Written(first) + (WrittenBranches(earlier) + ([Else(turn)] + WrittenUpTo(here)))))
  }

  // What is left when the opening line and the branches before the one the
  // point is in are cut out.
  function BranchUpTo<L>(p: Point<L>): seq<L> {
    match p
    case Behind(text) => FirstBranches(text)
    case InFirst(before, opening, here) => FirstBranches(before) + ([opening] + BranchUpTo(here))
    case InLater(before, _, _, _, turn, here) => FirstBranches(before) + ([turn] + BranchUpTo(here))
  }

  // In every branch the lines see the stack they would see if it were the only one.
  lemma {:induction false} EveryBranchStartsOver<T, L>(n: Nesting<T>, p: Point<L>, effect: (L, seq<T>) -> seq<T>)
    ensures ReadAll(n, WrittenUpTo(p), effect).stack == RunCode(n.stack, BranchUpTo(p), effect)
    decreases p
  {
    hide ReadAll, RunCode, Written, FirstBranches;
    match p {
      case Behind(text) =>
        ReadsText(n, text, effect);
      case InFirst(before, opening, here) =>
        var m := n.(stack := RunCode(n.stack, FirstBranches(before), effect));
        ReadsOn(n, Written(before), [If(opening)] + WrittenUpTo(here), effect);
        ReadsText(n, before, effect);
        ReadsOne(m, If(opening), WrittenUpTo(here), effect);
        EveryBranchStartsOver(Read(m, If(opening), effect), here, effect);
        RunsOn(n.stack, FirstBranches(before), [opening] + BranchUpTo(here), effect);
        RunsOne(m.stack, opening, BranchUpTo(here), effect);
      case InLater(before, opening, first, earlier, turn, here) =>
        var m := n.(stack := RunCode(n.stack, FirstBranches(before), effect));
        var rest := [Else(turn)] + WrittenUpTo(here);
        ReadsOn(n, Written(before), [If(opening)] + (Written(first) + (WrittenBranches(earlier) + rest)), effect);
        ReadsText(n, before, effect);
        ReadsOne(m, If(opening), Written(first) + (WrittenBranches(earlier) + rest), effect);
        var m1 := Read(m, If(opening), effect);
        ReadsOn(m1, Written(first), WrittenBranches(earlier) + rest, effect);
        ReadsText(m1, first, effect);
        var m2 := m1.(stack := RunCode(m1.stack, FirstBranches(first), effect));
        ReadsOn(m2, WrittenBranches(earlier), rest, effect);
        ReadsBranches(m2, earlier, effect);
        var m3 := ReadAll(m2, WrittenBranches(earlier), effect);
        ReadsOne(m3, Else(turn), WrittenUpTo(here), effect);
        EveryBranchStartsOver(Read(m3, Else(turn), effect), here, effect);
        RunsOn(n.stack, FirstBranches(before), [turn] + BranchUpTo(here), effect);
        RunsOne(m.stack, turn, BranchUpTo(here), effect);
    }
  }
}
