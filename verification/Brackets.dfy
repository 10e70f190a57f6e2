/** The bracket scanners of cpplint (build_support/cpplint.py).
    A file is a sequence of lines; the scanners walk over it with an explicit
    stack and guess which '<' and '>' are template brackets. */
module Brackets {
  import opened Wrappers

  predicate IsOpen(c: char) {
    c == '(' || c == '[' || c == '{'
  }

  predicate IsClose(c: char) {
    c == ')' || c == ']' || c == '}'
  }

  predicate Pairs(o: char, c: char) {
    (o == '(' && c == ')') || (o == '[' && c == ']') || (o == '{' && c == '}')
  }

  function Mirror(c: char): char {
    if c == '(' then ')' else if c == '[' then ']' else if c == '{' then '}'
    else if c == ')' then '(' else if c == ']' then '[' else if c == '}' then '{'
    else c
  }

  /// What it means to match: typed brackets only, no '<', '>' or ';'.

  function Step(s: seq<char>, c: char): Option<seq<char>> {
    if IsOpen(c) then Some(s + [c])
    else if !IsClose(c) then Some(s)
    else if s != [] && Pairs(s[|s| - 1], c) then Some(s[..|s| - 1])
    else None
  }

  // The brackets still open after reading text[p..k] left to right.
  function Run(text: string, p: nat, k: nat): Option<seq<char>>
    requires p <= k <= |text|
    decreases k - p
  {
    if k == p then Some([])
    else match Run(text, p, k - 1)
      case None => None
      case Some(s) => Step(s, text[k - 1])
  }

  ghost predicate Inside(text: string, p: nat, k: nat)
    requires p <= k <= |text|
  {
    Run(text, p, k).Some? && Run(text, p, k).value != []
  }

  // The bracket opened at p is closed at q.
  ghost predicate Matches(text: string, p: nat, q: nat) {
    && p < q < |text|
    && IsOpen(text[p])
    && Run(text, p, q + 1) == Some([])
    && forall k | p < k <= q :: Inside(text, p, k)
  }

  ghost predicate Unmatched(text: string, p: nat) {
    forall q: nat :: !Matches(text, p, q)
  }

  function StepBack(s: seq<char>, c: char): Option<seq<char>> {
    if IsClose(c) then Some(s + [c])
    else if !IsOpen(c) then Some(s)
    else if s != [] && Pairs(c, s[|s| - 1]) then Some(s[..|s| - 1])
    else None
  }

  // The brackets still to be opened after reading from text[q] down to text[k].
  function RunBack(text: string, k: nat, q: nat): Option<seq<char>>
    requires k <= q + 1 <= |text|
    decreases q + 1 - k
  {
    if k == q + 1 then Some([])
    else match RunBack(text, k + 1, q)
      case None => None
      case Some(s) => StepBack(s, text[k])
  }

  ghost predicate InsideBack(text: string, k: nat, q: nat)
    requires k <= q + 1 <= |text|
  {
    RunBack(text, k, q).Some? && RunBack(text, k, q).value != []
  }

  // Read right to left, the bracket closed at q is opened at p.
  ghost predicate MatchesBack(text: string, p: nat, q: nat) {
    && p < q < |text|
    && IsClose(text[q])
    && RunBack(text, p, q) == Some([])
    && forall k | p < k <= q :: InsideBack(text, k, q)
  }

  function Mirrored(s: seq<char>): seq<char> {
    seq(|s|, i requires 0 <= i < |s| => Mirror(s[i]))
  }

  predicate AllOpen(s: seq<char>) {
    forall i | 0 <= i < |s| :: IsOpen(s[i])
  }

  predicate AllClose(s: seq<char>) {
    forall i | 0 <= i < |s| :: IsClose(s[i])
  }

  lemma {:induction false} RunAllOpen(text: string, p: nat, k: nat)
    requires p <= k <= |text|
    requires Run(text, p, k).Some?
    ensures AllOpen(Run(text, p, k).value)
    decreases k - p
  {
    if k == p {
    } else {
      RunAllOpen(text, p, k - 1);
    }
  }

  lemma {:induction false} RunBackAllClose(text: string, k: nat, q: nat)
    requires k <= q + 1 <= |text|
    requires RunBack(text, k, q).Some?
    ensures AllClose(RunBack(text, k, q).value)
    decreases q + 1 - k
  {
    if k == q + 1 {
    } else {
      RunBackAllClose(text, k + 1, q);
    }
  }

  // One step left to right is undone by the same step right to left.
  lemma StepUndone(s: seq<char>, c: char)
    requires AllOpen(s) && Step(s, c).Some?
    ensures StepBack(Mirrored(Step(s, c).value), c) == Some(Mirrored(s))
  {
    var t := Step(s, c).value;
    if IsOpen(c) {
      assert Mirrored(t)[..|s|] == Mirrored(s);
    } else if IsClose(c) {
      assert Mirrored(t) + [c] == Mirrored(s);
    }
  }

  lemma StepBackUndone(s: seq<char>, c: char)
    requires AllClose(s) && StepBack(s, c).Some?
    ensures Step(Mirrored(StepBack(s, c).value), c) == Some(Mirrored(s))
  {
    var t := StepBack(s, c).value;
    if IsClose(c) {
      assert Mirrored(t)[..|s|] == Mirrored(s);
    } else if IsOpen(c) {
      assert Mirrored(t) + [c] == Mirrored(s);
    }
  }

  lemma {:induction false} RunReversed(text: string, p: nat, q: nat, k: nat)
    requires Matches(text, p, q) && p <= k <= q + 1
    ensures Run(text, p, k).Some?
    ensures RunBack(text, k, q) == Some(Mirrored(Run(text, p, k).value))
    decreases q + 1 - k
  {
    assert Mirrored([]) == [];
    if k == q + 1 {
    } else {
      RunReversed(text, p, q, k + 1);
      assert k > p ==> Inside(text, p, k);
      RunAllOpen(text, p, k);
      StepUndone(Run(text, p, k).value, text[k]);
    }
  }

  lemma {:induction false} RunBackReversed(text: string, p: nat, q: nat, k: nat)
    requires MatchesBack(text, p, q) && p <= k <= q + 1
    ensures RunBack(text, k, q).Some?
    ensures Run(text, p, k) == Some(Mirrored(RunBack(text, k, q).value))
    decreases k - p
  {
    assert Mirrored([]) == [];
    if k == p {
    } else {
      RunBackReversed(text, p, q, k - 1);
      assert k <= q ==> InsideBack(text, k, q);
      RunBackAllClose(text, k, q);
      StepBackUndone(RunBack(text, k, q).value, text[k - 1]);
    }
  }

  // Matching does not depend on the direction of reading.
  lemma DirectionIrrelevant(text: string, p: nat, q: nat)
    ensures Matches(text, p, q) <==> MatchesBack(text, p, q)
  {
    if Matches(text, p, q) {
      forall k | p <= k <= q + 1
        ensures RunBack(text, k, q).Some? && Run(text, p, k).Some?
        ensures RunBack(text, k, q).value == Mirrored(Run(text, p, k).value)
      {
        RunReversed(text, p, q, k);
      }
      assert Inside(text, p, q);
      assert Step(Run(text, p, q).value, text[q]) == Some([]);
      assert forall k | p < k <= q :: Inside(text, p, k) ==> InsideBack(text, k, q);
    }
    if MatchesBack(text, p, q) {
      forall k | p <= k <= q + 1
        ensures RunBack(text, k, q).Some? && Run(text, p, k).Some?
        ensures Run(text, p, k).value == Mirrored(RunBack(text, k, q).value)
      {
        RunBackReversed(text, p, q, k);
      }
      assert InsideBack(text, p + 1, q);
      assert StepBack(RunBack(text, p + 1, q).value, text[p]) == Some([]);
      assert forall k | p < k <= q :: InsideBack(text, k, q) ==> Inside(text, p, k);
    }
  }

  lemma MatchUnique(text: string, p: nat, q: nat, p': nat, q': nat)
    requires Matches(text, p, q) && Matches(text, p', q')
    ensures p == p' <==> q == q'
  {
    if p == p' {
      assert q < q' ==> Inside(text, p, q + 1);
      assert q' < q ==> Inside(text, p, q' + 1);
    }
    if q == q' {
      DirectionIrrelevant(text, p, q);
      DirectionIrrelevant(text, p', q);
      assert p < p' ==> InsideBack(text, p', q);
      assert p' < p ==> InsideBack(text, p, q);
    }
  }
}
