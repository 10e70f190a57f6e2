/** What it means for a '<' and a '>' to match among real brackets: the scanner
    rules that read the same in both directions, without any stack of angles
    inside brackets, where they never count. */
module AngleMatching {
  import opened Wrappers
  import opened Brackets

  // The angles open outside every bracket, and the brackets open inside them.
  datatype Level = Level(angles: nat, brackets: seq<char>)

  const OUTSIDE := Level(0, [])

  function Step(s: Level, c: char): Option<Level> {
    if IsOpen(c) || IsClose(c) then
      match Brackets.Step(s.brackets, c)
      case None => None
      case Some(b) => Some(s.(brackets := b))
    else if s.brackets != [] then Some(s)
    else if c == '<' then Some(s.(angles := s.angles + 1))
    else if c == '>' then (if s.angles == 0 then None else Some(s.(angles := s.angles - 1)))
    else if c == ';' then None
    else Some(s)
  }

  function Run(text: string, p: nat, k: nat): Option<Level>
    requires p <= k <= |text|
    decreases k - p
  {
    if k == p then Some(OUTSIDE)
    else match Run(text, p, k - 1)
      case None => None
      case Some(s) => Step(s, text[k - 1])
  }

  // Between the two angles.
  ghost predicate Inside(text: string, p: nat, k: nat)
    requires p <= k <= |text|
  {
    Run(text, p, k).Some? && Run(text, p, k).value.angles > 0
  }

  ghost predicate Matches(text: string, p: nat, q: nat) {
    && p < q < |text|
    && text[p] == '<' && text[q] == '>'
    && Run(text, p, q + 1) == Some(OUTSIDE)
    && forall k | p < k <= q :: Inside(text, p, k)
  }

  /// Right to left

  function StepBack(s: Level, c: char): Option<Level> {
    if IsOpen(c) || IsClose(c) then
      match Brackets.StepBack(s.brackets, c)
      case None => None
      case Some(b) => Some(s.(brackets := b))
    else if s.brackets != [] then Some(s)
    else if c == '>' then Some(s.(angles := s.angles + 1))
    else if c == '<' then (if s.angles == 0 then None else Some(s.(angles := s.angles - 1)))
    else if c == ';' then None
    else Some(s)
  }

  function RunBack(text: string, k: nat, q: nat): Option<Level>
    requires k <= q + 1 <= |text|
    decreases q + 1 - k
  {
    if k == q + 1 then Some(OUTSIDE)
    else match RunBack(text, k + 1, q)
      case None => None
      case Some(s) => StepBack(s, text[k])
  }

  ghost predicate InsideBack(text: string, k: nat, q: nat)
    requires k <= q + 1 <= |text|
  {
    RunBack(text, k, q).Some? && RunBack(text, k, q).value.angles > 0
  }

  ghost predicate MatchesBack(text: string, p: nat, q: nat) {
    && p < q < |text|
    && text[p] == '<' && text[q] == '>'
    && RunBack(text, p, q) == Some(OUTSIDE)
    && forall k | p < k <= q :: InsideBack(text, k, q)
  }

  /// The two directions

  function Turned(s: Level): Level {
    s.(brackets := Mirrored(s.brackets))
  }

  lemma {:induction false} RunBrackets(text: string, p: nat, k: nat)
    requires p <= k <= |text| && Run(text, p, k).Some?
    ensures AllOpen(Run(text, p, k).value.brackets)
    decreases k - p
  {
    if k == p {
    } else {
      RunBrackets(text, p, k - 1);
    }
  }

  lemma {:induction false} RunBackBrackets(text: string, k: nat, q: nat)
    requires k <= q + 1 <= |text| && RunBack(text, k, q).Some?
    ensures AllClose(RunBack(text, k, q).value.brackets)
    decreases q + 1 - k
  {
    if k == q + 1 {
    } else {
      RunBackBrackets(text, k + 1, q);
    }
  }

  // One step left to right is undone by the same step right to left.
  lemma LevelUndone(s: Level, c: char)
    requires AllOpen(s.brackets) && Step(s, c).Some?
    ensures StepBack(Turned(Step(s, c).value), c) == Some(Turned(s))
  {
    if IsOpen(c) || IsClose(c) { StepUndone(s.brackets, c); }
  }

  lemma LevelBackUndone(s: Level, c: char)
    requires AllClose(s.brackets) && StepBack(s, c).Some?
    ensures Step(Turned(StepBack(s, c).value), c) == Some(Turned(s))
  {
    if IsOpen(c) || IsClose(c) { StepBackUndone(s.brackets, c); }
  }

  lemma TurnedOutside()
    ensures Turned(OUTSIDE) == OUTSIDE
  {
    assert Mirrored([]) == [];
  }

  predicate NoBracket(c: char) {
    !IsOpen(c) && !IsClose(c)
  }

  // The brackets alone read the same both ways, whatever the angles do.
  lemma {:induction false} BracketsTurned(text: string, p: nat, q: nat, k: nat)
    requires p <= k <= q + 1 <= |text| && Run(text, p, q + 1).Some? && Run(text, p, q + 1).value.brackets == []
    ensures Run(text, p, k).Some?
    ensures RunBack(text, k, q).Some? ==> RunBack(text, k, q).value.brackets == Mirrored(Run(text, p, k).value.brackets)
    decreases q + 1 - k
  {
    TurnedOutside();
    if k == q + 1 {
    } else {
      BracketsTurned(text, p, q, k + 1);
      RunBrackets(text, p, k);
      if !NoBracket(text[k]) { StepUndone(Run(text, p, k).value.brackets, text[k]); }
    }
  }

  lemma {:induction false} BracketsTurnedBack(text: string, p: nat, q: nat, k: nat)
    requires p <= k <= q + 1 <= |text| && RunBack(text, p, q).Some? && RunBack(text, p, q).value.brackets == []
    ensures RunBack(text, k, q).Some?
    ensures Run(text, p, k).Some? ==> Run(text, p, k).value.brackets == Mirrored(RunBack(text, k, q).value.brackets)
    decreases k - p
  {
    TurnedOutside();
    if k == p {
    } else {
      BracketsTurnedBack(text, p, q, k - 1);
      RunBackBrackets(text, k, q);
      if !NoBracket(text[k - 1]) { StepBackUndone(RunBack(text, k, q).value.brackets, text[k - 1]); }
    }
  }

  lemma {:induction false} SameBrackets(text: string, p: nat, k: nat, k': nat)
    requires p <= k <= k' <= |text| && Run(text, p, k').Some? && forall i | k <= i < k' :: NoBracket(text[i])
    ensures Run(text, p, k).Some? && Run(text, p, k).value.brackets == Run(text, p, k').value.brackets
    decreases k' - k
  {
    if k == k' {
    } else {
      SameBrackets(text, p, k, k' - 1);
    }
  }

  lemma {:induction false} SameBracketsBack(text: string, k: nat, k': nat, q: nat)
    requires k <= k' <= q + 1 <= |text| && RunBack(text, k, q).Some? && forall i | k <= i < k' :: NoBracket(text[i])
    ensures RunBack(text, k', q).Some? && RunBack(text, k', q).value.brackets == RunBack(text, k, q).value.brackets
    decreases k' - k
  {
    if k == k' {
    } else {
      SameBracketsBack(text, k + 1, k', q);
    }
  }

  lemma {:induction false} RunReversed(text: string, p: nat, q: nat, k: nat)
    requires Matches(text, p, q) && p <= k <= q + 1
    ensures Run(text, p, k).Some?
    ensures RunBack(text, k, q) == Some(Turned(Run(text, p, k).value))
    decreases q + 1 - k
  {
    TurnedOutside();
    if k == q + 1 {
    } else {
      RunReversed(text, p, q, k + 1);
      assert k > p ==> Inside(text, p, k);
      RunBrackets(text, p, k);
      LevelUndone(Run(text, p, k).value, text[k]);
    }
  }

  lemma {:induction false} RunBackReversed(text: string, p: nat, q: nat, k: nat)
    requires MatchesBack(text, p, q) && p <= k <= q + 1
    ensures RunBack(text, k, q).Some?
    ensures Run(text, p, k) == Some(Turned(RunBack(text, k, q).value))
    decreases k - p
  {
    TurnedOutside();
    if k == p {
    } else {
      RunBackReversed(text, p, q, k - 1);
      assert k <= q ==> InsideBack(text, k, q);
      RunBackBrackets(text, k, q);
      LevelBackUndone(RunBack(text, k, q).value, text[k - 1]);
    }
  }

  // Matching angles does not depend on the direction of reading either.
  lemma DirectionIrrelevant(text: string, p: nat, q: nat)
    ensures Matches(text, p, q) <==> MatchesBack(text, p, q)
  {
    TurnedOutside();
    if Matches(text, p, q) {
      forall k | p <= k <= q + 1
        ensures Run(text, p, k).Some? && RunBack(text, k, q) == Some(Turned(Run(text, p, k).value))
      {
        RunReversed(text, p, q, k);
      }
      assert forall k | p < k <= q :: Inside(text, p, k) ==> InsideBack(text, k, q);
    }
    if MatchesBack(text, p, q) {
      forall k | p <= k <= q + 1
        ensures RunBack(text, k, q).Some? && Run(text, p, k) == Some(Turned(RunBack(text, k, q).value))
      {
        RunBackReversed(text, p, q, k);
      }
      assert forall k | p < k <= q :: InsideBack(text, k, q) ==> Inside(text, p, k);
    }
  }
}
