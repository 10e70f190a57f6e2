/** The stack discipline of Brackets is the context-free grammar of properly
    nested text: a bracket closes at q exactly when what lies between is a
    sentence of the grammar and the two ends pair up. */
module BracketGrammar {
  import opened Wrappers
  import opened Brackets

  datatype Sentence =
    | Empty
    | Plain(c: char, rest: Sentence)
    | Nested(o: char, inner: Sentence, c: char, after: Sentence)

  // The terminals of the grammar.
  predicate NoBracket(c: char) {
    c !in "()[]{}"
  }

  predicate APair(o: char, c: char) {
    [o, c] == "()" || [o, c] == "[]" || [o, c] == "{}"
  }

  lemma Terminals(o: char, c: char)
    ensures NoBracket(c) <==> !IsOpen(c) && !IsClose(c)
    ensures APair(o, c) <==> Pairs(o, c)
  {
    var s := [o, c];
    assert s[0] == o && s[1] == c;
  }

  predicate WellNested(e: Sentence) {
    match e
    case Empty => true
    case Plain(c, rest) => NoBracket(c) && WellNested(rest)
    case Nested(o, inner, c, after) => APair(o, c) && WellNested(inner) && WellNested(after)
  }

  function Spelled(e: Sentence): string {
    match e
    case Empty => []
    case Plain(c, rest) => [c] + Spelled(rest)
    case Nested(o, inner, c, after) => [o] + Spelled(inner) + [c] + Spelled(after)
  }

  ghost predicate Derives(text: string, i: nat, j: nat) {
    i <= j <= |text| && exists e :: WellNested(e) && Spelled(e) == text[i..j]
  }

  // The stack is at least h deep everywhere from i to j.
  ghost predicate Deep(text: string, p: nat, i: nat, j: nat, h: nat) {
    && p <= i <= j <= |text|
    && forall k | i <= k <= j :: Run(text, p, k).Some? && |Run(text, p, k).value| >= h
  }

  lemma SliceOfSlice(text: string, i: nat, j: nat, a: nat, b: nat)
    requires i <= j <= |text| && a <= b <= j - i
    ensures text[i..j][a..b] == text[i + a..i + b]
  {
    var whole, part := text[i..j][a..b], text[i + a..i + b];
    forall k | 0 <= k < b - a
      ensures whole[k] == part[k]
    {
      assert whole[k] == text[i..j][a + k] == text[i + (a + k)];
    }
    assert whole == part;
  }

  lemma SplitNested(text: string, i: nat, m: nat, j: nat)
    requires i + 1 < m <= j <= |text|
    ensures text[i..j] == [text[i]] + text[i + 1..m - 1] + [text[m - 1]] + text[m..j]
  {
  }

  lemma DeepWithin(text: string, p: nat, i: nat, i': nat, j: nat, h: nat)
    requires Deep(text, p, i, j, h) && i <= i' <= j
    ensures Deep(text, p, i', j, h)
  {
  }

  lemma SpelledNested(text: string, i: nat, j: nat, e: Sentence) returns (m: nat)
    requires i <= j <= |text| && e.Nested? && Spelled(e) == text[i..j]
    ensures i + 1 <= m < j && text[i] == e.o && text[m] == e.c
    ensures Spelled(e.inner) == text[i + 1..m] && Spelled(e.after) == text[m + 1..j]
  {
    m := i + 1 + |Spelled(e.inner)|;
    var s := [e.o] + (Spelled(e.inner) + ([e.c] + Spelled(e.after)));
    assert Spelled(e) == s;
    assert text[i] == s[0] && text[m] == s[m - i];
    assert Spelled(e.inner) == s[1..m - i];
    SliceOfSlice(text, i, j, 1, m - i);
    assert Spelled(e.after) == s[m + 1 - i..j - i];
    SliceOfSlice(text, i, j, m + 1 - i, j - i);
  }

  lemma DeepJoins(text: string, p: nat, i: nat, m: nat, j: nat, h: nat)
    requires Deep(text, p, i, m, h) && Deep(text, p, m, j, h)
    ensures Deep(text, p, i, j, h)
  {
  }

  lemma DeepOneStep(text: string, p: nat, i: nat, h: nat)
    requires p <= i < |text| && Run(text, p, i).Some? && |Run(text, p, i).value| >= h
    requires Run(text, p, i + 1).Some? && |Run(text, p, i + 1).value| >= h
    ensures Deep(text, p, i, i + 1, h)
  {
  }

  lemma {:induction false} SentenceKeepsStack(text: string, p: nat, i: nat, j: nat, e: Sentence)
    requires p <= i <= j <= |text| && WellNested(e) && Spelled(e) == text[i..j]
    requires Run(text, p, i).Some?
    ensures Run(text, p, j) == Run(text, p, i)
    ensures Deep(text, p, i, j, |Run(text, p, i).value|)
    decreases e, 1
  {
    hide NoBracket, APair;
    var s := Run(text, p, i).value;
    match e {
      case Empty =>
      case Plain(c, rest) =>
        Terminals(c, c);
        assert text[i] == Spelled(e)[0];
        assert Spelled(rest) == text[i + 1..j] by { assert Spelled(e)[1..] == Spelled(rest); }
        SentenceKeepsStack(text, p, i + 1, j, rest);
        DeepOneStep(text, p, i, |s|);
        DeepJoins(text, p, i, i + 1, j, |s|);
      case Nested(o, inner, c, after) =>
        var m := SpelledNested(text, i, j, e);
        NestedKeepsStack(text, p, i, m, j, e, s);
    }
  }

  lemma {:induction false} NestedKeepsStack(text: string, p: nat, i: nat, m: nat, j: nat, e: Sentence, s: seq<char>)
    requires p <= i < m < j <= |text| && e.Nested? && WellNested(e) && text[i] == e.o && text[m] == e.c
    requires Spelled(e.inner) == text[i + 1..m] && Spelled(e.after) == text[m + 1..j]
    requires Run(text, p, i) == Some(s)
    ensures Run(text, p, j) == Some(s) && Deep(text, p, i, j, |s|)
    decreases e, 0
  {
    hide Spelled, NoBracket, APair;
    Terminals(e.o, e.c);
    assert Run(text, p, i + 1) == Some(s + [e.o]);
    SentenceKeepsStack(text, p, i + 1, m, e.inner);
    assert (s + [e.o])[..|s|] == s;
    assert Run(text, p, m + 1) == Step(s + [e.o], e.c) == Some(s);
    SentenceKeepsStack(text, p, m + 1, j, e.after);
    DeepOneStep(text, p, i, |s|);
    assert Deep(text, p, i + 1, m, |s|);
    DeepOneStep(text, p, m, |s|);
    hide *;
    DeepJoins(text, p, i, i + 1, m, |s|);
    DeepJoins(text, p, i, m, m + 1, |s|);
    DeepJoins(text, p, i, m + 1, j, |s|);
  }

  lemma {:induction false} DeepKeepsPrefix(text: string, p: nat, i: nat, j: nat, h: nat)
    requires Deep(text, p, i, j, h)
    ensures Run(text, p, j).value[..h] == Run(text, p, i).value[..h]
    decreases j - i
  {
    if i == j {
    } else {
      DeepKeepsPrefix(text, p, i, j - 1, h);
    }
  }

  // The first place where the stack is back to depth h.
  lemma {:induction false} FirstReturn(text: string, p: nat, i: nat, j: nat, h: nat) returns (m: nat)
    requires Deep(text, p, i, j, h) && |Run(text, p, i).value| > h && |Run(text, p, j).value| == h
    ensures i < m <= j && |Run(text, p, m).value| == h && Deep(text, p, i, m - 1, h + 1)
    decreases j - i
  {
    if |Run(text, p, i + 1).value| == h {
      m := i + 1;
    } else {
      m := FirstReturn(text, p, i + 1, j, h);
    }
  }

  // A bracket opened at i on stack s is closed just before the stack is s again.
  lemma OpenedAndClosed(text: string, p: nat, i: nat, j: nat, s: seq<char>) returns (m: nat)
    requires p <= i < j <= |text| && IsOpen(text[i])
    requires Run(text, p, i) == Some(s) && Run(text, p, j) == Some(s) && Deep(text, p, i, j, |s|)
    ensures i + 1 < m <= j && Pairs(text[i], text[m - 1])
    ensures Run(text, p, i + 1) == Some(s + [text[i]]) == Run(text, p, m - 1)
    ensures Run(text, p, m) == Some(s)
    ensures Deep(text, p, i + 1, m - 1, |s| + 1)
  {
    var pushed := s + [text[i]];
    assert Run(text, p, i + 1) == Some(pushed);
    m := FirstReturn(text, p, i + 1, j, |s|);
    var before := Run(text, p, m - 1).value;
    DeepKeepsPrefix(text, p, i + 1, m - 1, |s| + 1);
    assert Run(text, p, m) == Step(before, text[m - 1]);
    assert |before| == |s| + 1;
    assert before == before[..|s| + 1] == pushed[..|s| + 1] == pushed;
    assert pushed[..|s|] == s;
  }

  lemma {:induction false} StackGivesSentence(text: string, p: nat, i: nat, j: nat) returns (e: Sentence)
    requires p <= i <= j <= |text| && Run(text, p, i).Some? && Run(text, p, j) == Run(text, p, i)
    requires Deep(text, p, i, j, |Run(text, p, i).value|)
    ensures WellNested(e) && Spelled(e) == text[i..j]
    decreases j - i
  {
    hide Pairs, IsOpen, IsClose, NoBracket, APair;
    if i == j {
      return Empty;
    }
    var s, c := Run(text, p, i).value, text[i];
    Terminals(c, c);
    if IsOpen(c) {
      var m := OpenedAndClosed(text, p, i, j, s);
      DeepWithin(text, p, i, m, j, |s|);
      var inner := StackGivesSentence(text, p, i + 1, m - 1);
      var after := StackGivesSentence(text, p, m, j);
      SplitNested(text, i, m, j);
      Terminals(c, text[m - 1]);
      return Nested(c, inner, text[m - 1], after);
    }
    DeepWithin(text, p, i, i + 1, j, |s|);
    assert Run(text, p, i + 1) == Step(s, c);
    var rest := StackGivesSentence(text, p, i + 1, j);
    assert text[i..j] == [c] + text[i + 1..j];
    return Plain(c, rest);
  }

  lemma MatchGivesSentence(text: string, p: nat, q: nat)
    requires Matches(text, p, q)
    ensures Pairs(text[p], text[q]) && Derives(text, p + 1, q)
  {
    var o := [text[p]];
    FirstStep(text, p);
    forall k | p + 1 <= k <= q
      ensures Run(text, p, k).Some? && |Run(text, p, k).value| >= 1
    {
      assert Inside(text, p, k);
    }
    DeepKeepsPrefix(text, p, p + 1, q, 1);
    var s := Run(text, p, q).value;
    assert Step(s, text[q]) == Some([]);
    assert s == s[..1] && o[..1] == o;
    var e := StackGivesSentence(text, p, p + 1, q);
  }

  lemma FirstStep(text: string, p: nat)
    requires p < |text| && IsOpen(text[p])
    ensures Run(text, p, p + 1) == Some([text[p]])
  {
    assert [] + [text[p]] == [text[p]];
    assert Run(text, p, p) == Some([]);
  }

  lemma SentenceGivesMatch(text: string, p: nat, q: nat)
    requires p < q < |text| && Pairs(text[p], text[q]) && Derives(text, p + 1, q)
    ensures Matches(text, p, q)
  {
    var e :| WellNested(e) && Spelled(e) == text[p + 1..q];
    FirstStep(text, p);
    SentenceKeepsStack(text, p, p + 1, q, e);
    forall k | p < k <= q
      ensures Inside(text, p, k)
    {
    }
    assert Step([text[p]], text[q]) == Some([]);
  }

  lemma MatchesIsNesting(text: string, p: nat, q: nat)
    ensures Matches(text, p, q) <==>
            p < q < |text| && APair(text[p], text[q]) && Derives(text, p + 1, q)
  {
    if p < q < |text| { Terminals(text[p], text[q]); }
    if Matches(text, p, q) { MatchGivesSentence(text, p, q); }
    if p < q < |text| && Pairs(text[p], text[q]) && Derives(text, p + 1, q) { SentenceGivesMatch(text, p, q); }
  }
}
