/** The converse of HttpResponses.ParsesText: whatever HttpResponseContext
    completes on is a response text, so the parser accepts exactly those. */
module HttpResponseLanguage {
  import opened HttpText
  import opened HttpResponses

  predicate Completes(msg: string, i: nat, p: Parser) {
    Drive(msg, i, p).phase == Complete
  }

  // The byte that takes a parser on its way to completion out of its state.
  lemma {:induction false} Leaves(msg: string, i: nat, p: Parser) returns (j: nat)
    requires !Done(p.phase) && Completes(msg, i, p)
    ensures i <= j <= |msg| && (forall k | i <= k < j :: Step(msg, k, p) == p) && Step(msg, j, p) != p
    ensures Completes(msg, j + 1, Step(msg, j, p)) && Step(msg, j, p).phase !in {Invalid, Thrown}
    decreases |msg| + 1 - i
  {
    hide Step;
    if i > |msg| {
      assert false;
    } else if Step(msg, i, p) == p {
      j := Leaves(msg, i + 1, p);
    } else {
      j := i;
    }
  }

  lemma LeavesAtOnce(msg: string, i: nat, p: Parser)
    requires !Done(p.phase) && Completes(msg, i, p) && Step(msg, i, p) != p
    ensures i <= |msg| && Completes(msg, i + 1, Step(msg, i, p)) && Step(msg, i, p).phase !in {Invalid, Thrown}
  {
    hide Step, Completes;
    var a := Leaves(msg, i, p);
    assert a > i ==> Step(msg, i, p) == p;
  }

  /// The status line

  lemma ProtocolFound(msg: string, r: Response) returns (s: string)
    requires Completes(msg, 0, Parser(Start, 0, 0, r))
    ensures Capitals(s) && At(msg, 0, s) && At(msg, |s|, "/")
  {
    hide Drive, At, Slice, Lead, Completes;
    var p, q := Parser(Start, 0, 0, r), Parser(Protocol, 0, 0, r);
    var a := Leaves(msg, 0, p);
    var b := Leaves(msg, a + 1, q);
    s := msg[..b];
    assert forall k | 0 <= k < a :: Step(msg, k, p) == p && s[k] == CharAt(msg, k);
    assert forall k | a < k < b :: Step(msg, k, q) == q && s[k] == CharAt(msg, k);
    LeadIs(s, a);
    AtSlice(msg, 0, b);
    AtByte(msg, b);
  }

  lemma VersionFound(msg: string, i: nat, c: nat, r: Response) returns (s: string, gap: char)
    requires i <= |msg| && Completes(msg, i, Parser(BeforeVersion, i, c, r))
    ensures GoodVersion(s) && Gap(gap) && At(msg, i, s) && At(msg, i + |s|, [gap])
  {
    hide Drive, At, Slice, Completes;
    var p, q := Parser(BeforeVersion, i, c, r), Parser(Version, i, c, r);
    LeavesAtOnce(msg, i, p);
    var b := Leaves(msg, i + 1, q);
    s, gap := msg[i..b], msg[b];
    assert s[0] == CharAt(msg, i);
    forall x | 1 <= x < |s| ensures IsDigit(s[x]) || s[x] == '.' {
      assert Step(msg, i + x, q) == q && s[x] == CharAt(msg, i + x);
    }
    AtSlice(msg, i, b);
    AtByte(msg, b);
  }

  lemma CodeFound(msg: string, i: nat, c: nat, r: Response) returns (s: string, gap: char)
    requires i <= |msg| && Completes(msg, i, Parser(BeforeStatusCode, i, c, r))
    ensures GoodCode(s) && Gap(gap) && At(msg, i, s) && At(msg, i + |s|, [gap])
  {
    hide Drive, At, Slice, Blanks, Completes, Atoi;
    var p, q := Parser(BeforeStatusCode, i, c, r), Parser(StatusCode, i, c, r);
    var a := Leaves(msg, i, p);
    var b := Leaves(msg, a + 1, q);
    s, gap := msg[i..b], msg[b];
    forall x | 0 <= x < a - i ensures Gap(s[x]) { assert Step(msg, i + x, p) == p && s[x] == CharAt(msg, i + x); }
    assert s[a - i] == CharAt(msg, a);
    forall x | a - i < x < |s| ensures IsDigit(s[x]) { assert Step(msg, i + x, q) == q && s[x] == CharAt(msg, i + x); }
    BlanksIs(s, a - i);
    AtSlice(msg, i, b);
    AtByte(msg, b);
  }

  lemma LineEndFound(msg: string, e: nat, c: nat, r: Response)
    requires e < |msg| && msg[e] == CR && Completes(msg, e + 1, Parser(WhenCr, e + 1, c, r))
    ensures At(msg, e, CRLF)
  {
    hide Drive, Completes;
    var p := Parser(WhenCr, e + 1, c, r);
    LeavesAtOnce(msg, e + 1, p);
  }

  lemma ReasonFound(msg: string, i: nat, c: nat, r: Response) returns (s: string)
    requires i <= |msg| && Completes(msg, i, Parser(BeforeReason, i, c, r))
    ensures GoodReason(s) && At(msg, i, s + CRLF)
  {
    hide Drive, At, Slice, Blanks, Completes;
    var p, q := Parser(BeforeReason, i, c, r), Parser(Reason, i, c, r);
    var a := Leaves(msg, i, p);
    var b := Leaves(msg, a + 1, q);
    s := msg[i..b];
    forall x | 0 <= x < a - i ensures Gap(s[x]) { assert Step(msg, i + x, p) == p && s[x] == CharAt(msg, i + x); }
    assert s[a - i] == CharAt(msg, a);
    forall x | a - i < x < |s| ensures s[x] != CR { assert Step(msg, i + x, q) == q && s[x] == CharAt(msg, i + x); }
    BlanksIs(s, a - i);
    AtSlice(msg, i, b);
    LineEndFound(msg, b, c, r.(statusMessage := Slice(msg, i, b)));
    AtJoins(msg, i, s, CRLF);
  }

  lemma LineFound(msg: string, r: Response) returns (t: Raw)
    requires Completes(msg, 0, Parser(Start, 0, 0, r))
    ensures GoodLine(t) && At(msg, 0, Line(t))
  {
    hide Drive, At, Step, Capitals, GoodVersion, GoodCode, GoodReason, Gap, Atoi;
    var protocol := ProtocolFound(msg, r);
    ParsesProtocol(msg, r, protocol);
    var r1, n := r.(protocol := protocol), |protocol| + 1;
    Slices(msg, |protocol|, "/");
    var version, gap := VersionFound(msg, n, 0, r1);
    ParsesVersion(msg, n, 0, r1, version, gap);
    var r2, n2 := r1.(version := version), n + |version| + 1;
    Slices(msg, n + |version|, [gap]);
    var code, gap' := CodeFound(msg, n2, 0, r2);
    ParsesStatusCode(msg, n2, 0, r2, code, gap');
    var n3 := n2 + |code| + 1;
    Slices(msg, n2 + |code|, [gap']);
    var reason := ReasonFound(msg, n3, 0, r2.(statusCode := Atoi(code)));
    t := Raw(protocol, version, gap, code, gap', reason, [], "");
    var tail := reason + CRLF;
    var more := code + ([gap'] + tail);
    AtJoins(msg, n2 + |code|, [gap'], tail);
    AtJoins(msg, n2, code, [gap'] + tail);
    AtJoins(msg, n + |version|, [gap], more);
    AtJoins(msg, n, version, [gap] + more);
    AtJoins(msg, |protocol|, "/", version + ([gap] + more));
    AtJoins(msg, 0, protocol, "/" + (version + ([gap] + more)));
  }

  /// The headers and the blank line

  lemma KeyFound(msg: string, i: nat, c: nat, r: Response) returns (k: string)
    requires Completes(msg, i, Parser(CrLf, i, c, r)) && CharAt(msg, i) != CR
    ensures GoodKey(k) && At(msg, i, k) && At(msg, i + |k|, ":")
  {
    hide Drive, At, Slice, Completes;
    var p, q := Parser(CrLf, i, c, r), Parser(HeaderKey, i, c, r);
    LeavesAtOnce(msg, i, p);
    var b := Leaves(msg, i + 1, q);
    k := msg[i..b];
    assert k[0] == CharAt(msg, i);
    forall x | 1 <= x < |k| ensures k[x] != ':' { assert Step(msg, i + x, q) == q && k[x] == CharAt(msg, i + x); }
    AtSlice(msg, i, b);
    AtByte(msg, b);
  }

  lemma ValueFound(msg: string, i: nat, colon: nat, r: Response) returns (raw: string)
    requires Completes(msg, colon + 1, Parser(HeaderValue, i, colon, r))
    ensures raw != "" && GoodValue(raw) && At(msg, colon + 1, raw) && At(msg, colon + 1 + |raw|, CRLF)
  {
    hide Drive, At, Slice, Completes;
    var q := Parser(HeaderValue, i, colon, r);
    var b := Leaves(msg, colon + 1, q);
    raw := msg[colon + 1..b];
    forall x | 0 <= x < |raw| ensures raw[x] != CR {
      assert Step(msg, colon + 1 + x, q) == q && raw[x] == CharAt(msg, colon + 1 + x);
    }
    AtSlice(msg, colon + 1, b);
    LineEndFound(msg, b, colon, Step(msg, b, q).response);
  }

  lemma BlankLineFound(msg: string, i: nat, c: nat, r: Response)
    requires i < |msg| && msg[i] == CR && Completes(msg, i, Parser(CrLf, i, c, r))
    ensures At(msg, i, CRLF)
  {
    hide Drive, Completes;
    LeavesAtOnce(msg, i, Parser(CrLf, i, c, r));
    LeavesAtOnce(msg, i + 1, Parser(CrLfCr, i, c, r));
  }

  lemma {:induction false} HeadersFound(msg: string, i: nat, c: nat, r: Response) returns (hs: Headers)
    requires i <= |msg| && Completes(msg, i, Parser(CrLf, i, c, r))
    ensures GoodRaw(hs) && At(msg, i, RawLines(hs)) && At(msg, i + |RawLines(hs)|, CRLF)
    decreases |msg| - i
  {
    hide Drive, At, Step, GoodKey, GoodValue, RawLine;
    if CharAt(msg, i) == CR {
      hs := [];
      BlankLineFound(msg, i, c, r);
      AtSlice(msg, i, i);
    } else {
      var k := KeyFound(msg, i, c, r);
      ParsesKey(msg, i, c, r, k);
      var colon := i + |k|;
      var raw := ValueFound(msg, i, colon, r);
      LineJoined(msg, i, k, raw);
      var n := i + |RawLine(k, raw)|;
      ParsesHeader(msg, i, c, r, k, raw, n);
      Slices(msg, i, RawLine(k, raw));
      var rest := HeadersFound(msg, n, colon, r.(headers := r.headers[k := raw[1..]]));
      hs := [(k, raw)] + rest;
      assert hs[1..] == rest;
      AtJoins(msg, i, RawLine(k, raw), RawLines(rest));
    }
  }

  lemma TextFound(msg: string, before: Response) returns (t: Raw)
    requires Completes(msg, 0, Parser(Start, 0, 0, before))
    ensures Good(t) && RawText(t) == msg
  {
    hide Drive, At, Step, GoodLine, GoodRaw, Line, RawLines, Atoi;
    t := LineFound(msg, before);
    var line := Line(t);
    ParsesStatusLine(msg, before, t);
    Slices(msg, 0, line);
    var r := before.(protocol := t.protocol, version := t.version, statusCode := Atoi(t.code), statusMessage := t.reason);
    var hs := HeadersFound(msg, |line|, 0, r);
    var n := |line| + |RawLines(hs)|;
    Slices(msg, n, CRLF);
    var rest := msg[n + 2..];
    AtSlice(msg, n + 2, |msg|);
    SameLine(t, hs, rest);
    t := t.(headers := hs, rest := rest);
    AtJoins(msg, n, CRLF, rest);
    AtJoins(msg, |line|, RawLines(hs), CRLF + rest);
    AtJoins(msg, 0, line, RawLines(hs) + (CRLF + rest));
    WholeText(msg, RawText(t));
  }

  lemma SameLine(t: Raw, hs: Headers, rest: string)
    ensures Line(t.(headers := hs, rest := rest)) == Line(t) && (GoodLine(t.(headers := hs, rest := rest)) <==> GoodLine(t))
  {
  }

  // The parser completes on exactly the response texts, with what they mean.
  lemma AcceptsExactly(msg: string, before: Response, after: Response)
    ensures var p := Drive(msg, 0, Parser(Start, 0, 0, before));
      p.phase == Complete && p.response == after <==> exists t :: Good(t) && RawText(t) == msg && Meaning(before, t) == after
  {
    hide Drive, Good, RawText, Meaning;
    var p := Drive(msg, 0, Parser(Start, 0, 0, before));
    if p.phase == Complete {
      var t := TextFound(msg, before);
      ParsesText(before, t);
    }
    forall t | Good(t) && RawText(t) == msg ensures p.phase == Complete && p.response == Meaning(before, t) {
      ParsesText(before, t);
    }
  }
}
