/** The converse of HttpRequests.ParsesText: whatever HttpContext completes on is
    a request text, so the parser accepts exactly those. */
module HttpRequestLanguage {
  import opened HttpText
  import opened HttpRequests

  predicate Completes(msg: string, i: nat, p: Parser) {
    Drive(msg, i, p).phase == Complete
  }

  // The byte that takes a parser on its way to completion out of its state.
  lemma {:induction false} Leaves(msg: string, i: nat, p: Parser) returns (j: nat)
    requires !Done(p.phase) && Completes(msg, i, p)
    ensures i <= j <= |msg| && (forall k | i <= k < j :: Step(msg, k, p) == p) && Step(msg, j, p) != p
    ensures Completes(msg, j + 1, Step(msg, j, p)) && Step(msg, j, p).phase !in {Invalid, Thrown}
    decreases |msg| + 1 - i
  {
    hide Step;
    if i > |msg| {
      assert false;
    } else if Step(msg, i, p) == p {
      j := Leaves(msg, i + 1, p);
    } else {
      j := i;
    }
  }

  lemma LeavesAtOnce(msg: string, i: nat, p: Parser)
    requires !Done(p.phase) && Completes(msg, i, p) && Step(msg, i, p) != p
    ensures i <= |msg| && Completes(msg, i + 1, Step(msg, i, p)) && Step(msg, i, p).phase !in {Invalid, Thrown}
  {
    hide Step, Completes;
    var a := Leaves(msg, i, p);
    assert a > i ==> Step(msg, i, p) == p;
  }

  /// The request line

  lemma MethodFound(msg: string, r: Request) returns (m: string, gap: char)
    requires Completes(msg, 0, Parser(Start, 0, 0, r))
    ensures Capitals(m) && Gap(gap) && At(msg, 0, m) && At(msg, |m|, [gap])
  {
    hide Drive, At, Slice, Lead, Completes;
    var p, q := Parser(Start, 0, 0, r), Parser(Method, 0, 0, r);
    var a := Leaves(msg, 0, p);
    var b := Leaves(msg, a + 1, q);
    m, gap := msg[..b], msg[b];
    assert forall k | 0 <= k < a :: Step(msg, k, p) == p && m[k] == CharAt(msg, k);
    assert forall k | a < k < b :: Step(msg, k, q) == q && m[k] == CharAt(msg, k);
    LeadIs(m, a);
    AtSlice(msg, 0, b);
    AtByte(msg, b);
  }

  lemma UrlFound(msg: string, i: nat, c: nat, r: Request) returns (url: string, end: char)
    requires i <= |msg| && Completes(msg, i, Parser(InUrl, i, c, r))
    ensures GoodUrl(url) && (end == '?' || Gap(end)) && At(msg, i, url) && At(msg, i + |url|, [end])
  {
    hide Drive, At, Slice, Completes;
    var p := Parser(InUrl, i, c, r);
    var b := Leaves(msg, i, p);
    url, end := msg[i..b], msg[b];
    forall x | 0 <= x < |url| ensures url[x] != '?' && !Gap(url[x]) {
      assert Step(msg, i + x, p) == p && url[x] == CharAt(msg, i + x);
    }
    AtSlice(msg, i, b);
    AtByte(msg, b);
  }

  lemma ParamKeyFound(msg: string, i: nat, c: nat, r: Request) returns (k: string)
    requires Completes(msg, i, Parser(BeforeParamKey, i, c, r))
    ensures GoodParamPart(k, '=') && At(msg, i, k) && At(msg, i + |k|, "=")
  {
    hide Drive, At, Slice, Completes;
    var p, q := Parser(BeforeParamKey, i, c, r), Parser(ParamKey, i, c, r);
    LeavesAtOnce(msg, i, p);
    var b := Leaves(msg, i + 1, q);
    k := msg[i..b];
    assert k[0] == CharAt(msg, i);
    forall x | 1 <= x < |k| ensures k[x] != '=' && !Gap(k[x]) {
      assert Step(msg, i + x, q) == q && k[x] == CharAt(msg, i + x);
    }
    AtSlice(msg, i, b);
    AtByte(msg, b);
  }

  lemma ParamValueFound(msg: string, i: nat, colon: nat, r: Request) returns (v: string, end: char)
    requires Completes(msg, colon + 1, Parser(BeforeParamValue, i, colon, r))
    ensures GoodParamPart(v, '&') && (end == '&' || Gap(end)) && At(msg, colon + 1, v) && At(msg, colon + 1 + |v|, [end])
  {
    hide Drive, At, Slice, Completes;
    var p, q := Parser(BeforeParamValue, i, colon, r), Parser(ParamValue, i, colon, r);
    LeavesAtOnce(msg, colon + 1, p);
    var b := Leaves(msg, colon + 2, q);
    v, end := msg[colon + 1..b], msg[b];
    assert v[0] == CharAt(msg, colon + 1);
    forall x | 1 <= x < |v| ensures v[x] != '&' && !Gap(v[x]) {
      assert Step(msg, colon + 1 + x, q) == q && v[x] == CharAt(msg, colon + 1 + x);
    }
    AtSlice(msg, colon + 1, b);
    AtByte(msg, b);
  }

  lemma {:induction false} ParamsFound(msg: string, i: nat, c: nat, r: Request) returns (ps: Headers, gap: char)
    requires i <= |msg| && Completes(msg, i, Parser(BeforeParamKey, i, c, r))
    ensures ps != [] && GoodParams(ps) && Gap(gap) && At(msg, i, ParamsText(ps, gap))
    decreases |msg| - i
  {
    hide Drive, At, Step, GoodParamPart;
    var k := ParamKeyFound(msg, i, c, r);
    ParsesParamKey(msg, i, c, r, k);
    var colon := i + |k|;
    var v, end := ParamValueFound(msg, i, colon, r);
    AtJoins(msg, colon, "=", v);
    AtJoins(msg, i, k, "=" + v);
    ParsesParam(msg, i, c, r, k, v, end);
    var n := i + |ParamText(k, v)|;
    Slices(msg, n, [end]);
    if end == '&' {
      var rest;
      rest, gap := ParamsFound(msg, n + 1, colon, r.(params := r.params[k := v]));
      ps := [(k, v)] + rest;
      assert ps[1..] == rest;
      AtJoins(msg, n, "&", ParamsText(rest, gap));
      AtJoins(msg, i, ParamText(k, v), "&" + ParamsText(rest, gap));
    } else {
      ps, gap := [(k, v)], end;
      AtJoins(msg, i, ParamText(k, v), [end]);
    }
  }

  lemma TargetFound(msg: string, i: nat, c: nat, r: Request) returns (url: string, ps: Headers, gap: char)
    requires i <= |msg| && Completes(msg, i, Parser(InUrl, i, c, r))
    ensures GoodUrl(url) && GoodParams(ps) && Gap(gap) && At(msg, i, TargetText(url, ps, gap))
  {
    hide Drive, At, Step, GoodUrl, GoodParamPart;
    var end;
    url, end := UrlFound(msg, i, c, r);
    ParsesUrl(msg, i, c, r, url, end);
    var n := i + |url|;
    Slices(msg, n, [end]);
    if end == '?' {
      ps, gap := ParamsFound(msg, n + 1, c, r.(url := url));
      AtJoins(msg, n, "?", ParamsText(ps, gap));
      AtJoins(msg, i, url, "?" + ParamsText(ps, gap));
    } else {
      ps, gap := [], end;
      AtJoins(msg, i, url, [end]);
    }
  }

  lemma ProtocolFound(msg: string, i: nat, c: nat, r: Request) returns (s: string)
    requires i <= |msg| && Completes(msg, i, Parser(BeforeProtocol, i, c, r))
    ensures GoodProtocol(s) && At(msg, i, s) && At(msg, i + |s|, "/")
  {
    hide Drive, At, Slice, Blanks, Completes;
    var p, q := Parser(BeforeProtocol, i, c, r), Parser(Protocol, i, c, r);
    var a := Leaves(msg, i, p);
    var b := Leaves(msg, a + 1, q);
    s := msg[i..b];
    forall x | 0 <= x < a - i ensures Gap(s[x]) { assert Step(msg, i + x, p) == p && s[x] == CharAt(msg, i + x); }
    forall x | a - i < x < |s| ensures s[x] != '/' { assert Step(msg, i + x, q) == q && s[x] == CharAt(msg, i + x); }
    assert s[a - i] == CharAt(msg, a);
    BlanksIs(s, a - i);
    AtSlice(msg, i, b);
    AtByte(msg, b);
  }

  lemma LineEndFound(msg: string, e: nat, c: nat, r: Request)
    requires e < |msg| && msg[e] == CR && Completes(msg, e + 1, Parser(WhenCr, e + 1, c, r))
    ensures At(msg, e, CRLF)
  {
    hide Drive, Completes;
    var p := Parser(WhenCr, e + 1, c, r);
    LeavesAtOnce(msg, e + 1, p);
  }

  lemma VersionFound(msg: string, i: nat, c: nat, r: Request) returns (s: string)
    requires i <= |msg| && Completes(msg, i, Parser(BeforeVersion, i, c, r))
    ensures GoodVersion(s) && At(msg, i, s + CRLF)
  {
    hide Drive, At, Slice, Completes;
    var p, q := Parser(BeforeVersion, i, c, r), Parser(Version, i, c, r);
    LeavesAtOnce(msg, i, p);
    var b := Leaves(msg, i + 1, q);
    s := msg[i..b];
    assert s[0] == CharAt(msg, i);
    forall x | 1 <= x < |s| ensures IsDigit(s[x]) || s[x] == '.' {
      assert Step(msg, i + x, q) == q && s[x] == CharAt(msg, i + x);
    }
    AtSlice(msg, i, b);
    LineEndFound(msg, b, c, r.(version := Slice(msg, i, b)));
    AtJoins(msg, i, s, CRLF);
  }

  lemma LineFound(msg: string, r: Request) returns (t: Raw)
    requires Completes(msg, 0, Parser(Start, 0, 0, r))
    ensures GoodLine(t) && At(msg, 0, Line(t))
  {
    hide Drive, At, Step, Capitals, GoodUrl, GoodParams, GoodProtocol, GoodVersion, Gap, TargetText;
    var m, gap := MethodFound(msg, r);
    ParsesMethod(msg, r, m, gap);
    var r1, n := r.(method_ := m), |m| + 1;
    Slices(msg, |m|, [gap]);
    var url, ps, gap' := TargetFound(msg, n, 0, r1);
    var target := TargetText(url, ps, gap');
    var c := ParsesTarget(msg, n, 0, r1, url, ps, gap');
    var r2, n2 := r1.(url := url, params := LastWins(r1.params, ps)), n + |target|;
    Slices(msg, n, target);
    var protocol := ProtocolFound(msg, n2, c, r2);
    ParsesProtocol(msg, n2, c, r2, protocol);
    var n3 := n2 + |protocol|;
    Slices(msg, n3, "/");
    var version := VersionFound(msg, n3 + 1, c, r2.(protocol := protocol));
    t := Raw(m, gap, url, ps, gap', protocol, version, [], "");
    var tail := version + CRLF;
    AtJoins(msg, n3, "/", tail);
    AtJoins(msg, n2, protocol, "/" + tail);
    AtJoins(msg, n, target, protocol + ("/" + tail));
    AtJoins(msg, |m|, [gap], target + (protocol + ("/" + tail)));
    AtJoins(msg, 0, m, [gap] + (target + (protocol + ("/" + tail))));
  }

  /// The headers and the blank line

  lemma KeyFound(msg: string, i: nat, c: nat, r: Request) returns (k: string)
    requires Completes(msg, i, Parser(CrLf, i, c, r)) && CharAt(msg, i) != CR
    ensures GoodKey(k) && At(msg, i, k) && At(msg, i + |k|, ":")
  {
    hide Drive, At, Slice, Completes;
    var p, q := Parser(CrLf, i, c, r), Parser(HeaderKey, i, c, r);
    LeavesAtOnce(msg, i, p);
    var b := Leaves(msg, i + 1, q);
    k := msg[i..b];
    assert k[0] == CharAt(msg, i);
    forall x | 1 <= x < |k| ensures k[x] != ':' { assert Step(msg, i + x, q) == q && k[x] == CharAt(msg, i + x); }
    AtSlice(msg, i, b);
    AtByte(msg, b);
  }

  lemma ValueFound(msg: string, i: nat, colon: nat, r: Request) returns (raw: string)
    requires Completes(msg, colon + 1, Parser(HeaderValue, i, colon, r))
    ensures raw != "" && GoodValue(raw) && At(msg, colon + 1, raw) && At(msg, colon + 1 + |raw|, CRLF)
  {
    hide Drive, At, Slice, Completes;
    var q := Parser(HeaderValue, i, colon, r);
    var b := Leaves(msg, colon + 1, q);
    raw := msg[colon + 1..b];
    forall x | 0 <= x < |raw| ensures raw[x] != CR {
      assert Step(msg, colon + 1 + x, q) == q && raw[x] == CharAt(msg, colon + 1 + x);
    }
    AtSlice(msg, colon + 1, b);
    LineEndFound(msg, b, colon, Step(msg, b, q).request);
  }

  lemma BlankLineFound(msg: string, i: nat, c: nat, r: Request)
    requires i < |msg| && msg[i] == CR && Completes(msg, i, Parser(CrLf, i, c, r))
    ensures At(msg, i, CRLF)
  {
    hide Drive, Completes;
    LeavesAtOnce(msg, i, Parser(CrLf, i, c, r));
    LeavesAtOnce(msg, i + 1, Parser(CrLfCr, i, c, r));
  }

  lemma {:induction false} HeadersFound(msg: string, i: nat, c: nat, r: Request) returns (hs: Headers)
    requires i <= |msg| && Completes(msg, i, Parser(CrLf, i, c, r))
    ensures GoodRaw(hs) && At(msg, i, RawLines(hs)) && At(msg, i + |RawLines(hs)|, CRLF)
    decreases |msg| - i
  {
    hide Drive, At, Step, GoodKey, GoodValue, RawLine;
    if CharAt(msg, i) == CR {
      hs := [];
      BlankLineFound(msg, i, c, r);
      AtSlice(msg, i, i);
    } else {
      var k := KeyFound(msg, i, c, r);
      ParsesKey(msg, i, c, r, k);
      var colon := i + |k|;
      var raw := ValueFound(msg, i, colon, r);
      LineJoined(msg, i, k, raw);
      var n := i + |RawLine(k, raw)|;
      ParsesHeader(msg, i, c, r, k, raw, n);
      Slices(msg, i, RawLine(k, raw));
      var rest := HeadersFound(msg, n, colon, r.(headers := r.headers[k := raw[1..]]));
      hs := [(k, raw)] + rest;
      assert hs[1..] == rest;
      AtJoins(msg, i, RawLine(k, raw), RawLines(rest));
    }
  }

  lemma TextFound(msg: string, before: Request) returns (t: Raw)
    requires Completes(msg, 0, Parser(Start, 0, 0, before))
    ensures Good(t) && RawText(t) == msg
  {
    hide Drive, At, Step, GoodLine, GoodRaw, Line, RawLines;
    t := LineFound(msg, before);
    var line := Line(t);
    var c := ParsesRequestLine(msg, before, t);
    Slices(msg, 0, line);
    var hs := HeadersFound(msg, |line|, c, Request(t.method_, t.url, LastWins(before.params, t.params), t.protocol, t.version,
                                                   before.headers, before.body));
    var n := |line| + |RawLines(hs)|;
    Slices(msg, n, CRLF);
    var rest := msg[n + 2..];
    AtSlice(msg, n + 2, |msg|);
    SameLine(t, hs, rest);
    t := t.(headers := hs, rest := rest);
    AtJoins(msg, n, CRLF, rest);
    AtJoins(msg, |line|, RawLines(hs), CRLF + rest);
    AtJoins(msg, 0, line, RawLines(hs) + (CRLF + rest));
    WholeText(msg, RawText(t));
  }

  lemma SameLine(t: Raw, hs: Headers, rest: string)
    ensures Line(t.(headers := hs, rest := rest)) == Line(t) && (GoodLine(t.(headers := hs, rest := rest)) <==> GoodLine(t))
  {
  }

  // The parser completes on exactly the request texts, with what they mean.
  lemma AcceptsExactly(msg: string, before: Request, after: Request)
    ensures var p := Drive(msg, 0, Parser(Start, 0, 0, before));
      p.phase == Complete && p.request == after <==> exists t :: Good(t) && RawText(t) == msg && Meaning(before, t) == after
  {
    hide Drive, Good, RawText, Meaning;
    var p := Drive(msg, 0, Parser(Start, 0, 0, before));
    if p.phase == Complete {
      var t := TextFound(msg, before);
      ParsesText(before, t);
    }
    forall t | Good(t) && RawText(t) == msg ensures p.phase == Complete && p.request == Meaning(before, t) {
      ParsesText(before, t);
    }
  }
}
