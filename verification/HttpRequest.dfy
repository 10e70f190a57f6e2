/** src/Http/HttpContext.cpp parses a request into src/Http/HttpRequest.cpp.
    The text format is that of sections 3 to 6 of RFC 9112. */
module HttpRequests {
  import opened HttpText

  datatype Request = Request(
    method_: string, url: string, params: map<string, string>,
    protocol: string, version: string, headers: map<string, string>, body: string)

  const NOTHING := Request("", "", map[], "", "", map[], "")

  // The header as the source spells it.
  const CONTENT_LENGHT := "Content-Lenght"

  datatype Phase =
    | Invalid | Start | Method | InUrl | BeforeParamKey | ParamKey | BeforeParamValue | ParamValue
    | BeforeProtocol | Protocol | BeforeVersion | Version
    | HeaderKey | HeaderValue | WhenCr | CrLf | CrLfCr | Body | Complete | Thrown

  predicate Done(p: Phase) { p.Invalid? || p.Complete? || p.Thrown? }

  datatype Parser = Parser(phase: Phase, start: nat, colon: nat, request: Request)

  // Whether the parser goes on to read a body.
  predicate ReadsBody(headers: map<string, string>) {
    CONTENT_LENGHT in headers ==> Atoi(headers[CONTENT_LENGHT]) > 0
  }

  function Step(msg: string, i: nat, p: Parser): Parser {
    var ch := CharAt(msg, i);
    var r := p.request;
    match p.phase
    case Start =>
      if ch == CR || ch == LF || IsBlank(ch) then p
      else p.(phase := if IsUpper(ch) then Method else Invalid)
    case Method =>
      if IsUpper(ch) then p
      else if IsBlank(ch) then Parser(InUrl, i + 1, p.colon, r.(method_ := Slice(msg, p.start, i)))
      else p.(phase := Invalid)
    case InUrl =>
      if ch == '?' then Parser(BeforeParamKey, i + 1, p.colon, r.(url := Slice(msg, p.start, i)))
      else if IsBlank(ch) then Parser(BeforeProtocol, i + 1, p.colon, r.(url := Slice(msg, p.start, i)))
      else p
    case BeforeParamKey =>
      p.(phase := if IsBlank(ch) || ch == CR || ch == LF then Invalid else ParamKey)
    case ParamKey =>
      if ch == '=' then Parser(BeforeParamValue, p.start, i, r)
      else if IsBlank(ch) then p.(phase := Invalid) else p
    case BeforeParamValue =>
      p.(phase := if IsBlank(ch) || ch == LF || ch == CR then Invalid else ParamValue)
    case ParamValue =>
      if ch == '&' || IsBlank(ch) then
        Parser(if ch == '&' then BeforeParamKey else BeforeProtocol, i + 1, p.colon,
               r.(params := r.params[Slice(msg, p.start, p.colon) := Slice(msg, p.colon + 1, i)]))
      else p
    case BeforeProtocol => if IsBlank(ch) then p else p.(phase := Protocol)
    case Protocol =>
      if ch == '/' then Parser(BeforeVersion, i + 1, p.colon, r.(protocol := Slice(msg, p.start, i))) else p
    case BeforeVersion => p.(phase := if IsDigit(ch) then Version else Invalid)
    case Version =>
      if ch == CR then Parser(WhenCr, i + 1, p.colon, r.(version := Slice(msg, p.start, i)))
      else if IsDigit(ch) || ch == '.' then p else p.(phase := Invalid)
    case HeaderKey => if ch == ':' then Parser(HeaderValue, p.start, i, r) else p
    case HeaderValue =>
      if ch != CR then p
      else if p.colon + 2 > i then p.(phase := Thrown)
      else Parser(WhenCr, i + 1, p.colon,
                  r.(headers := r.headers[Slice(msg, p.start, p.colon) := Slice(msg, p.colon + 2, i)]))
    case WhenCr => if ch == LF then Parser(CrLf, i + 1, p.colon, r) else p.(phase := Invalid)
    case CrLf => p.(phase := if ch == CR then CrLfCr else if IsBlank(ch) then Invalid else HeaderKey)
    case CrLfCr =>
      if ch == LF then
        var body := if CONTENT_LENGHT in r.headers then ReadsBody(r.headers) else i < |msg|;
        Parser(if body then Body else Complete, i + 1, p.colon, r)
      else p.(phase := Invalid)
    case Body => p.(phase := Complete, request := r.(body := Slice(msg, p.start, p.start + Rest(msg, i))))
    case Invalid => p
    case Complete => p
    case Thrown => p
  }

  function Drive(msg: string, i: nat, p: Parser): Parser
    decreases |msg| + 1 - i
  {
    if Done(p.phase) || i > |msg| then p else Drive(msg, i + 1, Step(msg, i, p))
  }

  class HttpRequest {
    var method_: string
    var url: string
    var params: map<string, string>
    var protocol: string
    var version: string
    var headers: map<string, string>
    var body: string

    constructor ()
      ensures View() == NOTHING
    {
      method_, url, params, protocol, version, headers, body := "", "", map[], "", "", map[], "";
    }

    function View(): Request
      reads this
    {
      Request(method_, url, params, protocol, version, headers, body)
    }

    method SetRequestParams(key: string, value: string)
      modifies this`params
      ensures params == old(params)[key := value]
    {
      params := params[key := value];
    }

    method AddHeader(field: string, value: string)
      modifies this`headers
      ensures headers == old(headers)[field := value]
    {
      headers := headers[field := value];
    }
  }

  class HttpContext {
    var state: Phase
    const request: HttpRequest

    constructor ()
      ensures state == Start && fresh(request) && request.View() == NOTHING
    {
      state := Start;
      request := new HttpRequest();
    }

    // Only the state is reset: the request keeps its old maps.
    method ResetContextStatus()
      modifies this
      ensures state == Start
    {
      state := Start;
    }

    method ParaseRequest(msg: string) returns (complete: bool)
      modifies this, request
      ensures var p := Drive(msg, 0, Parser(old(state), 0, 0, old(request.View())));
        state == p.phase && request.View() == p.request && (complete <==> p.phase == Complete)
    {
      var start, end, colon := 0, 0, 0;
      while !Done(state) && end <= |msg|
        invariant Drive(msg, end, Parser(state, start, colon, request.View())) ==
                  Drive(msg, 0, Parser(old(state), 0, 0, old(request.View())))
        decreases |msg| + 1 - end
      {
        start, colon := ReadByte(msg, start, end, colon);
        end := end + 1;
      }
      return state == Complete;
    }

    // The switch in the loop.
    method ReadByte(msg: string, start0: nat, end: nat, colon0: nat) returns (start: nat, colon: nat)
      requires !Done(state) && end <= |msg|
      modifies this, request
      ensures Parser(state, start, colon, request.View()) ==
              Step(msg, end, Parser(old(state), start0, colon0, old(request.View())))
    {
      hide Atoi, Slice;
      start, colon := start0, colon0;
      var ch := CharAt(msg, end);
      match state {
        case Start =>
          if ch == CR || ch == LF || IsBlank(ch) {
          } else if IsUpper(ch) {
            state := Method;
          } else {
            state := Invalid;
          }
        case Method =>
          if IsUpper(ch) {
          } else if IsBlank(ch) {
            request.method_ := Slice(msg, start, end);
            state := InUrl;
            start := end + 1;
          } else {
            state := Invalid;
          }
        case InUrl =>
          if ch == '?' {
            request.url := Slice(msg, start, end);
            start := end + 1;
            state := BeforeParamKey;
          } else if IsBlank(ch) {
            request.url := Slice(msg, start, end);
            start := end + 1;
            state := BeforeProtocol;
          }
        case BeforeParamKey =>
          state := if IsBlank(ch) || ch == CR || ch == LF then Invalid else ParamKey;
        case ParamKey =>
          if ch == '=' {
            colon := end;
            state := BeforeParamValue;
          } else if IsBlank(ch) {
            state := Invalid;
          }
        case BeforeParamValue =>
          state := if IsBlank(ch) || ch == LF || ch == CR then Invalid else ParamValue;
        case ParamValue =>
          if ch == '&' {
            state := BeforeParamKey;
            request.SetRequestParams(Slice(msg, start, colon), Slice(msg, colon + 1, end));
            start := end + 1;
          }
          if IsBlank(ch) {
            request.SetRequestParams(Slice(msg, start, colon), Slice(msg, colon + 1, end));
            start := end + 1;
            state := BeforeProtocol;
          }
        case BeforeProtocol =>
          if IsBlank(ch) {
          } else {
            state := Protocol;
          }
        case Protocol =>
          if ch == '/' {
            request.protocol := Slice(msg, start, end);
            start := end + 1;
            state := BeforeVersion;
          }
        case BeforeVersion =>
          state := if IsDigit(ch) then Version else Invalid;
        case Version =>
          if ch == CR {
            request.version := Slice(msg, start, end);
            start := end + 1;
            state := WhenCr;
          } else if IsDigit(ch) || ch == '.' {
          } else {
            state := Invalid;
          }
        case HeaderKey =>
          if ch == ':' {
            colon := end;
            state := HeaderValue;
          }
        case HeaderValue =>
          if IsBlank(ch) {
          } else if ch == CR {
            if colon + 2 > end {
              state := Thrown;
            } else {
              request.AddHeader(Slice(msg, start, colon), Slice(msg, colon + 2, end));
              start := end + 1;
              state := WhenCr;
            }
          }
        case WhenCr =>
          if ch == LF {
            start := end + 1;
            state := CrLf;
          } else {
            state := Invalid;
          }
        case CrLf =>
          if ch == CR {
            state := CrLfCr;
          } else if IsBlank(ch) {
            state := Invalid;
          } else {
            state := HeaderKey;
          }
        case CrLfCr =>
          if ch == LF {
            if CONTENT_LENGHT in request.headers {
              state := if Atoi(request.headers[CONTENT_LENGHT]) > 0 then Body else Complete;
            } else {
              state := if end < |msg| then Body else Complete;
            }
            start := end + 1;
          } else {
            state := Invalid;
          }
        case Body =>
          request.body := Slice(msg, start, start + (|msg| - end));
          state := Complete;
        case _ =>
      }
    }
  }

  /// The texts that are requests.

  function ParamText(k: string, v: string): string {
    k + ("=" + v)
  }

  // The parameters and the blank after them.
  function ParamsText(ps: Headers, gap: char := ' '): string
    requires ps != []
  {
    if |ps| == 1 then ParamText(ps[0].0, ps[0].1) + [gap]
    else ParamText(ps[0].0, ps[0].1) + ("&" + ParamsText(ps[1..], gap))
  }

  function TargetText(url: string, ps: Headers, gap: char := ' '): string {
    if ps == [] then url + [gap] else url + ("?" + ParamsText(ps, gap))
  }

  // A request as anybody may write it: blanks or tabs between the parts, raw
  // header lines, and what follows the blank line.
  datatype Raw = Raw(
    method_: string, gap: char, url: string, params: Headers, gap': char, protocol: string, version: string,
    headers: Headers, rest: string)

  function Line(t: Raw): string {
    t.method_ + ([t.gap] + (TargetText(t.url, t.params, t.gap') + (t.protocol + ("/" + (t.version + CRLF)))))
  }

  function RawText(t: Raw): string {
    Line(t) + (RawLines(t.headers) + (CRLF + t.rest))
  }

  predicate GoodUrl(u: string) {
    forall i | 0 <= i < |u| :: u[i] != '?' && !Gap(u[i])
  }

  predicate GoodParamPart(s: string, stop: char) {
    && s != "" && !Skipped(s[0])
    && forall i | 1 <= i < |s| :: s[i] != stop && !Gap(s[i])
  }

  predicate GoodParams(ps: Headers) {
    forall i | 0 <= i < |ps| :: GoodParamPart(ps[i].0, '=') && GoodParamPart(ps[i].1, '&')
  }

  predicate GoodProtocol(s: string) {
    Blanks(s) < |s| && forall i | Blanks(s) < i < |s| :: s[i] != '/'
  }

  predicate GoodLine(t: Raw) {
    && Capitals(t.method_) && Gap(t.gap) && GoodUrl(t.url) && GoodParams(t.params) && Gap(t.gap')
    && GoodProtocol(t.protocol) && GoodVersion(t.version)
  }

  predicate Good(t: Raw) {
    GoodLine(t) && GoodRaw(t.headers)
  }

  // What the parser should hand back, given what its context held.
  function Meaning(before: Request, t: Raw): Request
    requires Good(t)
  {
    var headers := LastWins(before.headers, Values(t.headers));
    Request(t.method_, t.url, LastWins(before.params, t.params), t.protocol, t.version, headers,
            if ReadsBody(headers) then t.rest else before.body)
  }

  // The canonical text.
  function Canonically(m: string, url: string, ps: Headers, protocol: string, version: string, hs: Headers, body: string): Raw {
    Raw(m, ' ', url, ps, ' ', protocol, version, Spaced(hs), body)
  }

  function Print(m: string, url: string, ps: Headers, protocol: string, version: string, hs: Headers, body: string): string {
    RawText(Canonically(m, url, ps, protocol, version, hs, body))
  }

  /// Each of them is parsed.

  lemma {:induction false} Token(msg: string, i: nat, j: nat, p: Parser, q: Parser)
    requires i <= j <= |msg| && !Done(p.phase)
    requires forall k | i <= k < j :: Step(msg, k, p) == p
    requires Step(msg, j, p) == q
    ensures Drive(msg, i, p) == Drive(msg, j + 1, q)
    decreases j - i
  {
    if i == j {
    } else {
      Token(msg, i + 1, j, p, q);
    }
  }

  lemma DoneStays(msg: string, i: nat, p: Parser)
    requires Done(p.phase)
    ensures Drive(msg, i, p) == p
  {
  }

  lemma ParsesMethod(msg: string, r: Request, m: string, gap: char)
    requires At(msg, 0, m) && At(msg, |m|, [gap]) && Capitals(m) && Gap(gap)
    ensures Drive(msg, 0, Parser(Start, 0, 0, r)) == Drive(msg, |m| + 1, Parser(InUrl, |m| + 1, 0, r.(method_ := m)))
  {
    hide Drive, At, Lead, Slice, CharAt;
    Slices(msg, 0, m);
    Slices(msg, |m|, [gap]);
    var p, q := Parser(Start, 0, 0, r), Parser(Method, 0, 0, r);
    Token(msg, 0, Lead(m), p, q);
    Token(msg, Lead(m) + 1, |m|, q, Parser(InUrl, |m| + 1, 0, r.(method_ := m)));
  }

  lemma ParsesUrl(msg: string, i: nat, c: nat, r: Request, url: string, end: char)
    requires At(msg, i, url) && At(msg, i + |url|, [end]) && GoodUrl(url) && (end == '?' || Gap(end))
    ensures var e := i + |url|;
      Drive(msg, i, Parser(InUrl, i, c, r)) ==
      Drive(msg, e + 1, Parser(if end == '?' then BeforeParamKey else BeforeProtocol, e + 1, c, r.(url := url)))
  {
    hide Drive, At, Slice, CharAt;
    Slices(msg, i, url);
    Slices(msg, i + |url|, [end]);
    var e := i + |url|;
    forall k | i <= k < e ensures Step(msg, k, Parser(InUrl, i, c, r)) == Parser(InUrl, i, c, r) { assert url[k - i] != '?'; }
    Token(msg, i, e, Parser(InUrl, i, c, r),
          Parser(if end == '?' then BeforeParamKey else BeforeProtocol, e + 1, c, r.(url := url)));
  }

  lemma ParsesParamKey(msg: string, i: nat, c: nat, r: Request, k: string)
    requires At(msg, i, k) && At(msg, i + |k|, "=") && GoodParamPart(k, '=')
    ensures Drive(msg, i, Parser(BeforeParamKey, i, c, r)) ==
            Drive(msg, i + |k| + 1, Parser(BeforeParamValue, i, i + |k|, r))
  {
    hide Drive, At, Slice, CharAt;
    Slices(msg, i, k);
    Slices(msg, i + |k|, "=");
    var p := Parser(ParamKey, i, c, r);
    Token(msg, i, i, Parser(BeforeParamKey, i, c, r), p);
    Token(msg, i + 1, i + |k|, p, Parser(BeforeParamValue, i, i + |k|, r));
  }

  lemma ParsesParamValue(msg: string, i: nat, colon: nat, r: Request, v: string, end: char)
    requires i <= colon && At(msg, colon + 1, v) && At(msg, colon + 1 + |v|, [end]) && GoodParamPart(v, '&')
    requires end == '&' || Gap(end)
    ensures var e := colon + 1 + |v|;
      Drive(msg, colon + 1, Parser(BeforeParamValue, i, colon, r)) ==
      Drive(msg, e + 1, Parser(if end == '&' then BeforeParamKey else BeforeProtocol, e + 1, colon,
                               r.(params := r.params[Slice(msg, i, colon) := v])))
  {
    hide Drive, At, Slice, CharAt;
    var e := colon + 1 + |v|;
    Slices(msg, colon + 1, v);
    Slices(msg, e, [end]);
    var p := Parser(ParamValue, i, colon, r);
    forall k | colon + 2 <= k < e ensures Step(msg, k, p) == p { assert v[k - (colon + 1)] == CharAt(msg, k); }
    Token(msg, colon + 1, colon + 1, Parser(BeforeParamValue, i, colon, r), p);
    Token(msg, colon + 2, e, p, Parser(if end == '&' then BeforeParamKey else BeforeProtocol, e + 1, colon,
                                       r.(params := r.params[Slice(msg, i, colon) := v])));
  }

  lemma ParsesParam(msg: string, i: nat, c: nat, r: Request, k: string, v: string, end: char)
    requires At(msg, i, ParamText(k, v)) && At(msg, i + |ParamText(k, v)|, [end]) && (end == '&' || Gap(end))
    requires GoodParamPart(k, '=') && GoodParamPart(v, '&')
    ensures var e := i + |ParamText(k, v)|;
      Drive(msg, i, Parser(BeforeParamKey, i, c, r)) ==
      Drive(msg, e + 1, Parser(if end == '&' then BeforeParamKey else BeforeProtocol, e + 1, i + |k|,
                               r.(params := r.params[k := v])))
  {
    hide Drive, Step, At, GoodParamPart;
    AtSplits(msg, i, k, "=" + v);
    AtSplits(msg, i + |k|, "=", v);
    Slices(msg, i, k);
    ParsesParamKey(msg, i, c, r, k);
    ParsesParamValue(msg, i, i + |k|, r, v, end);
  }

  lemma {:induction false} ParsesParams(msg: string, i: nat, c: nat, r: Request, ps: Headers, gap: char) returns (c': nat)
    requires ps != [] && At(msg, i, ParamsText(ps, gap)) && GoodParams(ps) && Gap(gap)
    ensures var n := i + |ParamsText(ps, gap)|;
      Drive(msg, i, Parser(BeforeParamKey, i, c, r)) ==
      Drive(msg, n, Parser(BeforeProtocol, n, c', r.(params := LastWins(r.params, ps))))
    decreases |ps|
  {
    hide Drive, Step, At, ParamText, GoodParamPart;
    var k, v := ps[0].0, ps[0].1;
    var t, r1 := ParamText(k, v), r.(params := r.params[k := v]);
    c' := i + |k|;
    if |ps| == 1 {
      AtSplits(msg, i, t, [gap]);
      ParsesParam(msg, i, c, r, k, v, gap);
      assert ps[1..] == [];
    } else {
      AtSplits(msg, i, t, "&" + ParamsText(ps[1..], gap));
      AtSplits(msg, i + |t|, "&", ParamsText(ps[1..], gap));
      ParsesParam(msg, i, c, r, k, v, '&');
      c' := ParsesParams(msg, i + |t| + 1, c', r1, ps[1..], gap);
    }
  }

  lemma ParsesTarget(msg: string, i: nat, c: nat, r: Request, url: string, ps: Headers, gap: char) returns (c': nat)
    requires At(msg, i, TargetText(url, ps, gap)) && GoodUrl(url) && GoodParams(ps) && Gap(gap)
    ensures var n := i + |TargetText(url, ps, gap)|;
      Drive(msg, i, Parser(InUrl, i, c, r)) ==
      Drive(msg, n, Parser(BeforeProtocol, n, c', r.(url := url, params := LastWins(r.params, ps))))
  {
    hide Drive, Step, At, GoodUrl, GoodParams;
    c' := c;
    if ps == [] {
      AtSplits(msg, i, url, [gap]);
      ParsesUrl(msg, i, c, r, url, gap);
    } else {
      AtSplits(msg, i, url, "?" + ParamsText(ps, gap));
      AtSplits(msg, i + |url|, "?", ParamsText(ps, gap));
      ParsesUrl(msg, i, c, r, url, '?');
      c' := ParsesParams(msg, i + |url| + 1, c, r.(url := url), ps, gap);
    }
  }

  lemma ParsesProtocol(msg: string, i: nat, c: nat, r: Request, s: string)
    requires At(msg, i, s) && At(msg, i + |s|, "/") && GoodProtocol(s)
    ensures var n := i + |s| + 1;
      Drive(msg, i, Parser(BeforeProtocol, i, c, r)) == Drive(msg, n, Parser(BeforeVersion, n, c, r.(protocol := s)))
  {
    hide Drive, At, Slice, CharAt, Blanks;
    Slices(msg, i, s);
    Slices(msg, i + |s|, "/");
    var p, q, j := Parser(BeforeProtocol, i, c, r), Parser(Protocol, i, c, r), i + Blanks(s);
    Token(msg, i, j, p, q);
    Token(msg, j + 1, i + |s|, q, Parser(BeforeVersion, i + |s| + 1, c, r.(protocol := s)));
  }

  lemma ParsesLineEnd(msg: string, i: nat, c: nat, r: Request)
    requires At(msg, i, CRLF)
    ensures Drive(msg, i + 1, Parser(WhenCr, i + 1, c, r)) == Drive(msg, i + 2, Parser(CrLf, i + 2, c, r))
  {
  }

  lemma VersionBytes(msg: string, i: nat, c: nat, r: Request, e: nat)
    requires i < e <= |msg| && IsDigit(CharAt(msg, i)) && CharAt(msg, e) == CR
    requires forall k | i < k < e :: IsDigit(CharAt(msg, k)) || CharAt(msg, k) == '.'
    ensures Drive(msg, i, Parser(BeforeVersion, i, c, r)) ==
            Drive(msg, e + 1, Parser(WhenCr, e + 1, c, r.(version := Slice(msg, i, e))))
  {
    hide Drive, Slice, CharAt;
    var p, q := Parser(BeforeVersion, i, c, r), Parser(Version, i, c, r);
    Token(msg, i, i, p, q);
    Token(msg, i + 1, e, q, Parser(WhenCr, e + 1, c, r.(version := Slice(msg, i, e))));
  }

  lemma ReadsVersion(msg: string, i: nat, c: nat, r: Request, s: string, e: nat)
    requires At(msg, i, s) && e == i + |s| && At(msg, e, CRLF) && GoodVersion(s)
    ensures Drive(msg, i, Parser(BeforeVersion, i, c, r)) == Drive(msg, e + 1, Parser(WhenCr, e + 1, c, r.(version := s)))
  {
    forall k | i <= k < e
      ensures IsDigit(CharAt(msg, k)) || (k > i && CharAt(msg, k) == '.')
    {
      AtChar(msg, i, s, k - i);
    }
    assert Slice(msg, i, e) == s;
    AtChar(msg, e, CRLF, 0);
    hide Drive, Step;
    VersionBytes(msg, i, c, r, e);
  }

  lemma ParsesVersion(msg: string, i: nat, c: nat, r: Request, s: string)
    requires At(msg, i, s + CRLF) && GoodVersion(s)
    ensures var n := i + |s| + 2;
      Drive(msg, i, Parser(BeforeVersion, i, c, r)) == Drive(msg, n, Parser(CrLf, n, c, r.(version := s)))
  {
    hide *;
    AtSplits(msg, i, s, CRLF);
    ReadsVersion(msg, i, c, r, s, i + |s|);
    ParsesLineEnd(msg, i + |s|, c, r.(version := s));
  }

  lemma ParsesRequestLine(msg: string, r: Request, t: Raw) returns (c: nat)
    requires At(msg, 0, Line(t)) && GoodLine(t)
    ensures var n := |Line(t)|;
      Drive(msg, 0, Parser(Start, 0, 0, r)) ==
      Drive(msg, n, Parser(CrLf, n, c, Request(t.method_, t.url, LastWins(r.params, t.params), t.protocol, t.version,
                                               r.headers, r.body)))
  {
    hide Drive, Step, At, TargetText, Capitals, GoodUrl, GoodParams, GoodProtocol, GoodVersion, Gap;
    var target, tail := TargetText(t.url, t.params, t.gap'), t.version + CRLF;
    AtSplits(msg, 0, t.method_, [t.gap] + (target + (t.protocol + ("/" + tail))));
    AtSplits(msg, |t.method_|, [t.gap], target + (t.protocol + ("/" + tail)));
    var n := |t.method_| + 1;
    AtSplits(msg, n, target, t.protocol + ("/" + tail));
    var n2 := n + |target|;
    AtSplits(msg, n2, t.protocol, "/" + tail);
    AtSplits(msg, n2 + |t.protocol|, "/", tail);
    ParsesMethod(msg, r, t.method_, t.gap);
    var r1 := r.(method_ := t.method_);
    c := ParsesTarget(msg, n, 0, r1, t.url, t.params, t.gap');
    var r2 := r1.(url := t.url, params := LastWins(r1.params, t.params));
    ParsesProtocol(msg, n2, c, r2, t.protocol);
    ParsesVersion(msg, n2 + |t.protocol| + 1, c, r2.(protocol := t.protocol), t.version);
  }

  lemma ParsesKey(msg: string, i: nat, c: nat, r: Request, k: string)
    requires At(msg, i, k) && At(msg, i + |k|, ":") && GoodKey(k)
    ensures Drive(msg, i, Parser(CrLf, i, c, r)) == Drive(msg, i + |k| + 1, Parser(HeaderValue, i, i + |k|, r))
    ensures Slice(msg, i, i + |k|) == k
  {
    hide Drive, At, Slice, CharAt;
    Slices(msg, i, k);
    Slices(msg, i + |k|, ":");
    var p := Parser(HeaderKey, i, c, r);
    Token(msg, i, i, Parser(CrLf, i, c, r), p);
    Token(msg, i + 1, i + |k|, p, Parser(HeaderValue, i, i + |k|, r));
  }

  lemma ParsesValue(msg: string, i: nat, colon: nat, r: Request, raw: string, n: nat)
    requires i <= colon && At(msg, colon + 1, raw) && At(msg, colon + 1 + |raw|, CRLF) && raw != "" && GoodValue(raw)
    requires n == colon + 1 + |raw| + 2
    ensures Drive(msg, colon + 1, Parser(HeaderValue, i, colon, r)) ==
      Drive(msg, n, Parser(CrLf, n, colon, r.(headers := r.headers[Slice(msg, i, colon) := raw[1..]])))
  {
    hide Drive, At, Slice, CharAt, GoodValue;
    var e := colon + 1 + |raw|;
    assert [raw[0]] + raw[1..] == raw;
    AtSplits(msg, colon + 1, [raw[0]], raw[1..]);
    Slices(msg, colon + 1, raw);
    Slices(msg, colon + 2, raw[1..]);
    Slices(msg, e, CRLF);
    var q := Parser(HeaderValue, i, colon, r);
    forall m | colon + 1 <= m < e ensures Step(msg, m, q) == q { ValueChar(raw, m - (colon + 1)); }
    var r' := r.(headers := r.headers[Slice(msg, i, colon) := raw[1..]]);
    Token(msg, colon + 1, e, q, Parser(WhenCr, e + 1, colon, r'));
    ParsesLineEnd(msg, e, colon, r');
  }

  lemma ParsesHeader(msg: string, i: nat, c: nat, r: Request, k: string, raw: string, n: nat)
    requires At(msg, i, RawLine(k, raw)) && GoodKey(k) && raw != "" && GoodValue(raw) && n == i + |RawLine(k, raw)|
    ensures Drive(msg, i, Parser(CrLf, i, c, r)) ==
            Drive(msg, n, Parser(CrLf, n, i + |k|, r.(headers := r.headers[k := raw[1..]])))
  {
    hide *;
    RawParts(msg, i, k, raw);
    ParsesKey(msg, i, c, r, k);
    ParsesValue(msg, i, i + |k|, r, raw, n);
  }

  lemma {:induction false} ParsesHeaders(msg: string, i: nat, c: nat, r: Request, hs: Headers) returns (c': nat)
    requires At(msg, i, RawLines(hs)) && GoodRaw(hs)
    ensures var n := i + |RawLines(hs)|;
      Drive(msg, i, Parser(CrLf, i, c, r)) ==
      Drive(msg, n, Parser(CrLf, n, c', r.(headers := LastWins(r.headers, Values(hs)))))
    decreases |hs|
  {
    hide Drive, Step, At, RawLine, GoodKey, GoodValue;
    c' := c;
    if hs == [] {
    } else {
      var k, raw := hs[0].0, hs[0].1;
      var n := i + |RawLine(k, raw)|;
      AtSplits(msg, i, RawLine(k, raw), RawLines(hs[1..]));
      ParsesHeader(msg, i, c, r, k, raw, n);
      c' := ParsesHeaders(msg, n, i + |k|, r.(headers := r.headers[k := raw[1..]]), hs[1..]);
      assert Values(hs)[1..] == Values(hs[1..]);
    }
  }

  lemma ReadsBlankLine(msg: string, i: nat, c: nat, r: Request)
    requires At(msg, i, CRLF)
    ensures Drive(msg, i, Parser(CrLf, i, c, r)) ==
            Drive(msg, i + 2, Parser(if ReadsBody(r.headers) then Body else Complete, i + 2, c, r))
  {
  }

  lemma ParsesBody(msg: string, i: nat, c: nat, r: Request, body: string)
    requires At(msg, i, CRLF + body) && i + 2 + |body| == |msg|
    ensures Drive(msg, i, Parser(CrLf, i, c, r)) ==
            Parser(Complete, i + 2, c, if ReadsBody(r.headers) then r.(body := body) else r)
  {
    AtSplits(msg, i, CRLF, body);
    Slices(msg, i + 2, body);
    ReadsBlankLine(msg, i, c, r);
    hide Drive, At, Slice, CharAt, ReadsBody;
    if ReadsBody(r.headers) {
      var end := Parser(Complete, i + 2, c, r.(body := body));
      Token(msg, i + 2, i + 2, Parser(Body, i + 2, c, r), end);
      DoneStays(msg, i + 3, end);
    } else {
      DoneStays(msg, i + 2, Parser(Complete, i + 2, c, r));
    }
  }

  // Every field comes back, on top of what an earlier request left behind.
  lemma ParsesText(before: Request, t: Raw)
    requires Good(t)
    ensures var p := Drive(RawText(t), 0, Parser(Start, 0, 0, before));
      p.phase == Complete && p.request == Meaning(before, t)
  {
    hide Drive, Step, At, Line, ReadsBody, GoodLine, GoodRaw;
    var msg, line := RawText(t), Line(t);
    WholeMessage(msg);
    AtSplits(msg, 0, line, RawLines(t.headers) + (CRLF + t.rest));
    AtSplits(msg, |line|, RawLines(t.headers), CRLF + t.rest);
    var c := ParsesRequestLine(msg, before, t);
    var r := Request(t.method_, t.url, LastWins(before.params, t.params), t.protocol, t.version, before.headers, before.body);
    var c2 := ParsesHeaders(msg, |line|, c, r, t.headers);
    ParsesBody(msg, |line| + |RawLines(t.headers)|, c2, r.(headers := Meaning(before, t).headers), t.rest);
  }

  lemma ParsesPrinted(before: Request, m: string, url: string, ps: Headers, protocol: string, version: string, hs: Headers, body: string)
    requires Capitals(m) && GoodUrl(url) && GoodParams(ps) && GoodProtocol(protocol) && GoodVersion(version) && GoodHeaders(hs)
    ensures var p := Drive(Print(m, url, ps, protocol, version, hs, body), 0, Parser(Start, 0, 0, before));
      var headers := LastWins(before.headers, hs);
      && p.phase == Complete
      && p.request == Request(m, url, LastWins(before.params, ps), protocol, version, headers,
                              if ReadsBody(headers) then body else before.body)
  {
    hide Drive, RawText, ReadsBody, Capitals, GoodUrl, GoodParams, GoodProtocol, GoodVersion, GoodHeaders, GoodRaw;
    SpacedValues(hs);
    ParsesText(before, Canonically(m, url, ps, protocol, version, hs, body));
  }
}
