/** src/Http/HttpResponse.cpp prints a response, src/Http/HttpResponseContext.cpp
    parses one.  The text format is that of sections 4 to 6 of RFC 9112. */
module HttpResponses {
  import opened HttpText

  datatype Response = Response(
    protocol: string, version: string, headers: map<string, string>,
    statusCode: int, statusMessage: string, body: string, close: bool)

  /// The printer.

  function Generated(r: Response): Headers {
    if r.close then [("Connection", "close")]
    else [("Content-Length", ToString(|r.body|)), ("Connection", "Keep-Alive")]
  }

  function StatusLine(code: int, reason: string): string {
    "HTTP/1.1 " + (ToString(code) + (" " + (reason + CRLF)))
  }

  // The printed message; order is the iteration order of the header map.
  function Print(r: Response, order: seq<string>): string
    requires Enumerates(order, r.headers)
  {
    StatusLine(r.statusCode, r.statusMessage)
    + (HeaderLines(Generated(r) + Entries(r.headers, order)) + (CRLF + r.body))
  }

  class HttpResponse {
    var protocol: string
    var version: string
    var headers: map<string, string>
    var statusCode: int
    var statusMessage: string
    var body: string
    var closeConnection: bool

    constructor (close: bool)
      ensures View() == Response("", "", map[], 1, "", "", close)
    {
      protocol, version, headers, statusCode, statusMessage, body := "", "", map[], 1, "", "";
      closeConnection := close;
    }

    function View(): Response
      reads this
    {
      Response(protocol, version, headers, statusCode, statusMessage, body, closeConnection)
    }

    method AddHeader(key: string, value: string)
      modifies this`headers
      ensures headers == old(headers)[key := value]
    {
      headers := headers[key := value];
    }

    method Message(order: seq<string>) returns (message: string)
      requires Enumerates(order, headers)
      ensures message == Print(View(), order)
    {
      message := "HTTP/1.1 " + ToString(statusCode) + " " + statusMessage + "\r\n";
      ghost var first := StatusLine(statusCode, statusMessage);
      assert message == first;
      if closeConnection {
        message := message + "Connection: close\r\n";
      } else {
        message := message + ("Content-Length: " + ToString(|body|) + "\r\n");
        message := message + "Connection: Keep-Alive\r\n";
      }
      GeneratedText(View());
      ghost var g, u := Generated(View()), Entries(headers, order);
      assert message == first + HeaderLines(g);
      message := AppendHeaders(message, order);
      message := message + "\r\n";
      message := message + body;
      HeaderLinesJoin(g, u);
      Reassociate(first, HeaderLines(g), HeaderLines(u), CRLF, body);
    }

    // The loop over headers_.
    method AppendHeaders(message0: string, order: seq<string>) returns (message: string)
      requires Enumerates(order, headers)
      ensures message == message0 + HeaderLines(Entries(headers, order))
    {
      message := message0;
      ghost var hs := Entries(headers, order);
      assert hs[0..] == hs;
      for i := 0 to |order|
        invariant message + HeaderLines(hs[i..]) == message0 + HeaderLines(hs)
      {
        assert hs[i..][0] == (order[i], headers[order[i]]) && hs[i..][1..] == hs[i + 1..];
        ghost var line := HeaderLine(order[i], headers[order[i]]);
        assert message + (line + HeaderLines(hs[i + 1..])) == message + line + HeaderLines(hs[i + 1..]);
        message := message + (order[i] + ": " + headers[order[i]] + "\r\n");
      }
      assert hs[|order|..] == [];
    }
  }

  lemma Reassociate(a: string, b: string, c: string, d: string, e: string)
    ensures a + b + c + d + e == a + ((b + c) + (d + e))
  {
  }

  lemma GeneratedText(r: Response)
    ensures HeaderLines(Generated(r)) ==
            if r.close then "Connection: close\r\n"
            else "Content-Length: " + ToString(|r.body|) + "\r\n" + "Connection: Keep-Alive\r\n"
  {
    var g := Generated(r);
    assert HeaderLine("Connection", "close") == "Connection: close\r\n";
    assert HeaderLine("Connection", "Keep-Alive") == "Connection: Keep-Alive\r\n";
    assert HeaderLine("Content-Length", ToString(|r.body|)) == "Content-Length: " + ToString(|r.body|) + "\r\n";
    if r.close {
      assert g[1..] == [];
    } else {
      var tail := [("Connection", "Keep-Alive")];
      assert g[1..] == tail;
      assert tail[1..] == [];
      assert HeaderLines(tail) == HeaderLine("Connection", "Keep-Alive") + HeaderLines([]);
    }
  }

  /// The parser.

  // Thrown is not a state of the source: it ends a parse whose header value
  // range [colon + 2, end) is inverted, for which std::string throws.
  datatype Phase =
    | Invalid | Start | Protocol | BeforeVersion | Version | BeforeStatusCode | StatusCode
    | BeforeReason | Reason | HeaderKey | HeaderValue | WhenCr | CrLf | CrLfCr | Body | Complete | Thrown

  predicate Done(p: Phase) { p.Invalid? || p.Complete? || p.Thrown? }

  datatype Parser = Parser(phase: Phase, start: nat, colon: nat, response: Response)

  function Step(msg: string, i: nat, p: Parser): Parser {
    var ch := CharAt(msg, i);
    var r := p.response;
    match p.phase
    case Start =>
      if ch == CR || ch == LF || IsBlank(ch) then p
      else if IsUpper(ch) then p.(phase := Protocol) else p.(phase := Invalid)
    case Protocol =>
      if ch == '/' then Parser(BeforeVersion, i + 1, p.colon, r.(protocol := Slice(msg, p.start, i)))
      else if IsUpper(ch) then p else p.(phase := Invalid)
    case BeforeVersion => p.(phase := if IsDigit(ch) then Version else Invalid)
    case Version =>
      if IsBlank(ch) then Parser(BeforeStatusCode, i + 1, p.colon, r.(version := Slice(msg, p.start, i)))
      else if IsDigit(ch) || ch == '.' then p else p.(phase := Invalid)
    case BeforeStatusCode =>
      if IsBlank(ch) then p else p.(phase := if IsDigit(ch) then StatusCode else Invalid)
    case StatusCode =>
      if IsBlank(ch) then Parser(BeforeReason, i + 1, p.colon, r.(statusCode := Atoi(Slice(msg, p.start, i))))
      else if IsDigit(ch) then p else p.(phase := Invalid)
    case BeforeReason => if IsBlank(ch) then p else p.(phase := Reason)
    case Reason =>
      if ch == CR then Parser(WhenCr, i + 1, p.colon, r.(statusMessage := Slice(msg, p.start, i))) else p
    case HeaderKey => if ch == ':' then Parser(HeaderValue, p.start, i, r) else p
    case HeaderValue =>
      if ch != CR then p
      else if p.colon + 2 > i then p.(phase := Thrown)
      else Parser(WhenCr, i + 1, p.colon,
                  r.(headers := r.headers[Slice(msg, p.start, p.colon) := Slice(msg, p.colon + 2, i)]))
    case WhenCr => if ch == LF then Parser(CrLf, i + 1, p.colon, r) else p.(phase := Invalid)
    case CrLf => p.(phase := if ch == CR then CrLfCr else if IsBlank(ch) then Invalid else HeaderKey)
    case CrLfCr =>
      if ch == LF then Parser(if i < |msg| then Body else Complete, i + 1, p.colon, r) else p.(phase := Invalid)
    case Body => p.(phase := Complete, response := r.(body := Slice(msg, p.start, p.start + Rest(msg, i))))
    case Invalid => p
    case Complete => p
    case Thrown => p
  }

  function Drive(msg: string, i: nat, p: Parser): Parser
    decreases |msg| + 1 - i
  {
    if Done(p.phase) || i > |msg| then p else Drive(msg, i + 1, Step(msg, i, p))
  }

  class HttpResponseContext {
    var state: Phase
    const response: HttpResponse

    constructor ()
      ensures state == Start && fresh(response)
      ensures response.View() == Response("", "", map[], 1, "", "", false)
    {
      state := Start;
      response := new HttpResponse(false);
    }

    method ResetContextStatus()
      modifies this
      ensures state == Start
    {
      state := Start;
    }

    method Parse(msg: string) returns (complete: bool)
      modifies this, response
      ensures var p := Drive(msg, 0, Parser(old(state), 0, 0, old(response.View())));
        state == p.phase && response.View() == p.response && (complete <==> p.phase == Complete)
    {
      var start, end, colon := 0, 0, 0;
      while !Done(state) && end <= |msg|
        invariant Drive(msg, end, Parser(state, start, colon, response.View())) ==
                  Drive(msg, 0, Parser(old(state), 0, 0, old(response.View())))
        decreases |msg| + 1 - end
      {
        start, colon := ReadByte(msg, start, end, colon);
        end := end + 1;
      }
      return state == Complete;
    }

    // The switch in the loop.
    method ReadByte(msg: string, start0: nat, end: nat, colon0: nat) returns (start: nat, colon: nat)
      requires !Done(state) && end <= |msg|
      modifies this, response
      ensures Parser(state, start, colon, response.View()) ==
              Step(msg, end, Parser(old(state), start0, colon0, old(response.View())))
    {
      hide Atoi, Slice;
      start, colon := start0, colon0;
      var ch := CharAt(msg, end);
      match state {
        case Start =>
          if ch == CR || ch == LF || IsBlank(ch) {
          } else if IsUpper(ch) {
            state := Protocol;
          } else {
            state := Invalid;
          }
        case Protocol =>
          if ch == '/' {
            response.protocol := Slice(msg, start, end);
            start := end + 1;
            state := BeforeVersion;
          } else if IsUpper(ch) {
          } else {
            state := Invalid;
          }
        case BeforeVersion =>
          state := if IsDigit(ch) then Version else Invalid;
        case Version =>
          if IsBlank(ch) {
            response.version := Slice(msg, start, end);
            start := end + 1;
            state := BeforeStatusCode;
          } else if IsDigit(ch) || ch == '.' {
          } else {
            state := Invalid;
          }
        case BeforeStatusCode =>
          if IsBlank(ch) {
          } else if IsDigit(ch) {
            state := StatusCode;
          } else {
            state := Invalid;
          }
        case StatusCode =>
          if IsBlank(ch) {
            response.statusCode := Atoi(Slice(msg, start, end));
            start := end + 1;
            state := BeforeReason;
          } else if IsDigit(ch) {
          } else {
            state := Invalid;
          }
        case BeforeReason =>
          if IsBlank(ch) {
          } else {
            state := Reason;
          }
        case Reason =>
          if ch == CR {
            response.statusMessage := Slice(msg, start, end);
            start := end + 1;
            state := WhenCr;
          }
        case HeaderKey =>
          if ch == ':' {
            colon := end;
            state := HeaderValue;
          }
        case HeaderValue =>
          if IsBlank(ch) {
          } else if ch == CR {
            if colon + 2 > end {
              state := Thrown;
            } else {
              response.AddHeader(Slice(msg, start, colon), Slice(msg, colon + 2, end));
              start := end + 1;
              state := WhenCr;
            }
          }
        case WhenCr =>
          if ch == LF {
            start := end + 1;
            state := CrLf;
          } else {
            state := Invalid;
          }
        case CrLf =>
          if ch == CR {
            state := CrLfCr;
          } else if IsBlank(ch) {
            state := Invalid;
          } else {
            state := HeaderKey;
          }
        case CrLfCr =>
          if ch == LF {
            state := if end < |msg| then Body else Complete;
            start := end + 1;
          } else {
            state := Invalid;
          }
        case Body =>
          response.body := Slice(msg, start, start + (|msg| - end));
          state := Complete;
        case _ =>
      }
    }
  }

  /// The texts that are responses.

  // A response as anybody may write it: blanks or tabs between the parts, raw
  // header lines, and what follows the blank line.
  datatype Raw = Raw(
    protocol: string, version: string, gap: char, code: string, gap': char, reason: string, headers: Headers, rest: string)

  function Line(t: Raw): string {
    t.protocol + ("/" + (t.version + ([t.gap] + (t.code + ([t.gap'] + (t.reason + CRLF))))))
  }

  function RawText(t: Raw): string {
    Line(t) + (RawLines(t.headers) + (CRLF + t.rest))
  }

  predicate GoodLine(t: Raw) {
    Capitals(t.protocol) && GoodVersion(t.version) && Gap(t.gap) && GoodCode(t.code) && Gap(t.gap') && GoodReason(t.reason)
  }

  predicate Good(t: Raw) {
    GoodLine(t) && GoodRaw(t.headers)
  }

  // What the parser should hand back, given what its context held.
  function Meaning(before: Response, t: Raw): Response
    requires Good(t)
  {
    Response(t.protocol, t.version, LastWins(before.headers, Values(t.headers)), Atoi(t.code), t.reason, t.rest, before.close)
  }

  /// Each of them is parsed.

  // Bytes i up to j leave the parser as it is, byte j takes it to q.
  lemma {:induction false} Token(msg: string, i: nat, j: nat, p: Parser, q: Parser)
    requires i <= j <= |msg| && !Done(p.phase)
    requires forall k | i <= k < j :: Step(msg, k, p) == p
    requires Step(msg, j, p) == q
    ensures Drive(msg, i, p) == Drive(msg, j + 1, q)
    decreases j - i
  {
    if i == j {
    } else {
      Token(msg, i + 1, j, p, q);
    }
  }

  lemma ParsesProtocol(msg: string, r: Response, s: string)
    requires At(msg, 0, s) && At(msg, |s|, "/") && Capitals(s)
    ensures var n := |s| + 1;
      Drive(msg, 0, Parser(Start, 0, 0, r)) == Drive(msg, n, Parser(BeforeVersion, n, 0, r.(protocol := s)))
  {
    hide Drive, At, Lead, Slice, CharAt;
    Slices(msg, 0, s);
    Slices(msg, |s|, "/");
    var p, q := Parser(Start, 0, 0, r), Parser(Protocol, 0, 0, r);
    Token(msg, 0, Lead(s), p, q);
    Token(msg, Lead(s) + 1, |s|, q, Parser(BeforeVersion, |s| + 1, 0, r.(protocol := s)));
  }

  lemma ParsesVersion(msg: string, i: nat, c: nat, r: Response, s: string, gap: char)
    requires At(msg, i, s) && At(msg, i + |s|, [gap]) && GoodVersion(s) && Gap(gap)
    ensures var n := i + |s| + 1;
      Drive(msg, i, Parser(BeforeVersion, i, c, r)) == Drive(msg, n, Parser(BeforeStatusCode, n, c, r.(version := s)))
  {
    hide Drive, At, Slice, CharAt;
    var e := i + |s|;
    Slices(msg, i, s);
    Slices(msg, e, [gap]);
    var p := Parser(Version, i, c, r);
    Token(msg, i, i, Parser(BeforeVersion, i, c, r), p);
    forall k | i + 1 <= k < e ensures Step(msg, k, p) == p { assert s[k - i] == CharAt(msg, k); }
    Token(msg, i + 1, e, p, Parser(BeforeStatusCode, e + 1, c, r.(version := s)));
  }

  lemma ParsesStatusCode(msg: string, i: nat, c: nat, r: Response, s: string, gap: char)
    requires At(msg, i, s) && At(msg, i + |s|, [gap]) && GoodCode(s) && Gap(gap)
    ensures var n := i + |s| + 1;
      Drive(msg, i, Parser(BeforeStatusCode, i, c, r)) == Drive(msg, n, Parser(BeforeReason, n, c, r.(statusCode := Atoi(s))))
  {
    hide Drive, At, Slice, CharAt, Blanks, Atoi;
    var b, e := i + Blanks(s), i + |s|;
    Slices(msg, i, s);
    Slices(msg, e, [gap]);
    var p, q := Parser(BeforeStatusCode, i, c, r), Parser(StatusCode, i, c, r);
    forall k | i <= k < b ensures Step(msg, k, p) == p { assert s[k - i] == CharAt(msg, k); }
    assert s[b - i] == CharAt(msg, b);
    Token(msg, i, b, p, q);
    forall k | b + 1 <= k < e ensures Step(msg, k, q) == q { assert s[k - i] == CharAt(msg, k); }
    Token(msg, b + 1, e, q, Parser(BeforeReason, e + 1, c, r.(statusCode := Atoi(s))));
  }

  lemma ParsesLineEnd(msg: string, i: nat, c: nat, r: Response)
    requires At(msg, i, CRLF)
    ensures Drive(msg, i + 1, Parser(WhenCr, i + 1, c, r)) == Drive(msg, i + 2, Parser(CrLf, i + 2, c, r))
  {
  }

  lemma SkipsBlanks(msg: string, i: nat, c: nat, r: Response, reason: string)
    requires At(msg, i, reason) && Blanks(reason) < |reason|
    ensures Drive(msg, i, Parser(BeforeReason, i, c, r)) == Drive(msg, i + Blanks(reason) + 1, Parser(Reason, i, c, r))
  {
    hide Drive, At, Blanks, Slice;
    var p := Parser(BeforeReason, i, c, r);
    Slices(msg, i, reason);
    forall k | i <= k < i + Blanks(reason) ensures Step(msg, k, p) == p { assert reason[k - i] == CharAt(msg, k); }
    Token(msg, i, i + Blanks(reason), p, Parser(Reason, i, c, r));
  }

  lemma ReadsReason(msg: string, i: nat, c: nat, r: Response, reason: string)
    requires At(msg, i, reason) && At(msg, i + |reason|, CRLF) && GoodReason(reason)
    ensures var e := i + |reason|;
      Drive(msg, i + Blanks(reason) + 1, Parser(Reason, i, c, r)) ==
      Drive(msg, e + 1, Parser(WhenCr, e + 1, c, r.(statusMessage := reason)))
  {
    hide Drive, At;
    var e, q := i + |reason|, Parser(Reason, i, c, r);
    Slices(msg, i, reason);
    AtChar(msg, e, CRLF, 0);
    forall k | i + Blanks(reason) + 1 <= k < e ensures Step(msg, k, q) == q { assert reason[k - i] != CR; }
    Token(msg, i + Blanks(reason) + 1, e, q, Parser(WhenCr, e + 1, c, r.(statusMessage := reason)));
  }

  lemma ParsesReason(msg: string, i: nat, c: nat, r: Response, reason: string)
    requires At(msg, i, reason + CRLF) && GoodReason(reason)
    ensures var n := i + |reason| + 2;
      Drive(msg, i, Parser(BeforeReason, i, c, r)) == Drive(msg, n, Parser(CrLf, n, c, r.(statusMessage := reason)))
  {
    hide Drive, Step, At;
    AtSplits(msg, i, reason, CRLF);
    SkipsBlanks(msg, i, c, r, reason);
    ReadsReason(msg, i, c, r, reason);
    ParsesLineEnd(msg, i + |reason|, c, r.(statusMessage := reason));
  }

  lemma ParsesKey(msg: string, i: nat, c: nat, r: Response, k: string)
    requires At(msg, i, k) && At(msg, i + |k|, ":") && GoodKey(k)
    ensures Drive(msg, i, Parser(CrLf, i, c, r)) == Drive(msg, i + |k| + 1, Parser(HeaderValue, i, i + |k|, r))
    ensures Slice(msg, i, i + |k|) == k
  {
    hide Drive, At, Slice, CharAt;
    Slices(msg, i, k);
    Slices(msg, i + |k|, ":");
    var p := Parser(HeaderKey, i, c, r);
    Token(msg, i, i, Parser(CrLf, i, c, r), p);
    Token(msg, i + 1, i + |k|, p, Parser(HeaderValue, i, i + |k|, r));
  }

  lemma ParsesValue(msg: string, i: nat, colon: nat, r: Response, raw: string, n: nat)
    requires i <= colon && At(msg, colon + 1, raw) && At(msg, colon + 1 + |raw|, CRLF) && raw != "" && GoodValue(raw)
    requires n == colon + 1 + |raw| + 2
    ensures Drive(msg, colon + 1, Parser(HeaderValue, i, colon, r)) ==
      Drive(msg, n, Parser(CrLf, n, colon, r.(headers := r.headers[Slice(msg, i, colon) := raw[1..]])))
  {
    hide Drive, At, Slice, CharAt, GoodValue;
    var e := colon + 1 + |raw|;
    assert [raw[0]] + raw[1..] == raw;
    AtSplits(msg, colon + 1, [raw[0]], raw[1..]);
    Slices(msg, colon + 1, raw);
    Slices(msg, colon + 2, raw[1..]);
    Slices(msg, e, CRLF);
    var q := Parser(HeaderValue, i, colon, r);
    forall m | colon + 1 <= m < e ensures Step(msg, m, q) == q { ValueChar(raw, m - (colon + 1)); }
    var r' := r.(headers := r.headers[Slice(msg, i, colon) := raw[1..]]);
    Token(msg, colon + 1, e, q, Parser(WhenCr, e + 1, colon, r'));
    ParsesLineEnd(msg, e, colon, r');
  }

  lemma ParsesHeader(msg: string, i: nat, c: nat, r: Response, k: string, raw: string, n: nat)
    requires At(msg, i, RawLine(k, raw)) && GoodKey(k) && raw != "" && GoodValue(raw) && n == i + |RawLine(k, raw)|
    ensures Drive(msg, i, Parser(CrLf, i, c, r)) ==
            Drive(msg, n, Parser(CrLf, n, i + |k|, r.(headers := r.headers[k := raw[1..]])))
  {
    hide *;
    RawParts(msg, i, k, raw);
    ParsesKey(msg, i, c, r, k);
    ParsesValue(msg, i, i + |k|, r, raw, n);
  }

  lemma {:induction false} ParsesHeaders(msg: string, i: nat, c: nat, r: Response, hs: Headers) returns (c': nat)
    requires At(msg, i, RawLines(hs)) && GoodRaw(hs)
    ensures var n := i + |RawLines(hs)|;
      Drive(msg, i, Parser(CrLf, i, c, r)) ==
      Drive(msg, n, Parser(CrLf, n, c', r.(headers := LastWins(r.headers, Values(hs)))))
    decreases |hs|
  {
    hide Drive, Step, At, RawLine, GoodKey, GoodValue;
    c' := c;
    if hs == [] {
    } else {
      var k, raw := hs[0].0, hs[0].1;
      var n := i + |RawLine(k, raw)|;
      AtSplits(msg, i, RawLine(k, raw), RawLines(hs[1..]));
      ParsesHeader(msg, i, c, r, k, raw, n);
      c' := ParsesHeaders(msg, n, i + |k|, r.(headers := r.headers[k := raw[1..]]), hs[1..]);
      assert Values(hs)[1..] == Values(hs[1..]);
    }
  }

  lemma DoneStays(msg: string, i: nat, p: Parser)
    requires Done(p.phase)
    ensures Drive(msg, i, p) == p
  {
  }

  lemma ParsesBody(msg: string, i: nat, c: nat, r: Response, body: string)
    requires At(msg, i, CRLF + body) && i + 2 + |body| == |msg|
    ensures Drive(msg, i, Parser(CrLf, i, c, r)) == Parser(Complete, i + 2, c, r.(body := body))
  {
    hide Drive, At;
    AtSplits(msg, i, CRLF, body);
    Slices(msg, i, CRLF);
    Slices(msg, i + 2, body);
    var p, q := Parser(CrLfCr, i, c, r), Parser(Body, i + 2, c, r);
    var end := Parser(Complete, i + 2, c, r.(body := body));
    Token(msg, i, i, Parser(CrLf, i, c, r), p);
    Token(msg, i + 1, i + 1, p, q);
    Token(msg, i + 2, i + 2, q, end);
    DoneStays(msg, i + 3, end);
  }

  // Where the status code of a status line begins.
  function CodeAt(t: Raw): nat {
    |t.protocol| + |t.version| + 2
  }

  lemma LineParts(msg: string, t: Raw)
    requires At(msg, 0, Line(t))
    ensures At(msg, 0, t.protocol) && At(msg, |t.protocol|, "/")
    ensures At(msg, |t.protocol| + 1, t.version) && At(msg, |t.protocol| + 1 + |t.version|, [t.gap])
    ensures At(msg, CodeAt(t), t.code) && At(msg, CodeAt(t) + |t.code|, [t.gap'])
    ensures At(msg, CodeAt(t) + |t.code| + 1, t.reason + CRLF)
    ensures |Line(t)| == CodeAt(t) + |t.code| + 1 + |t.reason| + 2
  {
    hide At;
    var tail := t.reason + CRLF;
    var more := t.code + ([t.gap'] + tail);
    AtSplits(msg, 0, t.protocol, "/" + (t.version + ([t.gap] + more)));
    AtSplits(msg, |t.protocol|, "/", t.version + ([t.gap] + more));
    var n := |t.protocol| + 1;
    AtSplits(msg, n, t.version, [t.gap] + more);
    AtSplits(msg, n + |t.version|, [t.gap], more);
    AtSplits(msg, CodeAt(t), t.code, [t.gap'] + tail);
    AtSplits(msg, CodeAt(t) + |t.code|, [t.gap'], tail);
  }

  lemma ParsesStatusLine(msg: string, r: Response, t: Raw)
    requires At(msg, 0, Line(t)) && GoodLine(t)
    ensures var n := |Line(t)|;
      Drive(msg, 0, Parser(Start, 0, 0, r)) ==
      Drive(msg, n, Parser(CrLf, n, 0, r.(protocol := t.protocol, version := t.version, statusCode := Atoi(t.code),
                                         statusMessage := t.reason)))
  {
    hide Drive, Step, At, Line, Capitals, GoodVersion, GoodCode, GoodReason, Gap, Atoi;
    LineParts(msg, t);
    ParsesProtocol(msg, r, t.protocol);
    ParsesVersion(msg, |t.protocol| + 1, 0, r.(protocol := t.protocol), t.version, t.gap);
    var r2 := r.(protocol := t.protocol, version := t.version);
    ParsesStatusCode(msg, CodeAt(t), 0, r2, t.code, t.gap');
    ParsesReason(msg, CodeAt(t) + |t.code| + 1, 0, r2.(statusCode := Atoi(t.code)), t.reason);
  }

  // Every field comes back, on top of what an earlier response left behind.
  lemma ParsesText(before: Response, t: Raw)
    requires Good(t)
    ensures var p := Drive(RawText(t), 0, Parser(Start, 0, 0, before));
      p.phase == Complete && p.response == Meaning(before, t)
  {
    hide Drive, Step, At, Line, GoodLine, GoodRaw, Atoi;
    var msg, line := RawText(t), Line(t);
    WholeMessage(msg);
    AtSplits(msg, 0, line, RawLines(t.headers) + (CRLF + t.rest));
    AtSplits(msg, |line|, RawLines(t.headers), CRLF + t.rest);
    ParsesStatusLine(msg, before, t);
    var r := before.(protocol := t.protocol, version := t.version, statusCode := Atoi(t.code), statusMessage := t.reason);
    var c := ParsesHeaders(msg, |line|, 0, r, t.headers);
    ParsesBody(msg, |line| + |RawLines(t.headers)|, c, r.(headers := Meaning(before, t).headers), t.rest);
  }

  /// So are the printed ones.

  lemma GeneratedGood(r: Response)
    ensures GoodHeaders(Generated(r))
  {
  }

  // The response the parser should hand back, given what was there before.
  function Expected(before: Response, r: Response): Response {
    Response("HTTP", "1.1", LastWins(before.headers, Generated(r)) + r.headers,
             r.statusCode, r.statusMessage, r.body, before.close)
  }

  predicate Printable(r: Response) {
    && 0 <= r.statusCode && GoodReason(r.statusMessage)
    && forall k | k in r.headers :: GoodKey(k) && GoodValue(r.headers[k])
  }

  predicate IsInt(n: int) { -0x8000_0000 <= n < 0x8000_0000 }

  function Canonically(protocol: string, version: string, code: int, reason: string, hs: Headers, body: string): Raw {
    Raw(protocol, version, ' ', ToString(code), ' ', reason, Spaced(hs), body)
  }

  lemma PrintIsText(r: Response, order: seq<string>)
    requires Enumerates(order, r.headers)
    ensures Print(r, order) ==
      RawText(Canonically("HTTP", "1.1", r.statusCode, r.statusMessage, Generated(r) + Entries(r.headers, order), r.body))
  {
    hide ToString, HeaderLines, RawLines, Generated;
    SpacedLines(Generated(r) + Entries(r.headers, order));
    var tail := ToString(r.statusCode) + (" " + (r.statusMessage + CRLF));
    assert "HTTP/1.1 " + tail == "HTTP" + ("/" + ("1.1" + (" " + tail)));
  }

  lemma PrintedIsGood(code: int, reason: string, hs: Headers, body: string)
    requires 0 <= code && IsInt(code) && GoodReason(reason) && GoodHeaders(hs)
    ensures Good(Canonically("HTTP", "1.1", code, reason, hs, body)) && Atoi(ToString(code)) == code
    ensures Values(Spaced(hs)) == hs
  {
    hide GoodReason, GoodHeaders, GoodRaw;
    SpacedValues(hs);
    AtoiPadded("", code);
    assert "" + Decimal(code) == Decimal(code);
    assert Lead("HTTP") == 0;
  }

  // Printing and parsing again gives every field back.
  lemma ParsesPrinted(before: Response, r: Response, order: seq<string>)
    requires Enumerates(order, r.headers) && Printable(r) && IsInt(r.statusCode)
    ensures var p := Drive(Print(r, order), 0, Parser(Start, 0, 0, before));
      p.phase == Complete && p.response == Expected(before, r)
  {
    hide Drive, Print, RawText, GoodReason, GoodKey, GoodValue, LastWins, Good, Atoi, ToString;
    var gs, us := Generated(r), Entries(r.headers, order);
    GeneratedGood(r);
    PrintIsText(r, order);
    PrintedIsGood(r.statusCode, r.statusMessage, gs + us, r.body);
    ParsesText(before, Canonically("HTTP", "1.1", r.statusCode, r.statusMessage, gs + us, r.body));
    LastWinsJoin(before.headers, gs, us);
    EntriesMerge(LastWins(before.headers, gs), r.headers, order);
    assert (map k | k in order :: r.headers[k]) == r.headers;
  }
}
