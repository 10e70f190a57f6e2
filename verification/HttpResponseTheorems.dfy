/** What the response parser can ever hand back, hence exactly which responses
    survive printing and parsing. */
module HttpResponseTheorems {
  import opened HttpText
  import opened HttpResponses
  import opened HttpResponseLanguage

  const FRESH := Response("", "", map[], 1, "", "", false)

  // Whatever the input, a completed parse holds only what could have been printed.
  lemma CompletedIsPrintable(msg: string)
    ensures var p := Drive(msg, 0, Parser(Start, 0, 0, FRESH));
      p.phase == Complete ==>
        && Capitals(p.response.protocol) && GoodVersion(p.response.version)
        && GoodReason(p.response.statusMessage) && GoodMap(p.response.headers)
  {
    hide Drive, RawText, Capitals, GoodVersion, GoodCode, GoodReason, LastWins, Atoi;
    if Completes(msg, 0, Parser(Start, 0, 0, FRESH)) {
      var t := TextFound(msg, FRESH);
      ParsesText(FRESH, t);
      ValuesAreGood(t.headers);
      GoodHeadersMerge(map[], Values(t.headers));
    }
  }

  // A negative status code stops the parser at its sign.
  lemma NegativeCodeRejected(t: Raw, code: int)
    requires Capitals(t.protocol) && GoodVersion(t.version) && Gap(t.gap) && t.code == ToString(code) && code < 0
    ensures Drive(RawText(t), 0, Parser(Start, 0, 0, FRESH)).phase == Invalid
  {
    hide Drive, At, Line, Capitals, GoodVersion, Gap, RawLines;
    var msg, n := RawText(t), |t.protocol| + 1;
    WholeMessage(msg);
    AtSplits(msg, 0, Line(t), RawLines(t.headers) + (CRLF + t.rest));
    LineParts(msg, t);
    AtChar(msg, CodeAt(t), t.code, 0);
    ParsesProtocol(msg, FRESH, t.protocol);
    ParsesVersion(msg, n, 0, FRESH.(protocol := t.protocol), t.version, t.gap);
    Slices(msg, CodeAt(t), t.code);
    NegativeStops(msg, CodeAt(t), Parser(BeforeStatusCode, CodeAt(t), 0, FRESH.(protocol := t.protocol, version := t.version)));
  }

  lemma NegativeStops(msg: string, i: nat, p: Parser)
    requires i <= |msg| && p.phase == BeforeStatusCode && CharAt(msg, i) == '-'
    ensures Drive(msg, i, p).phase == Invalid
  {
  }

  // Any protocol and version, as another program may print them: every field
  // comes back exactly when each is well formed and the code is not negative.
  lemma FieldsSurviveExactly(r: Response, order: seq<string>)
    requires Enumerates(order, r.headers) && IsInt(r.statusCode)
    ensures var t := Canonically(r.protocol, r.version, r.statusCode, r.statusMessage, Entries(r.headers, order), r.body);
      var p := Drive(RawText(t), 0, Parser(Start, 0, 0, FRESH));
      p.phase == Complete && p.response == r.(close := false) <==>
      Capitals(r.protocol) && GoodVersion(r.version) && r.statusCode >= 0 && GoodReason(r.statusMessage) && GoodMap(r.headers)
  {
    hide Drive, RawText, Capitals, GoodVersion, GoodReason, GoodKey, GoodValue, LastWins, Atoi, ToString, GoodRaw;
    var hs := Entries(r.headers, order);
    var t := Canonically(r.protocol, r.version, r.statusCode, r.statusMessage, hs, r.body);
    CompletedIsPrintable(RawText(t));
    EntriesMerge(map[], r.headers, order);
    assert (map k | k in order :: r.headers[k]) == r.headers;
    if Capitals(r.protocol) && GoodVersion(r.version) {
      if r.statusCode < 0 {
        NegativeCodeRejected(t, r.statusCode);
      } else if GoodReason(r.statusMessage) && GoodMap(r.headers) {
        SpacedValues(hs);
        PrintedIsGood(r.statusCode, r.statusMessage, hs, r.body);
        ParsesText(FRESH, t);
      }
    }
  }

  lemma SurvivorIsPrintable(r: Response, order: seq<string>)
    requires Enumerates(order, r.headers)
    requires var p := Drive(Print(r, order), 0, Parser(Start, 0, 0, FRESH));
      p.phase == Complete && p.response == Expected(FRESH, r)
    ensures Printable(r)
  {
    hide Drive, Print, RawText, GoodReason, GoodKey, GoodValue, Capitals, GoodVersion, ToString;
    var msg := Print(r, order);
    CompletedIsPrintable(msg);
    PrintIsText(r, order);
    if r.statusCode < 0 {
      var hs := Generated(r) + Entries(r.headers, order);
      NegativeCodeRejected(Canonically("HTTP", "1.1", r.statusCode, r.statusMessage, hs, r.body), r.statusCode);
    }
    var h := Drive(msg, 0, Parser(Start, 0, 0, FRESH)).response.headers;
    assert forall k | k in r.headers :: k in h && h[k] == r.headers[k];
  }

  // On a fresh context a response survives exactly when it is printable.
  lemma RoundTripExactly(r: Response, order: seq<string>)
    requires Enumerates(order, r.headers) && IsInt(r.statusCode)
    ensures var p := Drive(Print(r, order), 0, Parser(Start, 0, 0, FRESH));
      p.phase == Complete && p.response == Expected(FRESH, r) <==> Printable(r)
  {
    var p := Drive(Print(r, order), 0, Parser(Start, 0, 0, FRESH));
    if Printable(r) { ParsesPrinted(FRESH, r, order); }
    if p.phase == Complete && p.response == Expected(FRESH, r) { SurvivorIsPrintable(r, order); }
  }

  // The empty reason phrase that section 4 of RFC 9112 allows does not survive.
  lemma EmptyReasonLost(order: seq<string>)
    requires Enumerates(order, map[])
    ensures var r := FRESH.(statusCode := 200);
      var p := Drive(Print(r, order), 0, Parser(Start, 0, 0, FRESH));
      !(p.phase == Complete && p.response == Expected(FRESH, r))
  {
    RoundTripExactly(FRESH.(statusCode := 200), order);
  }

  // The printer parser pair on objects.
  method RoundTrip(response: HttpResponse, order: seq<string>) returns (complete: bool, parsed: Response)
    requires Enumerates(order, response.headers) && IsInt(response.statusCode)
    ensures complete && parsed == Expected(FRESH, response.View()) <==> Printable(response.View())
  {
    ghost var r := response.View();
    var message := response.Message(order);
    var context := new HttpResponseContext();
    complete := context.Parse(message);
    parsed := context.response.View();
    RoundTripExactly(r, order);
  }

  /// A header line as it may come from elsewhere: key, colon, anything up to CR.

  // The byte after the colon is dropped whatever it is; with none the parser throws.
  lemma RawHeader(msg: string, i: nat, c: nat, r: Response, k: string, raw: string)
    requires At(msg, i, k) && At(msg, i + |k|, ":") && At(msg, i + |k| + 1, raw) && At(msg, i + |k| + 1 + |raw|, CRLF)
    requires GoodKey(k) && GoodValue(raw)
    ensures var n, e := i + |k| + 1 + |raw| + 2, i + |k| + 1 + |raw|;
      Drive(msg, i, Parser(CrLf, i, c, r)) ==
      if raw == "" then Parser(Thrown, i, i + |k|, r)
      else Drive(msg, n, Parser(CrLf, n, i + |k|, r.(headers := r.headers[k := raw[1..]])))
  {
    hide Drive, At, GoodValue;
    var colon, e := i + |k|, i + |k| + 1 + |raw|;
    Slices(msg, i, k);
    Slices(msg, colon, ":");
    Slices(msg, colon + 1, raw);
    Slices(msg, e, CRLF);
    var p, q := Parser(HeaderKey, i, c, r), Parser(HeaderValue, i, colon, r);
    Token(msg, i, i, Parser(CrLf, i, c, r), p);
    Token(msg, i + 1, colon, p, q);
    forall m | colon + 1 <= m < e ensures Step(msg, m, q) == q { ValueChar(raw, m - (colon + 1)); }
    if raw == "" {
      Token(msg, e, e, q, q.(phase := Thrown));
      DoneStays(msg, e + 1, q.(phase := Thrown));
    } else {
      assert Slice(msg, colon + 2, e) == raw[1..];
      var r' := r.(headers := r.headers[k := raw[1..]]);
      Token(msg, colon + 1, e, q, Parser(WhenCr, e + 1, colon, r'));
      ParsesLineEnd(msg, e, colon, r');
    }
  }
}
