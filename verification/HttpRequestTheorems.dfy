/** What the request parser can ever hand back, and that printing it in
    canonical form and parsing again changes nothing. */
module HttpRequestTheorems {
  import opened HttpText
  import opened HttpRequests
  import opened HttpRequestLanguage

  predicate GoodParamMap(params: map<string, string>) {
    forall k | k in params :: GoodParamPart(k, '=') && GoodParamPart(params[k], '&')
  }

  lemma {:induction false} GoodParamsMerge(m: map<string, string>, ps: Headers)
    requires GoodParamMap(m) && GoodParams(ps)
    ensures GoodParamMap(LastWins(m, ps))
    decreases |ps|
  {
    hide GoodParamPart;
    if ps == [] {
    } else {
      GoodParamsMerge(m[ps[0].0 := ps[0].1], ps[1..]);
    }
  }

  // The request read from a whole message on a fresh context.
  function Parsed(msg: string): Parser {
    Drive(msg, 0, Parser(Start, 0, 0, NOTHING))
  }

  predicate Printable(r: Request) {
    && Capitals(r.method_) && GoodUrl(r.url) && GoodProtocol(r.protocol) && GoodVersion(r.version)
    && GoodParamMap(r.params) && GoodMap(r.headers) && (r.body == "" || ReadsBody(r.headers))
  }

  // Whatever the input, a completed parse holds only fields that can be printed.
  lemma CompletedIsPrintable(msg: string)
    requires Parsed(msg).phase == Complete
    ensures Printable(Parsed(msg).request)
  {
    hide Drive, RawText, ReadsBody, Capitals, GoodUrl, GoodProtocol, GoodVersion, LastWins;
    var t := TextFound(msg, NOTHING);
    ParsesText(NOTHING, t);
    GoodParamsMerge(map[], t.params);
    ValuesAreGood(t.headers);
    GoodHeadersMerge(map[], Values(t.headers));
  }

  function Canonical(r: Request, params: seq<string>, headers: seq<string>): string
    requires Enumerates(params, r.params) && Enumerates(headers, r.headers)
  {
    Print(r.method_, r.url, Entries(r.params, params), r.protocol, r.version, Entries(r.headers, headers), r.body)
  }

  lemma EntriesOfAll(m: map<string, string>, order: seq<string>)
    requires Enumerates(order, m)
    ensures LastWins(map[], Entries(m, order)) == m
  {
    EntriesMerge(map[], m, order);
    assert (map k | k in order :: m[k]) == m;
  }

  // On a fresh context a request survives exactly when it is printable.
  lemma RoundTripExactly(r: Request, params: seq<string>, headers: seq<string>)
    requires Enumerates(params, r.params) && Enumerates(headers, r.headers)
    ensures var p := Parsed(Canonical(r, params, headers));
      p.phase == Complete && p.request == r <==> Printable(r)
  {
    if Parsed(Canonical(r, params, headers)).phase == Complete {
      CompletedIsPrintable(Canonical(r, params, headers));
    }
    EntriesOfAll(r.params, params);
    EntriesOfAll(r.headers, headers);
    hide Drive, Print, LastWins, Capitals, GoodUrl, GoodProtocol, GoodVersion, GoodParamPart, GoodKey, GoodValue, ReadsBody;
    if Printable(r) {
      ParsesPrinted(NOTHING, r.method_, r.url, Entries(r.params, params), r.protocol, r.version,
                    Entries(r.headers, headers), r.body);
    }
  }

  // Printing what was parsed, in any order of its maps, parses to the same request.
  lemma CanonicalFixpoint(msg: string, params: seq<string>, headers: seq<string>)
    requires Parsed(msg).phase == Complete
    requires Enumerates(params, Parsed(msg).request.params) && Enumerates(headers, Parsed(msg).request.headers)
    ensures var again := Parsed(Canonical(Parsed(msg).request, params, headers));
      again.phase == Complete && again.request == Parsed(msg).request
  {
    hide Printable, Parsed, Canonical;
    CompletedIsPrintable(msg);
    RoundTripExactly(Parsed(msg).request, params, headers);
  }

  // Without the misspelled header the body comes back; with one, printed from a
  // number, exactly when it is empty or the number is positive.
  lemma BodyKept(m: string, url: string, ps: Headers, protocol: string, version: string, hs: Headers, body: string)
    requires Capitals(m) && GoodUrl(url) && GoodParams(ps) && GoodProtocol(protocol) && GoodVersion(version) && GoodHeaders(hs)
    ensures var p := Parsed(Print(m, url, ps, protocol, version, hs, body));
      && p.phase == Complete
      && ((forall i | 0 <= i < |hs| :: hs[i].0 != "Content-Lenght") ==> p.request.body == body)
      && forall k: nat, n: int |
           k < |hs| && hs[k] == ("Content-Lenght", ToString(n)) && -0x8000_0000 <= n < 0x8000_0000
           && (forall i | k < i < |hs| :: hs[i].0 != "Content-Lenght") ::
           p.request.body == body <==> body == "" || n > 0
  {
    hide Drive, Print, LastWins, Capitals, GoodUrl, GoodProtocol, GoodVersion, GoodParams, GoodHeaders, Atoi, ToString;
    ParsesPrinted(NOTHING, m, url, ps, protocol, version, hs, body);
    if forall i | 0 <= i < |hs| :: hs[i].0 != "Content-Lenght" { NotThere(map[], hs, "Content-Lenght"); }
    forall k: nat, n: int |
      k < |hs| && hs[k] == ("Content-Lenght", ToString(n)) && -0x8000_0000 <= n < 0x8000_0000
      && (forall i | k < i < |hs| :: hs[i].0 != "Content-Lenght")
      ensures ReadsBody(LastWins(map[], hs)) <==> n > 0
    {
      LastOne(map[], hs, k);
      AtoiToString(n);
    }
  }

  lemma {:induction false} NotThere(m: map<string, string>, hs: Headers, k: string)
    requires k !in m && forall i | 0 <= i < |hs| :: hs[i].0 != k
    ensures k !in LastWins(m, hs)
    decreases |hs|
  {
    if hs == [] {
    } else {
      NotThere(m[hs[0].0 := hs[0].1], hs[1..], k);
    }
  }

  lemma {:induction false} LastOne(m: map<string, string>, hs: Headers, k: nat)
    requires k < |hs| && forall i | k < i < |hs| :: hs[i].0 != hs[k].0
    ensures hs[k].0 in LastWins(m, hs) && LastWins(m, hs)[hs[k].0] == hs[k].1
    decreases k
  {
    if k == 0 {
      Untouched(m[hs[0].0 := hs[0].1], hs[1..], hs[0].0);
    } else {
      LastOne(m[hs[0].0 := hs[0].1], hs[1..], k - 1);
    }
  }

  // A context that is only reset keeps the headers of its earlier request.
  lemma ReusedContextKeepsHeaders(before: Request, m: string, url: string, ps: Headers, protocol: string, version: string,
                                  hs: Headers, body: string, k: string)
    requires Capitals(m) && GoodUrl(url) && GoodParams(ps) && GoodProtocol(protocol) && GoodVersion(version) && GoodHeaders(hs)
    requires k in before.headers && forall i | 0 <= i < |hs| :: hs[i].0 != k
    ensures var r := Drive(Print(m, url, ps, protocol, version, hs, body), 0, Parser(Start, 0, 0, before)).request;
      k in r.headers && r.headers[k] == before.headers[k]
  {
    hide Drive, Print, ReadsBody, Capitals, GoodUrl, GoodProtocol, GoodVersion, GoodParams, GoodHeaders;
    ParsesPrinted(before, m, url, ps, protocol, version, hs, body);
    Untouched(before.headers, hs, k);
  }

  lemma {:induction false} Untouched(m: map<string, string>, hs: Headers, k: string)
    requires k in m && forall i | 0 <= i < |hs| :: hs[i].0 != k
    ensures k in LastWins(m, hs) && LastWins(m, hs)[k] == m[k]
    decreases |hs|
  {
    if hs == [] {
    } else {
      Untouched(m[hs[0].0 := hs[0].1], hs[1..], k);
    }
  }
}
