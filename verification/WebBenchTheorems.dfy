/** What webbench prints is what HttpContext accepts. */
module WebBenchTheorems {
  import opened Wrappers
  import opened HttpText
  import opened HttpRequests
  import opened HttpRequestTheorems
  import opened WebBench

  function Number(c: Config): string {
    if Level(c) == 1 then "1.0" else "1.1"
  }

  lemma Appended(word: string, target: string, version: string, number: string, end: string)
    requires version == " " + ("HTTP/" + number)
    ensures word + " " + target + version + end == word + (" " + ((target + " ") + ("HTTP" + ("/" + (number + end)))))
  {
  }

  // The printed text is a canonical one.
  lemma TextIsCanonical(c: Config, url: string, u: string, ps: Headers)
    requires 1 <= Level(c) <= 2 && Target(c, url) + " " == TargetText(u, ps)
    ensures RequestText(c, url) == Print(Word(c.verb), u, ps, "HTTP", Number(c), HeadersOf(c, Host(url)), "")
  {
    hide Target, TargetText, HeadersOf, HeaderLines, RawLines, Host;
    assert VersionText(Level(c)) == " " + ("HTTP/" + Number(c)) by {
      assert " HTTP/1.0" == " " + ("HTTP/" + "1.0");
      assert " HTTP/1.1" == " " + ("HTTP/" + "1.1");
    }
    Appended(Word(c.verb), Target(c, url), VersionText(Level(c)), Number(c), CRLF);
    var hs := HeadersOf(c, Host(url));
    var t := Canonically(Word(c.verb), u, ps, "HTTP", Number(c), hs, "");
    SpacedLines(hs);
    assert Line(t) + HeaderLines(hs) + CRLF == Line(t) + (HeaderLines(hs) + (CRLF + ""));
  }

  lemma HeadersAreGood(c: Config, host: string)
    requires GoodValue(host)
    ensures GoodHeaders(HeadersOf(c, host))
  {
    hide Level;
    assert GoodKey("User-Agent") && GoodKey("Host") && GoodKey("Pragma") && GoodKey("Connection");
    assert GoodValue("WebBench 1.5") && GoodValue("no-cache") && GoodValue("close");
    hide GoodKey, GoodValue;
  }

  lemma PartsAreGood(c: Config)
    requires 1 <= Level(c) <= 2
    ensures Capitals(Word(c.verb)) && GoodProtocol("HTTP") && GoodVersion(Number(c))
  {
    hide Level;
    assert !IsBlank('H') && IsUpper('H');
    assert Lead(Word(c.verb)) == 0;
  }

  // A server built on HttpContext reads back what was asked for.
  lemma ServerAccepts(c: Config, url: string, u: string, ps: Headers)
    requires 1 <= Level(c) <= 2 && Target(c, url) + " " == TargetText(u, ps)
    requires GoodUrl(u) && GoodParams(ps) && GoodValue(Host(url))
    ensures Parsed(RequestText(c, url)).phase == Complete
    ensures Parsed(RequestText(c, url)).request ==
            Request(Word(c.verb), u, LastWins(map[], ps), "HTTP", Number(c), LastWins(map[], HeadersOf(c, Host(url))), "")
  {
    hide Target, TargetText, HeadersOf, Host, Word, Number, Level, GoodUrl, GoodParams, Capitals, GoodProtocol, GoodVersion,
         GoodHeaders, GoodValue, Drive, Print, RequestText, ReadsBody;
    TextIsCanonical(c, url, u, ps);
    PartsAreGood(c);
    HeadersAreGood(c, Host(url));
    ParsesPrinted(NOTHING, Word(c.verb), u, ps, "HTTP", Number(c), HeadersOf(c, Host(url)), "");
  }

  /// What a URL is cut into.

  function PortSuffix(port: Option<string>): string {
    match port
    case None => ""
    case Some(p) => ":" + p
  }

  function Url(scheme: string, host: string, port: Option<string>, path: string): string {
    scheme + ("://" + (host + PortSuffix(port) + path))
  }

  lemma {:induction false} CspnIs(a: string, b: string, c: char)
    requires c !in a && (b == "" || b[0] == c)
    ensures Strcspn(a + b, c) == |a|
  {
    if a == "" {
      assert a + b == b;
    } else {
      assert (a + b)[1..] == a[1..] + b;
      CspnIs(a[1..], b, c);
    }
  }

  lemma SchemeEnds(scheme: string, rest: string)
    requires ':' !in scheme
    ensures AfterScheme(scheme + ("://" + rest)) == rest && Strstr(scheme + ("://" + rest), "://").Some?
  {
    var url := scheme + ("://" + rest);
    assert url[|scheme|..|scheme| + 3] == "://";
    assert At(url, |scheme|, "://");
    forall j | 0 <= j < |scheme| ensures !At(url, j, "://") {
      assert url[j] == scheme[j];
      if At(url, j, "://") { AtChar(url, j, "://", 0); }
    }
  }

  lemma AuthorityParts(url: string, host: string, port: Option<string>, default_: int)
    requires ':' !in host && Authority(url) == host + PortSuffix(port)
    ensures Host(url) == host && PortText(url) == match port case None => "" case Some(p) => p
    ensures Port(url, default_) == match port case None => default_ case Some(p) => if Atoi(p) == 0 then 80 else Atoi(p)
  {
    hide Authority, Atoi, Strcspn;
    CspnIs(host, PortSuffix(port), ':');
    if port.Some? { assert PortText(url) == port.value; }
  }

  // Host, port and path are found again, port 0 standing for 80.
  lemma UrlParts(scheme: string, host: string, port: Option<string>, path: string, default_: int)
    requires ':' !in scheme && ':' !in host && '/' !in host && path != "" && path[0] == '/'
    requires port.Some? ==> '/' !in port.value
    ensures var url := Url(scheme, host, port, path);
      && Host(url) == host && Path(url) == path && AfterScheme(url) == host + PortSuffix(port) + path
      && PortText(url) == (match port case None => "" case Some(p) => p)
      && Port(url, default_) == match port case None => default_ case Some(p) => if Atoi(p) == 0 then 80 else Atoi(p)
  {
    hide AfterScheme, Host, Port, Strcspn, Atoi;
    var url, authority := Url(scheme, host, port, path), host + PortSuffix(port);
    SchemeEnds(scheme, authority + path);
    assert '/' !in authority;
    CspnIs(authority, path, '/');
    assert Authority(url) == authority;
    AuthorityParts(url, host, port, default_);
  }

  // The version is the lowest that is no lower than asked for and has what the
  // options need.
  lemma LevelIsLeast(c: Config, v: int)
    ensures Level(c) <= v <==>
      && c.http10 <= v
      && (c.verb == Options || c.verb == Trace ==> 2 <= v)
      && (c.verb == Head || (c.forceReload && c.proxyhost.Some?) ==> 1 <= v)
  {
  }

  function Optional(b: bool, k: string, v: string): map<string, string> {
    if b then map[k := v] else map[]
  }

  lemma HeadersReceived(c: Config, host: string)
    ensures LastWins(map[], HeadersOf(c, host)) ==
      map["User-Agent" := "WebBench 1.5"]
      + Optional(c.proxyhost.None?, "Host", host)
      + Optional(c.proxyhost.Some? && c.forceReload, "Pragma", "no-cache")
      + Optional(Level(c) >= 2, "Connection", "close")
  {
    hide Level, Maybe, LastWins, Optional;
    var a, b := Maybe(true, "User-Agent", "WebBench 1.5"), Maybe(c.proxyhost.None?, "Host", host);
    var d, e := Maybe(c.forceReload && c.proxyhost.Some?, "Pragma", "no-cache"), Maybe(Level(c) > 1, "Connection", "close");
    LastWinsJoin(map[], a + b + d, e);
    LastWinsJoin(map[], a + b, d);
    LastWinsJoin(map[], a, b);
    LastWinsMaybe(map[], true, "User-Agent", "WebBench 1.5");
    LastWinsMaybe(LastWins(map[], a), c.proxyhost.None?, "Host", host);
    LastWinsMaybe(LastWins(map[], a + b), c.forceReload && c.proxyhost.Some?, "Pragma", "no-cache");
    LastWinsMaybe(LastWins(map[], a + b + d), Level(c) > 1, "Connection", "close");
    Present("User-Agent", "WebBench 1.5");
  }

  lemma Present(k: string, v: string)
    ensures map[] + Optional(true, k, v) == map[k := v]
  {
  }

  lemma LastWinsMaybe(m: map<string, string>, b: bool, k: string, v: string)
    ensures LastWins(m, Maybe(b, k, v)) == m + Optional(b, k, v)
  {
  }

  // The printer and the parser together.
  method Exchange(bench: WebBench, url: string, u: string, ps: Headers) returns (complete: bool, received: Request)
    requires Check(bench.View(), url) == Ok && 1 <= Level(bench.View()) <= 2
    requires !Overruns(bench.View(), url) && '\0' !in url && bench.host.Length == MAXHOSTNAMELEN
    requires Target(bench.View(), url) + " " == TargetText(u, ps) && GoodUrl(u) && GoodParams(ps) && GoodValue(Host(url))
    modifies bench, bench.host
    ensures complete && received.url == u && received.params == LastWins(map[], ps) && received.body == ""
    ensures received.method_ ==
      match bench.verb case Get => "GET" case Head => "HEAD" case Options => "OPTIONS" case Trace => "TRACE"
    ensures received.protocol == "HTTP"
    ensures received.version == if old(bench.http10) == 2 || bench.verb == Options || bench.verb == Trace then "1.1" else "1.0"
    ensures received.headers ==
      map["User-Agent" := "WebBench 1.5"]
      + Optional(bench.proxyhost.None?, "Host", Host(url))
      + Optional(bench.proxyhost.Some? && bench.forceReload, "Pragma", "no-cache")
      + Optional(received.version == "1.1", "Connection", "close")
  {
    ghost var c := bench.View();
    LevelIsLeast(c, 1);
    LevelIsLeast(c, 0);
    HeadersReceived(c, Host(url));
    assert Number(c) == (if Level(c) == 1 then "1.0" else "1.1") && "1.0" != "1.1" by { assert "1.0"[2] != "1.1"[2]; }
    hide Check, Overruns, Target, Level, RequestText, Host, PortText, GoodUrl, GoodParams, GoodValue, HeadersOf, Number, Drive, Optional;
    ServerAccepts(c, url, u, ps);
    var outcome := bench.BuildRequest(url);
    var context := new HttpContext();
    complete := context.ParaseRequest(bench.request);
    received := context.request.View();
  }

  lemma HttpIsHttp(rest: string)
    ensures IsHttp("http" + ("://" + rest))
  {
    var url := "http" + ("://" + rest);
    assert url[0] == 'h' && url[1] == 't' && url[2] == 't' && url[3] == 'p' && url[4] == ':' && url[5] == '/' && url[6] == '/';
  }

  lemma SlashFound(a: string, path: string)
    requires path != "" && path[0] == '/'
    ensures '/' in a + path
  {
    assert (a + path)[|a|] == '/';
  }

  lemma HttpUrlAccepted(c: Config, rest: string)
    requires |"http" + ("://" + rest)| <= 1500 && '/' in rest
    ensures Check(c, "http" + ("://" + rest)) == Ok
  {
    hide AfterScheme, IsHttp, Strstr;
    SchemeEnds("http", rest);
    HttpIsHttp(rest);
  }

  lemma DigitsOnly(n: nat)
    ensures '/' !in Decimal(n) && !AtoiStops(Decimal(n))
  {
    var s := Decimal(n);
    assert IsDigit(s[0]) && SkipSpace(s) == s;
  }

  // A printed number is read as that number.
  lemma NumberedPort(scheme: string, host: string, n: nat, path: string, default_: int)
    requires ':' !in scheme && ':' !in host && '/' !in host && path != "" && path[0] == '/' && n < 0x8000_0000
    ensures '/' !in Decimal(n) && !AtoiStops(Decimal(n))
    ensures Port(Url(scheme, host, Some(Decimal(n)), path), default_) == if n == 0 then 80 else n
  {
    hide *;
    DigitsOnly(n);
    UrlParts(scheme, host, Some(Decimal(n)), path, default_);
    AtoiDecimal(n);
  }

  predicate HttpScheme(s: string) {
    |s| == 4 && s[0] in "hH" && s[1] in "tT" && s[2] in "tT" && s[3] in "pP"
  }

  lemma {:induction false} FirstDelimiter(a: string, b: string)
    requires forall j | 0 <= j < |a| :: !At(a + ("://" + b), j, "://")
    ensures Strstr(a + ("://" + b), "://") == Some(|a|) && AfterScheme(a + ("://" + b)) == b
  {
    hide Strstr, At;
    DelimiterAt(a, b);
    var r := Strstr(a + ("://" + b), "://");
    assert r.Some? && At(a + ("://" + b), r.value, "://");
  }

  lemma DelimiterAt(a: string, b: string)
    ensures var url := a + ("://" + b); At(url, |a|, "://") && |a| + 3 <= |url| && url[|a| + 3..] == b
  {
    var url := a + ("://" + b);
    assert url[|a|..|a| + 3] == "://";
  }

  lemma SchemeIs(a: string, b: string)
    requires forall j | 0 <= j < |a| :: !At(a + ("://" + b), j, "://")
    ensures IsHttp(a + ("://" + b)) <==> HttpScheme(a)
  {
    var url, h := a + ("://" + b), "http://";
    assert url[|a|..|a| + 3] == "://";
    assert url[|a|] == ':' && url[|a| + 1] == '/' && url[|a| + 2] == '/';
    assert forall k | 0 <= k < |a| :: url[k] == a[k];
    assert h[0] == 'h' && h[1] == 't' && h[2] == 't' && h[3] == 'p' && h[4] == ':' && h[5] == '/' && h[6] == '/';
    if IsHttp(url) {
      LetterCase(url[0], 'h');
      LetterCase(url[1], 't');
      LetterCase(url[2], 't');
      LetterCase(url[3], 'p');
      LetterCase(url[4], ':');
      LetterCase(url[5], '/');
      LetterCase(url[6], '/');
      assert url[4..7] == "://";
      assert At(url, 4, "://");
    }
  }

  lemma LetterCase(c: char, lower: char)
    requires ToLower(c) == lower
    ensures c == lower || ('a' <= lower <= 'z' && c as int == lower as int - 32)
  {
  }

  // Which URLs are turned away, and how: those without a delimiter, and of the
  // others, cut at the first one, the too long, those of another protocol
  // without a proxy to speak it, and those whose host does not end.
  lemma ExitsExactly(c: Config, url: string)
    ensures Check(c, url) == NotAUrl <==> forall j :: !At(url, j, "://")
    ensures forall a, b | url == a + ("://" + b) && (forall j | 0 <= j < |a| :: !At(url, j, "://")) ::
      Check(c, url) ==
        if |url| > 1500 then TooLong
        else if c.proxyhost.None? && !HttpScheme(a) then OnlyHttp
        else if '/' !in b then NoSlash
        else Ok
  {
    forall a, b | url == a + ("://" + b) && (forall j | 0 <= j < |a| :: !At(url, j, "://"))
      ensures Strstr(url, "://").Some? && AfterScheme(url) == b && (IsHttp(url) <==> HttpScheme(a))
    {
      FirstDelimiter(a, b);
      SchemeIs(a, b);
    }
  }

  // Without a proxy every such URL of at most 1500 bytes is accepted; its host
  // and its port alone decide whether an array is run over.
  lemma AcceptedOverrunsExactly(c: Config, host: string, port: Option<string>, path: string)
    requires c.proxyhost.None? && ':' !in host && '/' !in host && path != "" && path[0] == '/'
    requires (port.Some? ==> '/' !in port.value) && |Url("http", host, port, path)| <= 1500
    ensures var url := Url("http", host, port, path);
      && Check(c, url) == Ok
      && (Overruns(c, url) <==>
          || |host| > 64 || (|host| == 64 && Level(c) > 0)
          || (port.Some? && (|port.value| > 10 || (|port.value| == 10 && !AtoiStops(port.value)))))
  {
    hide Host, PortText, AfterScheme, IsHttp, Strstr, PortSuffix, Check, Path, Port, AtoiStops, Level;
    UrlParts("http", host, port, path, 80);
    SlashFound(host + PortSuffix(port), path);
    HttpUrlAccepted(c, host + PortSuffix(port) + path);
  }

  /// HTTP/0.9 has no version and no headers.

  predicate InTarget(p: Phase) {
    p in {InUrl, BeforeParamKey, ParamKey, BeforeParamValue, ParamValue, Invalid}
  }

  lemma {:induction false} StaysInTarget(msg: string, i: nat, p: Parser)
    requires InTarget(p.phase) && forall k | i <= k < |msg| :: !IsBlank(msg[k])
    ensures InTarget(Drive(msg, i, p).phase)
    decreases |msg| + 1 - i
  {
    hide Slice;
    if Done(p.phase) || i > |msg| {
    } else {
      StaysInTarget(msg, i + 1, Step(msg, i, p));
    }
  }

  lemma GetIsGood()
    ensures Capitals("GET")
  {
  }

  lemma OldText(c: Config, url: string)
    requires Level(c) == 0
    ensures RequestText(c, url) == "GET" + (" " + (Target(c, url) + CRLF))
  {
  }

  // Without a version the parser waits for a blank that never comes.
  lemma OldRequestNeverCompletes(c: Config, url: string)
    requires Level(c) == 0 && forall k | 0 <= k < |Target(c, url)| :: !IsBlank(Target(c, url)[k])
    ensures Parsed(RequestText(c, url)).phase != Complete
  {
    hide Target, Drive, At, Step;
    var msg, tail := RequestText(c, url), Target(c, url) + CRLF;
    OldText(c, url);
    GetIsGood();
    hide RequestText, Level, Capitals;
    WholeMessage(msg);
    AtSplits(msg, 0, "GET", " " + tail);
    AtSplits(msg, 3, " ", tail);
    ParsesMethod(msg, NOTHING, "GET", ' ');
    assert forall k | 4 <= k < |msg| :: msg[k] == tail[k - 4];
    StaysInTarget(msg, 4, Parser(InUrl, 4, 0, NOTHING.(method_ := "GET")));
  }
}
