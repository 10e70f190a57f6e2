/** webbench-1.5/webbench.c prints one request in build_request. */
module WebBench {
  import opened Wrappers
  import opened HttpText

  const MAXHOSTNAMELEN := 64
  const PORT_SIZE := 10

  datatype Verb = Get | Head | Options | Trace

  function Word(v: Verb): string {
    match v
    case Get => "GET"
    case Head => "HEAD"
    case Options => "OPTIONS"
    case Trace => "TRACE"
  }

  // http10 is 0 for HTTP/0.9, 1 for HTTP/1.0 and 2 for HTTP/1.1.
  datatype Config = Config(http10: int, verb: Verb, forceReload: bool, proxyhost: Option<string>)

  // Overrun is no exit of the source: it goes on outside one of its arrays.
  datatype Outcome = Ok | NotAUrl | TooLong | OnlyHttp | NoSlash | Overrun

  /// The C string functions.

  function Strstr(s: string, p: string, from: nat := 0): (r: Option<nat>)
    ensures r.Some? ==> from <= r.value && At(s, r.value, p)
    ensures forall j | from <= j && (r.Some? ==> j < r.value) :: !At(s, j, p)
    decreases |s| + 1 - from
  {
    if from > |s| then None else if At(s, from, p) then Some(from) else Strstr(s, p, from + 1)
  }

  // strchr, or the length where it finds nothing: strcspn.
  function Strcspn(s: string, c: char): (n: nat)
    ensures n <= |s| && (n < |s| ==> s[n] == c) && forall j | 0 <= j < n :: s[j] != c
  {
    if s == "" || s[0] == c then 0 else 1 + Strcspn(s[1..], c)
  }

  // What a char array holds as a string: the bytes before the first NUL.
  function CString(s: seq<char>): string {
    if s == [] || s[0] == '\0' then "" else [s[0]] + CString(s[1..])
  }

  // Without a NUL it is the whole array.
  lemma {:induction false} CStringIs(s: seq<char>, text: string)
    requires '\0' !in text && |text| <= |s| && s[..|text|] == text && (|text| < |s| ==> s[|text|] == '\0')
    ensures CString(s) == text
    decreases |text|
  {
    if text == "" {
    } else {
      assert text[0] == s[0] && s[1..][..|text| - 1] == text[1..];
      CStringIs(s[1..], text[1..]);
    }
  }

  predicate Zero(s: seq<char>) {
    forall k | 0 <= k < |s| :: s[k] == '\0'
  }

  // strncpy of a whole text into a zeroed array, stopped before its first write
  // outside.  A text as long as the array leaves no NUL in it.
  method Strncpy(dest: array<char>, src: string) returns (inside: bool)
    requires Zero(dest[..])
    modifies dest
    ensures inside <==> |src| <= dest.Length
    ensures inside && '\0' !in src ==> CString(dest[..]) == src && ('\0' in dest[..] <==> |src| < dest.Length)
  {
    var i := 0;
    while i < |src| && i < dest.Length
      invariant i <= |src| && i <= dest.Length && dest[..i] == src[..i] && Zero(dest[i..])
    {
      dest[i] := src[i];
      i := i + 1;
    }
    inside := i == |src|;
    if inside && '\0' !in src {
      assert src[..i] == src && dest[..][..i] == src;
      assert i < dest.Length ==> dest[i..][0] == '\0';
      CStringIs(dest[..], src);
    }
  }

  method Bzero(dest: array<char>)
    modifies dest
    ensures Zero(dest[..])
  {
    for i := 0 to dest.Length
      invariant Zero(dest[..i])
    {
      dest[i] := '\0';
    }
    assert dest[..] == dest[..dest.Length];
  }

  function ToLower(c: char): char {
    if IsUpper(c) then c + 32 as char else c
  }

  predicate IsHttp(url: string) {
    |url| >= 7 && forall k | 0 <= k < 7 :: ToLower(url[k]) == "http://"[k]
  }

  /// What is printed.

  // The version after the options that need a newer one were looked at.
  function Level(c: Config): int {
    if c.verb in {Options, Trace} && c.http10 < 2 then 2
    else if (c.verb == Head || (c.forceReload && c.proxyhost.Some?)) && c.http10 < 1 then 1
    else c.http10
  }

  // What follows the first "://".
  function AfterScheme(url: string): (rest: string)
    ensures |rest| <= |url|
  {
    var i := Strstr(url, "://");
    if i.Some? then url[i.value + 3..] else ""
  }

  function Authority(url: string): string {
    var rest := AfterScheme(url);
    rest[..Strcspn(rest, '/')]
  }

  function Path(url: string): (p: string)
    ensures |p| <= |url|
  {
    var rest := AfterScheme(url);
    rest[Strcspn(rest, '/')..]
  }

  function Host(url: string): string {
    Authority(url)[..Strcspn(Authority(url), ':')]
  }

  function PortText(url: string): string {
    var a := Authority(url);
    if Strcspn(a, ':') < |a| then a[Strcspn(a, ':') + 1..] else ""
  }

  function Port(url: string, default_: int): int {
    if Strcspn(Authority(url), ':') == |Authority(url)| then default_
    else if Atoi(PortText(url)) == 0 then 80 else Atoi(PortText(url))
  }

  function Check(c: Config, url: string): Outcome {
    if Strstr(url, "://").None? then NotAUrl
    else if |url| > 1500 then TooLong
    else if c.proxyhost.None? && !IsHttp(url) then OnlyHttp
    else if '/' !in AfterScheme(url) then NoSlash
    else Ok
  }

  // The host or the port is longer than its array, or fills it and is read
  // beyond it for want of a NUL: the host when headers are printed, the port
  // when no byte of it ends the number.
  predicate HostOverruns(c: Config, url: string) {
    |Host(url)| > MAXHOSTNAMELEN || (|Host(url)| == MAXHOSTNAMELEN && Level(c) > 0)
  }

  predicate PortOverruns(url: string) {
    |PortText(url)| > PORT_SIZE || (|PortText(url)| == PORT_SIZE && !AtoiStops(PortText(url)))
  }

  predicate Overruns(c: Config, url: string) {
    c.proxyhost.None? && (HostOverruns(c, url) || PortOverruns(url))
  }

  function Target(c: Config, url: string): string {
    if c.proxyhost.None? then Path(url) else url
  }

  function Maybe(b: bool, k: string, v: string): Headers {
    if b then [(k, v)] else []
  }

  function HeadersOf(c: Config, host: string): Headers {
    Maybe(true, "User-Agent", "WebBench 1.5")
    + Maybe(c.proxyhost.None?, "Host", host)
    + Maybe(c.forceReload && c.proxyhost.Some?, "Pragma", "no-cache")
    + Maybe(Level(c) > 1, "Connection", "close")
  }

  function VersionText(v: int): string {
    if v == 1 then " HTTP/1.0" else if v == 2 then " HTTP/1.1" else ""
  }

  function RequestText(c: Config, url: string): string {
    var line := Word(c.verb) + " " + Target(c, url) + VersionText(Level(c)) + CRLF;
    if Level(c) > 0 then line + HeaderLines(HeadersOf(c, Host(url))) + CRLF else line
  }

  class WebBench {
    var http10: int
    const verb: Verb
    const forceReload: bool
    const proxyhost: Option<string>
    var proxyport: int
    const host: array<char>
    var request: string

    constructor (c: Config, port: int)
      ensures View() == c && proxyport == port && host.Length == MAXHOSTNAMELEN && fresh(host)
    {
      http10, verb, forceReload, proxyhost := c.http10, c.verb, c.forceReload, c.proxyhost;
      proxyport, request := port, "";
      host := new char[MAXHOSTNAMELEN](_ => '\0');
    }

    function View(): Config
      reads this
    {
      Config(http10, verb, forceReload, proxyhost)
    }

    function HostText(): string
      reads host
    {
      CString(host[..])
    }

    // The version the options need, and the method.
    method BeginRequest()
      modifies this
      ensures http10 == Level(old(View())) && proxyport == old(proxyport)
      ensures request == Word(verb) + " "
    {
      request := "";
      if forceReload && proxyhost.Some? && http10 < 1 { http10 := 1; }
      if verb == Head && http10 < 1 { http10 := 1; }
      if verb == Options && http10 < 2 { http10 := 2; }
      if verb == Trace && http10 < 2 { http10 := 2; }
      match verb {
        case Get => request := "GET";
        case Head => request := "HEAD";
        case Options => request := "OPTIONS";
        case Trace => request := "TRACE";
      }
      request := request + " ";
    }

    // url is a C string.  An accepted one is either served or runs over an array,
    // exactly as its host and port tell; the request always fits its own.
    method BuildRequest(url: string) returns (outcome: Outcome)
      requires '\0' !in url && host.Length == MAXHOSTNAMELEN
      modifies this, host
      ensures outcome == if Check(old(View()), url) == Ok && Overruns(old(View()), url) then Overrun else Check(old(View()), url)
      ensures outcome == Ok ==>
        && request == RequestText(old(View()), url) && |request| < 2048
        && http10 == Level(old(View()))
        && (proxyhost.None? ==> HostText() == Host(url) && proxyport == Port(url, old(proxyport)))
        && (proxyhost.Some? ==> HostText() == "" && proxyport == old(proxyport))
    {
      hide Authority, Path, Host, PortText, Port, RequestText, Strcspn, Strstr, IsHttp, CString, PortOverruns;
      ghost var c := View();
      Bzero(host);
      BeginRequest();
      hide Word, Level;
      if Strstr(url, "://").None? {
        return NotAUrl;
      }
      if |url| > 1500 {
        return TooLong;
      }
      if proxyhost.None? {
        if !IsHttp(url) {
          return OnlyHttp;
        }
      }
      var rest := url[Strstr(url, "://").value + 3..];
      if '/' !in rest {
        return NoSlash;
      }
      if proxyhost.None? {
        var inside := SplitUrl(url, rest);
        if !inside {
          return Overrun;
        }
        request := request + rest[Strcspn(rest, '/')..];
      } else {
        EmptyString(host[..]);
        request := request + url;
      }
      RequestFits(c, url);
      var inside := AppendHeaders(c, url);
      outcome := if inside then Ok else Overrun;
    }

    // What follows the delimiter is cut into host, port and path.
    method SplitUrl(url: string, rest: string) returns (inside: bool)
      requires rest == AfterScheme(url) && '/' in rest && '\0' !in url
      requires Zero(host[..]) && host.Length == MAXHOSTNAMELEN
      modifies this`proxyport, host
      ensures inside <==> |Host(url)| <= MAXHOSTNAMELEN && !PortOverruns(url)
      ensures inside ==> HostText() == Host(url) && ('\0' in host[..] <==> |Host(url)| < MAXHOSTNAMELEN)
      ensures inside ==> proxyport == Port(url, old(proxyport))
      ensures Path(url) == rest[Strcspn(rest, '/')..]
    {
      hide AfterScheme, Atoi, AtoiStops, CString, Strcspn, Zero;
      var slash, colon := Strcspn(rest, '/'), Strcspn(rest, ':');
      ColonInAuthority(rest);
      PartsHaveNoNul(url);
      assert Authority(url) == rest[..slash];
      if colon < |rest| && colon < slash {
        assert rest[..colon] == Host(url);
        inside := Strncpy(host, rest[..colon]);
        if !inside { return; }
        var tmp := new char[PORT_SIZE];
        Bzero(tmp);
        assert rest[colon + 1..slash] == PortText(url);
        inside := Strncpy(tmp, rest[colon + 1..slash]);
        inside := inside && ('\0' in tmp[..] || AtoiStops(CString(tmp[..])));
        if !inside { return; }
        proxyport := Atoi(CString(tmp[..]));
        if proxyport == 0 { proxyport := 80; }
      } else {
        assert rest[..slash] == Host(url);
        inside := Strncpy(host, rest[..slash]);
      }
    }

    // The second half of the same function; it reads the host as far as a NUL.
    method AppendHeaders(ghost c: Config, ghost url: string) returns (inside: bool)
      requires http10 == Level(c) && c == Config(c.http10, verb, forceReload, proxyhost)
      requires proxyhost.None? ==> HostText() == Host(url)
      requires request == Word(verb) + " " + Target(c, url)
      modifies this`request
      ensures inside <==> proxyhost.None? && http10 > 0 ==> '\0' in host[..]
      ensures inside ==> request == RequestText(c, url)
    {
      hide Target, Host, HeadersOf, HeaderLines, CString;
      Literals(HostText());
      request := request + VersionText(http10);
      request := request + "\r\n";
      ghost var line := request;
      if http10 > 0 {
        request := request + "User-Agent: WebBench 1.5\r\n";
      }
      inside := true;
      if proxyhost.None? && http10 > 0 {
        inside := '\0' in host[..];
        if !inside { return; }
        request := request + ("Host: " + HostText() + "\r\n");
      }
      if forceReload && proxyhost.Some? {
        request := request + "Pragma: no-cache\r\n";
      }
      if http10 > 1 {
        request := request + "Connection: close\r\n";
      }
      if http10 > 0 {
        HeaderText(c, Host(url));
        Regroup(line, Lines(true, "User-Agent", "WebBench 1.5"), Lines(c.proxyhost.None?, "Host", Host(url)),
                Lines(c.forceReload && c.proxyhost.Some?, "Pragma", "no-cache"), Lines(Level(c) > 1, "Connection", "close"));
        request := request + "\r\n";
      }
    }
  }

  function Lines(b: bool, k: string, v: string): string {
    if b then HeaderLine(k, v) else ""
  }

  lemma Regroup(line: string, a: string, b: string, c: string, d: string)
    ensures line + a + b + c + d == line + (a + b + c + d)
    ensures line + "" == line && line + a + "" == line + a && line + a + b + "" == line + a + b && line + a + b + c + "" == line + a + b + c
  {
  }

  lemma Literals(host: string)
    ensures HeaderLine("User-Agent", "WebBench 1.5") == "User-Agent: WebBench 1.5\r\n"
    ensures HeaderLine("Host", host) == "Host: " + host + "\r\n"
    ensures HeaderLine("Pragma", "no-cache") == "Pragma: no-cache\r\n"
    ensures HeaderLine("Connection", "close") == "Connection: close\r\n"
  {
  }

  // The first ':' before the first '/' is the first ':' of what stands before it.
  lemma ColonInAuthority(rest: string)
    ensures var slash, colon := Strcspn(rest, '/'), Strcspn(rest, ':');
      Strcspn(rest[..slash], ':') == if colon < slash then colon else slash
  {
  }

  lemma HeaderLinesMaybe(b: bool, k: string, v: string)
    ensures HeaderLines(Maybe(b, k, v)) == Lines(b, k, v)
  {
  }

  // The appended lines, part by part.
  lemma HeaderText(c: Config, host: string)
    ensures HeaderLines(HeadersOf(c, host)) ==
      Lines(true, "User-Agent", "WebBench 1.5") + Lines(c.proxyhost.None?, "Host", host)
      + Lines(c.forceReload && c.proxyhost.Some?, "Pragma", "no-cache") + Lines(Level(c) > 1, "Connection", "close")
  {
    hide Maybe, HeaderLines, Level, Lines;
    var a, b := Maybe(true, "User-Agent", "WebBench 1.5"), Maybe(c.proxyhost.None?, "Host", host);
    var d, e := Maybe(c.forceReload && c.proxyhost.Some?, "Pragma", "no-cache"), Maybe(Level(c) > 1, "Connection", "close");
    HeaderLinesJoin(a + b + d, e);
    HeaderLinesJoin(a + b, d);
    HeaderLinesJoin(a, b);
    HeaderLinesMaybe(true, "User-Agent", "WebBench 1.5");
    HeaderLinesMaybe(c.proxyhost.None?, "Host", host);
    HeaderLinesMaybe(c.forceReload && c.proxyhost.Some?, "Pragma", "no-cache");
    HeaderLinesMaybe(Level(c) > 1, "Connection", "close");
  }

  lemma PartsFit(url: string)
    ensures |Host(url)| + |Path(url)| <= |url|
  {
    hide Strcspn, Strstr;
  }

  // Host and path together are no longer than the URL, so no accepted one
  // makes the request too long.
  lemma RequestFits(c: Config, url: string)
    requires |url| <= 1500
    ensures |RequestText(c, url)| < 2048
  {
    hide Host, HeadersOf, HeaderLines, Path, Level;
    PartsFit(url);
    HeaderText(c, Host(url));
  }

  lemma EmptyString(s: seq<char>)
    requires Zero(s)
    ensures CString(s) == ""
  {
  }

  lemma PartsHaveNoNul(url: string)
    requires '\0' !in url
    ensures '\0' !in Host(url) && '\0' !in PortText(url)
  {
    hide Strcspn, Strstr;
  }
}
