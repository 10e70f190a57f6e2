# NWTool, verified

NWTool is a C++ reactor network library with a vendored C++ linter. These
modules model its protocols, parsers and buffers in Dafny and prove what each
of them is for. `dafny verify dfyconfig.toml` checks everything.

## What is modelled

- **Bracket matching in cpplint** (`Brackets`, `BracketGrammar`,
  `ExpressionScanner`, `ScannerTheorems`, and for angles `AngleMatching`,
  `AngleTracking`, `AngleForward`, `AngleBackward`, `AngleTheorems`,
  `AngleRules`). The three matchers as methods with the loops of the source.
  `Brackets` is the reference: a typed stack that knows nothing of `<`, `>` and
  `;`, equal to a context-free grammar of nesting. From a real bracket all three
  matchers are that reference, so they agree with and undo one another. From a
  `<` or a `>` the two scanners undo one another where no rule of one direction
  only applies to an angle in between that stands outside every bracket,
  exactly when none applies at the ends.
- **The preprocessor stack in cpplint** (`Preprocessor`). Any effect of lines
  on the nesting stack, directives included, is a parameter. Reading a text
  equals reading the text with everything from the first `else` of each
  conditional up to its `endif` cut out, and every branch sees the stack it
  would see if it were the only one.
- **HTTP** (`HttpText`, `HttpResponse`, `HttpResponseLanguage`,
  `HttpResponseTheorems`, `HttpRequest`, `HttpRequestLanguage`,
  `HttpRequestTheorems`, `WebBench`, `WebBenchTheorems`). Input is a byte
  string with the NUL behind it, which the parsers read. Each parser is proved
  to complete on exactly the texts of a grammar, with the fields the grammar
  gives them. The responses and the requests that survive printing and parsing
  are characterised exactly; the requests of webbench are instances. The formats
  are those of sections 3 to 6 of RFC 9112.
- **Connection teardown** (`Teardown`, `TeardownTheorems`, `TeardownOrder`,
  `TeardownQuiet`, `TcpServer`).
  Main reactor, any number of sub-reactors, handlers, user code that keeps
  pointers, and a kernel that reuses descriptors, as one transition system
  with reference counts, which refines a plain pair of queues. The methods of
  `TcpServer` are its steps.
- **Timer queue** (`TimerQueue`, `TimerTheorems`, `TimerLateness`,
  `TimerRuns`). The ordered set, the one-shot descriptor with its 100
  microsecond clamp, callbacks that insert timers, repeats. Lateness is bounded
  over every run; the bound is reached; exactly which requests, outside and
  inside callbacks, keep the invariant and the bound is proved.
- **Event loop, thread pool, logger** (`EventLoop`, `ThreadPool`, `LogStream`,
  `LogFile`, `AsyncLogger`). Step relations with inductive invariants: exactly
  which runs lose a wakeup, exact order, conservation, ownership, and that
  draining ends.
- **Byte buffer and send path** (`Buffer`, `Connection`), **Base64**
  (`Base64`, `Base64Canonical`). Arrays updated in place, 32-bit wrap-around written out, against
  a queue, the stream of messages and section 4 of RFC 4648.

In the concurrent parts a step is what one thread does between two points
where another may interleave; a critical section is one step. Each class has a
`View` of its fields, each method's postcondition gives the new view as a
function of the old one, and the theorems are about all runs of those
functions.

## Where code and comments differ

- `src/Http/HttpContext.cpp:67-78` says a target starts with '/'. That state
  is never entered; any target is accepted, and the model accepts it.
- `src/Http/HttpContext.cpp:237` tests a header spelled "Content-Lenght". With
  the usual spelling the body is everything after the blank line.
- `src/Http/HttpContext.cpp:198` takes a value from two bytes after the colon,
  though section 5.1 of RFC 9112 makes the blank optional.

## Model

| member | source | states |
|---|---|---|
| Brackets.DirectionIrrelevant | build_support/cpplint.py:1744-1978 | A typed bracket stack run left to right from p closes at q exactly when one run right to left from q opens at p. |
| Brackets.MatchUnique | build_support/cpplint.py:1822-1978 | No bracket has two partners, in either direction. |
| BracketGrammar.MatchesIsNesting | build_support/cpplint.py:1744-1819 | What the stack matches is what a grammar calls a pair around a well-nested text: the stack is a fast form of the grammar, both ways. |
| ExpressionScanner.FindEndOfExpressionInLine | build_support/cpplint.py:1744-1819 | The in-place loop with its stack ends as the character-by-character definition says: found, hopeless, or stack for the next line. |
| ExpressionScanner.CloseExpression | build_support/cpplint.py:1822-1863 | The line loop returns the place `Close` defines, or the end of the file and -1. |
| ExpressionScanner.FindStartOfExpressionInLine | build_support/cpplint.py:1866-1940 | The same for the backward loop, including the skipped operator characters. |
| ExpressionScanner.ReverseCloseExpression | build_support/cpplint.py:1943-1978 | The backward line loop returns the place `ReverseClose` defines, or line 0 and -1. |
| ExpressionScanner.GetTextInside | build_support/cpplint.py:4891-4921 | The third matcher returns the text up to the one matching bracket, and nothing exactly when no bracket matches. |
| ScannerTheorems.SkippedIsNoBracket | build_support/cpplint.py:1888-1903 | The extra character the backward scanner skips is never a bracket. |
| ScannerTheorems.CloseIsPlainMatching | build_support/cpplint.py:1822-1863 | From '(', '[' or '{' over any lines, the end found is the typed match in the joined text, and none is found only when there is none. |
| ScannerTheorems.ReverseCloseIsPlainMatching | build_support/cpplint.py:1943-1978 | The same from a closing bracket backwards, though the heuristics differ. |
| ScannerTheorems.CloseThenReverse | build_support/cpplint.py:1822-1978 | Searching back from the end that was found returns to exactly the starting line and column. |
| ScannerTheorems.ReverseThenClose | build_support/cpplint.py:1822-1978 | And the converse. |
| ScannerTheorems.AnglesDoNotUndo | build_support/cpplint.py:1888-1898 | For '<' this can fail: a line where the forward match is not found again backwards. |
| AngleMatching.DirectionIrrelevant | build_support/cpplint.py:1744-1940 | Counting angles outside brackets left to right from p closes at q exactly when counting right to left from q opens at p. |
| AngleForward.ClosedMatches | build_support/cpplint.py:1822-1863 | From '<' over any lines, what the forward scan finds is such a match, where no character in between that stands outside every bracket reads differently backwards. |
| AngleForward.MatchClosed | build_support/cpplint.py:1822-1863 | And such a match is what it finds. |
| AngleBackward.OpenedMatches | build_support/cpplint.py:1943-1978 | From '>' the backward scan finds such a match, |
| AngleBackward.MatchOpened | build_support/cpplint.py:1943-1978 | and finds it whenever there is one. |
| AngleTheorems.AngleCloseThenReverse | build_support/cpplint.py:1822-1978 | For all lines: where no rule of one direction applies outside brackets from a '<' up to its end, that end leads back to the '<' if and only if the backward scanner does not skip it. |
| AngleTheorems.AngleReverseThenClose | build_support/cpplint.py:1822-1978 | Conversely, where none applies outside brackets behind what was found from a '>', that leads back to the '>' if and only if the backward scanner does not skip the '>' and what was found is no "operator<", "<<" or "<=". |
| AngleTheorems.ForwardIsBack | build_support/cpplint.py:1744-1940 | Which characters stand outside every bracket is the same seen from either end, so the condition does not depend on the direction. |
| AngleRules.RulesCanMislead | build_support/cpplint.py:1744-1940 | Each of the four rules in between can lead the way back elsewhere, shown on a line each, and need not, shown on a fifth. |
| AngleRules.OperatorExactly | build_support/cpplint.py:1770-1770 | The word operator is seen exactly at the end of a text, blanks aside, and not as the tail of another word. |
| AngleRules.SpacedGeExactly | build_support/cpplint.py:1894-1894 | The spaced ">=" is white space, ">=" and white space at the start of a text. |
| AngleRules.ShiftOrLeExactly | build_support/cpplint.py:1846-1846 | A shift or a comparison is a text that starts with "<<" or "<=". |
| ScannerTheorems.CheckGetTextInside | build_support/cpplint.py:4891-4921 | On one line the third matcher succeeds when the forward scanner does, with the same text. |
| Preprocessor.NestingState.UpdatePreprocessor | build_support/cpplint.py:2757-2811 | Each directive changes both stacks as specified: an else puts back the stack of before its if, an endif keeps that of the first branch, unmatched ones leave both alone. |
| Preprocessor.NestingState.Update | build_support/cpplint.py:2814-2837 | A line, directive or not, is first looked at as a directive and then has its own effect on the stack. |
| Preprocessor.KeptIsErased | build_support/cpplint.py:2757-2811 | At every point of any directive sequence the stack, or the one the outermost conditional past its else holds back, is the stack of the erased text so far. |
| Preprocessor.ErasureKeepsStack | build_support/cpplint.py:2757-2811 | Unless a conditional is left open after its else, the final stack is that of the erased text. |
| Preprocessor.NestedTextKeepsFirstBranches | build_support/cpplint.py:2757-2811 | For every properly nested text, at every depth, the stack is that of the opening lines, the first branches and the closing lines alone, and no saved state is left over. |
| Preprocessor.ReadsText | build_support/cpplint.py:2757-2811 | The same after any lines, nested or not, with the conditionals around the text left as they were. |
| Preprocessor.EveryBranchStartsOver | build_support/cpplint.py:2757-2811 | At every point inside any branch, at any depth and after any lines, the stack is that of the text before with the opening line and the earlier branches cut out. |
| HttpText.AtoiDecimal | src/Http/HttpResponseContext.cpp:88-88 | Reading back a printed non-negative int gives the number. |
| HttpText.AtoiWraps | src/Http/HttpResponseContext.cpp:88-88 | Beyond a long a number is cut off there, and what is left wraps to 32 bits. |
| HttpText.AtoiIgnoresSpace | src/Http/HttpResponseContext.cpp:88-88 | Each of the six white-space bytes in front of a number is skipped. |
| HttpText.AtoiReadsNoFurther | webbench-1.5/webbench.c:256-256 | Once a byte ends the number, what lies behind the text makes no difference to it. |
| HttpText.AtoiStopsExactly | webbench-1.5/webbench.c:254-256 | Of a text that can fill the ten bytes of the port, a byte ends the number if and only if a digit behind it makes no difference. |
| HttpResponses.HttpResponse.Message | src/Http/HttpResponse.cpp:73-94 | The appended message is the status line, the generated headers, the user's headers in map order, and the body. |
| HttpResponses.HttpResponse.AppendHeaders | src/Http/HttpResponse.cpp:86-88 | The loop appends exactly the lines of all map entries in order. |
| HttpResponses.HttpResponseContext.Parse | src/Http/HttpResponseContext.cpp:25-181 | The loop ends in the state and with the response that the byte-by-byte machine gives, reading the NUL too. |
| HttpResponses.HttpResponseContext.ReadByte | src/Http/HttpResponseContext.cpp:35-175 | The switch does to state, positions and response what one step of the machine does. |
| HttpResponses.ParsesText | src/Http/HttpResponseContext.cpp:25-181 | Every response text of the grammar, any protocol, version, code, blanks and raw header lines, is completed on with exactly its fields. |
| HttpResponseLanguage.AcceptsExactly | src/Http/HttpResponseContext.cpp:25-181 | For every byte string and context: the parser completes with a given response if and only if the bytes are a text of the grammar that means it. |
| HttpResponses.ParsesPrinted | src/Http/HttpResponseContext.cpp:25-181 | Every printable response comes back with all fields, on top of whatever an earlier response left in the context. |
| HttpResponseTheorems.CompletedIsPrintable | src/Http/HttpResponseContext.cpp:25-181 | Whatever the input, a completed parse has a protocol, a version, a reason and headers that could have been printed. |
| HttpResponseTheorems.NegativeCodeRejected | src/Http/HttpResponseContext.cpp:77-85 | A printed negative status code is rejected at its sign, whatever the protocol and version. |
| HttpResponseTheorems.FieldsSurviveExactly | src/Http/HttpResponseContext.cpp:25-181 | Printed with any protocol and version, in any order of the headers, all fields come back if and only if each is well formed and the code is not negative. |
| HttpResponseTheorems.RoundTripExactly | src/Http/HttpResponse.cpp:73-94 | On a fresh context a response survives printing and parsing if and only if its code is not negative, its reason has a non-blank byte and no CR after it, and its headers are well formed. |
| HttpResponseTheorems.EmptyReasonLost | src/Http/HttpResponseContext.cpp:99-113 | The empty reason phrase, which section 4 of RFC 9112 allows, does not survive. |
| HttpResponseTheorems.RoundTrip | src/Http/HttpResponse.cpp:73-94 | The same equivalence for the printer and the parser objects. |
| HttpResponseTheorems.RawHeader | src/Http/HttpResponseContext.cpp:122-130 | The byte after the colon is dropped whatever it is; with none there the value range is inverted and the parse ends. |
| HttpRequests.HttpContext.ParaseRequest | src/Http/HttpContext.cpp:31-275 | The loop ends in the state and with the request that the byte-by-byte machine gives. |
| HttpRequests.HttpContext.ReadByte | src/Http/HttpContext.cpp:40-269 | The switch does to state, positions and request what one step of the machine does. |
| HttpRequests.ParsesText | src/Http/HttpContext.cpp:31-275 | Every request text of the grammar, blanks or tabs and raw header lines, is completed on with exactly its fields, on top of what the context held. |
| HttpRequestLanguage.AcceptsExactly | src/Http/HttpContext.cpp:31-275 | For every byte string and context: the parser completes with a given request if and only if the bytes are a text of the grammar that means it. |
| HttpRequests.ParsesPrinted | src/Http/HttpContext.cpp:31-275 | Parsing the canonical print of any well-formed method, target, parameters, version, headers and body completes with the same fields and last-wins maps, on top of what the context held. |
| HttpRequestTheorems.CompletedIsPrintable | src/Http/HttpContext.cpp:31-275 | Whatever the input, a completed parse on a fresh context holds only fields that can be printed. |
| HttpRequestTheorems.RoundTripExactly | src/Http/HttpContext.cpp:31-275 | On a fresh context a request survives canonical printing, in any order of its maps, and parsing if and only if its method, target, parameters, protocol, version and headers are well formed and its body is not suppressed by the misspelled header. |
| HttpRequestTheorems.CanonicalFixpoint | src/Http/HttpContext.cpp:31-275 | Printing what was parsed, in any order of its maps, parses to the same request. |
| HttpRequestTheorems.BodyKept | src/Http/HttpContext.cpp:230-255 | Without a header spelled "Content-Lenght" the body always comes back; with one whose last value is a printed int, if and only if the body is empty or the int positive. |
| HttpRequestTheorems.ReusedContextKeepsHeaders | src/Http/HttpContext.cpp:20-22 | A context that was only reset still shows the headers of its earlier request. |
| WebBench.WebBench.BuildRequest | webbench-1.5/webbench.c:199-291 | Every error exit is taken exactly when specified; an accepted URL runs over an array exactly when its host or port is too long for its array, or fills it and is read past its end; otherwise request, host, port and version are as specified and the request fits its array. |
| WebBench.Strncpy | webbench-1.5/webbench.c:252-254 | Copied into a zeroed array a text is inside exactly when it is no longer than the array, and is then what the array holds, with a NUL behind it exactly when it is shorter. |
| WebBench.WebBench.SplitUrl | webbench-1.5/webbench.c:246-263 | Host, port and path are those of the URL, or an array is run over: by a host longer than 64 bytes, a port text longer than 10, or one of 10 in which nothing stops atoi. |
| WebBench.WebBench.AppendHeaders | webbench-1.5/webbench.c:269-289 | The appended lines are the version, the headers and the blank line as specified, or the host is read past its array, exactly when it is printed and has no NUL. |
| WebBench.RequestFits | webbench-1.5/webbench.c:199-291 | No accepted URL makes the request overflow its 2048 bytes. |
| WebBench.ColonInAuthority | webbench-1.5/webbench.c:247-249 | A colon counts as a port separator exactly when it stands before the first slash. |
| WebBenchTheorems.UrlParts | webbench-1.5/webbench.c:242-264 | For every scheme, host, optional port text and path, cutting the composed URL finds them again, a port read as 0 standing for 80. |
| WebBenchTheorems.NumberedPort | webbench-1.5/webbench.c:253-257 | A printed number is read as that port, and nothing in it stops atoi. |
| WebBenchTheorems.ExitsExactly | webbench-1.5/webbench.c:223-245 | A URL is rejected as none if and only if it has no "://"; cut at the first one, as too long beyond 1500 bytes, as foreign unless the scheme is http in any case or there is a proxy, as open when no slash follows. |
| WebBenchTheorems.LevelIsLeast | webbench-1.5/webbench.c:207-210 | The version is the lowest that is no lower than asked for, 1.0 for HEAD and for a reload through a proxy, 1.1 for OPTIONS and TRACE. |
| WebBenchTheorems.HeadersReceived | webbench-1.5/webbench.c:273-287 | The headers are User-Agent, Host without a proxy, Pragma for a reload through one, and Connection for 1.1, with the texts of the source. |
| WebBenchTheorems.AcceptedOverrunsExactly | webbench-1.5/webbench.c:228-260 | Every composed URL of at most 1500 bytes is accepted, and overruns if and only if its host has more than 64 bytes, or exactly 64 and headers are printed, or its port text has more than 10, or exactly 10 and nothing in it stops atoi. |
| WebBenchTheorems.TextIsCanonical | webbench-1.5/webbench.c:210-289 | The request printed for HTTP/1.0 and 1.1 is the canonical print of its fields. |
| WebBenchTheorems.ServerAccepts | webbench-1.5/webbench.c:199-291 | With or without proxy, HttpContext reads back exactly what was asked for. |
| WebBenchTheorems.Exchange | webbench-1.5/webbench.c:199-291 | The same for the printer and the parser objects, with the method words, versions and headers spelled out. |
| WebBenchTheorems.OldRequestNeverCompletes | webbench-1.5/webbench.c:268-289 | An HTTP/0.9 request whose target holds no blank is never completed by HttpContext. |
| Teardown.AcceptKeeps | src/NetWork/TcpServer.cpp:35-58 | Accepting on any descriptor that is not open keeps the invariant. |
| Teardown.RunMainKeeps | src/NetWork/TcpServer.cpp:65-74 | Erasing and queueing the destructor keeps the invariant; the assert holds. |
| Teardown.RunLoopKeeps | src/NetWork/TcpConnection.cpp:45-51 | So does ConnectionDestructor on the connection's own loop. |
| Teardown.DropKeeps | src/NetWork/TcpConnection.cpp:32-34 | So does dropping a pointer, the last one closing the descriptor. |
| Teardown.CloseKeeps | src/NetWork/TcpConnection.cpp:66-75 | So does HandleClose, called any number of times by any holder. |
| Teardown.TableEntryIsOpen | src/NetWork/TcpServer.cpp:50-50 | A descriptor in the connection map is open. |
| TeardownTheorems.RunKeeps | src/NetWork/TcpServer.cpp:35-74 | The invariant holds after every run. |
| TeardownTheorems.NeverOverwrites | src/NetWork/TcpServer.cpp:50-50 | In every reachable state a new connection finds no entry under its descriptor, however descriptors are reused. |
| TeardownTheorems.NumberedInTurn | src/NetWork/TcpServer.cpp:39-55 | In every run connection c has the c-th descriptor accepted, the id c % 999 + 1 and the loop c % loops. |
| TeardownOrder.TornInOrder | src/NetWork/TcpServer.cpp:61-74 | Over every run the lists of the reactors, the closed connections and the order of tearing down are those of two plain queues driven by the same steps. |
| TeardownTheorems.EraseFindsIt | src/NetWork/TcpServer.cpp:67-69 | The assert never fails, and what is erased is the very connection being closed. |
| TeardownTheorems.HolderCanClose | src/NetWork/TcpConnection.cpp:66-75 | Once nothing is being established, whoever has a connection at hand can close it on any thread, write to it and keep it, and any free descriptor can come next. |
| TeardownTheorems.TornOnce | src/NetWork/TcpServer.cpp:61-74 | Each connection is torn down at most once, only after HandleClose, and is in the map exactly until then. |
| TeardownTheorems.DestructorOnce | src/NetWork/TcpConnection.cpp:45-51 | ConnectionDestructor runs at most once for a connection, alive, on its own loop. |
| TeardownTheorems.ClosedAfterEpoll | src/NetWork/TcpConnection.cpp:32-51 | A descriptor is closed only after ConnectionDestructor, and its channel is still registered then if and only if it was registered again after it. |
| TeardownTheorems.EventsFindTheirConnection | src/NetWork/TcpConnection.cpp:36-51 | A polled event finds its connection alive and on its own loop, unless it was registered again after ConnectionDestructor. |
| TeardownTheorems.NothingLeaks | src/NetWork/TcpServer.cpp:35-74 | When nothing is pending, exactly the closed connections are destroyed and exactly the map's and other users' descriptors are open. |
| TeardownTheorems.LateExactly | src/NetWork/TcpConnection.cpp:132-139 | No connection was registered too late if and only if every EnableWrite came before ConnectionDestructor. |
| TeardownTheorems.SafeWhenWritesInTime | src/NetWork/TcpConnection.cpp:106-140 | With writes in time, the channel always leaves epoll before the descriptor is closed and no event reaches a destroyed connection. |
| TeardownTheorems.LateWriteDangles | src/NetWork/TcpConnection.cpp:132-139 | One write after ConnectionDestructor is enough to hand an event to a destroyed connection. |
| TeardownQuiet.StepEnds | src/NetWork/TcpServer.cpp:61-74 | Every step that only finishes what was begun leaves less to do. |
| TeardownQuiet.SomethingToFinish | src/NetWork/TcpServer.cpp:61-74 | Until the server is at rest such a step is possible. |
| TeardownQuiet.FinishingIsBounded | src/NetWork/TcpServer.cpp:61-74 | No schedule of such steps goes on for ever. |
| TeardownQuiet.TeardownEnds | src/NetWork/TcpServer.cpp:35-74 | From every reachable state a run without new connections, pointers or writes comes to rest with every closed connection destroyed. |
| TcpServers.TcpServer.HandleNewConnection | src/NetWork/TcpServer.cpp:35-58 | Entry, wrapped id, round-robin loop and the new connection, as the accept step. |
| TcpServers.TcpServer.ConnectionEstablished | src/NetWork/TcpConnection.cpp:36-40 | The first half of the function, as a step. |
| TcpServers.TcpServer.EnableRead | src/NetWork/TcpConnection.cpp:41-43 | The second half, after which the main thread's pointer is gone. |
| TcpServers.TcpServer.Reset | src/NetWork/TcpConnection.cpp:32-34 | The descriptor is closed exactly when no pointer is left. |
| TcpServers.TcpServer.DropPointer | src/NetWork/TcpConnection.cpp:32-34 | A handler or user code gives up a pointer. |
| TcpServers.TcpServer.EraseAndQueue | src/NetWork/TcpServer.cpp:65-74 | The entry is found, erased, and the destructor queued on the connection's loop. |
| TcpServers.TcpServer.HandleClose | src/NetWork/TcpConnection.cpp:66-75 | The first call starts the teardown, every later one does nothing. |
| TcpServers.TcpServer.PostClose | src/NetWork/TcpServer.cpp:61-63 | The close is handed over to the main reactor. |
| TcpServers.TcpServer.HandleCloseOnMain | src/NetWork/TcpServer.cpp:61-63 | On the main thread it runs at once. |
| TcpServers.TcpServer.RunMainFunctor | src/NetWork/TcpServer.cpp:65-74 | The main reactor runs the oldest posted close. |
| TcpServers.TcpServer.RunLoopFunctor | src/NetWork/TcpConnection.cpp:45-51 | A sub-reactor runs its oldest ConnectionDestructor. |
| TcpServers.TcpServer.HandleEvent | src/NetWork/TcpConnection.cpp:36-43 | The guard taken before the handlers keeps the connection alive, unless it was registered too late. |
| TcpServers.TcpServer.RegisterWrite | src/NetWork/TcpConnection.cpp:132-139 | EnableWrite registers the channel, even one that was deleted. |
| TimerQueues.AddTime | src/Timer/TimeStamp.h:71-91 | A delay that is not negative never leads into the past, fractions being dropped towards zero. |
| TimerTheorems.UnitsAre | src/Timer/TimeStamp.h:71-91 | A millisecond is 1000 microseconds, a second 1000000, a minute 60000000, an hour 3600000000, for whole and broken delays. |
| TimerTheorems.WholeMicroseconds | src/Timer/TimeStamp.h:71-91 | What is below a microsecond is dropped, towards zero. |
| TimerTheorems.WholeCounts | src/Timer/TimeStamp.h:71-91 | A whole count of any unit adds exactly that many microseconds, in either direction. |
| TimerTheorems.DelaysAreFuture | src/Event/EventLoop.cpp:111-118 | RunAfter and RunEvery with a delay that is not negative never ask for the past. |
| TimerQueues.TimerQueue.SetTimerFd | src/Timer/TimerQueue.cpp:84-98 | The descriptor is armed with the clamped difference, split into seconds and nanoseconds. |
| TimerQueues.TimerQueue.InsertTimer | src/Timer/TimerQueue.cpp:60-67 | The entry goes to its place, and the answer says whether it is the earliest. |
| TimerQueues.TimerQueue.Run | src/Timer/Timer.cpp:16-20 | The callback's requests are served, and the repeat flag is cleared exactly when it must be. |
| TimerQueues.TimerQueue.Reset | src/Timer/TimerQueue.cpp:68-83 | Repeating timers are inserted again and the descriptor is armed for the earliest. |
| TimerQueues.TimerQueue.Add | src/Timer/TimerQueue.cpp:52-67 | The timer is inserted in order, and the descriptor armed exactly when it is the earliest. |
| TimerQueues.TimerQueue.Handle | src/Timer/TimerQueue.cpp:39-83 | Due timers are taken out, run in order, repeated or not, and the descriptor armed, for any doings of the callbacks. |
| TimerTheorems.DeadlineIs | src/Timer/TimerQueue.cpp:84-98 | Split into seconds and nanoseconds, the descriptor expires at the expiration or 100 microseconds from now, whichever is later. |
| TimerTheorems.SplitIsValid | src/Timer/TimerQueue.cpp:84-98 | Seconds and nanoseconds are in range, together the whole difference, and never both zero, which would disarm. |
| TimerTheorems.RequestMakes | src/Event/EventLoop.cpp:106-119 | Each request makes one timer with the expiry it asks for, which repeats if and only if it is RunEvery with a positive delay, and inserts it. |
| TimerTheorems.RequestKeepsExactly | src/Timer/TimerQueue.cpp:52-67 | An insertion keeps the invariant if and only if it is not for the past, or not the earliest. |
| TimerLateness.UntimelyIsLate | src/Timer/TimerQueue.cpp:52-67 | Any other insertion fires more than 100 microseconds late, whatever follows. |
| TimerLateness.PunctualExactly | src/Timer/TimerQueue.cpp:39-98 | Over the otherwise timely continuations that fire it, all callbacks are in time if and only if the insertion was timely. |
| TimerLateness.FireKeepsExactly | src/Timer/TimerQueue.cpp:39-83 | Handling the descriptor keeps the invariant if and only if no callback asks for the past. |
| TimerLateness.StepKeepsExactly | src/Timer/TimerQueue.cpp:39-98 | So every step keeps it if and only if it is timely. |
| TimerTheorems.HandleReadKeeps | src/Timer/TimerQueue.cpp:39-83 | Handling the expired descriptor keeps the invariant. |
| TimerTheorems.NeverLate | src/Timer/TimerQueue.cpp:39-98 | In every run each callback starts strictly after its expiration and at most 100 microseconds after it. |
| TimerTheorems.NoStarvation | src/Timer/TimerQueue.cpp:39-98 | Whatever was inserted has fired once 100 microseconds have passed since its expiration. |
| TimerTheorems.ArmedAndConserved | src/Timer/TimerQueue.cpp:39-98 | A non-empty set is armed within 100 microseconds after its earliest key, each key is its timer's expiration, and nothing is lost or fired twice. |
| TimerTheorems.HandlingMovesOn | src/Timer/TimerQueue.cpp:68-83 | After handling, the descriptor is never due again at once. |
| TimerTheorems.FiredTimerComesBack | src/Timer/Timer.cpp:11-20 | A fired timer is inserted again, one interval from now, if and only if it repeats and its callback returned true. |
| TimerRuns.BoundIsReached | src/Timer/TimerQueue.cpp:39-51 | A run in which a callback is late by exactly 100 microseconds. |
| TimerRuns.PastRequestDelaysOthers | src/Timer/TimerQueue.cpp:52-67 | A run in which a request for the past makes another timer later than that. |
| EventLoops.StepKeepsExactly | src/Event/EventLoop.cpp:35-105 | A step keeps the invariant if and only if the owner does not queue before the loop with no wakeup on its way. |
| EventLoops.OrderKept | src/Event/EventLoop.cpp:35-105 | Every step, whoever queues where, keeps the order of the functors and a readable eventfd for its handler. |
| EventLoops.WakeupLostExactly | src/Event/EventLoop.cpp:35-96 | Over all runs: a loop in Poll has work to do and nothing on its way to wake it if and only if Poll never returned, no other thread queued and the owner did. |
| EventLoops.ExactOrder | src/Event/EventLoop.cpp:64-105 | In every run, executed, swapped out and queued functors together are those the steps queued, in that order; each functor of another thread is followed by one write; the eventfd is read only when readable. |
| EventLoops.WakeupsCounted | src/Event/EventLoop.cpp:64-105 | The counter is the number of writes since the last read, and the loop thread owes one exactly after queueing while functors run. |
| EventLoops.OnlyPollWaits | src/Event/EventLoop.cpp:35-105 | In every reachable state other threads can queue and write, and the loop thread can go on, except in Poll, which returns as soon as the counter is positive. |
| EventLoops.DrainsExactly | src/Event/EventLoop.cpp:35-105 | From every reachable Poll the loop and the threads on their way, with nobody else queueing and no other channel ending the wait, can finish everything the steps queued, if and only if no wakeup is lost. |
| EventLoops.QueuedTooEarly | src/Event/EventLoop.cpp:64-79 | Queued by the owner before the loop starts, a functor waits for somebody else. |
| EventLoops.EventLoop.QueueOneFunc | src/Event/EventLoop.cpp:64-79 | The functor goes to the end of the list, and a write follows exactly for other threads or inside functors. |
| EventLoops.EventLoop.Wakeup | src/Event/EventLoop.cpp:73-78 | The write makes the eventfd readable. |
| EventLoops.EventLoop.ReadWakeup | src/Event/EventLoop.cpp:98-105 | The read finds a positive counter and clears it. |
| EventLoops.EventLoop.SwapLists | src/Event/EventLoop.cpp:85-89 | The whole list is taken, and an empty one left. |
| EventLoops.EventLoop.RunNextFunctor | src/Event/EventLoop.cpp:81-96 | What runs next is what was queued next. |
| ThreadPools.StepKeeps | src/Thread/ThreadPool.cpp:4-34 | Every step of every interleaving keeps the invariant, spurious wakeups included. |
| ThreadPools.StartedInOrder | src/Thread/ThreadPool.h:37-59 | Tasks start in the order of the calls of Add before the stop, each once; each is queued, running or done, with multiplicity; each has one call of notify_one. |
| ThreadPools.NoLostWakeup | src/Thread/ThreadPool.cpp:9-17 | While a worker sleeps, each queued task has a worker awake or a notification on its way. |
| ThreadPools.OnlyTheWaitBlocks | src/Thread/ThreadPool.h:37-59 | Only a waiting worker is ever blocked: adding, notifying and the steps of workers awake are always possible. |
| ThreadPools.DestructorDrains | src/Thread/ThreadPool.cpp:24-34 | When the joins after notify_all return, what was added before the stop is exactly what is done, if and only if there is a worker or there was no task. |
| ThreadPools.JoinsComeNearer | src/Thread/ThreadPool.cpp:24-34 | After notify_all every worker step brings the joins nearer. |
| ThreadPools.SomebodyCanMove | src/Thread/ThreadPool.cpp:24-34 | Until they return, some worker can take a step. |
| ThreadPools.ThreadPool.AddTask | src/Thread/ThreadPool.h:37-59 | Work is accepted exactly before stop. |
| ThreadPools.ThreadPool.TakeTask | src/Thread/ThreadPool.cpp:9-17 | A worker waits, returns, or takes the oldest task, as the condition says. |
| ThreadPools.ThreadPool.NotifyOne | src/Thread/ThreadPool.h:57-57 | One waiting worker wakes, if there is one. |
| ThreadPools.ThreadPool.FinishTask | src/Thread/ThreadPool.cpp:18-18 | Its worker is free again and the finished work is recorded. |
| ThreadPools.ThreadPool.WakeAll | src/Thread/ThreadPool.cpp:29-29 | No worker is left waiting. |
| LogStream.FixedBuffer.Append | src/HooLog/LogStream.h:96-102 | The bytes are copied behind the content when they fit with one byte to spare, else nothing changes. |
| LogStream.FixedBuffer.Bzero | src/HooLog/LogStream.h:104-108 | The buffer is empty and all zero. |
| LogFiles.LogFile.Write | src/HooLog/LogFile.h:113-139 | Over any partial writes the file gets a prefix of the data, all of it when no write fails, and only then counts it. |
| LogFiles.LogFile.ReCurrentLog | src/HooLog/LogFile.h:147-163 | The current file becomes the last renamed one. |
| AsyncLoggers.StepKeeps | src/HooLog/AsyncLogger.h:47-137 | Every step keeps the ownership invariant, failing writes included. |
| AsyncLoggers.StepConservesExactly | src/HooLog/AsyncLogger.h:47-137 | A step adds to the stream exactly the message it accepts, if and only if its write does not fall short. |
| AsyncLoggers.NothingLost | src/HooLog/AsyncLogger.h:47-137 | Renamed files, current file, unwritten buffers, full buffers and current buffer are, in that order, the first content and every accepted message in lock order; with the cache a message is accepted exactly below 1024 bytes. |
| AsyncLoggers.WrittenInTheEnd | src/HooLog/AsyncLogger.h:97-136 | After every run without a stop, from the head of its loop, the writer alone can bring all accepted messages, in order, into the files. |
| AsyncLoggers.NeverNull | src/HooLog/AsyncLogger.h:50-136 | No buffer in use is ever null, the spare is missing exactly while there are full buffers, and the writer always has two empty ones at the head of its loop. |
| AsyncLoggers.RotatedFilesAreFull | src/HooLog/AsyncLogger.h:118-121 | Only files of at least 10 MB are renamed, and the check leaves less than that counted; while no write falls short the count is the size of the file. |
| AsyncLoggers.SecondMessageDropped | src/HooLog/AsyncLogger.h:47-60 | Without the cache a message is lost that an empty buffer would have held. |
| AsyncLoggers.LongMessageDropped | src/HooLog/AsyncLogger.h:62-80 | A message of 1024 bytes or more is dropped by an empty logger. |
| AsyncLoggers.AsyncLogger.AppendCached | src/HooLog/AsyncLogger.h:62-80 | A message goes behind the current text or into a fresh buffer. |
| AsyncLoggers.AsyncLogger.AppendUncached | src/HooLog/AsyncLogger.h:47-60 | The current buffer is pushed after every message. |
| AsyncLoggers.AsyncLogger.TestRunning | src/HooLog/AsyncLogger.h:97-97 | The loop is entered or left as the flag says, which may change before the lock is taken. |
| AsyncLoggers.AsyncLogger.Swap | src/HooLog/AsyncLogger.h:98-112 | Full and current buffers go to the writer, spare ones to the producers, stopped meanwhile or not. |
| AsyncLoggers.AsyncLogger.WriteActive | src/HooLog/AsyncLogger.h:114-116 | One buffer goes to the file, as far as the writes reach. |
| AsyncLoggers.AsyncLogger.Rotate | src/HooLog/AsyncLogger.h:118-121 | A full file is renamed and a new one begun. |
| AsyncLoggers.AsyncLogger.RecycleBuffers | src/HooLog/AsyncLogger.h:123-135 | The writer takes back two emptied buffers from those it wrote. |
| Base64.EncodeL | src/Util/base64.cpp:49-76 | For every input within the guard the lazy shift loop writes exactly the encoding of section 4 of RFC 4648 and a NUL inside the promised size, and nothing past it; otherwise it writes nothing. |
| Base64.RfcIsSextets | src/Util/base64.cpp:60-71 | The three-octet groups of the standard are the six-bit digits the loop emits, then padding, of length four for each started group of three. |
| Base64.EmittedIsSextet | src/Util/base64.cpp:65-68 | With a 32-bit accumulator that wraps, the shifted and masked digit is the right one. |
| Base64.Decode | src/Util/base64.cpp:22-41 | Until a NUL or '=' each completed octet is stored while there is room; any foreign character makes it -1. |
| Base64.DecodesToInput | src/Util/base64.cpp:22-76 | Decoding the standard's encoding gives the input back. |
| Base64.EncodeBase64 | src/Util/base64.cpp:82-95 | The string version gives the standard's text, or nothing beyond the guard. |
| Base64.DecodeBase64 | src/Util/base64.cpp:97-110 | The string version gives all completed octets, or nothing for a foreign character. |
| Base64.RoundTrip | src/Util/base64.cpp:82-110 | decodeBase64 undoes encodeBase64 for every byte string within the guard; the output size never truncates. |
| Base64.EncodingInjective | src/Util/base64.cpp:49-76 | Different inputs have different encodings. |
| Base64.LeftoverBitsIgnored | src/Util/base64.cpp:22-41 | The converse can fail: two texts decode to the same octet. |
| Base64Canonical.ConverseExactly | src/Util/base64.cpp:22-76 | Encoding gives a text back after decoding it if and only if it has no character left over, exactly the padding it needs and no bits behind the last octet. |
| Base64Canonical.ReEncode | src/Util/base64.cpp:82-110 | The same for the string versions and every text, foreign characters included. |
| Buffers.Buffer.EnsureWriteableBytes | src/Util/Buffer.cpp:120-133 | Compacting or growing makes room and keeps the content; compaction only ever moves left. |
| Buffers.Buffer.Append | src/Util/Buffer.cpp:50-54 | The message follows the content. |
| Buffers.Buffer.AppendPrepend | src/Util/Buffer.cpp:38-44 | The message precedes the content when there is room in front, else nothing changes. |
| Buffers.Buffer.Retrieve | src/Util/Buffer.cpp:75-85 | The first bytes leave and an emptied buffer starts over; a negative length, which the assert lets pass, moves the read index back. |
| Buffers.Buffer.RetrieveAll | src/Util/Buffer.cpp:87-90 | The buffer is empty and starts over. |
| Buffers.Buffer.RetrieveUntil | src/Util/Buffer.cpp:92-96 | The bytes up to a position leave, and the buffer never starts over; a position in front of the read index, which the assert lets pass, moves the index there. |
| Buffers.Buffer.RetrieveAsString | src/Util/Buffer.cpp:98-104 | What leaves is handed out. |
| Buffers.Buffer.RetrieveAllAsString | src/Util/Buffer.cpp:113-118 | So is everything. |
| Buffers.RefinesQueue | src/Util/Buffer.cpp:38-133 | Over every run the content equals that of a plain queue, with the indices in range. |
| Buffers.CapacityBound | src/Util/Buffer.cpp:50-133 | However long the run, the array never exceeds 1024 or 7 plus the longest append plus the most unread content. |
| Buffers.CapacityBoundReached | src/Util/Buffer.cpp:120-133 | A run in which it gets there. |
| Buffers.RoomIsThrifty | src/Util/Buffer.cpp:75-133 | Content moves only when there is no room behind it, the array grows only when there is not enough in all, and an emptied buffer starts over. |
| Connections.TcpConnection.Send | src/NetWork/TcpConnection.cpp:106-140 | A direct write only with nothing pending; the rest is kept and write interest registered. |
| Connections.TcpConnection.WriteNonBlocking | src/NetWork/TcpConnection.cpp:175-193 | What the kernel takes leaves the front of the buffer; after a hard error the byte in front of the content is pending again, or the read index has left the array. |
| Connections.StreamConserved | src/NetWork/TcpConnection.cpp:106-193 | Over every sequence of sends and writable events, as long as there is a byte in front of the content for each hard error, bytes taken and bytes pending are all messages in order if and only if no writable event with pending bytes ended in a hard error; pending bytes always imply write interest. |
| Connections.WriteInterestExactly | src/NetWork/TcpConnection.cpp:106-140 | Write interest is registered if and only if something has been left pending. |
| Connections.BytesCounted | src/NetWork/TcpConnection.cpp:106-193 | Each such hard error makes one byte too many. |
| Connections.StrayByteSent | src/NetWork/TcpConnection.cpp:175-193 | After any run with bytes pending, one hard error makes the next write send a byte nobody asked for. |
| Connections.EverythingSent | src/NetWork/TcpConnection.cpp:175-193 | Writable events that each take something run out of bytes within the number pending, and then every message has reached the kernel; until then the write interest that brings the next event is registered. |

## Left out

- Regular expressions of cpplint: ASCII character classes stand for `\s` and `\w`; the rest of cpplint and the two scripts around clang tools are not modelled.
- What a line does to the nesting stack after its directive was looked at is a parameter, a function of the line and the stack.
- Deep copies of the nesting stack in cpplint: saved stacks are values, so a stack item changed through an alias is not captured.
- The iteration order of `std::map`: a parameter of the printers, and the theorems hold for every order.
- Bytes are `char` values and `isblank`, `isupper`, `isdigit` are those of the C locale; sizes that do not fit an int are not considered.
- A parse of one message in pieces, and the exception of `std::string` for an inverted range: the latter ends the parse in a state of its own.
- HttpRequests.ParsesPrinted: the body is promised only where the misspelled header does not forbid it, because the source drops it there (see HttpRequestTheorems.BodyKept).
- TimerTheorems.NeverLate: one ideal clock, code that takes no time and a handler run at the instant the descriptor expires are assumed; requests are timely, which TimerLateness.PunctualExactly shows they must be.
- Timers with equal expirations are ordered by creation, not by address; microseconds are unbounded integers, and delays are reals, so floating-point rounding is not captured.
- Teardown assumes sub-reactors, a test and set in HandleClose that is one step, no close before a connection is established, and a successful accept; a failed one reaches the assert in HandleNewConnection with -1.
- The objects of the teardown are one table indexed by connection: `shared_ptr` is an index with the places that hold it, and the memory of a channel is not modelled.
- System calls (sockets, epoll, eventfd, timerfd, condition variables) are nondeterministic steps or parameters; epoll is level-triggered, and an eventfd counter never reaches its maximum.
- Buffers: lengths are at most what is readable, as the asserts demand. The runs of RefinesQueue take nothing from in front of the read index, and an access outside the array after more hard send errors than there are bytes in front of the content is not modelled.
- Functors that RunOneFunc calls at once on the loop's own thread take no part in the queueing order.
- Messages appended after the logger's last swap stay unwritten, as in the source; two rotations in one second, file names, directories and the layout of log lines are not modelled.
- Buffers of the logger are texts: reuse of the same memory is not captured beyond `bzero`.
- What webbench does once it has run over an array; the model stops there. What it does with a host of 64 bytes after build_request is not modelled.
- Acceptor, Connector, TcpClient, EventLoopThread, HttpServer, the benchmark loop of webbench and the auto-close timer.
