/** The limit on the size of the headers, for whole messages. */
module HttpLimit {
  import opened HttpTypes
  import opened HttpAutomaton
  import opened HttpScan
  import opened HttpRuns
  import opened HttpInvariant
  import opened HttpPieces
  import opened HttpFragments
  import opened HttpExecute
  import opened HttpLength
  import opened HttpNread
  import opened HttpReads
  import opened HttpNames
  import opened HttpValues
  import opened HttpHeaders
  import opened HttpRequestLine
  import opened HttpBodies
  import opened HttpChunks
  import opened HttpText
  import opened HttpRequestBuilders
  import opened HttpResponseBuilders
  import opened HttpSender

  // ---------------------------------------------------------------- nread counts the head

  lemma ApplyCounts(sc: Scan, o: Outcome, ch: char)
    ensures Apply(sc, o, ch).p.nread == o.p.nread && sc.out <= Apply(sc, o, ch).out
  {
  }

  /** A byte adds at most one, and callbacks are only added. */
  lemma TripsCount(sc: Scan, ch: char)
    ensures Trips(sc, ch).p.nread <= sc.p.nread && sc.out <= Trips(sc, ch).out
    decreases Rank(sc.p.state)
  {
    hide Dispatch, Apply, IsBulk, MayHoldMark, Rank;
    var o := Dispatch(sc.p, ch, sc.skip);
    assert Descends(sc.p, o);
    ApplyCounts(sc, o, ch);
    if Apply(sc, o, ch).p.errno.OK? && o.ctl.Again? {
      ApplyFrame(sc, o, ch);
      TripsCount(Apply(sc, o, ch), ch);
    }
  }

  lemma {:induction false} ScanCounts(sc: Scan, s: string)
    ensures ScanAll(sc, s).p.nread <= sc.p.nread + |s| && sc.out <= ScanAll(sc, s).out
  {
    hide Trips;
    if s != "" {
      ScanCounts(sc, s[..|s| - 1]);
      var sc' := ScanAll(sc, s[..|s| - 1]);
      if Live(sc') { TripsCount(sc'.(p := Count(sc'.p)), s[|s| - 1]); }
    }
  }

  /** The states from the start of a message to the end of its headers. */
  predicate InHead(p: Parser) { (!NearBody(p.state) || p.state.HeadersAlmostDone?) && !p.flags.trailing }

  /** The callbacks of a head: no headers are complete yet. */
  predicate HeadOnly(out: seq<Event>) { forall i | 0 <= i < |out| :: out[i].MessageBegin? || out[i].Data? }

  lemma HeadOnlyPrefix(a: seq<Event>, b: seq<Event>)
    requires a <= b && HeadOnly(b)
    ensures HeadOnly(a)
  {
    forall i | 0 <= i < |a| ensures a[i].MessageBegin? || a[i].Data? { assert a[i] == b[i]; }
  }

  lemma AlmostDoneTrip(p: Parser, ch: char)
    requires p.state.HeadersAlmostDone? && !p.flags.trailing
    ensures var o := DispatchHeadersDone(p, ch);
            o.p.errno.OK? ==> |o.events| == 1 && o.events[0].HeadersComplete?
  {
    hide Descends;
  }

  lemma ApplyHead(sc: Scan, o: Outcome, ch: char)
    requires HeadOnly(sc.out)
    ensures o.events == [] || o.events == [MessageBegin] ==> HeadOnly(Apply(sc, o, ch).out)
    ensures |o.events| == 1 && o.events[0].HeadersComplete? ==> !HeadOnly(Apply(sc, o, ch).out)
  {
    var out := CallbackData(SetMark(sc.(p := o.p), o.mark), o.flush, ch).out;
    if o.events != [] { assert (out + o.events)[|out|] == o.events[0]; }
  }

  /** A trip in the head leaves nread alone and stays in the head until the headers are complete. */
  lemma HeadTrip(sc: Scan, ch: char)
    requires sc.p.errno.OK? && InHead(sc.p) && HeadOnly(sc.out)
    ensures var o := Dispatch(sc.p, ch, sc.skip);
            o.p.errno.OK? && HeadOnly(Apply(sc, o, ch).out) ==> InHead(o.p) && o.p.nread == sc.p.nread
  {
    hide Dispatch, Apply, IsBulk, MayHoldMark, Rank, DispatchHeadersDone, HeadOnly;
    var o := Dispatch(sc.p, ch, sc.skip);
    assert Descends(sc.p, o);
    if sc.p.state.HeadersAlmostDone? {
      AlmostDoneTrip(sc.p, ch);
      assert o == DispatchHeadersDone(sc.p, ch) by { DoneDispatch(sc.p, ch, sc.skip); }
    } else {
      PlainTrip(sc.p, ch, sc.skip);
    }
    ApplyHead(sc, o, ch);
  }

  lemma DoneDispatch(p: Parser, ch: char, skip: bool)
    requires p.state.HeadersAlmostDone?
    ensures Dispatch(p, ch, skip) == DispatchHeadersDone(p, ch)
  {
    hide DispatchHeadersDone, Descends;
  }

  lemma ApplyParser(sc: Scan, o: Outcome, ch: char)
    ensures var r := Apply(sc, o, ch).p; r == o.p.(errno := r.errno) && (r.errno.OK? ==> o.p.errno.OK?)
  {
  }

  lemma TripsHead(sc: Scan, ch: char)
    requires sc.p.errno.OK? && InHead(sc.p) && HeadOnly(sc.out)
    ensures var r := Trips(sc, ch); r.p.errno.OK? && HeadOnly(r.out) ==> InHead(r.p) && r.p.nread == sc.p.nread
    decreases Rank(sc.p.state)
  {
    hide Dispatch, Apply, IsBulk, MayHoldMark, Rank, HeadOnly, InHead;
    var o := Dispatch(sc.p, ch, sc.skip);
    var sc' := Apply(sc, o, ch);
    assert Descends(sc.p, o);
    HeadTrip(sc, ch);
    ApplyParser(sc, o, ch);
    if sc'.p.errno.OK? {
      assert o.p == sc'.p;
      if o.ctl.Again? {
        TripsCount(sc', ch);
        if HeadOnly(Trips(sc', ch).out) {
          HeadOnlyPrefix(sc'.out, Trips(sc', ch).out);
          TripsHead(sc', ch);
        }
      }
    }
  }

  /** As long as the headers are not complete, nread counts every byte. */
  lemma {:induction false} HeadCounts(sc: Scan, s: string)
    requires InHead(sc.p) && HeadOnly(ScanAll(sc, s).out) && Live(ScanAll(sc, s))
    ensures InHead(ScanAll(sc, s).p) && ScanAll(sc, s).p.nread == sc.p.nread + |s|
  {
    hide Trips, HeadOnly, NearBody;
    if s != "" {
      var sc' := ScanAll(sc, s[..|s| - 1]);
      assert Live(sc');
      TripsCount(sc'.(p := Count(sc'.p)), s[|s| - 1]);
      HeadOnlyPrefix(sc'.out, ScanAll(sc, s).out);
      HeadCounts(sc, s[..|s| - 1]);
      HeadParses(sc'.p);
      TripsHead(sc'.(p := Count(sc'.p)), s[|s| - 1]);
    }
  }

  lemma HeadParses(p: Parser)
    requires InHead(p)
    ensures ParsingHeader(p.state)
    ensures InHead(Count(p))
  {
  }

  // ---------------------------------------------------------------- stretches below the limit

  /** The limit lets every byte of `s` through. */
  ghost predicate Clear(sc: Scan, s: string) {
    forall k | 0 <= k < |s| :: !OverAt(ScanAll(sc, s[..k]), false)
  }

  lemma ClearNothing(sc: Scan)
    ensures Clear(sc, "")
  {
  }

  lemma ClearConcat(sc: Scan, a: string, b: string)
    requires Clear(sc, a) && Clear(ScanAll(sc, a), b)
    ensures Clear(sc, a + b)
  {
    hide ScanAll, OverAt;
    forall k | 0 <= k < |a + b| ensures !OverAt(ScanAll(sc, (a + b)[..k]), false) {
      if k < |a| {
        assert (a + b)[..k] == a[..k];
      } else {
        assert (a + b)[..k] == a + b[..k - |a|];
        ScanAllConcat(sc, a, b[..k - |a|]);
      }
    }
  }

  lemma ClearShort(sc: Scan, s: string)
    requires sc.p.nread + |s| <= HTTP_MAX_HEADER_SIZE
    ensures Clear(sc, s)
  {
    hide ScanAll;
    forall k | 0 <= k < |s| ensures !OverAt(ScanAll(sc, s[..k]), false) { ScanCounts(sc, s[..k]); }
  }

  lemma ClearBody(sc: Scan, q: Parser, out: seq<Event>, s: string)
    requires At(sc, q, Nothing, out) && InBody(q) && |s| <= q.contentLength < ULLONG_MAX
    ensures Clear(sc, s)
  {
    hide ScanAll;
    forall k | 0 <= k < |s| ensures !OverAt(ScanAll(sc, s[..k]), false) {
      BodyAt(sc, q, out, s[..k]);
    }
  }

  /** A call that is let through to its end, outside the inner loops, is within the limit. */
  lemma ClearIsWithin(p0: Parser, s: string)
    requires Clear(Open(p0), s) && !ScanAll(Open(p0), s).inner
    ensures !OverLimit(p0, s)
  {
    hide ScanAll, Open;
    forall k | 0 <= k <= |s| ensures !OverAt(Prefix(p0, s, k), k == |s|) {
      if k == |s| { assert s[..k] == s; }
    }
  }

  // ---------------------------------------------------------------- a head at the limit

  /** `head` is read, but for its last byte, before the headers are complete. */
  ghost predicate IsHead(p0: Parser, head: string) {
    head != "" && var sc := ScanAll(Open(p0), head[..|head| - 1]); Live(sc) && HeadOnly(sc.out)
  }

  lemma HeadTooLong(p0: Parser, head: string, rest: string)
    requires InHead(p0) && IsHead(p0, head) && p0.nread <= HTTP_MAX_HEADER_SIZE < p0.nread + |head|
    ensures OverLimit(p0, head + rest)
  {
    hide ScanAll, HeadOnly, NearBody;
    var k := HTTP_MAX_HEADER_SIZE - p0.nread;
    var s, front := head + rest, head[..|head| - 1];
    assert s[..k] == front[..k] == head[..k];
    assert front == front[..k] + front[k..];
    ScanAllConcat(Open(p0), front[..k], front[k..]);
    var sc := ScanAll(Open(p0), front[..k]);
    if !Live(sc) {
      ReadDead(sc, front[k..]);
    }
    ScanCounts(sc, front[k..]);
    HeadOnlyPrefix(sc.out, ScanAll(Open(p0), front).out);
    OpenIs(p0);
    HeadCounts(Open(p0), front[..k]);
    HeadParses(sc.p);
    assert OverAt(Prefix(p0, s, k), k == |s|);
  }

  lemma OpenIs(p: Parser)
    ensures Open(p).p == p && Open(p).out == []
  {
  }

  /** The limit is exceeded exactly when the head is longer than the limit. */
  lemma HeadLimit(p0: Parser, head: string, rest: string)
    requires InHead(p0) && IsHead(p0, head) && p0.nread <= HTTP_MAX_HEADER_SIZE
    requires Clear(ScanAll(Open(p0), head), rest) && !ScanAll(Open(p0), head + rest).inner
    ensures OverLimit(p0, head + rest) <==> p0.nread + |head| > HTTP_MAX_HEADER_SIZE
  {
    hide ScanAll, Clear, OverLimit, IsHead, NearBody;
    if p0.nread + |head| > HTTP_MAX_HEADER_SIZE {
      HeadTooLong(p0, head, rest);
    } else {
      OpenIs(p0);
      ClearShort(Open(p0), head);
      ClearConcat(Open(p0), head, rest);
      ClearIsWithin(p0, head + rest);
    }
  }

  /** What the call then does. */
  lemma ExecutesWithin(p0: Parser, data: string, over: bool, p: Parser, called: seq<Event>, n: nat)
    requires p0.errno.OK? && Executes(p0, [], data, p, called, n) && Feed(p0, data).p.errno.OK?
    requires OverLimit(p0, data) <==> over
    ensures over ==> p.errno.HeaderOverflow?
    ensures !over ==> p == Feed(p0, data).p && called == Feed(p0, data).out && n == Feed(p0, data).used
  {
    hide Feed, OverLimit, Exceeds;
    var r := Feed(p0, data);
    assert [] + r.out == r.out;
  }

  // ---------------------------------------------------------------- printed heads

  lemma {:induction false} HeaderTraceHead(first: seq<Event>, hs: seq<Header>)
    requires HeadOnly(first)
    ensures HeadOnly(first + HeaderTrace(hs))
  {
    if hs == [] {
      assert first + HeaderTrace([]) == first;
    } else {
      var front, h := hs[..|hs| - 1], hs[|hs| - 1];
      HeaderTraceHead(first, front);
      assert first + HeaderTrace(hs) == first + HeaderTrace(front) + [Data(Field, h.name), Data(Value, h.value)];
    }
  }

  /** The printed headers behind a first line that has been read. */
  lemma LineIsHead(p0: Parser, line: string, q: Parser, first: seq<Event>, hs: seq<Header>)
    requires At(ScanAll(Open(p0), line), q, Nothing, first) && HeadOnly(first)
    requires q.state.HeaderFieldStart? && !q.flags.contentLength && IsSection(hs)
    ensures IsHead(p0, line + (PrintHeaders(hs) + "\r\n"))
  {
    hide ScanAll, Open, PrintHeaders, HeaderTrace, IsSection, Length, SaysChunked, Tracks, HeadOnly, AtLine;
    var s1 := ScanAll(Open(p0), line);
    var m := ReadHeaders(s1, q, first, hs);
    ReadHeadersCr(ScanAll(s1, PrintHeaders(hs)), m, first + HeaderTrace(hs));
    HeaderTraceHead(first, hs);
    ScanAllConcat(Open(p0), line, PrintHeaders(hs));
    ScanAllConcat(Open(p0), line + PrintHeaders(hs), "\r");
    var head := line + (PrintHeaders(hs) + "\r\n");
    assert head[..|head| - 1] == line + PrintHeaders(hs) + "\r";
  }

  lemma ClearAfterHead(sc: Scan, m: Parser, out: seq<Event>, body: string)
    requires At(sc, BodyStart(m), Nothing, out) && !m.flags.chunked
    requires body != "" ==> m.contentLength == |body| < ULLONG_MAX
    ensures Clear(sc, body)
  {
    hide NewMessage, Clear, At;
    if body == "" { ClearNothing(sc); } else { ClearBody(sc, BodyStart(m), out, body); }
  }

  /** A message of known length: the limit is exceeded exactly when its head is too long. */
  lemma MessageLimit(p0: Parser, line: string, q: Parser, first: seq<Event>, hs: seq<Header>, body: string)
    requires Valid(p0) && InHead(p0) && p0.nread <= HTTP_MAX_HEADER_SIZE
    requires At(ScanAll(Open(p0), line), q, Nothing, first) && HeadOnly(first)
    requires FreshMessage(q) && IsSection(hs) && !SaysChunked(hs) && |body| < ULLONG_MAX
    requires Length(hs) == Some(|body|) || (Length(hs).None? && body == "" && q.kind.Request?)
    ensures var head := line + (PrintHeaders(hs) + "\r\n");
            OverLimit(p0, head + body) <==> p0.nread + |head| > HTTP_MAX_HEADER_SIZE
  {
    hide ScanAll, Open, At, PrintHeaders, HeaderTrace, IsSection, Length, SaysChunked, HeadOnly, FreshMessage, Clear,
      OverLimit, IsHead, BodyStart, BodyStartTrace, InHead, Valid;
    var lines := PrintHeaders(hs) + "\r\n";
    var head, s1 := line + lines, ScanAll(Open(p0), line);
    FreshFacts(q);
    LineIsHead(p0, line, q, first, hs);
    var m := ReadHead(s1, q, first, hs, |body|);
    var r := ReadMessage(s1, q, first, hs, body);
    ScanAllConcat(Open(p0), line, lines);
    ScanAllConcat(Open(p0), line, lines + body);
    assert line + (lines + body) == head + body;
    ClearAfterHead(ScanAll(Open(p0), head), m, first + HeaderTrace(hs) + BodyStartTrace(m), body);
    EndsOutside(p0, head + body, r, first + HeaderTrace(hs) + BodyTrace(q.httpMethod, Announced(hs), body));
    HeadLimit(p0, head, body);
  }

  lemma NotOkay(p0: Parser, data: string, p: Parser, called: seq<Event>, n: nat)
    requires p0.errno.OK? && Executes(p0, [], data, p, called, n) && !Feed(p0, data).p.errno.OK?
    ensures !p.errno.OK?
  {
    hide Feed, OverLimit, Exceeds;
  }

  // ---------------------------------------------------------------- requests and responses

  function RequestHead(m: Method, path: string, query: string, hs: seq<Header>): string {
    PrintRequestLine(m, path, query) + (PrintHeaders(hs) + "\r\n")
  }

  lemma InitInHead()
    ensures InHead(Init(Request)) && InHead(Init(Response)) && Valid(Init(Request)) && Valid(Init(Response))
  {
  }

  /** The parser inverts the printer of requests: one call of http_parser_execute reads every
      byte that build writes and recovers method, URL, headers and body, if the request line,
      the headers and the empty line keep to the limit; and it refuses the others. */
  lemma RequestReadBack(m: Method, path: string, query: string, hs: seq<Header>, body: string, p: Parser,
                        called: seq<Event>, n: nat)
    requires !m.CONNECT? && IsPath(path) && IsQuery(query) && AllQuiet(hs) && |body| < 1_000_000_000
    requires Executes(Init(Request), [], PrintRequest(m, path, query, RequestHeaders(hs, m, |body|), body), p, called,
                      n)
    ensures var printed := RequestHeaders(hs, m, |body|);
            if |RequestHead(m, path, query, printed)| <= 81920
            then p.errno.OK? && n == |PrintRequest(m, path, query, printed, body)| && p.httpMethod == m &&
                 BetweenMessages(p.state) &&
                 called == RequestTrace(m, path, query, printed,
                                        if m in {POST, PUT, DELETE} || body != "" then |body| else ULLONG_MAX, body)
            else p.errno.HeaderOverflow?
  {
    hide ScanAll, At, Open, Feed, RequestHeaders, PrintRequestLine, PrintHeaders, HeaderTrace, IsPath, IsQuery,
      AllQuiet, Valid, Length, IsSection, SaysChunked, MethodString, UrlText, Executes, OverLimit, RequestTrace;
    var start, printed := Init(Request), RequestHeaders(hs, m, |body|);
    var line, text := PrintRequestLine(m, path, query), PrintRequest(m, path, query, printed, body);
    RequestFeeds(m, path, query, hs, body);
    RequestSection(hs, m, |body|);
    OpenAt(start);
    InitInHead();
    ReadRequestLine(Open(start), start, [], m, path, query);
    var first := [MessageBegin, Data(Url, UrlText(path, query))];
    assert [] + first == first;
    MessageLimit(start, line, RequestLineRead(start, m), first, printed, body);
    var head := RequestHead(m, path, query, printed);
    assert head + body == text;
    ExecutesWithin(start, text, |head| > HTTP_MAX_HEADER_SIZE, p, called, n);
  }

  function ResponseHead(status: nat, hs: seq<Header>): string {
    PrintStatusLine(status, StatusText(status)) + (PrintHeaders(hs) + "\r\n")
  }

  /** The parser inverts the printer of responses for the status codes up to 999, if the
      status line, the headers and the empty line keep to the limit. */
  lemma ResponseReadBack(status: nat, hs: seq<Header>, body: string, p: Parser, called: seq<Event>, n: nat)
    requires AllQuiet(hs) && |body| < 1_000_000_000
    requires Executes(Init(Response), [], PrintResponse(status, Put(hs, "Content-Length", SizeText(|body|)), body), p,
                      called, n)
    ensures var printed := Put(hs, "Content-Length", SizeText(|body|));
            if status > 999 then !p.errno.OK?
            else if |ResponseHead(status, printed)| <= 81920
            then p.errno.OK? && n == |PrintResponse(status, printed, body)| && p.statusCode == status &&
                 BetweenMessages(p.state) &&
                 called == ResponseTrace(status, printed, body)
            else p.errno.HeaderOverflow?
  {
    hide ScanAll, At, Open, Feed, Put, PrintHeaders, HeaderTrace, AllQuiet, Valid, Length, IsSection, SaysChunked,
      SizeText, DecimalText, StatusText, IsReason, VERSION_REST, Executes, OverLimit, ResponseTrace;
    var start, printed, reason := Init(Response), Put(hs, "Content-Length", SizeText(|body|)), StatusText(status);
    var line, text := PrintStatusLine(status, reason), PrintResponse(status, printed, body);
    ResponseFeeds(status, hs, body);
    if status > 999 {
      NotOkay(start, text, p, called, n);
      return;
    }
    StatusReason(status);
    PutLength(hs, |body|);
    OpenAt(start);
    InitInHead();
    ReadStatusLine(Open(start), start, [], status, reason);
    var first := [MessageBegin, Data(Status(status), reason)];
    assert [] + first == first;
    MessageLimit(start, line, StatusLineRead(start, status), first, printed, body);
    var head := ResponseHead(status, printed);
    assert head + body == text;
    ExecutesWithin(start, text, |head| > HTTP_MAX_HEADER_SIZE, p, called, n);
  }

  // ---------------------------------------------------------------- chunks

  lemma HeadShort(n: nat)
    requires n <= MAX_CHUNK
    ensures |ChunkHead(n)| <= 18
  {
    assert Pow16(4) == 0x1_0000;
    assert Pow16(8) == 0x1_0000_0000;
    assert Pow16(12) == 0x1_0000_0000_0000;
    assert Pow16(16) == 0x1_0000_0000_0000_0000;
    HexTextLength(n, 16);
    hide HexText;
  }

  lemma StartsAtZero(sc: Scan, q: Parser, out: seq<Event>)
    requires At(sc, q, Nothing, out) && ScanSound(sc, 0) && ExpectsChunk(q)
    ensures sc.p.nread == 0
  {
    hide Widths, FieldIndex, ValueIndex, MethodString;
  }

  lemma NotParsing(sc: Scan, q: Parser, pend: Pending, out: seq<Event>)
    requires At(sc, q, pend, out) && !ParsingHeader(q.state)
    ensures !OverAt(sc, false)
  {
  }

  lemma ClearTwo(sc: Scan)
    requires !OverAt(sc, false) && !OverAt(ScanAll(sc, "\r"), false)
    ensures Clear(sc, "\r\n")
  {
    hide OverAt, ScanAll;
    ScanNothing(sc);
    assert "\r\n"[..0] == "" && "\r\n"[..1] == "\r";
  }

  lemma ClearChunk(sc: Scan, q: Parser, out: seq<Event>, data: string)
    requires At(sc, q, Nothing, out) && ScanSound(sc, 0) && ExpectsChunk(q) && 0 < |data| <= MAX_CHUNK
    ensures Clear(sc, PrintChunk(data))
  {
    hide ScanAll, At, ScanSound, Clear, ChunkHead, OverAt;
    HeadShort(|data|);
    StartsAtZero(sc, q, out);
    ClearShort(sc, ChunkHead(|data|));
    ReadSizeLine(sc, q, out, |data|);
    var s1, q1, out1 := ScanAll(sc, ChunkHead(|data|)), q.(state := ChunkData, contentLength := |data|),
                        out + [ChunkHeader(|data|)];
    ClearBody(s1, q1, out1, data);
    ReadChunkData(s1, q1, out1, data);
    var s2, q2 := ScanAll(s1, data), q1.(contentLength := 0, state := ChunkDataAlmostDone);
    ReadDataEnd(s2, q2, out1, data);
    NotParsing(s2, q2, Since(Body, data), out1);
    NotParsing(ScanAll(s2, "\r"), q2.(state := ChunkDataDone), Nothing, out1 + [Data(Body, data)]);
    ClearTwo(s2);
    ScanAllConcat(sc, ChunkHead(|data|), data);
    ClearConcat(sc, ChunkHead(|data|), data);
    ClearConcat(sc, ChunkHead(|data|) + data, "\r\n");
  }

  lemma {:induction false} ClearChunks(sc: Scan, q: Parser, out: seq<Event>, chunks: seq<string>)
    requires At(sc, q, Nothing, out) && ScanSound(sc, 0) && ExpectsChunk(q) && AreChunks(chunks)
    ensures Clear(sc, PrintChunks(chunks))
  {
    hide ScanAll, At, ScanSound, Clear, PrintChunk, ChunksTrace;
    if chunks == [] {
      ClearNothing(sc);
    } else {
      var front, data := chunks[..|chunks| - 1], chunks[|chunks| - 1];
      ClearChunks(sc, q, out, front);
      ReadChunks(sc, q, out, front);
      ClearChunk(ScanAll(sc, PrintChunks(front)), if front == [] then q
                 else q.(contentLength := 0), out + ChunksTrace(front), data);
      ClearConcat(sc, PrintChunks(front), PrintChunk(data));
    }
  }

  /** Whatever the number of chunks, they never reach the limit. */
  lemma ClearChunkedBody(sc: Scan, q: Parser, out: seq<Event>, chunks: seq<string>)
    requires At(sc, q, Nothing, out) && ScanSound(sc, 0) && ExpectsChunk(q) && AreChunks(chunks)
    ensures Clear(sc, PrintChunks(chunks) + LAST_CHUNK)
  {
    hide ScanAll, At, ScanSound, Clear, PrintChunks, ChunksTrace, AreChunks;
    ClearChunks(sc, q, out, chunks);
    ReadChunks(sc, q, out, chunks);
    var s1 := ScanAll(sc, PrintChunks(chunks));
    StartsAtZero(s1, if chunks == [] then q else q.(contentLength := 0), out + ChunksTrace(chunks));
    ClearShort(s1, LAST_CHUNK);
    ClearConcat(sc, PrintChunks(chunks), LAST_CHUNK);
  }

  /** The parser inverts the chunked sender: one call of http_parser_execute reads everything
      that send writes and recovers method, URL, headers and, one by one, the chunks, if the
      head keeps to the limit. */
  lemma ChunkedReadBack(m: Method, url: ParsedUrl, hs: seq<Header>, chunks: seq<string>, p: Parser, called: seq<Event>,
                        n: nat)
    requires !m.CONNECT? && IsPath(url.path) && IsQuery(url.query) && AllQuiet(hs) && AreChunks(chunks)
    requires Executes(Init(Request), [], ChunkedText(m, url, Put(hs, "Transfer-Encoding", "chunked"), chunks), p,
                      called, n)
    ensures var printed := Put(hs, "Transfer-Encoding", "chunked");
            if |RequestHead(m, url.path, url.query, printed)| <= 81920
            then p.errno.OK? && n == |ChunkedText(m, url, printed, chunks)| && p.httpMethod == m &&
                 BetweenMessages(p.state) &&
                 called == ChunkedStart(m, url, printed) + ChunkedTrace(chunks)
            else p.errno.HeaderOverflow?
  {
    hide ScanAll, At, Open, Feed, Put, PrintRequestLine, PrintHeaders, PrintChunks, ChunkedTrace, ChunkedStart,
      AreChunks, ScanSound, Executes, OverLimit, IsHead, Clear, IsPath, IsQuery, AllQuiet, Valid, InHead;
    var start, printed := Init(Request), Put(hs, "Transfer-Encoding", "chunked");
    var head, rest := RequestHead(m, url.path, url.query, printed), PrintChunks(chunks) + LAST_CHUNK;
    var text := ChunkedText(m, url, printed, chunks);
    assert head == PrintRequest(m, url.path, url.query, printed, "") && head + rest == text;
    InitInHead();
    ChunkedFeeds(m, url, hs, chunks);
    ChunkedIsHead(m, url, hs);
    var b := ReadChunkedStart(m, url, hs);
    ClearChunkedBody(ScanAll(Open(start), head), b, ChunkedStart(m, url, printed), chunks);
    HeadLimit(start, head, rest);
    ExecutesWithin(start, text, |head| > HTTP_MAX_HEADER_SIZE, p, called, n);
  }

  lemma ChunkedIsHead(m: Method, url: ParsedUrl, hs: seq<Header>)
    requires !m.CONNECT? && IsPath(url.path) && IsQuery(url.query) && AllQuiet(hs)
    ensures IsHead(Init(Request), RequestHead(m, url.path, url.query, Put(hs, "Transfer-Encoding", "chunked")))
  {
    hide ScanAll, At, Open, Put, PrintRequestLine, PrintHeaders, IsPath, IsQuery, AllQuiet, IsSection, SaysChunked,
      Length, UrlText, MethodString, IsHead;
    var start := Init(Request);
    PutChunkedSection(hs);
    OpenAt(start);
    ReadRequestLine(Open(start), start, [], m, url.path, url.query);
    var first := [MessageBegin, Data(Url, UrlText(url.path, url.query))];
    assert [] + first == first;
    LineIsHead(start, PrintRequestLine(m, url.path, url.query), RequestLineRead(start, m), first,
               Put(hs, "Transfer-Encoding", "chunked"));
  }
}
