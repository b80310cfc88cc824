/** What holds of the parser whenever http_parser_execute looks at a byte. */
module HttpInvariant {
  import opened HttpTypes
  import opened HttpAutomaton
  import opened HttpScan
  import opened HttpRuns

  /** The position in the keyword being matched in a header name. */
  predicate FieldIndex(h: HeaderState, i: nat) {
    match h
    case HC => i == 0
    case HCO => i == 1
    case HCON => i == 2
    case MatchingConnection => i < 9
    case MatchingProxyConnection => i < 15
    case MatchingContentLength => i < 13
    case MatchingTransferEncoding => i < 16
    case MatchingUpgrade => i < 6
    case General | Connection | ContentLength | TransferEncoding | Upgrade => true
    case _ => false
  }

  /** The position in the keyword being matched in a header value; never h_connection or
      h_transfer_encoding. */
  predicate ValueIndex(h: HeaderState, i: nat) {
    match h
    case MatchingTransferEncodingChunked => i < 6
    case MatchingConnectionTokenStart => i == 0
    case MatchingConnectionKeepAlive => i < 9
    case MatchingConnectionClose => i < 4
    case MatchingConnectionUpgrade => i < 6
    case General | ContentLength | MatchingConnectionToken | TransferEncodingChunked | ConnectionKeepAlive
      | ConnectionClose | ConnectionUpgrade => true
    case _ => false
  }

  /** The fields keep to the widths of struct http_parser. */
  predicate Widths(p: Parser) {
    p.index <= 16 && p.contentLength <= ULLONG_MAX && p.httpMajor <= 999 && p.httpMinor <= 999 && p.statusCode <= 999
  }

  predicate OnlyMark(open: Mark, k: DataKind) { open.MarkOf? && open.kind == k }
  predicate AtMostBody(open: Mark) { open.MarkOf? ==> open.kind.Body? }

  /** What each state says about the fields and the open mark. `counted` is what nread must
      be at a chunk-size start: 0 between bytes, 1 once the byte looked at is counted. */
  predicate StateFits(p: Parser, open: Mark, counted: nat) {
    var s := p.state;
    if s.ReqMethod? then open.NoMark? && 1 <= p.index <= |MethodString(p.httpMethod)|
    else if IsUrlState(s) then OnlyMark(open, Url)
    else if s.ResStatus? then OnlyMark(open, Status(p.statusCode))
    else if s.HeaderField? then OnlyMark(open, Field) && FieldIndex(p.headerState, p.index)
    else if s.HeaderValue? then
      OnlyMark(open, Value) && ValueIndex(p.headerState, p.index) &&
      (p.headerState.ContentLength? ==> p.contentLength < ULLONG_MAX)
    else if s.BodyIdentity? then AtMostBody(open) && BodyLengthOk(p)
    else if s.BodyIdentityEof? then AtMostBody(open)
    else if s.ChunkData? then AtMostBody(open) && p.flags.chunked && BodyLengthOk(p)
    else if s.ChunkDataAlmostDone? then AtMostBody(open) && p.flags.chunked && p.contentLength == 0
    else if s.ChunkSizeStart? then open.NoMark? && p.flags.chunked && p.nread == counted
    else if IsChunkState(s) then open.NoMark? && p.flags.chunked && p.contentLength < ULLONG_MAX
    else open.NoMark?
  }

  /** The invariant: no assert has failed and, without an error, every field fits the state. */
  predicate Sound(p: Parser, open: Mark, counted: nat) {
    !p.errno.AssertFailed? && (p.errno.OK? ==> Widths(p) && StateFits(p, open, counted))
  }

  /** What a caller may rely on between two calls. */
  predicate Valid(p: Parser) { Sound(p, InitialMark(p), 0) }

  /** The kind of the open mark after MARK and CALLBACK_DATA. */
  function OpenAfter(open: Mark, o: Outcome): Mark {
    var marked := if open.NoMark? then o.mark else open;
    if !o.flush.NoFlush? && marked.MarkOf? && marked.kind == o.flush.kind then NoMark else marked
  }

  /** A trip with this outcome sets no second mark and keeps Sound. */
  predicate Kept(open: Mark, o: Outcome) {
    (o.mark.MarkOf? ==> open.NoMark? || open.kind == o.mark.kind) &&
    Sound(o.p, OpenAfter(open, o), if o.ctl.Again? then 1 else 0)
  }

  predicate Looking(p: Parser, open: Mark) { Sound(p, open, 1) && p.errno.OK? }

  lemma SwitchedMethodIsLonger(m: Method, i: nat, ch: char)
    ensures SwitchMethod(m, i, ch).Some? ==> 1 <= i < |MethodString(SwitchMethod(m, i, ch).value)| <= 11
  {
    if SwitchMethod(m, i, ch).Some? {
      var r := SwitchMethod(m, i, ch).value;
      assert 1 <= i <= 2 || (i <= 4 && (r.MKCALENDAR? || r.UNLINK? || r.PROPPATCH?)) by { hide MethodString; }
      MethodLength(r);
    }
    hide SwitchMethod, MethodString;
  }

  lemma MethodLength(m: Method)
    ensures 3 <= |MethodString(m)| <= 11
    ensures m.MKCALENDAR? || m.UNLINK? || m.PROPPATCH? ==> 6 <= |MethodString(m)|
  {
  }

  lemma KeepStartRequest(p: Parser, open: Mark, ch: char)
    requires Looking(p, open) && p.state.StartReq?
    ensures Kept(open, DispatchStart(p, ch))
  {
    hide Descends;
  }

  lemma KeepStartEither(p: Parser, open: Mark, ch: char)
    requires Looking(p, open) && (p.state.StartReqOrRes? || p.state.ResOrRespH?)
    ensures Kept(open, DispatchStart(p, ch))
  {
    hide Descends;
  }

  lemma KeepStartOther(p: Parser, open: Mark, ch: char)
    requires Looking(p, open) && (p.state.Dead? || p.state.StartRes?)
    ensures Kept(open, DispatchStart(p, ch))
  {
    hide Descends;
  }

  lemma KeepMethod(p: Parser, open: Mark, ch: char)
    requires Looking(p, open) && p.state.ReqMethod?
    ensures Kept(open, DispatchMethod(p, ch))
  {
    hide Descends;
    SwitchedMethodIsLonger(p.httpMethod, p.index, ch);
    MethodLength(p.httpMethod);
    MethodLength(MSEARCH);
    hide SwitchMethod, MethodString;
  }

  lemma KeepUrl(p: Parser, open: Mark, ch: char)
    requires Looking(p, open) && (p.state.ReqSpacesBeforeUrl? || IsUrlState(p.state))
    ensures Kept(open, DispatchUrl(p, ch))
  {
    hide Descends, ParseUrlChar;
  }

  lemma KeepRequestWord(p: Parser, open: Mark, ch: char)
    requires Looking(p, open) && (p.state.ReqHttpStart? || p.state.ReqHttpH? || p.state.ReqHttpHT?)
    ensures Kept(open, DispatchRequestVersion(p, ch))
  {
    hide Descends;
  }

  lemma KeepRequestWordEnd(p: Parser, open: Mark, ch: char)
    requires Looking(p, open) && (p.state.ReqHttpHTT? || p.state.ReqHttpHTTP?)
    ensures Kept(open, DispatchRequestVersion(p, ch))
  {
    hide Descends;
  }

  lemma KeepRequestVersionStart(p: Parser, open: Mark, ch: char)
    requires Looking(p, open) && (p.state.ReqFirstHttpMajor? || p.state.ReqFirstHttpMinor? ||
                                  p.state.ReqLineAlmostDone?)
    ensures Kept(open, DispatchRequestVersion(p, ch))
  {
    hide Descends;
  }

  lemma KeepRequestVersionDigits(p: Parser, open: Mark, ch: char)
    requires Looking(p, open) && (p.state.ReqHttpMajor? || p.state.ReqHttpMinor?)
    ensures Kept(open, DispatchRequestVersion(p, ch))
  {
    hide Descends;
  }

  lemma KeepResponseWord(p: Parser, open: Mark, ch: char)
    requires Looking(p, open) && (p.state.ResH? || p.state.ResHT? || p.state.ResHTT? || p.state.ResHTTP? ||
                                  p.state.ResLineAlmostDone?)
    ensures Kept(open, DispatchResponseLine(p, ch))
  {
    hide Descends;
  }

  lemma KeepResponseVersion(p: Parser, open: Mark, ch: char)
    requires Looking(p, open) && (p.state.ResFirstHttpMajor? || p.state.ResHttpMajor? || p.state.ResFirstHttpMinor? ||
                                  p.state.ResHttpMinor?)
    ensures Kept(open, DispatchResponseLine(p, ch))
  {
    hide Descends;
  }

  lemma KeepStatusCode(p: Parser, open: Mark, ch: char)
    requires Looking(p, open) && (p.state.ResFirstStatusCode? || p.state.ResStatusCode?)
    ensures Kept(open, DispatchResponseLine(p, ch))
  {
    hide Descends;
  }

  lemma KeepStatusText(p: Parser, open: Mark, ch: char)
    requires Looking(p, open) && (p.state.ResStatusStart? || p.state.ResStatus?)
    ensures Kept(open, DispatchResponseLine(p, ch))
  {
    hide Descends;
  }

  lemma KeepFieldStart(p: Parser, open: Mark, ch: char)
    requires Looking(p, open) && p.state.HeaderFieldStart?
    ensures Kept(open, DispatchFieldStart(p, ch))
  {
    hide Descends;
  }

  predicate IsMatching(h: HeaderState) {
    h.MatchingConnection? || h.MatchingProxyConnection? || h.MatchingContentLength? || h.MatchingTransferEncoding? ||
    h.MatchingUpgrade?
  }

  lemma FieldMatchFits(p: Parser, ch: char, c: char)
    requires p.errno.OK? && FieldIndex(p.headerState, p.index) && p.index <= 16 && IsMatching(p.headerState)
    ensures var r := FieldByte(p, ch, c); r.errno.OK? && FieldIndex(r.headerState, r.index) && r.index <= 16
  {
    hide MatchKey, KeyChar;
  }

  lemma FieldByteFits(p: Parser, ch: char, c: char)
    requires p.errno.OK? && FieldIndex(p.headerState, p.index) && p.index <= 16
    ensures var r := FieldByte(p, ch, c); r.errno.OK? && FieldIndex(r.headerState, r.index) && r.index <= 16
  {
    if IsMatching(p.headerState) {
      hide FieldByte, FieldIndex;
      FieldMatchFits(p, ch, c);
    } else {
      hide MatchKey;
    }
  }

  lemma KeepField(p: Parser, open: Mark, ch: char)
    requires Looking(p, open) && p.state.HeaderField?
    ensures Kept(open, DispatchField(p, ch))
  {
    hide Descends;
    FieldByteFits(p, ch, Token(ch));
    FieldByteFrame(p, ch, Token(ch));
    hide FieldByte;
  }

  lemma ValueByteIndex(p: Parser, ch: char)
    requires p.errno.OK? && ValueIndex(p.headerState, p.index)
    ensures var r := ValueByte(p, ch);
            !r.errno.AssertFailed? && (r.errno.OK? ==> ValueIndex(r.headerState, r.index))
  {
  }

  predicate ValueLength(p: Parser) { p.headerState.ContentLength? ==> p.contentLength < ULLONG_MAX }

  lemma ValueByteLength(p: Parser, ch: char)
    requires p.errno.OK? && ValueIndex(p.headerState, p.index) && Widths(p) && ValueLength(p)
    ensures var r := ValueByte(p, ch); r.errno.OK? ==> r.state == p.state && Widths(r) && ValueLength(r)
  {
  }

  lemma KeepValue(p: Parser, open: Mark, ch: char, skip: bool)
    requires Looking(p, open) && p.state.HeaderValue?
    ensures Kept(open, DispatchValue(p, ch, skip))
  {
    hide Descends;
    ValueByteIndex(p, ch);
    ValueByteLength(p, ch);
    hide ValueByte;
  }

  lemma ValueStartFits(p: Parser, ch: char)
    requires p.errno.OK? && Widths(p)
    ensures var o := ValueStart(p, ch);
            o == Marked(o.p) && o.p.state.HeaderValue? && !o.p.errno.AssertFailed? &&
            (o.p.errno.OK? ==> Widths(o.p) && ValueLength(o.p) && ValueIndex(o.p.headerState, o.p.index))
  {
  }

  lemma KeepValueStart(p: Parser, open: Mark, ch: char)
    requires Looking(p, open) && (p.state.HeaderValueDiscardWs? || p.state.HeaderValueStart?)
    ensures Kept(open, DispatchValueEdges(p, ch))
  {
    hide Descends;
    ValueStartFits(p, ch);
    hide ValueStart;
  }

  lemma KeepValueEnd(p: Parser, open: Mark, ch: char)
    requires Looking(p, open) && (p.state.HeaderAlmostDone? || p.state.HeaderValueLws? ||
                                  p.state.HeaderValueDiscardWsAlmostDone? || p.state.HeaderValueDiscardLws?)
    ensures Kept(open, DispatchValueEdges(p, ch))
  {
    hide Descends;
  }

  lemma KeepHeadersAlmostDone(p: Parser, open: Mark, ch: char)
    requires Looking(p, open) && p.state.HeadersAlmostDone?
    ensures Kept(open, DispatchHeadersDone(p, ch))
  {
    hide Descends;
  }

  lemma KeepHeadersDone(p: Parser, open: Mark, ch: char)
    requires Looking(p, open) && p.state.HeadersDone?
    ensures Kept(open, DispatchHeadersDone(p, ch))
  {
    hide Descends;
  }

  lemma KeepChunkSize(p: Parser, open: Mark, ch: char)
    requires Looking(p, open) && (p.state.ChunkSizeStart? || p.state.ChunkSize?)
    ensures Kept(open, DispatchChunk(p, ch))
  {
    hide Descends;
  }

  lemma KeepChunkSizeEnd(p: Parser, open: Mark, ch: char)
    requires Looking(p, open) && (p.state.ChunkParameters? || p.state.ChunkSizeAlmostDone?)
    ensures Kept(open, DispatchChunk(p, ch))
  {
    hide Descends;
  }

  lemma KeepChunkData(p: Parser, open: Mark, ch: char)
    requires Looking(p, open) && (p.state.ChunkData? || p.state.ChunkDataAlmostDone? || p.state.ChunkDataDone?)
    ensures Kept(open, DispatchChunk(p, ch))
  {
    hide Descends;
  }

  lemma KeepBody(p: Parser, open: Mark, ch: char)
    requires Looking(p, open) && (p.state.BodyIdentity? || p.state.BodyIdentityEof? || p.state.MessageDone?)
    ensures Kept(open, DispatchBody(p, ch))
  {
    hide Descends;
  }

  /** No trip sets a second mark or fails an assert, every trip keeps Sound, and `reexecute`
      is reached at most Rank times. */
  lemma TripKeepsSound(p: Parser, open: Mark, ch: char, skip: bool)
    requires Looking(p, open)
    ensures Kept(open, Dispatch(p, ch, skip))
    ensures var o := Dispatch(p, ch, skip); o.ctl.Again? ==> Rank(o.p.state) < Rank(p.state)
  {
    assert Descends(p, Dispatch(p, ch, skip));
    var s := p.state;
    if s.StartReq? { KeepStartRequest(p, open, ch); }
    else if s.StartReqOrRes? || s.ResOrRespH? { KeepStartEither(p, open, ch); }
    else if IsStart(s) { KeepStartOther(p, open, ch); }
    else if s.ReqMethod? { KeepMethod(p, open, ch); }
    else if s.ReqSpacesBeforeUrl? || IsUrlState(s) { KeepUrl(p, open, ch); }
    else if s.ReqHttpStart? || s.ReqHttpH? || s.ReqHttpHT? { KeepRequestWord(p, open, ch); }
    else if s.ReqHttpHTT? || s.ReqHttpHTTP? { KeepRequestWordEnd(p, open, ch); }
    else if s.ReqHttpMajor? || s.ReqHttpMinor? { KeepRequestVersionDigits(p, open, ch); }
    else if IsRequestVersion(s) { KeepRequestVersionStart(p, open, ch); }
    else if s.ResH? || s.ResHT? || s.ResHTT? || s.ResHTTP? || s.ResLineAlmostDone? { KeepResponseWord(p, open, ch); }
    else if s.ResFirstStatusCode? || s.ResStatusCode? { KeepStatusCode(p, open, ch); }
    else if s.ResStatusStart? || s.ResStatus? { KeepStatusText(p, open, ch); }
    else if IsResponseLine(s) { KeepResponseVersion(p, open, ch); }
    else if s.HeaderFieldStart? { KeepFieldStart(p, open, ch); }
    else if s.HeaderField? { KeepField(p, open, ch); }
    else if s.HeaderValue? { KeepValue(p, open, ch, skip); }
    else if s.HeaderValueDiscardWs? || s.HeaderValueStart? { KeepValueStart(p, open, ch); }
    else if IsValueEdge(s) { KeepValueEnd(p, open, ch); }
    else if s.HeadersAlmostDone? { KeepHeadersAlmostDone(p, open, ch); }
    else if s.HeadersDone? { KeepHeadersDone(p, open, ch); }
    else if s.ChunkSizeStart? || s.ChunkSize? { KeepChunkSize(p, open, ch); }
    else if s.ChunkParameters? || s.ChunkSizeAlmostDone? { KeepChunkSizeEnd(p, open, ch); }
    else if IsChunkState(s) { KeepChunkData(p, open, ch); }
    else { KeepBody(p, open, ch); }
    hide Kept, DispatchStart, DispatchMethod, DispatchUrl, DispatchRequestVersion, DispatchResponseLine,
      DispatchFieldStart, DispatchField, DispatchValue, DispatchValueEdges, DispatchHeadersDone, DispatchChunk,
      DispatchBody;
  }

  // ---------------------------------------------------------------- every run keeps it

  function OpenOf(pend: Pending): Mark { if pend.Nothing? then NoMark else MarkOf(pend.kind) }

  predicate ScanSound(sc: Scan, counted: nat) {
    Sound(sc.p, OpenOf(sc.pend), counted) && (sc.inner ==> InnerLoop(sc.p.state))
  }

  lemma ApplyOpens(sc: Scan, o: Outcome, ch: char)
    requires o.mark.MarkOf? ==> OpenOf(sc.pend).NoMark? || OpenOf(sc.pend).kind == o.mark.kind
    ensures Apply(sc, o, ch).p == o.p
    ensures Apply(sc, o, ch).inner ==> InnerLoop(o.p.state)
    ensures OpenOf(Apply(sc, o, ch).pend) == OpenAfter(OpenOf(sc.pend), o)
  {
  }

  lemma AdvanceFrame(sc: Scan, ch: char)
    ensures var r := Advance(sc, ch);
            r.p == sc.p && r.out == sc.out && r.used == sc.used + 1 && r.inner == sc.inner && r.skip == sc.skip &&
            r.halted == sc.halted && OpenOf(r.pend) == OpenOf(sc.pend)
  {
  }

  lemma TripsSound(sc: Scan, ch: char)
    requires ScanSound(sc, 1) && sc.p.errno.OK?
    ensures ScanSound(Trips(sc, ch), 0)
    decreases Rank(sc.p.state)
  {
    hide Dispatch, Apply, StateFits, Widths;
    var o := Dispatch(sc.p, ch, sc.skip);
    TripKeepsSound(sc.p, OpenOf(sc.pend), ch, sc.skip);
    ApplyOpens(sc, o, ch);
    if o.p.errno.OK? && o.ctl.Again? {
      TripsSound(Apply(sc, o, ch), ch);
    }
  }

  lemma CountSound(p: Parser, open: Mark)
    requires Sound(p, open, 0)
    ensures Sound(Count(p), open, 1)
  {
  }

  lemma {:induction false} ScanAllSound(sc: Scan, s: string)
    requires ScanSound(sc, 0)
    ensures ScanSound(ScanAll(sc, s), 0)
  {
    if s != "" {
      ScanAllSound(sc, s[..|s| - 1]);
      var sc' := ScanAll(sc, s[..|s| - 1]);
      if Live(sc') {
        CountSound(sc'.p, OpenOf(sc'.pend));
        TripsSound(sc'.(p := Count(sc'.p)), s[|s| - 1]);
      }
      hide Trips, Count, Sound;
    }
  }

  /** Between two buffers only the marks that http_parser_execute sets again are kept. */
  lemma CloseSound(sc: Scan)
    requires ScanSound(sc, 0)
    ensures Valid(Close(sc).p)
  {
    hide FieldIndex, ValueIndex, BodyLengthOk, MethodString;
  }

  lemma FeedKeepsValid(p: Parser, data: string)
    requires Valid(p)
    ensures Valid(Feed(p, data).p)
  {
    if p.errno.OK? && data != "" {
      ScanAllSound(Open(p), data);
      CloseSound(ScanAll(Open(p), data));
      hide ScanAll, Close, Sound;
    } else if p.errno.OK? {
      hide *;
      assert Valid(EndOfStream(p).p) by { EndKeepsValid(p); }
      assert Feed(p, data) == EndOfStream(p) by { EndIsFeed(p); }
    }
  }

  lemma EndIsFeed(p: Parser)
    requires p.errno.OK?
    ensures Feed(p, "") == EndOfStream(p)
  {
    hide ScanAll, Close;
  }

  lemma EndKeepsValid(p: Parser)
    requires Valid(p)
    ensures Valid(EndOfStream(p).p)
  {
  }

  lemma {:induction false} FeedAllKeepsValid(p: Parser, pieces: seq<string>)
    requires Valid(p)
    ensures Valid(FeedAll(p, pieces).p)
  {
    if pieces != [] {
      FeedAllKeepsValid(p, pieces[..|pieces| - 1]);
      FeedKeepsValid(FeedAll(p, pieces[..|pieces| - 1]).p, pieces[|pieces| - 1]);
      hide Feed, Valid;
    }
  }

  /** Every assert of http_parser_execute holds, from http_parser_init on, for every byte
      sequence in every fragmentation, ends of stream included. */
  lemma AssertsHold(kind: MessageKind, pieces: seq<string>)
    ensures Valid(FeedAll(Init(kind), pieces).p)
    ensures !FeedAll(Init(kind), pieces).p.errno.AssertFailed?
  {
    hide FeedAll, Valid, Init;
    InitIsValid(kind);
    FeedAllKeepsValid(Init(kind), pieces);
    ValidMeans(FeedAll(Init(kind), pieces).p);
  }

  lemma InitIsValid(kind: MessageKind)
    ensures Valid(Init(kind))
  {
  }

  lemma ValidMeans(p: Parser)
    requires Valid(p)
    ensures !p.errno.AssertFailed?
  {
  }
}
