/** The automaton inside http_parser_execute: what one trip through its switch does with one
    byte, and the byte-at-a-time run of one buffer that the bulk loops must agree with. */
module HttpAutomaton {
  import opened HttpTypes

  /** Where control goes after a trip through the switch: to the next byte, back to
      `reexecute` with the same byte, or out of http_parser_execute (an upgrade). */
  datatype Control = Next | Again | Exit

  /** CALLBACK_DATA: not at all, up to the current byte, or through the current byte. */
  datatype Flush = NoFlush | UpTo(kind: DataKind) | Through(kind: DataKind)

  /** The effect of one trip: the new parser, MARK, CALLBACK_DATA and the notify callbacks. */
  datatype Outcome = Outcome(p: Parser, mark: Mark, flush: Flush, events: seq<Event>, ctl: Control)

  function Go(p: Parser): Outcome { Outcome(p, NoMark, NoFlush, [], Next) }
  function To(p: Parser, s: State): Outcome { Go(p.(state := s)) }
  function Reexecute(p: Parser, s: State): Outcome { Outcome(p.(state := s), NoMark, NoFlush, [], Again) }
  function Fail(p: Parser, e: Errno): Outcome { Go(p.(errno := e)) }
  function Check(p: Parser, ok: bool, s: State): Outcome { if ok then To(p, s) else Fail(p, Strict) }

  predicate IsCrLf(ch: char) { ch == '\r' || ch == '\n' }
  predicate IsBlank(ch: char) { ch == ' ' || ch == '\t' }

  predicate IsStart(s: State) {
    s.Dead? || s.StartReqOrRes? || s.ResOrRespH? || s.StartRes? || s.StartReq?
  }

  predicate IsRequestVersion(s: State) {
    s.ReqHttpStart? || s.ReqHttpH? || s.ReqHttpHT? || s.ReqHttpHTT? || s.ReqHttpHTTP? ||
    s.ReqFirstHttpMajor? || s.ReqHttpMajor? || s.ReqFirstHttpMinor? || s.ReqHttpMinor? ||
    s.ReqLineAlmostDone?
  }

  predicate IsResponseLine(s: State) {
    s.ResH? || s.ResHT? || s.ResHTT? || s.ResHTTP? || s.ResFirstHttpMajor? || s.ResHttpMajor? ||
    s.ResFirstHttpMinor? || s.ResHttpMinor? || s.ResFirstStatusCode? || s.ResStatusCode? ||
    s.ResStatusStart? || s.ResStatus? || s.ResLineAlmostDone?
  }

  predicate IsValueEdge(s: State) {
    s.HeaderValueDiscardWs? || s.HeaderValueDiscardWsAlmostDone? || s.HeaderValueDiscardLws? ||
    s.HeaderValueStart? || s.HeaderValueLws? || s.HeaderAlmostDone?
  }

  predicate IsChunkState(s: State) {
    s.ChunkSizeStart? || s.ChunkSize? || s.ChunkParameters? || s.ChunkSizeAlmostDone? ||
    s.ChunkData? || s.ChunkDataAlmostDone? || s.ChunkDataDone?
  }

  /** How many more times `reexecute` can be reached from a state with the same byte. */
  function Rank(s: State): nat {
    if s.HeaderValueLws? || s.HeaderValueDiscardLws? then 3
    else if s.HeaderFieldStart? then 2
    else if s.HeadersAlmostDone? || s.HeaderValue? || s.BodyIdentity? || s.StartReqOrRes? then 1
    else 0
  }

  /** The states with an inner loop or a jump over many bytes. */
  predicate IsBulk(s: State) {
    s.HeaderField? || s.HeaderValue? || s.BodyIdentity? || s.BodyIdentityEof? || s.ChunkData?
  }

  predicate IsUrlState(s: State) {
    s.ReqSchema? || s.ReqSchemaSlash? || s.ReqSchemaSlashSlash? || s.ReqServerStart? || s.ReqServer? ||
    s.ReqServerWithAt? || s.ReqPath? || s.ReqQueryStringStart? || s.ReqQueryString? ||
    s.ReqFragmentStart? || s.ReqFragment?
  }

  /** The states in which a mark may be open. */
  predicate MayHoldMark(s: State) {
    IsBulk(s) || IsUrlState(s) || s.ResStatus? || s.ChunkDataAlmostDone?
  }

  /** The states that set nread back to 0. */
  predicate ResetsNread(s: State) { s.HeadersDone? || s.ChunkSizeAlmostDone? || s.ChunkDataDone? }

  /** `reexecute` is only reached in a state of smaller rank, so that at most four trips are
      made for one byte, and never in a bulk state; notify callbacks are made with no mark
      open, and the message is complete at an early exit; only the outer loop raises nread and reports
      an overflow of the headers. */
  predicate Descends(p: Parser, o: Outcome) {
    (o.ctl.Again? ==> Rank(o.p.state) < Rank(p.state) && !IsBulk(o.p.state)) &&
    (o.p.nread == p.nread || (ResetsNread(p.state) && o.p.nread == 0)) &&
    (o.events != [] ==> !MayHoldMark(p.state) && o.mark.NoMark?) && (o.ctl.Exit? ==> o.events == [MessageComplete]) &&
    (o.p.errno.HeaderOverflow? ==> p.errno.HeaderOverflow?)
  }

  // ---------------------------------------------------------------- message framing

  predicate MessageNeedsEof(p: Parser) {
    if p.kind.Request? then false
    else if p.statusCode / 100 == 1 || p.statusCode == 204 || p.statusCode == 304 || p.flags.skipBody then false
    else if p.flags.chunked || p.contentLength != ULLONG_MAX then false
    else true
  }

  predicate ShouldKeepAlive(p: Parser) {
    if p.httpMajor > 0 && p.httpMinor > 0 then
      if p.flags.close then false else !MessageNeedsEof(p)
    else
      if !p.flags.keepAlive then false else !MessageNeedsEof(p)
  }

  function NewMessage(p: Parser): State {
    if ShouldKeepAlive(p) then (if p.kind.Request? then StartReq else StartRes) else Dead
  }

  function Complete(p: Parser, ctl: Control): Outcome {
    Outcome(p.(state := NewMessage(p)), NoMark, NoFlush, [MessageComplete], ctl)
  }

  // ---------------------------------------------------------------- start of a message

  function Begin(p: Parser): Parser {
    p.(flags := NO_FLAGS, contentLength := ULLONG_MAX)
  }

  function FirstMethod(ch: char): Option<Method> {
    match ch
    case 'A' => Some(ACL) case 'B' => Some(BIND) case 'C' => Some(CONNECT) case 'D' => Some(DELETE)
    case 'G' => Some(GET) case 'H' => Some(HEAD) case 'L' => Some(LOCK) case 'M' => Some(MKCOL)
    case 'N' => Some(NOTIFY) case 'O' => Some(OPTIONS) case 'P' => Some(POST) case 'R' => Some(REPORT)
    case 'S' => Some(SUBSCRIBE) case 'T' => Some(TRACE) case 'U' => Some(UNLOCK)
    case _ => None
  }

  /** The XX table of s_req_method: at this index this byte turns one method into another. */
  function SwitchMethod(m: Method, i: nat, ch: char): Option<Method> {
    match (m, i, ch)
    case (POST, 1, 'U') => Some(PUT)
    case (POST, 1, 'A') => Some(PATCH)
    case (CONNECT, 1, 'H') => Some(CHECKOUT)
    case (CONNECT, 2, 'P') => Some(COPY)
    case (MKCOL, 1, 'O') => Some(MOVE)
    case (MKCOL, 1, 'E') => Some(MERGE)
    case (MKCOL, 2, 'A') => Some(MKACTIVITY)
    case (MKCOL, 3, 'A') => Some(MKCALENDAR)
    case (SUBSCRIBE, 1, 'E') => Some(SEARCH)
    case (REPORT, 2, 'B') => Some(REBIND)
    case (POST, 1, 'R') => Some(PROPFIND)
    case (PROPFIND, 4, 'P') => Some(PROPPATCH)
    case (PUT, 2, 'R') => Some(PURGE)
    case (LOCK, 1, 'I') => Some(LINK)
    case (UNLOCK, 2, 'S') => Some(UNSUBSCRIBE)
    case (UNLOCK, 2, 'B') => Some(UNBIND)
    case (UNLOCK, 3, 'I') => Some(UNLINK)
    case _ => None
  }

  function DispatchStart(p: Parser, ch: char): (o: Outcome)
    requires IsStart(p.state)
    ensures Descends(p, o)
  {
    if p.state.StartReqOrRes? then
      if IsCrLf(ch) then Go(p)
      else if ch == 'H' then Outcome(Begin(p).(state := ResOrRespH), NoMark, NoFlush, [MessageBegin], Next)
      else Reexecute(Begin(p).(kind := Request), StartReq)
    else if p.state.ResOrRespH? then
      if ch == 'T' then To(p.(kind := Response), ResHT)
      else if ch != 'E' then Fail(p, InvalidConstant)
      else To(p.(kind := Request, httpMethod := HEAD, index := 2), ReqMethod)
    else if p.state.StartRes? then
      if ch == 'H' then Outcome(Begin(p).(state := ResH), NoMark, NoFlush, [MessageBegin], Next)
      else if IsCrLf(ch) then Outcome(Begin(p), NoMark, NoFlush, [MessageBegin], Next)
      else Fail(Begin(p), InvalidConstant)
    else if p.state.StartReq? then
      if IsCrLf(ch) then Go(p)
      else if !IsAlpha(ch) || FirstMethod(ch).None? then Fail(Begin(p), InvalidMethod)
      else Outcome(Begin(p).(httpMethod := FirstMethod(ch).value, index := 1, state := ReqMethod),
                   NoMark, NoFlush, [MessageBegin], Next)
    else // Dead
      if IsCrLf(ch) then Go(p) else Fail(p, ClosedConnection)
  }

  function DispatchMethod(p: Parser, ch: char): (o: Outcome)
    ensures Descends(p, o)
  {
    var expected := KeyChar(MethodString(p.httpMethod), p.index);
    if ch == '\0' then Fail(p, InvalidMethod)
    else if ch == ' ' && expected == '\0' then To(p.(index := p.index + 1), ReqSpacesBeforeUrl)
    else if ch == expected then Go(p.(index := p.index + 1))
    else if IsAlpha(ch) then
      match SwitchMethod(p.httpMethod, p.index, ch)
      case Some(m) => Go(p.(httpMethod := m, index := p.index + 1))
      case None => Fail(p, InvalidMethod)
    else if ch == '-' && p.index == 1 && p.httpMethod.MKCOL? then
      Go(p.(httpMethod := MSEARCH, index := p.index + 1))
    else Fail(p, InvalidMethod)
  }

  // ---------------------------------------------------------------- URL

  /** parse_url_char */
  function ParseUrlChar(s: State, ch: char): (r: State)
    ensures IsUrlState(r) || r == Dead
  {
    if ch == ' ' || ch == '\r' || ch == '\n' || ch == '\t' || ch == '\U{0C}' then Dead
    else
      if s.ReqSpacesBeforeUrl? then
        if ch == '/' || ch == '*' then ReqPath
        else if IsAlpha(ch) then ReqSchema
        else Dead
      else if s.ReqSchema? then
        if IsAlpha(ch) then ReqSchema
        else if ch == ':' then ReqSchemaSlash
        else Dead
      else if s.ReqSchemaSlash? then if ch == '/' then ReqSchemaSlashSlash else Dead
      else if s.ReqSchemaSlashSlash? then if ch == '/' then ReqServerStart else Dead
      else if s.ReqServerWithAt? || s.ReqServerStart? || s.ReqServer? then
        if s.ReqServerWithAt? && ch == '@' then Dead
        else if ch == '/' then ReqPath
        else if ch == '?' then ReqQueryStringStart
        else if ch == '@' then ReqServerWithAt
        else if IsUserinfoChar(ch) || ch == '[' || ch == ']' then ReqServer
        else Dead
      else if s.ReqPath? then
        if IsUrlChar(ch) then ReqPath
        else if ch == '?' then ReqQueryStringStart
        else if ch == '#' then ReqFragmentStart
        else Dead
      else if s.ReqQueryStringStart? || s.ReqQueryString? then
        if IsUrlChar(ch) || ch == '?' then ReqQueryString
        else if ch == '#' then ReqFragmentStart
        else Dead
      else if s.ReqFragmentStart? then
        if IsUrlChar(ch) || ch == '?' then ReqFragment
        else if ch == '#' then ReqFragmentStart
        else Dead
      else if s.ReqFragment? then if IsUrlChar(ch) || ch == '?' || ch == '#' then ReqFragment else Dead
      else Dead
  }

  function UrlStep(p: Parser, s: State, ch: char, mark: Mark): Outcome {
    var s' := ParseUrlChar(s, ch);
    if s'.Dead? then Outcome(p.(state := Dead, errno := InvalidUrl), mark, NoFlush, [], Next)
    else Outcome(p.(state := s'), mark, NoFlush, [], Next)
  }

  function DispatchUrl(p: Parser, ch: char): (o: Outcome)
    ensures Descends(p, o)
  {
    if p.state.ReqSpacesBeforeUrl? then
      if ch == ' ' then Go(p)
      else UrlStep(p, if p.httpMethod.CONNECT? then ReqServerStart else p.state, ch, MarkOf(Url))
    else if p.state.ReqSchema? || p.state.ReqSchemaSlash? || p.state.ReqSchemaSlashSlash? ||
            p.state.ReqServerStart? then
      if ch == ' ' || IsCrLf(ch) then Fail(p, InvalidUrl) else UrlStep(p, p.state, ch, NoMark)
    else
      if ch == ' ' then Outcome(p.(state := ReqHttpStart), NoMark, UpTo(Url), [], Next)
      else if IsCrLf(ch) then
        Outcome(p.(httpMajor := 0, httpMinor := 9, state := if ch == '\r' then ReqLineAlmostDone else HeaderFieldStart),
                NoMark, UpTo(Url), [], Next)
      else UrlStep(p, p.state, ch, NoMark)
  }

  // ---------------------------------------------------------------- version and status

  function MajorDigit(p: Parser, ch: char, dot: State): Outcome {
    if ch == '.' then To(p, dot)
    else if !IsNum(ch) then Fail(p, InvalidVersion)
    else
      var p' := p.(httpMajor := p.httpMajor * 10 + Digit(ch));
      if p'.httpMajor > 999 then Fail(p', InvalidVersion) else Go(p')
  }

  function MinorDigit(p: Parser, ch: char): Outcome {
    if !IsNum(ch) then Fail(p, InvalidVersion)
    else
      var p' := p.(httpMinor := p.httpMinor * 10 + Digit(ch));
      if p'.httpMinor > 999 then Fail(p', InvalidVersion) else Go(p')
  }

  function DispatchRequestVersion(p: Parser, ch: char): (o: Outcome)
    ensures Descends(p, o)
  {
    if p.state.ReqHttpStart? then if ch == 'H' then To(p, ReqHttpH) else if ch == ' ' then Go(p)
       else Fail(p, InvalidConstant)
    else if p.state.ReqHttpH? then Check(p, ch == 'T', ReqHttpHT)
    else if p.state.ReqHttpHT? then Check(p, ch == 'T', ReqHttpHTT)
    else if p.state.ReqHttpHTT? then Check(p, ch == 'P', ReqHttpHTTP)
    else if p.state.ReqHttpHTTP? then Check(p, ch == '/', ReqFirstHttpMajor)
    else if p.state.ReqFirstHttpMajor? then
      if ch < '1' || ch > '9' then Fail(p, InvalidVersion) else To(p.(httpMajor := Digit(ch)), ReqHttpMajor)
    else if p.state.ReqHttpMajor? then MajorDigit(p, ch, ReqFirstHttpMinor)
    else if p.state.ReqFirstHttpMinor? then
      if !IsNum(ch) then Fail(p, InvalidVersion) else To(p.(httpMinor := Digit(ch)), ReqHttpMinor)
    else if p.state.ReqHttpMinor? then
      if ch == '\r' then To(p, ReqLineAlmostDone)
      else if ch == '\n' then To(p, HeaderFieldStart)
      else MinorDigit(p, ch)
    else // ReqLineAlmostDone
      if ch != '\n' then Fail(p, LfExpected) else To(p, HeaderFieldStart)
  }

  function DispatchResponseLine(p: Parser, ch: char): (o: Outcome)
    ensures Descends(p, o)
  {
    if p.state.ResH? then Check(p, ch == 'T', ResHT)
    else if p.state.ResHT? then Check(p, ch == 'T', ResHTT)
    else if p.state.ResHTT? then Check(p, ch == 'P', ResHTTP)
    else if p.state.ResHTTP? then Check(p, ch == '/', ResFirstHttpMajor)
    else if p.state.ResFirstHttpMajor? then
      if !IsNum(ch) then Fail(p, InvalidVersion) else To(p.(httpMajor := Digit(ch)), ResHttpMajor)
    else if p.state.ResHttpMajor? then MajorDigit(p, ch, ResFirstHttpMinor)
    else if p.state.ResFirstHttpMinor? then
      if !IsNum(ch) then Fail(p, InvalidVersion) else To(p.(httpMinor := Digit(ch)), ResHttpMinor)
    else if p.state.ResHttpMinor? then if ch == ' ' then To(p, ResFirstStatusCode) else MinorDigit(p, ch)
    else if p.state.ResFirstStatusCode? then
      if !IsNum(ch) then (if ch == ' ' then Go(p) else Fail(p, InvalidStatus))
      else To(p.(statusCode := Digit(ch)), ResStatusCode)
    else if p.state.ResStatusCode? then
      if !IsNum(ch) then
        if ch == ' ' then To(p, ResStatusStart)
        else if ch == '\r' then To(p, ResLineAlmostDone)
        else if ch == '\n' then To(p, HeaderFieldStart)
        else Fail(p, InvalidStatus)
      else
        var p' := p.(statusCode := p.statusCode * 10 + Digit(ch));
        if p'.statusCode > 999 then Fail(p', InvalidStatus) else Go(p')
    else if p.state.ResStatusStart? then
      if ch == '\r' then To(p, ResLineAlmostDone)
      else if ch == '\n' then To(p, HeaderFieldStart)
      else Outcome(p.(state := ResStatus, index := 0), MarkOf(Status(p.statusCode)), NoFlush, [], Next)
    else if p.state.ResStatus? then
      if ch == '\r' then Outcome(p.(state := ResLineAlmostDone), NoMark, UpTo(Status(p.statusCode)), [], Next)
      else if ch == '\n' then Outcome(p.(state := HeaderFieldStart), NoMark, UpTo(Status(p.statusCode)), [], Next)
      else Go(p)
    else Check(p, ch == '\n', HeaderFieldStart) // ResLineAlmostDone
  }

  // ---------------------------------------------------------------- header names

  function FirstHeaderState(c: char): HeaderState {
    if c == 'c' then HC
    else if c == 'p' then MatchingProxyConnection
    else if c == 't' then MatchingTransferEncoding
    else if c == 'u' then MatchingUpgrade
    else General
  }

  function DispatchFieldStart(p: Parser, ch: char): (o: Outcome)
    requires p.state.HeaderFieldStart?
    ensures Descends(p, o)
  {
    if ch == '\r' then To(p, HeadersAlmostDone)
    else if ch == '\n' then Reexecute(p, HeadersAlmostDone)
    else if Token(ch) == '\0' then Fail(p, InvalidHeaderToken)
    else Outcome(p.(index := 0, state := HeaderField, headerState := FirstHeaderState(Token(ch))),
                 MarkOf(Field), NoFlush, [], Next)
  }

  /** One step of matching a keyword: `index` is the position of the previous byte. */
  function MatchKey(p: Parser, c: char, key: string, miss: HeaderState, hit: HeaderState): (r: Parser)
    ensures r == p.(index := p.index + 1, headerState := r.headerState)
    ensures p.index + 1 < |key| ==>
              r.headerState == miss || r.headerState == hit ||
              (r.headerState == p.headerState && r.index < |key| - 1)
  {
    var i := p.index + 1;
    if i > |key| || c != KeyChar(key, i) then p.(index := i, headerState := miss)
    else if i == |key| - 1 then p.(index := i, headerState := hit)
    else p.(index := i)
  }

  /** The inner switch of s_header_field for a token byte `ch` with table value `c`. */
  function FieldByte(p: Parser, ch: char, c: char): Parser {
    match p.headerState
    case General => p
    case HC => p.(index := p.index + 1, headerState := if c == 'o' then HCO else General)
    case HCO => p.(index := p.index + 1, headerState := if c == 'n' then HCON else General)
    case HCON =>
      p.(index := p.index + 1,
         headerState := if c == 'n' then MatchingConnection else if c == 't' then MatchingContentLength else General)
    case MatchingConnection => MatchKey(p, c, "connection", General, Connection)
    case MatchingProxyConnection => MatchKey(p, c, "proxy-connection", General, Connection)
    case MatchingContentLength => MatchKey(p, c, "content-length", General, ContentLength)
    case MatchingTransferEncoding => MatchKey(p, c, "transfer-encoding", General, TransferEncoding)
    case MatchingUpgrade => MatchKey(p, c, "upgrade", General, Upgrade)
    case Connection | ContentLength | TransferEncoding | Upgrade =>
      if ch != ' ' then p.(headerState := General) else p
    case _ => p.(errno := AssertFailed)
  }

  function DispatchField(p: Parser, ch: char): (o: Outcome)
    ensures Descends(p, o)
  {
    if Token(ch) != '\0' then Go(FieldByte(p, ch, Token(ch)))
    else if ch == ':' then Outcome(p.(state := HeaderValueDiscardWs), NoMark, UpTo(Field), [], Next)
    else Fail(p, InvalidHeaderToken)
  }

  // ---------------------------------------------------------------- header values

  /** s_header_value_start */
  function ValueStart(p0: Parser, ch: char): Outcome {
    var p := p0.(state := HeaderValue, index := 0);
    var c := Lower(ch);
    if p.headerState.Upgrade? then Marked(p.(flags := p.flags.(upgrade := true), headerState := General))
    else if p.headerState.TransferEncoding? then
      Marked(p.(headerState := if c == 'c' then MatchingTransferEncodingChunked else General))
    else if p.headerState.ContentLength? then
      if !IsNum(ch) then Marked(p.(errno := InvalidContentLength))
      else if p.flags.contentLength then Marked(p.(errno := UnexpectedContentLength))
      else Marked(p.(flags := p.flags.(contentLength := true), contentLength := Digit(ch)))
    else if p.headerState.Connection? then
      Marked(p.(headerState := if c == 'k' then MatchingConnectionKeepAlive
                               else if c == 'c' then MatchingConnectionClose
                               else if c == 'u' then MatchingConnectionUpgrade
                               else MatchingConnectionToken))
    else if p.headerState.MatchingConnectionTokenStart? then Marked(p)
    else Marked(p.(headerState := General))
  }

  function Marked(p: Parser): Outcome { Outcome(p, MarkOf(Value), NoFlush, [], Next) }

  /** The flag of the keyword that has just been matched. */
  function ConnectionFlags(f: Flags, h: HeaderState): Flags {
    if h.ConnectionKeepAlive? then f.(keepAlive := true)
    else if h.ConnectionClose? then f.(close := true)
    else if h.ConnectionUpgrade? then f.(connectionUpgrade := true)
    else f
  }

  function SetConnectionFlag(p: Parser): Parser { p.(flags := ConnectionFlags(p.flags, p.headerState)) }

  /** What ends a header: the flag its value asked for. */
  function FinishHeader(p: Parser): Parser {
    if p.headerState.TransferEncodingChunked? then p.(flags := p.flags.(chunked := true))
    else SetConnectionFlag(p)
  }

  function ContentLengthDigit(p: Parser, ch: char): Parser {
    if ch == ' ' then p
    else if !IsNum(ch) then p.(errno := InvalidContentLength)
    else if (ULLONG_MAX - 10) / 10 < p.contentLength then p.(errno := InvalidContentLength)
    else p.(contentLength := p.contentLength * 10 + Digit(ch))
  }

  /** The header states that scan the list of a Connection header. */
  predicate IsConnectionScan(h: HeaderState) {
    h.MatchingConnectionTokenStart? || h.MatchingConnectionKeepAlive? || h.MatchingConnectionClose? ||
    h.MatchingConnectionUpgrade? || h.MatchingConnectionToken? || h.ConnectionKeepAlive? || h.ConnectionClose? ||
    h.ConnectionUpgrade?
  }

  /** The inner switch of s_header_value in those states. */
  function ConnectionByte(p: Parser, ch: char): Parser {
    var c := Lower(ch);
    var h := p.headerState;
    if h.MatchingConnectionTokenStart? then
      if c == 'k' then p.(headerState := MatchingConnectionKeepAlive)
      else if c == 'c' then p.(headerState := MatchingConnectionClose)
      else if c == 'u' then p.(headerState := MatchingConnectionUpgrade)
      else if Token(c) != '\0' then p.(headerState := MatchingConnectionToken)
      else if IsBlank(c) then p
      else p.(headerState := General)
    else if h.MatchingConnectionKeepAlive? then
      MatchKey(p, c, "keep-alive", MatchingConnectionToken, ConnectionKeepAlive)
    else if h.MatchingConnectionClose? then MatchKey(p, c, "close", MatchingConnectionToken, ConnectionClose)
    else if h.MatchingConnectionUpgrade? then MatchKey(p, c, "upgrade", MatchingConnectionToken, ConnectionUpgrade)
    else if h.MatchingConnectionToken? then
      if ch == ',' then p.(headerState := MatchingConnectionTokenStart, index := 0) else p
    else // a keyword has just been matched
      if ch == ',' then SetConnectionFlag(p).(headerState := MatchingConnectionTokenStart, index := 0)
      else if ch != ' ' then p.(headerState := MatchingConnectionToken)
      else p
  }

  /** The inner switch of s_header_value for a byte that is neither CR nor LF. */
  function ValueByte(p: Parser, ch: char): Parser {
    var h := p.headerState;
    if h.General? then p
    else if h.Connection? || h.TransferEncoding? then p.(errno := AssertFailed)
    else if h.ContentLength? then ContentLengthDigit(p, ch)
    else if h.MatchingTransferEncodingChunked? then MatchKey(p, Lower(ch), "chunked", General, TransferEncodingChunked)
    else if IsConnectionScan(h) then ConnectionByte(p, ch)
    else if h.TransferEncodingChunked? then (if ch != ' ' then p.(headerState := General) else p)
    else p.(headerState := General)
  }

  /** s_header_value. With `skip` the byte lies inside a stretch that memchr jumps over in
      state h_general, where only CR and LF are looked for. */
  function DispatchValue(p: Parser, ch: char, skip: bool): (o: Outcome)
    requires p.state.HeaderValue?
    ensures Descends(p, o)
  {
    if ch == '\r' then Outcome(p.(state := HeaderAlmostDone), NoMark, UpTo(Value), [], Next)
    else if ch == '\n' then Outcome(p.(state := HeaderAlmostDone), NoMark, UpTo(Value), [], Again)
    else if !skip && !IsHeaderChar(ch) then Fail(p, InvalidHeaderToken)
    else Go(ValueByte(p, ch))
  }

  function DispatchValueEdges(p: Parser, ch: char): (o: Outcome)
    requires IsValueEdge(p.state)
    ensures Descends(p, o)
  {
    if p.state.HeaderValueDiscardWs? then
      if IsBlank(ch) then Go(p)
      else if ch == '\r' then To(p, HeaderValueDiscardWsAlmostDone)
      else if ch == '\n' then To(p, HeaderValueDiscardLws)
      else ValueStart(p, ch)
    else if p.state.HeaderValueStart? then ValueStart(p, ch)
    else if p.state.HeaderAlmostDone? then if ch != '\n' then Fail(p, LfExpected) else To(p, HeaderValueLws)
    else if p.state.HeaderValueLws? then
      if IsBlank(ch) then Reexecute(p, HeaderValueStart) else Reexecute(FinishHeader(p), HeaderFieldStart)
    else if p.state.HeaderValueDiscardWsAlmostDone? then Check(p, ch == '\n', HeaderValueDiscardLws)
    else // HeaderValueDiscardLws
      if IsBlank(ch) then To(p, HeaderValueDiscardWs)
      else Outcome(FinishHeader(p).(state := HeaderFieldStart), MarkOf(Value), UpTo(Value), [], Again)
  }

  // ---------------------------------------------------------------- end of headers

  function DispatchHeadersDone(p: Parser, ch: char): (o: Outcome)
    requires p.state.HeadersAlmostDone? || p.state.HeadersDone?
    ensures Descends(p, o)
  {
    if p.state.HeadersAlmostDone? then
      if ch != '\n' then Fail(p, Strict)
      else if p.flags.trailing then Outcome(p.(state := MessageDone), NoMark, NoFlush, [ChunkComplete], Again)
      else if p.flags.chunked && p.flags.contentLength then Fail(p, UnexpectedContentLength)
      else
        var up := (p.flags.upgrade && p.flags.connectionUpgrade) || p.httpMethod.CONNECT?;
        Outcome(p.(state := HeadersDone, upgrade := up), NoMark, NoFlush,
                [HeadersComplete(p.httpMethod, up, p.contentLength)], Again)
    else // HeadersDone
      if ch != '\n' then Fail(p, Strict)
      else
        var q := p.(nread := 0);
        var hasBody := q.flags.chunked || (q.contentLength > 0 && q.contentLength != ULLONG_MAX);
        if q.upgrade && (q.httpMethod.CONNECT? || q.flags.skipBody || !hasBody) then Complete(q, Exit)
        else if q.flags.skipBody then Complete(q, Next)
        else if q.flags.chunked then To(q, ChunkSizeStart)
        else if q.contentLength == 0 then Complete(q, Next)
        else if q.contentLength != ULLONG_MAX then To(q, BodyIdentity)
        else if !MessageNeedsEof(q) then Complete(q, Next)
        else To(q, BodyIdentityEof)
  }

  // ---------------------------------------------------------------- bodies

  predicate BodyLengthOk(p: Parser) { p.contentLength != 0 && p.contentLength != ULLONG_MAX }

  function DispatchBody(p: Parser, ch: char): (o: Outcome)
    requires p.state.BodyIdentity? || p.state.BodyIdentityEof? || p.state.MessageDone?
    ensures Descends(p, o)
  {
    if p.state.BodyIdentity? then
      if !BodyLengthOk(p) then Fail(p, AssertFailed)
      else
        var q := p.(contentLength := p.contentLength - 1);
        if q.contentLength == 0
        then Outcome(q.(state := MessageDone), MarkOf(Body), Through(Body), [], Again)
        else Outcome(q, MarkOf(Body), NoFlush, [], Next)
    else if p.state.BodyIdentityEof? then Outcome(p, MarkOf(Body), NoFlush, [], Next)
    else Complete(p, if p.upgrade then Exit else Next) // MessageDone
  }

  function ChunkDigit(p: Parser, ch: char): Outcome {
    if Unhex(ch) == -1 then
      if ch == ';' || ch == ' ' then To(p, ChunkParameters) else Fail(p, InvalidChunkSize)
    else if (ULLONG_MAX - 16) / 16 < p.contentLength then Fail(p, InvalidContentLength)
    else Go(p.(contentLength := p.contentLength * 16 + Unhex(ch)))
  }

  function DispatchChunk(p: Parser, ch: char): (o: Outcome)
    requires IsChunkState(p.state)
    ensures Descends(p, o)
  {
    if !p.flags.chunked then Fail(p, AssertFailed)
    else
      if p.state.ChunkSizeStart? then
        if p.nread != 1 then Fail(p, AssertFailed)
        else if Unhex(ch) == -1 then Fail(p, InvalidChunkSize)
        else To(p.(contentLength := Unhex(ch)), ChunkSize)
      else if p.state.ChunkSize? then if ch == '\r' then To(p, ChunkSizeAlmostDone) else ChunkDigit(p, ch)
      else if p.state.ChunkParameters? then if ch == '\r' then To(p, ChunkSizeAlmostDone) else Go(p)
      else if p.state.ChunkSizeAlmostDone? then
        if ch != '\n' then Fail(p, Strict)
        else
          var q := if p.contentLength == 0
                   then p.(nread := 0, flags := p.flags.(trailing := true), state := HeaderFieldStart)
                   else p.(nread := 0, state := ChunkData);
          Outcome(q, NoMark, NoFlush, [ChunkHeader(p.contentLength)], Next)
      else if p.state.ChunkData? then
        if !BodyLengthOk(p) then Fail(p, AssertFailed)
        else
          var q := p.(contentLength := p.contentLength - 1);
          Outcome(if q.contentLength == 0 then q.(state := ChunkDataAlmostDone) else q, MarkOf(Body), NoFlush, [], Next)
      else if p.state.ChunkDataAlmostDone? then
        if p.contentLength != 0 then Fail(p, AssertFailed)
        else if ch != '\r' then Fail(p, Strict)
        else Outcome(p.(state := ChunkDataDone), NoMark, UpTo(Body), [], Next)
      else // ChunkDataDone
        if ch != '\n' then Fail(p, Strict)
        else Outcome(p.(nread := 0, state := ChunkSizeStart), NoMark, NoFlush, [ChunkComplete], Next)
  }

  // ---------------------------------------------------------------- the switch

  /** One trip through switch (CURRENT_STATE()) when the buffer holds just this byte. */
  function Dispatch(p: Parser, ch: char, skip: bool): (o: Outcome)
    ensures Descends(p, o)
  {
    var s := p.state;
    if IsStart(s) then DispatchStart(p, ch)
    else if s.ReqMethod? then DispatchMethod(p, ch)
    else if s.ReqSpacesBeforeUrl? || IsUrlState(s) then DispatchUrl(p, ch)
    else if IsRequestVersion(s) then DispatchRequestVersion(p, ch)
    else if IsResponseLine(s) then DispatchResponseLine(p, ch)
    else if s.HeaderFieldStart? then DispatchFieldStart(p, ch)
    else if s.HeaderField? then DispatchField(p, ch)
    else if s.HeaderValue? then DispatchValue(p, ch, skip)
    else if IsValueEdge(s) then DispatchValueEdges(p, ch)
    else if s.HeadersAlmostDone? || s.HeadersDone? then DispatchHeadersDone(p, ch)
    else if IsChunkState(s) then DispatchChunk(p, ch)
    else DispatchBody(p, ch)
  }
}
