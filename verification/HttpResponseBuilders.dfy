/** HttpResponseBuilder: the printer of responses, and the parser as its inverse. */
module HttpResponseBuilders {
  import opened HttpTypes
  import opened HttpAutomaton
  import opened HttpScan
  import opened HttpRuns
  import opened HttpInvariant
  import opened HttpNread
  import opened HttpPieces
  import opened HttpFragments
  import opened HttpReads
  import opened HttpNames
  import opened HttpValues
  import opened HttpHeaders
  import opened HttpRequestBuilders
  import opened HttpBodies
  import opened HttpText

  // ---------------------------------------------------------------- the status message

  function InformationText(n: nat): string {
    match n case 100 => "Continue" case 101 => "Switching Protocols" case 102 => "Processing" case _ => "Unknown"
  }

  function SuccessText(n: nat): string {
    match n
    case 200 => "OK" case 201 => "Created" case 202 => "Accepted" case 203 => "Non-Authoritative Information"
    case 204 => "No Content" case 205 => "Reset Content" case 206 => "Partial Content" case 207 => "Multi-Status"
    case 208 => "Already Reported" case 226 => "IM Used" case _ => "Unknown"
  }

  function RedirectText(n: nat): string {
    match n
    case 300 => "Multiple Choices" case 301 => "Moved Permanently" case 302 => "Found" case 303 => "See Other"
    case 304 => "Not Modified" case 305 => "Use Proxy" case 307 => "Temporary Redirect"
    case 308 => "Permanent Redirect" case _ => "Unknown"
  }

  function ClientErrorText(n: nat): string {
    match n
    case 400 => "Bad Request" case 401 => "Unauthorized" case 402 => "Payment Required" case 403 => "Forbidden"
    case 404 => "Not Found" case 405 => "Method Not Allowed" case 406 => "Not Acceptable"
    case 407 => "Proxy Authentication Required" case 408 => "Request Timeout" case 409 => "Conflict"
    case 410 => "Gone" case 411 => "Length Required" case 412 => "Precondition Failed"
    case 413 => "Payload Too Large" case 414 => "URI Too Long" case _ => LateClientErrorText(n)
  }

  function LateClientErrorText(n: nat): string {
    match n
    case 415 => "Unsupported Media Type" case 416 => "Range Not Satisfiable" case 417 => "Expectation Failed"
    case 421 => "Misdirected Request" case 422 => "Unprocessable Entity" case 423 => "Locked"
    case 424 => "Failed Dependency" case 426 => "Upgrade Required" case 428 => "Precondition Required"
    case 429 => "Too Many Requests" case 431 => "Request Header Fields Too Large"
    case 451 => "Unavailable For Legal Reasons" case _ => "Unknown"
  }

  function ServerErrorText(n: nat): string {
    match n
    case 500 => "Internal Server Error" case 501 => "Not Implemented" case 502 => "Bad Gateway"
    case 503 => "Service Unavailable" case 504 => "Gateway Timeout" case 505 => "HTTP Version Not Supported"
    case 506 => "Variant Also Negotiates" case 507 => "Insufficient Storage" case 508 => "Loop Detected"
    case 510 => "Not Extended" case 511 => "Network Authentication Required" case _ => "Unknown"
  }

  /** get_http_status_string */
  function StatusText(n: nat): string {
    if n < 200 then InformationText(n)
    else if n < 300 then SuccessText(n)
    else if n < 400 then RedirectText(n)
    else if n < 500 then ClientErrorText(n)
    else ServerErrorText(n)
  }

  /** A text that can stand as a status message. */
  predicate IsReason(s: string) { s != "" && forall i | 0 <= i < |s| :: ' ' <= s[i] <= '~' }

  lemma InformationReason(n: nat) ensures IsReason(InformationText(n)) { }

  lemma EarlySuccessReason(n: nat) requires n < 203 ensures IsReason(SuccessText(n)) { }
  lemma PlainSuccessReason(n: nat) requires 203 <= n < 205 ensures IsReason(SuccessText(n)) { }
  lemma ContentReason(n: nat) requires 205 <= n < 207 ensures IsReason(SuccessText(n)) { }
  lemma LateSuccessReason(n: nat) requires n >= 207 ensures IsReason(SuccessText(n)) { }

  lemma EarlyRedirectReason(n: nat) requires n < 304 ensures IsReason(RedirectText(n)) { }
  lemma LateRedirectReason(n: nat) requires n >= 304 ensures IsReason(RedirectText(n)) { }

  lemma BadRequestReason(n: nat)
    requires 400 <= n < 405
    ensures IsReason(ClientErrorText(n))
  {
    hide LateClientErrorText;
  }
  lemma NotAllowedReason(n: nat)
    requires 405 <= n < 408
    ensures IsReason(ClientErrorText(n))
  {
    hide LateClientErrorText;
  }
  lemma ConflictReason(n: nat)
    requires 408 <= n < 410
    ensures IsReason(ClientErrorText(n))
  {
    hide LateClientErrorText;
  }
  lemma GoneReason(n: nat) requires 410 <= n < 415 ensures IsReason(ClientErrorText(n)) { hide LateClientErrorText; }
  lemma OtherErrorReason(n: nat) requires n < 417 ensures IsReason(LateClientErrorText(n)) { }
  lemma UnsupportedReason(n: nat) requires 417 <= n < 422 ensures IsReason(LateClientErrorText(n)) { }
  lemma UnprocessableReason(n: nat) requires 422 <= n < 428 ensures IsReason(LateClientErrorText(n)) { }
  lemma PreconditionReason(n: nat) requires 428 <= n < 431 ensures IsReason(LateClientErrorText(n)) { }
  lemma TooLargeReason(n: nat) requires n >= 431 ensures IsReason(LateClientErrorText(n)) { }

  lemma ClientErrorReason(n: nat)
    ensures IsReason(ClientErrorText(n))
  {
    if 400 <= n < 405 { BadRequestReason(n); }
    else if 405 <= n < 408 { NotAllowedReason(n); }
    else if 408 <= n < 410 { ConflictReason(n); }
    else if 410 <= n < 415 { GoneReason(n); }
    else {
      assert ClientErrorText(n) == LateClientErrorText(n);
      if n < 417 { OtherErrorReason(n); }
      else if n < 422 { UnsupportedReason(n); }
      else if n < 428 { UnprocessableReason(n); }
      else if n < 431 { PreconditionReason(n); }
      else { TooLargeReason(n); }
    }
    hide LateClientErrorText, IsReason;
  }

  lemma EarlyServerErrorReason(n: nat) requires n < 502 ensures IsReason(ServerErrorText(n)) { }
  lemma GatewayReason(n: nat) requires 502 <= n < 504 ensures IsReason(ServerErrorText(n)) { }
  lemma TimeoutReason(n: nat) requires 504 <= n < 506 ensures IsReason(ServerErrorText(n)) { }
  lemma VariantReason(n: nat) requires 506 <= n < 508 ensures IsReason(ServerErrorText(n)) { }
  lemma LateServerErrorReason(n: nat) requires n >= 508 ensures IsReason(ServerErrorText(n)) { }

  lemma StatusReason(n: nat)
    ensures IsReason(StatusText(n))
  {
    if n < 200 { InformationReason(n); }
    else if n < 300 {
      if n < 203 { EarlySuccessReason(n); }
      else if n < 205 { PlainSuccessReason(n); }
      else if n < 207 { ContentReason(n); }
      else { LateSuccessReason(n); }
    }
    else if n < 400 { if n < 304 { EarlyRedirectReason(n); } else { LateRedirectReason(n); } }
    else if n < 500 { ClientErrorReason(n); }
    else if n < 502 { EarlyServerErrorReason(n); }
    else if n < 504 { GatewayReason(n); }
    else if n < 506 { TimeoutReason(n); }
    else if n < 508 { VariantReason(n); }
    else { LateServerErrorReason(n); }
    hide InformationText, SuccessText, RedirectText, ClientErrorText, ServerErrorText, IsReason;
  }

  // ---------------------------------------------------------------- the registered reason phrases

  /** The phrases of RFC 7231, section 6.1, and of the documents that it refers to there: RFC 7232
      (304, 412), RFC 7233 (206, 416) and RFC 7235 (401, 407). */
  function StandardPhrase(n: nat): string {
    match n
    case 100 => "Continue" case 101 => "Switching Protocols" case 200 => "OK" case 201 => "Created"
    case 202 => "Accepted" case 203 => "Non-Authoritative Information" case 204 => "No Content"
    case 205 => "Reset Content" case 206 => "Partial Content" case 300 => "Multiple Choices"
    case 301 => "Moved Permanently" case 302 => "Found" case 303 => "See Other" case 304 => "Not Modified"
    case 305 => "Use Proxy" case 307 => "Temporary Redirect" case 400 => "Bad Request" case 401 => "Unauthorized"
    case 402 => "Payment Required" case 403 => "Forbidden" case 404 => "Not Found" case 405 => "Method Not Allowed"
    case 406 => "Not Acceptable" case 407 => "Proxy Authentication Required" case 408 => "Request Timeout"
    case 409 => "Conflict" case 410 => "Gone" case 411 => "Length Required" case 412 => "Precondition Failed"
    case 413 => "Payload Too Large" case 414 => "URI Too Long" case 415 => "Unsupported Media Type"
    case 416 => "Range Not Satisfiable" case 417 => "Expectation Failed" case 426 => "Upgrade Required"
    case 500 => "Internal Server Error" case 501 => "Not Implemented" case 502 => "Bad Gateway"
    case 503 => "Service Unavailable" case 504 => "Gateway Timeout" case 505 => "HTTP Version Not Supported"
    case _ => ExtensionPhrase(n)
  }

  /** The phrases of the other registered codes: WebDAV (RFC 2518, RFC 4918, RFC 5842), delta
      encoding (RFC 3229), negotiation (RFC 2295), extensions (RFC 2774), RFC 6585, RFC 7238,
      RFC 7540 and RFC 7725. */
  function ExtensionPhrase(n: nat): string {
    match n
    case 102 => "Processing" case 207 => "Multi-Status" case 208 => "Already Reported" case 226 => "IM Used"
    case 308 => "Permanent Redirect" case 421 => "Misdirected Request" case 422 => "Unprocessable Entity"
    case 423 => "Locked" case 424 => "Failed Dependency" case 428 => "Precondition Required"
    case 429 => "Too Many Requests" case 431 => "Request Header Fields Too Large"
    case 451 => "Unavailable For Legal Reasons" case 506 => "Variant Also Negotiates"
    case 507 => "Insufficient Storage" case 508 => "Loop Detected" case 510 => "Not Extended"
    case 511 => "Network Authentication Required"
    case _ => "Unknown"
  }

  /** The status message is the registered reason phrase, and "Unknown" for every other code. */
  lemma StatusIsRegistered(n: nat)
    ensures StatusText(n) == StandardPhrase(n)
  {
    if n < 200 { InformationRegistered(n); }
    else if n < 300 { SuccessRegistered(n); }
    else if n < 400 { RedirectRegistered(n); }
    else if n < 415 { ClientErrorRegistered(n); }
    else if n < 500 { LateErrorRegistered(n); }
    else { ServerErrorRegistered(n); }
    hide InformationText, SuccessText, RedirectText, ClientErrorText, ServerErrorText, StandardPhrase;
  }

  lemma InformationRegistered(n: nat) requires n < 200 ensures InformationText(n) == StandardPhrase(n) { }
  lemma SuccessRegistered(n: nat) requires 200 <= n < 300 ensures SuccessText(n) == StandardPhrase(n) { }
  lemma RedirectRegistered(n: nat) requires 300 <= n < 400 ensures RedirectText(n) == StandardPhrase(n) { }
  lemma ClientErrorRegistered(n: nat) requires 400 <= n < 415 ensures ClientErrorText(n) == StandardPhrase(n) { }
  lemma LateErrorRegistered(n: nat) requires 415 <= n < 500 ensures ClientErrorText(n) == StandardPhrase(n) { }
  lemma ServerErrorRegistered(n: nat) requires n >= 500 ensures ServerErrorText(n) == StandardPhrase(n) { }

  // ---------------------------------------------------------------- reading the status line

  lemma LineTurns(q: Parser, ch: char, o: Outcome)
    requires IsResponseLine(q.state) && q.errno.OK? && o == DispatchResponseLine(q, ch) && o.p.errno.OK?
    ensures Turns(q, ch, o)
  {
    hide Descends, DispatchResponseLine;
  }

  lemma VersionStartTurns(q: Parser)
    requires q.state.StartRes? && q.errno.OK?
    ensures Turns(q, 'H', Outcome(Begin(q).(state := ResH), NoMark, NoFlush, [MessageBegin], Next))
  {
    hide Descends;
  }

  const VERSION_REST := "TTP/1.1 "

  function WordState(i: nat): State {
    if i == 0 then ResH else if i == 1 then ResHT else if i == 2 then ResHTT else if i == 3 then ResHTTP
    else if i == 4 then ResFirstHttpMajor else if i == 5 then ResHttpMajor else if i == 6 then ResFirstHttpMinor
    else if i == 7 then ResHttpMinor else ResFirstStatusCode
  }

  /** The parser after the H and i more bytes of the version. */
  function WordAt(q: Parser, i: nat): Parser {
    q.(state := WordState(i), httpMajor := if i >= 5 then 1 else q.httpMajor, httpMinor := if i >= 7 then 1
       else q.httpMinor)
  }

  lemma WordLetters(q: Parser, i: nat)
    requires i < 4
    ensures DispatchResponseLine(WordAt(q, i), VERSION_REST[i]) == Go(WordAt(q, i + 1))
  {
    hide Descends, MajorDigit, MinorDigit, Digit;
  }

  lemma WordNumbers(q: Parser, i: nat)
    requires 4 <= i < 8
    ensures DispatchResponseLine(WordAt(q, i), VERSION_REST[i]) == Go(WordAt(q, i + 1))
  {
    hide Descends, MinorDigit;
  }

  lemma WordTurns(q: Parser, i: nat)
    requires i < 8 && q.errno.OK?
    ensures Turns(WordAt(q, i), VERSION_REST[i], Go(WordAt(q, i + 1)))
  {
    if i < 4 { WordLetters(q, i); } else { WordNumbers(q, i); }
    assert IsResponseLine(WordAt(q, i).state);
    hide DispatchResponseLine, VERSION_REST, WordState, Turns;
    LineTurns(WordAt(q, i), VERSION_REST[i], Go(WordAt(q, i + 1)));
  }

  lemma {:induction false} WordWalk(q: Parser, n: nat)
    requires n <= 8 && q.errno.OK?
    ensures Plods(WordAt(q, 0), VERSION_REST[..n]) && WalkTo(WordAt(q, 0), VERSION_REST[..n]) == WordAt(q, n)
  {
    hide Turns, Dispatch, WordAt;
    if n == 0 {
      WalkNothing(WordAt(q, 0));
      assert VERSION_REST[..0] == "";
    } else {
      WordWalk(q, n - 1);
      WordTurns(q, n - 1);
      WalkStep(WordAt(q, 0), VERSION_REST[..n - 1], VERSION_REST[n - 1], WordAt(q, n));
      assert VERSION_REST[..n] == VERSION_REST[..n - 1] + [VERSION_REST[n - 1]];
    }
  }

  // ---------------------------------------------------------------- the status code

  function StatusSet(q: Parser, n: nat): Parser { q.(state := ResStatusCode, statusCode := n) }

  predicate ExpectsStatus(q: Parser) { q.state.ResFirstStatusCode? && q.errno.OK? }

  lemma FirstStatusDigit(q: Parser, ch: char)
    requires ExpectsStatus(q) && IsNum(ch)
    ensures Turns(q, ch, Go(StatusSet(q, Digit(ch))))
  {
    LineTurns(q, ch, Go(StatusSet(q, Digit(ch))));
    hide Turns, MajorDigit, MinorDigit;
  }

  lemma NextStatusDigit(q: Parser, n: nat, ch: char)
    requires ExpectsStatus(q) && IsNum(ch)
    ensures var o := DispatchResponseLine(StatusSet(q, n), ch);
            if n * 10 + Digit(ch) <= 999 then o == Go(StatusSet(q, n * 10 + Digit(ch)))
            else o.p.errno.InvalidStatus? && o.mark.NoMark?
  {
    hide Descends, MajorDigit, MinorDigit;
  }

  lemma StatusDigitFails(sc: Scan, q: Parser, n: nat, out: seq<Event>, ch: char)
    requires ExpectsStatus(q) && IsNum(ch) && n * 10 + Digit(ch) > 999 && At(sc, StatusSet(q, n), Nothing, out)
    ensures ByteStep(sc, ch).p.errno.InvalidStatus? && !Live(ByteStep(sc, ch))
  {
    NextStatusDigit(q, n, ch);
    var o := DispatchResponseLine(StatusSet(q, n), ch);
    assert o == Dispatch(StatusSet(q, n), ch, false) by { hide DispatchResponseLine; }
    hide Dispatch, DispatchResponseLine, ByteStep;
    ReadFail(sc, StatusSet(q, n), Nothing, out, ch, o);
  }

  /** A status code is read exactly, or refused when it is above 999. */
  lemma {:induction false} StatusExact(sc: Scan, q: Parser, out: seq<Event>, v: string)
    requires At(sc, q, Nothing, out) && ExpectsStatus(q) && v != "" && AllDigits(v)
    ensures if Decimal(v) <= 999 then At(ScanAll(sc, v), StatusSet(q, Decimal(v)), Nothing, out)
            else ScanAll(sc, v).p.errno.InvalidStatus? && !Live(ScanAll(sc, v))
  {
    hide ByteStep, Turns, IsNum, Digit, Decimal, AllDigits, At, ScanAll, StatusSet, ExpectsStatus, Live;
    var front, ch := v[..|v| - 1], v[|v| - 1];
    DecimalSplit(v);
    if front == "" {
      FirstStatusDigit(q, ch);
      ReadPlain(sc, q, out, ch, StatusSet(q, Digit(ch)));
      ScanOne(sc, ch);
      DigitSmall(ch);
    } else {
      StatusExact(sc, q, out, front);
      ScanAllSnoc(sc, front, ch);
      NextStatus(ScanAll(sc, front), q, Decimal(front), out, ch);
    }
  }

  /** One more digit, read or refused; after a refusal nothing is read. */
  lemma NextStatus(sc: Scan, q: Parser, n: nat, out: seq<Event>, ch: char)
    requires ExpectsStatus(q) && IsNum(ch)
    requires if n <= 999 then At(sc, StatusSet(q, n), Nothing, out) else sc.p.errno.InvalidStatus? && !Live(sc)
    ensures var m := n * 10 + Digit(ch);
            if m <= 999 then At(ByteStep(sc, ch), StatusSet(q, m), Nothing, out)
            else ByteStep(sc, ch).p.errno.InvalidStatus? && !Live(ByteStep(sc, ch))
  {
    hide Turns, At, IsNum, Digit, DispatchResponseLine, Trips;
    var m := n * 10 + Digit(ch);
    if m <= 999 {
      NextStatusDigit(q, n, ch);
      LineTurns(StatusSet(q, n), ch, Go(StatusSet(q, m)));
      ReadPlain(sc, StatusSet(q, n), out, ch, StatusSet(q, m));
    } else if n <= 999 {
      StatusDigitFails(sc, q, n, out, ch);
    }
  }

  lemma DigitSmall(ch: char)
    requires IsNum(ch)
    ensures Digit(ch) <= 9
  {
  }

  // ---------------------------------------------------------------- the reason

  lemma ReasonTurns(q: Parser, ch: char)
    requires q.errno.OK?
    ensures q.state.ResStatusCode? ==> Turns(q, ' ', Go(q.(state := ResStatusStart)))
    ensures q.state.ResStatusStart? && !IsCrLf(ch) ==>
              Turns(q, ch, Outcome(q.(state := ResStatus, index := 0), MarkOf(Status(q.statusCode)), NoFlush, [], Next))
    ensures q.state.ResStatus? && !IsCrLf(ch) ==> Turns(q, ch, Go(q))
    ensures q.state.ResStatus? ==> Turns(q, '\r',
                                         Outcome(q.(state := ResLineAlmostDone), NoMark, UpTo(Status(q.statusCode)), [],
                                                 Next))
    ensures q.state.ResLineAlmostDone? ==> Turns(q, '\n', Go(q.(state := HeaderFieldStart)))
  {
    if q.state.ResStatusCode? { LineTurns(q, ' ', Go(q.(state := ResStatusStart))); }
    if q.state.ResStatusStart? && !IsCrLf(ch) {
      LineTurns(q, ch, Outcome(q.(state := ResStatus, index := 0), MarkOf(Status(q.statusCode)), NoFlush, [], Next));
    }
    if q.state.ResStatus? {
      if !IsCrLf(ch) { LineTurns(q, ch, Go(q)); }
      LineTurns(q, '\r', Outcome(q.(state := ResLineAlmostDone), NoMark, UpTo(Status(q.statusCode)), [], Next));
    }
    if q.state.ResLineAlmostDone? { LineTurns(q, '\n', Go(q.(state := HeaderFieldStart))); }
    hide Turns, MajorDigit, MinorDigit;
  }

  lemma {:induction false} ReasonWalk(q: Parser, s: string)
    requires q.state.ResStatus? && q.errno.OK? && NoCrLf(s)
    ensures Plods(q, s) && WalkTo(q, s) == q
  {
    hide Turns, Dispatch;
    if s == "" {
      WalkNothing(q);
    } else {
      var front, ch := s[..|s| - 1], s[|s| - 1];
      assert s == front + [ch] && !IsCrLf(ch);
      ReasonWalk(q, front);
      ReasonTurns(q, ch);
      WalkStep(q, front, ch, q);
    }
  }

  /** The parser after a reason and the end of the line. */
  function ReasonRead(q: Parser): Parser { q.(state := HeaderFieldStart, index := 0) }

  lemma ReadReason(sc: Scan, q: Parser, out: seq<Event>, reason: string)
    requires At(sc, q, Nothing, out) && q.state.ResStatusCode? && IsReason(reason)
    ensures At(ScanAll(sc, " " + reason + "\r\n"), ReasonRead(q), Nothing, out + [Data(Status(q.statusCode), reason)])
  {
    hide Turns, ByteStep, ScanAll, WalkTo, Plods;
    AtOk(sc, q, Nothing, out);
    assert !IsCrLf(reason[0]);
    assert NoCrLf(reason[1..]) by {
      forall i | 0 <= i < |reason[1..]| ensures !IsCrLf(reason[1..][i]) { assert !IsCrLf(reason[i + 1]); }
    }
    hide At;
    var q1, q2 := q.(state := ResStatusStart), q.(state := ResStatus, index := 0);
    var q3 := q2.(state := ResLineAlmostDone);
    ReasonTurns(q, ' ');
    ReadPlain(sc, q, out, ' ', q1);
    var s1 := ByteStep(sc, ' ');
    ReasonTurns(q1, reason[0]);
    ReadMark(s1, q1, Status(q.statusCode), out, reason[0], q2);
    var s2 := ByteStep(s1, reason[0]);
    ReasonWalk(q2, reason[1..]);
    ReadWalk(s2, q2, Since(Status(q.statusCode), [reason[0]]), out, reason[1..]);
    assert [reason[0]] + reason[1..] == reason;
    var s3 := ScanAll(s2, reason[1..]);
    ReasonTurns(q2, ' ');
    ReadFlush(s3, q2, Status(q.statusCode), reason, out, '\r', q3);
    ReasonTurns(q3, ' ');
    ReadPlain(ByteStep(s3, '\r'), q3, out + [Data(Status(q.statusCode), reason)], '\n', ReasonRead(q));
    ScanValueText(sc, reason);
  }

  function PrintStatusLine(status: nat, reason: string): string {
    "H" + VERSION_REST + DecimalText(status) + (" " + reason + "\r\n")
  }

  /** The parser after a status line. */
  function StatusLineRead(q: Parser, status: nat): Parser {
    Begin(q).(state := HeaderFieldStart, httpMajor := 1, httpMinor := 1, statusCode := status, index := 0)
  }

  /** The version and the status code: read exactly up to 999, refused above. */
  lemma ReadStatus(sc: Scan, q: Parser, out: seq<Event>, status: nat)
    requires At(sc, q, Nothing, out) && q.state.StartRes?
    ensures var r := ScanAll(sc, "H" + VERSION_REST + DecimalText(status));
            if status <= 999
            then At(r, Begin(q).(state := ResStatusCode, httpMajor := 1, httpMinor := 1, statusCode := status), Nothing,
                    out + [MessageBegin])
            else r.p.errno.InvalidStatus? && !Live(r)
  {
    hide Turns, ByteStep, ScanAll, WalkTo, Plods, At, DecimalText, VERSION_REST;
    assert q.errno.OK? by { AtOk(sc, q, Nothing, out); }
    VersionStartTurns(q);
    var q1 := Begin(q).(state := ResH);
    ReadEvents(sc, q, out, 'H', q1, [MessageBegin]);
    ScanOne(sc, 'H');
    assert ['H'] == "H";
    assert WordAt(q1, 0) == q1;
    WordWalk(q1, 8);
    RestLength();
    var s1 := ScanAll(sc, "H");
    ReadWalk(s1, q1, Nothing, out + [MessageBegin], VERSION_REST);
    ScanAllConcat(sc, "H", VERSION_REST);
    StatusExact(ScanAll(s1, VERSION_REST), WordAt(q1, 8), out + [MessageBegin], DecimalText(status));
    ScanAllConcat(sc, "H" + VERSION_REST, DecimalText(status));
  }

  lemma RestLength()
    ensures |VERSION_REST| == 8 && VERSION_REST[..8] == VERSION_REST
  {
  }

  lemma ReadStatusLine(sc: Scan, q: Parser, out: seq<Event>, status: nat, reason: string)
    requires At(sc, q, Nothing, out) && q.state.StartRes? && status <= 999 && IsReason(reason)
    ensures At(ScanAll(sc, PrintStatusLine(status, reason)), StatusLineRead(q, status), Nothing,
               out + [MessageBegin, Data(Status(status), reason)])
  {
    hide ScanAll, At, DecimalText, VERSION_REST, IsReason;
    ReadStatus(sc, q, out, status);
    var q1 := Begin(q).(state := ResStatusCode, httpMajor := 1, httpMinor := 1, statusCode := status);
    var a := "H" + VERSION_REST + DecimalText(status);
    ReadReason(ScanAll(sc, a), q1, out + [MessageBegin], reason);
    ScanAllConcat(sc, a, " " + reason + "\r\n");
    assert out + [MessageBegin] + [Data(Status(status), reason)] == out + [MessageBegin, Data(Status(status), reason)];
  }

  // ---------------------------------------------------------------- the builder

  function PrintResponse(status: nat, hs: seq<Header>, body: string): string {
    PrintStatusLine(status, StatusText(status)) + PrintHeaders(hs) + "\r\n" + body
  }

  class HttpResponseBuilder {
    const statusCode: nat
    const statusMessage: string
    var headers: seq<Header>

    constructor (status: nat)
      ensures statusCode == status && statusMessage == StatusText(status) && headers == []
    {
      statusCode, statusMessage, headers := status, StatusText(status), [];
    }

    method SetHeader(key: string, value: string)
      modifies this
      ensures headers == Put(old(headers), key, value)
    {
      headers := HttpText.SetHeader(headers, key, value);
    }

    /** Writes exactly `size` bytes, and a NUL behind them. */
    method Build(body: string) returns (res: array<char>, size: nat)
      requires statusMessage == StatusText(statusCode) && |body| < 0x8000_0000
      modifies this
      ensures headers == Put(old(headers), "Content-Length", SizeText(|body|))
      ensures fresh(res) && res.Length == size + 1 && res[size] == '\0'
      ensures res[..size] == PrintResponse(statusCode, headers, body)
    {
      hide PrintHeaders, Put, SizeText, DecimalText, StatusText;
      SetHeader("Content-Length", SizeText(|body|));
      var code := DecimalText(statusCode);
      var line := "HTTP/1.1 " + code + " " + statusMessage + "\r\n";
      assert line == PrintStatusLine(statusCode, statusMessage);
      size := 8 + 1 + |code| + 1 + |statusMessage| + 2;
      assert size == |line|;
      hide PrintStatusLine;
      var lines := SizeOfHeaders(headers);
      size := size + lines + 2 + |body|;
      res := PrintMessage(line, headers, body, size);
    }
  }

  // ---------------------------------------------------------------- reading it back

  function ResponseTrace(status: nat, hs: seq<Header>, body: string): seq<Event> {
    [MessageBegin, Data(Status(status), StatusText(status))] + HeaderTrace(hs) + BodyTrace(DELETE, |body|, body)
  }

  lemma ResponseStops(start: Parser, a: string, b: string)
    requires Valid(start) && start.errno.OK? && a != "" && !Live(ScanAll(Open(start), a)) &&
             !ScanAll(Open(start), a).p.errno.OK?
    ensures Feed(start, a + b).p.errno == ScanAll(Open(start), a).p.errno
  {
    hide ScanAll, Open, FlushPending;
    ScanAllConcat(Open(start), a, b);
    ReadDead(ScanAll(Open(start), a), b);
    assert (a + b)[..|a + b|] == a + b;
    FeedIsClose(start, a + b);
  }

  /** A printed response, where the parser waits for one. */
  lemma ReadResponse(sc: Scan, q: Parser, out: seq<Event>, status: nat, hs: seq<Header>, body: string)
    returns (r: Parser)
    requires At(sc, q, Nothing, out) && q.state.StartRes? && q.httpMethod.DELETE?
    requires status <= 999 && AllQuiet(hs) && |body| < 1_000_000_000
    ensures var printed := Put(hs, "Content-Length", SizeText(|body|));
            At(ScanAll(sc, PrintResponse(status, printed, body)), r, Nothing,
               out + ResponseTrace(status, printed, body))
    ensures BetweenMessages(r.state) && r.statusCode == status && r.httpMethod == q.httpMethod
  {
    hide ScanAll, At, Put, PrintHeaders, HeaderTrace, AllQuiet, Length, IsSection, SaysChunked, SizeText, DecimalText,
      StatusText, IsReason, VERSION_REST, BodyTrace;
    var printed, reason := Put(hs, "Content-Length", SizeText(|body|)), StatusText(status);
    var line, rest := PrintStatusLine(status, reason), PrintHeaders(printed) + "\r\n" + body;
    StatusReason(status);
    PutLength(hs, |body|);
    ReadStatusLine(sc, q, out, status, reason);
    var q1, first := StatusLineRead(q, status), [MessageBegin, Data(Status(status), reason)];
    r := ReadMessage(ScanAll(sc, line), q1, out + first, printed, body);
    ScanAllConcat(sc, line, rest);
    assert line + rest == PrintResponse(status, printed, body);
    assert out + first + HeaderTrace(printed) + BodyTrace(DELETE, |body|, body) ==
           out + ResponseTrace(status, printed, body);
  }

  /** The parser inverts the printer of responses for the status codes up to 999, and refuses
      the others. */
  lemma ResponseFeeds(status: nat, hs: seq<Header>, body: string)
    requires AllQuiet(hs) && |body| < 1_000_000_000
    ensures var printed := Put(hs, "Content-Length", SizeText(|body|));
            var text := PrintResponse(status, printed, body);
            var w := Feed(Init(Response), text);
            if status <= 999
            then w.p.errno.OK? && w.used == |text| && w.p.statusCode == status && BetweenMessages(w.p.state) &&
                 w.out == ResponseTrace(status, printed, body)
            else w.p.errno.InvalidStatus?
  {
    hide ScanAll, At, Open, Feed, Put, PrintHeaders, HeaderTrace, AllQuiet, Valid, Length, IsSection, SaysChunked,
      SizeText, DecimalText, StatusText, IsReason, VERSION_REST;
    var start, printed, reason := Init(Response), Put(hs, "Content-Length", SizeText(|body|)), StatusText(status);
    var line, rest := PrintStatusLine(status, reason), PrintHeaders(printed) + "\r\n" + body;
    OpenAt(start);
    InitIsValid(Response);
    assert line + rest == PrintResponse(status, printed, body);
    if status <= 999 {
      var r := ReadResponse(Open(start), start, [], status, hs, body);
      assert [] + ResponseTrace(status, printed, body) == ResponseTrace(status, printed, body);
      FeedReads(start, line + rest, r, ResponseTrace(status, printed, body));
    } else {
      ReadStatus(Open(start), start, [], status);
      var a := "H" + VERSION_REST + DecimalText(status);
      assert a + (" " + reason + "\r\n" + rest) == line + rest;
      ResponseStops(start, a, " " + reason + "\r\n" + rest);
    }
  }
}
