/** The class HttpResponse, updated in place, and the loop of HttpRequestBase that receives
    one from a socket. */
module HttpReceive {
  import opened HttpTypes
  import opened HttpScan
  import opened HttpInvariant
  import opened HttpNread
  import opened HttpTrace
  import opened HttpPieces
  import opened HttpFragments
  import opened HttpExecute
  import opened HttpResponses
  import Buffers

  class HttpResponse {
    var statusCode: nat
    var statusMessage: string
    var url: string
    var httpMethod: Method
    var isUpgrade: bool
    var headerFields: seq<string>
    var headerValues: seq<string>
    var concatHeaderField: bool
    var concatHeaderValue: bool
    var expectedContentLength: nat
    var isChunked: bool
    var isMessageCompleted: bool
    var body: array?<char>
    var bodyOffset: nat
    var undefined: bool // C++ gives the operations done so far no meaning

    ghost predicate Valid()
      reads this, body
    {
      (body == null ==> bodyOffset == 0) && (body != null && !undefined ==> bodyOffset <= body.Length)
    }

    function Value(): Message
      requires Valid()
      reads this, body
    {
      if undefined then Corrupt
      else Message(statusCode, statusMessage, url, httpMethod, isUpgrade, headerFields, headerValues, concatHeaderField,
                   concatHeaderValue, expectedContentLength, isChunked, isMessageCompleted, body != null,
                   if body == null then 0 else body.Length, if body == null then "" else body[..bodyOffset])
    }

    constructor ()
      ensures Valid() && Value() == FRESH && body == null
    {
      statusCode, statusMessage, url, httpMethod, isUpgrade := 0, "", "", DELETE, false;
      headerFields, headerValues, concatHeaderField, concatHeaderValue := [], [], false, false;
      expectedContentLength, isChunked, isMessageCompleted := 0, false, false;
      body, bodyOffset, undefined := null, 0, false;
    }

    method SetHeaderField(field: string)
      requires Valid()
      modifies this
      ensures Valid() && body == old(body) && Value() == SetField(old(Value()), field)
      ensures isMessageCompleted == old(isMessageCompleted)
    {
      concatHeaderValue := false;
      if concatHeaderField {
        if headerFields == [] { undefined := true; return; }
        headerFields := headerFields[..|headerFields| - 1] + [headerFields[|headerFields| - 1] + field];
      } else {
        headerFields := headerFields + [field];
      }
      concatHeaderField := true;
    }

    method SetHeaderValue(value: string)
      requires Valid()
      modifies this
      ensures Valid() && body == old(body) && Value() == SetValue(old(Value()), value)
      ensures isMessageCompleted == old(isMessageCompleted)
    {
      concatHeaderField := false;
      if concatHeaderValue {
        if headerValues == [] { undefined := true; return; }
        headerValues := headerValues[..|headerValues| - 1] + [headerValues[|headerValues| - 1] + value];
      } else {
        headerValues := headerValues + [value];
      }
      concatHeaderValue := true;
    }

    /** strcicmp(a, b) == 0 */
    static method Matches(a: string, b: string) returns (same: bool)
      ensures same == SameName(a, b)
    {
      var i := 0;
      while true
        invariant 0 <= i <= |a| && i <= |b|
        invariant SameName(a, b) == SameName(a[i..], b[i..])
        decreases |a| - i
      {
        var x := if i < |a| then a[i] else '\0';
        if x == '\0' || i == |b| || LowerAscii(x) != b[i] {
          return x == '\0' && i == |b|;
        }
        i := i + 1;
      }
    }

    method CompleteHeaders()
      requires Valid()
      modifies this
      ensures Valid() && body == old(body) && Value() == SetHeadersComplete(old(Value()))
      ensures isMessageCompleted == old(isMessageCompleted)
    {
      var ix := 0;
      while ix < |headerFields|
        invariant 0 <= ix <= |headerFields| && body == old(body) && Valid() && Value() == old(Value())
        invariant FindName(headerFields, 0) == FindName(headerFields, ix) &&
                  isMessageCompleted == old(isMessageCompleted)
      {
        var found := Matches(headerFields[ix], CONTENT_LENGTH);
        if found {
          if ix >= |headerValues| || AtoiU32(headerValues[ix]).None? {
            undefined := true;
          } else {
            expectedContentLength := AtoiU32(headerValues[ix]).value;
          }
          return;
        }
        ix := ix + 1;
      }
    }

    static method Realloc(block: array<char>, used: nat, size: nat) returns (larger: array<char>)
      requires used <= block.Length && used <= size
      ensures fresh(larger) && larger.Length == size && larger[..used] == block[..used]
    {
      larger := new char[size];
      var k := 0;
      while k < used
        invariant 0 <= k <= used && larger[..k] == block[..k]
        modifies larger
      {
        larger[k] := block[k];
        k := k + 1;
      }
    }

    /** The allocation that set_body makes for `length` more bytes. */
    method Reserve(length: nat)
      requires Valid() && !undefined
      modifies this
      ensures Valid() && !undefined && body != null && (body == old(body) || fresh(body))
      ensures isMessageCompleted == old(isMessageCompleted)
      ensures var r := old(Value());
              var chunked := r.chunked || (r.expected == 0 && length > 0);
              Value() == r.(chunked := chunked, hasBody := true,
                            capacity := if chunked then |r.body| + length else if r.hasBody then r.capacity
                                        else r.expected)
    {
      if expectedContentLength == 0 && length > 0 { isChunked := true; }
      if body == null {
        body := new char[if isChunked then length else expectedContentLength];
        assert body[..0] == "";
      } else if isChunked {
        body := Realloc(body, bodyOffset, bodyOffset + length);
      }
    }

    method AppendBody(at: string)
      requires Valid()
      modifies this, body
      ensures Valid() && (body == old(body) || fresh(body)) && Value() == SetBody(old(Value()), at)
      ensures isMessageCompleted == old(isMessageCompleted)
    {
      if undefined { return; }
      Reserve(|at|);
      if |at| > 0 {
        if body.Length < bodyOffset + |at| {
          undefined := true;
          return;
        }
        Buffers.Memcpy(body, bodyOffset, at);
      }
      bodyOffset := bodyOffset + |at|;
    }

    /** The data callbacks of HttpParser. */
    method NotifyData(kind: DataKind, at: string)
      requires Valid()
      modifies this, body
      ensures Valid() && (body == old(body) || fresh(body)) && Value() == Update(old(Value()), Data(kind, at))
      ensures isMessageCompleted == old(isMessageCompleted)
    {
      hide SetHeadersComplete, SetField, SetValue, SetBody;
      if undefined { return; }
      match kind
      case Url => url := at;
      case Status(code) => statusCode, statusMessage := code, at;
      case Field => SetHeaderField(at);
      case Value => SetHeaderValue(at);
      case Body => AppendBody(at);
    }

    /** The callbacks of HttpParser. */
    method Notify(e: Event)
      requires Valid()
      modifies this, body
      ensures Valid() && (body == old(body) || fresh(body)) && Value() == Update(old(Value()), e)
      ensures old(isMessageCompleted) ==> isMessageCompleted
      ensures isMessageCompleted ==> old(isMessageCompleted) || e.MessageComplete?
    {
      hide SetHeadersComplete, SetField, SetValue, SetBody;
      if undefined { return; }
      if e.HeadersComplete? {
        CompleteHeaders();
        httpMethod, isUpgrade := e.httpMethod, e.upgrade;
      } else if e.ChunkHeader? {
        isChunked := true;
      } else if e.MessageComplete? {
        isMessageCompleted := true;
      } else if e.Data? {
        NotifyData(e.kind, e.bytes);
      }
    }
  }

  // ---------------------------------------------------------------- receiving

  /** What Socket::recv returns: some bytes, 0 at the end of the stream, or an error. */
  datatype Recv = Bytes(data: string) | Closed | Failed

  const HTTP_RECEIVE_BUFFER_SIZE := 8 * 1024

  predicate FitsBuffer(r: Recv) { r.Bytes? ==> 0 < |r.data| <= HTTP_RECEIVE_BUFFER_SIZE }

  function RecvAt(recvs: seq<Recv>, k: nat): Recv { if k < |recvs| then recvs[k] else Closed }

  predicate IsBodyEvent(e: Event) { e.Data? && e.kind.Body? }

  /** The callbacks but for the body. */
  function NoBodies(events: seq<Event>): seq<Event> {
    if events == [] then []
    else
      var e := events[|events| - 1];
      NoBodies(events[..|events| - 1]) + if IsBodyEvent(e) then [] else [e]
  }

  /** The callbacks that reach the response: a body callback takes the body away. */
  function Shown(taken: bool, events: seq<Event>): seq<Event> { if taken then NoBodies(events) else events }

  /** HttpParser: the parser together with the response its callbacks update. `bodyCallback` says
      whether a body callback was given, `delivered` is what it got. */
  class ResponseReader {
    const parser: HttpParser
    const response: HttpResponse
    const bodyCallback: bool
    var delivered: seq<string>

    constructor (hasCallback: bool)
      ensures fresh(parser) && fresh(response) && Ready() && response.body == null && bodyCallback == hasCallback
      ensures parser.p == Init(Response) && parser.callbacks == []
    {
      parser := new HttpParser(Response);
      response := new HttpResponse();
      bodyCallback, delivered := hasCallback, [];
    }

    /** Response and body callback are where these callbacks bring them. */
    ghost predicate Told(calls: seq<Event>)
      reads this, response, response.body
    {
      response.Valid() && response.Value() == UpdateAll(FRESH, Shown(bodyCallback, calls)) &&
      delivered == (if bodyCallback then Texts(calls, Body) else []) &&
      (response.isMessageCompleted ==> MessageComplete in calls)
    }

    ghost predicate Ready()
      reads this, parser, response, response.body
    {
      parser.Ready() && Told(parser.callbacks)
    }

    /** One callback of http_parser. */
    method Call(e: Event)
      requires response.Valid()
      modifies this`delivered, response, response.body
      ensures response.Valid() && (response.body == old(response.body) || fresh(response.body))
      ensures response.Value() ==
              if bodyCallback && IsBodyEvent(e) then old(response.Value()) else Update(old(response.Value()), e)
      ensures delivered == old(delivered) + if bodyCallback && IsBodyEvent(e) then [e.bytes] else []
      ensures old(response.isMessageCompleted) ==> response.isMessageCompleted
      ensures response.isMessageCompleted ==> old(response.isMessageCompleted) || e.MessageComplete?
    {
      if bodyCallback && IsBodyEvent(e) {
        delivered := delivered + [e.bytes];
      } else {
        response.Notify(e);
      }
    }

    /** The next callback. */
    method Tell(ghost calls: seq<Event>, e: Event)
      requires Told(calls)
      modifies this`delivered, response, response.body
      ensures Told(calls + [e]) && (response.body == old(response.body) || fresh(response.body))
      ensures old(response.isMessageCompleted) ==> response.isMessageCompleted
    {
      hide Update, UpdateAll, Shown, Texts, IsBodyEvent;
      ShownSnoc(bodyCallback, calls, e);
      TextsSnoc(calls, e, Body);
      Call(e);
    }

    /** HttpParser::execute */
    method Execute(data: string) returns (n: nat)
      requires Ready() && |data| < 0x8000_0000
      modifies this`delivered, parser, response, response.body
      ensures Ready() && (response.body == old(response.body) || fresh(response.body))
      ensures old(response.isMessageCompleted) ==> response.isMessageCompleted
      ensures Executes(old(parser.p), old(parser.callbacks), data, parser.p, parser.callbacks, n)
    {
      hide Executes, Told;
      var heard := |parser.callbacks|;
      ghost var log := parser.callbacks;
      n := parser.Execute(data);
      ghost var q, called := parser.p, parser.callbacks;
      assert called[..heard] == log by { ExecutesAdds(old(parser.p), log, data, q, called, n); }
      while heard < |parser.callbacks|
        invariant heard <= |parser.callbacks| && Told(parser.callbacks[..heard])
        invariant response.body == old(response.body) || fresh(response.body)
        invariant parser.p == q && parser.callbacks == called && parser.Ready()
        invariant old(response.isMessageCompleted) ==> response.isMessageCompleted
      {
        Tell(parser.callbacks[..heard], parser.callbacks[heard]);
        assert called[..heard + 1] == called[..heard] + [called[heard]];
        heard := heard + 1;
      }
      assert parser.callbacks[..heard] == parser.callbacks;
    }
  }

  lemma ExecutesAdds(p0: Parser, log: seq<Event>, data: string, p: Parser, called: seq<Event>, n: nat)
    requires Executes(p0, log, data, p, called, n)
    ensures |log| <= |called| && called[..|log|] == log
  {
    hide Feed, OverLimit, Exceeds;
  }

  lemma ShownSnoc(taken: bool, events: seq<Event>, e: Event)
    ensures UpdateAll(FRESH, Shown(taken, events + [e])) ==
            if taken && IsBodyEvent(e) then UpdateAll(FRESH, Shown(taken, events))
            else Update(UpdateAll(FRESH, Shown(taken, events)), e)
    ensures IsBodyEvent(e) <==> e.Data? && e.kind == Body
  {
    hide Update;
    assert (events + [e])[..|events|] == events;
    if taken && IsBodyEvent(e) {
      assert NoBodies(events) + [] == NoBodies(events);
    } else {
      UpdateSnoc(FRESH, Shown(taken, events), e);
    }
  }

  /** The same message without its body. */
  predicate SameButBody(r: Message, q: Message) {
    r.Message? ==>
      q.Message? && q == r.(chunked := q.chunked, hasBody := q.hasBody, capacity := q.capacity, body := q.body) &&
      !q.hasBody && q.body == ""
  }

  lemma UpdateButBody(r: Message, q: Message, e: Event)
    requires SameButBody(r, q)
    ensures SameButBody(Update(r, e), if IsBodyEvent(e) then q else Update(q, e))
  {
    hide SetHeadersComplete, SetField, SetValue, SetBody;
    if r.Message? && e.Data? {
      DataButBody(r, q, e.kind, e.bytes);
    } else if r.Message? && e.HeadersComplete? {
      CompleteKeeps(r);
      CompleteKeeps(q);
      SameLength(r, q);
    }
  }

  lemma DataButBody(r: Message, q: Message, k: DataKind, s: string)
    requires SameButBody(r, q) && r.Message?
    ensures SameButBody(Update(r, Data(k, s)), if k.Body? then q else Update(q, Data(k, s)))
  {
    hide SetHeadersComplete, Glue;
  }

  lemma SameLength(r: Message, q: Message)
    requires SameButBody(r, q) && r.Message?
    ensures SetHeadersComplete(r).Corrupt? <==> SetHeadersComplete(q).Corrupt?
    ensures SetHeadersComplete(r).Message? ==> SetHeadersComplete(r).expected == SetHeadersComplete(q).expected
  {
    hide AtoiU32, FindName;
  }

  /** A body callback changes nothing of the response but its body. */
  lemma {:induction false} ShownAll(taken: bool, events: seq<Event>)
    ensures taken ==> SameButBody(UpdateAll(FRESH, events), UpdateAll(FRESH, Shown(taken, events)))
  {
    if taken && events != [] {
      var front, e := events[..|events| - 1], events[|events| - 1];
      ShownAll(taken, front);
      UpdateButBody(UpdateAll(FRESH, front), UpdateAll(FRESH, Shown(true, front)), e);
      ShownSnoc(taken, front, e);
      assert events == front + [e];
    }
    hide Update, SameButBody, Shown;
  }

  lemma {:induction false} CompleteOnce(events: seq<Event>)
    ensures var r := UpdateAll(FRESH, events); r.Message? ==> (r.complete <==> MessageComplete in events)
  {
    if events != [] {
      var front, e := events[..|events| - 1], events[|events| - 1];
      CompleteOnce(front);
      assert events == front + [e];
      UpdateComplete(UpdateAll(FRESH, front), e);
    }
    hide Update;
  }

  lemma UpdateComplete(r: Message, e: Event)
    ensures r.Message? && Update(r, e).Message? ==> Update(r, e).complete == (r.complete || e.MessageComplete?)
    ensures r.Corrupt? ==> Update(r, e).Corrupt?
  {
    CompleteKeeps(r);
    hide SetHeadersComplete, Glue;
  }

  datatype Received = Success | ParsingFailed | SocketFailed

  /** The pieces of the stream that the calls of recv gave. */
  predicate Delivered(recvs: seq<Recv>, pieces: seq<string>) {
    |pieces| <= |recvs| && forall i | 0 <= i < |pieces| :: recvs[i] == Bytes(pieces[i])
  }

  /** A call of execute, as its contract describes it. */
  predicate Executed(p: Parser, log: seq<Event>, data: string, q: Parser, called: seq<Event>, n: nat) {
    var r := Feed(p, data);
    q.errno == r.p.errno && (r.p.errno.OK? ==> q == r.p) && n == r.used && called == log + r.out
  }

  /** The pieces have been read to their last byte. */
  predicate HasRead(p: Parser, log: seq<Event>, pieces: seq<string>) {
    var r := FeedAll(Init(Response), pieces);
    r.p.errno.OK? && p == r.p && log == r.out && r.used == |Flat(pieces)|
  }

  lemma ReadMore(p: Parser, log: seq<Event>, pieces: seq<string>, data: string, q: Parser, called: seq<Event>, n: nat)
    requires HasRead(p, log, pieces) && data != "" && Executed(p, log, data, q, called, n)
    ensures n == |data| ==> HasRead(q, called, pieces + [data]) && q.errno.OK?
    ensures n != |data| ==> FeedAll(Init(Response), pieces + [data]).used < |Flat(pieces + [data])|
  {
    hide Feed, FeedAll, Init, Flat;
    Snoc(Init(Response), pieces, data);
    if n == |data| {
      AllUsed(p, data);
      CleanOk(p, data);
    } else {
      UsedWithin(p, data);
    }
  }

  lemma UsedWithin(p: Parser, data: string)
    requires p.errno.OK? && data != ""
    ensures Feed(p, data).used <= |data|
  {
    hide ScanAll, FlushPending;
    ErrorUsed(p, data, |data|);
    FeedIsClose(p, data);
  }

  /** The message that a run of calls leaves in the response. */
  predicate Finished(p: Parser, log: seq<Event>, pieces: seq<string>) {
    var r := FeedAll(Init(Response), pieces + [""]);
    p.errno == r.p.errno && (r.p.errno.OK? ==> p == r.p) && log == r.out
  }

  lemma ReadEnd(p: Parser, log: seq<Event>, pieces: seq<string>, q: Parser, called: seq<Event>, n: nat)
    requires HasRead(p, log, pieces) && Executed(p, log, "", q, called, n)
    ensures Finished(q, called, pieces) && FeedAll(Init(Response), pieces).used == |Flat(pieces)|
  {
    hide Feed, FeedAll, Init, Flat;
    Snoc(Init(Response), pieces, "");
  }

  lemma ReadNothing()
    ensures HasRead(Init(Response), [], []) && Init(Response).errno.OK?
  {
    hide Feed;
  }

  /** These pieces make the response complete. */
  predicate Completed(taken: bool, pieces: seq<string>) {
    var r := UpdateAll(FRESH, Shown(taken, FeedAll(Init(Response), pieces).out));
    r.Message? && r.complete
  }

  /** No piece before the n-th made the response complete. */
  ghost predicate OpenUpTo(taken: bool, pieces: seq<string>, n: nat) {
    forall j | 0 <= j < n && j <= |pieces| :: !Completed(taken, pieces[..j])
  }

  /** The header limit is exceeded in the j-th piece, of which execute returns n; the log has the
      callbacks of the earlier pieces and those made up to the byte where it is exceeded. */
  ghost predicate OverflowsAt(taken: bool, pieces: seq<string>, j: nat, n: nat, log: seq<Event>) {
    j < |pieces| &&
    var r := FeedAll(Init(Response), pieces[..j]);
    r.p.errno.OK? && OpenUpTo(taken, pieces, j + 1) && r.out <= log && Exceeds(r.p, pieces[j], n, log[|r.out|..])
  }

  /** Where the loop ends after that: at once when execute returns less than the piece, and
      otherwise at the latest in the next piece, of which nothing is read. */
  predicate EndsOver(result: Received, pieces: seq<string>, j: nat, n: nat)
    requires j < |pieces|
  {
    |pieces| <= (if n == |pieces[j]| then j + 2 else j + 1) &&
    (result.ParsingFailed? <==> n != |pieces[j]| || |pieces| == j + 2)
  }

  ghost predicate StopsOver(taken: bool, result: Received, log: seq<Event>, pieces: seq<string>) {
    exists j, n | OverflowsAt(taken, pieces, j, n, log) :: EndsOver(result, pieces, j, n)
  }

  /** The header limit is kept in every piece. */
  ghost predicate KeepsLimit(pieces: seq<string>) {
    forall j | 0 <= j < |pieces| :: !OverLimit(FeedAll(Init(Response), pieces[..j]).p, pieces[j])
  }

  /** What create_http_response does with the results of recv: it reads up to the first piece
      that makes the response complete, the end of the stream, an error of recv or a piece the
      parser stops in, and then tells the parser that the stream ended. */
  ghost predicate Receives(taken: bool, recvs: seq<Recv>, result: Received, p: Parser, log: seq<Event>,
                           pieces: seq<string>) {
    var start := Init(Response);
    Delivered(recvs, pieces) && NonEmpty(pieces) && (result.SocketFailed? ==> RecvAt(recvs, |pieces|).Failed?) &&
    if p.errno.HeaderOverflow? then StopsOver(taken, result, log, pieces)
    else
      OpenUpTo(taken, pieces, |pieces|) && (!result.ParsingFailed? ==> KeepsLimit(pieces)) &&
      (result.SocketFailed? ==> HasRead(p, log, pieces) && !Completed(taken, pieces)) &&
      (result.ParsingFailed? ==> FeedAll(start, pieces).used < |Flat(pieces)|) &&
      (result.Success? ==>
         (RecvAt(recvs, |pieces|).Closed? || MessageComplete in FeedAll(start, pieces).out) &&
         FeedAll(start, pieces).used == |Flat(pieces)| && Finished(p, log, pieces))
  }

  lemma OpenMore(taken: bool, pieces: seq<string>, data: string)
    requires OpenUpTo(taken, pieces, |pieces|) && !Completed(taken, pieces)
    ensures OpenUpTo(taken, pieces + [data], |pieces| + 1)
  {
    hide Completed;
    forall j | 0 <= j < |pieces| + 1 ensures !Completed(taken, (pieces + [data])[..j]) {
      assert (pieces + [data])[..j] == pieces[..j];
      if j == |pieces| { assert pieces[..j] == pieces; }
    }
  }

  lemma OverflowsHere(taken: bool, p: Parser, log: seq<Event>, pieces: seq<string>, data: string, called: seq<Event>,
                      n: nat)
    requires HasRead(p, log, pieces) && log <= called && Exceeds(p, data, n, called[|log|..]) &&
             OpenUpTo(taken, pieces, |pieces|) && !Completed(taken, pieces)
    ensures OverflowsAt(taken, pieces + [data], |pieces|, n, called)
  {
    hide FeedAll, Exceeds, Completed, OpenUpTo;
    OpenMore(taken, pieces, data);
    assert (pieces + [data])[..|pieces|] == pieces;
  }

  lemma OverflowsStill(taken: bool, pieces: seq<string>, j: nat, n: nat, log: seq<Event>, data: string)
    requires OverflowsAt(taken, pieces, j, n, log)
    ensures OverflowsAt(taken, pieces + [data], j, n, log)
  {
    hide FeedAll, Exceeds, Completed;
    assert (pieces + [data])[..j] == pieces[..j];
    forall k | 0 <= k < j + 1
      ensures !Completed(taken, (pieces + [data])[..k])
    {
      assert (pieces + [data])[..k] == pieces[..k];
    }
  }

  lemma OverflowsMeans(taken: bool, pieces: seq<string>, j: nat, n: nat, log: seq<Event>)
    requires OverflowsAt(taken, pieces, j, n, log)
    ensures OverLimit(FeedAll(Init(Response), pieces[..j]).p, pieces[j]) && n <= |pieces[j]| &&
            OpenUpTo(taken, pieces, j + 1)
  {
    hide FeedAll, OverAt, Prefix, OpenUpTo, Init;
  }

  lemma KeepsMore(p: Parser, log: seq<Event>, pieces: seq<string>, data: string)
    requires HasRead(p, log, pieces) && KeepsLimit(pieces) && !OverLimit(p, data)
    ensures KeepsLimit(pieces + [data])
  {
    hide FeedAll, OverLimit;
    var all := pieces + [data];
    forall j | 0 <= j < |all| ensures !OverLimit(FeedAll(Init(Response), all[..j]).p, all[j]) {
      assert all[..j] == pieces[..j];
      if j == |pieces| { assert pieces[..j] == pieces; }
    }
  }

  /** What holds of parser, callbacks and pieces between two calls of recv. */
  ghost predicate Reading(taken: bool, recvs: seq<Recv>, p: Parser, log: seq<Event>, pieces: seq<string>) {
    Delivered(recvs, pieces) && NonEmpty(pieces) &&
    if p.errno.OK? then HasRead(p, log, pieces) && OpenUpTo(taken, pieces, |pieces|) && KeepsLimit(pieces)
    else p.errno.HeaderOverflow? && pieces != [] &&
         OverflowsAt(taken, pieces, |pieces| - 1, |pieces[|pieces| - 1]|, log)
  }

  /** create_http_response; `taken` says that a body callback takes the body. */
  method CreateHttpResponse(taken: bool, recvs: seq<Recv>)
    returns (result: Received, reader: ResponseReader, ghost pieces: seq<string>)
    requires forall i | 0 <= i < |recvs| :: FitsBuffer(recvs[i])
    ensures fresh(reader) && reader.Ready() && reader.bodyCallback == taken
    ensures Receives(taken, recvs, result, reader.parser.p, reader.parser.callbacks, pieces)
  {
    hide Feed, FeedAll, Init, UpdateAll, Shown, Texts, Reading, Receives, Executes, Completed;
    reader := new ResponseReader(taken);
    pieces := [];
    result := Success;
    NothingBefore(taken, recvs);
    var k := 0;
    while true
      invariant k == |pieces| <= |recvs| && Reading(taken, recvs, reader.parser.p, reader.parser.callbacks, pieces)
      invariant fresh(reader) && fresh(reader.parser) && fresh(reader.response)
      invariant reader.response.body == null || fresh(reader.response.body)
      invariant reader.Ready() && (reader.parser.p.errno.OK? ==> !reader.response.isMessageCompleted)
      decreases |recvs| - k
    {
      ghost var p, log := reader.parser.p, reader.parser.callbacks;
      NotCompleted(taken, recvs, p, log, pieces, reader.response.Value());
      if k == |recvs| || recvs[k].Closed? { break; }
      if recvs[k].Failed? {
        GivesUp(taken, recvs, p, log, pieces);
        return SocketFailed, reader, pieces;
      }
      var data := recvs[k].data;
      assert FitsBuffer(recvs[k]);
      var n := reader.Execute(data);
      NextPiece(taken, recvs, p, log, pieces, reader.parser.p, reader.parser.callbacks, n);
      pieces := pieces + [data];
      k := k + 1;
      if n != |data| { return ParsingFailed, reader, pieces; }
      if reader.response.isMessageCompleted { break; }
    }
    ghost var p, log := reader.parser.p, reader.parser.callbacks;
    var n := reader.Execute("");
    LastCall(taken, recvs, p, log, pieces, reader.parser.p, reader.parser.callbacks, n);
  }

  lemma NothingBefore(taken: bool, recvs: seq<Recv>)
    ensures Reading(taken, recvs, Init(Response), [], [])
  {
    ReadNothing();
    hide FeedAll, Init, HasRead;
  }

  lemma NotCompleted(taken: bool, recvs: seq<Recv>, p: Parser, log: seq<Event>, pieces: seq<string>, r: Message)
    requires Reading(taken, recvs, p, log, pieces) && r == UpdateAll(FRESH, Shown(taken, log))
    ensures p.errno.OK? && (r.Message? ==> !r.complete) ==> !Completed(taken, pieces)
  {
    hide FeedAll, UpdateAll, Shown;
  }

  /** An error of recv. */
  lemma GivesUp(taken: bool, recvs: seq<Recv>, p: Parser, log: seq<Event>, pieces: seq<string>)
    requires Reading(taken, recvs, p, log, pieces) && RecvAt(recvs, |pieces|).Failed? &&
             (p.errno.OK? ==> !Completed(taken, pieces))
    ensures Receives(taken, recvs, SocketFailed, p, log, pieces)
  {
    hide FeedAll, Init, HasRead, Finished, Flat, OpenUpTo, Completed, OverflowsAt, KeepsLimit;
    if !p.errno.OK? { assert EndsOver(SocketFailed, pieces, |pieces| - 1, |pieces[|pieces| - 1]|); }
  }

  /** One more piece: read, refused, or over the header limit. */
  lemma NextPiece(taken: bool, recvs: seq<Recv>, p: Parser, log: seq<Event>, pieces: seq<string>, q: Parser,
                  called: seq<Event>,
                  n: nat)
    requires Reading(taken, recvs, p, log, pieces) && (p.errno.OK? ==> !Completed(taken, pieces))
    requires |pieces| < |recvs| && recvs[|pieces|].Bytes? && recvs[|pieces|].data != ""
    requires Executes(p, log, recvs[|pieces|].data, q, called, n)
    ensures var data := recvs[|pieces|].data;
            if n == |data| then Reading(taken, recvs, q, called, pieces + [data])
            else Receives(taken, recvs, ParsingFailed, q, called, pieces + [data])
  {
    hide Feed, FeedAll, Init, Flat, HasRead, OverLimit, Exceeds, OpenUpTo, Completed, OverflowsAt, KeepsLimit,
      Finished;
    var data := recvs[|pieces|].data;
    var all := pieces + [data];
    if !p.errno.OK? {
      OverflowsStill(taken, pieces, |pieces| - 1, |pieces[|pieces| - 1]|, log, data);
      assert EndsOver(ParsingFailed, all, |pieces| - 1, |pieces[|pieces| - 1]|);
    } else if q.errno.HeaderOverflow? {
      var out :| called == log + out && Exceeds(p, data, n, out);
      assert called[|log|..] == out;
      OverflowsHere(taken, p, log, pieces, data, called, n);
      OverflowsMeans(taken, all, |pieces|, n, called);
      if n != |data| { assert EndsOver(ParsingFailed, all, |pieces|, n); }
    } else {
      OpenMore(taken, pieces, data);
      ReadMore(p, log, pieces, data, q, called, n);
      if n == |data| { KeepsMore(p, log, pieces, data); }
    }
  }

  /** The call that tells the parser that the stream ended. */
  lemma LastCall(taken: bool, recvs: seq<Recv>, p: Parser, log: seq<Event>, pieces: seq<string>, q: Parser,
                 called: seq<Event>,
                 n: nat)
    requires Reading(taken, recvs, p, log, pieces) && Executes(p, log, "", q, called, n)
    requires RecvAt(recvs, |pieces|).Closed? || MessageComplete in log
    ensures Receives(taken, recvs, Success, q, called, pieces)
  {
    hide Feed, FeedAll, Init, HasRead, Finished, OverLimit, Exceeds, Flat, OpenUpTo, Completed, OverflowsAt, KeepsLimit;
    if p.errno.OK? {
      NoBytesOver(p);
      ReadSoFar(p, log, pieces);
      ReadEnd(p, log, pieces, q, called, n);
    } else {
      assert EndsOver(Success, pieces, |pieces| - 1, |pieces[|pieces| - 1]|);
    }
  }

  lemma ReadSoFar(p: Parser, log: seq<Event>, pieces: seq<string>)
    requires HasRead(p, log, pieces)
    ensures log == FeedAll(Init(Response), pieces).out
  {
    hide FeedAll;
  }

  lemma EndAlike(a: Parser, b: Parser)
    requires Alike(a, b) && a.errno.OK?
    ensures Alike(Feed(a, "").p, Feed(b, "").p) && Feed(a, "").out == Feed(b, "").out
  {
    EndIsFeed(a);
    EndIsFeed(b);
    hide Feed;
  }

  /** The message received does not depend on how recv cuts the stream: header names, header
      values, body and flags are those of one call with all the bytes. */
  lemma ReceivedIsWhole(pieces: seq<string>, s: string)
    requires s != "" && Cuts(pieces, s) && Clean(Init(Response), s) && HeaderCharsOnly(Init(Response), s)
    ensures var (r, w) := (FeedAll(Init(Response), pieces + [""]), FeedAll(Init(Response), [s, ""]));
            Alike(r.p, w.p) && Join(r.out) == Join(w.out) &&
            SameMessage(UpdateAll(FRESH, r.out), UpdateAll(FRESH, w.out))
  {
    hide Feed, FeedAll, HeaderCharsOnly, Clean, Join, UpdateAll, SameMessage;
    var start := Init(Response);
    PiecesAgree(start, pieces);
    Snoc(start, pieces, "");
    OnePiece(start, s);
    Snoc(start, [s], "");
    assert [s] + [""] == [s, ""];
    var (r, w) := (FeedAll(start, pieces), Feed(start, s));
    CleanOk(start, s);
    EndAlike(r.p, w.p);
    JoinSplit(r.out, Feed(r.p, "").out);
    JoinSplit(w.out, Feed(w.p, "").out);
    SameTraces(FRESH, FeedAll(start, pieces + [""]).out, FeedAll(start, [s, ""]).out);
  }
}
