/** HttpRequestBuilder: the printer of requests, and the parser as its inverse. */
module HttpRequestBuilders {
  import opened HttpTypes
  import opened HttpAutomaton
  import opened HttpScan
  import opened HttpRuns
  import opened HttpInvariant
  import opened HttpNread
  import opened HttpPieces
  import opened HttpFragments
  import opened HttpReads
  import opened HttpNames
  import opened HttpValues
  import opened HttpHeaders
  import opened HttpRequestLine
  import opened HttpBodies
  import opened HttpText
  import HttpUrl
  import HttpUrlPrint
  import Buffers

  datatype ParsedUrl = ParsedUrl(schema: string, host: string, port: nat, path: string, query: string)

  /** The value of the Host header: the port is left out when it is the default one. */
  function HostText(url: ParsedUrl): string {
    var plain := (url.schema == "http" || url.schema == "ws") && url.port != 80;
    var secure := (url.schema == "https" || url.schema == "wss") && url.port != 443;
    if plain || secure then url.host + ":" + DecimalText(url.port) else url.host
  }

  /** http_parse_host finds the host in the value, and the port unless it is the default one of
      the scheme, or the scheme is none of these four. */
  lemma HostReadBack(url: ParsedUrl)
    requires url.host != "" && HttpUrlPrint.All(url.host, IsHostChar)
    ensures var t := HostText(url);
            var r := HttpUrl.ParseHost(t, map[HttpUrl.HostField := HttpUrl.Span(0, |t|)], false);
            r.Some? && HttpUrl.HostField in r.value && r.value[HttpUrl.HostField] == HttpUrl.Span(0, |url.host|) &&
            t[..|url.host|] == url.host &&
            (HttpUrl.PortField in r.value <==>
             (url.schema in {"http", "ws"} && url.port != 80) || (url.schema in {"https", "wss"} && url.port != 443)) &&
            (HttpUrl.PortField in r.value ==>
               var span := r.value[HttpUrl.PortField];
               span.off + span.len == |t| && t[span.off..] == DecimalText(url.port))
  {
    hide HttpUrl.HostRun, IsHostChar, DecimalText;
    var t, n := HostText(url), |url.host|;
    var printed := (url.schema in {"http", "ws"} && url.port != 80) ||
                   (url.schema in {"https", "wss"} && url.port != 443);
    var port := if printed then DecimalText(url.port) else "";
    assert t == url.host + HttpUrlPrint.Opt(":", port);
    var h := HttpUrl.HostScan(HttpUrl.HostStart, map[HttpUrl.HostField := HttpUrl.Span(0, 0)]);
    assert map[HttpUrl.HostField := HttpUrl.Span(0, |t|)][HttpUrl.HostField := HttpUrl.Span(0, 0)] == h.fields;
    HttpUrlPrint.NameRun(h, 0, url.host);
    HttpUrlPrint.HostRunConcat(h, 0, url.host, HttpUrlPrint.Opt(":", port));
    HttpUrlPrint.PortRun(HttpUrl.HostRun(h, 0, url.host), n, port);
    assert t[0..0 + |t|] == t;
    if port != "" { assert t[n + 1..] == port; }
  }

  predicate TakesLength(m: Method) { m.POST? || m.PUT? || m.DELETE? }

  predicate IsChunked(hs: seq<Header>) { Has(hs, "Transfer-Encoding", "chunked") }

  /** The headers that build prints. */
  function RequestHeaders(hs: seq<Header>, m: Method, n: nat): seq<Header> {
    if !IsChunked(hs) && (TakesLength(m) || n > 0) then Put(hs, "Content-Length", SizeText(n)) else hs
  }

  function PrintRequest(m: Method, path: string, query: string, hs: seq<Header>, body: string): string {
    PrintRequestLine(m, path, query) + PrintHeaders(hs) + "\r\n" + body
  }

  class HttpRequestBuilder {
    const httpMethod: Method
    const url: ParsedUrl
    var headers: seq<Header>

    constructor (m: Method, u: ParsedUrl)
      ensures httpMethod == m && url == u && headers == [Header("Host", HostText(u))]
    {
      httpMethod, url := m, u;
      headers := [Header("Host", HostText(u))];
    }

    method SetHeader(key: string, value: string)
      modifies this
      ensures headers == Put(old(headers), key, value)
    {
      headers := HttpText.SetHeader(headers, key, value);
    }

    /** Writes exactly `size` bytes, and a NUL behind them. When the headers announce chunks,
        the body is no part of `size`, and is copied all the same: its first byte takes the place
        of the NUL, and a second one would be written behind the end of the buffer, which C++
        gives no meaning (`overrun`). */
    method Build(body: string) returns (req: array<char>, size: nat, overrun: bool)
      modifies this
      ensures headers == RequestHeaders(old(headers), httpMethod, |body|)
      ensures overrun <==> IsChunked(old(headers)) && |body| > 1
      ensures fresh(req) && req.Length == size + 1
      ensures !overrun ==> req[size] == if IsChunked(old(headers)) && body != "" then body[0] else '\0'
      ensures !overrun ==>
                req[..size] == PrintRequest(httpMethod, url.path, url.query, headers, if IsChunked(old(headers)) then ""
                                            else body)
    {
      hide MethodString, PrintHeaders, Put, SizeText;
      var chunked := HasHeader(headers, "Transfer-Encoding", "chunked");
      if !chunked && (TakesLength(httpMethod) || |body| > 0) {
        SetHeader("Content-Length", SizeText(|body|));
      }
      var line := PrintRequestLine(httpMethod, url.path, url.query);
      var first := |MethodString(httpMethod)| + 1 + |url.path| + (if |url.query| > 0 then |url.query| + 1 else 0) + 1 +
                   8 + 2;
      assert first == |line|;
      hide PrintRequestLine;
      var lines := SizeOfHeaders(headers);
      size := first + lines + 2;
      if !chunked { size := size + |body|; }
      var at;
      req, at := PrintHead(line, headers, size);
      assert at == if chunked then size else size - |body|;
      overrun := at + |body| > req.Length;
      if overrun || body == "" {
        assert req[..at] + "" == req[..at];
        return;
      }
      Buffers.Memcpy(req, at, body);
      assert chunked ==> req[..size] == req[..at + |body|][..at] && req[size] == req[..at + |body|][at];
    }
  }

  /** An empty body is announced for POST, PUT and DELETE alone, any other body for every method;
      nothing else changes, and beside chunks nothing at all. */
  lemma LengthAnnounced(hs: seq<Header>, m: Method, n: nat)
    requires Sorted(hs)
    ensures !Has(hs, "Transfer-Encoding", "chunked") && (m in {POST, PUT, DELETE} || n > 0) ==>
              Lookup(RequestHeaders(hs, m, n), "Content-Length") == Some(SizeText(n)) &&
              forall key | key != "Content-Length" :: Lookup(RequestHeaders(hs, m, n), key) == Lookup(hs, key)
    ensures Has(hs, "Transfer-Encoding", "chunked") || !(m in {POST, PUT, DELETE} || n > 0) ==>
              RequestHeaders(hs, m, n) == hs
  {
    hide SizeText, Put, Lookup, Sorted, Has;
    PutIsUpdate(hs, "Content-Length", SizeText(n), "");
    forall key | key != "Content-Length"
      ensures Lookup(Put(hs, "Content-Length", SizeText(n)), key) == Lookup(hs, key)
    {
      PutIsUpdate(hs, "Content-Length", SizeText(n), key);
    }
  }

  // ---------------------------------------------------------------- reading it back

  /** All headers but one are the quiet ones there were. */
  lemma PutQuiet(hs: seq<Header>, key: string, value: string) returns (i: nat)
    requires AllQuiet(hs)
    ensures var r := Put(hs, key, value);
            i < |r| && r[i] == Header(key, value) && forall k | 0 <= k < |r| && k != i :: IsQuietHeader(r[k])
  {
    hide IsQuietHeader;
    var r := Put(hs, key, value);
    i := PutShape(hs, key, value);
    hide Put;
    forall k | 0 <= k < |r| && k != i ensures IsQuietHeader(r[k]) {
      if k < i {
        assert r[k] == r[..i][k] == hs[k];
      } else {
        assert r[k] == r[i + 1..][k - i - 1];
        assert r[k] in hs;
      }
    }
  }

  lemma PutLength(hs: seq<Header>, n: nat)
    requires AllQuiet(hs) && n < 1_000_000_000
    ensures var r := Put(hs, "Content-Length", SizeText(n));
            IsSection(r) && Length(r) == Some(n) && !SaysChunked(r)
  {
    hide IsQuietHeader, SizeText, Decimal, Spelled;
    SizeTextExact(n);
    ContentLengthName();
    var i := PutQuiet(hs, "Content-Length", SizeText(n));
    LengthSection(Put(hs, "Content-Length", SizeText(n)), i);
    hide Put;
  }

  lemma QuietIsNotChunked(hs: seq<Header>)
    requires AllQuiet(hs)
    ensures !IsChunked(hs)
  {
    TransferEncodingName();
    hide Spelled;
  }

  lemma RequestSection(hs: seq<Header>, m: Method, n: nat)
    requires AllQuiet(hs) && n < 1_000_000_000
    ensures var r := RequestHeaders(hs, m, n);
            IsSection(r) && !SaysChunked(r) &&
            Length(r) == (if m in {POST, PUT, DELETE} || n > 0 then Some(n) else None)
  {
    QuietIsNotChunked(hs);
    PutLength(hs, n);
    QuietSection(hs);
    hide AllQuiet, Put, Length, IsSection, SaysChunked, SizeText;
  }

  /** The callbacks that a request must make: its method and URL, every header in map order,
      its body and its end. */
  function RequestTrace(m: Method, path: string, query: string, hs: seq<Header>, length: nat,
                        body: string): seq<Event> {
    [MessageBegin, Data(Url, UrlText(path, query))] + HeaderTrace(hs) + BodyTrace(m, length, body)
  }

  /** The parser inverts the printer of requests: one call reads every byte that build writes
      and recovers method, URL, headers and body. */
  lemma RequestFeeds(m: Method, path: string, query: string, hs: seq<Header>, body: string)
    requires !m.CONNECT? && IsPath(path) && IsQuery(query) && AllQuiet(hs) && |body| < 1_000_000_000
    ensures var printed := RequestHeaders(hs, m, |body|);
            var text := PrintRequest(m, path, query, printed, body);
            var w := Feed(Init(Request), text);
            w.p.errno.OK? && w.used == |text| && w.p.httpMethod == m && BetweenMessages(w.p.state) &&
            w.out == RequestTrace(m, path, query, printed,
                                  if m in {POST, PUT, DELETE} || body != "" then |body| else ULLONG_MAX, body)
  {
    hide ScanAll, At, Open, Feed, RequestHeaders, PrintRequestLine, PrintHeaders, HeaderTrace, IsPath, IsQuery,
      AllQuiet, Valid, Length, IsSection, SaysChunked, MethodString, UrlText;
    var start, printed := Init(Request), RequestHeaders(hs, m, |body|);
    var line, rest := PrintRequestLine(m, path, query), PrintHeaders(printed) + "\r\n" + body;
    RequestSection(hs, m, |body|);
    OpenAt(start);
    InitIsValid(Request);
    ReadRequestLine(Open(start), start, [], m, path, query);
    var q := RequestLineRead(start, m);
    var first := [MessageBegin, Data(Url, UrlText(path, query))];
    var s1 := ScanAll(Open(start), line);
    assert [] + first == first;
    var r := ReadMessage(s1, q, first, printed, body);
    ScanAllConcat(Open(start), line, rest);
    assert line + rest == PrintRequest(m, path, query, printed, body);
    FeedReads(start, line + rest, r, RequestTrace(m, path, query, printed, Announced(printed), body));
  }
}
