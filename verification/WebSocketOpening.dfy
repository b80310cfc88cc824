/** The opening handshake on the side of the server: from the request to the key that is answered. */
module WebSocketOpening {
  import opened HttpTypes
  import opened HttpAutomaton
  import opened HttpScan
  import opened HttpNames
  import opened HttpValues
  import opened HttpHeaders
  import opened HttpRequestLine
  import opened HttpConnection
  import opened HttpResponses
  import opened HttpSections
  import opened HttpMessages
  import opened HttpConversations
  import opened HttpEndToEnd
  import opened HttpRequestMade
  import H = HttpHandshake
  import C = ClientConnections

  /** The first header of this name is number k. */
  predicate IsFirst(hs: seq<Header>, k: nat, name: string) {
    k < |hs| && hs[k].name == name && forall j | 0 <= j < k :: hs[j].name != name
  }

  /** The key is answered exactly when one of the headers is, letter by letter, Upgrade: websocket,
      and one is named, letter by letter, Sec-WebSocket-Key: the first of that name holds the key. */
  ghost predicate AnswersTo(fields: seq<string>, values: seq<string>, hs: seq<Header>) {
    |fields| == |values| &&
    (C.AnsweredKey(fields, values).Some? <==>
     Header("Upgrade", "websocket") in hs && exists k: nat :: IsFirst(hs, k, "Sec-WebSocket-Key")) &&
    forall k: nat | IsFirst(hs, k, "Sec-WebSocket-Key") && Header("Upgrade", "websocket") in hs ::
      C.AnsweredKey(fields, values) == Some(C.CString(C.Ascii(hs[k].value)))
  }

  lemma KeyOfHeaders(hs: seq<Header>)
    ensures AnswersTo(NamesOf(hs), ValuesOf(hs), hs)
  {
    hide C.CString, C.Ascii, NamesOf, ValuesOf;
    var names, values := NamesOf(hs), ValuesOf(hs);
    Columns(hs, 0);
    forall i | 0 <= i < |hs| ensures names[i] == hs[i].name && values[i] == hs[i].value { Columns(hs, i); }
    assert C.NamesWebSocket(names, values) <==> Header("Upgrade", "websocket") in hs by {
      if C.NamesWebSocket(names, values) {
        var i :| 0 <= i < |names| && names[i] == C.UPGRADE && values[i] == C.WEBSOCKET;
        assert hs[i] == Header("Upgrade", "websocket");
      }
      if i :| 0 <= i < |hs| && hs[i] == Header("Upgrade", "websocket") {
        assert names[i] == C.UPGRADE && values[i] == C.WEBSOCKET;
      }
    }
    var f := C.FirstOf(names, C.KEY_NAME);
    if f < |names| { assert IsFirst(hs, f, "Sec-WebSocket-Key"); }
    forall k: nat | IsFirst(hs, k, "Sec-WebSocket-Key") ensures f == k { assert names[k] == C.KEY_NAME; }
  }

  lemma {:induction false} TablesConcat(a: seq<Header>, b: seq<Header>)
    ensures NamesOf(a + b) == NamesOf(a) + NamesOf(b) && ValuesOf(a + b) == ValuesOf(a) + ValuesOf(b)
  {
    if b == [] {
      assert a + b == a;
    } else {
      assert (a + b)[..|a + b| - 1] == a + b[..|b| - 1];
      TablesConcat(a, b[..|b| - 1]);
    }
  }

  /** A request for an upgrade ends the call at its last byte, and the object that is made of it
      asks for the upgrade; its key is answered as above. */
  lemma OpeningUnderstood(r: RequestMessage, rest: string)
    requires IsRequest(r) && AsksUpgrade(r)
    requires Length(HeadersOf(r.lines)).Some? ==> Length(HeadersOf(r.lines)).value < 0x8000_0000
    ensures var w := Feed(Init(Request), TextOf(r) + rest);
            var made := UpdateAll(FRESH, w.out);
            w.p.errno.OK? && w.used == |TextOf(r)| && made.Message? && made.complete && made.upgrade &&
            made.httpMethod == r.httpMethod && made.url == r.target &&
            AnswersTo(made.fields, made.values, HeadersOf(r.lines) + TrailerOf(r.load))
  {
    hide Feed, UpdateAll, TextOf, IsRequest, AsksUpgrade, HeadersOf, NamesOf, ValuesOf, AnswersTo, Length, HeaderTrace,
      LoadTrace, TrailerOf;
    RequestMade(r);
    CarriesFits(r);
    UpgradeReported([], r, rest);
    UpgradeReported([], r, "");
    assert "" + TextOf(r) + rest == TextOf(r) + rest && "" + TextOf(r) + "" == TextOf(r);
    assert "" + TextOf(r) == TextOf(r);
    TablesConcat(HeadersOf(r.lines), TrailerOf(r.load));
    KeyOfHeaders(HeadersOf(r.lines) + TrailerOf(r.load));
  }

  // ---------------------------------------------------------------- an opening

  function OpeningLines(name: string, key: string): seq<Line> {
    [Plain(Header(name, "websocket")), H.CONNECTION_LINE, Plain(Header("Sec-WebSocket-Key", key))]
  }

  /** The request of RFC 6455, section 1.2, with a name for its first header and a key. */
  function Opening(name: string, key: string): RequestMessage {
    RequestMessage(GET, "/chat", '1', '1', OpeningLines(name, key), Whole(""))
  }

  /** The name of the Upgrade header, in two ways. */
  predicate IsUpgradeName(name: string) { name == "Upgrade" || name == "upgrade" }

  lemma UpgradeNames(name: string)
    requires IsUpgradeName(name)
    ensures IsName(name) && Spelled(name) == "upgrade"
  {
    forall i | 0 <= i < |name| ensures Spelled(name)[i] == "upgrade"[i] { SpelledAt(name, i); }
  }

  lemma UpgradeLineIs(name: string)
    requires IsUpgradeName(name)
    ensures H.IsSilent(Plain(Header(name, "websocket"))) && AsksIn(Plain(Header(name, "websocket")))
  {
    UpgradeNames(name);
    assert IsValueText("websocket");
    hide Spelled, IsValueText, Decimal;
  }

  lemma KeyLineIs(key: string)
    requires IsValueText(key)
    ensures H.IsSilent(Plain(Header("Sec-WebSocket-Key", key)))
  {
    var name := "Sec-WebSocket-Key";
    assert Spelled(name)[0] == 's' by { SpelledAt(name, 0); }
    assert IsName(name);
    SortsOfLines(Plain(Header(name, key)));
    hide Spelled, IsValueText, Decimal;
  }

  lemma OpeningIs(name: string, key: string)
    requires IsUpgradeName(name) && IsValueText(key)
    ensures IsRequest(Opening(name, key)) && AsksUpgrade(Opening(name, key)) && H.AreSilent(OpeningLines(name, key))
  {
    hide IsLine, AsksIn, SaysIn, IsValueText, H.CONNECTION_LINE, H.IsSilent, AreLines, SaysChunked, Length, HeadersOf;
    UpgradeLineIs(name);
    H.ConnectionLineIs();
    KeyLineIs(key);
    var lines := OpeningLines(name, key);
    assert [lines[0]] + [lines[1]] == [lines[0], lines[1]] && [lines[0], lines[1]] + [lines[2]] == lines;
    H.SilentOne(lines[0]);
    H.SilentMore([lines[0]], lines[1]);
    H.SilentMore([lines[0], lines[1]], lines[2]);
    assert AsksIn(lines[0]) && SaysIn(lines[1], "upgrade");
    ChatTarget();
  }

  lemma ChatTarget()
    ensures IsTarget("/chat")
  {
  }

  lemma OpeningHeaders(name: string, key: string)
    ensures HeadersOf(OpeningLines(name, key)) ==
            [Header(name, "websocket"), Header("Connection", "Upgrade"), Header("Sec-WebSocket-Key", key)]
  {
    hide HeadersOf, H.CONNECTION_LINE;
    H.ConnectionLineIs();
    H.ThreeLines(Plain(Header(name, "websocket")), H.CONNECTION_LINE, Plain(Header("Sec-WebSocket-Key", key)));
  }

  lemma ChatLine()
    ensures MethodString(GET) + " " + ("/chat" + " ") + VersionText('1', '1') == "GET /chat " + "HTTP/1.1\r\n"
  {
    assert MethodString(GET) + " " == "GET " && "GET " + ("/chat" + " ") == "GET /chat ";
    assert VersionText('1', '1') == "HTTP/1.1\r\n";
    hide MethodString, VersionText;
  }

  lemma KeyPrinted(key: string)
    ensures PrintHeader(Header("Sec-WebSocket-Key", key)) == "Sec-WebSocket-Key: " + key + "\r\n"
  {
    assert "Sec-WebSocket-Key" + ": " == "Sec-WebSocket-Key: ";
  }

  /** The text of that request. */
  function ChatText(key: string): string {
    "GET /chat " + "HTTP/1.1\r\n" + "Upgrade: websocket\r\n" + "Connection: Upgrade\r\n" + "Sec-WebSocket-Key: " + key +
    "\r\n" + "\r\n"
  }

  lemma OpeningText(key: string)
    requires IsRequest(Opening("Upgrade", key))
    ensures TextOf(Opening("Upgrade", key)) == ChatText(key)
  {
    hide PrintHeaders, HeadersOf, OpeningLines, PrintHeader, IsRequest, MethodString, VersionText, ChatText;
    var r := Opening("Upgrade", key);
    var a, b, c := Header("Upgrade", "websocket"), Header("Connection", "Upgrade"), Header("Sec-WebSocket-Key", key);
    OpeningHeaders("Upgrade", key);
    H.ThreeHeaders(a, b, c);
    CarriesFits(r);
    ChatLine();
    assert TextOf(r) ==
           "GET /chat " + "HTTP/1.1\r\n" + (PrintHeader(a) + PrintHeader(b) + PrintHeader(c) + "\r\n" + "");
    hide TextOf;
    H.UpgradePrinted();
    H.ConnectionPrinted();
    KeyPrinted(key);
    OpeningParts(key);
  }

  lemma OpeningParts(key: string)
    ensures "GET /chat " + "HTTP/1.1\r\n" + ("Upgrade: websocket\r\n" + "Connection: Upgrade\r\n" +
            ("Sec-WebSocket-Key: " + key + "\r\n") + "\r\n" + "") == ChatText(key)
  {
    var a, b, c, d, e := "GET /chat " + "HTTP/1.1\r\n", "Upgrade: websocket\r\n", "Connection: Upgrade\r\n",
                         "Sec-WebSocket-Key: ", "\r\n";
    assert a + (b + c + (d + key + e) + e + "") == a + b + c + d + key + e + e;
  }

  /** No byte of a value ends a C string. */
  lemma {:induction false} WholeKey(s: string)
    requires H.IsAscii(s) && forall i | 0 <= i < |s| :: IsHeaderChar(s[i])
    ensures C.CString(C.Ascii(s)) == C.Ascii(s)
  {
    hide IsHeaderChar;
    if s != "" {
      assert IsHeaderChar(s[0]);
      NotNul(s[0]);
      WholeKey(s[1..]);
      assert C.Ascii(s)[1..] == C.Ascii(s[1..]);
      assert C.Ascii(s) == [C.Ascii(s)[0]] + C.Ascii(s)[1..];
    }
  }

  lemma NotNul(c: char)
    requires IsHeaderChar(c)
    ensures c != '\0'
  {
  }

  lemma KeyIsWhole(key: string)
    requires IsValueText(key) && H.IsAscii(key)
    ensures C.CString(C.Ascii(key)) == C.Ascii(key)
  {
    WholeKey(key);
  }

  /** The request that opens a WebSocket is taken up to its last byte, and its key is answered;
      with another spelling of Upgrade, which section 4.2.1 of RFC 6455 allows, the parser reports
      the upgrade all the same and nothing is answered. */
  lemma SpellingDecides(key: string, rest: string)
    requires IsValueText(key) && H.IsAscii(key)
    ensures var w := Feed(Init(Request), ChatText(key) + rest);
            var made := UpdateAll(FRESH, w.out);
            w.p.errno.OK? && w.used == |ChatText(key)| && made.Message? && made.upgrade && made.httpMethod == GET &&
            |made.fields| == |made.values| &&
            C.AnsweredKey(made.fields, made.values) == Some(C.Ascii(key))
    ensures IsRequest(Opening("upgrade", key)) &&
            var made := UpdateAll(FRESH, Feed(Init(Request), TextOf(Opening("upgrade", key))).out);
            made.Message? && made.upgrade && |made.fields| == |made.values| &&
            C.AnsweredKey(made.fields, made.values).None?
  {
    hide Feed, UpdateAll, TextOf, IsRequest, AsksUpgrade, HeadersOf, OpeningLines, Length, C.AnsweredKey, C.CString,
      C.Ascii,
      ChatText, AreLines, SaysChunked, IsValueText, H.IsAscii;
    var a, b := Opening("Upgrade", key), Opening("upgrade", key);
    assert C.CString(C.Ascii(key)) == C.Ascii(key) by { KeyIsWhole(key); }
    OpeningIs("Upgrade", key);
    OpeningIs("upgrade", key);
    OpeningText(key);
    OpeningHeaders("Upgrade", key);
    OpeningHeaders("upgrade", key);
    OpeningUnderstood(a, rest);
    OpeningUnderstood(b, "");
    assert TextOf(b) + "" == TextOf(b);
    assert HeadersOf(a.lines) + [] == HeadersOf(a.lines) && HeadersOf(b.lines) + [] == HeadersOf(b.lines);
    var hs := HeadersOf(a.lines);
    assert hs[0] == Header("Upgrade", "websocket") && IsFirst(hs, 2, "Sec-WebSocket-Key");
    assert "Upgrade"[0] != "upgrade"[0];
    assert Header("Upgrade", "websocket") !in HeadersOf(b.lines);
  }
}
