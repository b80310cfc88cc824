/** The opening handshake of a WebSocket: what a peer makes of the answer. */
module HttpHandshake {
  import opened HttpTypes
  import opened HttpAutomaton
  import opened HttpScan
  import opened HttpRuns
  import opened HttpNames
  import opened HttpValues
  import opened HttpHeaders
  import opened HttpConnection
  import opened HttpText
  import opened HttpResponseBuilders
  import opened HttpSections
  import opened HttpMessages
  import opened HttpReplies
  import opened Buffers
  import Base64
  import Sha1Spec
  import C = ClientConnections

  /** The characters that these bytes stand for. */
  function Chars(b: seq<Byte>): (s: string)
    ensures |s| == |b| && forall i | 0 <= i < |b| :: s[i] as int == b[i]
  {
    seq(|b|, i requires 0 <= i < |b| => b[i] as char)
  }

  predicate IsAscii(s: string) { forall i | 0 <= i < |s| :: s[i] < '\U{80}' }

  lemma CharsOfAscii(s: string)
    requires IsAscii(s)
    ensures Chars(C.Ascii(s)) == s
  {
  }

  lemma CharsConcat(a: seq<Byte>, b: seq<Byte>)
    ensures Chars(a + b) == Chars(a) + Chars(b)
  {
  }

  // ---------------------------------------------------------------- the accept value

  /** The bytes that base64 is made of. */
  predicate IsBase64Text(s: string) { forall i | 0 <= i < |s| :: Base64.Value(s[i]).Some? || s[i] == '=' }

  lemma {:induction false} EncodedIsText(d: seq<Byte>)
    ensures IsBase64Text(Base64.Encoded(d)) && (d != [] ==> Base64.Encoded(d) != "" && Base64.Encoded(d)[0] != '=')
  {
    hide Base64.Symbol, Base64.Value, Base64.Sextet0, Base64.Sextet1, Base64.Sextet2, Base64.Sextet3;
    if d != [] {
      Base64.SymbolReadBack(Base64.Sextet0(d[0]));
      if |d| == 1 {
        Base64.SymbolReadBack(Base64.Sextet1(d[0], 0));
      } else {
        Base64.SymbolReadBack(Base64.Sextet1(d[0], d[1]));
        if |d| == 2 {
          Base64.SymbolReadBack(Base64.Sextet2(d[1], 0));
        } else {
          Base64.SymbolReadBack(Base64.Sextet2(d[1], d[2]));
          Base64.SymbolReadBack(Base64.Sextet3(d[2]));
          EncodedIsText(d[3..]);
        }
      }
    }
  }

  lemma TextIsValue(s: string)
    requires IsBase64Text(s) && s != "" && s[0] != '='
    ensures IsValueText(s) && IsAscii(s)
  {
    forall i | 0 <= i < |s| ensures IsHeaderChar(s[i]) && !IsCrLf(s[i]) && !IsBlank(s[i]) && s[i] < '\U{80}' {
      assert Base64.Value(s[i]).Some? || s[i] == '=';
    }
  }

  lemma AcceptIsValue(key: seq<Byte>)
    ensures IsValueText(C.Accept(key)) && IsAscii(C.Accept(key))
    ensures Base64.Decoded(C.Accept(key)) ==
            Some(Sha1Spec.Digest(key + C.Ascii("258EAFA5-E914-47DA-95CA-C5AB0DC85B11")))
  {
    hide Base64.Encoded, Base64.Decoded, Sha1Spec.Digest, C.Ascii, IsValueText, IsAscii, IsBase64Text;
    var d := Sha1Spec.Digest(key + C.Ascii("258EAFA5-E914-47DA-95CA-C5AB0DC85B11"));
    Base64.Base64ReadBack(d);
    EncodedIsText(d);
    TextIsValue(C.Accept(key));
  }

  // ---------------------------------------------------------------- the answer

  const UPGRADE_LINE := Plain(Header("Upgrade", "websocket"))
  const CONNECTION_LINE := List("Connection", [Item(0, "Upgrade", 0)])

  function AcceptLine(accept: string): Line { Plain(Header("Sec-WebSocket-Accept", accept)) }

  function AnswerOf(accept: string): ResponseMessage {
    ResponseMessage(101, "Switching Protocols", [UPGRADE_LINE, CONNECTION_LINE, AcceptLine(accept)], Whole(""))
  }

  /** A line that says nothing about the body. */
  predicate IsSilent(line: Line) {
    IsLine(line) && !IsChunkedHeader(HeaderOf(line)) && !IsLengthHeader(HeaderOf(line))
  }

  lemma UpgradeName()
    ensures IsName("Upgrade") && Spelled("Upgrade") == "upgrade"
  {
    var s := "Upgrade";
    forall i | 0 <= i < |s| ensures Spelled(s)[i] == "upgrade"[i] { SpelledAt(s, i); }
  }

  lemma ConnectionName()
    ensures IsName("Connection") && Spelled("Connection") == "connection"
  {
    var s := "Connection";
    forall i | 0 <= i < |s| ensures Spelled(s)[i] == "connection"[i] { SpelledAt(s, i); }
  }

  /** A header whose name has a length that no special name has. */
  lemma OtherName(name: string)
    requires IsName(name) && |name| !in {7, 10, 14, 16, 17}
    ensures IsQuietName(name) && !IsListName(name)
  {
  }

  lemma UpgradeLineIs()
    ensures IsSilent(UPGRADE_LINE) && AsksIn(UPGRADE_LINE)
  {
    UpgradeName();
    assert IsValueText("websocket");
    hide Spelled, IsValueText, Decimal;
  }

  lemma ConnectionLineIs()
    ensures IsSilent(CONNECTION_LINE) && SaysIn(CONNECTION_LINE, "upgrade")
    ensures HeaderOf(CONNECTION_LINE) == Header("Connection", "Upgrade")
  {
    UpgradeName();
    ConnectionName();
    var items := [Item(0, "Upgrade", 0)];
    assert AreTokens(items) && ModeOf(items).Compared? && items[0].token == "Upgrade";
    assert ListText(items) == ItemText(items[0]) == "Upgrade";
    SortsOfLines(CONNECTION_LINE);
    hide Spelled, Decimal;
  }

  lemma AcceptLineIs(accept: string)
    requires IsValueText(accept)
    ensures IsSilent(AcceptLine(accept))
  {
    assert IsName("Sec-WebSocket-Accept");
    OtherName("Sec-WebSocket-Accept");
    SortsOfLines(AcceptLine(accept));
    hide Spelled, IsValueText, Decimal;
  }

  /** Lines that announce no body. */
  predicate AreSilent(lines: seq<Line>) {
    AreLines(lines) && !SaysChunked(HeadersOf(lines)) && Length(HeadersOf(lines)).None?
  }

  lemma SilentMore(lines: seq<Line>, line: Line)
    requires AreSilent(lines) && IsSilent(line)
    ensures AreSilent(lines + [line])
  {
    hide IsLine, IsChunkedHeader, IsLengthHeader, HeaderOf, Length, SaysChunked;
    assert (lines + [line])[..|lines|] == lines;
    HeadersSnoc(lines, line);
    SaysChunkedSnoc(HeadersOf(lines), HeaderOf(line));
    LengthSnoc(HeadersOf(lines), HeaderOf(line));
  }

  lemma SilentOne(line: Line)
    requires IsSilent(line)
    ensures AreSilent([line])
  {
    hide IsLine, IsChunkedHeader, IsLengthHeader, HeaderOf;
    SilentMore([], line);
    assert [] + [line] == [line];
  }

  lemma AnswerIsSilent(accept: string)
    requires IsValueText(accept)
    ensures AreSilent(AnswerOf(accept).lines)
  {
    hide IsLine, AreSilent, IsValueText, UPGRADE_LINE, CONNECTION_LINE, AcceptLine;
    UpgradeLineIs();
    ConnectionLineIs();
    AcceptLineIs(accept);
    var l0, l1, l2 := UPGRADE_LINE, CONNECTION_LINE, AcceptLine(accept);
    assert [l0] + [l1] == [l0, l1] && [l0, l1] + [l2] == [l0, l1, l2];
    SilentOne(l0);
    SilentMore([l0], l1);
    SilentMore([l0, l1], l2);
  }

  lemma AnswerLines(accept: string)
    requires IsValueText(accept)
    ensures IsReply(AnswerOf(accept)) && AsksUpgrade(AnswerOf(accept)) && AreSilent(AnswerOf(accept).lines)
  {
    hide IsLine, AsksIn, SaysIn, IsValueText, UPGRADE_LINE, CONNECTION_LINE, AcceptLine, IsReason, AreLines,
      SaysChunked,
      Length, HeadersOf;
    AnswerIsSilent(accept);
    UpgradeLineIs();
    ConnectionLineIs();
    var lines := AnswerOf(accept).lines;
    assert AsksIn(lines[0]) && SaysIn(lines[1], "upgrade");
    SwitchingReason();
  }

  lemma SwitchingReason()
    ensures IsReason("Switching Protocols")
  {
  }

  // ---------------------------------------------------------------- its text

  lemma OneLine(a: Line)
    ensures HeadersOf([a]) == [HeaderOf(a)]
  {
    assert [a][..0] == [];
  }

  lemma ThreeLines(a: Line, b: Line, c: Line)
    ensures HeadersOf([a, b, c]) == [HeaderOf(a), HeaderOf(b), HeaderOf(c)]
  {
    hide HeadersOf, HeaderOf;
    assert [a] + [b] == [a, b] && [a, b] + [c] == [a, b, c];
    OneLine(a);
    HeadersSnoc([a], b);
    HeadersSnoc([a, b], c);
  }

  lemma AnswerHeaders(accept: string)
    ensures HeadersOf(AnswerOf(accept).lines) ==
            [Header("Upgrade", "websocket"), Header("Connection", "Upgrade"), Header("Sec-WebSocket-Accept", accept)]
  {
    hide HeadersOf, CONNECTION_LINE;
    ConnectionLineIs();
    ThreeLines(UPGRADE_LINE, CONNECTION_LINE, AcceptLine(accept));
  }

  lemma TraceSnoc(hs: seq<Header>, h: Header)
    ensures PrintHeaders(hs + [h]) == PrintHeaders(hs) + PrintHeader(h)
    ensures HeaderTrace(hs + [h]) == HeaderTrace(hs) + [Data(Field, h.name), Data(Value, h.value)]
  {
    hide PrintHeader;
    assert (hs + [h])[..|hs|] == hs;
  }

  lemma OneHeader(a: Header)
    ensures PrintHeaders([a]) == PrintHeader(a) && HeaderTrace([a]) == [Data(Field, a.name), Data(Value, a.value)]
  {
    hide PrintHeader;
    assert [a][..0] == [];
  }

  lemma ThreeHeaders(a: Header, b: Header, c: Header)
    ensures PrintHeaders([a, b, c]) == PrintHeader(a) + PrintHeader(b) + PrintHeader(c)
    ensures HeaderTrace([a, b, c]) == [Data(Field, a.name), Data(Value, a.value), Data(Field, b.name),
                                       Data(Value, b.value), Data(Field, c.name), Data(Value, c.value)]
  {
    hide PrintHeader, PrintHeaders, HeaderTrace;
    OneHeader(a);
    TraceSnoc([a], b);
    TraceSnoc([a, b], c);
    assert [a] + [b] == [a, b] && [a, b] + [c] == [a, b, c];
  }

  const STATUS_LINE := "HTTP/1.1 101 " + "Switching Protocols\r\n"

  lemma DecimalOfSwitching()
    ensures DecimalText(101) == "101"
  {
    assert DecimalText(1) == "1" && DecimalText(10) == "10";
  }

  lemma SwitchingParts()
    ensures "H" + VERSION_REST + "101" + " " == "HTTP/1.1 101 "
    ensures "Switching Protocols" + "\r\n" == "Switching Protocols\r\n"
  {
  }

  lemma SwitchingLine()
    ensures PrintStatusLine(101, "Switching Protocols") == STATUS_LINE
  {
    hide DecimalText, VERSION_REST;
    DecimalOfSwitching();
    SwitchingParts();
    var a, b, c, d, e := "H" + VERSION_REST, "101", " ", "Switching Protocols", "\r\n";
    assert a + b + (c + d + e) == (a + b + c) + (d + e);
  }

  lemma UpgradePrinted()
    ensures PrintHeader(Header("Upgrade", "websocket")) == "Upgrade: websocket\r\n"
  {
  }

  lemma ConnectionPrinted()
    ensures PrintHeader(Header("Connection", "Upgrade")) == "Connection: Upgrade\r\n"
  {
  }

  lemma AcceptPrinted(accept: string)
    ensures PrintHeader(Header("Sec-WebSocket-Accept", accept)) == "Sec-WebSocket-Accept: " + accept + "\r\n"
  {
    assert "Sec-WebSocket-Accept" + ": " == "Sec-WebSocket-Accept: ";
  }

  lemma HeadParts()
    ensures C.RESPONSE_HEAD ==
            STATUS_LINE + "Upgrade: websocket\r\n" + "Connection: Upgrade\r\n" + "Sec-WebSocket-Accept: "
  {
  }

  /** The answer is a response with three headers. */
  lemma AnswerText(accept: string)
    ensures TextOf(AnswerOf(accept)) == C.RESPONSE_HEAD + accept + ("\r\n" + "\r\n")
  {
    hide PrintStatusLine, PrintHeaders, HeadersOf, CONNECTION_LINE, UPGRADE_LINE, PrintHeader, STATUS_LINE,
      C.RESPONSE_HEAD;
    var a, b, c := Header("Upgrade", "websocket"), Header("Connection", "Upgrade"),
                   Header("Sec-WebSocket-Accept", accept);
    SwitchingLine();
    AnswerHeaders(accept);
    ThreeHeaders(a, b, c);
    assert TextOf(AnswerOf(accept)) ==
           STATUS_LINE + (PrintHeader(a) + PrintHeader(b) + PrintHeader(c) + "\r\n" + "");
    hide TextOf;
    UpgradePrinted();
    ConnectionPrinted();
    AcceptPrinted(accept);
    HeadParts();
    AnswerParts(STATUS_LINE, PrintHeader(a), PrintHeader(b), "Sec-WebSocket-Accept: ", accept, "\r\n");
  }

  lemma AnswerParts(line: string, a: string, b: string, name: string, accept: string, end: string)
    ensures line + (a + b + (name + accept + end) + end + "") == line + a + b + name + accept + (end + end)
  {
  }

  lemma AsciiParts(a: string, b: string)
    requires IsAscii(a) && IsAscii(b)
    ensures IsAscii(a + b)
  {
  }

  lemma LineIsAscii()
    ensures IsAscii(STATUS_LINE)
  {
  }

  lemma LinesAreAscii()
    ensures IsAscii("Upgrade: websocket\r\n") && IsAscii("Connection: Upgrade\r\n")
    ensures IsAscii("Sec-WebSocket-Accept: ") && IsAscii("\r\n\r\n") && "\r\n\r\n" == "\r\n" + "\r\n"
  {
  }

  lemma HeadIsAscii()
    ensures IsAscii(C.RESPONSE_HEAD)
  {
    hide IsAscii, C.RESPONSE_HEAD, STATUS_LINE;
    LineIsAscii();
    LinesAreAscii();
    HeadParts();
    var a, b, c, d := STATUS_LINE, "Upgrade: websocket\r\n", "Connection: Upgrade\r\n", "Sec-WebSocket-Accept: ";
    AsciiParts(a, b);
    AsciiParts(a + b, c);
    AsciiParts(a + b + c, d);
  }

  lemma SentText(key: seq<Byte>)
    ensures Chars(C.UpgradeResponse(key)) == C.RESPONSE_HEAD + C.Accept(key) + ("\r\n" + "\r\n")
  {
    hide C.Ascii, C.Accept, Chars, C.RESPONSE_HEAD, IsAscii;
    AcceptIsValue(key);
    HeadIsAscii();
    LinesAreAscii();
    var end := "\r\n\r\n";
    CharsOfAscii(C.RESPONSE_HEAD);
    CharsOfAscii(C.Accept(key));
    CharsOfAscii(end);
    var a, b, c := C.Ascii(C.RESPONSE_HEAD), C.Ascii(C.Accept(key)), C.Ascii(end);
    CharsConcat(a, b);
    CharsConcat(a + b, c);
  }

  /** What sendUpgradeResponse sends is read by a peer as status 101 with exactly three headers;
      the call ends with the upgrade at its last byte. The third value, decoded as base64, is the
      SHA-1 digest of the key and the number of RFC 6455, section 1.3, one behind the other. */
  lemma AnswerReadBack(key: seq<Byte>, rest: string) returns (accept: string)
    ensures Base64.Decoded(accept) == Some(Sha1Spec.Digest(key + C.Ascii("258EAFA5-E914-47DA-95CA-C5AB0DC85B11")))
    ensures var sent := C.UpgradeResponse(key);
            var w := Feed(Init(Response), Chars(sent) + rest);
            w.p.errno.OK? && w.used == |sent| && w.p.statusCode == 101 && w.p.upgrade &&
            w.out == [MessageBegin, Data(Status(101), "Switching Protocols"),
                      Data(Field, "Upgrade"), Data(Value, "websocket"),
                      Data(Field, "Connection"), Data(Value, "Upgrade"),
                      Data(Field, "Sec-WebSocket-Accept"), Data(Value, accept),
                      HeadersComplete(DELETE, true, ULLONG_MAX), MessageComplete]
  {
    hide Feed, C.Ascii, C.Accept, C.UpgradeResponse, Chars, Base64.Decoded, Sha1Spec.Digest, TextOf, IsReply, HeadersOf,
      HeaderTrace, Length, IsValueText, Asks, Says, Bounded, AreLines, SaysChunked;
    accept := C.Accept(key);
    AcceptIsValue(key);
    AnswerLines(accept);
    AnswerText(accept);
    SentText(key);
    ReplyReported(AnswerOf(accept), rest);
    AnswerHeaders(accept);
    ThreeHeaders(Header("Upgrade", "websocket"), Header("Connection", "Upgrade"),
                 Header("Sec-WebSocket-Accept", accept));
  }
}
