/** Chunked transfer: chunk sizes to the byte, and the parser as the inverse of the sender. */
module HttpChunks {
  import opened HttpTypes
  import opened HttpAutomaton
  import opened HttpScan
  import opened HttpRuns
  import opened HttpInvariant
  import opened HttpNread
  import opened HttpPieces
  import opened HttpFragments
  import opened HttpResponses
  import opened HttpReads
  import opened HttpNames
  import opened HttpValues
  import opened HttpHeaders
  import opened HttpBodies

  // ---------------------------------------------------------------- chunk sizes

  predicate IsHexDigit(c: char) { '0' <= c <= '9' || 'A' <= c <= 'F' || 'a' <= c <= 'f' }

  predicate AllHex(s: string) { forall i | 0 <= i < |s| :: IsHexDigit(s[i]) }

  function HexDigit(c: char): nat
    requires IsHexDigit(c)
  {
    if c <= '9' then c as int - '0' as int else if c <= 'F' then c as int - 'A' as int + 10
       else c as int - 'a' as int + 10
  }

  function Hex(s: string): nat
    requires AllHex(s)
  {
    if s == "" then 0 else Hex(s[..|s| - 1]) * 16 + HexDigit(s[|s| - 1])
  }

  lemma HexSnoc(s: string, ch: char)
    requires AllHex(s) && IsHexDigit(ch)
    ensures AllHex(s + [ch]) && Hex(s + [ch]) == Hex(s) * 16 + HexDigit(ch)
  {
    assert (s + [ch])[..|s|] == s;
  }

  /** The largest size the check before each digit lets through. */
  const MAX_CHUNK := ULLONG_MAX - 16

  predicate ExpectsChunk(q: Parser) { q.state.ChunkSizeStart? && q.errno.OK? && q.flags.chunked }

  function SizeSet(q: Parser, n: nat): Parser { q.(state := ChunkSize, contentLength := n) }

  lemma ChunkTurns(q: Parser, ch: char, o: Outcome)
    requires IsChunkState(q.state) && !q.state.ChunkSizeStart? && q.errno.OK? && o == DispatchChunk(q, ch) &&
             o.p.errno.OK?
    ensures Turns(q, ch, o)
  {
    hide Descends, DispatchChunk;
  }

  lemma FirstSizeTrip(q: Parser, ch: char)
    requires ExpectsChunk(q) && q.nread == 1 && IsHexDigit(ch)
    ensures Dispatch(q, ch, false) == Go(SizeSet(q, HexDigit(ch)))
  {
    hide Descends;
    assert DispatchChunk(q, ch) == Go(SizeSet(q, HexDigit(ch)));
    hide DispatchChunk;
  }

  /** The first digit: the chunk has been counted from zero, so nread is 1 here. */
  lemma ReadFirstDigit(sc: Scan, q: Parser, out: seq<Event>, ch: char)
    requires At(sc, q, Nothing, out) && ScanSound(sc, 0) && ExpectsChunk(q) && IsHexDigit(ch)
    ensures At(ByteStep(sc, ch), SizeSet(q, HexDigit(ch)), Nothing, out)
  {
    var p := Count(sc.p);
    assert sc.p.nread == 0 by { hide Widths, FieldIndex, ValueIndex, MethodString; }
    assert p.nread == 1 && ExpectsChunk(p);
    hide Count, StateFits, Widths;
    FirstSizeTrip(p, ch);
    SkipUnused(p, ch, sc.skip);
    hide Dispatch;
    var o := Go(SizeSet(p, HexDigit(ch)));
    assert Apply(sc.(p := p), o, ch).p.errno.OK? by { hide HexDigit; }
    OneTrip(sc, ch, o);
    FirstDigitAt(sc, q, out, ch, p);
    hide ByteStep;
  }

  lemma SkipUnused(p: Parser, ch: char, skip: bool)
    requires p.state.ChunkSizeStart?
    ensures Dispatch(p, ch, skip) == Dispatch(p, ch, false)
  {
    hide DispatchChunk, Descends;
  }

  lemma FirstDigitAt(sc: Scan, q: Parser, out: seq<Event>, ch: char, p: Parser)
    requires At(sc, q, Nothing, out) && Alike(q, p) && IsHexDigit(ch) && q.errno.OK?
    ensures At(Advance(Apply(sc.(p := p), Go(SizeSet(p, HexDigit(ch))), ch), ch), SizeSet(q, HexDigit(ch)), Nothing,
               out)
  {
    hide HexDigit;
    assert out + [] == out;
  }

  lemma NextSizeDigit(q: Parser, n: nat, ch: char)
    requires ExpectsChunk(q) && IsHexDigit(ch)
    ensures var o := DispatchChunk(SizeSet(q, n), ch);
            if n * 16 + HexDigit(ch) <= MAX_CHUNK then o == Go(SizeSet(q, n * 16 + HexDigit(ch)))
            else o.p.errno.InvalidContentLength? && o.mark.NoMark?
  {
    hide Descends;
  }

  lemma SizeDigitFails(sc: Scan, q: Parser, n: nat, out: seq<Event>, ch: char)
    requires ExpectsChunk(q) && IsHexDigit(ch) && n * 16 + HexDigit(ch) > MAX_CHUNK &&
             At(sc, SizeSet(q, n), Nothing, out)
    ensures ByteStep(sc, ch).p.errno.InvalidContentLength? && !Live(ByteStep(sc, ch))
  {
    NextSizeDigit(q, n, ch);
    var o := DispatchChunk(SizeSet(q, n), ch);
    assert o == Dispatch(SizeSet(q, n), ch, false) by { hide DispatchChunk; }
    hide Dispatch, DispatchChunk, ByteStep;
    ReadFail(sc, SizeSet(q, n), Nothing, out, ch, o);
  }

  lemma AllHexSplit(v: string)
    requires v != "" && AllHex(v)
    ensures AllHex(v[..|v| - 1]) && IsHexDigit(v[|v| - 1])
  {
    hide IsHexDigit;
  }

  lemma HexNothing()
    ensures Hex("") == 0
  {
  }

  lemma HexSplit(v: string)
    requires v != "" && AllHex(v)
    ensures var (front, ch) := (v[..|v| - 1], v[|v| - 1]);
            v == front + [ch] && AllHex(front) && IsHexDigit(ch) && Hex(v) == Hex(front) * 16 + HexDigit(ch) &&
            (front == "" ==> v == [ch] && Hex(v) == HexDigit(ch))
  {
    hide IsHexDigit, HexDigit, AllHex, Hex;
    AllHexSplit(v);
    HexSnoc(v[..|v| - 1], v[|v| - 1]);
    HexNothing();
    assert v == v[..|v| - 1] + [v[|v| - 1]];
    if v[..|v| - 1] == "" { assert v == [v[|v| - 1]]; }
  }

  /** A chunk size is accumulated exactly, or refused: it never wraps and never becomes the
      sentinel. */
  lemma {:induction false} ChunkSizeExact(sc: Scan, q: Parser, out: seq<Event>, v: string)
    requires At(sc, q, Nothing, out) && ScanSound(sc, 0) && ExpectsChunk(q) && v != "" && AllHex(v)
    ensures if Hex(v) <= 0xFFFF_FFFF_FFFF_FFEF then At(ScanAll(sc, v), SizeSet(q, Hex(v)), Nothing, out)
            else ScanAll(sc, v).p.errno.InvalidContentLength? && !Live(ScanAll(sc, v))
  {
    hide ByteStep, IsHexDigit, HexDigit, Hex, AllHex, At, ScanAll, ScanSound, SizeSet, ExpectsChunk, Live;
    var front, ch := v[..|v| - 1], v[|v| - 1];
    HexSplit(v);
    if front == "" {
      ReadFirstDigit(sc, q, out, ch);
      ScanOne(sc, ch);
      HexDigitSmall(ch);
    } else {
      ChunkSizeExact(sc, q, out, front);
      ScanAllSnoc(sc, front, ch);
      NextSizeByte(ScanAll(sc, front), q, Hex(front), out, ch);
    }
  }

  /** One more digit, read or refused; after a refusal nothing is read. */
  lemma NextSizeByte(sc: Scan, q: Parser, n: nat, out: seq<Event>, ch: char)
    requires ExpectsChunk(q) && IsHexDigit(ch)
    requires if n <= MAX_CHUNK then At(sc, SizeSet(q, n), Nothing, out)
             else sc.p.errno.InvalidContentLength? && !Live(sc)
    ensures var m := n * 16 + HexDigit(ch);
            if m <= MAX_CHUNK then At(ByteStep(sc, ch), SizeSet(q, m), Nothing, out)
            else ByteStep(sc, ch).p.errno.InvalidContentLength? && !Live(ByteStep(sc, ch))
  {
    hide Turns, At, IsHexDigit, HexDigit, DispatchChunk, Trips;
    var m := n * 16 + HexDigit(ch);
    if m <= MAX_CHUNK {
      NextSizeDigit(q, n, ch);
      ChunkTurns(SizeSet(q, n), ch, Go(SizeSet(q, m)));
      ReadPlain(sc, SizeSet(q, n), out, ch, SizeSet(q, m));
    } else if n <= MAX_CHUNK {
      SizeDigitFails(sc, q, n, out, ch);
    }
  }

  lemma HexDigitSmall(ch: char)
    requires IsHexDigit(ch)
    ensures HexDigit(ch) <= 15
  {
  }

  // ---------------------------------------------------------------- one chunk

  /** sprintf("%X") */
  function HexText(n: nat): (s: string)
    ensures s != "" && AllHex(s) && Hex(s) == n
  {
    var d := n % 16;
    var c := if d < 10 then (d + '0' as int) as char else (d - 10 + 'A' as int) as char;
    if n < 16 then HexOne(c); [c] else HexSnoc(HexText(n / 16), c); HexText(n / 16) + [c]
  }

  function Pow16(k: nat): nat { if k == 0 then 1 else 16 * Pow16(k - 1) }

  lemma {:induction false} HexTextLength(n: nat, k: nat)
    requires n < Pow16(k) && 0 < k
    ensures |HexText(n)| <= k
  {
    if n >= 16 { HexTextLength(n / 16, k - 1); }
  }

  lemma HexOne(c: char)
    requires IsHexDigit(c)
    ensures AllHex([c]) && Hex([c]) == HexDigit(c)
  {
    assert [c][..0] == "";
  }

  function ChunkHead(n: nat): string { HexText(n) + "\r\n" }

  function PrintChunk(data: string): string { ChunkHead(|data|) + data + "\r\n" }

  const LAST_CHUNK := "0\r\n\r\n"

  function PrintChunks(chunks: seq<string>): string {
    if chunks == [] then "" else PrintChunks(chunks[..|chunks| - 1]) + PrintChunk(chunks[|chunks| - 1])
  }

  lemma SizeEndTurns(q: Parser)
    requires q.errno.OK? && q.flags.chunked
    ensures q.state.ChunkSize? || q.state.ChunkParameters? ==> Turns(q, '\r', Go(q.(state := ChunkSizeAlmostDone)))
    ensures q.state.ChunkSizeAlmostDone? && q.contentLength > 0 ==>
              Turns(q, '\n', Outcome(q.(nread := 0, state := ChunkData), NoMark, NoFlush,
                                     [ChunkHeader(q.contentLength)], Next))
    ensures q.state.ChunkSizeAlmostDone? && q.contentLength == 0 ==>
              Turns(q, '\n', Outcome(q.(nread := 0, flags := q.flags.(trailing := true), state := HeaderFieldStart),
                                     NoMark, NoFlush, [ChunkHeader(0)], Next))
  {
    if q.state.ChunkSize? || q.state.ChunkParameters? { ChunkTurns(q, '\r', Go(q.(state := ChunkSizeAlmostDone))); }
    if q.state.ChunkSizeAlmostDone? {
      if q.contentLength > 0 {
        ChunkTurns(q, '\n', Outcome(q.(nread := 0, state := ChunkData), NoMark, NoFlush, [ChunkHeader(q.contentLength)],
                                    Next));
      } else {
        ChunkTurns(q, '\n', Outcome(q.(nread := 0, flags := q.flags.(trailing := true), state := HeaderFieldStart),
                                    NoMark, NoFlush, [ChunkHeader(0)], Next));
      }
    }
    hide Turns;
  }

  lemma DataEndTurns(q: Parser, ch: char)
    requires q.errno.OK? && q.flags.chunked
    ensures q.state.ChunkData? && q.contentLength == 1 ==>
              Turns(q, ch, Outcome(q.(contentLength := 0, state := ChunkDataAlmostDone), MarkOf(Body), NoFlush, [],
                                   Next))
    ensures q.state.ChunkDataAlmostDone? && q.contentLength == 0 ==>
              Turns(q, '\r', Outcome(q.(state := ChunkDataDone), NoMark, UpTo(Body), [], Next))
    ensures q.state.ChunkDataDone? ==>
              Turns(q, '\n', Outcome(q.(nread := 0, state := ChunkSizeStart), NoMark, NoFlush, [ChunkComplete], Next))
  {
    if q.state.ChunkData? && q.contentLength == 1 {
      ChunkTurns(q, ch, Outcome(q.(contentLength := 0, state := ChunkDataAlmostDone), MarkOf(Body), NoFlush, [], Next));
    }
    if q.state.ChunkDataAlmostDone? && q.contentLength == 0 {
      ChunkTurns(q, '\r', Outcome(q.(state := ChunkDataDone), NoMark, UpTo(Body), [], Next));
    }
    if q.state.ChunkDataDone? {
      ChunkTurns(q, '\n', Outcome(q.(nread := 0, state := ChunkSizeStart), NoMark, NoFlush, [ChunkComplete], Next));
    }
    hide Turns;
  }

  /** What may stand between the size and the end of its line: nothing, or a blank or semicolon and
      any other bytes up to the carriage return. */
  predicate IsExtension(s: string) {
    s != "" ==> (s[0] == ';' || s[0] == ' ') && forall i | 0 <= i < |s| :: s[i] != '\r'
  }

  lemma ExtensionTurns(q: Parser, ch: char)
    requires q.errno.OK? && q.flags.chunked
    ensures q.state.ChunkSize? && (ch == ';' || ch == ' ') ==> Turns(q, ch, Go(q.(state := ChunkParameters)))
    ensures q.state.ChunkParameters? && ch != '\r' ==> Turns(q, ch, Go(q))
  {
    if q.state.ChunkSize? && (ch == ';' || ch == ' ') {
      assert Unhex(ch) == -1;
      ChunkTurns(q, ch, Go(q.(state := ChunkParameters)));
    }
    if q.state.ChunkParameters? && ch != '\r' { ChunkTurns(q, ch, Go(q)); }
    hide Turns;
  }

  lemma {:induction false} ExtensionWalk(q: Parser, s: string)
    requires q.errno.OK? && q.flags.chunked && q.state.ChunkSize? && IsExtension(s)
    ensures Plods(q, s) && WalkTo(q, s) == if s == "" then q else q.(state := ChunkParameters)
  {
    hide Turns, Dispatch;
    if s == "" {
      WalkNothing(q);
    } else {
      var front, ch := s[..|s| - 1], s[|s| - 1];
      assert s == front + [ch];
      ExtensionWalk(q, front);
      ExtensionTurns(q, ch);
      ExtensionTurns(q.(state := ChunkParameters), ch);
      WalkStep(q, front, ch, q.(state := ChunkParameters));
    }
  }

  /** The parser behind the size line. */
  function SizeRead(q: Parser, n: nat): Parser {
    if n > 0 then q.(state := ChunkData, contentLength := n)
    else q.(state := HeaderFieldStart, flags := q.flags.(trailing := true), contentLength := 0)
  }

  /** A size line: extensions are passed over. */
  lemma ReadExtendedSize(sc: Scan, q: Parser, out: seq<Event>, n: nat, extension: string)
    requires At(sc, q, Nothing, out) && ScanSound(sc, 0) && ExpectsChunk(q) && n <= MAX_CHUNK && IsExtension(extension)
    ensures At(ScanAll(sc, HexText(n) + extension + "\r\n"), SizeRead(q, n), Nothing, out + [ChunkHeader(n)])
  {
    hide Turns, ByteStep, ScanAll, HexText, Sound, WalkTo, Plods;
    ChunkSizeExact(sc, q, out, HexText(n));
    var q0 := SizeSet(q, n);
    ExtensionWalk(q0, extension);
    var q1 := WalkTo(q0, extension);
    ReadWalk(ScanAll(sc, HexText(n)), q0, Nothing, out, extension);
    ScanAllConcat(sc, HexText(n), extension);
    var line := HexText(n) + extension;
    var s1 := ScanAll(sc, line);
    SizeEndTurns(q1);
    ReadPlain(s1, q1, out, '\r', q1.(state := ChunkSizeAlmostDone));
    var q2 := q1.(state := ChunkSizeAlmostDone);
    SizeEndTurns(q2);
    var q3 := if n > 0 then q2.(nread := 0, state := ChunkData)
              else q2.(nread := 0, flags := q2.flags.(trailing := true), state := HeaderFieldStart);
    ReadEvents(ByteStep(s1, '\r'), q2, out, '\n', q3, [ChunkHeader(n)]);
    TwoMore(sc, line, '\r', '\n');
    assert line + ['\r', '\n'] == line + "\r\n";
    AtAlike(ByteStep(ByteStep(s1, '\r'), '\n'), q3, SizeRead(q, n), Nothing, out + [ChunkHeader(n)]);
  }

  /** The size line. */
  lemma ReadSizeLine(sc: Scan, q: Parser, out: seq<Event>, n: nat)
    requires At(sc, q, Nothing, out) && ScanSound(sc, 0) && ExpectsChunk(q) && n <= MAX_CHUNK
    ensures At(ScanAll(sc, ChunkHead(n)), SizeRead(q, n), Nothing, out + [ChunkHeader(n)])
  {
    hide ScanAll, HexText, ScanSound, At;
    ReadExtendedSize(sc, q, out, n, "");
    assert HexText(n) + "" + "\r\n" == ChunkHead(n);
  }

  /** The data of a chunk. */
  lemma ReadChunkData(sc: Scan, q: Parser, out: seq<Event>, data: string)
    requires At(sc, q, Nothing, out) && q.state.ChunkData? && q.flags.chunked && q.contentLength == |data|
    requires 0 < |data| < ULLONG_MAX
    ensures At(ScanAll(sc, data), q.(contentLength := 0, state := ChunkDataAlmostDone), Since(Body, data), out)
  {
    hide Turns, ByteStep, ScanAll, At;
    assert q.errno.OK? by { AtOk(sc, q, Nothing, out); }
    var front, ch := data[..|data| - 1], data[|data| - 1];
    BodyAt(sc, q, out, front);
    var q1, q2 := q.(contentLength := 1), q.(contentLength := 0, state := ChunkDataAlmostDone);
    DataEndTurns(q1, ch);
    var o := Outcome(q2, MarkOf(Body), NoFlush, [], Next);
    var pend := if front == "" then Nothing else Since(Body, front);
    ReadByte(ScanAll(sc, front), q1, pend, out, ch, o);
    assert front + [ch] == data && "" + [ch] == [ch] && out + [] == out;
    assert Longer(PendOf(pend, o), ch) == Since(Body, data) && OutOf(out, pend, o, ch) == out;
    ScanAllSnoc(sc, front, ch);
  }

  /** The end of a chunk. */
  lemma ReadDataEnd(sc: Scan, q: Parser, out: seq<Event>, data: string)
    requires At(sc, q, Since(Body, data), out) && q.state.ChunkDataAlmostDone? && q.flags.chunked &&
             q.contentLength == 0
    ensures At(ScanAll(sc, "\r"), q.(state := ChunkDataDone), Nothing, out + [Data(Body, data)])
    ensures At(ScanAll(sc, "\r\n"), q.(state := ChunkSizeStart), Nothing, out + [Data(Body, data), ChunkComplete])
  {
    hide Turns, ByteStep, ScanAll, At;
    assert q.errno.OK? by { AtOk(sc, q, Since(Body, data), out); }
    DataEndTurns(q, '\r');
    var q3 := q.(state := ChunkDataDone);
    ReadFlush(sc, q, Body, data, out, '\r', q3);
    DataEndTurns(q3, '\n');
    var q4 := q3.(nread := 0, state := ChunkSizeStart);
    ReadEvents(ByteStep(sc, '\r'), q3, out + [Data(Body, data)], '\n', q4, [ChunkComplete]);
    assert out + [Data(Body, data)] + [ChunkComplete] == out + [Data(Body, data), ChunkComplete];
    ScanOne(sc, '\r');
    ScanAllSnoc(sc, "\r", '\n');
    assert ['\r'] == "\r" && "\r" + ['\n'] == "\r\n";
    AtAlike(ScanAll(sc, "\r\n"), q4, q.(state := ChunkSizeStart), Nothing, out + [Data(Body, data), ChunkComplete]);
  }

  lemma ReadData(sc: Scan, q: Parser, out: seq<Event>, data: string)
    requires At(sc, q, Nothing, out) && q.state.ChunkData? && q.flags.chunked && q.contentLength == |data|
    requires 0 < |data| < ULLONG_MAX
    ensures At(ScanAll(sc, data + "\r\n"), q.(state := ChunkSizeStart, contentLength := 0), Nothing,
               out + [Data(Body, data), ChunkComplete])
  {
    hide ScanAll, At;
    ReadChunkData(sc, q, out, data);
    ReadDataEnd(ScanAll(sc, data), q.(contentLength := 0, state := ChunkDataAlmostDone), out, data);
    ScanAllConcat(sc, data, "\r\n");
  }

  /** The callbacks for one chunk. */
  function ChunkTrace(data: string): seq<Event> { [ChunkHeader(|data|), Data(Body, data), ChunkComplete] }

  lemma ReadChunk(sc: Scan, q: Parser, out: seq<Event>, data: string)
    requires At(sc, q, Nothing, out) && ScanSound(sc, 0) && ExpectsChunk(q) && 0 < |data| <= MAX_CHUNK
    ensures At(ScanAll(sc, PrintChunk(data)), q.(contentLength := 0), Nothing, out + ChunkTrace(data))
    ensures ScanSound(ScanAll(sc, PrintChunk(data)), 0)
  {
    hide ScanAll, ScanSound, ChunkHead, At;
    ReadSizeLine(sc, q, out, |data|);
    var q1 := q.(state := ChunkData, contentLength := |data|);
    ReadData(ScanAll(sc, ChunkHead(|data|)), q1, out + [ChunkHeader(|data|)], data);
    ScanAllConcat(sc, ChunkHead(|data|), data + "\r\n");
    assert ChunkHead(|data|) + (data + "\r\n") == PrintChunk(data);
    assert out + [ChunkHeader(|data|)] + [Data(Body, data), ChunkComplete] == out + ChunkTrace(data);
    ScanAllSound(sc, PrintChunk(data));
  }

  predicate AreChunks(chunks: seq<string>) { forall i | 0 <= i < |chunks| :: 0 < |chunks[i]| <= MAX_CHUNK }

  function ChunksTrace(chunks: seq<string>): seq<Event> {
    if chunks == [] then [] else ChunksTrace(chunks[..|chunks| - 1]) + ChunkTrace(chunks[|chunks| - 1])
  }

  lemma {:induction false} ReadChunks(sc: Scan, q: Parser, out: seq<Event>, chunks: seq<string>)
    requires At(sc, q, Nothing, out) && ScanSound(sc, 0) && ExpectsChunk(q) && AreChunks(chunks)
    ensures At(ScanAll(sc, PrintChunks(chunks)), if chunks == [] then q
               else q.(contentLength := 0), Nothing, out + ChunksTrace(chunks))
    ensures ScanSound(ScanAll(sc, PrintChunks(chunks)), 0)
  {
    hide ScanAll, ScanSound, PrintChunk, ChunkTrace, At;
    if chunks == [] {
      ScanNothing(sc);
      assert out + [] == out;
    } else {
      var front, data := chunks[..|chunks| - 1], chunks[|chunks| - 1];
      ReadChunks(sc, q, out, front);
      var m := if front == [] then q else q.(contentLength := 0);
      ReadChunk(ScanAll(sc, PrintChunks(front)), m, out + ChunksTrace(front), data);
      ScanAllConcat(sc, PrintChunks(front), PrintChunk(data));
      assert out + ChunksTrace(front) + ChunkTrace(data) == out + ChunksTrace(chunks);
    }
  }

  // ---------------------------------------------------------------- the end of the chunks

  lemma TrailerTurns(q: Parser)
    requires q.errno.OK? && q.flags.trailing
    ensures q.state.HeadersAlmostDone? ==>
            Turns(q, '\n', Outcome(q.(state := MessageDone), NoMark, NoFlush, [ChunkComplete], Again))
    ensures q.state.MessageDone? ==> Turns(q, '\n', Complete(q, if q.upgrade then Exit else Next))
  {
    if q.state.HeadersAlmostDone? {
      HeadersTurns(q, Outcome(q.(state := MessageDone), NoMark, NoFlush, [ChunkComplete], Again));
    }
    if q.state.MessageDone? { BodyTurns(q, '\n', Complete(q, if q.upgrade then Exit else Next)); }
    hide Turns, NewMessage;
  }

  /** The empty line behind the last chunk. */
  lemma ReadTrailer(sc: Scan, q: Parser, out: seq<Event>)
    requires At(sc, q, Nothing, out) && q.state.HeaderFieldStart? && q.flags.trailing && !q.upgrade
    ensures At(ScanAll(sc, "\r\n"), q.(state := NewMessage(q)), Nothing, out + [ChunkComplete, MessageComplete])
  {
    hide Turns, ByteStep, ScanAll, At, NewMessage;
    assert q.errno.OK? by { AtOk(sc, q, Nothing, out); }
    var q1, q2 := q.(state := HeadersAlmostDone), q.(state := MessageDone);
    CrTurns(q);
    ReadPlain(sc, q, out, '\r', q1);
    var s1 := ByteStep(sc, '\r');
    TrailerTurns(q1);
    TrailerTurns(q2);
    NewMessageNread(q);
    var o1, o2 := Outcome(q2, NoMark, NoFlush, [ChunkComplete], Again), Complete(q2, Next);
    assert PendOf(Nothing, o1) == Nothing && OutOf(out, Nothing, o1, '\n') == out + [ChunkComplete];
    assert PendOf(Nothing, o2) == Nothing;
    assert OutOf(out + [ChunkComplete], Nothing, o2, '\n') == out + [ChunkComplete] + [MessageComplete];
    ReadByteTwice(s1, q1, Nothing, out, '\n', o1, o2);
    assert out + [ChunkComplete] + [MessageComplete] == out + [ChunkComplete, MessageComplete];
    ScanOne(sc, '\r');
    ScanAllSnoc(sc, "\r", '\n');
    assert ['\r'] == "\r" && "\r" + ['\n'] == "\r\n";
  }

  /** What a chunked body must make: its chunks in order, the last chunk header, the end. */
  function ChunkedTrace(chunks: seq<string>): seq<Event> {
    ChunksTrace(chunks) + [ChunkHeader(0), ChunkComplete, MessageComplete]
  }

  /** The parser inverts the chunk printer: the chunks come back one by one, with one chunk
      header each and one for the end, and the message completes once. */
  lemma ReadChunkedBody(sc: Scan, q: Parser, out: seq<Event>, chunks: seq<string>) returns (r: Parser)
    requires At(sc, q, Nothing, out) && ScanSound(sc, 0) && ExpectsChunk(q) && !q.upgrade && AreChunks(chunks)
    ensures At(ScanAll(sc, PrintChunks(chunks) + LAST_CHUNK), r, Nothing, out + ChunkedTrace(chunks))
    ensures BetweenMessages(r.state) && r.httpMethod == q.httpMethod
  {
    hide ScanAll, ScanSound, PrintChunks, ChunksTrace, At, AreChunks, NewMessage, HexText;
    ReadChunks(sc, q, out, chunks);
    var m := if chunks == [] then q else q.(contentLength := 0);
    var s1, out1 := ScanAll(sc, PrintChunks(chunks)), out + ChunksTrace(chunks);
    assert ChunkHead(0) == "0\r\n" by { ZeroHead(); }
    ReadSizeLine(s1, m, out1, 0);
    var q1 := m.(state := HeaderFieldStart, flags := m.flags.(trailing := true), contentLength := 0);
    ReadTrailer(ScanAll(s1, "0\r\n"), q1, out1 + [ChunkHeader(0)]);
    r := q1.(state := NewMessage(q1));
    StartsAgain(q1);
    assert out1 + [ChunkHeader(0)] + [ChunkComplete, MessageComplete] == out + ChunkedTrace(chunks);
    ScanAllConcat(s1, "0\r\n", "\r\n");
    assert "0\r\n" + "\r\n" == LAST_CHUNK;
    ScanAllConcat(sc, PrintChunks(chunks), LAST_CHUNK);
  }

  lemma ZeroHead()
    ensures ChunkHead(0) == "0\r\n"
  {
  }

  lemma {:induction false} BytesConcat(a: seq<Event>, b: seq<Event>, k: DataKind)
    ensures Bytes(a + b, k) == Bytes(a, k) + Bytes(b, k)
    decreases |b|
  {
    if b == [] {
      assert a + b == a;
    } else {
      assert (a + b)[..|a + b| - 1] == a + b[..|b| - 1];
      BytesConcat(a, b[..|b| - 1], k);
    }
  }

  /** The body callbacks deliver the concatenation of the chunks. */
  lemma {:induction false} ChunksDeliver(chunks: seq<string>)
    ensures Bytes(ChunkedTrace(chunks), Body) == Flat(chunks)
  {
    hide Bytes, ChunkTrace, ChunksTrace, Flat;
    BytesConcat(ChunksTrace(chunks), [ChunkHeader(0), ChunkComplete, MessageComplete], Body);
    NoBodyBytes();
    ChunksBytes(chunks);
    assert Flat(chunks) + "" == Flat(chunks);
  }

  lemma {:induction false} ChunksBytes(chunks: seq<string>)
    ensures Bytes(ChunksTrace(chunks), Body) == Flat(chunks)
  {
    if chunks == [] {
      NoBodyBytes();
    } else {
      var front, data := chunks[..|chunks| - 1], chunks[|chunks| - 1];
      ChunksBytes(front);
      BytesConcat(ChunksTrace(front), ChunkTrace(data), Body);
      ChunkBytes(data);
    }
    hide Bytes, ChunkTrace;
  }

  lemma NoBodyBytes()
    ensures Bytes([ChunkHeader(0), ChunkComplete, MessageComplete], Body) == "" && Bytes([], Body) == ""
  {
    BytesSnoc([ChunkHeader(0), ChunkComplete], MessageComplete, Body);
    BytesSnoc([ChunkHeader(0)], ChunkComplete, Body);
    BytesSnoc([], ChunkHeader(0), Body);
    assert [ChunkHeader(0), ChunkComplete] + [MessageComplete] == [ChunkHeader(0), ChunkComplete, MessageComplete];
    assert [ChunkHeader(0)] + [ChunkComplete] == [ChunkHeader(0), ChunkComplete] &&
           [] + [ChunkHeader(0)] == [ChunkHeader(0)];
  }

  lemma ChunkBytes(data: string)
    ensures Bytes(ChunkTrace(data), Body) == data
  {
    BytesSnoc([ChunkHeader(|data|), Data(Body, data)], ChunkComplete, Body);
    BytesSnoc([ChunkHeader(|data|)], Data(Body, data), Body);
    BytesSnoc([], ChunkHeader(|data|), Body);
    assert [ChunkHeader(|data|), Data(Body, data)] + [ChunkComplete] == ChunkTrace(data);
    assert [ChunkHeader(|data|)] + [Data(Body, data)] == [ChunkHeader(|data|), Data(Body, data)];
    assert [] + [ChunkHeader(|data|)] == [ChunkHeader(|data|)];
  }
}
