/** What a stretch of bytes of one sort does to the scan: the bulk steps of
    http_parser_execute, one byte at a time. */
module HttpRuns {
  import opened HttpTypes
  import opened HttpAutomaton
  import opened HttpScan

  /** A byte that takes one trip and goes on to the next byte. */
  lemma OneTrip(sc: Scan, ch: char, o: Outcome)
    requires Live(sc) && o == Dispatch(Count(sc.p), ch, sc.skip)
    requires o.p.errno.OK? && o.ctl.Next? && Apply(sc.(p := Count(sc.p)), o, ch).p.errno.OK?
    ensures ByteStep(sc, ch) == Advance(Apply(sc.(p := Count(sc.p)), o, ch), ch)
  {
    hide Dispatch, Apply, Advance, Count;
  }

  predicate MarkFree(pend: Pending, k: DataKind) { pend.Nothing? || pend.kind == k }

  function Extend(pend: Pending, k: DataKind, s: string): Pending {
    Since(k, if pend.Nothing? then s else pend.bytes + s)
  }

  lemma ExtendTwice(pend: Pending, k: DataKind, a: string, b: string)
    ensures Extend(Extend(pend, k, a), k, b) == Extend(pend, k, a + b)
  {
    if !pend.Nothing? {
      assert pend.bytes + a + b == pend.bytes + (a + b);
    }
  }

  predicate NoCrLf(s: string) { forall i | 0 <= i < |s| :: !IsCrLf(s[i]) }

  // ---------------------------------------------------------------- bodies

  predicate InBody(p: Parser) { p.state.BodyIdentity? || (p.state.ChunkData? && p.flags.chunked) }

  /** A body byte that is not the last one. */
  lemma BodyByte(sc: Scan, ch: char)
    requires Live(sc) && InBody(sc.p) && 1 < sc.p.contentLength < ULLONG_MAX && MarkFree(sc.pend, Body)
    ensures ByteStep(sc, ch) ==
            sc.(p := sc.p.(contentLength := sc.p.contentLength - 1), pend := Extend(sc.pend, Body, [ch]),
                used := sc.used + 1, inner := false, skip := false)
  {
    hide Descends;
    var o := Outcome(sc.p.(contentLength := sc.p.contentLength - 1), MarkOf(Body), NoFlush, [], Next);
    assert Dispatch(sc.p, ch, sc.skip) == o;
    hide Dispatch;
    OneTrip(sc, ch, o);
    assert sc.out + [] == sc.out && "" + [ch] == [ch];
  }

  lemma {:induction false} BodyRun(sc: Scan, s: string)
    requires Live(sc) && InBody(sc.p) && |s| < sc.p.contentLength < ULLONG_MAX && MarkFree(sc.pend, Body) && s != ""
    ensures ScanAll(sc, s) ==
            sc.(p := sc.p.(contentLength := sc.p.contentLength - |s|), pend := Extend(sc.pend, Body, s),
                used := sc.used + |s|, inner := false, skip := false)
  {
    hide ByteStep;
    var s' := s[..|s| - 1];
    assert s == s' + [s[|s| - 1]];
    if s' == "" {
      ScanOne(sc, s[0]);
      assert s == [s[0]];
      BodyByte(sc, s[0]);
    } else {
      BodyRun(sc, s');
      BodyByte(ScanAll(sc, s'), s[|s| - 1]);
      ExtendTwice(sc.pend, Body, s', [s[|s| - 1]]);
    }
  }

  lemma EofByte(sc: Scan, ch: char)
    requires Live(sc) && sc.p.state.BodyIdentityEof? && MarkFree(sc.pend, Body)
    ensures ByteStep(sc, ch) ==
            sc.(pend := Extend(sc.pend, Body, [ch]), used := sc.used + 1, inner := false, skip := false)
  {
    hide Descends;
    var o := Outcome(sc.p, MarkOf(Body), NoFlush, [], Next);
    assert Dispatch(sc.p, ch, sc.skip) == o;
    hide Dispatch;
    OneTrip(sc, ch, o);
    assert sc.out + [] == sc.out && "" + [ch] == [ch];
  }

  lemma {:induction false} EofRun(sc: Scan, s: string)
    requires Live(sc) && sc.p.state.BodyIdentityEof? && MarkFree(sc.pend, Body) && s != ""
    ensures ScanAll(sc, s) ==
            sc.(pend := Extend(sc.pend, Body, s), used := sc.used + |s|, inner := false, skip := false)
  {
    hide ByteStep;
    var s' := s[..|s| - 1];
    assert s == s' + [s[|s| - 1]];
    if s' == "" {
      ScanOne(sc, s[0]);
      assert s == [s[0]];
      EofByte(sc, s[0]);
    } else {
      EofRun(sc, s');
      EofByte(ScanAll(sc, s'), s[|s| - 1]);
      ExtendTwice(sc.pend, Body, s', [s[|s| - 1]]);
    }
  }

  // ---------------------------------------------------------------- headers

  function FieldNext(p: Parser, ch: char): Parser { FieldByte(Count(p), ch, Token(ch)) }

  lemma FieldByteStep(sc: Scan, ch: char)
    requires Live(sc) && sc.p.state.HeaderField? && sc.pend.Since? && sc.pend.kind.Field?
    requires Token(ch) != '\0' && FieldNext(sc.p, ch).errno.OK?
    ensures ByteStep(sc, ch) ==
            sc.(p := FieldNext(sc.p, ch), pend := Extend(sc.pend, Field, [ch]), used := sc.used + 1,
                inner := true, skip := false)
    ensures FieldNext(sc.p, ch).state.HeaderField? && FieldNext(sc.p, ch).nread == sc.p.nread + 1
  {
    hide Descends;
    var o := Go(FieldNext(sc.p, ch));
    assert Dispatch(Count(sc.p), ch, sc.skip) == o by { hide FieldByte; }
    FieldByteFrame(Count(sc.p), ch, Token(ch));
    hide Dispatch, FieldByte;
    OneTrip(sc, ch, o);
    assert sc.out + [] == sc.out && "" + [ch] == [ch];
  }

  lemma FieldByteFrame(p: Parser, ch: char, c: char)
    ensures var r := FieldByte(p, ch, c);
            r == p.(headerState := r.headerState, index := r.index, errno := r.errno)
  {
  }

  lemma MatchKeyNread(p: Parser, c: char, key: string, miss: HeaderState, hit: HeaderState, n: nat)
    ensures MatchKey(p.(nread := n), c, key, miss, hit) == MatchKey(p, c, key, miss, hit).(nread := n)
  {
  }

  /** FieldByte does not look at nread. */
  lemma FieldByteNread(p: Parser, ch: char, c: char, n: nat)
    ensures FieldByte(p.(nread := n), ch, c) == FieldByte(p, ch, c).(nread := n)
  {
    MatchKeyNread(p, c, "connection", General, Connection, n);
    MatchKeyNread(p, c, "proxy-connection", General, Connection, n);
    MatchKeyNread(p, c, "content-length", General, ContentLength, n);
    MatchKeyNread(p, c, "transfer-encoding", General, TransferEncoding, n);
    MatchKeyNread(p, c, "upgrade", General, Upgrade, n);
    hide MatchKey;
  }

  function ValueNext(p: Parser, ch: char): Parser { ValueByte(Count(p), ch) }

  lemma ValueByteFrame(p: Parser, ch: char)
    ensures var r := ValueByte(p, ch);
            r == p.(headerState := r.headerState, index := r.index, errno := r.errno, flags := r.flags,
                    contentLength := r.contentLength)
  {
  }

  lemma DigitNread(p: Parser, ch: char, n: nat)
    ensures ContentLengthDigit(p.(nread := n), ch) == ContentLengthDigit(p, ch).(nread := n)
  {
  }

  lemma FlagNread(p: Parser, n: nat)
    ensures SetConnectionFlag(p.(nread := n)) == SetConnectionFlag(p).(nread := n)
  {
  }

  lemma ConnectionByteNread(p: Parser, ch: char, n: nat)
    ensures ConnectionByte(p.(nread := n), ch) == ConnectionByte(p, ch).(nread := n)
  {
    MatchKeyNread(p, Lower(ch), "keep-alive", MatchingConnectionToken, ConnectionKeepAlive, n);
    MatchKeyNread(p, Lower(ch), "close", MatchingConnectionToken, ConnectionClose, n);
    MatchKeyNread(p, Lower(ch), "upgrade", MatchingConnectionToken, ConnectionUpgrade, n);
    FlagNread(p, n);
    hide MatchKey, Lower, Token, SetConnectionFlag;
  }

  lemma ValueByteNread(p: Parser, ch: char, n: nat)
    ensures ValueByte(p.(nread := n), ch) == ValueByte(p, ch).(nread := n)
  {
    MatchKeyNread(p, Lower(ch), "chunked", General, TransferEncodingChunked, n);
    DigitNread(p, ch, n);
    ConnectionByteNread(p, ch, n);
    hide MatchKey, Lower, ContentLengthDigit, ConnectionByte;
  }

  lemma ValueByteStep(sc: Scan, ch: char)
    requires Live(sc) && sc.p.state.HeaderValue? && sc.pend.Since? && sc.pend.kind.Value?
    requires !IsCrLf(ch) && (sc.skip || IsHeaderChar(ch)) && ValueNext(sc.p, ch).errno.OK?
    ensures ByteStep(sc, ch) ==
            sc.(p := ValueNext(sc.p, ch), pend := Extend(sc.pend, Value, [ch]), used := sc.used + 1,
                inner := true, skip := sc.p.headerState.General?)
    ensures ValueNext(sc.p, ch).state.HeaderValue? && ValueNext(sc.p, ch).nread == sc.p.nread + 1
  {
    hide Descends;
    var o := Go(ValueNext(sc.p, ch));
    assert Dispatch(Count(sc.p), ch, sc.skip) == o by { hide ValueByte; }
    ValueByteFrame(Count(sc.p), ch);
    hide Dispatch, ValueByte;
    OneTrip(sc, ch, o);
    assert sc.out + [] == sc.out && "" + [ch] == [ch];
  }

  /** The stretch that memchr jumps over. */
  lemma {:induction false} SkipRun(sc: Scan, s: string)
    requires Live(sc) && sc.p.state.HeaderValue? && sc.p.headerState.General? && sc.pend.Since? && sc.pend.kind.Value?
    requires sc.skip && sc.inner && NoCrLf(s)
    ensures ScanAll(sc, s) ==
            sc.(p := sc.p.(nread := sc.p.nread + |s|), pend := Extend(sc.pend, Value, s), used := sc.used + |s|)
  {
    hide ByteStep;
    if s == "" {
      assert sc.pend.bytes + s == sc.pend.bytes;
    } else {
      var s' := s[..|s| - 1];
      assert s == s' + [s[|s| - 1]];
      SkipRun(sc, s');
      ValueByteStep(ScanAll(sc, s'), s[|s| - 1]);
      ExtendTwice(sc.pend, Value, s', [s[|s| - 1]]);
    }
  }
}
