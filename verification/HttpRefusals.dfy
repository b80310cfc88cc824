/** What the parser refuses: the byte at which a request stops being one, and the error. */
module HttpRefusals {
  import opened HttpTypes
  import opened HttpAutomaton
  import opened HttpScan
  import opened HttpRuns
  import opened HttpInvariant
  import opened HttpNread
  import opened HttpPieces
  import opened HttpFragments
  import opened HttpReads
  import opened HttpNames
  import opened HttpValues
  import opened HttpHeaders
  import opened HttpRequestLine
  import opened HttpConnection
  import opened HttpBodies
  import opened HttpSections
  import opened HttpMessages
  import opened HttpConversations

  // ---------------------------------------------------------------- a byte that is refused

  /** A parser whose next trip on `ch` reports this error. */
  predicate Refuses(q: Parser, ch: char, e: Errno) {
    q.errno.OK? && !e.OK? && !q.state.ChunkSizeStart? && (q.state.HeaderValue? ==> IsHeaderChar(ch)) &&
    var o := Dispatch(q, ch, false);
    o.p.errno == e && o.flush.NoFlush? && o.events == []
  }

  /** Nothing is added to what was read before. */
  lemma RefusedByte(sc: Scan, q: Parser, pend: Pending, out: seq<Event>, ch: char, e: Errno)
    requires At(sc, q, pend, out) && Refuses(q, ch, e) && Marks(pend, Dispatch(q, ch, false))
    ensures var r := ByteStep(sc, ch); r.p.errno == e && r.out == out && r.used == sc.used && !Live(r)
  {
    hide Dispatch, Count, Apply, Refuses;
    var sc0, o := sc.(p := Count(sc.p)), Dispatch(q, ch, false);
    CountAt(sc, q, pend, out);
    assert o.p.errno == e && !e.OK? && o.flush.NoFlush? && o.events == [] &&
           (q.state.HeaderValue? ==> IsHeaderChar(ch)) && !q.state.ChunkSizeStart? by { RefusesIs(q, ch, e); }
    LikeTrip(q, ch, false, sc0.skip, sc0.p.nread);
    RefusedApply(sc0, Dispatch(sc0.p, ch, sc.skip), ch);
  }

  lemma RefusesIs(q: Parser, ch: char, e: Errno)
    requires Refuses(q, ch, e)
    ensures var o := Dispatch(q, ch, false);
            q.errno.OK? && o.p.errno == e && !e.OK? && o.flush.NoFlush? && o.events == [] &&
            (q.state.HeaderValue? ==> IsHeaderChar(ch)) && !q.state.ChunkSizeStart?
  {
    hide Dispatch;
  }

  lemma RefusedApply(sc: Scan, o: Outcome, ch: char)
    requires Marks(sc.pend, o) && o.flush.NoFlush? && o.events == []
    ensures var r := Apply(sc, o, ch); r.p == o.p && r.out == sc.out && r.used == sc.used && r.halted == sc.halted
  {
    assert sc.out + [] == sc.out;
  }

  /** A call stops at a byte that is refused: everything before it was taken. */
  lemma FeedRefuses(p: Parser, s: string, q: Parser, pend: Pending, out: seq<Event>, ch: char, e: Errno, rest: string)
    requires Valid(p) && p.errno.OK? && At(ScanAll(Open(p), s), q, pend, out)
    requires Refuses(q, ch, e) && Marks(pend, Dispatch(q, ch, false))
    ensures Feed(p, s + [ch] + rest).p.errno == e && Feed(p, s + [ch] + rest).used == |s| &&
            Feed(p, s + [ch] + rest).out == out
  {
    hide ScanAll, Open, ByteStep, Valid, Refuses, FlushPending, Dispatch;
    var sc, text := ScanAll(Open(p), s), s + [ch] + rest;
    RefusedByte(sc, q, pend, out, ch, e);
    LiveAt(sc, q, pend, out);
    LiveUsed(Open(p), s);
    OpenUsed(p);
    ScanAllSnoc(Open(p), s, ch);
    ScanAllConcat(Open(p), s + [ch], rest);
    ReadDead(ByteStep(sc, ch), rest);
    assert text[..|text|] == text;
    FeedIsClose(p, text);
  }

  lemma LiveAt(sc: Scan, q: Parser, pend: Pending, out: seq<Event>)
    requires At(sc, q, pend, out)
    ensures Live(sc)
  {
  }

  // ---------------------------------------------------------------- the method

  /** The name of the method begins with these bytes. */
  predicate Begins(m: Method, s: string) { s <= MethodString(m) }

  lemma FirstLetter(ch: char)
    ensures FirstMethod(ch).Some? ==> IsAlpha(ch) && Begins(FirstMethod(ch).value, [ch])
  {
  }

  /** Where one method turns into another, their names are the same so far. */
  predicate Switched(m: Method, i: nat, ch: char, n: Method) {
    i < |MethodString(n)| && i <= |MethodString(m)| && MethodString(n)[i] == ch &&
    forall k | 0 <= k < i :: MethodString(n)[k] == MethodString(m)[k]
  }

  lemma SwitchPost(m: Method, i: nat, ch: char)
    requires SwitchMethod(m, i, ch).Some? && m in {POST, CONNECT}
    ensures Switched(m, i, ch, SwitchMethod(m, i, ch).value)
  {
  }

  lemma SwitchMkcol(m: Method, i: nat, ch: char)
    requires SwitchMethod(m, i, ch).Some? && m in {MKCOL}
    ensures Switched(m, i, ch, SwitchMethod(m, i, ch).value)
  {
  }

  lemma SwitchShort(m: Method, i: nat, ch: char)
    requires SwitchMethod(m, i, ch).Some? && m in {PUT, LOCK, REPORT}
    ensures Switched(m, i, ch, SwitchMethod(m, i, ch).value)
  {
  }

  lemma SwitchLong(m: Method, i: nat, ch: char)
    requires SwitchMethod(m, i, ch).Some? && m in {PROPFIND, SUBSCRIBE}
    ensures Switched(m, i, ch, SwitchMethod(m, i, ch).value)
  {
  }

  lemma SwitchUnlock(i: nat, ch: char)
    requires SwitchMethod(UNLOCK, i, ch).Some?
    ensures Switched(UNLOCK, i, ch, SwitchMethod(UNLOCK, i, ch).value)
  {
  }

  lemma SwitchSorts(m: Method, i: nat, ch: char)
    requires SwitchMethod(m, i, ch).Some?
    ensures m in {POST, CONNECT, SUBSCRIBE, REPORT, MKCOL, PUT, LOCK, PROPFIND, UNLOCK}
  {
  }

  lemma SwitchBegins(m: Method, s: string, ch: char)
    requires SwitchMethod(m, |s|, ch).Some? && Begins(m, s)
    ensures Begins(SwitchMethod(m, |s|, ch).value, s + [ch])
  {
    hide SwitchMethod, MethodString;
    SwitchSorts(m, |s|, ch);
    if m in {POST, CONNECT} { SwitchPost(m, |s|, ch); }
    else if m.MKCOL? { SwitchMkcol(m, |s|, ch); }
    else if m in {PUT, LOCK, REPORT} { SwitchShort(m, |s|, ch); }
    else if m.UNLOCK? { SwitchUnlock(|s|, ch); }
    else { SwitchLong(m, |s|, ch); }
  }

  lemma DashBegins(s: string)
    requires |s| == 1 && Begins(MKCOL, s)
    ensures Begins(MSEARCH, s + ['-'])
  {
    assert MethodString(MKCOL)[0] == 'M' && MethodString(MSEARCH)[0] == 'M' && MethodString(MSEARCH)[1] == '-';
  }

  lemma BeginsOn(m: Method, s: string, ch: char)
    requires Begins(m, s)
    ensures KeyChar(MethodString(m), |s|) == (if |s| < |MethodString(m)| then MethodString(m)[|s|] else '\0')
    ensures |s| < |MethodString(m)| && MethodString(m)[|s|] == ch ==> Begins(m, s + [ch])
  {
    hide MethodString, KeyChar;
    KeyCharAt(MethodString(m), |s|);
  }

  /** One more byte of a method. */
  lemma MethodByte(q: Parser, m: Method, s: string, ch: char) returns (n: Option<Method>)
    requires s != "" && Begins(m, s) && ch != ' ' && ch != '\0'
    ensures n.Some? ==> Begins(n.value, s + [ch]) &&
                        DispatchMethod(MethodAt(q, m, |s|), ch) == Go(MethodAt(q, n.value, |s| + 1))
    ensures n.None? ==> DispatchMethod(MethodAt(q, m, |s|), ch) == Fail(MethodAt(q, m, |s|), InvalidMethod)
  {
    hide MethodString, SwitchMethod, KeyChar, Descends, IsAlpha, Begins;
    BeginsOn(m, s, ch);
    if ch == KeyChar(MethodString(m), |s|) {
      n := Some(m);
    } else if IsAlpha(ch) {
      n := SwitchMethod(m, |s|, ch);
      if n.Some? { SwitchBegins(m, s, ch); }
    } else if ch == '-' && |s| == 1 && m.MKCOL? {
      DashBegins(s);
      n := Some(MSEARCH);
    } else {
      n := None;
    }
  }

  lemma StartByte(q: Parser, ch: char)
    requires q.state.StartReq? && q.errno.OK? && !IsCrLf(ch)
    ensures FirstMethod(ch).Some? ==>
              Turns(q, ch, Outcome(MethodAt(Begin(q), FirstMethod(ch).value, 1), NoMark, NoFlush, [MessageBegin], Next))
    ensures FirstMethod(ch).None? ==> Refuses(q, ch, InvalidMethod)
    ensures Dispatch(q, ch, false).mark.NoMark?
  {
    FirstLetter(ch);
    hide Descends, FirstMethod, IsAlpha, MethodString;
  }

  lemma MethodRefuses(q: Parser, ch: char, e: Errno)
    requires q.state.ReqMethod? && q.errno.OK? && !e.OK? && DispatchMethod(q, ch) == Fail(q, e)
    ensures Refuses(q, ch, e) && Dispatch(q, ch, false).mark.NoMark?
  {
    hide Descends, DispatchMethod;
  }

  /** What is read of a method, and where it stops being one. */
  lemma {:induction false} MethodPrefix(s: string, rest: string) returns (m: Option<Method>)
    requires s != "" && s[0] != '\r' && s[0] != '\n' && forall i | 0 <= i < |s| :: s[i] != ' ' && s[i] != '\0'
    ensures m.Some? ==> Begins(m.value, s) &&
                        At(ScanAll(Open(Init(Request)), s), MethodAt(Begin(Init(Request)), m.value, |s|), Nothing,
                           [MessageBegin])
    ensures m.None? ==> Feed(Init(Request), s + rest).p.errno.InvalidMethod?
    decreases |s|
  {
    hide ScanAll, Open, At, Feed, MethodString, DispatchMethod, Dispatch, Refuses, Turns, FirstMethod, Valid;
    var start, front, ch := Init(Request), s[..|s| - 1], s[|s| - 1];
    assert s == front + [ch];
    InitIsValid(Request);
    OpenAt(start);
    if front == "" {
      assert s == [ch] && s + rest == "" + [ch] + rest;
      StartByte(start, ch);
      ScanNothing(Open(start));
      m := FirstMethod(ch);
      if m.Some? {
        FirstLetter(ch);
        ReadEvents(Open(start), start, [], ch, MethodAt(Begin(start), m.value, 1), [MessageBegin]);
        assert [] + [MessageBegin] == [MessageBegin];
        ScanOne(Open(start), ch);
      } else {
        FeedRefuses(start, "", start, Nothing, [], ch, InvalidMethod, rest);
      }
    } else {
      assert front + ([ch] + rest) == s + rest;
      var m0 := MethodPrefix(front, [ch] + rest);
      if m0.None? { return None; }
      var q := MethodAt(Begin(start), m0.value, |front|);
      m := MethodByte(Begin(start), m0.value, front, ch);
      if m.Some? {
        MethodTurns(q, ch, MethodAt(Begin(start), m.value, |s|));
        ReadPlain(ScanAll(Open(start), front), q, [MessageBegin], ch, MethodAt(Begin(start), m.value, |s|));
        ScanAllSnoc(Open(start), front, ch);
      } else {
        MethodRefuses(q, ch, InvalidMethod);
        FeedRefuses(start, front, q, Nothing, [MessageBegin], ch, InvalidMethod, rest);
      }
    }
  }

  lemma SpaceInside(q: Parser, m: Method, s: string)
    requires s < MethodString(m)
    ensures DispatchMethod(MethodAt(q, m, |s|), ' ') == Fail(MethodAt(q, m, |s|), InvalidMethod)
  {
    KeyCharAt(MethodString(m), |s|);
    LetterFacts(m, |s|);
    assert !IsAlpha(' ');
    hide MethodString, KeyChar, SwitchMethod, Descends;
  }

  /** A word in front of a space is a method exactly when it is the name of one; any other word is
      refused, whatever follows it. */
  lemma MethodExact(s: string, rest: string)
    requires s != "" && s[0] != '\r' && s[0] != '\n' && forall i | 0 <= i < |s| :: s[i] != ' ' && s[i] != '\0'
    ensures if exists m: Method :: MethodString(m) == s then Feed(Init(Request), s + " ").p.errno.OK?
            else Feed(Init(Request), s + " " + rest).p.errno.InvalidMethod?
  {
    hide ScanAll, Open, At, Feed, MethodString, DispatchMethod, Dispatch, Refuses, Valid;
    var start := Init(Request);
    InitIsValid(Request);
    OpenAt(start);
    if m: Method :| MethodString(m) == s {
      ReadMethod(Open(start), start, [], m);
      FeedReads(start, s + " ", MethodRead(start, m), [] + [MessageBegin]);
    } else {
      assert s + (" " + rest) == s + [' '] + rest == s + " " + rest;
      var m := MethodPrefix(s, " " + rest);
      if m.Some? {
        assert s < MethodString(m.value);
        SpaceInside(Begin(start), m.value, s);
        var q := MethodAt(Begin(start), m.value, |s|);
        MethodRefuses(q, ' ', InvalidMethod);
        FeedRefuses(start, s, q, Nothing, [MessageBegin], ' ', InvalidMethod, rest);
      }
    }
  }

  // ---------------------------------------------------------------- the rest of the line

  lemma TargetRefuses(q: Parser, ch: char)
    requires InUrl(q) && ch != ' ' && !IsCrLf(ch) && !('!' <= ch <= '~')
    ensures Refuses(q, ch, InvalidUrl) && Dispatch(q, ch, false).mark.NoMark?
  {
    hide Descends;
  }

  /** The part of a target in front of a byte that is not visible, nor a blank, nor the end of the
      line. */
  lemma TargetRefused(m: Method, part: string, ch: char, rest: string)
    requires !m.CONNECT? && IsTarget(part)
    requires ch != ' ' && ch != '\r' && ch != '\n' && !('!' <= ch <= '~')
    ensures var s := MethodString(m) + " " + part;
            var w := Feed(Init(Request), s + [ch] + rest);
            w.p.errno.InvalidUrl? && w.used == |s| && w.out == [MessageBegin]
  {
    hide ScanAll, Open, At, Feed, MethodString, Dispatch, Refuses, Valid, Turns, WalkTo, Plods, ByteStep;
    var start, a := Init(Request), MethodString(m) + " ";
    InitIsValid(Request);
    OpenAt(start);
    ReadMethod(Open(start), start, [], m);
    assert [] + [MessageBegin] == [MessageBegin];
    var q := ReadTargetText(ScanAll(Open(start), a), MethodRead(start, m), [MessageBegin], part);
    ScanAllConcat(Open(start), a, part);
    TargetRefuses(q, ch);
    FeedRefuses(start, a + part, q, Since(Url, part), [MessageBegin], ch, InvalidUrl, rest);
  }

  predicate InWord(i: nat, ch: char) {
    if i == 0 then ch == 'H' || ch == ' ' else if i < 5 then ch == "HTTP/"[i] else '1' <= ch <= '9'
  }

  lemma VersionRefuses(q: Parser, i: nat, ch: char)
    requires i <= 5 && q.errno.OK? && !InWord(i, ch)
    ensures var p := VersionAt(q, '1', '1', i);
            Refuses(p, ch, if i == 0 then InvalidConstant else if i < 5 then Strict else InvalidVersion) &&
            Dispatch(p, ch, false).mark.NoMark?
  {
    hide Descends, MajorDigit, MinorDigit;
  }

  /** A byte that does not go on with "HTTP/" and a digit other than 0. */
  lemma VersionRefused(m: Method, target: string, i: nat, ch: char, rest: string)
    requires !m.CONNECT? && IsTarget(target) && i <= 5
    requires if i == 0 then ch != 'H' && ch != ' ' else if i < 5 then ch != "HTTP/"[i] else !('1' <= ch <= '9')
    ensures var s := MethodString(m) + " " + (target + " ") + "HTTP/"[..i];
            var w := Feed(Init(Request), s + [ch] + rest);
            w.p.errno == (if i == 0 then InvalidConstant else if i < 5 then Strict else InvalidVersion) &&
            w.used == |s| && w.out == [MessageBegin, Data(Url, target)]
  {
    hide ScanAll, Open, At, Feed, MethodString, Dispatch, Refuses, Valid, WalkTo, Plods, VersionAt, IsTarget;
    var start, a, b := Init(Request), MethodString(m) + " ", target + " ";
    InitIsValid(Request);
    OpenAt(start);
    ReadMethod(Open(start), start, [], m);
    var s1, q1 := ScanAll(Open(start), a), MethodRead(start, m);
    ReadTarget(s1, q1, [] + [MessageBegin], target);
    var q2, out := q1.(state := ReqHttpStart), [MessageBegin, Data(Url, target)];
    assert [] + [MessageBegin] + [Data(Url, target)] == out;
    assert VersionAt(q2, '1', '1', 0) == q2 by { VersionZero(q2); }
    VersionWalk(q2, '1', '1', i);
    assert VersionText('1', '1')[..i] == "HTTP/"[..i];
    ReadWalk(ScanAll(s1, b), q2, Nothing, out, "HTTP/"[..i]);
    ScanAllConcat(Open(start), a, b);
    ScanAllConcat(Open(start), a + b, "HTTP/"[..i]);
    VersionRefuses(q2, i, ch);
    FeedRefuses(start, a + b + "HTTP/"[..i], VersionAt(q2, '1', '1', i), Nothing, out, ch,
                if i == 0 then InvalidConstant else if i < 5 then Strict else InvalidVersion, rest);
  }

  lemma VersionZero(q: Parser)
    requires q.state.ReqHttpStart?
    ensures VersionAt(q, '1', '1', 0) == q
  {
  }

  // ---------------------------------------------------------------- the headers

  /** The request line and the headers. */
  function LinesText(r: RequestMessage): string { LineOf(r) + PrintHeaders(HeadersOf(r.lines)) }

  function LinesTrace(r: RequestMessage): seq<Event> {
    [MessageBegin, Data(Url, r.target)] + HeaderTrace(HeadersOf(r.lines))
  }

  lemma ReadLinesOf(r: RequestMessage) returns (q: Parser)
    requires IsLineOf(r) && AreLines(r.lines)
    ensures AtLine(ScanAll(Open(Init(Request)), LinesText(r)), q, LinesTrace(r))
    ensures q.errno.OK? && q.flags == FlagsIn(r.lines) && q.state.HeaderFieldStart?
  {
    hide ScanAll, Open, At, AtLine, FlagsIn, LineOf, PrintHeaders, HeadersOf, HeaderTrace, IsLineOf, AreLines, Length;
    var start := Init(Request);
    OpenAt(start);
    ReadLineOf(Open(start), start, [], r);
    var first := [MessageBegin, Data(Url, r.target)];
    assert [] + first == first;
    assert IsVersion(r.major, r.minor) by { LineVersion(r); }
    q := ReadLines(ScanAll(Open(start), LineOf(r)), StartRead(start, r), first, r.lines);
    ScanAllConcat(Open(start), LineOf(r), PrintHeaders(HeadersOf(r.lines)));
  }

  lemma LineVersion(r: RequestMessage)
    requires IsLineOf(r)
    ensures IsVersion(r.major, r.minor)
  {
    hide IsAuthority, IsTarget;
  }

  lemma NameRefuses(q: Parser, ch: char)
    requires q.state.HeaderField? && q.errno.OK? && Token(ch) == '\0' && ch != ':'
    ensures Refuses(q, ch, InvalidHeaderToken) && Dispatch(q, ch, false).mark.NoMark?
  {
    hide Descends, Token, FieldByte;
  }

  /** A byte in a header name that is neither a token byte nor the colon. */
  lemma NameRefused(r: RequestMessage, name: string, ch: char, rest: string)
    requires IsLineOf(r) && AreLines(r.lines) && IsName(name) && Token(ch) == '\0' && ch != ':'
    ensures var s := LinesText(r) + name;
            var w := Feed(Init(Request), s + [ch] + rest);
            w.p.errno.InvalidHeaderToken? && w.used == |s| && w.out == LinesTrace(r)
  {
    hide ScanAll, Open, At, AtLine, Feed, Dispatch, Refuses, Valid, LinesText, LinesTrace, NameWalked, IsLineOf,
      AreLines,
      FlagsIn, IsName;
    var start := Init(Request);
    InitIsValid(Request);
    var q := ReadLinesOf(r);
    ReadNameText(ScanAll(Open(start), LinesText(r)), q, LinesTrace(r), name);
    ScanAllConcat(Open(start), LinesText(r), name);
    NameRefuses(NameWalked(q, name), ch);
    FeedRefuses(start, LinesText(r) + name, NameWalked(q, name), Since(Field, name), LinesTrace(r), ch,
                InvalidHeaderToken, rest);
  }

  lemma SecondRefuses(q: Parser, ch: char)
    requires q.state.HeaderValueDiscardWs? && q.errno.OK? && q.headerState.ContentLength? && q.flags.contentLength
    requires IsNum(ch)
    ensures Refuses(q, ch, UnexpectedContentLength)
  {
    hide Descends;
  }

  /** A second announced length, whatever its value. */
  lemma SecondLengthRefused(r: RequestMessage, name: string, ch: char, rest: string)
    requires IsLineOf(r) && AreLines(r.lines) && Length(HeadersOf(r.lines)).Some?
    requires IsName(name) && Spelled(name) == "content-length" && '0' <= ch <= '9'
    ensures var s := LinesText(r) + (name + ":" + " ");
            var w := Feed(Init(Request), s + [ch] + rest);
            w.p.errno.UnexpectedContentLength? && w.used == |s| && w.out == LinesTrace(r) + [Data(Field, name)]
  {
    hide ScanAll, Open, At, AtLine, Feed, Dispatch, Refuses, Valid, LinesText, LinesTrace, NameRead, IsLineOf, AreLines,
      IsName, Spelled, Shape, Turns, ByteStep, HeadersOf, Length;
    var start := Init(Request);
    InitIsValid(Request);
    var q := ReadLinesOf(r);
    LengthFlag(r.lines);
    hide FlagsIn;
    var s1, out := ScanAll(Open(start), LinesText(r)), LinesTrace(r) + [Data(Field, name)];
    ReadName(s1, q, LinesTrace(r), name);
    NameReadIs(q, name);
    ShapeMeans(Spelled(name));
    var m := NameRead(q, name);
    EmptyValueTurns(m);
    ReadPlain(ScanAll(s1, name + ":"), m, out, ' ', m);
    ScanAllSnoc(s1, name + ":", ' ');
    assert name + ":" + [' '] == name + ":" + " ";
    ScanAllConcat(Open(start), LinesText(r), name + ":" + " ");
    SecondRefuses(m, ch);
    FeedRefuses(start, LinesText(r) + (name + ":" + " "), m, Nothing, out, ch, UnexpectedContentLength, rest);
  }

  lemma EndRefuses(q: Parser, ch: char)
    requires q.state.HeadersAlmostDone? && q.errno.OK? && !q.flags.trailing
    ensures ch != '\n' ==> Refuses(q, ch, Strict)
    ensures ch == '\n' && q.flags.chunked && q.flags.contentLength ==> Refuses(q, ch, UnexpectedContentLength)
    ensures Dispatch(q, ch, false).mark.NoMark?
  {
    hide Descends;
  }

  lemma FlagsAtEnd(lines: seq<Line>)
    ensures var f := FlagsIn(lines);
            !f.trailing && f.chunked == SaysChunked(HeadersOf(lines)) &&
            f.contentLength == Length(HeadersOf(lines)).Some?
  {
  }

  /** Chunks and a length together are refused at the end of the headers, and so is a carriage
      return there that no line feed follows. */
  lemma EndRefused(r: RequestMessage, ch: char, rest: string)
    requires IsLineOf(r) && AreLines(r.lines)
    requires ch != '\n' || (SaysChunked(HeadersOf(r.lines)) && Length(HeadersOf(r.lines)).Some?)
    ensures var s := LinesText(r) + "\r";
            var w := Feed(Init(Request), s + [ch] + rest);
            w.p.errno == (if ch != '\n' then Strict else UnexpectedContentLength) && w.used == |s| &&
            w.out == LinesTrace(r)
  {
    hide ScanAll, Open, At, AtLine, Feed, Dispatch, Refuses, Valid, LinesText, LinesTrace, IsLineOf, AreLines,
      HeadersOf,
      Length, FlagsIn, SaysChunked;
    var start := Init(Request);
    InitIsValid(Request);
    var q := ReadLinesOf(r);
    FlagsAtEnd(r.lines);
    ReadHeadersCr(ScanAll(Open(start), LinesText(r)), q, LinesTrace(r));
    ScanAllConcat(Open(start), LinesText(r), "\r");
    var q1 := q.(state := HeadersAlmostDone);
    EndRefuses(q1, ch);
    FeedRefuses(start, LinesText(r) + "\r", q1, Nothing, LinesTrace(r), ch,
                if ch != '\n' then Strict else UnexpectedContentLength, rest);
  }

  lemma LineState(sc: Scan, q: Parser, out: seq<Event>)
    requires AtLine(sc, q, out) && q.errno.OK?
    ensures Live(sc) && sc.pend.Nothing?
    ensures sc.p.state.HeaderFieldStart? || sc.p.state.HeaderValueLws? || sc.p.state.HeaderValueDiscardLws?
  {
    hide FinishHeader;
    if !At(sc, q, Nothing, out) {
      var q0 :| q == FinishHeader(q0).(state := HeaderFieldStart) && LineLeft(sc, q0, out);
    }
  }

  lemma EndsInside(p: Parser)
    requires p.errno.OK? && (p.state.HeaderFieldStart? || p.state.HeaderValueLws? || p.state.HeaderValueDiscardLws?)
    ensures Feed(p, "").p.errno.InvalidEofState? && Feed(p, "").out == []
  {
    hide ScanAll, Open, Close;
  }

  /** A stream that ends within the headers is refused. */
  lemma CutOffRefused(r: RequestMessage)
    requires IsLineOf(r) && AreLines(r.lines)
    ensures var p := Feed(Init(Request), LinesText(r)).p;
            p.errno.OK? && Feed(p, "").p.errno.InvalidEofState? && Feed(p, "").out == []
  {
    hide ScanAll, Open, At, AtLine, Feed, Valid, LinesText, LinesTrace, IsLineOf, AreLines, FlagsIn, FlushPending;
    var start := Init(Request);
    var q := ReadLinesOf(r);
    LineState(ScanAll(Open(start), LinesText(r)), q, LinesTrace(r));
    assert LinesText(r) != "" by { LinesStart(r); }
    assert LinesText(r)[..|LinesText(r)|] == LinesText(r);
    FeedIsClose(start, LinesText(r));
    EndsInside(Feed(start, LinesText(r)).p);
  }

  lemma LinesStart(r: RequestMessage)
    ensures LinesText(r) != ""
  {
    hide PrintHeaders, HeadersOf, MethodString, VersionText;
  }
}
