/** A parser of either kind settles for one at the first byte, or at the second one. */
module HttpKinds {
  import opened HttpTypes
  import opened HttpAutomaton
  import opened HttpScan
  import opened HttpRuns
  import opened HttpInvariant
  import opened HttpNread
  import opened HttpFragments
  import opened HttpReads
  import opened HttpNames

  /** A byte without data, by its trip. */
  lemma Quietly(sc: Scan, ch: char, r: Parser, events: seq<Event>)
    requires Live(sc) && sc.pend.Nothing? && !InnerLoop(sc.p.state)
    requires Dispatch(Count(sc.p), ch, sc.skip) == Outcome(r, NoMark, NoFlush, events, Next) && r.errno.OK?
    ensures ByteStep(sc, ch) == sc.(p := r, out := sc.out + events, used := sc.used + 1, inner := false, skip := false)
  {
    hide Dispatch, Count;
    CountFrame(sc.p);
    OneTrip(sc, ch, Outcome(r, NoMark, NoFlush, events, Next));
  }

  /** The parser of this kind once a message has begun. */
  function Begun(kind: MessageKind, s: State): Parser { Begin(Init(kind)).(state := s, nread := 1) }

  lemma BothAtH()
    ensures Dispatch(Count(Init(Both)), 'H', false) ==
            Outcome(Begun(Both, ResOrRespH), NoMark, NoFlush, [MessageBegin], Next)
  {
    hide Descends;
  }

  lemma RequestAtH()
    ensures Dispatch(Count(Init(Request)), 'H', false) ==
            Outcome(Begun(Request, ReqMethod).(httpMethod := HEAD, index := 1), NoMark, NoFlush, [MessageBegin], Next)
  {
    hide Descends;
  }

  lemma ResponseAtH()
    ensures Dispatch(Count(Init(Response)), 'H', false) ==
            Outcome(Begun(Response, ResH), NoMark, NoFlush, [MessageBegin], Next)
  {
    hide Descends;
  }

  lemma BothNext(ch: char)
    ensures var o := Dispatch(Count(Begun(Both, ResOrRespH)), ch, false);
            if ch == 'T' then o == Go(Begun(Response, ResHT).(nread := 2))
            else if ch == 'E' then o == Go(Begun(Request, ReqMethod).(httpMethod := HEAD, index := 2, nread := 2))
            else o == Fail(Begun(Both, ResOrRespH).(nread := 2), InvalidConstant)
  {
    hide Descends;
  }

  lemma RequestNext()
    ensures Dispatch(Count(Begun(Request, ReqMethod).(httpMethod := HEAD, index := 1)), 'E', false) ==
            Go(Begun(Request, ReqMethod).(httpMethod := HEAD, index := 2, nread := 2))
  {
    KeyCharAt(MethodString(HEAD), 1);
    hide Descends, KeyChar, SwitchMethod;
  }

  lemma ResponseNext()
    ensures Dispatch(Count(Begun(Response, ResH)), 'T', false) == Go(Begun(Response, ResHT).(nread := 2))
  {
    hide Descends;
  }

  /** The scan with this parser once a message has begun. */
  function ScanAt(p: Parser, used: nat): Scan { Scan(p, Nothing, [MessageBegin], false, false, used, false) }

  lemma FirstH()
    ensures ByteStep(Open(Init(Both)), 'H') == ScanAt(Begun(Both, ResOrRespH), 1)
    ensures ByteStep(Open(Init(Request)), 'H') ==
            ScanAt(Begun(Request, ReqMethod).(httpMethod := HEAD, index := 1), 1)
    ensures ByteStep(Open(Init(Response)), 'H') == ScanAt(Begun(Response, ResH), 1)
  {
    hide ByteStep, Dispatch, Count;
    BothAtH();
    RequestAtH();
    ResponseAtH();
    Quietly(Open(Init(Both)), 'H', Begun(Both, ResOrRespH), [MessageBegin]);
    Quietly(Open(Init(Request)), 'H', Begun(Request, ReqMethod).(httpMethod := HEAD, index := 1), [MessageBegin]);
    Quietly(Open(Init(Response)), 'H', Begun(Response, ResH), [MessageBegin]);
    assert [] + [MessageBegin] == [MessageBegin];
  }

  lemma SecondFails(ch: char)
    requires ch != 'T' && ch != 'E'
    ensures ByteStep(ScanAt(Begun(Both, ResOrRespH), 1), ch).p.errno.InvalidConstant?
  {
    BothNext(ch);
    hide Dispatch, Descends;
  }

  lemma SecondByte(ch: char)
    ensures var b := ByteStep(ByteStep(Open(Init(Both)), 'H'), ch);
            if ch == 'T' then b == ByteStep(ByteStep(Open(Init(Response)), 'H'), ch)
            else if ch == 'E' then b == ByteStep(ByteStep(Open(Init(Request)), 'H'), ch)
            else b.p.errno.InvalidConstant?
  {
    hide ByteStep, Dispatch, Count, Open;
    FirstH();
    BothNext(ch);
    RequestNext();
    ResponseNext();
    if ch == 'T' {
      Quietly(ScanAt(Begun(Both, ResOrRespH), 1), ch, Begun(Response, ResHT).(nread := 2), []);
      Quietly(ScanAt(Begun(Response, ResH), 1), ch, Begun(Response, ResHT).(nread := 2), []);
    } else if ch == 'E' {
      var r := Begun(Request, ReqMethod).(httpMethod := HEAD, index := 2, nread := 2);
      Quietly(ScanAt(Begun(Both, ResOrRespH), 1), ch, r, []);
      Quietly(ScanAt(Begun(Request, ReqMethod).(httpMethod := HEAD, index := 1), 1), ch, r, []);
    } else {
      SecondFails(ch);
    }
  }

  lemma BothAgain(ch: char)
    requires ch != 'H' && ch != '\r' && ch != '\n'
    ensures Dispatch(Count(Init(Both)), ch, false) ==
            Outcome(Begun(Both, StartReq).(kind := Request), NoMark, NoFlush, [], Again)
  {
    hide Descends;
  }

  /** What s_start_req does does not depend on what Begin sets. */
  lemma StartAgain(ch: char)
    requires ch != '\r' && ch != '\n'
    ensures Dispatch(Begun(Both, StartReq).(kind := Request), ch, false) == Dispatch(Count(Init(Request)), ch, false)
    ensures !Dispatch(Count(Init(Request)), ch, false).ctl.Again?
  {
    hide Descends, FirstMethod, IsAlpha;
  }

  lemma StartsRequest(ch: char)
    requires ch != 'H' && ch != '\r' && ch != '\n'
    ensures ByteStep(Open(Init(Both)), ch) == ByteStep(Open(Init(Request)), ch)
  {
    BothAgain(ch);
    StartAgain(ch);
    var both := Open(Init(Both)).(p := Count(Init(Both)));
    assert Open(Init(Both)).out == [] && Open(Init(Request)).out == [];
    hide Dispatch, Descends;
    var sc1 := Apply(both, Dispatch(both.p, ch, false), ch);
    assert sc1 == both.(p := Begun(Both, StartReq).(kind := Request));
    assert Trips(both, ch) == Trips(sc1, ch);
  }

  lemma SameFeeds(p: Parser, q: Parser, a: string, rest: string)
    requires p.errno.OK? && q.errno.OK? && a != "" && ScanAll(Open(p), a) == ScanAll(Open(q), a)
    ensures Feed(p, a + rest) == Feed(q, a + rest)
  {
    hide ScanAll, Open, Close;
    ScanAllConcat(Open(p), a, rest);
    ScanAllConcat(Open(q), a, rest);
  }

  /** HTTP_BOTH: whatever the stream, the parser does on it what a parser of requests does, unless
      the stream begins with HT; then what a parser of responses does. A stream that begins with H
      and another letter is neither. */
  lemma KindSettled(c: char, d: char, rest: string)
    requires c != '\r' && c != '\n'
    ensures var s := [c, d] + rest;
            if c == 'H' && d == 'T' then Feed(Init(Both), s) == Feed(Init(Response), s)
            else if c != 'H' || d == 'E' then Feed(Init(Both), s) == Feed(Init(Request), s)
            else Feed(Init(Both), s).p.errno.InvalidConstant?
  {
    hide ByteStep, Feed, Open, ScanAll;
    var both := Open(Init(Both));
    ScanTwo(both, c, d);
    ScanTwo(Open(Init(Request)), c, d);
    ScanTwo(Open(Init(Response)), c, d);
    if c != 'H' {
      StartsRequest(c);
      SameFeeds(Init(Both), Init(Request), [c, d], rest);
    } else {
      SecondByte(d);
      if d == 'T' {
        SameFeeds(Init(Both), Init(Response), [c, d], rest);
      } else if d == 'E' {
        SameFeeds(Init(Both), Init(Request), [c, d], rest);
      } else {
        FailedFeed(Init(Both), [c, d], rest);
      }
    }
  }

  lemma ScanTwo(sc: Scan, c: char, d: char)
    ensures ScanAll(sc, [c, d]) == ByteStep(ByteStep(sc, c), d)
  {
    hide ByteStep, ScanAll;
    ScanOne(sc, c);
    ScanAllSnoc(sc, [c], d);
    assert [c] + [d] == [c, d];
  }

  lemma FailedFeed(p: Parser, a: string, rest: string)
    requires p.errno.OK? && a != "" && !ScanAll(Open(p), a).p.errno.OK?
    ensures Feed(p, a + rest).p.errno == ScanAll(Open(p), a).p.errno
  {
    hide ScanAll, Open, FlushPending;
    ScanAllConcat(Open(p), a, rest);
    ReadDead(ScanAll(Open(p), a), rest);
  }
}
