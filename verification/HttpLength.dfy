/** Conservation of body lengths: what http_parser_execute announces, delivers and still owes. */
module HttpLength {
  import opened HttpTypes
  import opened HttpAutomaton
  import opened HttpScan
  import opened HttpRuns
  import opened HttpInvariant
  import opened HttpPieces
  import opened HttpFragments

  /** The account of a trace: the length announced last, the body bytes delivered since, whether
      the message is a CONNECT, and whether every completed chunk and message so far had all of
      its bytes. A message of unknown length may end at any time; what follows the headers of a
      CONNECT is not its body, so that it ends with nothing delivered. */
  datatype Account = Account(announced: nat, delivered: nat, tunnel: bool, settled: bool)

  const EMPTY_ACCOUNT := Account(0, 0, false, true)

  predicate MayEnd(a: Account) {
    a.announced == a.delivered || a.announced == ULLONG_MAX || (a.tunnel && a.delivered == 0)
  }

  function Post(a: Account, e: Event): Account {
    match e
    case HeadersComplete(m, _, n) => Account(n, 0, m.CONNECT?, a.settled)
    case ChunkHeader(n) => a.(announced := n, delivered := 0)
    case ChunkComplete => a.(settled := a.settled && a.announced == a.delivered)
    case MessageComplete =>
      a.(settled := a.settled && MayEnd(a))
    case Data(k, s) => if k.Body? then a.(delivered := a.delivered + |s|) else a
    case MessageBegin => a
  }

  function Ledger(a: Account, events: seq<Event>): Account {
    if events == [] then a else Post(Ledger(a, events[..|events| - 1]), events[|events| - 1])
  }

  function Deliver(a: Account, n: nat): Account { a.(delivered := a.delivered + n) }

  /** The account of a scan, with the bytes of an open body mark. */
  function AccountOf(a: Account, sc: Scan): Account {
    var l := Ledger(a, sc.out);
    if sc.pend.Since? && sc.pend.kind.Body? then Deliver(l, |sc.pend.bytes|) else l
  }

  /** What the account must be in each state. */
  predicate Balanced(a: Account, p: Parser) {
    a.settled && !p.flags.skipBody &&
    (p.errno.OK? ==>
       var s := p.state;
       (p.flags.trailing ==> a.announced == a.delivered) &&
       (s.HeadersDone? || s.BodyIdentity? || s.BodyIdentityEof? || IsChunkState(s) ==> !p.flags.trailing) &&
       (s.HeadersDone? ==> a.announced == p.contentLength && a.delivered == 0 && a.tunnel == p.httpMethod.CONNECT?) &&
       (s.BodyIdentity? || s.ChunkData? || s.ChunkDataAlmostDone? ==> a.announced == a.delivered + p.contentLength) &&
       (s.ChunkDataDone? || s.MessageDone? ==> a.announced == a.delivered) &&
       (s.BodyIdentityEof? ==> a.announced == ULLONG_MAX))
  }

  predicate IsBody(open: Mark) { open.MarkOf? && open.kind.Body? }

  /** The account after one trip, and after the byte when the trip ends it. */
  function Credit(a: Account, open: Mark, o: Outcome): Account {
    var marked := if open.NoMark? then o.mark else open;
    var a1 := if o.flush.Through? && o.flush.kind.Body? && IsBody(marked) then Deliver(a, 1) else a;
    var a2 := Ledger(a1, o.events);
    if !o.ctl.Again? && IsBody(OpenAfter(open, o)) then Deliver(a2, 1) else a2
  }

  /** The states around a body. */
  predicate NearBody(s: State) {
    s.HeadersAlmostDone? || s.HeadersDone? || s.BodyIdentity? || s.BodyIdentityEof? || s.MessageDone? || IsChunkState(s)
  }

  /** A trip that has nothing to do with a body. */
  predicate Plain(p: Parser, o: Outcome) {
    (o.events == [] || o.events == [MessageBegin]) && !IsBody(o.mark) && (o.flush.NoFlush? || !o.flush.kind.Body?) &&
    (o.p.errno.OK? ==> !NearBody(o.p.state) || o.p.state.HeadersAlmostDone?) &&
    (o.p.flags.trailing ==> p.flags.trailing) && (o.p.flags.skipBody ==> p.flags.skipBody)
  }

  lemma PlainStart(p: Parser, ch: char)
    requires IsStart(p.state)
    ensures Plain(p, DispatchStart(p, ch))
  {
    hide Descends, FirstMethod, IsAlpha;
  }

  lemma PlainMethod(p: Parser, ch: char)
    requires p.state.ReqMethod?
    ensures Plain(p, DispatchMethod(p, ch))
  {
    hide Descends, KeyChar, SwitchMethod, MethodString, IsAlpha;
  }

  lemma PlainUrl(p: Parser, ch: char)
    requires p.state.ReqSpacesBeforeUrl? || IsUrlState(p.state)
    ensures Plain(p, DispatchUrl(p, ch))
  {
    hide Descends, ParseUrlChar;
  }

  lemma PlainRequestVersion(p: Parser, ch: char)
    requires IsRequestVersion(p.state)
    ensures Plain(p, DispatchRequestVersion(p, ch))
  {
    hide Descends, Digit;
  }

  lemma PlainResponseLine(p: Parser, ch: char)
    requires IsResponseLine(p.state)
    ensures Plain(p, DispatchResponseLine(p, ch))
  {
    hide Descends, Digit;
  }

  lemma PlainFieldStart(p: Parser, ch: char)
    requires p.state.HeaderFieldStart?
    ensures Plain(p, DispatchFieldStart(p, ch))
  {
    hide Descends, Token;
  }

  lemma PlainField(p: Parser, ch: char)
    requires p.state.HeaderField?
    ensures Plain(p, DispatchField(p, ch))
  {
    FieldByteFrame(p, ch, Token(ch));
    hide Descends, Token, FieldByte;
  }

  lemma PlainFlag(p: Parser)
    ensures var r := SetConnectionFlag(p);
            r == p.(flags := r.flags) && r.flags.trailing == p.flags.trailing && r.flags.skipBody == p.flags.skipBody
  {
    hide ConnectionFlags;
    PlainFlags(p.flags, p.headerState);
  }

  lemma PlainFlags(f: Flags, h: HeaderState)
    ensures var g := ConnectionFlags(f, h); g.trailing == f.trailing && g.skipBody == f.skipBody
  {
  }

  lemma PlainFinish(p: Parser)
    ensures var r := FinishHeader(p);
            r == p.(flags := r.flags) && r.flags.trailing == p.flags.trailing && r.flags.skipBody == p.flags.skipBody
  {
    PlainFlag(p);
    hide SetConnectionFlag;
  }

  lemma PlainConnectionByte(p: Parser, ch: char)
    ensures var r := ConnectionByte(p, ch);
            r.state == p.state && r.flags.trailing == p.flags.trailing && r.flags.skipBody == p.flags.skipBody
  {
    PlainFlag(p);
    hide KeyChar, Lower, Token, SetConnectionFlag, MatchKey;
  }

  lemma PlainValueByte(p: Parser, ch: char)
    ensures var r := ValueByte(p, ch);
            r.state == p.state && r.flags.trailing == p.flags.trailing && r.flags.skipBody == p.flags.skipBody
  {
    PlainConnectionByte(p, ch);
    hide ConnectionByte, Lower, KeyChar;
  }

  lemma PlainValue(p: Parser, ch: char, skip: bool)
    requires p.state.HeaderValue?
    ensures Plain(p, DispatchValue(p, ch, skip))
  {
    PlainValueByte(p, ch);
    hide Descends, ValueByte;
  }

  lemma PlainValueStart(p: Parser, ch: char)
    ensures Plain(p, ValueStart(p, ch)) && ValueStart(p, ch).ctl.Next?
  {
    hide Lower, IsNum;
  }

  lemma PlainValueStarts(p: Parser, ch: char)
    requires p.state.HeaderValueDiscardWs? || p.state.HeaderValueStart?
    ensures Plain(p, DispatchValueEdges(p, ch))
  {
    PlainValueStart(p, ch);
    hide Descends, ValueStart;
  }

  lemma PlainValueEnds(p: Parser, ch: char)
    requires IsValueEdge(p.state) && !p.state.HeaderValueDiscardWs? && !p.state.HeaderValueStart?
    ensures Plain(p, DispatchValueEdges(p, ch))
  {
    PlainFinish(p);
    hide Descends, FinishHeader;
  }

  lemma PlainValueEdges(p: Parser, ch: char)
    requires IsValueEdge(p.state)
    ensures Plain(p, DispatchValueEdges(p, ch))
  {
    if p.state.HeaderValueDiscardWs? || p.state.HeaderValueStart? {
      PlainValueStarts(p, ch);
    } else {
      PlainValueEnds(p, ch);
    }
    hide Plain, DispatchValueEdges;
  }

  lemma PlainTrip(p: Parser, ch: char, skip: bool)
    requires !NearBody(p.state)
    ensures Plain(p, Dispatch(p, ch, skip))
  {
    hide Descends, Plain, DispatchStart, DispatchMethod, DispatchUrl, DispatchRequestVersion, DispatchResponseLine,
      DispatchFieldStart, DispatchField, DispatchValue, DispatchValueEdges, DispatchHeadersDone, DispatchChunk,
      DispatchBody;
    var s := p.state;
    if IsStart(s) { PlainStart(p, ch); }
    else if s.ReqMethod? { PlainMethod(p, ch); }
    else if s.ReqSpacesBeforeUrl? || IsUrlState(s) { PlainUrl(p, ch); }
    else if IsRequestVersion(s) { PlainRequestVersion(p, ch); }
    else if IsResponseLine(s) { PlainResponseLine(p, ch); }
    else if s.HeaderFieldStart? { PlainFieldStart(p, ch); }
    else if s.HeaderField? { PlainField(p, ch); }
    else if s.HeaderValue? { PlainValue(p, ch, skip); }
    else { PlainValueEdges(p, ch); }
  }

  lemma LedgerOne(a: Account, e: Event)
    ensures Ledger(a, [e]) == Post(a, e) && Ledger(a, []) == a
  {
    assert [e][..0] == [];
  }

  lemma BalancePlain(p: Parser, open: Mark, o: Outcome, a: Account)
    requires Plain(p, o) && !IsBody(open) && p.errno.OK? && Balanced(a, p)
    ensures Balanced(Credit(a, open, o), o.p)
  {
    LedgerOne(a, MessageBegin);
    hide Ledger;
  }

  lemma BalanceHeadersAlmostDone(p: Parser, open: Mark, ch: char, a: Account)
    requires Looking(p, open) && p.state.HeadersAlmostDone? && Balanced(a, p)
    ensures Balanced(Credit(a, open, DispatchHeadersDone(p, ch)), DispatchHeadersDone(p, ch).p)
  {
    hide Descends, Widths, Ledger;
    var o := DispatchHeadersDone(p, ch);
    if o.events != [] { LedgerOne(a, o.events[0]); } else { LedgerOne(a, MessageBegin); }
  }

  /** The end of the headers: a message that ends here announced nothing, had no length, or
      is a CONNECT. */
  lemma HeadersDoneEnds(p: Parser, ch: char)
    requires p.state.HeadersDone? && !p.flags.skipBody && !p.flags.trailing
    ensures var o := DispatchHeadersDone(p, ch);
            o.mark.NoMark? && o.flush.NoFlush? && o.p.flags == p.flags && !o.ctl.Again? &&
            (o.events == [] || (o.events == [MessageComplete] &&
                                (p.contentLength == 0 || p.contentLength == ULLONG_MAX || p.httpMethod.CONNECT?))) &&
            (o.p.errno.OK? ==>
               o.p.contentLength == p.contentLength && !o.p.state.HeadersDone? && !o.p.state.ChunkData? &&
               !o.p.state.ChunkDataAlmostDone? &&
               !o.p.state.ChunkDataDone? && !o.p.state.MessageDone? &&
               (o.p.state.BodyIdentity? ==> o.events == []) &&
               (o.p.state.BodyIdentityEof? ==> o.events == [] && p.contentLength == ULLONG_MAX))
  {
    hide Descends, MessageNeedsEof, ShouldKeepAlive;
  }

  lemma BalanceHeadersDone(p: Parser, open: Mark, ch: char, a: Account)
    requires Looking(p, open) && p.state.HeadersDone? && Balanced(a, p)
    ensures Balanced(Credit(a, open, DispatchHeadersDone(p, ch)), DispatchHeadersDone(p, ch).p)
  {
    hide Widths, Ledger, DispatchHeadersDone;
    HeadersDoneEnds(p, ch);
    LedgerOne(a, MessageComplete);
    assert OpenAfter(open, DispatchHeadersDone(p, ch)).NoMark? by { OpenStays(open, DispatchHeadersDone(p, ch)); }
    hide OpenAfter;
  }

  lemma ChunkDigitFrame(p: Parser, ch: char)
    ensures var o := ChunkDigit(p, ch);
            o == Go(o.p) && o.p.flags == p.flags &&
            (o.p.errno.OK? ==> o.p.state == p.state || o.p.state.ChunkParameters?)
  {
    hide Unhex;
  }

  lemma OpenStays(open: Mark, o: Outcome)
    requires open.NoMark? && o.mark.NoMark?
    ensures OpenAfter(open, o).NoMark?
  {
  }

  lemma BalanceChunkSize(p: Parser, open: Mark, ch: char, a: Account)
    requires Looking(p, open) && (p.state.ChunkSizeStart? || p.state.ChunkSize? || p.state.ChunkParameters?) &&
             Balanced(a, p)
    ensures Balanced(Credit(a, open, DispatchChunk(p, ch)), DispatchChunk(p, ch).p)
  {
    hide Descends, Widths, Ledger, Unhex, OpenAfter, ChunkDigit;
    LedgerOne(a, MessageBegin);
    ChunkDigitFrame(p, ch);
    assert OpenAfter(open, DispatchChunk(p, ch)).NoMark? by { OpenStays(open, DispatchChunk(p, ch)); }
  }

  lemma BalanceChunkHeader(p: Parser, open: Mark, ch: char, a: Account)
    requires Looking(p, open) && Balanced(a, p) && p.state.ChunkSizeAlmostDone?
    ensures Balanced(Credit(a, open, DispatchChunk(p, ch)), DispatchChunk(p, ch).p)
  {
    hide Descends, Widths, Ledger;
    LedgerOne(a, ChunkHeader(p.contentLength));
  }

  lemma BalanceChunkData(p: Parser, open: Mark, ch: char, a: Account)
    requires Looking(p, open) && Balanced(a, p)
    requires p.state.ChunkData? || p.state.ChunkDataAlmostDone? || p.state.ChunkDataDone?
    ensures Balanced(Credit(a, open, DispatchChunk(p, ch)), DispatchChunk(p, ch).p)
  {
    hide Descends, Widths, Ledger;
    LedgerOne(a, ChunkComplete);
  }

  lemma BalanceBody(p: Parser, open: Mark, ch: char, a: Account)
    requires Looking(p, open) && Balanced(a, p) && p.state.BodyIdentity?
    ensures Balanced(Credit(a, open, DispatchBody(p, ch)), DispatchBody(p, ch).p)
  {
    hide Descends, Widths, Ledger, ShouldKeepAlive;
    LedgerOne(a, MessageComplete);
    LedgerOne(Deliver(a, 1), MessageComplete);
  }

  lemma BalanceBodyEnd(p: Parser, open: Mark, ch: char, a: Account)
    requires Looking(p, open) && Balanced(a, p) && (p.state.BodyIdentityEof? || p.state.MessageDone?)
    ensures Balanced(Credit(a, open, DispatchBody(p, ch)), DispatchBody(p, ch).p)
  {
    hide Descends, Widths, Ledger, ShouldKeepAlive;
    LedgerOne(a, MessageComplete);
  }

  lemma NotBody(p: Parser, open: Mark)
    requires Looking(p, open) && !NearBody(p.state)
    ensures !IsBody(open)
  {
    hide Widths, FieldIndex, ValueIndex, MethodString;
  }

  /** Every trip keeps the account balanced. */
  lemma TripBalances(p: Parser, open: Mark, ch: char, skip: bool, a: Account)
    requires Looking(p, open) && Balanced(a, p)
    ensures Balanced(Credit(a, open, Dispatch(p, ch, skip)), Dispatch(p, ch, skip).p)
  {
    hide Descends, Sound, Balanced, Credit, DispatchStart, DispatchMethod, DispatchUrl, DispatchRequestVersion,
      DispatchResponseLine, DispatchFieldStart, DispatchField, DispatchValue, DispatchValueEdges, DispatchHeadersDone,
      DispatchChunk, DispatchBody;
    var s := p.state;
    if !NearBody(s) {
      PlainTrip(p, ch, skip);
      NotBody(p, open);
      BalancePlain(p, open, Dispatch(p, ch, skip), a);
    } else if s.HeadersAlmostDone? { BalanceHeadersAlmostDone(p, open, ch, a); }
    else if s.HeadersDone? { BalanceHeadersDone(p, open, ch, a); }
    else if s.ChunkSizeStart? || s.ChunkSize? || s.ChunkParameters? { BalanceChunkSize(p, open, ch, a); }
    else if s.ChunkSizeAlmostDone? { BalanceChunkHeader(p, open, ch, a); }
    else if IsChunkState(s) { BalanceChunkData(p, open, ch, a); }
    else if s.BodyIdentity? { BalanceBody(p, open, ch, a); }
    else { BalanceBodyEnd(p, open, ch, a); }
  }

  // ---------------------------------------------------------------- every run

  lemma LedgerSnoc(a: Account, t: seq<Event>, e: Event)
    ensures Ledger(a, t + [e]) == Post(Ledger(a, t), e)
  {
    assert (t + [e])[..|t|] == t;
  }

  lemma {:induction false} LedgerConcat(a: Account, t: seq<Event>, u: seq<Event>)
    ensures Ledger(a, t + u) == Ledger(Ledger(a, t), u)
    decreases |u|
  {
    if u == [] {
      assert t + u == t;
    } else {
      assert (t + u)[..|t + u| - 1] == t + u[..|u| - 1];
      LedgerConcat(a, t, u[..|u| - 1]);
    }
    hide Post;
  }

  lemma MarkAccount(a: Account, sc: Scan, mark: Mark)
    ensures AccountOf(a, SetMark(sc, mark)) == AccountOf(a, sc)
  {
    hide Ledger;
  }

  lemma FlushAccount(a: Account, sc: Scan, flush: Flush, ch: char)
    ensures AccountOf(a, CallbackData(sc, flush, ch)) ==
            if flush.Through? && flush.kind.Body? && IsBody(OpenOf(sc.pend)) then Deliver(AccountOf(a, sc), 1)
            else AccountOf(a, sc)
  {
    hide Ledger;
    if !flush.NoFlush? && sc.pend.Since? && sc.pend.kind == flush.kind {
      LedgerSnoc(a, sc.out, Data(sc.pend.kind, if flush.Through? then sc.pend.bytes + [ch] else sc.pend.bytes));
    }
  }

  lemma EventsAccount(a: Account, sc: Scan, events: seq<Event>)
    requires events != [] ==> !IsBody(OpenOf(sc.pend))
    ensures AccountOf(a, sc.(out := sc.out + events)) == Ledger(AccountOf(a, sc), events)
  {
    LedgerConcat(a, sc.out, events);
    if events == [] { assert sc.out + events == sc.out; }
  }

  lemma AdvanceAccount(a: Account, sc: Scan, ch: char)
    ensures AccountOf(a, Advance(sc, ch)) == if IsBody(OpenOf(sc.pend)) then Deliver(AccountOf(a, sc), 1)
            else AccountOf(a, sc)
  {
    hide Ledger;
  }

  /** One trip changes the account of the scan by its credit. */
  lemma ApplyAccount(a: Account, sc: Scan, o: Outcome, ch: char)
    requires o.mark.MarkOf? ==> OpenOf(sc.pend).NoMark? || OpenOf(sc.pend).kind == o.mark.kind
    requires o.events != [] ==> OpenAfter(OpenOf(sc.pend), o).NoMark?
    ensures var (r, c) := (AccountOf(a, Apply(sc, o, ch)), Credit(AccountOf(a, sc), OpenOf(sc.pend), o));
            if o.ctl.Again? then r == c
            else AccountOf(a, Advance(Apply(sc, o, ch), ch)) == c && r.settled == c.settled
  {
    var s0 := sc.(p := o.p);
    var s1 := SetMark(s0, o.mark);
    var s2 := CallbackData(s1, o.flush, ch);
    ApplyOpens(sc, o, ch);
    MarkAccount(a, s0, o.mark);
    FlushAccount(a, s1, o.flush, ch);
    EventsAccount(a, s2, o.events);
    AdvanceAccount(a, Apply(sc, o, ch), ch);
    ApplyOut(sc, o, ch);
    assert AccountOf(a, Apply(sc, o, ch)) == AccountOf(a, s2.(out := s2.out + o.events));
    assert AccountOf(a, s0) == AccountOf(a, sc);
    hide Ledger, Advance, Apply;
  }

  lemma ApplyOut(sc: Scan, o: Outcome, ch: char)
    ensures var s2 := CallbackData(SetMark(sc.(p := o.p), o.mark), o.flush, ch);
            Apply(sc, o, ch).out == s2.out + o.events && Apply(sc, o, ch).pend == s2.pend &&
            OpenOf(SetMark(sc.(p := o.p), o.mark).pend) == (if OpenOf(sc.pend).NoMark? then o.mark else OpenOf(sc.pend))
  {
  }

  lemma AccountFrame(a: Account, sc: Scan, p: Parser)
    ensures AccountOf(a, sc.(p := p)) == AccountOf(a, sc) && AccountOf(a, sc.(halted := true)) == AccountOf(a, sc)
  {
  }

  lemma TripsBalance(a: Account, sc: Scan, ch: char)
    requires ScanSound(sc, 1) && sc.p.errno.OK? && Balanced(AccountOf(a, sc), sc.p)
    ensures Balanced(AccountOf(a, Trips(sc, ch)), Trips(sc, ch).p)
    decreases Rank(sc.p.state)
  {
    hide Dispatch, Apply, Advance, AccountOf, Credit, StateFits, Widths, NearBody;
    var o := Dispatch(sc.p, ch, sc.skip);
    var sc' := Apply(sc, o, ch);
    TripKeepsSound(sc.p, OpenOf(sc.pend), ch, sc.skip);
    EventsUnmarked(sc.p, OpenOf(sc.pend), ch, sc.skip);
    TripBalances(sc.p, OpenOf(sc.pend), ch, sc.skip, AccountOf(a, sc));
    ApplyOpens(sc, o, ch);
    ApplyAccount(a, sc, o, ch);
    AdvanceFrame(sc', ch);
    AccountFrame(a, Advance(sc', ch), o.p);
    if o.p.errno.OK? && o.ctl.Again? { TripsBalance(a, sc', ch); }
  }

  lemma CountBalance(a: Account, p: Parser)
    requires Balanced(a, p)
    ensures Balanced(a, Count(p))
  {
  }

  lemma {:induction false} ScanBalance(a: Account, sc: Scan, s: string)
    requires ScanSound(sc, 0) && Balanced(AccountOf(a, sc), sc.p)
    ensures ScanSound(ScanAll(sc, s), 0) && Balanced(AccountOf(a, ScanAll(sc, s)), ScanAll(sc, s).p)
  {
    ScanAllSound(sc, s);
    if s != "" {
      ScanBalance(a, sc, s[..|s| - 1]);
      var sc' := ScanAll(sc, s[..|s| - 1]);
      if Live(sc') {
        CountSound(sc'.p, OpenOf(sc'.pend));
        CountBalance(AccountOf(a, sc'), sc'.p);
        AccountFrame(a, sc', Count(sc'.p));
        CountFrame(sc'.p);
        TripsBalance(a, sc'.(p := Count(sc'.p)), s[|s| - 1]);
      }
    }
    hide Trips, Count, Sound, Balanced, AccountOf;
  }

  lemma CloseBalance(a: Account, sc: Scan)
    requires Balanced(AccountOf(a, sc), sc.p) && (sc.halted ==> sc.pend.Nothing?)
    ensures Balanced(Ledger(a, Close(sc).out), Close(sc).p)
  {
    if sc.pend.Since? { LedgerSnoc(a, sc.out, Data(sc.pend.kind, sc.pend.bytes)); }
    hide Ledger;
  }

  lemma EndBalance(a: Account, p: Parser)
    requires Balanced(a, p) && p.errno.OK?
    ensures Balanced(Ledger(a, EndOfStream(p).out), EndOfStream(p).p)
  {
    LedgerOne(a, MessageComplete);
    hide Ledger;
  }

  lemma FeedBalance(a: Account, p: Parser, data: string)
    requires Valid(p) && Balanced(a, p)
    ensures Balanced(Ledger(a, Feed(p, data).out), Feed(p, data).p)
  {
    if !p.errno.OK? {
      LedgerOne(a, MessageBegin);
    } else if data == "" {
      EndIsFeed(p);
      EndBalance(a, p);
    } else {
      OpenFits(p);
      OpenAccount(a, p);
      ScanBalance(a, Open(p), data);
      PrefixSound(p, data, |data|);
      FeedIsClose(p, data);
      assert data[..|data|] == data;
      CloseBalance(a, Prefix(p, data, |data|));
    }
    hide Open, ScanAll, Close, Balanced, Ledger, Sound, EndOfStream, AccountOf, SkipsGeneral;
  }

  lemma OpenAccount(a: Account, p: Parser)
    ensures AccountOf(a, Open(p)) == a && Open(p).p == p
  {
  }

  lemma {:induction false} FeedAllBalance(p: Parser, a: Account, pieces: seq<string>)
    requires Valid(p) && Balanced(a, p)
    ensures var r := FeedAll(p, pieces); Valid(r.p) && Balanced(Ledger(a, r.out), r.p)
  {
    FeedAllKeepsValid(p, pieces);
    if pieces != [] {
      var front, last := pieces[..|pieces| - 1], pieces[|pieces| - 1];
      FeedAllBalance(p, a, front);
      var r := FeedAll(p, front);
      FeedBalance(Ledger(a, r.out), r.p, last);
      LedgerConcat(a, r.out, Feed(r.p, last).out);
    }
    hide Feed, Valid, Balanced;
  }

  /** `settled` says this of every prefix of the trace. */
  lemma {:induction false} SettledAt(a: Account, events: seq<Event>, i: nat)
    requires i < |events| && Ledger(a, events).settled
    ensures var b := Ledger(a, events[..i]);
            (events[i].ChunkComplete? ==> b.delivered == b.announced) &&
            (events[i].MessageComplete? ==> MayEnd(b))
  {
    var front := events[..|events| - 1];
    if i < |front| {
      SettledAt(a, front, i);
      assert front[..i] == events[..i];
    }
  }

  lemma StartsBalanced(kind: MessageKind)
    ensures Valid(Init(kind)) && Balanced(EMPTY_ACCOUNT, Init(kind))
  {
  }

  lemma BalancedMeans(a: Account, p: Parser)
    requires Valid(p) && Balanced(a, p)
    ensures a.settled
    ensures p.errno.OK? && (p.state.BodyIdentity? || p.state.ChunkData?) ==>
              a.delivered + p.contentLength == a.announced && 0 < p.contentLength < ULLONG_MAX
  {
  }

  /** Conservation, for every byte sequence in every fragmentation: in a body, the bytes
      delivered and the bytes still owed add up to the length announced, and a chunk or a
      message of known length completes only when every byte of it has been delivered, unless
      it is a CONNECT, of which nothing is delivered. */
  lemma LengthsConserved(kind: MessageKind, pieces: seq<string>)
    ensures var r := FeedAll(Init(kind), pieces);
            var a := Ledger(EMPTY_ACCOUNT, r.out);
            r.p.errno.OK? && (r.p.state.BodyIdentity? || r.p.state.ChunkData?) ==>
              a.delivered + r.p.contentLength == a.announced && 0 < r.p.contentLength < ULLONG_MAX
    ensures var out := FeedAll(Init(kind), pieces).out;
            forall i | 0 <= i < |out| :: var a := Ledger(EMPTY_ACCOUNT, out[..i]);
              (out[i].ChunkComplete? ==> a.delivered == a.announced) &&
              (out[i].MessageComplete? ==> MayEnd(a))
  {
    hide FeedAll, Ledger, Valid, Balanced;
    StartsBalanced(kind);
    FeedAllBalance(Init(kind), EMPTY_ACCOUNT, pieces);
    var r := FeedAll(Init(kind), pieces);
    BalancedMeans(Ledger(EMPTY_ACCOUNT, r.out), r.p);
    forall i | 0 <= i < |r.out| ensures
      var a := Ledger(EMPTY_ACCOUNT, r.out[..i]);
      (r.out[i].ChunkComplete? ==> a.delivered == a.announced) &&
      (r.out[i].MessageComplete? ==> MayEnd(a))
    {
      SettledAt(EMPTY_ACCOUNT, r.out, i);
    }
  }
}
