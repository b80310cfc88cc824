/** A printed response through create_http_response: which pieces it reads, and what it returns. */
module HttpArrival {
  import opened HttpTypes
  import opened HttpAutomaton
  import opened HttpScan
  import opened HttpRuns
  import opened HttpInvariant
  import opened HttpNread
  import opened HttpTrace
  import opened HttpPieces
  import opened HttpFragments
  import opened HttpExecute
  import opened HttpLength
  import opened HttpResponses
  import opened HttpReceive
  import opened HttpReads
  import opened HttpNames
  import opened HttpValues
  import opened HttpHeaders
  import opened HttpBodies
  import opened HttpText
  import opened HttpRequestBuilders
  import opened HttpResponseBuilders
  import opened HttpLimit
  import opened HttpEndToEnd

  // ---------------------------------------------------------------- joined traces

  lemma EmitHas(t: seq<Event>, e: Event)
    ensures MessageComplete in Emit(t, e) <==> MessageComplete in t || e.MessageComplete?
    ensures HeadOnly(Emit(t, e)) <==> HeadOnly(t) && (e.MessageBegin? || e.Data?)
  {
    var r := Emit(t, e);
    if r == t + [e] {
      HasSnoc(t, e);
    } else {
      var u, last := t[..|t| - 1], t[|t| - 1];
      assert t == u + [last];
      HasSnoc(u, last);
      HasSnoc(u, Data(e.kind, last.bytes + e.bytes));
    }
  }

  lemma HasSnoc(t: seq<Event>, e: Event)
    ensures MessageComplete in t + [e] <==> MessageComplete in t || e.MessageComplete?
    ensures HeadOnly(t + [e]) <==> HeadOnly(t) && (e.MessageBegin? || e.Data?)
  {
    if HeadOnly(t + [e]) {
      HeadOnlyPrefix(t, t + [e]);
      assert (t + [e])[|t|] == e;
    }
  }

  /** Joining fragments neither hides nor adds a callback that is no fragment. */
  lemma {:induction false} JoinHas(events: seq<Event>)
    ensures MessageComplete in Join(events) <==> MessageComplete in events
    ensures HeadOnly(Join(events)) <==> HeadOnly(events)
  {
    if events != [] {
      var front, e := events[..|events| - 1], events[|events| - 1];
      JoinHas(front);
      EmitHas(Join(front), e);
      HasSnoc(front, e);
      assert events == front + [e];
    }
    hide Emit, HeadOnly;
  }

  // ---------------------------------------------------------------- a response not read to its end

  /** After k bytes of a printed response, not the last, the message is not complete; behind
      the head the parser is in the body. */
  predicate Unfinished(status: nat, hs: seq<Header>, body: string, k: nat)
    requires k < |ResponseText(status, hs, body)|
  {
    var sc := Prefix(Init(Response), ResponseText(status, hs, body), k);
    MessageComplete !in sc.out && (k < |ResponseHead(status, PrintedHeaders(hs, body))| ==> HeadOnly(sc.out)) &&
    (k >= |ResponseHead(status, PrintedHeaders(hs, body))| ==> !ParsingHeader(sc.p.state))
  }

  lemma HeadUnfinished(p0: Parser, head: string, k: nat)
    requires IsHead(p0, head) && k < |head|
    ensures HeadOnly(ScanAll(Open(p0), head[..k]).out)
  {
    hide ScanAll, Open, HeadOnly;
    var front := head[..|head| - 1];
    assert front == head[..k] + front[k..];
    ScanAllConcat(Open(p0), head[..k], front[k..]);
    ScanCounts(ScanAll(Open(p0), head[..k]), front[k..]);
    HeadOnlyPrefix(ScanAll(Open(p0), head[..k]).out, ScanAll(Open(p0), front).out);
  }

  lemma HeadNotComplete(out: seq<Event>)
    requires HeadOnly(out)
    ensures MessageComplete !in out
  {
  }

  lemma BodyUnfinished(sc: Scan, m: Parser, first: seq<Event>, body: string, done: string)
    requires At(sc, BodyStart(m), Nothing, first + BodyStartTrace(m)) && HeadOnly(first)
    requires !m.flags.chunked && m.contentLength == |body| < ULLONG_MAX && |done| < |body|
    ensures var r := ScanAll(sc, done); MessageComplete !in r.out && !ParsingHeader(r.p.state)
  {
    hide ScanAll, HeadOnly;
    HeadNotComplete(first);
    BodyAt(sc, BodyStart(m), first + BodyStartTrace(m), done);
  }

  lemma ResponseUnfinished(status: nat, hs: seq<Header>, body: string, k: nat)
    requires status <= 999 && AllQuiet(hs) && |body| < 1_000_000_000 && k < |ResponseText(status, hs, body)|
    ensures Unfinished(status, hs, body, k)
  {
    hide ScanAll, At, Open, Put, PrintHeaders, HeaderTrace, AllQuiet, Length, IsSection, SaysChunked, SizeText,
      DecimalText, StatusText, VERSION_REST, HeadOnly, IsHead, BodyStart, BodyStartTrace;
    var start, printed, s := Init(Response), PrintedHeaders(hs, body), ResponseText(status, hs, body);
    var head := ResponseHead(status, printed);
    assert s == head + body;
    PutLength(hs, |body|);
    var m := ReadResponseHead(status, printed, |body|);
    if k < |head| {
      FirstIsHead(status);
      LineIsHead(start, PrintStatusLine(status, StatusText(status)), StatusLineRead(start, status),
                 ResponseFirst(status), printed);
      HeadUnfinished(start, head, k);
      assert s[..k] == head[..k];
      HeadNotComplete(Prefix(start, s, k).out);
    } else {
      var done := body[..k - |head|];
      assert s[..k] == head + done;
      ScanAllConcat(Open(start), head, done);
      FirstIsHead(status);
      HeaderTraceHead(ResponseFirst(status), printed);
      BodyUnfinished(ScanAll(Open(start), head), m, ResponseFirst(status) + HeaderTrace(printed), body, done);
    }
  }

  lemma FirstIsHead(status: nat)
    ensures HeadOnly(ResponseFirst(status))
  {
    hide StatusText;
  }

  // ---------------------------------------------------------------- some of its pieces

  lemma CloseOut(sc: Scan)
    requires sc.p.errno.OK? && (sc.halted ==> sc.pend.Nothing?)
    ensures MessageComplete in Close(sc).out <==> MessageComplete in sc.out
    ensures HeadOnly(Close(sc).out) <==> HeadOnly(sc.out)
    ensures Close(sc).p.state == sc.p.state && Close(sc).p.nread <= sc.p.nread + 1
  {
    if sc.pend.Since? { HasSnoc(sc.out, Data(sc.pend.kind, sc.pend.bytes)); }
  }

  /** The first pieces of a clean stream leave the parser where its first bytes leave it. */
  lemma FrontAgrees(start: Parser, pieces: seq<string>, a: string, b: string)
    requires Valid(start) && start.errno.OK? && Cuts(pieces, a) && a != "" && Clean(start, a + b) &&
             HeaderCharsOnly(start, a + b)
    ensures var (r, sc) := (FeedAll(start, pieces), Prefix(start, a + b, |a|));
            r.p.errno.OK? && Valid(r.p) && r.p.state == sc.p.state && r.used == |a| &&
            (MessageComplete in r.out <==> MessageComplete in sc.out) && (HeadOnly(r.out) <==> HeadOnly(sc.out))
  {
    hide Feed, FeedAll, Clean, HeaderCharsOnly, Join, HeadOnly, Open, ScanAll, ScanSound, SkipsGeneral, Valid;
    assert pieces != [] by { FlatNothing(); }
    if b == "" { assert a + b == a; } else { CleanStart(start, a, b); }
    assert (a + b)[..|a|] == a == a[..|a|];
    PiecesAgree(start, pieces);
    FeedAllKeepsValid(start, pieces);
    var (r, w, sc) := (FeedAll(start, pieces), Feed(start, a), Prefix(start, a, |a|));
    JoinHas(r.out);
    JoinHas(w.out);
    CleanPrefix(start, a, |a|);
    CleanUsed(start, a);
    FeedIsClose(start, a);
    CloseOut(sc);
  }

  /** The same for the first k bytes of one more piece. */
  lemma PartAgrees(start: Parser, front: seq<string>, piece: string, k: nat, a: string, b: string)
    requires Valid(start) && start.errno.OK? && NonEmpty(front) && k <= |piece| && a == Flat(front) + piece[..k] &&
             a != ""
    requires Clean(start, a + b) && HeaderCharsOnly(start, a + b)
    ensures var (q, sc) := (FeedAll(start, front).p, Prefix(start, a + b, |a|));
            var part := Prefix(q, piece, k);
            q.errno.OK? && Valid(q) && part.p.state == sc.p.state && part.p.errno.OK? &&
            (HeadOnly(sc.out) ==> HeadOnly(FeedAll(start, front).out) && HeadOnly(part.out))
  {
    hide Feed, FeedAll, Flat, Clean, HeaderCharsOnly, HeadOnly, Open, ScanAll, ScanSound, SkipsGeneral, Valid;
    var q := FeedAll(start, front).p;
    if k == 0 {
      assert a == Flat(front);
      FrontAgrees(start, front, a, b);
      StartOfPrefix(q, piece);
      OpenIs(q);
      assert HeadOnly([]) by { HeadOnlyPrefix([], []); }
    } else {
      var more := piece[..k];
      Snoc(start, front, more);
      assert NonEmpty(front + [more]);
      FrontAgrees(start, front + [more], a, b);
      FeedAllKeepsValid(start, front);
      assert q.errno.OK? by { StaysFailed(q, more); }
      FeedIsClose(q, more);
      PrefixSound(q, more, k);
      assert more[..k] == more == piece[..k];
      CloseOut(Prefix(q, more, k));
      HeadOnlyParts(FeedAll(start, front).out, Feed(q, more).out);
    }
  }

  lemma HeadOnlyParts(a: seq<Event>, b: seq<Event>)
    ensures HeadOnly(a + b) ==> HeadOnly(a) && HeadOnly(b)
  {
    if HeadOnly(a + b) {
      HeadOnlyPrefix(a, a + b);
      forall i | 0 <= i < |b| ensures b[i].MessageBegin? || b[i].Data? { assert (a + b)[|a| + i] == b[i]; }
    }
  }

  // ---------------------------------------------------------------- nread over the pieces

  lemma FeedCounts(p: Parser, s: string)
    requires Valid(p) && p.errno.OK? && s != ""
    ensures Feed(p, s).p.nread <= p.nread + |s| + 1
    ensures var w := Feed(p, s);
            w.p.errno.OK? && w.used == |s| && InHead(p) && HeadOnly(w.out) ==> InHead(w.p) && p.nread + |s| <= w.p.nread
  {
    hide ScanAll, Open, InHead, HeadOnly, FlushPending, ScanSound, SkipsGeneral;
    OpenIs(p);
    ScanCounts(Open(p), s);
    FeedIsClose(p, s);
    assert s[..|s|] == s;
    PrefixSound(p, s, |s|);
    var sc := Prefix(p, s, |s|);
    if sc.p.errno.OK? && InHead(p) && HeadOnly(Feed(p, s).out) {
      CloseOut(sc);
      LiveInHead(p, s);
      HeadCounts(Open(p), s);
      CloseInHead(sc);
    }
  }

  lemma CloseInHead(sc: Scan)
    requires Live(sc) && InHead(sc.p)
    ensures InHead(Close(sc).p) && sc.p.nread <= Close(sc).p.nread
  {
  }

  lemma {:induction false} HaltsComplete(sc: Scan, s: string)
    requires sc.halted ==> MessageComplete in sc.out
    ensures ScanAll(sc, s).halted ==> MessageComplete in ScanAll(sc, s).out
  {
    hide Trips, Count;
    if s != "" {
      HaltsComplete(sc, s[..|s| - 1]);
      var sc' := ScanAll(sc, s[..|s| - 1]);
      if Live(sc') { TripsHaltComplete(sc'.(p := Count(sc'.p)), s[|s| - 1]); }
    }
  }

  lemma TripsHaltComplete(sc: Scan, ch: char)
    requires !sc.halted
    ensures Trips(sc, ch).halted ==> MessageComplete in Trips(sc, ch).out
    decreases Rank(sc.p.state)
  {
    hide Dispatch, Apply, IsBulk, MayHoldMark, Rank;
    var o := Dispatch(sc.p, ch, sc.skip);
    assert Descends(sc.p, o);
    var sc' := Apply(sc, o, ch);
    ApplyFrame(sc, o, ch);
    ApplyOut(sc, o, ch);
    if sc'.p.errno.OK? && o.ctl.Again? { TripsHaltComplete(sc', ch); }
  }

  /** Every piece is read to its last byte. */
  ghost predicate ReadsOn(start: Parser, pieces: seq<string>) {
    forall j | 0 <= j <= |pieces| :: ReadsTo(start, pieces, j)
  }

  predicate ReadsTo(start: Parser, pieces: seq<string>, j: nat)
    requires j <= |pieces|
  {
    var r := FeedAll(start, pieces[..j]);
    r.p.errno.OK? && Valid(r.p) && r.used == |Flat(pieces[..j])|
  }

  lemma TakeSnoc<T>(s: seq<T>, j: nat)
    requires j < |s|
    ensures s[..j + 1] == s[..j] + [s[j]] && s == s[..j] + [s[j]] + s[j + 1..]
  {
  }

  /** nread counts every byte of the head; at the end of a piece it may count one byte twice. */
  lemma {:induction false} PiecesCount(start: Parser, pieces: seq<string>, j: nat)
    requires ReadsOn(start, pieces) && NonEmpty(pieces) && j <= |pieces|
    ensures var (r, n) := (FeedAll(start, pieces[..j]), |Flat(pieces[..j])|);
            r.p.nread <= start.nread + n + j &&
            (InHead(start) && HeadOnly(r.out) ==> InHead(r.p) && start.nread + n <= r.p.nread)
  {
    hide Feed, FeedAll, Flat, InHead, HeadOnly, Valid;
    if j == 0 {
      assert pieces[..0] == [];
      FeedNothing(start);
    } else {
      var front, last := pieces[..j - 1], pieces[j - 1];
      PiecesCount(start, pieces, j - 1);
      TakeSnoc(pieces, j - 1);
      Snoc(start, front, last);
      assert ReadsTo(start, pieces, j - 1) && ReadsTo(start, pieces, j);
      FeedCounts(FeedAll(start, front).p, last);
      HeadOnlyParts(FeedAll(start, front).out, Feed(FeedAll(start, front).p, last).out);
    }
  }

  // ---------------------------------------------------------------- a printed response in pieces

  /** `sent` are the pieces in which a printed response arrives. */
  ghost predicate Arrives(status: nat, hs: seq<Header>, body: string, sent: seq<string>) {
    status <= 999 && AllQuiet(hs) && |body| < 1_000_000_000 && Cuts(sent, ResponseText(status, hs, body))
  }

  lemma SplitPieces(sent: seq<string>, j: nat, k: nat) returns (a: string, b: string)
    requires j < |sent| && k <= |sent[j]|
    ensures a == Flat(sent[..j]) + sent[j][..k] && Flat(sent) == a + b && |a| == |Flat(sent[..j])| + k
    ensures b == "" ==> k == |sent[j]|
  {
    hide Flat;
    a, b := Flat(sent[..j]) + sent[j][..k], sent[j][k..] + Flat(sent[j + 1..]);
    TakeSnoc(sent, j);
    FlatConcat(sent[..j] + [sent[j]], sent[j + 1..]);
    FlatConcat(sent[..j], [sent[j]]);
    assert Flat([sent[j]]) == sent[j] by { FlatOne(sent[j]); }
    assert sent[j] == sent[j][..k] + sent[j][k..];
  }

  lemma FrontPieces(sent: seq<string>, j: nat)
    requires NonEmpty(sent) && j <= |sent|
    ensures NonEmpty(sent[..j]) && Flat(sent) == Flat(sent[..j]) + Flat(sent[j..]) &&
            (j < |sent| ==> Flat(sent[j..]) != "")
    ensures j > 0 ==> Flat(sent[..j]) != ""
  {
    hide Flat;
    assert sent == sent[..j] + sent[j..];
    FlatConcat(sent[..j], sent[j..]);
    if j < |sent| { FlatNonEmpty(sent[j..]); }
    if j > 0 { FlatNonEmpty(sent[..j]); }
  }

  lemma ResponseReadsOn(status: nat, hs: seq<Header>, body: string, sent: seq<string>)
    requires Arrives(status, hs, body, sent)
    ensures ReadsOn(Init(Response), sent)
  {
    hide FeedAll, Flat, Clean, HeaderCharsOnly, ResponseText, AllQuiet, Valid, HeadOnly, ScanAll, Open,
      PrintedHeaders;
    ResponseClean(status, hs, body);
    InitInHead();
    forall j | 0 <= j <= |sent| ensures ReadsTo(Init(Response), sent, j) {
      FrontPieces(sent, j);
      if j == 0 {
        assert sent[..0] == [];
        FeedNothing(Init(Response));
      } else {
        FrontAgrees(Init(Response), sent[..j], Flat(sent[..j]), Flat(sent[j..]));
      }
    }
  }

  /** Before its last piece, a printed response is not complete. */
  lemma FrontUnfinished(status: nat, hs: seq<Header>, body: string, sent: seq<string>, j: nat)
    requires Arrives(status, hs, body, sent) && j < |sent|
    ensures MessageComplete !in FeedAll(Init(Response), sent[..j]).out
  {
    hide FeedAll, Flat, Clean, HeaderCharsOnly, ResponseText, AllQuiet, Valid, HeadOnly, ScanAll, Open,
      PrintedHeaders, ParsingHeader;
    FrontPieces(sent, j);
    if j == 0 {
      assert sent[..0] == [];
      FeedNothing(Init(Response));
    } else {
      ResponseClean(status, hs, body);
      InitInHead();
      var a := Flat(sent[..j]);
      FrontAgrees(Init(Response), sent[..j], a, Flat(sent[j..]));
      ResponseUnfinished(status, hs, body, |a|);
    }
  }

  lemma EndState(start: Parser, s: string)
    requires Valid(start) && start.errno.OK? && s != "" && Clean(start, s)
    ensures Prefix(start, s, |s|).p.state == Feed(start, s).p.state
  {
    CleanPrefix(start, s, |s|);
    FeedIsClose(start, s);
    hide ScanAll, Open, FlushPending, ScanSound, SkipsGeneral;
  }

  lemma NotOverOutside(sc: Scan, n: nat, last: bool)
    requires PrefixFits(sc, n) && (!ParsingHeader(sc.p.state) || (last && BetweenMessages(sc.p.state)))
    ensures !OverAt(sc, last)
  {
    hide Sound;
  }

  /** A head that keeps to the limit with one byte to spare for each piece. */
  lemma PieceWithin(status: nat, hs: seq<Header>, body: string, sent: seq<string>, j: nat)
    requires Arrives(status, hs, body, sent) && j < |sent|
    requires |ResponseHead(status, PrintedHeaders(hs, body))| + |sent| <= HTTP_MAX_HEADER_SIZE
    ensures !OverLimit(FeedAll(Init(Response), sent[..j]).p, sent[j])
  {
    hide Feed, FeedAll, Flat, Clean, HeaderCharsOnly, ResponseText, ResponseHead, AllQuiet, Valid, HeadOnly, ScanAll,
      Open, PrintedHeaders, ParsingHeader, OverAt, ScanSound, SkipsGeneral, InHead;
    var (start, q, piece) := (Init(Response), FeedAll(Init(Response), sent[..j]).p, sent[j]);
    var s, head := ResponseText(status, hs, body), ResponseHead(status, PrintedHeaders(hs, body));
    ResponseClean(status, hs, body);
    InitInHead();
    ResponseReadsOn(status, hs, body, sent);
    PiecesCount(start, sent, j);
    FrontPieces(sent, j);
    FeedAllKeepsValid(start, sent[..j]);
    forall k | 0 <= k <= |piece| ensures !OverAt(Prefix(q, piece, k), k == |piece|) {
      var a, b := SplitPieces(sent, j, k);
      if |a| < |head| {
        CountedShort(q, piece, k);
      } else {
        HeadNonEmpty(status, PrintedHeaders(hs, body));
        PartAgrees(start, sent[..j], piece, k, a, b);
        PrefixSound(q, piece, k);
        if b == "" {
          assert a + b == a;
          EndState(start, s);
        } else {
          ResponseUnfinished(status, hs, body, |a|);
        }
        NotOverOutside(Prefix(q, piece, k), k, k == |piece|);
      }
    }
  }

  lemma HeadNonEmpty(status: nat, hs: seq<Header>)
    ensures ResponseHead(status, hs) != ""
  {
    hide PrintHeaders, PrintStatusLine;
    var head := ResponseHead(status, hs);
    assert |head| >= 2;
  }

  lemma CountedShort(q: Parser, piece: string, k: nat)
    requires k <= |piece| && q.nread + k + 1 <= HTTP_MAX_HEADER_SIZE
    ensures !OverAt(Prefix(q, piece, k), true) && !OverAt(Prefix(q, piece, k), false)
  {
    hide ScanAll, Open;
    OpenIs(q);
    ScanCounts(Open(q), piece[..k]);
  }

  /** A head that is longer than the limit. */
  lemma PiecesOver(status: nat, hs: seq<Header>, body: string, sent: seq<string>)
    requires Arrives(status, hs, body, sent)
    requires |ResponseHead(status, PrintedHeaders(hs, body))| > HTTP_MAX_HEADER_SIZE
    ensures !KeepsLimit(sent)
  {
    hide Feed, FeedAll, Flat, Clean, HeaderCharsOnly, ResponseText, ResponseHead, AllQuiet, Valid, HeadOnly, ScanAll,
      Open, PrintedHeaders, ScanSound, SkipsGeneral, InHead;
    var start, s, head := Init(Response), ResponseText(status, hs, body),
                          ResponseHead(status, PrintedHeaders(hs, body));
    assert |s| >= |head| by { TextHead(status, hs, body); }
    var j, k := PieceAt(sent, HTTP_MAX_HEADER_SIZE);
    var a, b := SplitPieces(sent, j, k);
    var q, piece := FeedAll(start, sent[..j]).p, sent[j];
    ResponseClean(status, hs, body);
    InitInHead();
    FrontPieces(sent, j);
    ResponseReadsOn(status, hs, body, sent);
    PiecesCount(start, sent, j);
    PartAgrees(start, sent[..j], piece, k, a, b);
    ResponseUnfinished(status, hs, body, |a|);
    OpenIs(q);
    var part := Prefix(q, piece, k);
    LiveInHead(q, piece[..k]);
    HeadCounts(Open(q), piece[..k]);
    HeadParses(part.p);
    assert OverAt(Prefix(q, piece, k), k == |piece|);
  }

  /** An upgrade does not end a call inside the head. */
  lemma LiveInHead(q: Parser, s: string)
    requires HeadOnly(ScanAll(Open(q), s).out) && ScanAll(Open(q), s).p.errno.OK?
    ensures Live(ScanAll(Open(q), s))
  {
    OpenIs(q);
    HaltsComplete(Open(q), s);
    HeadNotComplete(ScanAll(Open(q), s).out);
    hide ScanAll, Open;
  }

  lemma TextHead(status: nat, hs: seq<Header>, body: string)
    ensures ResponseText(status, hs, body) == ResponseHead(status, PrintedHeaders(hs, body)) + body
  {
    hide PrintHeaders, PrintStatusLine, Put, StatusText;
  }

  // ---------------------------------------------------------------- the receive loop

  lemma DeliveredSame(recvs: seq<Recv>, a: seq<string>, b: seq<string>, j: nat)
    requires Delivered(recvs, a) && Delivered(recvs, b) && j <= |a| && j <= |b|
    ensures a[..j] == b[..j]
  {
    forall i | 0 <= i < j ensures a[i] == b[i] { assert recvs[i] == Bytes(a[i]) && recvs[i] == Bytes(b[i]); }
  }

  lemma MessageCompleted(taken: bool, status: nat, hs: seq<Header>, body: string, sent: seq<string>)
    requires Arrives(status, hs, body, sent)
    ensures Completed(taken, sent)
  {
    ResponseMade(status, hs, body, sent);
    ShownAll(taken, FeedAll(Init(Response), sent).out);
    hide FeedAll, UpdateAll, NamesOf, ValuesOf, Cuts, ResponseText, NoBodies;
  }

  lemma OpenMeans(taken: bool, pieces: seq<string>, n: nat, j: nat)
    requires OpenUpTo(taken, pieces, n) && j < n && j <= |pieces|
    ensures !Completed(taken, pieces[..j])
  {
    hide Completed;
  }

  /** The loop does not read past the response. */
  lemma ReadsNoMore(taken: bool, status: nat, hs: seq<Header>, body: string, recvs: seq<Recv>, sent: seq<string>,
                    pieces: seq<string>, n: nat)
    requires Arrives(status, hs, body, sent) && Delivered(recvs, sent) && Delivered(recvs, pieces)
    requires OpenUpTo(taken, pieces, n) && n <= |pieces|
    ensures n <= |sent|
  {
    hide Completed, ResponseText, AllQuiet, Cuts;
    if n > |sent| {
      DeliveredSame(recvs, sent, pieces, |sent|);
      assert sent[..|sent|] == sent;
      OpenMeans(taken, pieces, n, |sent|);
      MessageCompleted(taken, status, hs, body, sent);
    }
  }

  /** The loop reports an overflow only where a piece of the response exceeds the limit. */
  lemma OverflowsInside(taken: bool, status: nat, hs: seq<Header>, body: string, recvs: seq<Recv>, sent: seq<string>,
                        pieces: seq<string>, j: nat, n: nat, log: seq<Event>)
    requires Arrives(status, hs, body, sent) && Delivered(recvs, sent) && Delivered(recvs, pieces)
    requires OverflowsAt(taken, pieces, j, n, log)
    ensures !KeepsLimit(sent)
  {
    hide Completed, ResponseText, AllQuiet, Cuts, OpenUpTo, OverLimit, FeedAll, Exceeds;
    OverflowsMeans(taken, pieces, j, n, log);
    ReadsNoMore(taken, status, hs, body, recvs, sent, pieces, j + 1);
    DeliveredSame(recvs, sent, pieces, j);
    DeliveredSame(recvs, sent, pieces, j + 1);
    assert sent[..j + 1][j] == pieces[..j + 1][j];
    assert OverLimit(FeedAll(Init(Response), sent[..j]).p, sent[j]);
  }

  /** Without an overflow the loop reads exactly the response. */
  lemma ReadsAll(taken: bool, status: nat, hs: seq<Header>, body: string, recvs: seq<Recv>, sent: seq<string>,
                 result: Received,
                 p: Parser, log: seq<Event>, pieces: seq<string>)
    requires Arrives(status, hs, body, sent) && Delivered(recvs, sent)
    requires Receives(taken, recvs, result, p, log, pieces) && !p.errno.HeaderOverflow?
    ensures result.Success? && pieces == sent && KeepsLimit(sent)
  {
    hide Completed, ResponseText, AllQuiet, Cuts, OpenUpTo, FeedAll, HasRead, Finished, KeepsLimit, Flat, ReadsOn,
      Init;
    ReadsNoMore(taken, status, hs, body, recvs, sent, pieces, |pieces|);
    DeliveredSame(recvs, sent, pieces, |pieces|);
    assert pieces[..|pieces|] == pieces;
    ResponseReadsOn(status, hs, body, sent);
    assert FeedAll(Init(Response), pieces).used == |Flat(pieces)| by { ReadsWhole(sent, |pieces|); }
    if |pieces| < |sent| {
      assert RecvAt(recvs, |pieces|) == Bytes(sent[|pieces|]);
      FrontUnfinished(status, hs, body, sent, |pieces|);
    } else {
      assert sent[..|pieces|] == sent;
      MessageCompleted(taken, status, hs, body, sent);
    }
  }

  lemma ReadsWhole(sent: seq<string>, j: nat)
    requires ReadsOn(Init(Response), sent) && j <= |sent|
    ensures FeedAll(Init(Response), sent[..j]).used == |Flat(sent[..j])|
  {
    hide FeedAll, Flat, Valid, Init;
    assert ReadsTo(Init(Response), sent, j);
  }

  /** The end of the stream adds nothing behind a complete message. */
  lemma EndAdds(p: Parser, log: seq<Event>, sent: seq<string>)
    requires Finished(p, log, sent)
    requires var r := FeedAll(Init(Response), sent); r.p.errno.OK? && BetweenMessages(r.p.state)
    ensures log == FeedAll(Init(Response), sent).out
  {
    hide Feed, FeedAll;
    Snoc(Init(Response), sent, "");
    EndIsFeed(FeedAll(Init(Response), sent).p);
    var out := FeedAll(Init(Response), sent).out;
    assert out + [] == out;
  }

  lemma {:induction false} TextsFlat(events: seq<Event>, k: DataKind)
    ensures Flat(Texts(events, k)) == HttpResponses.Bytes(events, k)
  {
    hide Flat;
    if events == [] {
      FlatNothing();
    } else {
      var front, e := events[..|events| - 1], events[|events| - 1];
      TextsFlat(front, k);
      if e.Data? && e.kind == k {
        FlatConcat(Texts(front, k), [e.bytes]);
        FlatOne(e.bytes);
      } else {
        assert Texts(front, k) + [] == Texts(front, k);
        assert HttpResponses.Bytes(front, k) + "" == HttpResponses.Bytes(front, k);
      }
    }
  }

  /** What the response and the body callback have of a message. */
  lemma BodyTaken(taken: bool, log: seq<Event>, status: nat, hs: seq<Header>, body: string)
    requires IsMessage(UpdateAll(FRESH, log), status, hs, body)
    ensures IsMessage(UpdateAll(FRESH, Shown(taken, log)), status, hs, if taken then "" else body)
    ensures Flat(Texts(log, Body)) == body
  {
    ShownAll(taken, log);
    Collects(log);
    TextsFlat(log, Body);
    hide UpdateAll, NamesOf, ValuesOf, NoBodies, Join, HeaderEvents, Texts, Flat, HttpResponses.Bytes;
  }

  /** A response printed by the builder and received in any number of pieces, cut anywhere,
      whatever recv would give afterwards: if and only if the header limit is kept in every
      piece, no overflow is reported, and then create_http_response reads exactly these pieces,
      succeeds, and its HttpResponse has exactly the status code, the headers, in map order, and
      the body, which a body callback gets in its place. A head with one byte of the limit to
      spare for each piece keeps it in every piece, a head that is longer than the limit does
      not. */
  lemma ResponseArrives(taken: bool, status: nat, hs: seq<Header>, body: string, recvs: seq<Recv>, sent: seq<string>,
                        result: Received, p: Parser, log: seq<Event>, pieces: seq<string>)
    requires Arrives(status, hs, body, sent) && Delivered(recvs, sent) && Receives(taken, recvs, result, p, log, pieces)
    ensures p.errno.HeaderOverflow? <==> !KeepsLimit(sent)
    ensures KeepsLimit(sent) ==>
              result.Success? && pieces == sent &&
              IsMessage(UpdateAll(FRESH, Shown(taken, log)), status, PrintedHeaders(hs, body),
                        if taken then "" else body) &&
              Flat(Texts(log, Body)) == body
    ensures var head := ResponseHead(status, PrintedHeaders(hs, body));
            (|head| + |sent| <= HTTP_MAX_HEADER_SIZE ==> KeepsLimit(sent)) &&
            (|head| > HTTP_MAX_HEADER_SIZE ==> !KeepsLimit(sent))
  {
    hide Completed, ResponseText, AllQuiet, OpenUpTo, FeedAll, HasRead, KeepsLimit, Flat, Init, OverflowsAt, Finished,
      IsMessage, UpdateAll, ResponseHead, PrintedHeaders, Cuts;
    var head := ResponseHead(status, PrintedHeaders(hs, body));
    if p.errno.HeaderOverflow? {
      var j, n :| OverflowsAt(taken, pieces, j, n, log);
      OverflowsInside(taken, status, hs, body, recvs, sent, pieces, j, n, log);
    } else {
      ReadsAll(taken, status, hs, body, recvs, sent, result, p, log, pieces);
      ResponseMade(status, hs, body, sent);
      EndAdds(p, log, sent);
      BodyTaken(taken, log, status, PrintedHeaders(hs, body), body);
    }
    if |head| > HTTP_MAX_HEADER_SIZE { PiecesOver(status, hs, body, sent); }
    if |head| + |sent| <= HTTP_MAX_HEADER_SIZE { PiecesWithin(status, hs, body, sent); }
  }

  lemma PiecesWithin(status: nat, hs: seq<Header>, body: string, sent: seq<string>)
    requires Arrives(status, hs, body, sent)
    requires |ResponseHead(status, PrintedHeaders(hs, body))| + |sent| <= HTTP_MAX_HEADER_SIZE
    ensures KeepsLimit(sent)
  {
    hide OverLimit, FeedAll, Arrives, ResponseHead, PrintedHeaders;
    forall j | 0 <= j < |sent| ensures !OverLimit(FeedAll(Init(Response), sent[..j]).p, sent[j]) {
      PieceWithin(status, hs, body, sent, j);
    }
  }
}
