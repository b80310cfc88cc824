/** The header counter `nread` is never looked at by the switch, except at a chunk-size start. */
module HttpNread {
  import opened HttpTypes
  import opened HttpAutomaton
  import opened HttpScan
  import opened HttpRuns

  /** Two parsers that differ at most in nread. */
  predicate Alike(a: Parser, b: Parser) { b == a.(nread := b.nread) }

  /** Two trips that differ at most in nread. */
  predicate AlikeTrips(a: Outcome, b: Outcome) { b == a.(p := b.p) && Alike(a.p, b.p) }

  lemma LikeStart(p: Parser, ch: char, n: nat)
    requires IsStart(p.state)
    ensures AlikeTrips(DispatchStart(p, ch), DispatchStart(p.(nread := n), ch))
  {
    hide Descends, FirstMethod, IsAlpha;
  }

  lemma LikeMethod(p: Parser, ch: char, n: nat)
    ensures AlikeTrips(DispatchMethod(p, ch), DispatchMethod(p.(nread := n), ch))
  {
    hide Descends, KeyChar, SwitchMethod, MethodString, IsAlpha;
  }

  lemma LikeUrl(p: Parser, ch: char, n: nat)
    ensures AlikeTrips(DispatchUrl(p, ch), DispatchUrl(p.(nread := n), ch))
  {
    hide Descends, ParseUrlChar;
  }

  lemma LikeMajor(p: Parser, ch: char, dot: State, n: nat)
    ensures AlikeTrips(MajorDigit(p, ch, dot), MajorDigit(p.(nread := n), ch, dot))
  {
  }

  lemma LikeMinor(p: Parser, ch: char, n: nat)
    ensures AlikeTrips(MinorDigit(p, ch), MinorDigit(p.(nread := n), ch))
  {
  }

  lemma LikeRequestWord(p: Parser, ch: char, n: nat)
    requires p.state.ReqHttpStart? || p.state.ReqHttpH? || p.state.ReqHttpHT? || p.state.ReqHttpHTT? ||
             p.state.ReqHttpHTTP?
    ensures AlikeTrips(DispatchRequestVersion(p, ch), DispatchRequestVersion(p.(nread := n), ch))
  {
    hide Descends, MajorDigit, MinorDigit;
  }

  lemma LikeRequestVersion(p: Parser, ch: char, n: nat)
    requires p.state.ReqFirstHttpMajor? || p.state.ReqHttpMajor? || p.state.ReqFirstHttpMinor? ||
             p.state.ReqHttpMinor? || p.state.ReqLineAlmostDone?
    ensures AlikeTrips(DispatchRequestVersion(p, ch), DispatchRequestVersion(p.(nread := n), ch))
  {
    hide Descends, MajorDigit, MinorDigit, Digit;
    LikeMajor(p, ch, ReqFirstHttpMinor, n);
    LikeMinor(p, ch, n);
  }

  lemma LikeResponseWord(p: Parser, ch: char, n: nat)
    requires p.state.ResH? || p.state.ResHT? || p.state.ResHTT? || p.state.ResHTTP? || p.state.ResLineAlmostDone?
    ensures AlikeTrips(DispatchResponseLine(p, ch), DispatchResponseLine(p.(nread := n), ch))
  {
    hide Descends, MajorDigit, MinorDigit;
  }

  lemma LikeResponseVersion(p: Parser, ch: char, n: nat)
    requires p.state.ResFirstHttpMajor? || p.state.ResHttpMajor? || p.state.ResFirstHttpMinor? || p.state.ResHttpMinor?
    ensures AlikeTrips(DispatchResponseLine(p, ch), DispatchResponseLine(p.(nread := n), ch))
  {
    hide Descends, MajorDigit, MinorDigit, Digit;
    LikeMajor(p, ch, ResFirstHttpMinor, n);
    LikeMinor(p, ch, n);
  }

  lemma LikeStatus(p: Parser, ch: char, n: nat)
    requires p.state.ResFirstStatusCode? || p.state.ResStatusCode? || p.state.ResStatusStart? || p.state.ResStatus?
    ensures AlikeTrips(DispatchResponseLine(p, ch), DispatchResponseLine(p.(nread := n), ch))
  {
    hide Descends, MajorDigit, MinorDigit, Digit;
  }

  lemma LikeFieldStart(p: Parser, ch: char, n: nat)
    requires p.state.HeaderFieldStart?
    ensures AlikeTrips(DispatchFieldStart(p, ch), DispatchFieldStart(p.(nread := n), ch))
  {
    hide Descends, Token;
  }

  lemma LikeField(p: Parser, ch: char, n: nat)
    ensures AlikeTrips(DispatchField(p, ch), DispatchField(p.(nread := n), ch))
  {
    FieldByteNread(p, ch, Token(ch), n);
    hide Descends, Token, FieldByte;
  }

  /** memchr may skip a byte that is a header character. */
  lemma LikeValue(p: Parser, ch: char, skip: bool, skip': bool, n: nat)
    requires p.state.HeaderValue? && (skip == skip' || IsHeaderChar(ch))
    ensures AlikeTrips(DispatchValue(p, ch, skip), DispatchValue(p.(nread := n), ch, skip'))
  {
    ValueByteNread(p, ch, n);
    hide Descends, ValueByte;
  }

  lemma LikeValueStart(p: Parser, ch: char, n: nat)
    ensures AlikeTrips(ValueStart(p, ch), ValueStart(p.(nread := n), ch))
  {
    hide Lower, IsNum;
  }

  lemma LikeFinish(p: Parser, n: nat)
    ensures FinishHeader(p.(nread := n)) == FinishHeader(p).(nread := n)
  {
  }

  lemma LikeValueEdges(p: Parser, ch: char, n: nat)
    requires IsValueEdge(p.state)
    ensures AlikeTrips(DispatchValueEdges(p, ch), DispatchValueEdges(p.(nread := n), ch))
  {
    LikeValueStart(p, ch, n);
    LikeFinish(p, n);
    hide Descends, ValueStart, FinishHeader;
  }

  lemma LikeHeadersDone(p: Parser, ch: char, n: nat)
    requires p.state.HeadersAlmostDone? || p.state.HeadersDone?
    ensures AlikeTrips(DispatchHeadersDone(p, ch), DispatchHeadersDone(p.(nread := n), ch))
  {
    hide Descends;
  }

  lemma LikeChunk(p: Parser, ch: char, n: nat)
    requires IsChunkState(p.state) && (p.state.ChunkSizeStart? ==> p.nread == n)
    ensures AlikeTrips(DispatchChunk(p, ch), DispatchChunk(p.(nread := n), ch))
  {
    hide Descends, Unhex;
  }

  lemma LikeBody(p: Parser, ch: char, n: nat)
    requires p.state.BodyIdentity? || p.state.BodyIdentityEof? || p.state.MessageDone?
    ensures AlikeTrips(DispatchBody(p, ch), DispatchBody(p.(nread := n), ch))
  {
    hide Descends;
  }

  /** A trip does not depend on nread, nor on whether memchr skips a header character. */
  lemma LikeTrip(p: Parser, ch: char, skip: bool, skip': bool, n: nat)
    requires p.state.ChunkSizeStart? ==> p.nread == n
    requires p.state.HeaderValue? ==> skip == skip' || IsHeaderChar(ch)
    ensures AlikeTrips(Dispatch(p, ch, skip), Dispatch(p.(nread := n), ch, skip'))
  {
    hide Descends, AlikeTrips, DispatchStart, DispatchMethod, DispatchUrl, DispatchRequestVersion,
      DispatchResponseLine, DispatchFieldStart, DispatchField, DispatchValue, DispatchValueEdges, DispatchHeadersDone,
      DispatchChunk, DispatchBody;
    var s := p.state;
    if IsStart(s) { LikeStart(p, ch, n); }
    else if s.ReqMethod? { LikeMethod(p, ch, n); }
    else if s.ReqSpacesBeforeUrl? || IsUrlState(s) { LikeUrl(p, ch, n); }
    else if s.ReqHttpStart? || s.ReqHttpH? || s.ReqHttpHT? || s.ReqHttpHTT? || s.ReqHttpHTTP? {
      LikeRequestWord(p, ch, n);
    }
    else if IsRequestVersion(s) { LikeRequestVersion(p, ch, n); }
    else if s.ResH? || s.ResHT? || s.ResHTT? || s.ResHTTP? || s.ResLineAlmostDone? { LikeResponseWord(p, ch, n); }
    else if s.ResFirstStatusCode? || s.ResStatusCode? || s.ResStatusStart? || s.ResStatus? { LikeStatus(p, ch, n); }
    else if IsResponseLine(s) { LikeResponseVersion(p, ch, n); }
    else if s.HeaderFieldStart? { LikeFieldStart(p, ch, n); }
    else if s.HeaderField? { LikeField(p, ch, n); }
    else if s.HeaderValue? { LikeValue(p, ch, skip, skip', n); }
    else if IsValueEdge(s) { LikeValueEdges(p, ch, n); }
    else if s.HeadersAlmostDone? || s.HeadersDone? { LikeHeadersDone(p, ch, n); }
    else if IsChunkState(s) { LikeChunk(p, ch, n); }
    else { LikeBody(p, ch, n); }
  }
}
