/** HttpRequestBase::send: a request and its chunks through a socket that may take less than
    it is given. */
module HttpSender {
  import opened HttpTypes
  import opened HttpAutomaton
  import opened HttpScan
  import opened HttpInvariant
  import opened HttpNread
  import opened HttpPieces
  import opened HttpFragments
  import opened HttpReads
  import opened HttpNames
  import opened HttpValues
  import opened HttpHeaders
  import opened HttpRequestLine
  import opened HttpBodies
  import opened HttpChunks
  import opened HttpText
  import opened HttpRequestBuilders
  import opened Sockets

  /** What send_buffer does with n bytes of which `done` are sent: its result, the number of
      bytes taken, and the schedule left. */
  datatype Sending = Sending(total: int, taken: nat, plan: seq<int>)

  function Drain(plan: seq<int>, n: nat, done: nat): (r: Sending)
    requires done <= n
    ensures done <= r.taken <= n && (r.total >= 0 ==> r.total == r.taken)
  {
    if done == n then Sending(n, n, plan)
    else if plan == [] then Sending(n, n, [])
    else if plan[0] < 0 then Sending(plan[0], done, plan[1..])
    else if plan[0] == 0 then Sending(done, done, plan[1..])
    else Drain(plan[1..], n, if plan[0] > n - done then n else done + plan[0])
  }

  predicate NoStall(plan: seq<int>) { forall i | 0 <= i < |plan| :: plan[i] != 0 }

  function Sum(plan: seq<int>): int { if plan == [] then 0 else plan[0] + Sum(plan[1..]) }

  /** The k-th call is the first that takes nothing or fails, and there is room left for it: the
      calls before it take less than `room` bytes. */
  predicate StopsAt(plan: seq<int>, room: nat, k: nat) {
    k < |plan| && plan[k] <= 0 && (forall i | 0 <= i < k :: plan[i] > 0) && Sum(plan[..k]) < room
  }

  lemma StopsNext(plan: seq<int>, room: nat, k: nat)
    requires plan != [] && plan[0] > 0 && 0 < k
    ensures StopsAt(plan, room, k) <==> plan[0] < room && StopsAt(plan[1..], room - plan[0], k - 1)
  {
    if k < |plan| {
      assert plan[..k][1..] == plan[1..][..k - 1];
      assert forall i | 0 < i < k :: plan[i] == plan[1..][i - 1];
      if forall i | 0 <= i < k - 1 :: plan[1..][i] > 0 {
        assert forall i | 0 <= i < k - 1 :: plan[1..][..k - 1][i] == plan[1..][i];
        SumPositive(plan[1..][..k - 1]);
      }
      if StopsAt(plan[1..], if plan[0] < room then room - plan[0] else 0, k - 1) {
        forall i | 0 <= i < k ensures plan[i] > 0 { assert i > 0 ==> plan[1..][i - 1] == plan[i]; }
      }
    }
  }

  lemma {:induction false} SumPositive(plan: seq<int>)
    requires forall i | 0 <= i < |plan| :: plan[i] > 0
    ensures Sum(plan) >= 0
  {
    if plan != [] { SumPositive(plan[1..]); }
  }

  /** What send_buffer does, by the schedule alone: it ends early exactly where the schedule
      stops within the buffer. A call that takes nothing there loses the rest without an error,
      one that fails is reported, and otherwise everything is sent. */
  lemma {:induction false} DrainExact(plan: seq<int>, n: nat, done: nat)
    requires done <= n
    ensures var r := Drain(plan, n, done);
            (0 <= r.total < n <==> exists k: nat :: StopsAt(plan, n - done, k) && plan[k] == 0) &&
            (r.total < 0 <==> exists k: nat :: StopsAt(plan, n - done, k) && plan[k] < 0) &&
            (forall k: nat :: StopsAt(plan, n - done, k) ==> r.taken == done + Sum(plan[..k]))
    ensures Drain(plan, n, done).total <= n
  {
    var r, room := Drain(plan, n, done), n - done;
    if done == n || plan == [] || plan[0] <= 0 {
      assert plan != [] ==> plan[..0] == [];
      if done < n && plan != [] { assert StopsAt(plan, room, 0); }
      forall k: nat | StopsAt(plan, room, k) ensures k == 0 && done < n && plan[0] <= 0 {
        StopsFirst(plan, room, k);
      }
    } else if plan[0] >= room {
      forall k: nat ensures !StopsAt(plan, room, k) { if k > 0 { StopsNext(plan, room, k); } }
      assert Drain(plan[1..], n, n) == Sending(n, n, plan[1..]);
    } else {
      DrainExact(plan[1..], n, done + plan[0]);
      forall k: nat | StopsAt(plan, room, k)
        ensures k > 0 && StopsAt(plan[1..], room - plan[0], k - 1) && plan[k] == plan[1..][k - 1] &&
                Sum(plan[..k]) == plan[0] + Sum(plan[1..][..k - 1])
      {
        StopsNext(plan, room, k);
        assert plan[..k][1..] == plan[1..][..k - 1];
      }
      forall k: nat | StopsAt(plan[1..], room - plan[0], k)
        ensures StopsAt(plan, room, k + 1) && plan[k + 1] == plan[1..][k]
      {
        StopsNext(plan, room, k + 1);
      }
    }
  }

  lemma StopsFirst(plan: seq<int>, room: nat, k: nat)
    requires StopsAt(plan, room, k) && (room == 0 || plan[0] <= 0)
    ensures k == 0 && room > 0
  {
    if room == 0 {
      assert forall i | 0 <= i < k :: plan[..k][i] == plan[i];
      SumPositive(plan[..k]);
    }
  }

  /** The part of a schedule that has been used when `rest` is left. */
  function Used(plan: seq<int>, rest: seq<int>): seq<int>
    requires |rest| <= |plan|
  {
    plan[..|plan| - |rest|]
  }

  lemma UsedMore(plan: seq<int>, rest: seq<int>)
    requires |rest| < |plan|
    ensures Used(plan, rest) == [plan[0]] + Used(plan[1..], rest)
  {
  }

  /** The buffer goes on, or is done with. */
  lemma DrainStep(plan: seq<int>, n: nat, done: nat)
    requires done <= n
    ensures done < n && plan != [] && plan[0] > 0 ==>
              Drain(plan, n, done) == Drain(plan[1..], n, if plan[0] > n - done then n else done + plan[0])
    ensures !(done < n && plan != [] && plan[0] > 0) ==>
              var r := Drain(plan, n, done);
              |r.plan| <= |plan| && plan == Used(plan, r.plan) + r.plan &&
              (NoStall(Used(plan, r.plan)) <==> r.total < 0 || r.total == n)
  {
  }

  /** send_buffer uses up the front of the schedule, and reaches a call that takes nothing
      exactly when it ends early without an error. */
  lemma {:induction false} DrainUses(plan: seq<int>, n: nat, done: nat)
    requires done <= n
    ensures var r := Drain(plan, n, done);
            |r.plan| <= |plan| && plan == Used(plan, r.plan) + r.plan &&
            (NoStall(Used(plan, r.plan)) <==> r.total < 0 || r.total == n)
  {
    hide Drain, NoStall, Used;
    DrainStep(plan, n, done);
    if done < n && plan != [] && plan[0] > 0 {
      var more := if plan[0] > n - done then n else done + plan[0];
      DrainUses(plan[1..], n, more);
      var rest := Drain(plan[1..], n, more).plan;
      UsedMore(plan, rest);
      assert NoStall([plan[0]]) by { StallOne(plan[0]); }
      StallConcat([plan[0]], Used(plan[1..], rest));
      assert plan == [plan[0]] + plan[1..];
      assert plan == [plan[0]] + (Used(plan[1..], rest) + rest) == [plan[0]] + Used(plan[1..], rest) + rest;
    }
  }

  lemma StallOne(k: int)
    ensures NoStall([k]) <==> k != 0
  {
    if NoStall([k]) { assert [k][0] != 0; }
  }

  lemma StallConcat(a: seq<int>, b: seq<int>)
    ensures NoStall(a + b) <==> NoStall(a) && NoStall(b)
  {
    if NoStall(a + b) {
      forall i | 0 <= i < |a| ensures a[i] != 0 { assert (a + b)[i] == a[i]; }
      forall i | 0 <= i < |b| ensures b[i] != 0 { assert (a + b)[|a| + i] == b[i]; }
    }
  }

  class HttpRequestBase {
    const socket: Socket<char>
    const builder: HttpRequestBuilder

    constructor (s: Socket<char>, b: HttpRequestBuilder)
      ensures socket == s && builder == b
    {
      socket, builder := s, b;
    }

    method SendBuffer(buffer: string) returns (total: int)
      modifies socket
      ensures var r := Drain(old(socket.plan), |buffer|, 0);
              total == r.total && socket.plan == r.plan && socket.sent == old(socket.sent) + buffer[..r.taken]
    {
      total := 0;
      assert buffer[..0] == "" && socket.sent + "" == socket.sent;
      while total < |buffer|
        invariant 0 <= total <= |buffer| && socket.sent == old(socket.sent) + buffer[..total]
        invariant Drain(old(socket.plan), |buffer|, 0) == Drain(socket.plan, |buffer|, total)
        decreases |buffer| - total
      {
        var r := socket.Send(buffer[total..]);
        if r < 0 {
          assert socket.sent == old(socket.sent) + buffer[..total];
          total := r;
          break;
        }
        if r == 0 {
          assert buffer[total..][..0] == "";
          break;
        }
        assert buffer[..total] + buffer[total..][..r] == buffer[..total + r];
        total := total + r;
      }
    }

    /** send(body, body_size), up to the response. */
    method Send(body: string) returns (ok: bool, overrun: bool)
      modifies socket, builder
      ensures builder.headers == RequestHeaders(old(builder.headers), builder.httpMethod, |body|)
      ensures overrun <==> IsChunked(old(builder.headers)) && |body| > 1
      ensures !overrun ==>
                var text := PrintRequest(builder.httpMethod, builder.url.path, builder.url.query, builder.headers,
                                         if IsChunked(old(builder.headers)) then "" else body);
                var r := SendOut(old(socket.plan), [text]);
                ok == r.ok && socket.plan == r.plan && socket.sent == old(socket.sent) + r.bytes
    {
      hide PrintRequest, RequestHeaders, Drain, IsChunked;
      var request, size;
      request, size, overrun := builder.Build(body);
      ok := false;
      if overrun { return; }
      SendOne(socket.plan, request[..size]);
      var total := SendBuffer(request[..size]);
      ok := total >= 0;
    }

    /** send(body_cb), up to the response: the callback gives the chunks one by one, and an
        empty one when there are no more. A chunk has less than 8 hex digits of length, or
        its size line would not fit its buffer of 10 bytes. */
    method SendChunked(chunks: seq<string>) returns (ok: bool)
      requires forall i | 0 <= i < |chunks| :: |chunks[i]| < 0x1000_0000
      modifies socket, builder
      ensures builder.headers == Put(old(builder.headers), "Transfer-Encoding", "chunked")
      ensures var r := SendOut(old(socket.plan),
                               ChunkedBuffers(builder.httpMethod, builder.url, builder.headers, UpToEmpty(chunks)));
              ok == r.ok && socket.plan == r.plan && socket.sent == old(socket.sent) + r.bytes
    {
      hide PrintRequest, ChunkBuffers, Put, UpToEmpty, SendOut, HexText, RequestHeaders, IsChunked;
      ghost var plan0, sent0, all := socket.plan, socket.sent, UpToEmpty(chunks);
      builder.SetHeader("Transfer-Encoding", "chunked");
      PutIsChunked(old(builder.headers));
      ghost var hs := builder.headers;
      var request, size, overrun := builder.Build("");
      assert builder.headers == hs by { ChunkedStays(hs, builder.httpMethod); }
      ghost var head := request[..size];
      ghost var buffers := [head] + ChunkBuffers(all) + [LAST_CHUNK];
      assert buffers == ChunkedBuffers(builder.httpMethod, builder.url, hs, all);
      NothingOut(plan0);
      ok := SendNext(request[..size], plan0, sent0, []);
      assert [] + [head] == [head];
      if !ok {
        OutFails(plan0, [head], ChunkBuffers(all) + [LAST_CHUNK]);
        assert [head] + (ChunkBuffers(all) + [LAST_CHUNK]) == buffers;
        return;
      }
      var k := 0;
      UpToEmptyFacts(chunks);
      assert ChunkBuffers(all[..0]) == [] by { NoBuffers(all); }
      ghost var done := [head];
      while true
        invariant 0 <= k <= |all| && builder.headers == hs && done == [head] + ChunkBuffers(all[..k]) &&
                  SentSoFar(plan0, sent0, done)
        decreases |all| - k
      {
        var data := if k < |chunks| then chunks[k] else "";
        if |data| == 0 {
          break;
        }
        ChunkBuffersStep(all, k);
        ghost var rest := ChunkBuffersRest(all, k + 1);
        ok := SendChunk(data, plan0, sent0, done);
        ghost var more := done + [ChunkHead(|data|), data, "\r\n"];
        assert more == [head] + ChunkBuffers(all[..k + 1]);
        if !ok {
          OutFails(plan0, more, rest + [LAST_CHUNK]);
          assert more + (rest + [LAST_CHUNK]) == buffers;
          return;
        }
        done := more;
        k := k + 1;
      }
      assert all[..k] == all;
      ok := SendNext(LAST_CHUNK, plan0, sent0, done);
    }

    /** What has been sent are the buffers given so far. */
    ghost predicate SentSoFar(plan0: seq<int>, sent0: string, done: seq<string>)
      reads socket
    {
      var r := SendOut(plan0, done);
      r.ok && socket.plan == r.plan && socket.sent == sent0 + r.bytes
    }

    /** One more buffer. */
    method SendNext(buffer: string, ghost plan0: seq<int>, ghost sent0: string, ghost done: seq<string>)
      returns (ok: bool)
      requires SentSoFar(plan0, sent0, done)
      modifies socket
      ensures var r := SendOut(plan0, done + [buffer]);
              ok == r.ok && socket.plan == r.plan &&
              socket.sent == sent0 + r.bytes
    {
      hide Drain;
      SendSnoc(plan0, done, buffer);
      var total := SendBuffer(buffer);
      ok := total >= 0;
    }

    /** Size in hex, CRLF, data, CRLF: three buffers, of which the first that fails is the last. */
    method SendChunk(data: string, ghost plan0: seq<int>, ghost sent0: string, ghost done: seq<string>)
      returns (ok: bool)
      requires SentSoFar(plan0, sent0, done)
      modifies socket
      ensures var r := SendOut(plan0, done + [ChunkHead(|data|), data, "\r\n"]);
              ok == r.ok && socket.plan == r.plan && socket.sent == sent0 + r.bytes
    {
      hide ChunkHead, SendOut;
      var head := ChunkHead(|data|);
      ghost var a := done + [head];
      ghost var b := a + [data];
      ok := SendNext(head, plan0, sent0, done);
      if !ok {
        OutFails(plan0, a, [data, "\r\n"]);
        assert a + [data, "\r\n"] == done + [head, data, "\r\n"];
        return;
      }
      ok := SendNext(data, plan0, sent0, a);
      if !ok {
        OutFails(plan0, b, ["\r\n"]);
        assert b + ["\r\n"] == done + [head, data, "\r\n"];
        return;
      }
      ok := SendNext("\r\n", plan0, sent0, b);
      assert b + ["\r\n"] == done + [head, data, "\r\n"];
    }
  }

  // ---------------------------------------------------------------- several buffers

  /** What sending buffers one after the other does: whether no call failed, the bytes taken and
      the schedule left. A buffer that is taken in part is not noticed. */
  datatype Sent = Sent(ok: bool, bytes: string, plan: seq<int>)

  function SendOut(plan: seq<int>, buffers: seq<string>): Sent {
    if buffers == [] then Sent(true, "", plan)
    else
      var r, last := SendOut(plan, buffers[..|buffers| - 1]), buffers[|buffers| - 1];
      if !r.ok then r
      else
        var d := Drain(r.plan, |last|, 0);
        Sent(d.total >= 0, r.bytes + last[..d.taken], d.plan)
  }

  lemma NothingOut(plan: seq<int>)
    ensures SendOut(plan, []) == Sent(true, "", plan)
  {
  }

  lemma SendSnoc(plan: seq<int>, done: seq<string>, buffer: string)
    ensures var r := SendOut(plan, done);
            var d := Drain(r.plan, |buffer|, 0);
            SendOut(plan, done + [buffer]) == if r.ok then Sent(d.total >= 0, r.bytes + buffer[..d.taken], d.plan)
            else r
  {
    assert (done + [buffer])[..|done|] == done;
    hide Drain;
  }

  lemma SendOne(plan: seq<int>, buffer: string)
    ensures var d := Drain(plan, |buffer|, 0); SendOut(plan, [buffer]) == Sent(d.total >= 0, buffer[..d.taken], d.plan)
  {
    SendSnoc(plan, [], buffer);
    assert [] + [buffer] == [buffer];
    assert "" + buffer[..Drain(plan, |buffer|, 0).taken] == buffer[..Drain(plan, |buffer|, 0).taken];
    hide Drain;
  }

  /** After a call that fails nothing is sent. */
  lemma {:induction false} OutFails(plan: seq<int>, done: seq<string>, rest: seq<string>)
    requires !SendOut(plan, done).ok
    ensures SendOut(plan, done + rest) == SendOut(plan, done)
    decreases |rest|
  {
    if rest == [] {
      assert done + rest == done;
    } else {
      var front := rest[..|rest| - 1];
      OutFails(plan, done, front);
      SendSnoc(plan, done + front, rest[|rest| - 1]);
      assert done + front + [rest[|rest| - 1]] == done + rest;
    }
    hide SendOut;
  }

  /** When no error is reported, everything has gone out if and only if no call that was used
      took nothing. Up to an error, what has gone out is a prefix of the buffers if none did. */
  lemma {:induction false} OutExact(plan: seq<int>, buffers: seq<string>)
    ensures var r := SendOut(plan, buffers);
            |r.plan| <= |plan| && plan == Used(plan, r.plan) + r.plan && |r.bytes| <= |Flat(buffers)| &&
            (r.ok ==> (r.bytes == Flat(buffers) <==> NoStall(Used(plan, r.plan)))) &&
            (NoStall(Used(plan, r.plan)) ==> r.bytes <= Flat(buffers))
  {
    hide Drain, NoStall;
    if buffers == [] {
      NothingUsed(plan);
    } else {
      var front, last := buffers[..|buffers| - 1], buffers[|buffers| - 1];
      OutExact(plan, front);
      var r := SendOut(plan, front);
      if r.ok {
        var d := Drain(r.plan, |last|, 0);
        DrainUses(r.plan, |last|, 0);
        assert Used(plan, d.plan) == Used(plan, r.plan) + Used(r.plan, d.plan);
        StallConcat(Used(plan, r.plan), Used(r.plan, d.plan));
        TwoTexts(r.bytes, last[..d.taken], Flat(front), last);
      }
    }
  }

  lemma NothingUsed(plan: seq<int>)
    ensures Used(plan, plan) == [] && NoStall([])
  {
  }

  /** Two texts, each no longer than another, are the two others in a row only if each is. */
  lemma TwoTexts(a: string, b: string, x: string, y: string)
    requires |a| <= |x| && b <= y
    ensures a + b == x + y <==> a == x && |b| == |y|
    ensures a == x ==> a + b <= x + y
  {
    if a + b == x + y {
      assert |a| == |x| && |b| == |y|;
      assert a == (a + b)[..|a|] && x == (x + y)[..|x|];
    }
  }

  /** A call that takes nothing ends its buffer: the rest of it is dropped, no error is
      reported, and the next buffer goes out behind the gap. */
  lemma StallDrops(a: string, b: string, k: nat, plan: seq<int>)
    requires 0 < k < |a| && NoStall(plan) && SendOut(plan, [b]).ok
    ensures SendOut([k, 0] + plan, [a, b]) == Sent(true, a[..k] + b, SendOut(plan, [b]).plan)
  {
    SendOne([k, 0] + plan, a);
    assert ([k, 0] + plan)[1..][1..] == plan && ([k, 0] + plan)[1..][0] == 0;
    assert Drain([k, 0] + plan, |a|, 0) == Sending(k, k, plan);
    SendSnoc([k, 0] + plan, [a], b);
    SendOne(plan, b);
    OutExact(plan, [b]);
    StallConcat(Used(plan, SendOut(plan, [b]).plan), SendOut(plan, [b]).plan);
    assert [a] + [b] == [a, b];
    assert Flat([b]) == b by { FlatOne(b); }
  }

  /** The chunks before the first empty one. */
  function UpToEmpty(chunks: seq<string>): seq<string> {
    if chunks == [] || chunks[0] == "" then [] else [chunks[0]] + UpToEmpty(chunks[1..])
  }

  lemma {:induction false} UpToEmptyFacts(chunks: seq<string>)
    ensures var all := UpToEmpty(chunks);
            |all| <= |chunks| && (forall i | 0 <= i < |all| :: all[i] == chunks[i] && all[i] != "") &&
            (|all| < |chunks| ==> chunks[|all|] == "")
  {
    if chunks != [] && chunks[0] != "" { UpToEmptyFacts(chunks[1..]); }
  }

  function ChunkedText(m: Method, url: ParsedUrl, hs: seq<Header>, chunks: seq<string>): string {
    PrintRequest(m, url.path, url.query, hs, "") + PrintChunks(chunks) + LAST_CHUNK
  }

  /** The buffers of the chunks. */
  function ChunkBuffers(chunks: seq<string>): seq<string> {
    if chunks == [] then []
    else ChunkBuffers(chunks[..|chunks| - 1]) + [ChunkHead(|chunks[|chunks| - 1]|), chunks[|chunks| - 1], "\r\n"]
  }

  /** All the buffers that a chunked request is sent in. */
  function ChunkedBuffers(m: Method, url: ParsedUrl, hs: seq<Header>, chunks: seq<string>): seq<string> {
    [PrintRequest(m, url.path, url.query, hs, "")] + ChunkBuffers(chunks) + [LAST_CHUNK]
  }

  lemma NoBuffers(chunks: seq<string>)
    ensures ChunkBuffers(chunks[..0]) == []
  {
  }

  lemma ChunkBuffersStep(chunks: seq<string>, k: nat)
    requires k < |chunks|
    ensures ChunkBuffers(chunks[..k + 1]) == ChunkBuffers(chunks[..k]) + [ChunkHead(|chunks[k]|), chunks[k], "\r\n"]
  {
    assert chunks[..k + 1][..k] == chunks[..k];
    hide ChunkHead;
  }

  lemma {:induction false} ChunkBuffersRest(chunks: seq<string>, k: nat) returns (rest: seq<string>)
    requires k <= |chunks|
    ensures ChunkBuffers(chunks) == ChunkBuffers(chunks[..k]) + rest
    decreases |chunks| - k
  {
    if k == |chunks| {
      rest := [];
      assert chunks[..k] == chunks;
    } else {
      var more := ChunkBuffersRest(chunks, k + 1);
      ChunkBuffersStep(chunks, k);
      rest := [ChunkHead(|chunks[k]|), chunks[k], "\r\n"] + more;
    }
    hide ChunkBuffers, ChunkHead;
  }

  lemma FlatThree(a: seq<string>, x: string, y: string, z: string)
    ensures Flat(a + [x, y, z]) == Flat(a) + x + y + z
  {
    FlatSnoc(a, x);
    FlatSnoc(a + [x], y);
    FlatSnoc(a + [x] + [y], z);
    assert a + [x] + [y] + [z] == a + [x, y, z];
    hide Flat;
  }

  /** Together the buffers are the text of the request. */
  lemma BuffersAreText(m: Method, url: ParsedUrl, hs: seq<Header>, chunks: seq<string>)
    ensures Flat(ChunkedBuffers(m, url, hs, chunks)) == ChunkedText(m, url, hs, chunks)
  {
    var head := PrintRequest(m, url.path, url.query, hs, "");
    FlatChunks(head, chunks);
    FlatSnoc([head] + ChunkBuffers(chunks), LAST_CHUNK);
    hide PrintRequest, Flat, ChunkBuffers, PrintChunks;
  }

  lemma {:induction false} FlatChunks(head: string, chunks: seq<string>)
    ensures Flat([head] + ChunkBuffers(chunks)) == head + PrintChunks(chunks)
  {
    if chunks == [] {
      FlatOne(head);
      assert [head] + [] == [head] && head + "" == head;
    } else {
      hide PrintChunk, Flat, ChunkHead;
      var front, data := chunks[..|chunks| - 1], chunks[|chunks| - 1];
      var x := [ChunkHead(|data|), data, "\r\n"];
      FlatChunks(head, front);
      FlatThree([head] + ChunkBuffers(front), ChunkHead(|data|), data, "\r\n");
      assert [head] + ChunkBuffers(front) + x == [head] + (ChunkBuffers(front) + x);
      Joined(head, PrintChunks(front), ChunkHead(|data|), data);
      assert PrintChunk(data) == ChunkHead(|data|) + data + "\r\n" by { PrintChunkIs(data); }
    }
  }

  lemma Joined(head: string, front: string, x: string, data: string)
    ensures head + front + x + data + "\r\n" == head + (front + (x + data + "\r\n"))
  {
  }

  lemma PrintChunkIs(data: string)
    ensures PrintChunk(data) == ChunkHead(|data|) + data + "\r\n"
  {
    hide ChunkHead;
  }

  /** The chunked sender reports success exactly having sent its whole text if and only if no
      call that it used took nothing; if none did, it has sent a prefix when it fails. */
  lemma ChunkedSent(plan: seq<int>, m: Method, url: ParsedUrl, hs: seq<Header>, chunks: seq<string>)
    ensures var (r, text) := (SendOut(plan, ChunkedBuffers(m, url, hs, chunks)), ChunkedText(m, url, hs, chunks));
            |r.plan| <= |plan| &&
            (r.ok ==> (r.bytes == text <==> NoStall(Used(plan, r.plan)))) &&
            (NoStall(Used(plan, r.plan)) ==> r.bytes <= text)
  {
    OutExact(plan, ChunkedBuffers(m, url, hs, chunks));
    BuffersAreText(m, url, hs, chunks);
    hide SendOut, ChunkedBuffers, ChunkedText, NoStall, Flat;
  }

  lemma ChunkedStays(hs: seq<Header>, m: Method)
    requires IsChunked(hs)
    ensures RequestHeaders(hs, m, 0) == hs
  {
  }

  lemma PutIsChunked(hs: seq<Header>)
    ensures IsChunked(Put(hs, "Transfer-Encoding", "chunked"))
  {
    var i := PutShape(hs, "Transfer-Encoding", "chunked");
    assert Put(hs, "Transfer-Encoding", "chunked")[i] == Header("Transfer-Encoding", "chunked");
    hide Put;
  }

  /** The callbacks up to the end of the headers. */
  function ChunkedStart(m: Method, url: ParsedUrl, hs: seq<Header>): seq<Event> {
    [MessageBegin, Data(Url, UrlText(url.path, url.query))] + HeaderTrace(hs) + [HeadersComplete(m, false, ULLONG_MAX)]
  }

  lemma PutChunkedSection(hs: seq<Header>)
    requires AllQuiet(hs)
    ensures var r := Put(hs, "Transfer-Encoding", "chunked"); IsSection(r) && Length(r).None? && SaysChunked(r)
  {
    hide Put, IsSection, SaysChunked, Length, IsQuietHeader, AllQuiet;
    var i := PutQuiet(hs, "Transfer-Encoding", "chunked");
    TransferEncodingName();
    ChunkedSection(Put(hs, "Transfer-Encoding", "chunked"), i);
  }

  /** The request line, the headers and the empty line: the parser waits for chunks. */
  lemma ReadChunkedStart(m: Method, url: ParsedUrl, hs: seq<Header>) returns (b: Parser)
    requires !m.CONNECT? && IsPath(url.path) && IsQuery(url.query) && AllQuiet(hs)
    ensures var printed := Put(hs, "Transfer-Encoding", "chunked");
            var sc := ScanAll(Open(Init(Request)), PrintRequest(m, url.path, url.query, printed, ""));
            At(sc, b, Nothing, ChunkedStart(m, url, printed)) && ScanSound(sc, 0)
    ensures ExpectsChunk(b) && !b.upgrade && b.httpMethod == m
  {
    hide ScanAll, At, AtLine, Open, Put, PrintRequestLine, PrintHeaders, HeaderTrace, IsPath, IsQuery, AllQuiet,
      Valid, Length, IsSection, SaysChunked, MethodString, UrlText, ScanSound, Tracks;
    var start, hs' := Init(Request), Put(hs, "Transfer-Encoding", "chunked");
    PutChunkedSection(hs);
    OpenAt(start);
    InitIsValid(Request);
    var line, first := PrintRequestLine(m, url.path, url.query),
                       [MessageBegin, Data(Url, UrlText(url.path, url.query))];
    ReadRequestLine(Open(start), start, [], m, url.path, url.query);
    assert [] + first == first;
    var s1 := ScanAll(Open(start), line);
    var r := ReadHeaders(s1, RequestLineRead(start, m), first, hs');
    TracksChunked(RequestLineRead(start, m), r);
    var s2, out2 := ScanAll(s1, PrintHeaders(hs')), first + HeaderTrace(hs');
    ReadHeadersEnd(s2, r, out2);
    b := BodyStart(r);
    assert out2 + BodyStartTrace(r) == ChunkedStart(m, url, hs');
    ScanAllConcat(Open(start), line, PrintHeaders(hs'));
    ScanAllConcat(Open(start), line + PrintHeaders(hs'), "\r\n");
    var head := PrintRequest(m, url.path, url.query, hs', "");
    assert line + PrintHeaders(hs') + "\r\n" == head;
    OpenFits(start);
    ScanAllSound(Open(start), head);
    assert b.errno.OK? by { AtOk(ScanAll(s2, "\r\n"), b, Nothing, ChunkedStart(m, url, hs')); }
  }

  /** The parser inverts the chunked sender: it reads everything that send writes and recovers
      method, URL, headers and, one by one, the chunks. */
  lemma ChunkedFeeds(m: Method, url: ParsedUrl, hs: seq<Header>, chunks: seq<string>)
    requires !m.CONNECT? && IsPath(url.path) && IsQuery(url.query) && AllQuiet(hs) && AreChunks(chunks)
    ensures var printed := Put(hs, "Transfer-Encoding", "chunked");
            var text := ChunkedText(m, url, printed, chunks);
            var w := Feed(Init(Request), text);
            w.p.errno.OK? && w.used == |text| && w.p.httpMethod == m && BetweenMessages(w.p.state) &&
            w.out == ChunkedStart(m, url, printed) + ChunkedTrace(chunks) && !ScanAll(Open(Init(Request)), text).inner
  {
    hide ScanAll, At, Open, Feed, Put, PrintRequest, IsPath, IsQuery, AllQuiet, Valid, PrintChunks, ChunkedTrace,
      AreChunks, ScanSound, ChunkedStart;
    var start, hs' := Init(Request), Put(hs, "Transfer-Encoding", "chunked");
    var head, rest := PrintRequest(m, url.path, url.query, hs', ""), PrintChunks(chunks) + LAST_CHUNK;
    var b := ReadChunkedStart(m, url, hs);
    var z := ReadChunkedBody(ScanAll(Open(start), head), b, ChunkedStart(m, url, hs'), chunks);
    ScanAllConcat(Open(start), head, rest);
    assert head + rest == ChunkedText(m, url, hs', chunks);
    InitIsValid(Request);
    FeedReads(start, head + rest, z, ChunkedStart(m, url, hs') + ChunkedTrace(chunks));
    EndsOutside(start, head + rest, z, ChunkedStart(m, url, hs') + ChunkedTrace(chunks));
  }

  lemma TracksChunked(q: Parser, r: Parser)
    requires FreshMessage(q) && Tracks(q, r, None, true)
    ensures Framed(r) && r.contentLength == ULLONG_MAX && r.flags.chunked && r.httpMethod == q.httpMethod &&
            r.kind == q.kind
  {
  }
}
