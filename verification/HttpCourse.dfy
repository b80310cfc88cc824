/** What the callbacks of a message promise to HttpResponse, and what the response makes of it:
    the course of a trace. */
module HttpCourse {
  import opened HttpTypes
  import opened HttpTrace
  import opened HttpResponses

  // ---------------------------------------------------------------- the course of a trace

  /** What has been heard, over any number of messages: header names and values, glued as
      HttpResponse glues them; how many header sections are complete, how many names there were
      at the end of the last one, whether nothing but that end followed the last value; the value
      of the first Content-Length header then, and the length the parser found; whether chunks
      are used; the body, the Content-Length value in force at its first byte, and how much of it
      came before the first chunk. `good` says that every section had a value for each name and
      that no value came right behind the end of the headers. */
  datatype Course = Course(fields: seq<string>, values: seq<string>, concatField: bool, concatValue: bool,
                           heads: nat, done: nat, closed: bool, text: Option<string>, length: nat, chunked: bool,
                           body: string, bodyText: Option<string>, loose: nat, good: bool)

  const SILENCE := Course([], [], false, false, 0, 0, false, None, 0, false, "", None, 0, true)

  function FirstText(fields: seq<string>, values: seq<string>): Option<string> {
    var i := FindName(fields, 0);
    if i < |fields| && i < |values| then Some(values[i]) else None
  }

  function FollowBody(c: Course, s: string): Course {
    c.(body := c.body + s, bodyText := if c.body == "" && s != "" then c.text else c.bodyText,
       loose := if c.chunked then c.loose else c.loose + |s|)
  }

  function FollowData(c: Course, k: DataKind, s: string): Course {
    match k
    case Field =>
      c.(fields := Glue(c.fields, c.concatField, s), concatField := true, concatValue := false, closed := false)
    case Value =>
      c.(values := Glue(c.values, c.concatValue, s), concatValue := true, concatField := false,
         good := c.good && !c.closed)
    case Body => FollowBody(c, s)
    case _ => c
  }

  function Follow(c: Course, e: Event): Course {
    match e
    case HeadersComplete(_, _, n) =>
      c.(heads := c.heads + 1, done := |c.fields|, closed := true, text := FirstText(c.fields, c.values), length := n,
         good := c.good && |c.fields| == |c.values| && !c.concatField)
    case ChunkHeader(_) => c.(chunked := true)
    case Data(k, s) => FollowData(c, k, s)
    case _ => c
  }

  function FollowAll(c: Course, events: seq<Event>): Course {
    if events == [] then c else Follow(FollowAll(c, events[..|events| - 1]), events[|events| - 1])
  }

  lemma FollowSnoc(c: Course, t: seq<Event>, e: Event)
    ensures FollowAll(c, t + [e]) == Follow(FollowAll(c, t), e)
  {
    assert (t + [e])[..|t|] == t;
    hide Follow;
  }

  lemma {:induction false} FollowConcat(c: Course, t: seq<Event>, u: seq<Event>)
    ensures FollowAll(c, t + u) == FollowAll(FollowAll(c, t), u)
    decreases |u|
  {
    hide Follow;
    if u == [] {
      assert t + u == t;
    } else {
      assert (t + u)[..|t + u| - 1] == t + u[..|u| - 1];
      FollowConcat(c, t, u[..|u| - 1]);
    }
  }

  /** Two fragments in a row do what their concatenation does. */
  lemma FollowTwice(c: Course, k: DataKind, a: string, b: string)
    ensures FollowData(FollowData(c, k, a), k, b) == FollowData(c, k, a + b)
  {
    hide Glue;
    match k
    case Field => GlueTwice(c.fields, c.concatField, a, b);
    case Value => GlueTwice(c.values, c.concatValue, a, b);
    case Body => assert c.body + a + b == c.body + (a + b);
    case _ =>
  }

  // ---------------------------------------------------------------- the first Content-Length

  lemma FindSame(a: seq<string>, b: seq<string>, from: nat)
    requires from <= |a| <= |b| && a == b[..|a|]
    ensures FindName(b, from) == if FindName(a, from) < |a| then FindName(a, from) else FindName(b, |a|)
    decreases |a| - from
  {
    if from < |a| && !SameName(a[from], CONTENT_LENGTH) { FindSame(a, b, from + 1); }
    hide SameName;
  }

  /** The first Content-Length stays the first one, with its value. */
  lemma FirstTextStays(fields: seq<string>, values: seq<string>, n: nat)
    requires n <= |fields| && n <= |values|
    ensures var t := FirstText(fields[..n], values[..n]); t.Some? ==> FirstText(fields, values) == t
  {
    FindSame(fields[..n], fields, 0);
    hide FindName;
  }

  /** The names and values up to the end of the last header section stay as they are, and with
      them the value in force. */
  predicate Stable(c: Course) {
    c.done <= |c.fields| && c.done <= |c.values| && FirstText(c.fields[..c.done], c.values[..c.done]) == c.text &&
    (c.concatField ==> c.done < |c.fields|) && (c.concatValue && !c.closed ==> c.done < |c.values|)
  }

  /** The body and its beginning. */
  predicate Begun(c: Course) {
    (c.bodyText.Some? ==> c.text == c.bodyText) && (c.body == "" ==> c.loose == 0 && c.bodyText.None?) &&
    (!c.chunked ==> c.loose == |c.body|)
  }

  lemma GlueKeeps(texts: seq<string>, concat: bool, s: string, n: nat)
    requires if concat then n < |texts| else n <= |texts|
    ensures var r := Glue(texts, concat, s); n < |r| && r[..n] == texts[..n]
  {
  }

  lemma StableData(c: Course, k: DataKind, s: string)
    requires Stable(c) && FollowData(c, k, s).good
    ensures Stable(FollowData(c, k, s))
  {
    if k.Field? { GlueKeeps(c.fields, c.concatField, s, c.done); }
    if k.Value? { GlueKeeps(c.values, c.concatValue, s, c.done); }
    hide Glue, FirstText;
  }

  lemma BegunData(c: Course, k: DataKind, s: string)
    requires Begun(c)
    ensures Begun(FollowData(c, k, s))
  {
    hide Glue;
  }

  lemma StableEvent(c: Course, e: Event)
    requires Stable(c) && Begun(c) && Follow(c, e).good && !e.Data?
    ensures Stable(Follow(c, e)) && Begun(Follow(c, e))
    ensures c.text.Some? ==> Follow(c, e).text == c.text
  {
    FirstTextStays(c.fields, c.values, c.done);
    assert c.fields[..|c.fields|] == c.fields && c.values[..|c.values|] == c.values;
    hide FirstText;
  }

  // ---------------------------------------------------------------- the response and the course

  /** The size that a response takes from the text of the header, where atoi has a value. */
  function Size(text: Option<string>): nat {
    if text.Some? && AtoiU32(text.value).Some? then AtoiU32(text.value).value else 0
  }

  predicate Unreadable(text: Option<string>) { text.Some? && AtoiU32(text.value).None? }

  /** There is nothing to size the copy by, or the body does not fit. */
  predicate Spoilt(c: Course) { Unreadable(c.text) || 0 < Size(c.bodyText) < c.loose }

  predicate SameLists(r: Message, c: Course) {
    r.Message? && r.fields == c.fields && r.values == c.values && r.concatField == c.concatField &&
    r.concatValue == c.concatValue &&
    (r.concatField ==> r.fields != []) && (r.concatValue ==> r.values != [])
  }

  predicate SameBuffer(r: Message, c: Course) {
    r.Message? && r.body == c.body && r.expected == Size(c.text) && (r.hasBody <==> c.body != "") &&
    r.chunked == (c.chunked || (c.loose > 0 && Size(c.bodyText) == 0)) &&
    (r.hasBody && !r.chunked ==> r.capacity == Size(c.bodyText))
  }

  /** What the response is after a course. */
  predicate Told(r: Message, c: Course) {
    (r.Corrupt? <==> Spoilt(c)) && (r.Message? ==> SameLists(r, c) && SameBuffer(r, c))
  }

  lemma TellBody(r: Message, c: Course, s: string)
    requires Told(r, c) && Begun(c) && s != ""
    ensures Told(SetBody(r, s), FollowBody(c, s)) && (r.Corrupt? ==> SetBody(r, s) == r)
  {
    hide AtoiU32;
  }

  lemma TellData(r: Message, c: Course, k: DataKind, s: string)
    requires Told(r, c) && Begun(c) && (k.Body? ==> s != "")
    ensures Told(Update(r, Data(k, s)), FollowData(c, k, s))
  {
    hide Size, Unreadable, SetBody, FollowBody;
    if k.Body? { TellBody(r, c, s); }
  }

  lemma TellComplete(r: Message, c: Course, e: Event)
    requires Told(r, c) && Stable(c) && Begun(c) && Follow(c, e).good && e.HeadersComplete?
    ensures Told(Update(r, e), Follow(c, e))
  {
    hide AtoiU32, FindName;
    StableEvent(c, e);
    hide Stable, Begun;
  }

  lemma TellEvent(r: Message, c: Course, e: Event)
    requires Told(r, c) && Begun(c) && !e.Data? && !e.HeadersComplete?
    ensures Told(Update(r, e), Follow(c, e))
  {
    hide Size, Unreadable;
  }

  lemma FollowMonotone(c: Course, e: Event)
    ensures Follow(c, e).good ==> c.good
    ensures c.heads <= Follow(c, e).heads
  {
    hide FirstText, Glue;
  }

  /** No body callback gets an empty fragment. */
  predicate NoEmptyBody(events: seq<Event>) {
    forall i | 0 <= i < |events| :: events[i].Data? && events[i].kind.Body? ==> events[i].bytes != ""
  }

  /** For every trace with a good course, over any number of messages. */
  lemma {:induction false} TellAll(events: seq<Event>)
    requires FollowAll(SILENCE, events).good && NoEmptyBody(events)
    ensures var c := FollowAll(SILENCE, events); Told(UpdateAll(FRESH, events), c) && Stable(c) && Begun(c)
  {
    hide Told, Follow, Update, Stable, Begun;
    if events == [] {
      TellNothing();
    } else {
      var front, e := events[..|events| - 1], events[|events| - 1];
      var r, c := UpdateAll(FRESH, front), FollowAll(SILENCE, front);
      FollowMonotone(c, e);
      TellAll(front);
      if e.Data? {
        FollowIs(c, e);
        TellData(r, c, e.kind, e.bytes);
        StableData(c, e.kind, e.bytes);
        BegunData(c, e.kind, e.bytes);
      } else {
        if e.HeadersComplete? { TellComplete(r, c, e); } else { TellEvent(r, c, e); }
        StableEvent(c, e);
      }
    }
  }

  lemma FollowIs(c: Course, e: Event)
    requires e.Data?
    ensures Follow(c, e) == FollowData(c, e.kind, e.bytes)
    ensures Follow(c, e).heads == c.heads
  {
    hide Glue;
  }

  lemma TellNothing()
    ensures Told(FRESH, SILENCE) && Stable(SILENCE) && Begun(SILENCE)
  {
  }

  lemma {:induction false} BodyHeard(events: seq<Event>)
    ensures FollowAll(SILENCE, events).body == Bytes(events, Body)
  {
    if events != [] {
      BodyHeard(events[..|events| - 1]);
      BodyFollows(FollowAll(SILENCE, events[..|events| - 1]), events[|events| - 1]);
    }
    hide Follow;
  }

  lemma BodyFollows(c: Course, e: Event)
    ensures Follow(c, e).body == c.body + if e.Data? && e.kind.Body? then e.bytes else ""
  {
    hide Glue, FirstText;
    assert c.body + "" == c.body;
  }

  // ---------------------------------------------------------------- the headers that were heard

  /** How many header sections a trace completes. */
  function Heads(events: seq<Event>): nat {
    if events == [] then 0
    else Heads(events[..|events| - 1]) + if events[|events| - 1].HeadersComplete? then 1 else 0
  }

  lemma {:induction false} HeadsHeard(events: seq<Event>)
    ensures FollowAll(SILENCE, events).heads == Heads(events)
  {
    if events != [] {
      HeadsHeard(events[..|events| - 1]);
      HeadFollows(FollowAll(SILENCE, events[..|events| - 1]), events[|events| - 1]);
    }
    hide Follow;
  }

  lemma HeadFollows(c: Course, e: Event)
    ensures Follow(c, e).heads == c.heads + if e.HeadersComplete? then 1 else 0
  {
    hide Glue, FirstText;
  }

  /** The value of the first Content-Length header at the end of the headers. */
  function LengthText(events: seq<Event>): Option<string> { FollowAll(SILENCE, events).text }

  lemma {:induction false} TextHeard(events: seq<Event>)
    ensures FollowAll(SILENCE, events).heads == 0 ==> FollowAll(SILENCE, events).text.None?
  {
    if events != [] {
      TextHeard(events[..|events| - 1]);
      TextFollows(FollowAll(SILENCE, events[..|events| - 1]), events[|events| - 1]);
    }
    hide Follow;
  }

  lemma TextFollows(c: Course, e: Event)
    ensures Follow(c, e).heads == 0 ==> c.heads == 0 && Follow(c, e).text == c.text
  {
    hide Glue, FirstText;
  }

  lemma {:induction false} GoodFront(c: Course, events: seq<Event>)
    ensures FollowAll(c, events).good ==> c.good
  {
    if events != [] {
      GoodFront(c, events[..|events| - 1]);
      FollowMonotone(FollowAll(c, events[..|events| - 1]), events[|events| - 1]);
    }
    hide Follow;
  }

  lemma {:induction false} TextKeptFrom(c: Course, events: seq<Event>)
    requires Stable(c) && Begun(c) && FollowAll(c, events).good && c.text.Some?
    ensures var d := FollowAll(c, events); Stable(d) && Begun(d) && d.text == c.text
  {
    hide Follow, Stable, Begun;
    if events != [] {
      var front, e := events[..|events| - 1], events[|events| - 1];
      var d := FollowAll(c, front);
      FollowMonotone(d, e);
      TextKeptFrom(c, front);
      if e.Data? {
        FollowIs(d, e);
        StableData(d, e.kind, e.bytes);
        BegunData(d, e.kind, e.bytes);
        TextOnlyThere(d, e);
      } else {
        StableEvent(d, e);
      }
    }
  }

  /** A value in force stays in force, in later messages too. */
  lemma TextKept(front: seq<Event>, rest: seq<Event>)
    requires FollowAll(SILENCE, front + rest).good && NoEmptyBody(front + rest) && LengthText(front).Some?
    ensures LengthText(front + rest) == LengthText(front)
  {
    hide FollowAll, Stable, Begun, Told;
    FollowConcat(SILENCE, front, rest);
    GoodFront(FollowAll(SILENCE, front), rest);
    forall i | 0 <= i < |front| ensures front[i] == (front + rest)[i] {}
    TellAll(front);
    TextKeptFrom(FollowAll(SILENCE, front), rest);
  }

  predicate SameHeard(c: Course, h: seq<Event>) {
    c.fields == Texts(h, Field) && c.values == Texts(h, Value) && c.concatField == EndsWith(h, Field) &&
    c.concatValue == EndsWith(h, Value)
  }

  lemma HearMore(c: Course, events: seq<Event>, e: Event)
    requires SameHeard(c, Join(HeaderEvents(events)))
    ensures SameHeard(Follow(c, e), Join(HeaderEvents(events + [e])))
  {
    hide Join, HeaderEvents, Texts, Emit, FirstText;
    var h := Join(HeaderEvents(events));
    HeaderEventsSnoc(events, e);
    if e.Data? && (e.kind.Field? || e.kind.Value?) {
      JoinedSnoc(HeaderEvents(events), e);
      TextsEmit(h, e, Field);
      TextsEmit(h, e, Value);
      hide EndsWith, Glue;
    } else {
      assert HeaderEvents(events) + [] == HeaderEvents(events);
    }
  }

  lemma {:induction false} ListsHeard(events: seq<Event>)
    ensures SameHeard(FollowAll(SILENCE, events), Join(HeaderEvents(events)))
  {
    if events == [] {
      assert Join(HeaderEvents([])) == [];
    } else {
      var front, e := events[..|events| - 1], events[|events| - 1];
      ListsHeard(front);
      HearMore(FollowAll(SILENCE, front), front, e);
      assert events == front + [e];
    }
    hide Follow, SameHeard;
  }

  lemma {:induction false} TextStays(c: Course, events: seq<Event>)
    requires forall i | 0 <= i < |events| :: !events[i].HeadersComplete?
    ensures FollowAll(c, events).text == c.text
  {
    if events != [] {
      TextStays(c, events[..|events| - 1]);
      TextOnlyThere(FollowAll(c, events[..|events| - 1]), events[|events| - 1]);
    }
    hide Follow;
  }

  lemma TextOnlyThere(c: Course, e: Event)
    requires !e.HeadersComplete?
    ensures Follow(c, e).text == c.text
  {
    hide Glue;
  }

  /** LengthText is the value, joined from its fragments, of the first header so named before
      the end of the headers. */
  lemma LengthTextIs(front: seq<Event>, e: Event, rest: seq<Event>)
    requires e.HeadersComplete? && forall i | 0 <= i < |rest| :: !rest[i].HeadersComplete?
    ensures var h := Join(HeaderEvents(front));
            LengthText(front + [e] + rest) == FirstText(Texts(h, Field), Texts(h, Value))
  {
    hide FollowAll, FirstText, Join, HeaderEvents, Texts;
    ListsHeard(front);
    FollowSnoc(SILENCE, front, e);
    FollowConcat(SILENCE, front + [e], rest);
    TextStays(FollowAll(SILENCE, front + [e]), rest);
  }

  // ---------------------------------------------------------------- the body that was heard

  /** The Content-Length value in force at the first byte of body. */
  function BodyText(events: seq<Event>): Option<string> { FollowAll(SILENCE, events).bodyText }

  /** How many bytes of body come before the first chunk. */
  function Loose(events: seq<Event>): nat { FollowAll(SILENCE, events).loose }

  lemma BodyTextKept(c: Course, e: Event)
    ensures c.body != "" ==> Follow(c, e).body != "" && Follow(c, e).bodyText == c.bodyText
    ensures c.chunked ==> Follow(c, e).chunked && Follow(c, e).loose == c.loose
    ensures !c.chunked && !e.ChunkHeader? && c.loose == |c.body| ==>
              !Follow(c, e).chunked && Follow(c, e).loose == |Follow(c, e).body|
  {
    hide Glue, FirstText;
  }

  lemma {:induction false} BodyTextStays(c: Course, events: seq<Event>)
    ensures c.body != "" ==> FollowAll(c, events).body != "" && FollowAll(c, events).bodyText == c.bodyText
    ensures c.chunked ==> FollowAll(c, events).chunked && FollowAll(c, events).loose == c.loose
  {
    if events != [] {
      BodyTextStays(c, events[..|events| - 1]);
      BodyTextKept(FollowAll(c, events[..|events| - 1]), events[|events| - 1]);
    }
    hide Follow;
  }

  /** BodyText is the LengthText of what came before the first byte of body. */
  lemma BodyTextIs(front: seq<Event>, s: string, rest: seq<Event>)
    requires Bytes(front, Body) == "" && s != ""
    ensures BodyText(front + [Data(Body, s)] + rest) == LengthText(front)
  {
    hide FollowAll, Bytes;
    BodyHeard(front);
    FollowSnoc(SILENCE, front, Data(Body, s));
    FollowConcat(SILENCE, front + [Data(Body, s)], rest);
    BodyTextStays(FollowAll(SILENCE, front + [Data(Body, s)]), rest);
  }

  lemma {:induction false} LooseHeard(events: seq<Event>)
    requires forall i | 0 <= i < |events| :: !events[i].ChunkHeader?
    ensures !FollowAll(SILENCE, events).chunked && Loose(events) == |Bytes(events, Body)|
  {
    if events != [] {
      LooseHeard(events[..|events| - 1]);
      BodyTextKept(FollowAll(SILENCE, events[..|events| - 1]), events[|events| - 1]);
    }
    BodyHeard(events);
    if events != [] { BodyHeard(events[..|events| - 1]); }
    hide Follow, Bytes;
  }

  /** Loose counts the bytes of body up to the first chunk. */
  lemma LooseIs(front: seq<Event>, n: nat, rest: seq<Event>)
    requires forall i | 0 <= i < |front| :: !front[i].ChunkHeader?
    ensures Loose(front) == |Bytes(front, Body)| == Loose(front + [ChunkHeader(n)] + rest)
  {
    hide FollowAll, Bytes;
    LooseHeard(front);
    FollowSnoc(SILENCE, front, ChunkHeader(n));
    FollowConcat(SILENCE, front + [ChunkHeader(n)], rest);
    BodyTextStays(FollowAll(SILENCE, front + [ChunkHeader(n)]), rest);
  }
}
