/** HttpResponse: the object that glues the fragments of a message back together, and the
    callbacks of HttpParser that feed it. */
module HttpResponses {
  import opened HttpTypes
  import opened HttpTrace

  /** The value of an HttpResponse. `Corrupt` stands for what C++ leaves undefined: a copy
      past the end of the body, a header without a value, a number that overflows atoi. */
  datatype Message =
    | Corrupt
    | Message(statusCode: nat, statusMessage: string, url: string, httpMethod: Method, upgrade: bool,
               fields: seq<string>, values: seq<string>, concatField: bool, concatValue: bool,
               expected: nat, chunked: bool, complete: bool, hasBody: bool, capacity: nat, body: string)

  const FRESH := Message(0, "", "", DELETE, false, [], [], false, false, 0, false, false, false, 0, "")

  function Glue(texts: seq<string>, concat: bool, s: string): seq<string> {
    if concat && texts != [] then texts[..|texts| - 1] + [texts[|texts| - 1] + s] else texts + [s]
  }

  function SetField(r: Message, s: string): Message {
    if r.Corrupt? || (r.concatField && r.fields == []) then Corrupt
    else r.(fields := Glue(r.fields, r.concatField, s), concatField := true, concatValue := false)
  }

  function SetValue(r: Message, s: string): Message {
    if r.Corrupt? || (r.concatValue && r.values == []) then Corrupt
    else r.(values := Glue(r.values, r.concatValue, s), concatValue := true, concatField := false)
  }

  // ---------------------------------------------------------------- Content-Length

  function LowerAscii(c: char): char { if 'A' <= c <= 'Z' then (c as int + 32) as char else c }

  /** strcicmp(s, key) == 0 for a key in lower case; `s` ends at its first NUL. */
  predicate SameName(s: string, key: string) {
    if s == "" || s[0] == '\0' then key == ""
    else key != "" && LowerAscii(s[0]) == key[0] && SameName(s[1..], key[1..])
  }

  predicate IsSpace(c: char) { c == ' ' || '\t' <= c <= '\r' }

  function Digits(s: string, n: nat): nat {
    if s == "" || !IsNum(s[0]) then n else Digits(s[1..], n * 10 + Digit(s[0]))
  }

  /** atoi, cast to uint32_t; no value when int overflows. */
  function AtoiU32(s: string): Option<nat> {
    if s != "" && IsSpace(s[0]) then AtoiU32(s[1..])
    else
      var signed := s != "" && (s[0] == '-' || s[0] == '+');
      var n := Digits(if signed then s[1..] else s, 0);
      if signed && s[0] == '-' then (if n > 0x8000_0000 then None else Some(if n == 0 then 0 else 0x1_0000_0000 - n))
      else if n > 0x7FFF_FFFF then None else Some(n)
  }

  const CONTENT_LENGTH := "content-length"

  /** The first header with this name. */
  function FindName(fields: seq<string>, from: nat): (i: nat)
    requires from <= |fields|
    ensures from <= i <= |fields| && (i < |fields| ==> SameName(fields[i], CONTENT_LENGTH))
    ensures forall k | from <= k < i :: !SameName(fields[k], CONTENT_LENGTH)
    decreases |fields| - from
  {
    if from == |fields| || SameName(fields[from], CONTENT_LENGTH) then from else FindName(fields, from + 1)
  }

  function SetHeadersComplete(r: Message): Message {
    if r.Corrupt? then r
    else
      var i := FindName(r.fields, 0);
      if i == |r.fields| then r
      else if i >= |r.values| || AtoiU32(r.values[i]).None? then Corrupt
      else r.(expected := AtoiU32(r.values[i]).value)
  }

  // ---------------------------------------------------------------- body

  function SetBody(r: Message, s: string): Message {
    if r.Corrupt? then r
    else
      var chunked := r.chunked || (r.expected == 0 && s != "");
      var capacity := if chunked then |r.body| + |s| else if r.hasBody then r.capacity else r.expected;
      if s != "" && capacity < |r.body| + |s| then Corrupt
      else r.(chunked := chunked, hasBody := true, capacity := capacity, body := r.body + s)
  }

  // ---------------------------------------------------------------- callbacks

  /** What the callbacks of HttpParser do with one event. */
  function Update(r: Message, e: Event): Message {
    if r.Corrupt? then r
    else match e
      case MessageBegin => r
      case HeadersComplete(m, u, _) =>
        var q := SetHeadersComplete(r);
        if q.Corrupt? then q else q.(httpMethod := m, upgrade := u)
      case ChunkHeader(_) => r.(chunked := true)
      case ChunkComplete => r
      case MessageComplete => r.(complete := true)
      case Data(k, s) =>
        match k
        case Url => r.(url := s)
        case Status(code) => r.(statusCode := code, statusMessage := s)
        case Field => SetField(r, s)
        case Value => SetValue(r, s)
        case Body => SetBody(r, s)
  }

  function UpdateAll(r: Message, events: seq<Event>): Message {
    if events == [] then r else Update(UpdateAll(r, events[..|events| - 1]), events[|events| - 1])
  }

  /** Equal but for the URL and the status message, which keep the last fragment only. */
  predicate SameMessage(a: Message, b: Message) {
    a == b || (a.Message? && b.Message? && b == a.(url := b.url, statusMessage := b.statusMessage))
  }

  lemma GlueTwice(texts: seq<string>, concat: bool, a: string, b: string)
    ensures Glue(Glue(texts, concat, a), true, b) == Glue(texts, concat, a + b)
  {
    if concat && texts != [] {
      assert texts[|texts| - 1] + a + b == texts[|texts| - 1] + (a + b);
    }
  }

  lemma FieldTwice(r: Message, a: string, b: string)
    ensures SetField(SetField(r, a), b) == SetField(r, a + b) && SetField(Corrupt, b).Corrupt?
  {
    if r.Message? && (r.concatField ==> r.fields != []) { GlueTwice(r.fields, r.concatField, a, b); }
  }

  lemma ValueTwice(r: Message, a: string, b: string)
    ensures SetValue(SetValue(r, a), b) == SetValue(r, a + b) && SetValue(Corrupt, b).Corrupt?
  {
    if r.Message? && (r.concatValue ==> r.values != []) { GlueTwice(r.values, r.concatValue, a, b); }
  }

  lemma BodyTwice(r: Message, a: string, b: string)
    ensures SetBody(SetBody(r, a), b) == SetBody(r, a + b) && SetBody(Corrupt, b).Corrupt?
  {
    if r.Message? { assert r.body + a + b == r.body + (a + b); }
  }

  /** Two fragments in a row do what their concatenation does. */
  lemma UpdateTwice(r: Message, k: DataKind, a: string, b: string)
    ensures SameMessage(Update(Update(r, Data(k, a)), Data(k, b)), Update(r, Data(k, a + b)))
  {
    FieldTwice(r, a, b);
    ValueTwice(r, a, b);
    BodyTwice(r, a, b);
    hide SetHeadersComplete, SetField, SetValue, SetBody;
  }

  lemma CompleteSame(a: Message, b: Message)
    requires SameMessage(a, b)
    ensures SameMessage(SetHeadersComplete(a), SetHeadersComplete(b))
  {
    hide AtoiU32, FindName;
  }

  lemma DataSame(a: Message, b: Message, k: DataKind, s: string)
    requires SameMessage(a, b)
    ensures SameMessage(Update(a, Data(k, s)), Update(b, Data(k, s)))
  {
    hide Glue, SetHeadersComplete;
  }

  /** An update does not look at the URL or the status message. */
  lemma UpdateSame(a: Message, b: Message, e: Event)
    requires SameMessage(a, b)
    ensures SameMessage(Update(a, e), Update(b, e))
  {
    hide SetHeadersComplete, SetField, SetValue, SetBody;
    if e.Data? {
      DataSame(a, b, e.kind, e.bytes);
    } else {
      CompleteSame(a, b);
    }
  }

  lemma UpdateSnoc(r: Message, events: seq<Event>, e: Event)
    ensures UpdateAll(r, events + [e]) == Update(UpdateAll(r, events), e)
  {
    assert (events + [e])[..|events|] == events;
    hide Update;
  }

  /** Joining one more fragment to a trace does not change what the response becomes. */
  lemma UpdateEmit(r: Message, t: seq<Event>, e: Event)
    ensures SameMessage(UpdateAll(r, Emit(t, e)), Update(UpdateAll(r, t), e))
  {
    hide Update, SameMessage;
    UpdateSnoc(r, t, e);
    if Emit(t, e) != t + [e] {
      var u, last := t[..|t| - 1], t[|t| - 1];
      assert t == u + [last];
      UpdateSnoc(r, u, last);
      UpdateSnoc(r, u, Data(e.kind, last.bytes + e.bytes));
      UpdateTwice(UpdateAll(r, u), e.kind, last.bytes, e.bytes);
      SameSymmetric(Update(Update(UpdateAll(r, u), last), e),
                    Update(UpdateAll(r, u), Data(e.kind, last.bytes + e.bytes)));
    } else {
      SameReflexive(Update(UpdateAll(r, t), e));
    }
  }

  lemma SameReflexive(a: Message)
    ensures SameMessage(a, a)
  {
  }

  lemma SameSymmetric(a: Message, b: Message)
    requires SameMessage(a, b)
    ensures SameMessage(b, a)
  {
  }

  lemma SameTransitive(a: Message, b: Message, c: Message)
    requires SameMessage(a, b) && SameMessage(b, c)
    ensures SameMessage(a, c)
  {
  }

  /** The response depends on the joined trace only: header names, header values, body, flags
      and the undefined case do not depend on how the data was fragmented. */
  lemma {:induction false} JoinedUpdates(r: Message, events: seq<Event>)
    ensures SameMessage(UpdateAll(r, Join(events)), UpdateAll(r, events))
  {
    if events != [] {
      var front, e := events[..|events| - 1], events[|events| - 1];
      JoinedUpdates(r, front);
      UpdateEmit(r, Join(front), e);
      UpdateSame(UpdateAll(r, Join(front)), UpdateAll(r, front), e);
      SameTransitive(UpdateAll(r, Join(events)), Update(UpdateAll(r, Join(front)), e), UpdateAll(r, events));
    }
    hide Update, SameMessage, Emit;
  }

  /** Traces that join to the same give the same message. */
  lemma SameTraces(r: Message, a: seq<Event>, b: seq<Event>)
    requires Join(a) == Join(b)
    ensures SameMessage(UpdateAll(r, a), UpdateAll(r, b))
  {
    hide UpdateAll, SameMessage, Join;
    JoinedUpdates(r, a);
    JoinedUpdates(r, b);
    SameSymmetric(UpdateAll(r, Join(a)), UpdateAll(r, a));
    SameTransitive(UpdateAll(r, a), UpdateAll(r, Join(a)), UpdateAll(r, b));
  }

  // ---------------------------------------------------------------- what is collected

  /** The header events of a trace. */
  function HeaderEvents(events: seq<Event>): seq<Event> {
    if events == [] then []
    else
      var e := events[|events| - 1];
      HeaderEvents(events[..|events| - 1]) + if e.Data? && (e.kind.Field? || e.kind.Value?) then [e] else []
  }

  /** The data of one kind, event by event. */
  function Texts(events: seq<Event>, k: DataKind): seq<string> {
    if events == [] then []
    else
      var e := events[|events| - 1];
      Texts(events[..|events| - 1], k) + if e.Data? && e.kind == k then [e.bytes] else []
  }

  /** All the data of one kind. */
  function Bytes(events: seq<Event>, k: DataKind): string {
    if events == [] then ""
    else
      var e := events[|events| - 1];
      Bytes(events[..|events| - 1], k) + if e.Data? && e.kind == k then e.bytes else ""
  }

  lemma TextsSnoc(t: seq<Event>, e: Event, k: DataKind)
    ensures Texts(t + [e], k) == Texts(t, k) + if e.Data? && e.kind == k then [e.bytes] else []
  {
    assert (t + [e])[..|t|] == t;
  }

  predicate EndsWith(t: seq<Event>, k: DataKind) { t != [] && t[|t| - 1].Data? && t[|t| - 1].kind == k }

  lemma TextsEmit(t: seq<Event>, e: Event, k: DataKind)
    requires e.Data?
    ensures EndsWith(t, e.kind) ==> Texts(t, e.kind) != []
    ensures Texts(Emit(t, e), k) == if e.kind == k then Glue(Texts(t, k), EndsWith(t, k), e.bytes) else Texts(t, k)
    ensures EndsWith(Emit(t, e), e.kind) && (k != e.kind ==> !EndsWith(Emit(t, e), k))
  {
    TextsSnoc(t, e, k);
    if EndsWith(t, e.kind) {
      var u, last := t[..|t| - 1], t[|t| - 1];
      assert t == u + [last];
      TextsSnoc(u, last, k);
      TextsSnoc(u, last, e.kind);
      TextsSnoc(u, Data(e.kind, last.bytes + e.bytes), k);
    }
    hide Texts;
  }

  /** The state of the two concatenation flags and lists after a trace. */
  predicate Collected(r: Message, events: seq<Event>) {
    var h := Join(HeaderEvents(events));
    r.Message? ==>
      r.fields == Texts(h, Field) && r.values == Texts(h, Value) && r.concatField == EndsWith(h, Field) &&
      r.concatValue == EndsWith(h, Value) && r.body == Bytes(events, Body)
  }

  /** Header names, header values and body are the joined data of the trace, in order. */
  lemma {:induction false} Collects(events: seq<Event>)
    ensures Collected(UpdateAll(FRESH, events), events)
  {
    if events == [] {
      assert FRESH.fields == Texts(Join(HeaderEvents([])), Field);
    } else {
      var front, e := events[..|events| - 1], events[|events| - 1];
      Collects(front);
      UpdateCollects(UpdateAll(FRESH, front), front, e);
      assert events == front + [e];
    }
    hide Update, Collected;
  }

  lemma HeaderEventsSnoc(events: seq<Event>, e: Event)
    ensures HeaderEvents(events + [e]) ==
            HeaderEvents(events) + if e.Data? && (e.kind.Field? || e.kind.Value?) then [e] else []
  {
    assert (events + [e])[..|events|] == events;
  }

  lemma BytesSnoc(events: seq<Event>, e: Event, k: DataKind)
    ensures Bytes(events + [e], k) == Bytes(events, k) + if e.Data? && e.kind == k then e.bytes else ""
  {
    assert (events + [e])[..|events|] == events;
  }

  lemma UpdateCollects(r: Message, events: seq<Event>, e: Event)
    requires Collected(r, events)
    ensures Collected(Update(r, e), events + [e])
  {
    hide Join, HeaderEvents, Bytes, Texts, Emit, SetHeadersComplete;
    var h := Join(HeaderEvents(events));
    HeaderEventsSnoc(events, e);
    BytesSnoc(events, e, Body);
    if e.Data? && (e.kind.Field? || e.kind.Value?) {
      JoinedSnoc(HeaderEvents(events), e);
      TextsEmit(h, e, Field);
      TextsEmit(h, e, Value);
      hide EndsWith, Glue;
    } else {
      CompleteKeeps(r);
      assert HeaderEvents(events) + [] == HeaderEvents(events);
    }
  }

  lemma JoinedSnoc(events: seq<Event>, e: Event)
    ensures Join(events + [e]) == Emit(Join(events), e)
  {
    JoinSnoc([], events, e);
  }

  lemma CompleteKeeps(r: Message)
    ensures r.Message? && SetHeadersComplete(r).Message? ==>
              SetHeadersComplete(r) == r.(expected := SetHeadersComplete(r).expected)
  {
    hide AtoiU32, FindName;
  }
}
