/** Traces of callbacks in which the fragments of one piece of data are joined. */
module HttpTrace {
  import opened HttpTypes

  /** A callback is added to a trace; a fragment of the same kind as the last one joins it. */
  function Emit(trace: seq<Event>, e: Event): (r: seq<Event>)
    ensures r != []
  {
    if e.Data? && trace != [] && trace[|trace| - 1].Data? && trace[|trace| - 1].kind == e.kind
    then trace[..|trace| - 1] + [Data(e.kind, trace[|trace| - 1].bytes + e.bytes)]
    else trace + [e]
  }

  function JoinOnto(trace: seq<Event>, events: seq<Event>): seq<Event> {
    if events == [] then trace else Emit(JoinOnto(trace, events[..|events| - 1]), events[|events| - 1])
  }

  function Join(events: seq<Event>): seq<Event> { JoinOnto([], events) }

  lemma {:induction false} JoinConcat(t: seq<Event>, a: seq<Event>, b: seq<Event>)
    ensures JoinOnto(t, a + b) == JoinOnto(JoinOnto(t, a), b)
    decreases |b|
  {
    hide Emit;
    if b == [] {
      assert a + b == a;
    } else {
      assert (a + b)[..|a + b| - 1] == a + b[..|b| - 1];
      JoinConcat(t, a, b[..|b| - 1]);
    }
  }

  lemma JoinSnoc(t: seq<Event>, a: seq<Event>, e: Event)
    ensures JoinOnto(t, a + [e]) == Emit(JoinOnto(t, a), e)
  {
    hide Emit;
    assert (a + [e])[..|a|] == a;
  }

  /** A fragment may be cut anywhere. */
  lemma EmitSplit(t: seq<Event>, k: DataKind, a: string, b: string)
    ensures Emit(Emit(t, Data(k, a)), Data(k, b)) == Emit(t, Data(k, a + b))
  {
    var n := |t|;
    if n > 0 && t[n - 1].Data? && t[n - 1].kind == k {
      assert t[n - 1].bytes + a + b == t[n - 1].bytes + (a + b);
    }
  }

  lemma EmitEmpty(t: seq<Event>, k: DataKind, a: string)
    ensures Emit(Emit(t, Data(k, a)), Data(k, "")) == Emit(t, Data(k, a))
  {
    EmitSplit(t, k, a, "");
    assert a + "" == a;
  }
}
