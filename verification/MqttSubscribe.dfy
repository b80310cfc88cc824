/** The subscribe packet (MQTT 3.1.1, section 3.8): MQTTSubscribeClient.c writes it and
    MQTTSubscribeServer.c reads it. */
module MqttSubscribe {
  import opened HttpTypes
  import opened Buffers
  import opened MqttCodec
  import opened MqttFrame

  const SUBSCRIBE := 8

  /** A topic filter and the QoS that is asked for it. */
  datatype Entry = Entry(filter: seq<Byte>, qos: Byte)

  // ---------------------------------------------------------------- writing

  /** One filter with its QoS, of which writeChar keeps the low byte. */
  function EntryBytes(s: MqttString, qos: int): seq<Byte> { StringBytes(Bytes(s)) + [qos % 256] }

  /** The filters from number `i` on. */
  function EntriesBytes(topicFilters: seq<MqttString>, requestedQoSs: seq<int>, i: nat): seq<Byte>
    requires i <= |topicFilters| == |requestedQoSs|
    decreases |topicFilters| - i
  {
    if i == |topicFilters| then []
    else EntryBytes(topicFilters[i], requestedQoSs[i]) + EntriesBytes(topicFilters, requestedQoSs, i + 1)
  }

  predicate AllOneForm(topicFilters: seq<MqttString>) {
    forall i :: 0 <= i < |topicFilters| ==> OneForm(topicFilters[i])
  }

  function Body(packetid: nat, topicFilters: seq<MqttString>, requestedQoSs: seq<int>): seq<Byte>
    requires |topicFilters| == |requestedQoSs|
  {
    IntBytes(packetid) + EntriesBytes(topicFilters, requestedQoSs, 0)
  }

  /** The subscribe packet on the wire; its QoS bits are always 1. */
  function Packet(dup: Byte, packetid: nat, topicFilters: seq<MqttString>, requestedQoSs: seq<int>): seq<Byte>
    requires |topicFilters| == |requestedQoSs|
  {
    Frame(HeaderByte(SUBSCRIBE, dup, 1, 0), Body(packetid, topicFilters, requestedQoSs))
  }

  /** The first byte of every subscribe packet: type 8, and the reserved bits 0010 of section
      3.8.1 but for the dup flag, which this code sets as it is told. */
  lemma FirstByte(dup: Byte, packetid: nat, topicFilters: seq<MqttString>, requestedQoSs: seq<int>)
    requires |topicFilters| == |requestedQoSs|
    ensures var b := Packet(dup, packetid, topicFilters, requestedQoSs)[0];
            b == 0x82 + 8 * (dup % 2) && KindOf(b) == 8 && QosOf(b) == 1 && RetainedOf(b) == 0
  {
    HeaderReadBack(SUBSCRIBE, dup, 1, 0);
    FixedBits(dup);
    hide Encoded, Body, HeaderByte, KindOf, QosOf, RetainedOf;
  }

  /** The example of section 3.8.3: the filters a/b with QoS 1 and c/d with QoS 2, and packet id 10. */
  lemma Example()
    ensures Packet(0, 10, [MqttString(Some([0x61, 0x2F, 0x62]), None), MqttString(Some([0x63, 0x2F, 0x64]), None)],
                   [1, 2]) ==
            [0x82, 14, 0, 10, 0, 3, 0x61, 0x2F, 0x62, 1, 0, 3, 0x63, 0x2F, 0x64, 2]
  {
    var a, b := MqttString(Some([0x61, 0x2F, 0x62]), None), MqttString(Some([0x63, 0x2F, 0x64]), None);
    FixedBits(0);
    assert IntBytes(3) == [0, 3] && IntBytes(10) == [0, 10] && Encoded(14) == [14];
    assert EntryBytes(a, 1) == [0, 3, 0x61, 0x2F, 0x62, 1] && EntryBytes(b, 2) == [0, 3, 0x63, 0x2F, 0x64, 2];
    hide EntryBytes, IntBytes, Encoded, HeaderByte;
    assert EntriesBytes([a, b], [1, 2], 2) == [];
    assert EntriesBytes([a, b], [1, 2], 1) == EntryBytes(b, 2) + [];
    assert EntriesBytes([a, b], [1, 2], 0) == EntryBytes(a, 1) + EntriesBytes([a, b], [1, 2], 1);
  }

  lemma FixedBits(dup: Byte)
    ensures HeaderByte(SUBSCRIBE, dup, 1, 0) == 0x82 + 8 * (dup % 2)
  {
  }

  /** MQTTSerialize_subscribeLength: exactly the bytes that follow the fixed header. */
  method SubscribeLength(topicFilters: seq<MqttString>, ghost requestedQoSs: seq<int>) returns (len: nat)
    requires |topicFilters| == |requestedQoSs| && AllOneForm(topicFilters)
    ensures len == |Body(0, topicFilters, requestedQoSs)|
  {
    hide Strlen, Bytes;
    len := 2;
    for i := 0 to |topicFilters|
      invariant len + |EntriesBytes(topicFilters, requestedQoSs, i)| ==
                2 + |EntriesBytes(topicFilters, requestedQoSs, 0)|
    {
      StrlenIsLength(topicFilters[i]);
      len := len + 2 + Strlen(topicFilters[i]) + 1;
    }
  }

  /** MQTTSerialize_subscribe */
  method Serialize(buf: array<Byte>, buflen: nat, dup: Byte, packetid: nat, topicFilters: seq<MqttString>,
                   requestedQoSs: seq<int>)
    returns (rc: int)
    requires buflen <= buf.Length && |topicFilters| == |requestedQoSs| && AllOneForm(topicFilters)
    requires |Body(packetid, topicFilters, requestedQoSs)| <= MAX_REMAINING_LENGTH
    modifies buf
    ensures var p := Packet(dup, packetid, topicFilters, requestedQoSs);
            var needed := PacketLen(|Body(packetid, topicFilters, requestedQoSs)|);
            if needed > buflen then rc == -2 && buf[..] == old(buf[..])
            else rc == |p| <= needed && buf[..] == Put(old(buf[..]), 0, p)
  {
    hide Put, Encoded, Bytes, PacketLen, EntriesBytes;
    ghost var body := Body(packetid, topicFilters, requestedQoSs);
    var len := SubscribeLength(topicFilters, requestedQoSs);
    assert len == |body|;
    if PacketLen(len) > buflen { return BUFFER_TOO_SHORT; }
    PacketLenExact(len);
    ghost var b := buf[..];
    var header := HeaderByte(SUBSCRIBE, dup, 1, 0);
    var ptr := WriteHead(buf, header, len);
    ptr := WriteInt(buf, ptr, packetid);
    PutTwice(b, 0, [header] + Encoded(len), IntBytes(packetid));
    ptr := WriteEntries(buf, ptr, topicFilters, requestedQoSs);
    PutTwice(b, 0, [header] + Encoded(len) + IntBytes(packetid), EntriesBytes(topicFilters, requestedQoSs, 0));
    assert [header] + Encoded(len) + IntBytes(packetid) + EntriesBytes(topicFilters, requestedQoSs, 0) ==
           [header] + Encoded(len) + body;
    rc := ptr;
  }

  method WriteEntries(buf: array<Byte>, at: nat, topicFilters: seq<MqttString>, requestedQoSs: seq<int>)
    returns (ptr: nat)
    requires |topicFilters| == |requestedQoSs| && at + |EntriesBytes(topicFilters, requestedQoSs, 0)| <= buf.Length
    modifies buf
    ensures ptr == at + |EntriesBytes(topicFilters, requestedQoSs, 0)|
    ensures buf[..] == Put(old(buf[..]), at, EntriesBytes(topicFilters, requestedQoSs, 0))
  {
    hide Put, Bytes, StringBytes;
    ptr := at;
    ghost var b := buf[..];
    ghost var done: seq<Byte> := [];
    PutNothing(b, at);
    for i := 0 to |topicFilters|
      invariant EntriesBytes(topicFilters, requestedQoSs, 0) == done + EntriesBytes(topicFilters, requestedQoSs, i)
      invariant ptr == at + |done| && buf[..] == Put(b, at, done)
    {
      ghost var t := StringBytes(Bytes(topicFilters[i]));
      StringLength(Bytes(topicFilters[i]));
      ptr := WriteString(buf, ptr, topicFilters[i]);
      PutTwice(b, at, done, t);
      var c := requestedQoSs[i] % 256;
      ptr := WriteByte(buf, ptr, c);
      PutTwice(b, at, done + t, [c]);
      Regroup(done, t, [c], EntriesBytes(topicFilters, requestedQoSs, i + 1));
      done := done + t + [c];
    }
    assert done + [] == done;
  }

  // ---------------------------------------------------------------- reading

  /** The entries that are read before the data end or run short. */
  datatype Entries = Entries(complete: bool, list: seq<Entry>)

  function ReadEntries(s: seq<Byte>, avail: int): Entries
    requires avail <= |s|
    decreases |s|
  {
    if avail <= 0 then Entries(true, [])
    else
      var t := StringAt(s, avail);
      if t.None? || 2 + |t.value| >= avail then Entries(false, [])
      else
        var n := 2 + |t.value|;
        var more := ReadEntries(s[n + 1..], avail - n - 1);
        Entries(more.complete, [Entry(t.value, s[n])] + more.list)
  }

  /** What MQTTDeserialize_subscribe does. `Overread` stands for a read behind the buffer. */
  datatype Reading = Overread | WrongType | Reading(rc: nat, dup: Byte, packetid: nat, entries: Entries)

  function ReadSubscribe(buf: seq<Byte>): Reading {
    if buf == [] then Overread
    else if KindOf(buf[0]) != SUBSCRIBE then WrongType
    else
      var u := Unframe(buf);
      if u.Runs? || u.cur + 2 > |buf| then Overread
      else
        var e := ReadEntries(buf[u.cur + 2..], u.enddata - u.cur - 2);
        Reading(if e.complete then 1 else u.rc, DupOf(buf[0]), IntAt(buf[u.cur..]), e)
  }

  /** The list that was put in. */
  function Listed(topicFilters: seq<MqttString>, requestedQoSs: seq<int>, i: nat): seq<Entry>
    requires i <= |topicFilters| == |requestedQoSs|
    decreases |topicFilters| - i
  {
    if i == |topicFilters| then []
    else [Entry(Bytes(topicFilters[i]), requestedQoSs[i] % 256)] + Listed(topicFilters, requestedQoSs, i + 1)
  }

  predicate AllShort(topicFilters: seq<MqttString>) {
    forall i :: 0 <= i < |topicFilters| ==> |Bytes(topicFilters[i])| <= 65535
  }

  /** One entry that was written, and what follows it. */
  lemma EntryStep(b: seq<Byte>, q: Byte, z: seq<Byte>, rest: seq<Byte>)
    requires |b| <= 65535
    ensures var more := ReadEntries(z + rest, |z|);
            ReadEntries(StringBytes(b) + [q] + z + rest, 3 + |b| + |z|) ==
            Entries(more.complete, [Entry(b, q)] + more.list)
  {
    var s := StringBytes(b) + ([q] + z + rest);
    StringReadBack(b, [q] + z + rest, 3 + |b| + |z|);
    StringLength(b);
    hide StringAt, StringBytes;
    assert StringBytes(b) + [q] + z + rest == s;
    assert s[2 + |b|] == s[2 + |b|..][0] == q;
    assert s[2 + |b| + 1..] == s[2 + |b|..][1..] == z + rest;
  }

  lemma {:induction false} EntriesReadBack(topicFilters: seq<MqttString>, requestedQoSs: seq<int>, i: nat,
                                           rest: seq<Byte>)
    requires i <= |topicFilters| == |requestedQoSs| && AllShort(topicFilters)
    ensures var t := EntriesBytes(topicFilters, requestedQoSs, i);
            ReadEntries(t + rest, |t|) == Entries(true, Listed(topicFilters, requestedQoSs, i))
    decreases |topicFilters| - i
  {
    hide Bytes, StringAt, StringBytes;
    if i < |topicFilters| {
      EntriesReadBack(topicFilters, requestedQoSs, i + 1, rest);
      var b := Bytes(topicFilters[i]);
      StringLength(b);
      EntryStep(b, requestedQoSs[i] % 256, EntriesBytes(topicFilters, requestedQoSs, i + 1), rest);
    }
  }

  /** Whatever list of filters is subscribed to, the packet gives back the flag, the packet
      id, and the filters with the low byte of their QoS, in order, whatever follows it. */
  lemma SubscribeReadBack(dup: Byte, packetid: nat, topicFilters: seq<MqttString>, requestedQoSs: seq<int>,
                          rest: seq<Byte>)
    requires packetid <= 65535 && |topicFilters| == |requestedQoSs| && AllShort(topicFilters)
    requires |Body(packetid, topicFilters, requestedQoSs)| <= MAX_REMAINING_LENGTH
    ensures ReadSubscribe(Packet(dup, packetid, topicFilters, requestedQoSs) + rest) ==
            Reading(1, dup % 2, packetid, Entries(true, Listed(topicFilters, requestedQoSs, 0)))
  {
    hide Bytes, Encoded, Unframe, EntriesBytes, Listed, ReadEntries, AllShort, IntBytes, IntAt, HeaderByte, KindOf,
      DupOf, Frame;
    var header := HeaderByte(SUBSCRIBE, dup, 1, 0);
    var t := EntriesBytes(topicFilters, requestedQoSs, 0);
    var body := IntBytes(packetid) + t;
    var s := Packet(dup, packetid, topicFilters, requestedQoSs) + rest;
    HeaderReadBack(SUBSCRIBE, dup, 1, 0);
    UnframeFrame(header, body, rest);
    var cur := 1 + |Encoded(|body|)|;
    IntReadBack(packetid, t + rest);
    assert body + rest == IntBytes(packetid) + (t + rest);
    assert s[cur + 2..] == s[cur..][2..] == t + rest;
    EntriesReadBack(topicFilters, requestedQoSs, 0, rest);
  }

  lemma {:induction false} ListedAt(topicFilters: seq<MqttString>, requestedQoSs: seq<int>, i: nat, k: nat)
    requires i <= k < |topicFilters| == |requestedQoSs|
    ensures var l := Listed(topicFilters, requestedQoSs, i);
            |l| == |topicFilters| - i && l[k - i].filter == Bytes(topicFilters[k]) &&
            (0 <= requestedQoSs[k] < 256 ==> l[k - i].qos == requestedQoSs[k])
    decreases |topicFilters| - i
  {
    hide Bytes;
    if i + 1 < |topicFilters| { ListedAt(topicFilters, requestedQoSs, i + 1, if i < k then k else i + 1); }
  }

  // ---------------------------------------------------------------- the deserializer as it is written

  /** The first entries of the arrays. */
  predicate Stores(list: seq<Entry>, topicFilters: seq<MqttString>, requestedQoSs: seq<int>) {
    |list| <= |topicFilters| && |list| <= |requestedQoSs| &&
    forall i :: 0 <= i < |list| ==> topicFilters[i] == MqttCodec.Read(list[i].filter) && requestedQoSs[i] == list[i].qos
  }

  lemma StoresMore(list: seq<Entry>, e: Entry, topicFilters: seq<MqttString>, requestedQoSs: seq<int>)
    requires Stores(list, topicFilters, requestedQoSs) && |list| < |topicFilters| && |list| < |requestedQoSs|
    ensures Stores(list + [e], topicFilters[|list| := MqttCodec.Read(e.filter)], requestedQoSs[|list| := e.qos])
  {
  }

  /** One more entry. */
  lemma EntriesStep(buf: seq<Byte>, cur: nat, enddata: nat, filter: seq<Byte>)
    requires cur < enddata <= |buf| && StringAt(buf[cur..], enddata - cur) == Some(filter) &&
             cur + 2 + |filter| < enddata
    ensures var n := cur + 2 + |filter|;
            var more := ReadEntries(buf[n + 1..], enddata - n - 1);
            ReadEntries(buf[cur..], enddata - cur) == Entries(more.complete, [Entry(filter, buf[n])] + more.list)
  {
    hide StringAt;
    var n := 2 + |filter|;
    assert buf[cur..][n + 1..] == buf[cur + n + 1..] && buf[cur..][n] == buf[cur + n];
  }

  /** The arrays hold what is read, with room for an entry that is not. */
  predicate Room(e: Entries, n: nat) { |e.list| < n || (e.complete && |e.list| == n) }

  /** The loop over the entries. */
  method TakeEntries(buf: seq<Byte>, cur: nat, enddata: nat, topicFilters: array<MqttString>, requestedQoSs: array<int>)
    returns (ok: bool, count: nat)
    requires cur <= |buf| && enddata <= |buf|
    requires Room(ReadEntries(buf[cur..], enddata - cur), topicFilters.Length) &&
             topicFilters.Length <= requestedQoSs.Length
    modifies topicFilters, requestedQoSs
    ensures var e := ReadEntries(buf[cur..], enddata - cur);
            ok == e.complete && count == |e.list| && Stores(e.list, topicFilters[..], requestedQoSs[..])
  {
    hide StringAt, Stores, ReadEntries;
    ok, count := false, 0;
    ghost var e := ReadEntries(buf[cur..], enddata - cur);
    ghost var done: seq<Entry> := [];
    var curdata := cur;
    assert Stores(done, topicFilters[..], requestedQoSs[..]) by { NothingStored(topicFilters[..], requestedQoSs[..]); }
    while curdata < enddata
      invariant curdata <= |buf| && count == |done|
      invariant var more := ReadEntries(buf[curdata..], enddata - curdata);
                more.complete == e.complete &&
                e.list == done + more.list
      invariant Stores(done, topicFilters[..], requestedQoSs[..])
    {
      EntriesEnd(buf[curdata..], enddata - curdata);
      var some, next, filter := ReadString(buf, curdata, enddata);
      if some == 0 || next >= enddata {
        if some == 1 {
          StoresOver(done, MqttCodec.Read(filter), topicFilters[..], requestedQoSs[..]);
          topicFilters[count] := MqttCodec.Read(filter);
        }
        assert done + [] == done;
        return;
      }
      EntriesStep(buf, curdata, enddata, filter);
      var q := buf[next];
      StoresMore(done, Entry(filter, q), topicFilters[..], requestedQoSs[..]);
      topicFilters[count] := MqttCodec.Read(filter);
      requestedQoSs[count] := q;
      done := done + [Entry(filter, q)];
      count := count + 1;
      curdata := next + 1;
    }
    EntriesEnd(buf[curdata..], enddata - curdata);
    assert done + [] == done;
    ok := true;
  }

  lemma NothingStored(topicFilters: seq<MqttString>, requestedQoSs: seq<int>)
    ensures Stores([], topicFilters, requestedQoSs)
  {
  }

  lemma StoresOver(list: seq<Entry>, s: MqttString, topicFilters: seq<MqttString>, requestedQoSs: seq<int>)
    requires Stores(list, topicFilters, requestedQoSs) && |list| < |topicFilters|
    ensures Stores(list, topicFilters[|list| := s], requestedQoSs)
  {
  }

  /** Where reading stops. */
  lemma EntriesEnd(s: seq<Byte>, avail: int)
    requires avail <= |s|
    ensures avail <= 0 ==> ReadEntries(s, avail) == Entries(true, [])
    ensures avail > 0 && (StringAt(s, avail).None? || 2 + |StringAt(s, avail).value| >= avail) ==>
              ReadEntries(s, avail) == Entries(false, [])
  {
  }

  /** MQTTDeserialize_subscribe. It does not look at the size of the arrays, so the caller
      must make them large enough: the filter of an entry without QoS is stored too. */
  method Deserialize(buf: seq<Byte>, topicFilters: array<MqttString>, requestedQoSs: array<int>)
    returns (rc: int, dup: Byte, packetid: nat, count: nat)
    requires var r := ReadSubscribe(buf); !r.Overread? && (r.Reading? ==> Room(r.entries, topicFilters.Length))
    requires topicFilters.Length <= requestedQoSs.Length
    modifies topicFilters, requestedQoSs
    ensures var r := ReadSubscribe(buf);
            if r.WrongType? then rc == -1
            else rc == r.rc && dup == r.dup && packetid == r.packetid && count == |r.entries.list| &&
                 Stores(r.entries.list, topicFilters[..], requestedQoSs[..])
  {
    hide StringAt, Unframe, Room, ReadEntries, Stores;
    rc, dup, packetid, count := -1, 0, 0, 0;
    if KindOf(buf[0]) != SUBSCRIBE { return; }
    dup := DupOf(buf[0]);
    var n, cur, enddata := ReadHead(buf);
    packetid := 256 * (buf[cur] as int) + (buf[cur + 1] as int);
    var ok;
    ok, count := TakeEntries(buf, cur + 2, enddata, topicFilters, requestedQoSs);
    rc := if ok then 1 else n;
  }

  /** A packet of which an entry runs short is reported as a success exactly when its remaining
      length takes one byte: the return code is then still the result of the length decoder. */
  lemma SuccessMeans(buf: seq<Byte>)
    requires ReadSubscribe(buf).Reading?
    ensures var r := ReadSubscribe(buf); r.rc == 1 <==> r.entries.complete || buf[1] < 128
  {
    hide ReadEntries, StringAt, Decode;
    OneByteLength(buf);
  }

  lemma ShortPacketAccepted()
    ensures ReadSubscribe([0x82, 5, 0, 1, 0, 9, 0x78]) == Reading(1, 0, 1, Entries(false, []))
  {
    var buf: seq<Byte> := [0x82, 5, 0, 1, 0, 9, 0x78];
    assert buf[1..][0] == 5;
    assert Decode(buf[1..]) == Decoded(1, 5, 1);
    assert buf[4..] == [0, 9, 0x78];
    assert StringAt([0, 9, 0x78], 3) == None;
  }
}
