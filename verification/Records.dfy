/** The programs that write and read the record format. */
module Records {
  import opened ListSpec
  import opened Readings
  import opened Wire
  import ConnSpec

  /** The bytes on their way from a sensor node to the gateway. */
  class Channel {
    var bytes: seq<Byte>

    /** `tcp_send` of one field. */
    method Send(field: seq<Byte>)
      modifies this
      ensures bytes == old(bytes) + field
    {
      bytes := bytes + field;
    }

    /** `tcp_receive` of one field; None means that it still waits because the field has not arrived. */
    method Receive(size: nat) returns (field: Option<seq<Byte>>)
      modifies this
      ensures field.Some? <==> |old(bytes)| >= size
      ensures field.Some? ==> |field.value| == size && field.value + bytes == old(bytes)
      ensures field.None? ==> bytes == old(bytes)
    {
      if |bytes| < size {
        return None;
      }
      field, bytes := Some(bytes[..size]), bytes[size..];
    }
  }

  /** A sample: the value after line 93 and the time of line 94. */
  datatype Sample = Sample(value: Field, ts: Field)

  function RecordsOf(id: SensorId, samples: seq<Sample>): (rs: seq<Record>)
    ensures |rs| == |samples|
    ensures forall k :: 0 <= k < |rs| ==> rs[k] == Record(id, samples[k].value, samples[k].ts)
  {
    seq(|samples|, k requires 0 <= k < |samples| => Record(id, samples[k].value, samples[k].ts))
  }

  lemma RecordSent(all: seq<Record>, k: nat)
    requires k < |all|
    ensures EncodeAll(all[..k + 1]) == EncodeAll(all[..k]) + EncodeId(all[k].id) + all[k].value + all[k].ts
  {
    assert all[..k + 1] == all[..k] + [all[k]];
    EncodeAllSnoc(all[..k], all[k]);
  }

  lemma Regroup4<T>(a: seq<T>, b: seq<T>, c: seq<T>, d: seq<T>, e: seq<T>)
    ensures (a + b) + c + d + e == a + (b + c + d + e)
  {
  }

  /** The loop of `sensor_node.c` lines 91-106 with LOOPS > 1: one record per sample. */
  method SendLoop(client: Channel, id: SensorId, samples: seq<Sample>)
    modifies client
    ensures client.bytes == old(client.bytes) + EncodeAll(RecordsOf(id, samples))
  {
    hide EncodeAll, EncodeId;
    assert RecordsOf(id, samples)[..0] == [];
    NoRecord([]);
    var i := |samples|;
    while i != 0
      invariant 0 <= i <= |samples|
      invariant client.bytes == old(client.bytes) + EncodeAll(RecordsOf(id, samples)[..|samples| - i])
    {
      var data := samples[|samples| - i];
      client.Send(EncodeId(id));
      client.Send(data.value);
      client.Send(data.ts);
      RecordSent(RecordsOf(id, samples), |samples| - i);
      ghost var sent := EncodeAll(RecordsOf(id, samples)[..|samples| - i]);
      Regroup4(old(client.bytes), sent, EncodeId(id), data.value, data.ts);
      i := i - 1;
    }
    assert RecordsOf(id, samples)[..|samples|] == RecordsOf(id, samples);
  }

  /** Where the three receives of lines 115-120 of `connmgr.c` wait, and what they hold so far. */
  datatype Partial = AtId | AtValue(id: SensorId) | AtTs(id: SensorId, value: Field)

  function Held(p: Partial): (b: seq<Byte>)
    ensures |b| + Wanted(p) <= RECORD_SIZE
  {
    match p
    case AtId => []
    case AtValue(id) => EncodeId(id)
    case AtTs(id, value) => EncodeId(id) + value
  }

  /** The size of the field that is received next. */
  function Wanted(p: Partial): nat {
    if p.AtId? then ID_SIZE else FIELD_SIZE
  }

  /** One of the three receives: it waits if its field has not arrived, and the last one completes the
      record. */
  method ReceiveField(client: Channel, p: Partial) returns (p': Partial, r: Option<Record>, waits: bool)
    modifies client
    ensures waits <==> |old(client.bytes)| < Wanted(p)
    ensures waits ==> p' == p && r.None? && client.bytes == old(client.bytes)
    ensures !waits ==> |client.bytes| == |old(client.bytes)| - Wanted(p) && (r.Some? <==> p.AtTs?)
    ensures r.Some? ==> p' == AtId && Encode(r.value) + client.bytes == Held(p) + old(client.bytes)
    ensures r.None? ==> Held(p') + client.bytes == Held(p) + old(client.bytes)
  {
    p', r := p, None;
    var field := client.Receive(Wanted(p));
    waits := field.None?;
    if field.Some? {
      var bytes := field.value;
      match p {
        case AtId =>
          p' := AtValue(DecodeId(bytes));
          assert EncodeId(p'.id) == bytes;
        case AtValue(id) => p' := AtTs(id, bytes);
        case AtTs(id, value) => p', r := AtId, Some(Record(id, value, bytes));
      }
      Regroup(Held(p), bytes, client.bytes);
    }
  }

  /** Lines 115-120, from wherever they wait: they deliver a record exactly if the rest of it has arrived,
      and otherwise take the fields that have and wait for the next one. */
  method ReceiveRecord(client: Channel, p: Partial) returns (p': Partial, r: Option<Record>)
    modifies client
    ensures r.Some? <==> |Held(p)| + |old(client.bytes)| >= RECORD_SIZE
    ensures r.Some? ==> p' == AtId && Encode(r.value) + client.bytes == Held(p) + old(client.bytes)
    ensures r.None? ==> Held(p') + client.bytes == Held(p) + old(client.bytes) && |client.bytes| < Wanted(p')
  {
    p', r := p, None;
    var waits := false;
    while r.None? && !waits
      invariant waits ==> |client.bytes| < Wanted(p')
      invariant r.Some? ==> p' == AtId && Encode(r.value) + client.bytes == Held(p) + old(client.bytes)
      invariant r.None? ==> Held(p') + client.bytes == Held(p) + old(client.bytes)
      decreases |client.bytes|, !waits
    {
      p', r, waits := ReceiveField(client, p');
    }
    assert r.Some? ==> |Encode(r.value) + client.bytes| >= RECORD_SIZE;
    assert r.None? ==> |Held(p') + client.bytes| < RECORD_SIZE;
  }

  /** The gateway has received `rs` and holds `p`, and what is on its way completes the bytes `sent`. */
  ghost predicate InTransit(client: Channel, rs: seq<Record>, p: Partial, sent: seq<Byte>)
    reads client
  {
    EncodeAll(rs) + (Held(p) + client.bytes) == sent
  }

  /** What the gateway has at any time is the records that arrived completely, whatever it holds. */
  lemma ReceivedSoFar(client: Channel, rs: seq<Record>, p: Partial, all: seq<Record>)
    requires InTransit(client, rs, p, EncodeAll(all)) && |client.bytes| < Wanted(p)
    ensures rs == all && p == AtId && client.bytes == []
  {
    hide EncodeAll, DecodeAll, Rest;
    DecodeOfEncoded(rs, Held(p) + client.bytes);
    DecodeOfEncoded(all, []);
    assert EncodeAll(all) + [] == EncodeAll(all);
  }

  /** The receiving thread takes one more field, if it has arrived. */
  method Advance(client: Channel, p: Partial, rs: seq<Record>, ghost sent: seq<Byte>)
      returns (p': Partial, rs': seq<Record>, waits: bool)
    requires InTransit(client, rs, p, sent)
    modifies client
    ensures InTransit(client, rs', p', sent)
    ensures waits <==> |old(client.bytes)| < Wanted(p)
    ensures waits ==> p' == p && client.bytes == old(client.bytes)
    ensures !waits ==> |client.bytes| < |old(client.bytes)|
  {
    hide EncodeAll;
    var r;
    p', r, waits := ReceiveField(client, p);
    rs' := rs;
    if r.Some? {
      rs' := rs + [r.value];
      EncodeAllSnoc(rs, r.value);
      Regroup(EncodeAll(rs), Encode(r.value), client.bytes);
      assert Held(p') + client.bytes == client.bytes;
    }
  }

  /** The receiving thread gets to take up to `turns` fields. */
  method RunGateway(client: Channel, p: Partial, rs: seq<Record>, turns: nat, ghost sent: seq<Byte>)
      returns (p': Partial, rs': seq<Record>)
    requires InTransit(client, rs, p, sent)
    modifies client
    ensures InTransit(client, rs', p', sent)
  {
    p', rs' := p, rs;
    var k := 0;
    while k < turns
      invariant InTransit(client, rs', p', sent)
    {
      var waits;
      p', rs', waits := Advance(client, p', rs', sent);
      k := k + 1;
    }
  }

  /** The receiving thread runs until it waits for a field that has not arrived. */
  method RunUntilItWaits(client: Channel, p: Partial, rs: seq<Record>, ghost sent: seq<Byte>)
      returns (p': Partial, rs': seq<Record>)
    requires InTransit(client, rs, p, sent)
    modifies client
    ensures InTransit(client, rs', p', sent) && |client.bytes| < Wanted(p')
  {
    p', rs' := p, rs;
    var waits := false;
    while !waits
      invariant InTransit(client, rs', p', sent) && (waits ==> |client.bytes| < Wanted(p'))
      decreases |client.bytes|, !waits
    {
      p', rs', waits := Advance(client, p', rs', sent);
    }
  }

  /** One field is sent, and the gateway takes up to `turns` fields before the next one. */
  method SendField(client: Channel, field: seq<Byte>, turns: nat, p: Partial, rs: seq<Record>, ghost sent: seq<Byte>)
      returns (p': Partial, rs': seq<Record>)
    requires InTransit(client, rs, p, sent)
    modifies client
    ensures InTransit(client, rs', p', sent + field)
  {
    client.Send(field);
    Regroup(Held(p), old(client.bytes), field);
    Regroup(EncodeAll(rs), Held(p) + old(client.bytes), field);
    p', rs' := RunGateway(client, p, rs, turns, sent + field);
  }

  /** What the gateway receives is what the sensor node sent, however the two interleave: it takes up to
      `turns(j)` fields after the j-th one was sent, and may wait in the middle of a record. */
  method Transmit(client: Channel, id: SensorId, samples: seq<Sample>, turns: nat -> nat) returns (rs: seq<Record>)
    requires client.bytes == []
    modifies client
    ensures rs == RecordsOf(id, samples) && client.bytes == []
  {
    hide InTransit, EncodeAll, EncodeId;
    ghost var all := RecordsOf(id, samples);
    var p := AtId;
    rs := [];
    var k := 0;
    NothingSent(client, all);
    while k < |samples|
      invariant k <= |samples| && InTransit(client, rs, p, EncodeAll(all[..k]))
    {
      ghost var sent := EncodeAll(all[..k]);
      p, rs := SendField(client, EncodeId(id), turns(3 * k), p, rs, sent);
      p, rs := SendField(client, samples[k].value, turns(3 * k + 1), p, rs, sent + EncodeId(id));
      p, rs := SendField(client, samples[k].ts, turns(3 * k + 2), p, rs, sent + EncodeId(id) + samples[k].value);
      RecordSent(all, k);
      k := k + 1;
    }
    assert all[..k] == all;
    p, rs := RunUntilItWaits(client, p, rs, EncodeAll(all));
    ReceivedSoFar(client, rs, p, all);
  }

  lemma NothingSent(client: Channel, all: seq<Record>)
    requires client.bytes == []
    ensures InTransit(client, [], AtId, EncodeAll(all[..0]))
  {
  }

  // ---- From records to readings ----

  /** What the gateway reads from the bytes of a record; how a value and a timestamp lie in memory is
      arbitrary. */
  function ReadingOf(r: Record, valueOf: Field -> real, tsOf: Field -> int): Reading {
    Reading(r.id, valueOf(r.value), tsOf(r.ts))
  }

  function ReadingsOf(rs: seq<Record>, valueOf: Field -> real, tsOf: Field -> int): (readings: seq<Reading>)
    ensures |readings| == |rs|
    ensures forall k :: 0 <= k < |rs| ==> readings[k] == ReadingOf(rs[k], valueOf, tsOf)
  {
    seq(|rs|, k requires 0 <= k < |rs| => ReadingOf(rs[k], valueOf, tsOf))
  }

  /** The receives of a visit deliver this record. */
  predicate Carries(i: ConnSpec.Input, r: Record, valueOf: Field -> real, tsOf: Field -> int) {
    i.id == ConnSpec.Got(r.id) && i.value == ConnSpec.Got(valueOf(r.value)) && i.ts == ConnSpec.Got(tsOf(r.ts))
  }

  /** The receive parts of successive visits to one connection; between them, other visits may leave
      `data(k)` in the shared variable. */
  function Successive(conn: ConnSpec.Conn, data: nat -> Reading, ins: seq<ConnSpec.Input>, timeout: int):
      ConnSpec.Reception
  {
    if ins == [] then ConnSpec.Reception(conn, data(0), [])
    else
      var n := |ins| - 1;
      var before := Successive(conn, data, ins[..n], timeout);
      var r := ConnSpec.Receive(before.conn, data(n), ins[n], timeout);
      ConnSpec.Reception(r.conn, r.data, before.sent + r.sent)
  }

  /** Each visit finds data and is in time. */
  ghost predicate Timely(conn: ConnSpec.Conn, data: nat -> Reading, ins: seq<ConnSpec.Input>, timeout: int) {
    forall k :: 0 <= k < |ins| ==>
      ConnSpec.Readable(Successive(conn, data, ins[..k], timeout).conn, ins[k].nowGuard, timeout)
  }

  lemma TimelyBefore(conn: ConnSpec.Conn, data: nat -> Reading, ins: seq<ConnSpec.Input>, timeout: int)
    requires ins != [] && Timely(conn, data, ins, timeout)
    ensures Timely(conn, data, ins[..|ins| - 1], timeout)
    ensures ConnSpec.Readable(Successive(conn, data, ins[..|ins| - 1], timeout).conn, ins[|ins| - 1].nowGuard, timeout)
  {
    hide Successive;
    assert forall k :: 0 <= k < |ins| - 1 ==> ins[..|ins| - 1][..k] == ins[..k];
  }

  lemma ReceiveOfRecord(conn: ConnSpec.Conn, data: Reading, i: ConnSpec.Input, timeout: int, r: Record,
                        valueOf: Field -> real, tsOf: Field -> int)
    requires ConnSpec.Readable(conn, i.nowGuard, timeout) && Carries(i, r, valueOf, tsOf)
    ensures ConnSpec.Receive(conn, data, i, timeout).sent == [ReadingOf(r, valueOf, tsOf)]
  {
  }

  /** Records that arrive completely become exactly their readings in the buffer, in order, whatever other
      connections left in the shared variable. */
  lemma {:induction false} RecordsBecomeReadings(conn: ConnSpec.Conn, data: nat -> Reading, ins: seq<ConnSpec.Input>,
                                                 timeout: int, rs: seq<Record>, valueOf: Field -> real,
                                                 tsOf: Field -> int)
    requires |ins| == |rs| && Timely(conn, data, ins, timeout)
    requires forall k :: 0 <= k < |ins| ==> Carries(ins[k], rs[k], valueOf, tsOf)
    ensures Successive(conn, data, ins, timeout).sent == ReadingsOf(rs, valueOf, tsOf)
  {
    hide Timely, Carries, ConnSpec.Receive;
    if ins != [] {
      var n := |ins| - 1;
      var before := Successive(conn, data, ins[..n], timeout);
      TimelyBefore(conn, data, ins, timeout);
      RecordsBecomeReadings(conn, data, ins[..n], timeout, rs[..n], valueOf, tsOf);
      ReceiveOfRecord(before.conn, data(n), ins[n], timeout, rs[n], valueOf, tsOf);
      assert ReadingsOf(rs, valueOf, tsOf) == ReadingsOf(rs[..n], valueOf, tsOf) + [ReadingOf(rs[n], valueOf, tsOf)];
    }
  }

  /** `insert_sensor_from_file` (`sensor_db.c` lines 115-138).  `fread` of one item delivers it only
      if all its bytes are there.  `aborted` tells that an assertion of line 130 or 133 failed. */
  method InsertFromFile(file: seq<Byte>) returns (rows: seq<Record>, aborted: bool)
    ensures rows == DecodeAll(file)
    ensures aborted <==> |Rest(file)| >= ID_SIZE
  {
    rows, aborted := [], false;
    var bytes := file;
    while |bytes| >= ID_SIZE
      invariant EncodeAll(rows) + bytes == file && !aborted
      decreases |bytes|
    {
      ghost var earlier := rows;
      var id := bytes[..ID_SIZE];
      if |bytes| < ID_SIZE + FIELD_SIZE {
        aborted := true;
        break;
      }
      var value := bytes[ID_SIZE..ID_SIZE + FIELD_SIZE];
      if |bytes| < RECORD_SIZE {
        aborted := true;
        break;
      }
      var r := Record(DecodeId(id), value, bytes[ID_SIZE + FIELD_SIZE..RECORD_SIZE]);
      EncodeDecode(bytes[..RECORD_SIZE]);
      assert bytes[..RECORD_SIZE][..ID_SIZE] == id && r == Decode(bytes[..RECORD_SIZE]);
      bytes := bytes[RECORD_SIZE..];
      rows := rows + [r];
      assert rows[..|earlier|] == earlier;
      assert EncodeAll(rows) == EncodeAll(earlier) + Encode(r);
    }
    DecodeOfEncoded(rows, bytes);
  }

  /** The file loop delivers exactly the records `rs` without a failing assertion just for their
      encoding, possibly with one stray byte behind it. */
  lemma FileLoopAccepts(file: seq<Byte>, rs: seq<Record>)
    ensures DecodeAll(file) == rs && |Rest(file)| < ID_SIZE <==>
            exists stray: seq<Byte> :: |stray| < ID_SIZE && file == EncodeAll(rs) + stray
  {
    if DecodeAll(file) == rs && |Rest(file)| < ID_SIZE {
      EncodeOfDecoded(file);
      assert file == EncodeAll(rs) + Rest(file);
    }
    if stray: seq<Byte> :| |stray| < ID_SIZE && file == EncodeAll(rs) + stray {
      DecodeOfEncoded(rs, stray);
    }
  }
}
