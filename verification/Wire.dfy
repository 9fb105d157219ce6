/** The record format on the connection and in the data file: sensor id, value, timestamp, one after
    the other, as they lie in memory (`sensor_node.c` lines 95-102).  Values and timestamps are
    8-byte fields whose content does not matter here. */
module Wire {
  import opened ListSpec
  import opened Readings

  type Byte = x: int | 0 <= x < 0x100

  type Field = s: seq<Byte> | |s| == 8 witness [0, 0, 0, 0, 0, 0, 0, 0]

  const ID_SIZE := 2
  const FIELD_SIZE := 8
  const RECORD_SIZE := 18

  datatype Record = Record(id: SensorId, value: Field, ts: Field)

  /** `uint16_t`, low byte first. */
  function EncodeId(id: SensorId): (b: seq<Byte>)
    ensures |b| == ID_SIZE
  {
    [id % 0x100, id / 0x100]
  }

  function DecodeId(b: seq<Byte>): SensorId
    requires |b| == ID_SIZE
  {
    var low: int, high: int := b[0], b[1];
    low + 0x100 * high
  }

  function Encode(r: Record): (b: seq<Byte>)
    ensures |b| == RECORD_SIZE
  {
    EncodeId(r.id) + r.value + r.ts
  }

  function Decode(b: seq<Byte>): Record
    requires |b| == RECORD_SIZE
  {
    Record(DecodeId(b[..2]), b[2..10], b[10..])
  }

  function EncodeAll(rs: seq<Record>): (b: seq<Byte>)
    ensures |b| == RECORD_SIZE * |rs|
  {
    if rs == [] then [] else EncodeAll(rs[..|rs| - 1]) + Encode(rs[|rs| - 1])
  }

  /** How a record lies on the wire: two bytes of id, low byte first, then value, then timestamp. */
  lemma Layout(r: Record)
    ensures var b := Encode(r);
      && |b| == 18 && b[0] == r.id % 256 && b[1] == r.id / 256
      && b[2..10] == r.value && b[10..18] == r.ts
  {
  }

  lemma DecodeEncode(r: Record)
    ensures Decode(Encode(r)) == r
  {
    var b := Encode(r);
    assert b[..2] == EncodeId(r.id) && b[2..10] == r.value && b[10..] == r.ts;
  }

  lemma EncodeDecode(b: seq<Byte>)
    requires |b| == RECORD_SIZE
    ensures Encode(Decode(b)) == b
  {
    assert EncodeId(DecodeId(b[..2])) == b[..2];
    assert b == b[..2] + b[2..10] + b[10..];
  }

  /** The whole records at the front of a byte sequence. */
  function DecodeAll(b: seq<Byte>): (rs: seq<Record>)
    ensures |rs| == |b| / RECORD_SIZE
  {
    if |b| < RECORD_SIZE then [] else [Decode(b[..RECORD_SIZE])] + DecodeAll(b[RECORD_SIZE..])
  }

  /** The bytes behind the last whole record. */
  function Rest(b: seq<Byte>): (r: seq<Byte>)
    ensures |r| == |b| % RECORD_SIZE
  {
    b[RECORD_SIZE * (|b| / RECORD_SIZE)..]
  }

  lemma EncodeAllSnoc(rs: seq<Record>, r: Record)
    ensures EncodeAll(rs + [r]) == EncodeAll(rs) + Encode(r)
  {
    assert (rs + [r])[..|rs|] == rs;
  }

  lemma {:induction false} EncodeAllCons(r: Record, rs: seq<Record>)
    ensures EncodeAll([r] + rs) == Encode(r) + EncodeAll(rs)
  {
    if rs == [] {
      assert [r] + rs == [r] && [r][..0] == [];
    } else {
      var before, last := rs[..|rs| - 1], rs[|rs| - 1];
      EncodeAllCons(r, before);
      EncodeAllSnoc([r] + before, last);
      EncodeAllSnoc(before, last);
      assert [r] + rs == ([r] + before) + [last] && rs == before + [last];
      Regroup(Encode(r), EncodeAll(before), Encode(last));
    }
  }

  lemma DecodeAllFirst(b: seq<Byte>)
    requires |b| >= RECORD_SIZE
    ensures DecodeAll(b) == [Decode(b[..RECORD_SIZE])] + DecodeAll(b[RECORD_SIZE..])
    ensures Rest(b) == Rest(b[RECORD_SIZE..])
    ensures b == b[..RECORD_SIZE] + b[RECORD_SIZE..]
  {
    hide Decode, Rest;
    RestFirst(b);
  }

  lemma RestFirst(b: seq<Byte>)
    requires |b| >= RECORD_SIZE
    ensures Rest(b) == Rest(b[RECORD_SIZE..])
  {
    var q := |b| / RECORD_SIZE;
    assert |b[RECORD_SIZE..]| / RECORD_SIZE == q - 1;
    DropTwice(b, RECORD_SIZE, RECORD_SIZE * (q - 1));
  }

  lemma DropTwice<T>(s: seq<T>, m: nat, n: nat)
    requires m + n <= |s|
    ensures s[m..][n..] == s[m + n..]
  {
  }

  lemma NoRecord(b: seq<Byte>)
    requires |b| < RECORD_SIZE
    ensures DecodeAll(b) == [] && Rest(b) == b && EncodeAll([]) == []
  {
  }

  lemma {:induction false} EncodeAllConcat(rs: seq<Record>, more: seq<Record>)
    ensures EncodeAll(rs + more) == EncodeAll(rs) + EncodeAll(more)
  {
    hide EncodeAll, Encode;
    if more == [] {
      assert rs + more == rs;
      NoRecord([]);
      assert EncodeAll(rs) + [] == EncodeAll(rs);
    } else {
      var before, last := more[..|more| - 1], more[|more| - 1];
      EncodeAllConcat(rs, before);
      EncodeAllSnoc(rs + before, last);
      EncodeAllSnoc(before, last);
      assert rs + more == (rs + before) + [last] && more == before + [last];
      Regroup(EncodeAll(rs), EncodeAll(before), Encode(last));
    }
  }

  /** Every byte sequence is the encoding of what it decodes to, followed by its rest. */
  lemma {:induction false} EncodeOfDecoded(b: seq<Byte>)
    ensures EncodeAll(DecodeAll(b)) + Rest(b) == b
  {
    if |b| >= RECORD_SIZE {
      var front, behind := b[..RECORD_SIZE], b[RECORD_SIZE..];
      hide *;
      EncodeOfDecoded(behind);
      EncodeDecode(front);
      DecodeAllFirst(b);
      EncodeAllCons(Decode(front), DecodeAll(behind));
      Regroup(front, EncodeAll(DecodeAll(behind)), Rest(behind));
    } else {
      NoRecord(b);
    }
  }

  /** Encoded records decode to the same records, whatever incomplete record follows. */
  lemma {:induction false} DecodeOfEncoded(rs: seq<Record>, rest: seq<Byte>)
    requires |rest| < RECORD_SIZE
    ensures DecodeAll(EncodeAll(rs) + rest) == rs && Rest(EncodeAll(rs) + rest) == rest
    decreases |rs|
  {
    var b := EncodeAll(rs) + rest;
    assert |b| / RECORD_SIZE == |rs|;
    if rs != [] {
      assert rs == [rs[0]] + rs[1..];
      EncodeAllCons(rs[0], rs[1..]);
      DecodeOfEncoded(rs[1..], rest);
      DecodeEncode(rs[0]);
      assert b[..RECORD_SIZE] == Encode(rs[0]) && b[RECORD_SIZE..] == EncodeAll(rs[1..]) + rest;
    }
  }

  /** However much of a stream of records has arrived, it decodes to the records that are complete. */
  lemma DecodeOfPrefix(rs: seq<Record>, n: nat)
    requires n <= |EncodeAll(rs)|
    ensures n / RECORD_SIZE <= |rs| && DecodeAll(EncodeAll(rs)[..n]) == rs[..n / RECORD_SIZE]
  {
    hide EncodeAll, DecodeAll, Rest;
    var k := n / RECORD_SIZE;
    var b := EncodeAll(rs);
    assert k <= |rs|;
    EncodeAllConcat(rs[..k], rs[k..]);
    assert rs == rs[..k] + rs[k..];
    assert b[..n] == EncodeAll(rs[..k]) + b[RECORD_SIZE * k..n];
    DecodeOfEncoded(rs[..k], b[RECORD_SIZE * k..n]);
  }
}
