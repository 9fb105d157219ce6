/** The list of sensor nodes that `datamgr.c` keeps, as a sequence: which node a reading reaches, and
    what a run of readings does to every node. */
module SensorMap {
  import opened ListSpec
  import opened Ordering
  import opened Readings
  import opened Window

  /** `compare_sensor`.  Repair: lines 191-193 compare the sensor ids, not the pointers. */
  function ById(x: SensorNode, y: SensorNode): int {
    if x.sensor.id == y.sensor.id then 0 else -1
  }

  /** The index of line 56.  Repair: the key is a node carrying the id, as in lines 125-127. */
  function Find(nodes: seq<SensorNode>, id: SensorId): (i: int)
    ensures -1 <= i < |nodes|
    ensures 0 <= i ==> nodes[i].sensor.id == id && forall j :: 0 <= j < i ==> nodes[j].sensor.id != id
    ensures i == -1 <==> forall j :: 0 <= j < |nodes| ==> nodes[j].sensor.id != id
  {
    IndexOf(ById, nodes, NewNode(0, id))
  }

  predicate Mapped(nodes: seq<SensorNode>, id: SensorId) {
    Find(nodes, id) != -1
  }

  ghost predicate AllWellFormed(nodes: seq<SensorNode>) {
    forall i :: 0 <= i < |nodes| ==> WellFormed(nodes[i])
  }

  lemma WellFormedInsert(nodes: seq<SensorNode>, k: nat, node: SensorNode)
    requires k <= |nodes| && AllWellFormed(nodes) && WellFormed(node)
    ensures AllWellFormed(InsertAt(nodes, k, node))
  {
  }

  /** The list after one reading (lines 56-96). */
  function Consume(nodes: seq<SensorNode>, r: Reading): (nodes': seq<SensorNode>)
    requires AllWellFormed(nodes)
    ensures |nodes'| == |nodes| && AllWellFormed(nodes')
    ensures forall i :: 0 <= i < |nodes| ==>
      nodes'[i].sensor.id == nodes[i].sensor.id && nodes'[i].roomId == nodes[i].roomId
  {
    var i := Find(nodes, r.id);
    if i == -1 then nodes else nodes[i := Step(nodes[i], r)]
  }

  function ConsumeAll(nodes: seq<SensorNode>, rs: seq<Reading>): (nodes': seq<SensorNode>)
    requires AllWellFormed(nodes)
    ensures |nodes'| == |nodes| && AllWellFormed(nodes')
    ensures forall i :: 0 <= i < |nodes| ==>
      nodes'[i].sensor.id == nodes[i].sensor.id && nodes'[i].roomId == nodes[i].roomId
  {
    if rs == [] then nodes else Consume(ConsumeAll(nodes, rs[..|rs| - 1]), rs[|rs| - 1])
  }

  lemma ConsumeSnoc(nodes: seq<SensorNode>, rs: seq<Reading>, r: Reading)
    requires AllWellFormed(nodes)
    ensures ConsumeAll(nodes, rs + [r]) == Consume(ConsumeAll(nodes, rs), r)
  {
    assert (rs + [r])[..|rs|] == rs;
  }

  /** The map is fixed: readings never change which node an id denotes. */
  lemma FindIsStable(nodes: seq<SensorNode>, rs: seq<Reading>, id: SensorId)
    requires AllWellFormed(nodes)
    ensures Find(ConsumeAll(nodes, rs), id) == Find(nodes, id)
  {
  }

  /** The node at index `i` is the one that readings with its id reach. */
  predicate Reached(nodes: seq<SensorNode>, i: nat)
    requires i < |nodes|
  {
    Find(nodes, nodes[i].sensor.id) == i
  }

  /** Isolation: every node is the result of the readings carrying its id and of nothing else.  A
      node behind an earlier one with the same id never changes. */
  lemma {:induction false} Isolation(nodes: seq<SensorNode>, rs: seq<Reading>, i: nat)
    requires AllWellFormed(nodes) && i < |nodes|
    ensures ConsumeAll(nodes, rs)[i] ==
            if Reached(nodes, i) then StepAll(nodes[i], OfSensor(rs, nodes[i].sensor.id)) else nodes[i]
  {
    if rs != [] {
      var before, r := rs[..|rs| - 1], rs[|rs| - 1];
      var own := OfSensor(before, nodes[i].sensor.id);
      Isolation(nodes, before, i);
      FindIsStable(nodes, before, r.id);
      assert (own + [r])[..|own|] == own;
    }
  }

  lemma {:induction false} OfSensorIdempotent(rs: seq<Reading>, id: SensorId)
    ensures OfSensor(OfSensor(rs, id), id) == OfSensor(rs, id)
  {
    if rs != [] {
      var before, r := OfSensor(rs[..|rs| - 1], id), rs[|rs| - 1];
      OfSensorIdempotent(rs[..|rs| - 1], id);
      assert (before + [r])[..|before|] == before;
    }
  }

  /** Each node is unaffected by deleting all readings of other sensors from the run. */
  lemma OtherReadingsDoNotMatter(nodes: seq<SensorNode>, rs: seq<Reading>, i: nat)
    requires AllWellFormed(nodes) && i < |nodes|
    ensures ConsumeAll(nodes, rs)[i] == ConsumeAll(nodes, OfSensor(rs, nodes[i].sensor.id))[i]
  {
    Isolation(nodes, rs, i);
    Isolation(nodes, OfSensor(rs, nodes[i].sensor.id), i);
    OfSensorIdempotent(rs, nodes[i].sensor.id);
  }

  /** A run of readings with unmapped ids changes no node. */
  lemma {:induction false} UnmappedReadingsChangeNothing(nodes: seq<SensorNode>, rs: seq<Reading>)
    requires AllWellFormed(nodes) && forall r :: r in rs ==> !Mapped(nodes, r.id)
    ensures ConsumeAll(nodes, rs) == nodes
  {
    if rs != [] {
      UnmappedReadingsChangeNothing(nodes, rs[..|rs| - 1]);
    }
  }

  /** The message about one reading; unmapped ids raise none. */
  function AlarmOf(nodes: seq<SensorNode>, r: Reading, minTemp: real, maxTemp: real): Alarm
    requires AllWellFormed(nodes)
  {
    var i := Find(nodes, r.id);
    if i == -1 then Silent else StepAlarm(nodes[i], r, minTemp, maxTemp)
  }

  // ---- Lookups by the getters ----

  /** The node that the getters read: the index of the id, taken as a list index. */
  function Asked(nodes: seq<SensorNode>, id: SensorId): (i: nat)
    requires nodes != []
    ensures i < |nodes|
  {
    Clamp(Find(nodes, id), |nodes|)
  }

  /** The getters answer about the sensor they are asked for exactly if it is mapped.  For any other
      id the first node answers instead of an error (datamgr.h lines 67, 75 and 83 promise one). */
  lemma GettersAnswer(nodes: seq<SensorNode>, id: SensorId)
    requires nodes != []
    ensures nodes[Asked(nodes, id)].sensor.id == id <==> Mapped(nodes, id)
    ensures Mapped(nodes, id) ==> Reached(nodes, Asked(nodes, id))
    ensures !Mapped(nodes, id) ==> Asked(nodes, id) == 0
  {
    var i := Find(nodes, id);
    if i != -1 {
      assert nodes[i].sensor.id == id;
    }
  }

  /** A map with one line: asking for sensor 2 reports the room of sensor 1. */
  lemma UnmappedSensorHasARoom()
    ensures var nodes := LoadMap([MapLine(7, 1)]);
      !Mapped(nodes, 2) && nodes[Asked(nodes, 2)].roomId == 7
  {
    LoadMapReverses([MapLine(7, 1)]);
    assert LoadMap([MapLine(7, 1)]) == [NewNode(7, 1)];
  }

  // ---- Loading the map ----

  datatype MapLine = MapLine(room: SensorId, sensor: SensorId)

  function MapNodes(lines: seq<MapLine>): (nodes: seq<SensorNode>)
    ensures |nodes| == |lines| && AllWellFormed(nodes)
    ensures forall i :: 0 <= i < |lines| ==> nodes[i] == NewNode(lines[i].room, lines[i].sensor)
  {
    seq(|lines|, i requires 0 <= i < |lines| => NewNode(lines[i].room, lines[i].sensor))
  }

  /** The list after the loop of lines 45-49. */
  function LoadMap(lines: seq<MapLine>): (nodes: seq<SensorNode>)
    ensures AllWellFormed(nodes)
  {
    InsertAllWellFormed(MapNodes(lines));
    InsertAll(ById, MapNodes(lines))
  }

  lemma {:induction false} InsertAllWellFormed(nodes: seq<SensorNode>)
    requires AllWellFormed(nodes)
    ensures AllWellFormed(InsertAll(ById, nodes))
  {
    if nodes != [] {
      var before, node := nodes[..|nodes| - 1], nodes[|nodes| - 1];
      InsertAllWellFormed(before);
      WellFormedInsert(InsertAll(ById, before), InsertPos(ById, InsertAll(ById, before), node), node);
    }
  }

  lemma LoadMapStep(lines: seq<MapLine>, k: nat)
    requires k < |lines|
    ensures LoadMap(lines[..k + 1]) ==
            SortedInsert(ById, LoadMap(lines[..k]), NewNode(lines[k].room, lines[k].sensor))
  {
    assert MapNodes(lines[..k + 1])[..k] == MapNodes(lines[..k]);
  }

  lemma MapNodesReverse(lines: seq<MapLine>)
    ensures Reverse(MapNodes(lines)) == MapNodes(Reverse(lines))
  {
  }

  lemma MapNodesConcat(a: seq<MapLine>, b: seq<MapLine>)
    ensures MapNodes(a + b) == MapNodes(a) + MapNodes(b)
  {
  }

  /** The map file from back to front, except that the first two lines stay in file order when they
      name the same sensor. */
  function ListOrder(lines: seq<MapLine>): seq<MapLine> {
    if |lines| >= 2 && lines[1].sensor == lines[0].sensor then Reverse(lines[2..]) + lines[..2] else Reverse(lines)
  }

  lemma LoadMapReverses(lines: seq<MapLine>)
    ensures LoadMap(lines) == MapNodes(ListOrder(lines))
  {
    InsertAllReverses(ById, MapNodes(lines));
    if |lines| >= 2 && lines[1].sensor == lines[0].sensor {
      assert MapNodes(lines)[2..] == MapNodes(lines[2..]);
      assert MapNodes(lines)[..2] == MapNodes(lines[..2]);
      MapNodesReverse(lines[2..]);
      MapNodesConcat(Reverse(lines[2..]), lines[..2]);
    } else {
      MapNodesReverse(lines);
    }
  }

  /** An id is mapped exactly if a line of the file names it. */
  lemma MappedAfterLoad(lines: seq<MapLine>, id: SensorId)
    ensures Mapped(LoadMap(lines), id) <==> exists k :: 0 <= k < |lines| && lines[k].sensor == id
  {
    var nodes, loaded := MapNodes(lines), LoadMap(lines);
    InsertAllContents(ById, nodes);
    assert forall n :: n in loaded <==> n in multiset(loaded);
    assert forall n :: n in nodes <==> n in multiset(nodes);
    if k :| 0 <= k < |lines| && lines[k].sensor == id {
      assert nodes[k] in loaded;
    }
    if Mapped(loaded, id) {
      var n := loaded[Find(loaded, id)];
      assert n in nodes;
    }
  }

  /** Isolation of alarms: the message about a reading depends on the earlier readings of the same
      sensor only. */
  lemma AlarmIsolation(nodes: seq<SensorNode>, rs: seq<Reading>, r: Reading, minTemp: real, maxTemp: real)
    requires AllWellFormed(nodes)
    ensures AlarmOf(ConsumeAll(nodes, rs), r, minTemp, maxTemp) ==
            if !Mapped(nodes, r.id) then Silent
            else StepAlarm(StepAll(nodes[Find(nodes, r.id)], OfSensor(rs, r.id)), r, minTemp, maxTemp)
  {
    FindIsStable(nodes, rs, r.id);
    if Mapped(nodes, r.id) {
      Isolation(nodes, rs, Find(nodes, r.id));
    }
  }

  /** From the loaded map, for any run, zeros included: a reading raises "too hot" exactly if its sensor is
      mapped, its window is full and the mean of the reading and the sensor's last four nonzero ones is
      above the maximum, and "too cold" exactly if that mean is below the minimum and not above the
      maximum, whatever other sensors report. */
  lemma AlarmInRun(lines: seq<MapLine>, rs: seq<Reading>, r: Reading, minTemp: real, maxTemp: real)
    ensures var nodes, h := LoadMap(lines), Values(OfSensor(rs, r.id));
      var alarm, mean := AlarmOf(ConsumeAll(nodes, rs), r, minTemp, maxTemp), Mean(Recent(h, r.value));
      && (alarm == TooHot <==> Mapped(nodes, r.id) && Full(h) && mean > maxTemp)
      && (alarm == TooCold <==> Mapped(nodes, r.id) && Full(h) && mean <= maxTemp && mean < minTemp)
      && (Mapped(nodes, r.id) && Full(h) ==>
           Consume(ConsumeAll(nodes, rs), r)[Find(nodes, r.id)].dataList == Recent(h, r.value))
  {
    hide OfSensor, LoadMap, StepAlarm, Step, Full, Recent, StepAll, NewNode, Mean;
    var nodes, earlier := LoadMap(lines), OfSensor(rs, r.id);
    AlarmIsolation(nodes, rs, r, minTemp, maxTemp);
    if Mapped(nodes, r.id) {
      var i := Find(nodes, r.id);
      LoadMapNode(lines, i);
      FindIsStable(nodes, rs, r.id);
      Isolation(nodes, rs, i);
      AlarmOfHistory(nodes[i].roomId, r.id, earlier, r, minTemp, maxTemp);
    }
  }

  /** For nonzero readings of the sensor: silent through its fifth reading, then exactly the alarm that the
      mean of its last five calls for. */
  lemma AlarmInNonZeroRun(lines: seq<MapLine>, rs: seq<Reading>, r: Reading, minTemp: real, maxTemp: real)
    requires AllNonZero(Values(OfSensor(rs, r.id)) + [r.value])
    ensures var own := Values(OfSensor(rs, r.id)) + [r.value];
      var alarm := AlarmOf(ConsumeAll(LoadMap(lines), rs), r, minTemp, maxTemp);
      var n := |own|;
      && (!Mapped(LoadMap(lines), r.id) || n <= 5 ==> alarm == Silent)
      && (Mapped(LoadMap(lines), r.id) && n > 5 ==>
           var mean := (own[n - 5] + own[n - 4] + own[n - 3] + own[n - 2] + own[n - 1]) / 5.0;
           && (alarm == TooHot <==> mean > maxTemp)
           && (alarm == TooCold <==> mean <= maxTemp && mean < minTemp))
  {
    hide OfSensor, LoadMap, ConsumeAll, Full, Mapped, Recent, AlarmOf, Mean;
    var h := Values(OfSensor(rs, r.id));
    AlarmInRun(lines, rs, r, minTemp, maxTemp);
    RecentWithoutZeros(h, r.value);
    if |h| >= 5 {
      MeanOfFive(Last(h + [r.value], 5));
    }
  }

  lemma RecentAreReadings(earlier: seq<Reading>, r: Reading, x: real)
    requires x in Recent(Values(earlier), r.value)
    ensures exists q :: q in earlier + [r] && q.value == x
  {
    var h := Values(earlier);
    if x != r.value {
      assert x in NonZero(h);
      NonZeroAreValues(h, x);
      var i :| 0 <= i < |h| && h[i] == x;
      assert (earlier + [r])[i] == earlier[i];
    } else {
      assert (earlier + [r])[|earlier|] == r;
    }
  }

  lemma {:induction false} NonZeroAreValues(h: seq<real>, x: real)
    requires x in NonZero(h)
    ensures x in h
  {
    if h[|h| - 1] != x {
      NonZeroAreValues(h[..|h| - 1], x);
    }
  }

  /** Soundness of alarms over runs, zeros included: an alarm about a reading implies that its sensor is
      mapped and that this reading or one of that sensor's last four nonzero readings before it is
      beyond the limit. */
  lemma AlarmSoundInRun(lines: seq<MapLine>, rs: seq<Reading>, r: Reading, minTemp: real, maxTemp: real)
    ensures var nodes, own := LoadMap(lines), OfSensor(rs, r.id);
      var alarm, w := AlarmOf(ConsumeAll(nodes, rs), r, minTemp, maxTemp), Recent(Values(own), r.value);
      && (alarm != Silent ==> Mapped(nodes, r.id))
      && (alarm == TooHot ==> exists q :: q in own + [r] && q.value in w && q.value > maxTemp)
      && (alarm == TooCold ==> exists q :: q in own + [r] && q.value in w && q.value < minTemp)
  {
    hide OfSensor, LoadMap, ConsumeAll, Full, Mapped, Recent, AlarmOf, Mean;
    var own := OfSensor(rs, r.id);
    var w := Recent(Values(own), r.value);
    AlarmInRun(lines, rs, r, minTemp, maxTemp);
    MeanBeyondLimit(w, minTemp, maxTemp);
    forall x | x in w
      ensures exists q :: q in own + [r] && q.value == x
    {
      RecentAreReadings(own, r, x);
    }
  }

  /** The nodes of the loaded list: room and sensor of a line of the file, value and time 0, and a window of
      free slots. */
  lemma LoadedExactly(lines: seq<MapLine>, i: nat)
    requires i < |LoadMap(lines)|
    ensures var node := LoadMap(lines)[i];
      && (exists k :: 0 <= k < |lines| && lines[k] == MapLine(node.roomId, node.sensor.id))
      && node.sensor.value == 0.0 && node.sensor.ts == 0 && node.dataList == [0.0, 0.0, 0.0, 0.0, 0.0]
    ensures |LoadMap(lines)| == |lines|
  {
    hide LoadMap;
    LoadMapReverses(lines);
    var n := |lines|;
    var swapped := n >= 2 && lines[1].sensor == lines[0].sensor;
    var k := if swapped && i >= n - 2 then i - (n - 2) else n - 1 - i;
    assert ListOrder(lines)[i] == lines[k];
  }

  lemma LoadMapNode(lines: seq<MapLine>, i: nat)
    requires i < |LoadMap(lines)|
    ensures LoadMap(lines)[i] == NewNode(LoadMap(lines)[i].roomId, LoadMap(lines)[i].sensor.id)
  {
    LoadMapReverses(lines);
  }
}
