/** The data manager thread, `datamgr.c`. */
module DataMgrs {
  import opened DpLists
  import opened ListSpec
  import opened Memory
  import opened Polling
  import opened Readings
  import opened SensorMap
  import opened Window
  import SBuffers

  /** The variable behind `connmgr_sensor_stopsig`; 0 means that no signal is pending. */
  class Mailbox {
    var sensor: SensorId

    constructor ()
      ensures sensor == 0
    {
      sensor := 0;
    }
  }

  /** Lines 74-81: the number of used slots. */
  method CountUsed(w: seq<real>) returns (size: nat)
    ensures size == FirstZero(w)
  {
    size := |w|;
    var i := 0;
    while i < |w|
      invariant i <= |w| && size == |w|
      invariant forall j :: 0 <= j < i ==> w[j] != 0.0
    {
      if w[i] == 0.0 {
        size := i;
        break;
      }
      i := i + 1;
    }
    FirstZeroIs(w, size);
  }

  /** Lines 87-90 and the missing store into the last slot. */
  method ShiftIn(temp: Cell<SensorNode>, v: real)
    requires WellFormed(temp.data)
    modifies temp`data
    ensures temp.data == old(temp.data).(dataList := old(temp.data.dataList)[1..] + [v])
  {
    ghost var w := temp.data.dataList;
    var i := 0;
    while i < RUN_AVG_LENGTH - 1
      invariant 0 <= i <= RUN_AVG_LENGTH - 1
      invariant |temp.data.dataList| == RUN_AVG_LENGTH
      invariant temp.data == old(temp.data).(dataList := temp.data.dataList)
      invariant forall j :: 0 <= j < i ==> temp.data.dataList[j] == w[j + 1]
      invariant forall j :: i <= j < RUN_AVG_LENGTH ==> temp.data.dataList[j] == w[j]
    {
      temp.data := temp.data.(dataList := temp.data.dataList[i := temp.data.dataList[i + 1]]);
      i := i + 1;
    }
    temp.data := temp.data.(dataList := temp.data.dataList[RUN_AVG_LENGTH - 1 := v]);
  }

  /** Lines 92-95. */
  method Total(w: seq<real>) returns (sum: real)
    ensures sum == Sum(w)
  {
    sum := 0.0;
    var i := 0;
    while i < |w|
      invariant i <= |w| && sum == Sum(w[..i])
    {
      sum := sum + w[i];
      i := i + 1;
      assert w[..i][..i - 1] == w[..i - 1];
    }
    assert w[..i] == w;
  }

  /** Lines 70-108 for the node that a reading belongs to. */
  method Record(temp: Cell<SensorNode>, r: Reading, minTemp: real, maxTemp: real) returns (alarm: Alarm)
    requires WellFormed(temp.data)
    modifies temp`data
    ensures temp.data == Step(old(temp.data), r)
    ensures alarm == StepAlarm(old(temp.data), r, minTemp, maxTemp)
    ensures var w := old(temp.data.dataList);
      var mean := (w[1] + w[2] + w[3] + w[4] + r.value) / 5.0;
      && (alarm == TooHot <==> 0.0 !in w && mean > maxTemp)
      && (alarm == TooCold <==> 0.0 !in w && mean <= maxTemp && mean < minTemp)
      && (0.0 !in w ==> temp.data.sensor.value == mean)
  {
    StepExactly(temp.data, r);
    AlarmExactly(temp.data, r, minTemp, maxTemp);
    alarm := Silent;
    temp.data := temp.data.(sensor := temp.data.sensor.(ts := r.ts));
    var size := CountUsed(temp.data.dataList);
    if size < RUN_AVG_LENGTH {
      temp.data := temp.data.(dataList := temp.data.dataList[size := r.value]);
    } else {
      ShiftIn(temp, r.value);
      var sum := Total(temp.data.dataList);
      temp.data := temp.data.(sensor := temp.data.sensor.(value := sum / (RUN_AVG_LENGTH as real)));
      if temp.data.sensor.value > maxTemp {
        alarm := TooHot;
      } else if temp.data.sensor.value < minTemp {
        alarm := TooCold;
      }
    }
  }

  /** The mailbox after `k` turns: the latest unmapped id that this thread took, unless it was emptied. */
  function MailAfter(nodes: seq<SensorNode>, mail: SensorId, queue: seq<Reading>, others: nat -> seq<Call>,
                     clears: nat -> bool, k: nat): SensorId {
    if k == 0 then mail
    else
      var before := if clears(k - 1) then 0 else MailAfter(nodes, mail, queue, others, clears, k - 1);
      var q := Polling.Found(Polls(queue, others, k - 1), others(k - 1));
      if q == [] || Mapped(nodes, q[0].id) then before else q[0].id
  }

  /** The message that turn `k` raises. */
  function AlarmAt(nodes: seq<SensorNode>, queue: seq<Reading>, others: nat -> seq<Call>, k: nat,
                   minTemp: real, maxTemp: real): Alarm
    requires AllWellFormed(nodes)
  {
    var p := Polls(queue, others, k);
    var q := Polling.Found(p, others(k));
    if q == [] then Silent else AlarmOf(ConsumeAll(nodes, p.taken), q[0], minTemp, maxTemp)
  }

  /** Turn `j` delivers a reading of a sensor that no node has. */
  predicate PostsAt(nodes: seq<SensorNode>, queue: seq<Reading>, others: nat -> seq<Call>, j: nat) {
    var q := Polling.Found(Polls(queue, others, j), others(j));
    q != [] && forall i :: 0 <= i < |nodes| ==> nodes[i].sensor.id != q[0].id
  }

  /** The mailbox after `k` turns, told from the latest of them that had to do with it: the id that this turn
      delivered if no node has it, and 0 if the mailbox was only emptied; what it held at first if there
      was no such turn. */
  lemma {:induction false} MailExactly(nodes: seq<SensorNode>, mail: SensorId, queue: seq<Reading>,
                                       others: nat -> seq<Call>, clears: nat -> bool, k: nat)
    ensures forall j :: 0 <= j < k && (forall i :: j < i < k ==> !PostsAt(nodes, queue, others, i) && !clears(i)) ==>
      && (PostsAt(nodes, queue, others, j) ==> MailAfter(nodes, mail, queue, others, clears, k) ==
                                               Polling.Found(Polls(queue, others, j), others(j))[0].id)
      && (!PostsAt(nodes, queue, others, j) && clears(j) ==> MailAfter(nodes, mail, queue, others, clears, k) == 0)
    ensures (forall i :: 0 <= i < k ==> !PostsAt(nodes, queue, others, i) && !clears(i)) ==>
      MailAfter(nodes, mail, queue, others, clears, k) == mail
  {
    hide Polls, Polling.Found;
    if k > 0 {
      MailExactly(nodes, mail, queue, others, clears, k - 1);
      var q := Polling.Found(Polls(queue, others, k - 1), others(k - 1));
      assert PostsAt(nodes, queue, others, k - 1) <==> q != [] && !Mapped(nodes, q[0].id);
      hide Mapped, PostsAt;
    }
  }

  /** The alarm of turn `k` on a loaded map: none if no reading is delivered, and otherwise exactly the one that
      the mean of this reading and its sensor's last four nonzero ones among those taken before calls for. */
  lemma AlarmAtExactly(lines: seq<MapLine>, queue: seq<Reading>, others: nat -> seq<Call>, k: nat,
                       minTemp: real, maxTemp: real)
    ensures var p, nodes := Polls(queue, others, k), LoadMap(lines);
      var q, alarm := Polling.Found(p, others(k)), AlarmAt(nodes, queue, others, k, minTemp, maxTemp);
      if q == [] then alarm == Silent
      else
        var h := Values(OfSensor(p.taken, q[0].id));
        var mean := Mean(Recent(h, q[0].value));
        && (alarm == TooHot <==> Mapped(nodes, q[0].id) && Full(h) && mean > maxTemp)
        && (alarm == TooCold <==> Mapped(nodes, q[0].id) && Full(h) && mean <= maxTemp && mean < minTemp)
  {
    hide Polls, Polling.Found, AlarmOf, LoadMap, ConsumeAll, Mapped, Full, Mean, Recent, OfSensor;
    var p := Polls(queue, others, k);
    var q := Polling.Found(p, others(k));
    if q != [] {
      AlarmInRun(lines, p.taken, q[0], minTemp, maxTemp);
    }
  }

  /** How a turn moves on. */
  lemma TurnEffect(nodes: seq<SensorNode>, mail: SensorId, queue: seq<Reading>, others: nat -> seq<Call>,
                   clears: nat -> bool, k: nat, minTemp: real, maxTemp: real)
    requires AllWellFormed(nodes)
    ensures var p, next := Polls(queue, others, k), Polls(queue, others, k + 1);
      var q, before := Polling.Found(p, others(k)),
                       if clears(k) then 0 else MailAfter(nodes, mail, queue, others, clears, k);
      var data := Current(next, Reading(0, 0.0, 0));
      if q == [] then
        && next.taken == p.taken && MailAfter(nodes, mail, queue, others, clears, k + 1) == before
        && AlarmAt(nodes, queue, others, k, minTemp, maxTemp) == Silent
      else
        && ConsumeAll(nodes, next.taken) == Consume(ConsumeAll(nodes, p.taken), data)
        && MailAfter(nodes, mail, queue, others, clears, k + 1) ==
           (if Mapped(ConsumeAll(nodes, p.taken), data.id) then before else data.id)
        && AlarmAt(nodes, queue, others, k, minTemp, maxTemp) ==
           AlarmOf(ConsumeAll(nodes, p.taken), data, minTemp, maxTemp)
  {
    hide Consume, AlarmOf, Polling.Found;
    var p := Polls(queue, others, k);
    var q := Polling.Found(p, others(k));
    if q != [] {
      ConsumeSnoc(nodes, p.taken, q[0]);
      FindIsStable(nodes, p.taken, q[0].id);
    }
  }

  class DataMgr {
    const dplist: DpList<SensorNode>
    const stopsig: Mailbox
    const minTemp: real
    const maxTemp: real
    /** The blocks that the list is made of. */
    ghost var blocks: set<object>

    ghost predicate Valid()
      reads dplist, dplist.nodes, dplist.elems
    {
      && dplist.Valid() && dplist.compare == ById && Owned(dplist.elems)
      && AllWellFormed(Nodes())
    }

    ghost function Nodes(): seq<SensorNode>
      reads dplist, dplist.elems
    {
      Load(dplist.elems)
    }

    /** Lines 37-49.  The map file is given as the sequence of its lines; `node` is the template on
        the stack, which every insertion copies. */
    constructor (lines: seq<MapLine>, stopsig: Mailbox, minTemp: real, maxTemp: real)
      ensures Valid() && Nodes() == LoadMap(lines)
      ensures this.stopsig == stopsig && this.minTemp == minTemp && this.maxTemp == maxTemp
      ensures fresh(dplist) && fresh(blocks) && Within(blocks)
    {
      this.dplist := new DpList<SensorNode>(ById);
      this.stopsig, this.minTemp, this.maxTemp := stopsig, minTemp, maxTemp;
      blocks := {};
      new;
      blocks := LoadLines(lines);
      assert lines[..|lines|] == lines;
    }

    /** The list is made of blocks from `made` only. */
    ghost predicate Within(made: set<object>)
      reads dplist
    {
      && (forall n :: n in dplist.nodes ==> n in made)
      && (forall c :: c in dplist.elems ==> c in made)
    }

    /** The first `k` lines are loaded. */
    ghost predicate Loaded(lines: seq<MapLine>, k: nat, made: set<object>)
      requires k <= |lines|
      reads dplist, dplist.nodes, dplist.elems
    {
      Valid() && Nodes() == LoadMap(lines[..k]) && Within(made)
    }

    lemma WithinMade(lines: seq<MapLine>, k: nat, made: set<object>)
      requires k <= |lines| && Loaded(lines, k, made)
      ensures Within(made)
    {
    }

    /** The loop of lines 45-49. */
    method LoadLines(lines: seq<MapLine>) returns (ghost made: set<object>)
      requires Loaded(lines, 0, {})
      modifies dplist
      ensures Loaded(lines, |lines|, made) && fresh(made)
    {
      hide Loaded;
      WithinMade(lines, 0, {});
      var k := 0;
      made := {};
      while k < |lines|
        invariant k <= |lines| && Loaded(lines, k, made) && fresh(made)
      {
        made := AddLine(lines, k, made);
        k := k + 1;
        WithinMade(lines, k, made);
      }
    }

    /** One turn of the loop. */
    method AddLine(lines: seq<MapLine>, k: nat, ghost made: set<object>) returns (ghost made': set<object>)
      requires k < |lines| && Loaded(lines, k, made)
      modifies dplist, made
      ensures Loaded(lines, k + 1, made') && made <= made' && fresh(made' - made)
    {
      LoadMapStep(lines, k);
      ghost var stored, link, pos := AddNode(NewNode(lines[k].room, lines[k].sensor));
      InsertAtElements(old(dplist.elems), pos, stored);
      InsertAtElements(old(dplist.nodes), pos, link);
      made' := made + {stored, link};
    }

    /** Line 48; `data` is the content of the template node on the stack. */
    method AddNode(data: SensorNode)
        returns (ghost stored: Cell<SensorNode>, ghost link: Node<SensorNode>, ghost pos: nat)
      requires Valid() && WellFormed(data)
      modifies dplist, dplist.nodes
      ensures Valid() && Nodes() == SortedInsert(ById, old(Nodes()), data)
      ensures pos <= |old(dplist.nodes)| && fresh(stored) && fresh(link)
      ensures dplist.elems == InsertAt(old(dplist.elems), pos, stored)
      ensures dplist.nodes == InsertAt(old(dplist.nodes), pos, link)
    {
      ghost var values := Nodes();
      pos := InsertPos(ById, values, data);
      var node := new Cell<SensorNode>(data);
      assert Nodes() == values;
      stored, link := dplist.InsertSorted(node, true);
      WellFormedInsert(values, pos, data);
    }

    /** Lines 69-108. */
    method RecordAt(i: nat, r: Reading) returns (alarm: Alarm)
      requires Valid() && i < |dplist.elems|
      modifies dplist.elems`data
      ensures Valid() && Nodes() == old(Nodes())[i := Step(old(Nodes()[i]), r)]
      ensures alarm == StepAlarm(old(Nodes()[i]), r, minTemp, maxTemp)
    {
      var temp := dplist.GetElementAtIndex(i);
      assert temp == dplist.elems[i] && WellFormed(Nodes()[i]);
      alarm := Record(temp, r, minTemp, maxTemp);
    }

    /** The body of the loop at line 54 for a reading that was removed from the buffer.  An unmapped
        id is put into the mailbox, whatever was in there. */
    method Handle(r: Reading) returns (alarm: Alarm)
      requires Valid()
      modifies dplist.elems`data, stopsig
      ensures Valid()
      ensures Nodes() == Consume(old(Nodes()), r)
      ensures stopsig.sensor == if Mapped(old(Nodes()), r.id) then old(stopsig.sensor) else r.id
      ensures alarm == AlarmOf(old(Nodes()), r, minTemp, maxTemp)
    {
      hide DpList.Valid, Owned, Step, StepAlarm;
      alarm := Silent;
      var i := dplist.GetIndexOfElement(NewNode(0, r.id));
      if i == -1 {
        stopsig.sensor := r.id;
      } else {
        alarm := RecordAt(i, r);
      }
    }

    /** The list and the mailbox hold what is given. */
    ghost predicate Is(nodes: seq<SensorNode>, mail: SensorId)
      reads stopsig, dplist, dplist.nodes, dplist.elems
    {
      Valid() && Nodes() == nodes && stopsig.sensor == mail
    }

    /** After `k` turns of the loop at line 54.  The other threads make the buffer calls `others(k)` and,
        if `clears(k)`, empty the mailbox before turn `k`. */
    ghost predicate Consumed(buffer: SBuffers.SBuffer, nodes: seq<SensorNode>, mail: SensorId, queue: seq<Reading>,
                             others: nat -> seq<Call>, clears: nat -> bool, k: nat, made: set<SBuffers.SNode>)
      requires AllWellFormed(nodes)
      reads stopsig, dplist, dplist.nodes, dplist.elems, buffer, buffer.nodes
    {
      && Holds(buffer, Polls(queue, others, k).queue, made)
      && Is(ConsumeAll(nodes, Polls(queue, others, k).taken), MailAfter(nodes, mail, queue, others, clears, k))
    }

    lemma Opened(buffer: SBuffers.SBuffer, nodes: seq<SensorNode>, mail: SensorId, queue: seq<Reading>,
                 others: nat -> seq<Call>, clears: nat -> bool, k: nat, made: set<SBuffers.SNode>)
      requires AllWellFormed(nodes) && Consumed(buffer, nodes, mail, queue, others, clears, k, made)
      ensures Holds(buffer, Polls(queue, others, k).queue, made)
      ensures Is(ConsumeAll(nodes, Polls(queue, others, k).taken), MailAfter(nodes, mail, queue, others, clears, k))
      ensures AllWellFormed(ConsumeAll(nodes, Polls(queue, others, k).taken))
    {
    }

    lemma Closed(buffer: SBuffers.SBuffer, nodes: seq<SensorNode>, mail: SensorId, queue: seq<Reading>,
                 others: nat -> seq<Call>, clears: nat -> bool, k: nat, made: set<SBuffers.SNode>)
      requires AllWellFormed(nodes) && Holds(buffer, Polls(queue, others, k).queue, made)
      requires Is(ConsumeAll(nodes, Polls(queue, others, k).taken), MailAfter(nodes, mail, queue, others, clears, k))
      ensures Consumed(buffer, nodes, mail, queue, others, clears, k, made)
    {
    }

    /** The mailbox may have been emptied by the other thread. */
    method ClearMail(cleared: bool, ghost nodes: seq<SensorNode>, ghost mail: SensorId)
      requires Is(nodes, mail)
      modifies stopsig
      ensures Is(nodes, if cleared then 0 else mail)
    {
      if cleared {
        stopsig.sensor := 0;
      }
    }

    /** Lines 56-108 for a reading, from a known state. */
    method HandleFrom(r: Reading, ghost nodes: seq<SensorNode>, ghost mail: SensorId) returns (alarm: Alarm)
      requires AllWellFormed(nodes) && Is(nodes, mail)
      modifies dplist.elems`data, stopsig
      ensures Is(Consume(nodes, r), if Mapped(nodes, r.id) then mail else r.id)
      ensures alarm == AlarmOf(nodes, r, minTemp, maxTemp)
    {
      alarm := Handle(r);
    }

    /** One turn.  A call that finds the buffer empty changes nothing (as written, lines 56-108 would run
        again on the reading of the previous turn). */
    method NextTurn(buffer: SBuffers.SBuffer, data: Reading, others: nat -> seq<Call>, clears: nat -> bool, k: nat,
                    ghost nodes: seq<SensorNode>, ghost mail: SensorId, ghost queue: seq<Reading>,
                    ghost made: set<SBuffers.SNode>)
        returns (data': Reading, alarm: Alarm, ghost made': set<SBuffers.SNode>)
      requires AllWellFormed(nodes) && Consumed(buffer, nodes, mail, queue, others, clears, k, made)
      requires data == Current(Polls(queue, others, k), Reading(0, 0.0, 0))
      modifies dplist.elems`data, stopsig, buffer, made
      ensures Consumed(buffer, nodes, mail, queue, others, clears, k + 1, made')
      ensures made <= made' && fresh(made' - made)
      ensures data' == Current(Polls(queue, others, k + 1), Reading(0, 0.0, 0))
      ensures alarm == AlarmAt(nodes, queue, others, k, minTemp, maxTemp)
    {
      hide *;
      Opened(buffer, nodes, mail, queue, others, clears, k, made);
      ghost var p, before := Polls(queue, others, k), MailAfter(nodes, mail, queue, others, clears, k);
      ghost var cleared := if clears(k) then 0 else before;
      TurnEffect(nodes, mail, queue, others, clears, k, minTemp, maxTemp);
      ClearMail(clears(k), ConsumeAll(nodes, p.taken), before);
      var status;
      status, data', made' := RemoveNext(buffer, data, others, k, queue, Reading(0, 0.0, 0), made);
      alarm := Silent;
      if status == SBuffers.Success {
        alarm := HandleFrom(data', ConsumeAll(nodes, p.taken), cleared);
      }
      Closed(buffer, nodes, mail, queue, others, clears, k + 1, made');
    }

    /** The first `calls` turns of the loop. */
    method ParseLoop(buffer: SBuffers.SBuffer, others: nat -> seq<Call>, clears: nat -> bool, calls: nat,
                     ghost nodes: seq<SensorNode>, ghost mail: SensorId, ghost queue: seq<Reading>,
                     ghost made: set<SBuffers.SNode>)
        returns (alarms: seq<Alarm>, ghost made': set<SBuffers.SNode>)
      requires AllWellFormed(nodes) && Consumed(buffer, nodes, mail, queue, others, clears, 0, made)
      modifies dplist.elems`data, stopsig, buffer, made
      ensures Consumed(buffer, nodes, mail, queue, others, clears, calls, made')
      ensures |alarms| == calls && forall k :: 0 <= k < calls ==>
        alarms[k] == AlarmAt(nodes, queue, others, k, minTemp, maxTemp)
    {
      hide AllWellFormed, Consumed, AlarmAt;
      var data := Reading(0, 0.0, 0);
      var k := 0;
      alarms, made' := [], made;
      while k < calls
        invariant 0 <= k <= calls && Consumed(buffer, nodes, mail, queue, others, clears, k, made')
        invariant data == Current(Polls(queue, others, k), Reading(0, 0.0, 0))
        invariant made <= made' && fresh(made' - made)
        invariant |alarms| == k && forall j :: 0 <= j < k ==>
          alarms[j] == AlarmAt(nodes, queue, others, j, minTemp, maxTemp)
      {
        var alarm;
        data, alarm, made' := NextTurn(buffer, data, others, clears, k, nodes, mail, queue, made');
        alarms := alarms + [alarm];
        k := k + 1;
      }
    }

    /** The loop at line 54, which ends only when there is no buffer: after any number of turns, and
        whatever the other threads do meanwhile, the list is the result of the readings that this thread
        took, and each of them raised the alarm it should. */
    method ParseReadings(buffer: SBuffers.SBuffer?, others: nat -> seq<Call>, clears: nat -> bool, calls: nat,
                         ghost queue: seq<Reading>, ghost made: set<SBuffers.SNode>)
        returns (alarms: seq<Alarm>, ghost made': set<SBuffers.SNode>)
      requires Valid() && (buffer != null ==> Holds(buffer, queue, made))
      modifies dplist.elems`data, stopsig, buffer, made
      ensures Valid()
      ensures buffer == null ==> Nodes() == old(Nodes()) && stopsig.sensor == old(stopsig.sensor) && alarms == []
      ensures buffer != null ==>
        && Holds(buffer, Polls(queue, others, calls).queue, made')
        && Nodes() == ConsumeAll(old(Nodes()), Polls(queue, others, calls).taken)
        && stopsig.sensor == MailAfter(old(Nodes()), old(stopsig.sensor), queue, others, clears, calls)
        && |alarms| == calls
        && forall k :: 0 <= k < calls ==> alarms[k] == AlarmAt(old(Nodes()), queue, others, k, minTemp, maxTemp)
    {
      alarms, made' := [], made;
      if buffer != null {
        assert Consumed(buffer, Nodes(), stopsig.sensor, queue, others, clears, 0, made);
        alarms, made' := ParseLoop(buffer, others, clears, calls, Nodes(), stopsig.sensor, queue, made);
      }
    }

    /** `datamgr_get_room_id`.  The failure code -1 is 65535 as a `uint16_t`.  For an id that is not
        mapped, line 128 asks for the element at index -1, which is the first one. */
    method GetRoomId(id: SensorId) returns (room: SensorId)
      requires Valid()
      ensures room == if Nodes() == [] then 0xFFFF else Nodes()[Asked(Nodes(), id)].roomId
    {
      var node := Lookup(id);
      room := if node == null then 0xFFFF else node.data.roomId;
    }

    /** `datamgr_get_avg`. */
    method GetAvg(id: SensorId) returns (average: real)
      requires Valid()
      ensures average == if Nodes() == [] then -1.0 else Nodes()[Asked(Nodes(), id)].sensor.value
    {
      var node := Lookup(id);
      average := if node == null then -1.0 else node.data.sensor.value;
    }

    /** `datamgr_get_last_modified`. */
    method GetLastModified(id: SensorId) returns (ts: int)
      requires Valid()
      ensures ts == if Nodes() == [] then -1 else Nodes()[Asked(Nodes(), id)].sensor.ts
    {
      var node := Lookup(id);
      ts := if node == null then -1 else node.data.sensor.ts;
    }

    /** Lines 125-128, 141-144 and 157-160.  Repair: the NULL test is about the node found. */
    method Lookup(id: SensorId) returns (node: Cell?<SensorNode>)
      requires Valid()
      ensures node == null <==> Nodes() == []
      ensures Nodes() != [] ==> node == dplist.elems[Asked(Nodes(), id)]
    {
      var i := dplist.GetIndexOfElement(NewNode(0, id));
      node := dplist.GetElementAtIndex(i);
    }

    /** `datamgr_get_total_sensors`. */
    method GetTotalSensors() returns (n: nat)
      requires Valid()
      ensures n == |Nodes()|
    {
      n := dplist.Size();
    }

    /** `datamgr_free`. */
    method Free()
      requires Valid()
      modifies dplist, dplist.nodes, dplist.elems`frees
      ensures dplist.frees == 1 && dplist.head == null
      ensures forall n :: n in old(dplist.nodes) ==> n.frees == 1
      ensures forall e :: e in old(dplist.elems) ==> e.frees == 1
    {
      dplist.Free(true);
    }
  }
}
