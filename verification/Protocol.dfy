/** The three threads of `main.c` lines 152-160 as a transition system: the connection manager fills
    the shared buffer, the data manager and the storage manager empty it, and the data manager posts
    stop signals to the connection manager.  Every buffer call and every critical section is one
    atomic step, and the steps may interleave in any order. */
module Protocol {
  import opened ConnSpec
  import opened Readings
  import opened SensorMap
  import opened Window
  import ConnTables

  datatype Consumer = DataManager | StorageManager

  datatype Removal = Removal(who: Consumer, reading: Reading)

  /** Where the connection manager is: in `poll`, or at slot `k` before or behind the receive part. */
  datatype Phase = Polling | AtReceive(k: nat) | AtCheck(k: nat)

  datatype Config = Config(sv: int, maxConn: nat, timeout: int, lines: seq<MapLine>)

  /** What happens to the mailbox: an id is posted, or the connection of a client is stopped by signal. */
  datatype Signal = Post(id: SensorId) | Stop(client: Client)

  /** `pending` is an unmapped id that the data manager read and has not posted yet.  The last four
      fields only record history: what went into the buffer, who took it out, the clients whose
      connection was stopped by signal, and what happened to the mailbox. */
  datatype State = State(conns: seq<Conn>, data: Reading, phase: Phase,
                         queue: seq<Reading>, mail: SensorId,
                         nodes: seq<SensorNode>, pending: Option<SensorId>, rows: seq<Reading>,
                         inserted: seq<Reading>, removed: seq<Removal>, stopped: seq<Client>, signals: seq<Signal>)

  /** A connection that `poll` offers: its slot with whatever `revents` it has, and the time. */
  datatype Offer = Offer(sd: int, pollIn: bool, pollHup: bool, now: int)

  datatype Step =
    | Poll(ret: int, events: nat -> (bool, bool), offer: Option<Offer>)
    | ReceiveReading(input: Input)
    | CheckSlot(now: int)
    | DataRemove
    | DataPost
    | StorageRemove

  function Init(c: Config): State {
    State([], Reading(0, 0.0, 0), Polling, [], 0, LoadMap(c.lines), None, [], [], [], [], [])
  }

  /** The descriptor is neither the listener's nor that of a connection. */
  predicate Unused(c: Config, conns: seq<Conn>, sd: int) {
    sd != c.sv && forall k :: 0 <= k < |conns| ==> conns[k].pfd.fd != sd
  }

  function Accepted(c: Config, conns: seq<Conn>, listening: bool, offer: Option<Offer>): (added: seq<Conn>)
    ensures |added| <= 1
    ensures added != [] ==> |conns| < c.maxConn && Unused(c, conns, added[0].pfd.fd)
    ensures added != [] ==> added[0].client.sd == added[0].pfd.fd && added[0].client.sensor == 0
  {
    if listening && |conns| < c.maxConn && offer.Some? && Unused(c, conns, offer.value.sd) then
      var o := offer.value;
      [Conn(PollFd(o.sd, WATCHED, o.pollIn, o.pollHup), Client(o.sd, o.now, 0))]
    else []
  }

  function PhaseAt(conns: seq<Conn>, k: nat): Phase {
    if k < |conns| then AtReceive(k) else Polling
  }

  /** The state is one that the steps can be taken in. */
  ghost predicate Sound(s: State) {
    && AllWellFormed(s.nodes)
    && (s.phase.Polling? || s.phase.k < |s.conns|)
  }

  /** Lines 75-103 of connmgr.c. */
  function DoPoll(c: Config, s: State, ret: int, events: nat -> (bool, bool), offer: Option<Offer>): State {
    if !s.phase.Polling? || ret == -1 || (ret == 0 && s.conns == []) then s
    else
      var added := Accepted(c, s.conns, events(0).0, offer);
      var ret' := ret - if events(0).0 && |s.conns| < c.maxConn then 1 else 0;
      var conns := ConnTables.Polled(s.conns, events) + added;
      s.(conns := conns, phase := if ret' > 0 then PhaseAt(conns, 0) else Polling)
  }

  /** Lines 105-133: the part of a visit that may insert a reading. */
  function DoReceive(c: Config, s: State, input: Input): State
    requires Sound(s)
  {
    if !s.phase.AtReceive? then s
    else
      var r := Receive(s.conns[s.phase.k], s.data, input, c.timeout);
      s.(conns := s.conns[s.phase.k := r.conn], data := r.data, phase := AtCheck(s.phase.k),
         queue := s.queue + r.sent, inserted := s.inserted + r.sent)
  }

  /** Lines 135-162: the part under the mutex. */
  function DoCheck(c: Config, s: State, now: int): State
    requires Sound(s)
  {
    if !s.phase.AtCheck? then s
    else
      var k := s.phase.k;
      var verdict := Judge(s.conns[k], s.mail, now, c.timeout);
      var conns := AfterCheck(s.conns, k, verdict);
      s.(conns := conns, phase := PhaseAt(conns, if verdict == Keep then k + 1 else k),
         mail := if verdict == StopBySignal then 0 else s.mail,
         stopped := if verdict == StopBySignal then s.stopped + [s.conns[k].client] else s.stopped,
         signals := if verdict == StopBySignal then s.signals + [Stop(s.conns[k].client)] else s.signals)
  }

  /** Line 54 of datamgr.c, with lines 56-96. */
  function DoDataRemove(s: State): State
    requires Sound(s)
  {
    if s.pending.Some? || s.queue == [] then s
    else
      var r := s.queue[0];
      s.(queue := s.queue[1..], removed := s.removed + [Removal(DataManager, r)],
         nodes := Consume(s.nodes, r), pending := if Mapped(s.nodes, r.id) then None else Some(r.id))
  }

  /** Lines 64-66 of datamgr.c. */
  function DoDataPost(s: State): State {
    if s.pending.None? then s
    else s.(mail := s.pending.value, pending := None, signals := s.signals + [Post(s.pending.value)])
  }

  /** Lines 22-24 of sensor_db.c. */
  function DoStorageRemove(s: State): State {
    if s.queue == [] then s
    else s.(queue := s.queue[1..], removed := s.removed + [Removal(StorageManager, s.queue[0])],
            rows := s.rows + [s.queue[0]])
  }

  /** One step; a step that its thread cannot take now changes nothing. */
  function Apply(c: Config, s: State, step: Step): State
    requires Sound(s)
  {
    match step
    case Poll(ret, events, offer) => DoPoll(c, s, ret, events, offer)
    case ReceiveReading(input) => DoReceive(c, s, input)
    case CheckSlot(now) => DoCheck(c, s, now)
    case DataRemove => DoDataRemove(s)
    case DataPost => DoDataPost(s)
    case StorageRemove => DoStorageRemove(s)
  }

  // What the steps do, without the functions above.

  /** The decision under the mutex: the connection is stopped exactly if the mailbox holds a signal and it
      is the id of this client, whatever else is the matter with it, and the signal is used up then;
      otherwise it is dropped exactly if it hung up, was lost or is idle for too long. */
  lemma CheckExactly(c: Config, s: State, now: int)
    requires Sound(s) && s.phase.AtCheck?
    ensures var s', k, conn := DoCheck(c, s, now), s.phase.k, s.conns[s.phase.k];
      var stops := s.mail != 0 && conn.client.sensor == s.mail;
      var drops := conn.client.lastActive + c.timeout < now || conn.pfd.pollHup || conn.pfd.events == -1;
      && s'.mail == (if stops then 0 else s.mail)
      && s'.stopped == (if stops then s.stopped + [conn.client] else s.stopped)
      && s'.conns == (if stops || drops then s.conns[..k] + s.conns[k + 1..] else s.conns)
      && s'.phase == (var next := if stops || drops then k else k + 1;
                      if next < |s'.conns| then AtReceive(next) else Polling)
  {
  }

  /** The data manager takes the oldest reading whenever it can, keeps an unmapped id, and posts it. */
  lemma DataStepsExactly(s: State)
    requires Sound(s)
    ensures var s' := DoDataRemove(s);
      if s.pending.None? && s.queue != [] then
        && s'.queue == s.queue[1..] && s'.removed == s.removed + [Removal(DataManager, s.queue[0])]
        && (s'.pending == if forall i :: 0 <= i < |s.nodes| ==> s.nodes[i].sensor.id != s.queue[0].id
                          then Some(s.queue[0].id) else None)
        && s'.mail == s.mail
      else s' == s
    ensures var s' := DoDataPost(s);
      if s.pending.Some? then s'.mail == s.pending.value && s'.pending == None else s' == s
  {
  }

  /** The storage manager takes the oldest reading whenever there is one, and stores it. */
  lemma StorageStepExactly(s: State)
    ensures var s' := DoStorageRemove(s);
      if s.queue != [] then
        && s'.queue == s.queue[1..] && s'.removed == s.removed + [Removal(StorageManager, s.queue[0])]
        && s'.rows == s.rows + [s.queue[0]] && s'.mail == s.mail && s'.nodes == s.nodes
      else s' == s
  {
  }

  lemma StepIsSound(c: Config, s: State, step: Step)
    requires Sound(s)
    ensures Sound(Apply(c, s, step))
  {
  }

  /** The state after any interleaving of steps. */
  function Exec(c: Config, steps: seq<Step>): (s: State)
    ensures Sound(s)
  {
    if steps == [] then
      Init(c)
    else
      var s := Exec(c, steps[..|steps| - 1]);
      StepIsSound(c, s, steps[|steps| - 1]);
      Apply(c, s, steps[|steps| - 1])
  }

  // ---- Conservation ----

  /** What one consumer removed, in order. */
  function TakenBy(removed: seq<Removal>, who: Consumer): (rs: seq<Reading>)
    ensures |rs| <= |removed|
  {
    if removed == [] then []
    else
      var before, last := TakenBy(removed[..|removed| - 1], who), removed[|removed| - 1];
      if last.who == who then before + [last.reading] else before
  }

  function AllTaken(removed: seq<Removal>): (rs: seq<Reading>)
    ensures |rs| == |removed|
    ensures forall k :: 0 <= k < |removed| ==> rs[k] == removed[k].reading
  {
    seq(|removed|, k requires 0 <= k < |removed| => removed[k].reading)
  }

  ghost predicate Conserved(c: Config, s: State) {
    && AllTaken(s.removed) + s.queue == s.inserted
    && s.rows == TakenBy(s.removed, StorageManager)
    && s.nodes == ConsumeAll(LoadMap(c.lines), TakenBy(s.removed, DataManager))
  }

  lemma TakenBySnoc(removed: seq<Removal>, r: Removal, who: Consumer)
    ensures TakenBy(removed + [r], who) == TakenBy(removed, who) + if r.who == who then [r.reading] else []
    ensures AllTaken(removed + [r]) == AllTaken(removed) + [r.reading]
  {
    assert (removed + [r])[..|removed|] == removed;
  }

  lemma HeadMoves(removed: seq<Removal>, queue: seq<Reading>, who: Consumer)
    requires queue != []
    ensures AllTaken(removed + [Removal(who, queue[0])]) + queue[1..] == AllTaken(removed) + queue
  {
  }

  lemma ConservedByDataRemove(c: Config, s: State)
    requires Sound(s) && Conserved(c, s)
    ensures Conserved(c, DoDataRemove(s))
  {
    if s.pending.None? && s.queue != [] {
      var r, s' := Removal(DataManager, s.queue[0]), DoDataRemove(s);
      assert AllTaken(s'.removed) + s'.queue == s.inserted by {
        HeadMoves(s.removed, s.queue, DataManager);
      }
      assert s'.rows == TakenBy(s'.removed, StorageManager) by {
        TakenBySnoc(s.removed, r, StorageManager);
      }
      assert s'.nodes == ConsumeAll(LoadMap(c.lines), TakenBy(s'.removed, DataManager)) by {
        TakenBySnoc(s.removed, r, DataManager);
        ConsumeSnoc(LoadMap(c.lines), TakenBy(s.removed, DataManager), r.reading);
      }
    }
  }

  lemma ConservedByStorageRemove(c: Config, s: State)
    requires Conserved(c, s)
    ensures Conserved(c, DoStorageRemove(s))
  {
    if s.queue != [] {
      TakenBySnoc(s.removed, Removal(StorageManager, s.queue[0]), DataManager);
      TakenBySnoc(s.removed, Removal(StorageManager, s.queue[0]), StorageManager);
    }
  }

  lemma ConservedByStep(c: Config, s: State, step: Step)
    requires Sound(s) && Conserved(c, s)
    ensures Conserved(c, Apply(c, s, step))
  {
    hide AllWellFormed, LoadMap, ConsumeAll, ConnTables.Polled, Accepted, AfterCheck, Judge, AllTaken, TakenBy;
    match step
    case DataRemove => ConservedByDataRemove(c, s);
    case StorageRemove => ConservedByStorageRemove(c, s);
    case _ =>
  }

  /** Conservation and FIFO over every run: what was removed, in removal order, followed by what is
      still queued is exactly what was inserted; the storage manager wrote what it took, and the data
      manager's list is the result of what it took. */
  lemma {:induction false} Conservation(c: Config, steps: seq<Step>)
    ensures Conserved(c, Exec(c, steps))
  {
    if steps != [] {
      Conservation(c, steps[..|steps| - 1]);
      ConservedByStep(c, Exec(c, steps[..|steps| - 1]), steps[|steps| - 1]);
    }
  }
}
