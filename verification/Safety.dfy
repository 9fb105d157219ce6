/** What holds in every run of the three threads, however their steps interleave. */
module Safety {
  import opened ConnSpec
  import opened Protocol
  import opened Readings
  import opened SensorMap
  import opened Window
  import ConnTables

  // ---- Each reading goes to one consumer, in order ----

  /** The positions at which one consumer's removals stand in the removal order. */
  function Positions(removed: seq<Removal>, who: Consumer): (ps: seq<nat>)
    ensures |ps| == |TakenBy(removed, who)|
    ensures forall a :: 0 <= a < |ps| ==> ps[a] < |removed| && removed[ps[a]] == Removal(who, TakenBy(removed, who)[a])
    ensures forall a, b :: 0 <= a < b < |ps| ==> ps[a] < ps[b]
  {
    if removed == [] then []
    else
      var n := |removed| - 1;
      if removed[n].who == who then Positions(removed[..n], who) + [n] else Positions(removed[..n], who)
  }

  lemma {:induction false} SplitBetweenConsumers(removed: seq<Removal>)
    ensures multiset(AllTaken(removed)) ==
            multiset(TakenBy(removed, DataManager)) + multiset(TakenBy(removed, StorageManager))
  {
    if removed != [] {
      var before, last := removed[..|removed| - 1], removed[|removed| - 1];
      SplitBetweenConsumers(before);
      assert removed == before + [last];
      TakenBySnoc(before, last, DataManager);
      TakenBySnoc(before, last, StorageManager);
    }
  }

  /** Over every run each inserted reading is still queued or went to exactly one consumer, and each
      consumer received its readings in the order of insertion. */
  lemma EachReadingToOneConsumer(c: Config, steps: seq<Step>)
    ensures var s := Exec(c, steps);
      && multiset(s.inserted) == multiset(TakenBy(s.removed, DataManager)) +
                                 multiset(TakenBy(s.removed, StorageManager)) + multiset(s.queue)
      && forall who, a :: 0 <= a < |TakenBy(s.removed, who)| ==>
           Positions(s.removed, who)[a] < |s.inserted| &&
           s.inserted[Positions(s.removed, who)[a]] == TakenBy(s.removed, who)[a]
  {
    var s := Exec(c, steps);
    Conservation(c, steps);
    SplitBetweenConsumers(s.removed);
  }

  // ---- The data manager's list ----

  /** Over every run the node of a sensor depends only on the readings of that sensor that the data
      manager took, in their order. */
  lemma NodeInEveryRun(c: Config, steps: seq<Step>, i: nat)
    requires i < |LoadMap(c.lines)| && Reached(LoadMap(c.lines), i)
    ensures var s := Exec(c, steps);
      && |s.nodes| == |LoadMap(c.lines)|
      && s.nodes[i] == StepAll(LoadMap(c.lines)[i], OfSensor(TakenBy(s.removed, DataManager), s.nodes[i].sensor.id))
  {
    Conservation(c, steps);
    Isolation(LoadMap(c.lines), TakenBy(Exec(c, steps).removed, DataManager), i);
  }

  // ---- Stop signals ----

  /** The data manager took a reading with this id, and the map does not know it. */
  ghost predicate Reported(c: Config, removed: seq<Removal>, id: SensorId) {
    !Mapped(LoadMap(c.lines), id) && exists r :: r in TakenBy(removed, DataManager) && r.id == id
  }

  ghost predicate SignalsJustified(c: Config, s: State) {
    && (s.pending.Some? ==> Reported(c, s.removed, s.pending.value))
    && (s.mail != 0 ==> Reported(c, s.removed, s.mail))
    && forall k :: 0 <= k < |s.stopped| ==> s.stopped[k].sensor != 0 && Reported(c, s.removed, s.stopped[k].sensor)
  }

  lemma ReportedStays(c: Config, removed: seq<Removal>, r: Removal, id: SensorId)
    requires Reported(c, removed, id)
    ensures Reported(c, removed + [r], id)
  {
    TakenBySnoc(removed, r, DataManager);
    var x :| x in TakenBy(removed, DataManager) && x.id == id;
    assert x in TakenBy(removed + [r], DataManager);
  }

  lemma JustifiedStays(c: Config, s: State, r: Removal, s': State)
    requires SignalsJustified(c, s) && s'.removed == s.removed + [r]
    requires s'.mail == s.mail && s'.stopped == s.stopped
    requires s'.pending == s.pending || (s'.pending.Some? ==> Reported(c, s'.removed, s'.pending.value))
    ensures SignalsJustified(c, s')
  {
    forall id | Reported(c, s.removed, id)
      ensures Reported(c, s'.removed, id)
    {
      ReportedStays(c, s.removed, r, id);
    }
  }

  lemma JustifiedByDataRemove(c: Config, s: State)
    requires Sound(s) && Conserved(c, s) && SignalsJustified(c, s)
    ensures SignalsJustified(c, DoDataRemove(s))
  {
    if s.pending.None? && s.queue != [] {
      var r := Removal(DataManager, s.queue[0]);
      TakenBySnoc(s.removed, r, DataManager);
      assert r.reading in TakenBy(s.removed + [r], DataManager);
      FindIsStable(LoadMap(c.lines), TakenBy(s.removed, DataManager), r.reading.id);
      JustifiedStays(c, s, r, DoDataRemove(s));
    }
  }

  lemma JustifiedByStep(c: Config, s: State, step: Step)
    requires Sound(s) && Conserved(c, s) && SignalsJustified(c, s)
    ensures SignalsJustified(c, Apply(c, s, step))
  {
    hide Conserved, AllWellFormed, LoadMap, Receive, ConnTables.Polled, Accepted, AfterCheck, Reported;
    match step
    case DataRemove => JustifiedByDataRemove(c, s);
    case StorageRemove =>
      if s.queue != [] {
        JustifiedStays(c, s, Removal(StorageManager, s.queue[0]), DoStorageRemove(s));
      }
    case _ =>
  }

  lemma {:induction false} SignalsAreJustified(c: Config, steps: seq<Step>)
    ensures SignalsJustified(c, Exec(c, steps))
  {
    if steps != [] {
      var s := Exec(c, steps[..|steps| - 1]);
      SignalsAreJustified(c, steps[..|steps| - 1]);
      Conservation(c, steps[..|steps| - 1]);
      JustifiedByStep(c, s, steps[|steps| - 1]);
    }
  }

  lemma TakenWasRemoved(removed: seq<Removal>, who: Consumer, r: Reading)
    requires r in TakenBy(removed, who)
    ensures r in AllTaken(removed)
  {
    var a :| 0 <= a < |TakenBy(removed, who)| && TakenBy(removed, who)[a] == r;
    assert AllTaken(removed)[Positions(removed, who)[a]] == r;
  }

  /** Safety of the stop signal, over every interleaving: a connection is stopped by signal only for a
      sensor that the map does not know and of which a reading was inserted into the buffer and taken
      by the data manager.  A client recorded with a mapped id is never stopped by signal. */
  lemma StoppedOnlyIfReported(c: Config, steps: seq<Step>, k: nat)
    requires k < |Exec(c, steps).stopped|
    ensures var s, id := Exec(c, steps), Exec(c, steps).stopped[k].sensor;
      && id != 0 && !Mapped(LoadMap(c.lines), id)
      && exists r :: r in TakenBy(s.removed, DataManager) && r in s.inserted && r.id == id
  {
    var s := Exec(c, steps);
    SignalsAreJustified(c, steps);
    Conservation(c, steps);
    assert Reported(c, s.removed, s.stopped[k].sensor);
    var r :| r in TakenBy(s.removed, DataManager) && r.id == s.stopped[k].sensor;
    TakenWasRemoved(s.removed, DataManager, r);
    assert r in AllTaken(s.removed) + s.queue;
  }

  /** How many readings of unmapped sensors the data manager took. */
  function Unmapped(nodes: seq<SensorNode>, rs: seq<Reading>): nat {
    if rs == [] then 0 else Unmapped(nodes, rs[..|rs| - 1]) + if Mapped(nodes, rs[|rs| - 1].id) then 0 else 1
  }

  lemma UnmappedSnoc(nodes: seq<SensorNode>, rs: seq<Reading>, r: Reading)
    ensures Unmapped(nodes, rs + [r]) == Unmapped(nodes, rs) + if Mapped(nodes, r.id) then 0 else 1
  {
    assert (rs + [r])[..|rs|] == rs;
  }

  ghost predicate WithinBudget(c: Config, s: State) {
    |s.stopped| + Pending(s.mail) + (if s.pending.Some? then 1 else 0)
      <= Unmapped(LoadMap(c.lines), TakenBy(s.removed, DataManager))
  }

  lemma BudgetByDataRemove(c: Config, s: State)
    requires Sound(s) && Conserved(c, s) && WithinBudget(c, s)
    ensures WithinBudget(c, DoDataRemove(s))
  {
    if s.pending.None? && s.queue != [] {
      var taken, r := TakenBy(s.removed, DataManager), s.queue[0];
      TakenBySnoc(s.removed, Removal(DataManager, r), DataManager);
      FindIsStable(LoadMap(c.lines), taken, r.id);
      UnmappedSnoc(LoadMap(c.lines), taken, r);
    }
  }

  lemma BudgetByStep(c: Config, s: State, step: Step)
    requires Sound(s) && Conserved(c, s) && WithinBudget(c, s)
    ensures WithinBudget(c, Apply(c, s, step))
  {
    hide Conserved, AllWellFormed, LoadMap, Receive, ConnTables.Polled, Accepted, AfterCheck, Unmapped, TakenBy;
    match step
    case DataRemove => BudgetByDataRemove(c, s);
    case StorageRemove =>
      if s.queue != [] {
        TakenBySnoc(s.removed, Removal(StorageManager, s.queue[0]), DataManager);
        assert TakenBy(s.removed, DataManager) + [] == TakenBy(s.removed, DataManager);
      }
    case _ =>
  }

  /** Over every run no more connections are stopped by signal than readings of unmapped sensors were
      taken by the data manager: a signal is neither duplicated nor made up. */
  lemma {:induction false} SignalsAreNotDuplicated(c: Config, steps: seq<Step>)
    ensures WithinBudget(c, Exec(c, steps))
  {
    if steps != [] {
      SignalsAreNotDuplicated(c, steps[..|steps| - 1]);
      Conservation(c, steps[..|steps| - 1]);
      BudgetByStep(c, Exec(c, steps[..|steps| - 1]), steps[|steps| - 1]);
    }
  }

  // ---- Every signal is posted, and the mailbox holds the last one ----

  /** The ids of the readings that the map does not know, in order. */
  function UnmappedIds(c: Config, rs: seq<Reading>): seq<SensorId> {
    if rs == [] then []
    else
      var before, id := UnmappedIds(c, rs[..|rs| - 1]), rs[|rs| - 1].id;
      if Mapped(LoadMap(c.lines), id) then before else before + [id]
  }

  lemma UnmappedIdsSnoc(c: Config, rs: seq<Reading>, r: Reading)
    ensures UnmappedIds(c, rs + [r]) == UnmappedIds(c, rs) + if Mapped(LoadMap(c.lines), r.id) then [] else [r.id]
  {
    assert (rs + [r])[..|rs|] == rs;
  }

  /** The ids that were posted, and the clients that were stopped, in order. */
  function PostedIds(signals: seq<Signal>): seq<SensorId> {
    if signals == [] then []
    else
      var before, last := PostedIds(signals[..|signals| - 1]), signals[|signals| - 1];
      if last.Post? then before + [last.id] else before
  }

  function StoppedClients(signals: seq<Signal>): seq<Client> {
    if signals == [] then []
    else
      var before, last := StoppedClients(signals[..|signals| - 1]), signals[|signals| - 1];
      if last.Stop? then before + [last.client] else before
  }

  lemma SignalsSnoc(signals: seq<Signal>, x: Signal)
    ensures PostedIds(signals + [x]) == PostedIds(signals) + if x.Post? then [x.id] else []
    ensures StoppedClients(signals + [x]) == StoppedClients(signals) + if x.Stop? then [x.client] else []
  {
    assert (signals + [x])[..|signals|] == signals;
  }

  /** Nothing is lost before the mailbox and nothing made up; the mailbox holds the last post unless it was
      used up; and every stop uses up the post right before it, which is for the id of that client. */
  ghost predicate SignalsExact(c: Config, s: State) {
    && PostedIds(s.signals) + (if s.pending.Some? then [s.pending.value] else []) ==
       UnmappedIds(c, TakenBy(s.removed, DataManager))
    && StoppedClients(s.signals) == s.stopped
    && s.mail == (if s.signals != [] && s.signals[|s.signals| - 1].Post? then s.signals[|s.signals| - 1].id else 0)
    && forall j :: 0 <= j < |s.signals| && s.signals[j].Stop? ==>
         j > 0 && s.signals[j].client.sensor != 0 && s.signals[j - 1] == Post(s.signals[j].client.sensor)
  }

  lemma ExactByDataRemove(c: Config, s: State)
    requires Sound(s) && Conserved(c, s) && SignalsExact(c, s)
    ensures SignalsExact(c, DoDataRemove(s))
  {
    hide LoadMap, ConsumeAll, PostedIds, StoppedClients, UnmappedIds, TakenBy, AllTaken, Consume;
    if s.pending.None? && s.queue != [] {
      var taken, r := TakenBy(s.removed, DataManager), s.queue[0];
      TakenBySnoc(s.removed, Removal(DataManager, r), DataManager);
      FindIsStable(LoadMap(c.lines), taken, r.id);
      UnmappedIdsSnoc(c, taken, r);
    }
  }

  lemma ExactByDataPost(c: Config, s: State)
    requires SignalsExact(c, s)
    ensures SignalsExact(c, DoDataPost(s))
  {
    hide PostedIds, StoppedClients, UnmappedIds, TakenBy;
    if s.pending.Some? {
      SignalsSnoc(s.signals, Post(s.pending.value));
      assert StoppedClients(s.signals) + [] == StoppedClients(s.signals);
    }
  }

  lemma ExactByCheck(c: Config, s: State, now: int)
    requires Sound(s) && SignalsExact(c, s)
    ensures SignalsExact(c, DoCheck(c, s, now))
  {
    hide PostedIds, StoppedClients, UnmappedIds, TakenBy, Gone, AfterCheck, PhaseAt;
    if s.phase.AtCheck? {
      SignalsSnoc(s.signals, Stop(s.conns[s.phase.k].client));
      assert PostedIds(s.signals) + [] == PostedIds(s.signals);
    }
  }

  lemma ExactByStep(c: Config, s: State, step: Step)
    requires Sound(s) && Conserved(c, s) && SignalsExact(c, s)
    ensures SignalsExact(c, Apply(c, s, step))
  {
    hide Conserved, AllWellFormed, LoadMap, Receive, ConnTables.Polled, Accepted, TakenBy, UnmappedIds,
         PostedIds, StoppedClients;
    match step
    case DataRemove => ExactByDataRemove(c, s);
    case DataPost => ExactByDataPost(c, s);
    case CheckSlot(now) => ExactByCheck(c, s, now);
    case StorageRemove =>
      if s.queue != [] {
        TakenBySnoc(s.removed, Removal(StorageManager, s.queue[0]), DataManager);
        assert TakenBy(s.removed, DataManager) + [] == TakenBy(s.removed, DataManager);
      }
    case _ =>
  }

  /** Over every run: the ids posted, followed by one that is about to be, are exactly the unmapped ids among
      the readings that the data manager took, in order; the mailbox holds the last one posted unless a
      connection was stopped since, and 0 otherwise; and each connection stopped by signal was recorded
      with the id posted last before. */
  lemma {:induction false} SignalsAreExact(c: Config, steps: seq<Step>)
    ensures SignalsExact(c, Exec(c, steps))
  {
    if steps != [] {
      SignalsAreExact(c, steps[..|steps| - 1]);
      Conservation(c, steps[..|steps| - 1]);
      ExactByStep(c, Exec(c, steps[..|steps| - 1]), steps[|steps| - 1]);
    }
  }

  // ---- The connections ----

  ghost predicate TableSafe(c: Config, s: State) {
    |s.conns| <= c.maxConn && ConnTables.Agreed(s.conns, c.sv)
  }

  lemma TableSafeByStep(c: Config, s: State, step: Step)
    requires Sound(s) && TableSafe(c, s)
    ensures TableSafe(c, Apply(c, s, step))
  {
    match step
    case Poll(ret, events, offer) =>
      var added := Accepted(c, s.conns, events(0).0, offer);
      if added != [] {
        ConnTables.AgreedGrows(ConnTables.Polled(s.conns, events), c.sv, added[0]);
        assert added == [added[0]];
      }
    case CheckSlot(now) =>
      if s.phase.AtCheck? {
        ConnTables.AgreedShrinks(s.conns, c.sv, s.phase.k);
      }
    case _ =>
  }

  /** In every reachable state each slot's descriptor is that of its client, no descriptor occurs
      twice, none is the listening one, and there are at most `maxConn` connections. */
  lemma {:induction false} TableIsSafe(c: Config, steps: seq<Step>)
    ensures TableSafe(c, Exec(c, steps))
  {
    if steps != [] {
      TableIsSafe(c, steps[..|steps| - 1]);
      TableSafeByStep(c, Exec(c, steps[..|steps| - 1]), steps[|steps| - 1]);
    }
  }
}
