/** Two runs of the transition system in which a reading is inserted with an id that its connection never
    sent. */
module ForeignIds {
  import opened ConnSpec
  import opened ListSpec
  import opened Protocol
  import opened Provenance
  import opened Readings
  import ConnTables

  const Ex: Config := Config(3, 2, 10, [])

  /** `poll` reports the listening socket only; the slot of the new connection is readable by accident. */
  function Knock(sd: int): Step {
    Poll(2, (k: nat) => (k == 0, false), Some(Offer(sd, true, false, 0)))
  }

  /** A whole record of sensor 7, and one of which only the last field arrives. */
  const Whole := ReceiveReading(Input(0, Got(7), Got(20.0), Got(1), 0, None, 0))
  const LastField := ReceiveReading(Input(0, Closed, Closed, Got(2), 0, None, 0))

  /** Connection 5 sends a record of sensor 7; then only a timestamp arrives from connection 6, which is
      new. */
  const TwoConnections: seq<Step> := [Knock(5), Whole, CheckSlot(0), Knock(6), Whole, CheckSlot(0), LastField]

  /** Connection 5 sends a record of sensor 7 and times out; the next connection gets its descriptor, and
      only a timestamp arrives from it. */
  const Reconnection: seq<Step> := [Knock(5), Whole, CheckSlot(100), Knock(5), LastField]

  function Slot(sd: int, pollIn: bool, sensor: SensorId): Conn {
    Conn(PollFd(sd, WATCHED, pollIn, false), Client(sd, 0, sensor))
  }

  function At(conns: seq<Conn>, data: Reading, phase: Phase, sent: seq<Reading>): State {
    State(conns, data, phase, sent, 0, Init(Ex).nodes, None, [], sent, [], [], [])
  }

  const First := Reading(7, 20.0, 1)
  const Second := Reading(7, 20.0, 2)

  function TwoConnectionsStates(): seq<State> {
    [Init(Ex),
     At([Slot(5, true, 0)], Reading(0, 0.0, 0), AtReceive(0), []),
     At([Slot(5, true, 7)], First, AtCheck(0), [First]),
     At([Slot(5, true, 7)], First, Polling, [First]),
     At([Slot(5, false, 7), Slot(6, true, 0)], First, AtReceive(0), [First]),
     At([Slot(5, false, 7), Slot(6, true, 0)], First, AtCheck(0), [First]),
     At([Slot(5, false, 7), Slot(6, true, 0)], First, AtReceive(1), [First]),
     At([Slot(5, false, 7), Slot(6, true, 7)], Second, AtCheck(1), [First, Second])]
  }

  function ReconnectionStates(): seq<State> {
    [Init(Ex),
     At([Slot(5, true, 0)], Reading(0, 0.0, 0), AtReceive(0), []),
     At([Slot(5, true, 7)], First, AtCheck(0), [First]),
     At([], First, Polling, [First]),
     At([Slot(5, true, 0)], First, AtReceive(0), [First]),
     At([Slot(5, true, 7)], Second, AtCheck(0), [First, Second])]
  }

  /** The states of a run, one by one. */
  ghost predicate Runs(steps: seq<Step>, states: seq<State>) {
    && |states| == |steps| + 1 && states[0] == Init(Ex)
    && (forall n :: 0 <= n < |states| ==> Sound(states[n]))
    && forall n :: 0 <= n < |steps| ==> states[n + 1] == Apply(Ex, states[n], steps[n])
  }

  lemma {:induction false} RunsAre(steps: seq<Step>, states: seq<State>, n: nat)
    requires Runs(steps, states) && n <= |steps|
    ensures StateAt(Ex, steps, n) == states[n]
  {
    hide Apply, StateAt;
    if n == 0 {
      Start(Ex, steps);
    } else {
      RunsAre(steps, states, n - 1);
      StateNext(Ex, steps, n - 1);
    }
  }

  /** A connection is let in while nothing else happens. */
  lemma KnockStep(conns: seq<Conn>, data: Reading, sent: seq<Reading>, sd: int)
    requires |conns| < 2 && Unused(Ex, conns, sd)
    ensures Apply(Ex, At(conns, data, Polling, sent), Knock(sd)) ==
            At(ConnTables.Polled(conns, (k: nat) => (k == 0, false)) + [Slot(sd, true, 0)], data, AtReceive(0), sent)
  {
  }

  lemma ReceiveStep(conns: seq<Conn>, k: nat, data: Reading, sent: seq<Reading>, step: Step)
    requires k < |conns| && step.ReceiveReading?
    ensures var r := Receive(conns[k], data, step.input, 10);
      Apply(Ex, At(conns, data, AtReceive(k), sent), step) == At(conns[k := r.conn], r.data, AtCheck(k), sent + r.sent)
  {
    hide Receive;
  }

  lemma CheckStep(conns: seq<Conn>, k: nat, data: Reading, sent: seq<Reading>, now: int)
    requires k < |conns|
    ensures var conns' := if Gone(conns[k], now, 10) then RemoveAt(conns, k) else conns;
      Apply(Ex, At(conns, data, AtCheck(k), sent), CheckSlot(now)) ==
      At(conns', data, PhaseAt(conns', if Gone(conns[k], now, 10) then k else k + 1), sent)
  {
    hide Gone;
  }

  lemma TwoConnectionsRun()
    ensures Runs(TwoConnections, TwoConnectionsStates())
  {
    hide Apply;
    KnockStep([], Reading(0, 0.0, 0), [], 5);
    ReceiveStep([Slot(5, true, 0)], 0, Reading(0, 0.0, 0), [], Whole);
    CheckStep([Slot(5, true, 7)], 0, First, [First], 0);
    KnockStep([Slot(5, true, 7)], First, [First], 6);
    ReceiveStep([Slot(5, false, 7), Slot(6, true, 0)], 0, First, [First], Whole);
    CheckStep([Slot(5, false, 7), Slot(6, true, 0)], 0, First, [First], 0);
    ReceiveStep([Slot(5, false, 7), Slot(6, true, 0)], 1, First, [First], LastField);
  }

  lemma ReconnectionRun()
    ensures Runs(Reconnection, ReconnectionStates())
  {
    hide Apply;
    KnockStep([], Reading(0, 0.0, 0), [], 5);
    ReceiveStep([Slot(5, true, 0)], 0, Reading(0, 0.0, 0), [], Whole);
    CheckStep([Slot(5, true, 7)], 0, First, [First], 100);
    KnockStep([], First, [First], 5);
    ReceiveStep([Slot(5, true, 0)], 0, First, [First], LastField);
  }

  /** Connection 6 is recorded with the sensor of connection 5, and a reading of that sensor is inserted
      for it. */
  lemma IdOfAnotherConnection()
    ensures Exec(Ex, TwoConnections).conns == [Slot(5, false, 7), Slot(6, true, 7)]
    ensures Exec(Ex, TwoConnections).inserted == [First, Second]
    ensures Inserts(Ex, TwoConnections, 6) && !OwnId(Ex, TwoConnections, 6)
  {
    hide StateAt, Exec, Runs, Apply, OwnId;
    TwoConnectionsRun();
    forall n: nat | n <= 7
      ensures StateAt(Ex, TwoConnections, n) == TwoConnectionsStates()[n]
    {
      RunsAre(TwoConnections, TwoConnectionsStates(), n);
    }
    End(Ex, TwoConnections);
    NotOwnAfter(TwoConnections, 6, 1);
  }

  /** The descriptor is the same, the connection is not: a connection that never sent an id is recorded
      with that of its predecessor. */
  lemma IdOfAnEarlierConnection()
    ensures Exec(Ex, Reconnection).conns == [Slot(5, true, 7)]
    ensures Exec(Ex, Reconnection).inserted == [First, Second]
    ensures Inserts(Ex, Reconnection, 4) && !OwnId(Ex, Reconnection, 4)
    ensures Receives(Ex, StateAt(Ex, Reconnection, 1), Reconnection[1])
    ensures VisitedAt(Ex, Reconnection, 1).sd == VisitedAt(Ex, Reconnection, 4).sd
  {
    hide StateAt, Exec, Runs, Apply, OwnId;
    ReconnectionRun();
    forall n: nat | n <= 5
      ensures StateAt(Ex, Reconnection, n) == ReconnectionStates()[n]
    {
      RunsAre(Reconnection, ReconnectionStates(), n);
    }
    End(Ex, Reconnection);
    assert SdsAt(Ex, Reconnection, 3) == [];
    NotOwnAfter(Reconnection, 4, 1);
  }

  /** Step `m` was the only one that delivered an id, and it visited another connection. */
  lemma NotOwnAfter(steps: seq<Step>, n: nat, m: nat)
    requires m < n < |steps| && Inserts(Ex, steps, n) && !steps[n].input.id.Got? && DeliversId(Ex, steps, m)
    requires forall j :: 0 <= j < n && j != m ==> !DeliversId(Ex, steps, j)
    requires !SameConnection(Ex, steps, m, n)
    ensures !OwnId(Ex, steps, n)
  {
    hide StateAt, Receives, SameConnection, OwnId;
    OwnIdExactly(Ex, steps, n);
  }
}
