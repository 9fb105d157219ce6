/** A sweep that is interleaved with the other threads has the effect of the sequential sweep that
    `ConnListen.SweepLoop` performs, for suitable posts. */
module Refinement {
  import opened ConnSpec
  import opened Protocol
  import opened Readings
  import ConnListen
  import ConnTables
  import SensorMap

  /** The step that a turn of the main loop begins with: every outcome of the accept path is a step of the
      transition system. */
  lemma PollRefines(c: Config, s: State, round: ConnListen.Round, added: seq<Conn>)
    requires s.phase.Polling? && ConnListen.Goes(round, s.conns) && ConnListen.Fresh(round.accept)
    requires ConnListen.Admitted(ConnListen.Offered(c.sv, c.maxConn, s.conns, round), round.now, added)
    ensures var offer := if added == [] then None
                         else Some(Offer(added[0].pfd.fd, added[0].pfd.pollIn, added[0].pfd.pollHup, round.now));
      var conns := ConnTables.Polled(s.conns, round.events) + added;
      var ret := round.pollRet - if ConnListen.Knocked(c.maxConn, s.conns, round) then 1 else 0;
      DoPoll(c, s, round.pollRet, round.events, offer) ==
      s.(conns := conns, phase := if ret > 0 then PhaseAt(conns, 0) else Polling)
  {
    if added != [] {
      var fds := ConnTables.Fds(c.sv, s.conns);
      assert added[0].pfd.fd !in fds;
      assert forall k :: 0 <= k < |s.conns| ==> s.conns[k].pfd.fd in fds;
      assert added == Accepted(c, s.conns, round.events(0).0,
                               Some(Offer(added[0].pfd.fd, added[0].pfd.pollIn, added[0].pfd.pollHup, round.now)));
    }
  }

  /** The main loop does not go on exactly if `poll` failed, or timed out without a connection; then no
      outcome of the accept path and no event makes a step. */
  lemma PollEnds(c: Config, s: State, round: ConnListen.Round, events: nat -> (bool, bool), offer: Option<Offer>)
    ensures ConnListen.Goes(round, s.conns) <==> round.pollRet != -1 && (round.pollRet != 0 || s.conns != [])
    ensures !ConnListen.Goes(round, s.conns) ==> DoPoll(c, s, round.pollRet, events, offer) == s
  {
  }

  /** The steps of one visit: other threads' steps before and between its two atomic parts. */
  datatype Interleaved = Interleaved(before: seq<Step>, input: Input, between: seq<Step>, now: int)

  predicate OthersOnly(steps: seq<Step>) {
    forall k :: 0 <= k < |steps| ==> steps[k].DataRemove? || steps[k].DataPost? || steps[k].StorageRemove?
  }

  function RunFrom(c: Config, s: State, steps: seq<Step>): (s': State)
    requires Sound(s)
    ensures Sound(s')
  {
    if steps == [] then s
    else
      StepIsSound(c, RunFrom(c, s, steps[..|steps| - 1]), steps[|steps| - 1]);
      Apply(c, RunFrom(c, s, steps[..|steps| - 1]), steps[|steps| - 1])
  }

  /** The other threads do not touch what the connection manager keeps. */
  ghost predicate SameConnections(s: State, s': State) {
    && s'.conns == s.conns && s'.data == s.data && s'.phase == s.phase
    && s'.inserted == s.inserted && s'.stopped == s.stopped
  }

  lemma {:induction false} OthersKeepConnections(c: Config, s: State, steps: seq<Step>)
    requires Sound(s) && OthersOnly(steps)
    ensures SameConnections(s, RunFrom(c, s, steps))
  {
    if steps != [] {
      OthersKeepConnections(c, s, steps[..|steps| - 1]);
    }
  }

  function AtMutex(c: Config, s: State, v: Interleaved): (s': State)
    requires Sound(s)
    ensures Sound(s')
  {
    var s1 := RunFrom(c, s, v.before);
    StepIsSound(c, s1, ReceiveReading(v.input));
    RunFrom(c, Apply(c, s1, ReceiveReading(v.input)), v.between)
  }

  function AfterInterleaved(c: Config, s: State, v: Interleaved): (s': State)
    requires Sound(s)
    ensures Sound(s')
  {
    StepIsSound(c, AtMutex(c, s, v), CheckSlot(v.now));
    Apply(c, AtMutex(c, s, v), CheckSlot(v.now))
  }

  /** The input of the sequential visit: what the mailbox holds when the mutex is taken counts as
      posted since the previous visit. */
  function AsInput(c: Config, s: State, v: Interleaved): Input
    requires Sound(s)
  {
    v.input.(post := Some(AtMutex(c, s, v).mail), nowCheck := v.now)
  }

  /** One interleaved visit is one sequential visit. */
  lemma VisitRefines(c: Config, s: State, v: Interleaved)
    requires Sound(s) && s.phase.AtReceive? && OthersOnly(v.before) && OthersOnly(v.between)
    ensures var s' := AfterInterleaved(c, s, v);
      var o := Visit(s.conns[s.phase.k], s.data, s.mail, AsInput(c, s, v), c.timeout);
      && s'.conns == AfterVisit(s.conns, s.phase.k, o) && s'.data == o.data && s'.mail == o.mail
      && s'.inserted == s.inserted + o.sent
      && s'.stopped == (if o.verdict == StopBySignal then s.stopped + [o.conn.client] else s.stopped)
      && s'.phase == PhaseAt(s'.conns, if o.verdict == Keep then s.phase.k + 1 else s.phase.k)
  {
    var s1 := RunFrom(c, s, v.before);
    OthersKeepConnections(c, s, v.before);
    StepIsSound(c, s1, ReceiveReading(v.input));
    OthersKeepConnections(c, Apply(c, s1, ReceiveReading(v.input)), v.between);
  }

  function AfterVisits(c: Config, s: State, vs: seq<Interleaved>, n: nat): (s': State)
    requires Sound(s) && n <= |vs|
    ensures Sound(s')
  {
    if n == 0 then s else AfterInterleaved(c, AfterVisits(c, s, vs, n - 1), vs[n - 1])
  }

  /** The sequential sweep `p` that the interleaved one amounts to. */
  ghost predicate Describes(p: Pass, c: Config, s: State, vs: seq<Interleaved>)
    requires Sound(s)
  {
    && p.conns == s.conns && p.data == s.data && p.mail == s.mail && p.timeout == c.timeout
    && forall k: nat {:trigger p.ins(k)} :: k < |vs| ==> p.ins(k) == AsInput(c, AfterVisits(c, s, vs, k), vs[k])
  }

  function AsPass(c: Config, s: State, vs: seq<Interleaved>): (p: Pass)
    requires Sound(s)
    ensures Describes(p, c, s, vs)
  {
    Pass(s.conns, s.data, s.mail,
         (k: nat) => if k < |vs| then AsInput(c, AfterVisits(c, s, vs, k), vs[k])
                     else Input(0, Closed, Closed, Closed, 0, None, 0),
         c.timeout)
  }

  /** From `s`, the state `s'` is where the sequential sweep `p` is after `n` visits. */
  ghost predicate Matches(s: State, s': State, p: Pass, n: nat)
    requires n <= |p.conns|
  {
    && s'.conns == InUse(p, n) && s'.data == SweepTo(p, n).data && s'.mail == SweepTo(p, n).mail
    && s'.inserted == s.inserted + SweepTo(p, n).sent && s'.stopped == s.stopped + SweepTo(p, n).stopped
    && s'.phase == PhaseAt(s'.conns, |SweepTo(p, n).kept|)
  }

  lemma MatchesNext(c: Config, s: State, s1: State, v: Interleaved, p: Pass, n: nat)
    requires Sound(s1) && n < |p.conns| && Matches(s, s1, p, n)
    requires p.timeout == c.timeout && p.ins(n) == AsInput(c, s1, v) && OthersOnly(v.before) && OthersOnly(v.between)
    ensures Matches(s, AfterInterleaved(c, s1, v), p, n + 1)
  {
    hide Sound, OthersOnly, SweepTo, InUse, Visit, AfterVisit, AfterInterleaved, AsInput;
    VisitInPlace(p, n);
    VisitRefines(c, s1, v);
  }

  /** The interleaved sweep is in step with the sequential one after `n` visits. */
  ghost predicate InStep(c: Config, s: State, vs: seq<Interleaved>, p: Pass, n: nat)
    requires Sound(s) && n <= |vs| && n <= |p.conns|
  {
    Matches(s, AfterVisits(c, s, vs, n), p, n)
  }

  lemma SameStart(p: Pass, c: Config, s: State, vs: seq<Interleaved>)
    requires Sound(s) && Describes(p, c, s, vs)
    ensures p.conns == s.conns && p.data == s.data && p.mail == s.mail
  {
  }

  lemma InStepFirst(c: Config, s: State, vs: seq<Interleaved>, p: Pass)
    requires Sound(s) && s.phase == PhaseAt(s.conns, 0)
    requires p.conns == s.conns && p.data == s.data && p.mail == s.mail
    ensures InStep(c, s, vs, p, 0)
  {
  }

  lemma InStepNext(c: Config, s: State, vs: seq<Interleaved>, p: Pass, n: nat)
    requires Sound(s) && n < |vs| == |p.conns| && InStep(c, s, vs, p, n)
    requires OthersOnly(vs[n].before) && OthersOnly(vs[n].between) && Describes(p, c, s, vs)
    ensures InStep(c, s, vs, p, n + 1)
  {
    var s1 := AfterVisits(c, s, vs, n);
    assert p.ins(n) == AsInput(c, s1, vs[n]);
    MatchesNext(c, s, s1, vs[n], p, n);
  }

  /** Every interleaving of a sweep with the data manager and the storage manager leaves the
      connections, the mailbox, the readings sent and the connections stopped that the sequential
      sweep leaves; in particular it visits every slot once and keeps the survivors in order. */
  lemma {:induction false} SweepRefines(c: Config, s: State, vs: seq<Interleaved>, p: Pass, n: nat)
    requires Sound(s) && s.phase == PhaseAt(s.conns, 0) && n <= |vs| == |s.conns|
    requires forall k :: 0 <= k < |vs| ==> OthersOnly(vs[k].before) && OthersOnly(vs[k].between)
    requires Describes(p, c, s, vs)
    ensures InStep(c, s, vs, p, n)
  {
    hide *;
    SameStart(p, c, s, vs);
    if n == 0 {
      InStepFirst(c, s, vs, p);
    } else {
      SweepRefines(c, s, vs, p, n - 1);
      InStepNext(c, s, vs, p, n - 1);
    }
  }

  /** For every interleaving there is such a sequential sweep; after the last visit the connection
      manager is back in `poll`, with the survivors of that sweep. */
  lemma SweepEnds(c: Config, s: State, vs: seq<Interleaved>)
    requires Sound(s) && s.phase == PhaseAt(s.conns, 0) && |vs| == |s.conns|
    requires forall k :: 0 <= k < |vs| ==> OthersOnly(vs[k].before) && OthersOnly(vs[k].between)
    ensures var s', p := AfterVisits(c, s, vs, |vs|), AsPass(c, s, vs);
      s'.phase == Polling && s'.conns == SweepTo(p, |vs|).kept && s'.mail == SweepTo(p, |vs|).mail
  {
    SweepRefines(c, s, vs, AsPass(c, s, vs), |vs|);
  }

  // ---- Turns of the main loop ----

  /** One turn of the main loop: the steps of other threads during `poll`, what `poll` and the accept path
      do, and the interleaved visits. */
  datatype Turn = Turn(before: seq<Step>, round: ConnListen.Round, added: seq<Conn>, vs: seq<Interleaved>)

  /** What the connection manager works on; the other threads only remove from the queue, so what was
      inserted stands for it. */
  function ViewOf(s: State): ConnListen.View {
    ConnListen.View(s.conns, s.data, s.mail, s.inserted)
  }

  function PollStep(t: Turn): Step {
    Poll(t.round.pollRet, t.round.events,
         if t.added == [] then None
         else Some(Offer(t.added[0].pfd.fd, t.added[0].pfd.pollIn, t.added[0].pfd.pollHup, t.round.now)))
  }

  function AfterPoll(c: Config, s: State, t: Turn): (s': State)
    requires Sound(s)
    ensures Sound(s')
  {
    StepIsSound(c, RunFrom(c, s, t.before), PollStep(t));
    Apply(c, RunFrom(c, s, t.before), PollStep(t))
  }

  function AfterTurn(c: Config, s: State, t: Turn): (s': State)
    requires Sound(s)
    ensures Sound(s')
  {
    AfterVisits(c, AfterPoll(c, s, t), t.vs, |t.vs|)
  }

  function SetupOf(c: Config): ConnListen.Setup {
    ConnListen.Setup(c.sv, c.maxConn, c.timeout)
  }

  predicate Sweeps(c: Config, s: State, t: Turn) {
    t.round.pollRet - (if ConnListen.Knocked(c.maxConn, s.conns, t.round) then 1 else 0) > 0
  }

  /** A turn that can happen in `s`: it does not end the loop, the accept path does what it does, and every
      slot is visited or none. */
  ghost predicate IsTurn(c: Config, s: State, t: Turn)
    requires Sound(s)
  {
    && s.phase.Polling? && OthersOnly(t.before) && ConnListen.Goes(t.round, s.conns) && ConnListen.Fresh(t.round.accept)
    && ConnListen.Admitted(ConnListen.Offered(c.sv, c.maxConn, s.conns, t.round), t.round.now, t.added)
    && |t.vs| == (if Sweeps(c, s, t) then |s.conns| + |t.added| else 0)
    && forall k :: 0 <= k < |t.vs| ==> OthersOnly(t.vs[k].before) && OthersOnly(t.vs[k].between)
  }

  /** The lap that the turn amounts to. */
  function LapOf(c: Config, s: State, t: Turn): ConnListen.Lap
    requires Sound(s)
  {
    ConnListen.Lap(t.added, AsPass(c, AfterPoll(c, s, t), t.vs), Sweeps(c, s, t))
  }

  lemma AfterPollIs(c: Config, s: State, t: Turn)
    requires Sound(s) && IsTurn(c, s, t)
    ensures var s1, s2 := RunFrom(c, s, t.before), AfterPoll(c, s, t);
      && SameConnections(s, s1)
      && s2.conns == ConnTables.Polled(s.conns, t.round.events) + t.added
      && s2.data == s.data && s2.mail == s1.mail && s2.inserted == s.inserted
      && s2.phase == if Sweeps(c, s, t) then PhaseAt(s2.conns, 0) else Polling
  {
    OthersKeepConnections(c, s, t.before);
    PollRefines(c, RunFrom(c, s, t.before), t.round, t.added);
  }

  /** A turn of the main loop, interleaved with the other threads in any way, is a turn as `ConnListen.Turn`
      describes it, started with the mailbox as it is when `poll` returns; afterwards the connection
      manager is in `poll` again. */
  lemma TurnRefines(c: Config, s: State, t: Turn)
    requires Sound(s) && IsTurn(c, s, t)
    ensures var v, lap, s' := ViewOf(s).(mail := RunFrom(c, s, t.before).mail), LapOf(c, s, t), AfterTurn(c, s, t);
      && s'.phase == Polling
      && ConnListen.IsLap(SetupOf(c), v, t.round.(ins := lap.p.ins), lap)
      && ViewOf(s') == ConnListen.AfterLap(v, lap)
  {
    hide RunFrom, AfterPoll, ConnListen.Admitted, ConnListen.Goes, ConnListen.Fresh, OthersOnly, SweepTo, InUse;
    var s2 := AfterPoll(c, s, t);
    AfterPollIs(c, s, t);
    var p := AsPass(c, s2, t.vs);
    SameStart(p, c, s2, t.vs);
    if Sweeps(c, s, t) {
      SweepRefines(c, s2, t.vs, p, |t.vs|);
      AllVisited(p);
    } else {
      NothingVisited(p, s.inserted);
    }
  }

  lemma AllVisited(p: Pass)
    ensures |InUse(p, |p.conns|)| == |SweepTo(p, |p.conns|).kept|
  {
  }

  lemma NothingVisited(p: Pass, inserted: seq<Reading>)
    ensures InUse(p, 0) == p.conns && SweepTo(p, 0).data == p.data && SweepTo(p, 0).mail == p.mail
    ensures inserted + SweepTo(p, 0).sent == inserted
  {
  }

  // ---- The main loop ----

  function AfterTurns(c: Config, s: State, ts: seq<Turn>, n: nat): (s': State)
    requires Sound(s) && n <= |ts|
    ensures Sound(s')
  {
    if n == 0 then s else AfterTurn(c, AfterTurns(c, s, ts, n - 1), ts[n - 1])
  }

  function StepsOfVisits(vs: seq<Interleaved>, n: nat): seq<Step>
    requires n <= |vs|
  {
    if n == 0 then []
    else
      var v := vs[n - 1];
      StepsOfVisits(vs, n - 1) + (v.before + [ReceiveReading(v.input)] + v.between + [CheckSlot(v.now)])
  }

  function StepsOf(ts: seq<Turn>, n: nat): seq<Step>
    requires n <= |ts|
  {
    if n == 0 then []
    else
      var t := ts[n - 1];
      StepsOf(ts, n - 1) + (t.before + [PollStep(t)] + StepsOfVisits(t.vs, |t.vs|))
  }

  lemma {:induction false} RunFromConcat(c: Config, s: State, a: seq<Step>, b: seq<Step>)
    requires Sound(s)
    ensures RunFrom(c, s, a + b) == RunFrom(c, RunFrom(c, s, a), b)
  {
    if b == [] {
      assert a + b == a;
    } else {
      RunFromConcat(c, s, a, b[..|b| - 1]);
      assert (a + b)[..|a + b| - 1] == a + b[..|b| - 1];
    }
  }

  lemma RunFromOne(c: Config, s: State, a: seq<Step>, step: Step)
    requires Sound(s)
    ensures RunFrom(c, s, a + [step]) == Apply(c, RunFrom(c, s, a), step)
  {
    assert (a + [step])[..|a|] == a;
  }

  lemma NoSteps(c: Config, s: State)
    requires Sound(s)
    ensures RunFrom(c, s, []) == s
  {
  }

  lemma VisitIsRun(c: Config, s: State, v: Interleaved)
    requires Sound(s)
    ensures AfterInterleaved(c, s, v) ==
            RunFrom(c, s, v.before + [ReceiveReading(v.input)] + v.between + [CheckSlot(v.now)])
  {
    hide RunFrom, Apply;
    RunFromOne(c, s, v.before, ReceiveReading(v.input));
    RunFromConcat(c, s, v.before + [ReceiveReading(v.input)], v.between);
    RunFromOne(c, s, v.before + [ReceiveReading(v.input)] + v.between, CheckSlot(v.now));
  }

  lemma {:induction false} VisitsAreRun(c: Config, s: State, vs: seq<Interleaved>, n: nat)
    requires Sound(s) && n <= |vs|
    ensures AfterVisits(c, s, vs, n) == RunFrom(c, s, StepsOfVisits(vs, n))
  {
    hide RunFrom, AfterInterleaved;
    if n == 0 {
      NoSteps(c, s);
    } else {
      var v := vs[n - 1];
      VisitsAreRun(c, s, vs, n - 1);
      VisitIsRun(c, AfterVisits(c, s, vs, n - 1), v);
      RunFromConcat(c, s, StepsOfVisits(vs, n - 1),
                    v.before + [ReceiveReading(v.input)] + v.between + [CheckSlot(v.now)]);
    }
  }

  /** Turns of the main loop, with whatever the other threads do between their parts, are a run of the
      transition system; so everything that holds in every run holds for the main loop. */
  lemma {:induction false} TurnsAreRun(c: Config, s: State, ts: seq<Turn>, n: nat)
    requires Sound(s) && n <= |ts|
    ensures AfterTurns(c, s, ts, n) == RunFrom(c, s, StepsOf(ts, n))
  {
    hide Apply, AfterVisits, StepsOfVisits;
    if n > 0 {
      var t, s1 := ts[n - 1], AfterTurns(c, s, ts, n - 1);
      TurnsAreRun(c, s, ts, n - 1);
      RunFromOne(c, s1, t.before, PollStep(t));
      VisitsAreRun(c, AfterPoll(c, s1, t), t.vs, |t.vs|);
      RunFromConcat(c, s1, t.before + [PollStep(t)], StepsOfVisits(t.vs, |t.vs|));
      RunFromConcat(c, s, StepsOf(ts, n - 1), t.before + [PollStep(t)] + StepsOfVisits(t.vs, |t.vs|));
    }
  }

  lemma {:induction false} RunFromInit(c: Config, steps: seq<Step>)
    ensures Exec(c, steps) == RunFrom(c, Init(c), steps)
  {
    if steps != [] {
      RunFromInit(c, steps[..|steps| - 1]);
    }
  }

  /** The views between the turns and the mailboxes that the turns start with. */
  ghost predicate LoopRefined(c: Config, s: State, ts: seq<Turn>, k: nat)
    requires Sound(s) && k < |ts|
  {
    var before, after, t := AfterTurns(c, s, ts, k), AfterTurns(c, s, ts, k + 1), ts[k];
    var v, lap := ViewOf(before).(mail := RunFrom(c, before, t.before).mail), LapOf(c, before, t);
    && after.phase == Polling && ConnListen.IsLap(SetupOf(c), v, t.round.(ins := lap.p.ins), lap)
    && ViewOf(after) == ConnListen.AfterLap(v, lap)
  }

  lemma LoopTurn(c: Config, s: State, ts: seq<Turn>, k: nat)
    requires Sound(s) && k < |ts| && IsTurn(c, AfterTurns(c, s, ts, k), ts[k])
    ensures LoopRefined(c, s, ts, k)
  {
    hide Sound, IsTurn, RunFrom, ViewOf, LapOf, AfterTurn, ConnListen.IsLap, ConnListen.AfterLap;
    TurnRefines(c, AfterTurns(c, s, ts, k), ts[k]);
  }

  lemma InitIsSound(c: Config)
    ensures Sound(Init(c))
  {
  }

  /** The main loop from the start of the program, interleaved with the other threads in any way: it is a
      run of the transition system, and each of its turns is a lap from what the previous one left, with
      the mailbox as the other threads left it. */
  lemma LoopRefines(c: Config, ts: seq<Turn>)
    requires forall k :: 0 <= k < |ts| ==> IsTurn(c, AfterTurns(c, Init(c), ts, k), ts[k])
    ensures AfterTurns(c, Init(c), ts, |ts|) == Exec(c, StepsOf(ts, |ts|))
    ensures forall k :: 0 <= k < |ts| ==> LoopRefined(c, Init(c), ts, k)
  {
    hide *;
    InitIsSound(c);
    TurnsAreRun(c, Init(c), ts, |ts|);
    RunFromInit(c, StepsOf(ts, |ts|));
    forall k | 0 <= k < |ts|
      ensures LoopRefined(c, Init(c), ts, k)
    {
      LoopTurn(c, Init(c), ts, k);
    }
  }

  // ---- The data manager ----

  /** A turn of the data manager, as `DataMgrs.DataMgr.HandleFrom` describes it, is its two steps: it takes the
      oldest reading and, if that is of an unmapped sensor, posts the id; other threads' steps may come
      between. */
  lemma DataTurnRefines(c: Config, s: State, between: seq<Step>)
    requires Sound(s) && s.pending.None? && s.queue != []
    requires forall k :: 0 <= k < |between| ==> !between[k].DataRemove? && !between[k].DataPost?
    ensures var r, s' := s.queue[0], DoDataPost(RunFrom(c, DoDataRemove(s), between));
      && s'.nodes == SensorMap.Consume(s.nodes, r) && s'.pending == None
      && (!SensorMap.Mapped(s.nodes, r.id) ==> s'.mail == r.id)
      && (SensorMap.Mapped(s.nodes, r.id) ==> s'.mail == RunFrom(c, DoDataRemove(s), between).mail)
  {
    StepIsSound(c, s, DataRemove);
    OthersKeepNodes(c, DoDataRemove(s), between);
  }

  lemma {:induction false} OthersKeepNodes(c: Config, s: State, steps: seq<Step>)
    requires Sound(s)
    requires forall k :: 0 <= k < |steps| ==> !steps[k].DataRemove? && !steps[k].DataPost?
    ensures RunFrom(c, s, steps).nodes == s.nodes && RunFrom(c, s, steps).pending == s.pending
  {
    if steps != [] {
      OthersKeepNodes(c, s, steps[..|steps| - 1]);
    }
  }
}
