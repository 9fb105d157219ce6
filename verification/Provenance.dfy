/** Whose reading it is.  Lines 116-120 of `connmgr.c` receive three fields into one variable that all
    connections share, and line 122 looks at the last receive only; so a field that did not arrive keeps
    what an earlier receive left there, possibly from another connection. */
module Provenance {
  import opened ConnSpec
  import opened ListSpec
  import opened Protocol
  import opened Readings
  import ConnTables
  import Safety

  function StateAt(c: Config, steps: seq<Step>, n: nat): (s: State)
    requires n <= |steps|
    ensures Sound(s)
  {
    Exec(c, steps[..n])
  }

  lemma StateNext(c: Config, steps: seq<Step>, n: nat)
    requires n < |steps|
    ensures StateAt(c, steps, n + 1) == Apply(c, StateAt(c, steps, n), steps[n])
  {
    assert steps[..n + 1][..n] == steps[..n];
  }

  lemma Start(c: Config, steps: seq<Step>)
    ensures StateAt(c, steps, 0) == Init(c)
  {
  }

  lemma End(c: Config, steps: seq<Step>)
    ensures StateAt(c, steps, |steps|) == Exec(c, steps)
  {
    assert steps[..|steps|] == steps;
  }

  /** The step runs the three receives for the connection that is being visited. */
  predicate Receives(c: Config, s: State, step: Step)
    requires Sound(s)
  {
    step.ReceiveReading? && s.phase.AtReceive? && Readable(s.conns[s.phase.k], step.input.nowGuard, c.timeout)
  }

  /** Step `n` delivers an id from the connection that it visits. */
  predicate DeliversId(c: Config, steps: seq<Step>, n: nat)
    requires n < |steps|
  {
    Receives(c, StateAt(c, steps, n), steps[n]) && steps[n].input.id.Got?
  }

  /** Step `n` inserts a reading for the connection that it visits. */
  predicate Inserts(c: Config, steps: seq<Step>, n: nat)
    requires n < |steps|
  {
    Receives(c, StateAt(c, steps, n), steps[n]) && steps[n].input.ts.Got?
  }

  /** The client that step `n` visits. */
  function VisitedAt(c: Config, steps: seq<Step>, n: nat): Client
    requires n < |steps| && Receives(c, StateAt(c, steps, n), steps[n])
  {
    StateAt(c, steps, n).conns[StateAt(c, steps, n).phase.k].client
  }

  // ---- The id in the shared variable ----

  /** The latest of the first `n` steps that delivered an id, or -1. */
  function LastDelivery(c: Config, steps: seq<Step>, n: nat): (m: int)
    requires n <= |steps|
    ensures -1 <= m < n
    ensures m >= 0 ==> DeliversId(c, steps, m)
    ensures forall j :: 0 <= j < n && m < j ==> !DeliversId(c, steps, j)
  {
    if n == 0 then -1 else if DeliversId(c, steps, n - 1) then n - 1 else LastDelivery(c, steps, n - 1)
  }

  /** The id in the shared variable after the first `n` steps. */
  function IdAfter(c: Config, steps: seq<Step>, n: nat): SensorId
    requires n <= |steps|
  {
    var m := LastDelivery(c, steps, n);
    if m == -1 then 0 else steps[m].input.id.value
  }

  lemma IdByStep(c: Config, s: State, step: Step)
    requires Sound(s)
    ensures Apply(c, s, step).data.id ==
            if Receives(c, s, step) && step.input.id.Got? then step.input.id.value else s.data.id
  {
  }

  lemma IdAfterNext(c: Config, steps: seq<Step>, n: nat)
    requires n < |steps|
    ensures IdAfter(c, steps, n + 1) ==
            if Receives(c, StateAt(c, steps, n), steps[n]) && steps[n].input.id.Got? then steps[n].input.id.value
            else IdAfter(c, steps, n)
  {
    hide StateAt, Receives;
  }

  lemma NothingYet(c: Config, steps: seq<Step>)
    ensures var s := StateAt(c, steps, 0);
      s.inserted == [] && s.conns == [] && s.data.id == 0 && IdAfter(c, steps, 0) == 0
  {
  }

  /** In every run the shared variable holds the id that was delivered last, by whichever connection. */
  lemma {:induction false} SharedId(c: Config, steps: seq<Step>, n: nat)
    requires n <= |steps|
    ensures StateAt(c, steps, n).data.id == IdAfter(c, steps, n)
  {
    hide *;
    if n > 0 {
      SharedId(c, steps, n - 1);
      StateNext(c, steps, n - 1);
      IdByStep(c, StateAt(c, steps, n - 1), steps[n - 1]);
      IdAfterNext(c, steps, n - 1);
    } else {
      NothingYet(c, steps);
    }
  }

  // ---- Connections, told apart by the step that accepted them ----

  /** A step accepts one connection at the end, drops the one it visits, or keeps all of them; a sensor
      is recorded only for the visited connection, which had none. */
  lemma ConnsByStep(c: Config, s: State, step: Step)
    requires Sound(s)
    ensures var s' := Apply(c, s, step);
      && (|s'.conns| > |s.conns| ==>
            |s'.conns| == |s.conns| + 1 && s'.conns[|s.conns|].client.sensor == 0 &&
            Unused(c, s.conns, s'.conns[|s.conns|].client.sd))
      && (|s'.conns| < |s.conns| ==>
            !s.phase.Polling? && s'.conns == RemoveAt(s.conns, s.phase.k))
      && (|s'.conns| >= |s.conns| ==> forall k :: 0 <= k < |s.conns| ==>
            s'.conns[k].client.sd == s.conns[k].client.sd &&
            (s'.conns[k].client.sensor == s.conns[k].client.sensor ||
              (Receives(c, s, step) && step.input.ts.Got? && k == s.phase.k &&
               s.conns[k].client.sensor == 0 && s'.conns[k].client.sensor == s'.data.id)))
  {
  }

  /** The connections after `n` steps, each named by the number of the step that accepted it, in the order
      of their slots. */
  function Ids(c: Config, steps: seq<Step>, n: nat): (ids: seq<nat>)
    requires n <= |steps|
    ensures |ids| == |StateAt(c, steps, n).conns|
    ensures forall k :: 0 <= k < |ids| ==> ids[k] < n
  {
    if n == 0 then
      Start(c, steps);
      []
    else
      StateNext(c, steps, n - 1);
      ConnsByStep(c, StateAt(c, steps, n - 1), steps[n - 1]);
      var s, s', ids := StateAt(c, steps, n - 1), StateAt(c, steps, n), Ids(c, steps, n - 1);
      if |s'.conns| > |s.conns| then ids + [n - 1]
      else if |s'.conns| < |s.conns| then RemoveAt(ids, s.phase.k)
      else ids
  }

  /** The descriptors of the clients, in the order of their slots. */
  function Sds(conns: seq<Conn>): (sds: seq<int>)
    ensures |sds| == |conns| && forall k :: 0 <= k < |conns| ==> sds[k] == conns[k].client.sd
  {
    seq(|conns|, k requires 0 <= k < |conns| => conns[k].client.sd)
  }

  function SdsAt(c: Config, steps: seq<Step>, n: nat): seq<int>
    requires n <= |steps|
  {
    Sds(StateAt(c, steps, n).conns)
  }

  /** How a step changes the names and the descriptors; `n` is the name of a new connection. */
  ghost predicate Moved(ids: seq<nat>, sds: seq<int>, ids': seq<nat>, sds': seq<int>, n: nat)
    requires |ids| == |sds|
  {
    || (ids' == ids && sds' == sds)
    || (exists sd :: sd !in sds && ids' == ids + [n] && sds' == sds + [sd])
    || (exists k :: 0 <= k < |ids| && ids' == RemoveAt(ids, k) && sds' == RemoveAt(sds, k))
  }

  /** Connection `t` exists, on descriptor `sd`. */
  ghost predicate On(ids: seq<nat>, sds: seq<int>, t: nat, sd: int) {
    exists k :: 0 <= k < |ids| && k < |sds| && ids[k] == t && sds[k] == sd
  }

  lemma MovedBack(ids: seq<nat>, sds: seq<int>, ids': seq<nat>, sds': seq<int>, n: nat, t: nat, sd: int)
    requires |ids| == |sds| && Moved(ids, sds, ids', sds', n) && On(ids', sds', t, sd) && t != n
    ensures On(ids, sds, t, sd)
  {
    var k :| 0 <= k < |ids'| && k < |sds'| && ids'[k] == t && sds'[k] == sd;
    if i :| 0 <= i < |ids| && ids' == RemoveAt(ids, i) && sds' == RemoveAt(sds, i) {
      var k' := if k < i then k else k + 1;
      assert ids[k'] == t && sds[k'] == sd;
    } else {
      assert k < |ids| && ids[k] == t && sds[k] == sd;
    }
  }

  lemma MovedOn(ids: seq<nat>, sds: seq<int>, ids': seq<nat>, sds': seq<int>, n: nat, t: nat, sd: int)
    requires |ids| == |sds| && Moved(ids, sds, ids', sds', n) && Distinct(sds)
    requires On(ids, sds, t, sd) && sd in sds'
    ensures On(ids', sds', t, sd)
  {
    var k :| 0 <= k < |ids| && k < |sds| && ids[k] == t && sds[k] == sd;
    if i :| 0 <= i < |ids| && ids' == RemoveAt(ids, i) && sds' == RemoveAt(sds, i) {
      assert k != i;
      var k' := if k < i then k else k - 1;
      assert ids'[k'] == t && sds'[k'] == sd;
    } else {
      assert ids'[k] == t && sds'[k] == sd;
    }
  }

  lemma MovedDistinct(ids: seq<nat>, sds: seq<int>, ids': seq<nat>, sds': seq<int>, n: nat)
    requires |ids| == |sds| && Moved(ids, sds, ids', sds', n) && Distinct(ids)
    requires forall k :: 0 <= k < |ids| ==> ids[k] < n
    ensures Distinct(ids')
  {
  }

  lemma MovedAt(c: Config, steps: seq<Step>, n: nat)
    requires n < |steps|
    ensures Moved(Ids(c, steps, n), SdsAt(c, steps, n), Ids(c, steps, n + 1), SdsAt(c, steps, n + 1), n)
  {
    hide StateAt, Apply, Receives;
    var s, s' := StateAt(c, steps, n), StateAt(c, steps, n + 1);
    StateNext(c, steps, n);
    ConnsByStep(c, s, steps[n]);
    if |s'.conns| > |s.conns| {
      var sd := s'.conns[|s.conns|].client.sd;
      DistinctSds(c, steps, n);
      assert Sds(s'.conns) == Sds(s.conns) + [sd];
      assert sd !in Sds(s.conns);
    } else if |s'.conns| < |s.conns| {
      assert Sds(s'.conns) == RemoveAt(Sds(s.conns), s.phase.k);
    } else {
      assert Sds(s'.conns) == Sds(s.conns);
    }
  }

  lemma DistinctSds(c: Config, steps: seq<Step>, n: nat)
    requires n <= |steps|
    ensures Distinct(SdsAt(c, steps, n))
    ensures var conns := StateAt(c, steps, n).conns;
      forall k :: 0 <= k < |conns| ==> conns[k].client.sd == conns[k].pfd.fd
  {
    Safety.TableIsSafe(c, steps[..n]);
  }

  lemma Sizes(c: Config, steps: seq<Step>, n: nat)
    requires n <= |steps|
    ensures |Ids(c, steps, n)| == |SdsAt(c, steps, n)|
  {
  }

  lemma {:induction false} DistinctIds(c: Config, steps: seq<Step>, n: nat)
    requires n <= |steps|
    ensures Distinct(Ids(c, steps, n))
  {
    hide StateAt, SdsAt, Moved;
    if n > 0 {
      DistinctIds(c, steps, n - 1);
      Sizes(c, steps, n - 1);
      MovedAt(c, steps, n - 1);
      MovedDistinct(Ids(c, steps, n - 1), SdsAt(c, steps, n - 1), Ids(c, steps, n), SdsAt(c, steps, n), n - 1);
    }
  }

  ghost predicate OnAt(c: Config, steps: seq<Step>, n: nat, t: nat, sd: int)
    requires n <= |steps|
  {
    On(Ids(c, steps, n), SdsAt(c, steps, n), t, sd)
  }

  lemma StaysOn(c: Config, steps: seq<Step>, n: nat, t: nat, sd: int)
    requires n < |steps| && OnAt(c, steps, n, t, sd) && sd in SdsAt(c, steps, n + 1)
    ensures OnAt(c, steps, n + 1, t, sd)
  {
    hide SdsAt, Ids, On, Moved;
    Sizes(c, steps, n);
    MovedAt(c, steps, n);
    DistinctSds(c, steps, n);
    MovedOn(Ids(c, steps, n), SdsAt(c, steps, n), Ids(c, steps, n + 1), SdsAt(c, steps, n + 1), n, t, sd);
  }

  lemma WasOn(c: Config, steps: seq<Step>, n: nat, t: nat, sd: int)
    requires t < n < |steps| && OnAt(c, steps, n + 1, t, sd)
    ensures OnAt(c, steps, n, t, sd)
  {
    hide SdsAt, Ids, On, Moved;
    Sizes(c, steps, n);
    MovedAt(c, steps, n);
    MovedBack(Ids(c, steps, n), SdsAt(c, steps, n), Ids(c, steps, n + 1), SdsAt(c, steps, n + 1), n, t, sd);
  }

  lemma {:induction false} StaysWhileInUse(c: Config, steps: seq<Step>, m: nat, n: nat, t: nat, sd: int)
    requires m <= n <= |steps| && OnAt(c, steps, m, t, sd)
    requires forall j :: m <= j <= n ==> sd in SdsAt(c, steps, j)
    ensures OnAt(c, steps, n, t, sd)
  {
    hide *;
    if m < n {
      StaysWhileInUse(c, steps, m, n - 1, t, sd);
      StaysOn(c, steps, n - 1, t, sd);
    }
  }

  lemma OnIsInUse(c: Config, steps: seq<Step>, n: nat, t: nat, sd: int)
    requires n <= |steps| && OnAt(c, steps, n, t, sd)
    ensures sd in SdsAt(c, steps, n) && t < n
  {
  }

  lemma {:induction false} WasInUseSince(c: Config, steps: seq<Step>, m: nat, n: nat, t: nat, sd: int)
    requires t < m <= n <= |steps| && OnAt(c, steps, n, t, sd)
    ensures OnAt(c, steps, m, t, sd)
    ensures forall j :: m <= j <= n ==> sd in SdsAt(c, steps, j)
  {
    hide *;
    OnIsInUse(c, steps, n, t, sd);
    if m < n {
      WasOn(c, steps, n - 1, t, sd);
      WasInUseSince(c, steps, m, n - 1, t, sd);
    }
  }

  /** The name of the connection that step `n` visits. */
  function VisitedId(c: Config, steps: seq<Step>, n: nat): (t: nat)
    requires n < |steps| && Receives(c, StateAt(c, steps, n), steps[n])
    ensures t < n
  {
    Ids(c, steps, n)[StateAt(c, steps, n).phase.k]
  }

  lemma VisitedIsOn(c: Config, steps: seq<Step>, n: nat)
    requires n < |steps| && Receives(c, StateAt(c, steps, n), steps[n])
    ensures OnAt(c, steps, n, VisitedId(c, steps, n), VisitedAt(c, steps, n).sd)
    ensures VisitedId(c, steps, n) < n
  {
    hide StateAt, Ids;
    Sizes(c, steps, n);
    var k := StateAt(c, steps, n).phase.k;
    assert SdsAt(c, steps, n)[k] == VisitedAt(c, steps, n).sd;
  }

  lemma OneOn(c: Config, steps: seq<Step>, n: nat, t: nat, sd: int, t': nat, sd': int)
    requires n <= |steps| && OnAt(c, steps, n, t, sd) && OnAt(c, steps, n, t', sd')
    ensures t == t' <==> sd == sd'
  {
    hide Ids, SdsAt;
    DistinctSds(c, steps, n);
    DistinctIds(c, steps, n);
  }

  /** Steps `m` and `n` visit the same connection, told from what can be observed: the same descriptor,
      which was in use in every state between them.  (A descriptor alone does not tell: after a
      connection was dropped, `accept` may return its descriptor for the next one.) */
  ghost predicate SameConnection(c: Config, steps: seq<Step>, m: nat, n: nat)
    requires m <= n < |steps|
    requires Receives(c, StateAt(c, steps, m), steps[m]) && Receives(c, StateAt(c, steps, n), steps[n])
  {
    var sd := VisitedAt(c, steps, n).sd;
    VisitedAt(c, steps, m).sd == sd && forall j :: m <= j <= n ==> sd in SdsAt(c, steps, j)
  }

  lemma SameConnectionIs(c: Config, steps: seq<Step>, m: nat, n: nat)
    requires m <= n < |steps|
    requires Receives(c, StateAt(c, steps, m), steps[m]) && Receives(c, StateAt(c, steps, n), steps[n])
    ensures SameConnection(c, steps, m, n) <==> VisitedId(c, steps, m) == VisitedId(c, steps, n)
  {
    hide StateAt, Receives, VisitedAt, VisitedId, OnAt, SdsAt;
    var t, sd := VisitedId(c, steps, m), VisitedAt(c, steps, m).sd;
    var t', sd' := VisitedId(c, steps, n), VisitedAt(c, steps, n).sd;
    VisitedIsOn(c, steps, m);
    VisitedIsOn(c, steps, n);
    if SameConnection(c, steps, m, n) {
      StaysWhileInUse(c, steps, m, n, t, sd);
      OneOn(c, steps, n, t, sd, t', sd');
    }
    if t == t' {
      WasInUseSince(c, steps, m, n, t', sd');
      OneOn(c, steps, m, t, sd, t', sd');
    }
  }

  // ---- Whose id it is ----

  /** The connection that wrote the id which is in the shared variable after `n` steps, or -1. */
  function Writer(c: Config, steps: seq<Step>, n: nat): int
    requires n <= |steps|
  {
    if n == 0 then -1
    else if DeliversId(c, steps, n - 1) then VisitedId(c, steps, n - 1)
    else Writer(c, steps, n - 1)
  }

  lemma {:induction false} WriterIs(c: Config, steps: seq<Step>, n: nat)
    requires n <= |steps|
    ensures var m := LastDelivery(c, steps, n);
      Writer(c, steps, n) == if m == -1 then -1 else VisitedId(c, steps, m)
  {
    hide StateAt, VisitedId, Receives;
    if n > 0 {
      WriterIs(c, steps, n - 1);
    }
  }

  /** The reading that step `n` inserts carries an id written by the connection that it is inserted for. */
  predicate OwnId(c: Config, steps: seq<Step>, n: nat)
    requires n < |steps| && Inserts(c, steps, n)
  {
    Writer(c, steps, n + 1) == VisitedId(c, steps, n)
  }

  /** The condition for it: the id arrived in this visit, or the same connection delivered one before and
      no other connection has delivered one since. */
  ghost predicate IdStillOwn(c: Config, steps: seq<Step>, n: nat)
    requires n < |steps| && Inserts(c, steps, n)
  {
    || steps[n].input.id.Got?
    || exists m :: 0 <= m < n && DeliversId(c, steps, m) && SameConnection(c, steps, m, n) &&
         forall j :: m < j < n && DeliversId(c, steps, j) ==> SameConnection(c, steps, j, n)
  }

  /** Over every run: a reading carries its own connection's id if and only if that condition holds. */
  lemma OwnIdExactly(c: Config, steps: seq<Step>, n: nat)
    requires n < |steps| && Inserts(c, steps, n)
    ensures OwnId(c, steps, n) <==> IdStillOwn(c, steps, n)
  {
    hide StateAt, VisitedId, Receives, SameConnection;
    var m := LastDelivery(c, steps, n + 1);
    WriterIs(c, steps, n + 1);
    if m >= 0 && m < n {
      SameConnectionIs(c, steps, m, n);
    }
  }

  /** Receiving the id in the same visit is enough, and it is that id then. */
  lemma ReceivedIdIsOwn(c: Config, steps: seq<Step>, n: nat)
    requires n < |steps| && Inserts(c, steps, n) && steps[n].input.id.Got?
    ensures OwnId(c, steps, n) && IdAfter(c, steps, n + 1) == steps[n].input.id.value
  {
    hide StateAt, SameConnection;
    OwnIdExactly(c, steps, n);
  }

  /** What step `n` inserts: one reading with the id delivered last. */
  lemma InsertedBy(c: Config, steps: seq<Step>, n: nat)
    requires n < |steps|
    ensures var s, s' := StateAt(c, steps, n), StateAt(c, steps, n + 1);
      if Inserts(c, steps, n) then s'.inserted == s.inserted + [s'.data] && s'.data.id == IdAfter(c, steps, n + 1)
      else s'.inserted == s.inserted
  {
    StateNext(c, steps, n);
    SharedId(c, steps, n + 1);
  }

  /** Over every run each reading in the buffer's history was inserted by a visit, with the id delivered
      last when it was; it is the visited connection's own if and only if `IdStillOwn` held. */
  lemma {:induction false} InsertedId(c: Config, steps: seq<Step>, upTo: nat, j: nat) returns (n: nat)
    requires upTo <= |steps| && j < |StateAt(c, steps, upTo).inserted|
    ensures n < upTo && Inserts(c, steps, n) && |StateAt(c, steps, n).inserted| == j
    ensures StateAt(c, steps, upTo).inserted[j].id == IdAfter(c, steps, n + 1)
    ensures OwnId(c, steps, n) <==> IdStillOwn(c, steps, n)
  {
    hide StateAt, Inserts, IdAfter, OwnId, IdStillOwn;
    if upTo == 0 {
      NothingYet(c, steps);
    } else {
      InsertedBy(c, steps, upTo - 1);
      if j < |StateAt(c, steps, upTo - 1).inserted| {
        n := InsertedId(c, steps, upTo - 1, j);
      } else {
        n := upTo - 1;
        OwnIdExactly(c, steps, n);
      }
    }
  }

  // ---- The id that a client is recorded with ----

  /** Connection `t` is recorded with `id` after `n` steps. */
  ghost predicate RecordedAs(c: Config, steps: seq<Step>, n: nat, t: nat, id: SensorId)
    requires n <= |steps|
  {
    var ids, conns := Ids(c, steps, n), StateAt(c, steps, n).conns;
    exists k :: 0 <= k < |ids| && ids[k] == t && conns[k].client.sensor == id
  }

  /** A connection is recorded with an id after a step only if it was before or was noted in this step. */
  lemma RecordedByStep(c: Config, steps: seq<Step>, n: nat, t: nat, id: SensorId)
    requires n < |steps| && id != 0 && RecordedAs(c, steps, n + 1, t, id)
    ensures RecordedAs(c, steps, n, t, id) ||
      (Inserts(c, steps, n) && VisitedId(c, steps, n) == t && VisitedAt(c, steps, n).sensor == 0 &&
       StateAt(c, steps, n + 1).data.id == id)
  {
    hide StateAt, Apply, Receives;
    var s, s' := StateAt(c, steps, n), StateAt(c, steps, n + 1);
    var ids, ids' := Ids(c, steps, n), Ids(c, steps, n + 1);
    StateNext(c, steps, n);
    ConnsByStep(c, s, steps[n]);
    var k :| 0 <= k < |ids'| && ids'[k] == t && s'.conns[k].client.sensor == id;
    if |s'.conns| < |s.conns| {
      var k' := if k < s.phase.k then k else k + 1;
      assert ids[k'] == t && s.conns[k'].client.sensor == id;
    } else {
      assert k < |s.conns| && ids[k] == t;
    }
  }

  /** Over every run, a connection that is recorded with an id got it at one of its own visits, when it had
      none, and has kept it since; it is the id delivered last at that visit, and the connection's own if
      and only if `IdStillOwn` held there. */
  lemma {:induction false} RecordedId(c: Config, steps: seq<Step>, upTo: nat, t: nat, id: SensorId) returns (n: nat)
    requires upTo <= |steps| && id != 0 && RecordedAs(c, steps, upTo, t, id)
    ensures n < upTo && Inserts(c, steps, n) && id == IdAfter(c, steps, n + 1)
    ensures VisitedId(c, steps, n) == t && VisitedAt(c, steps, n).sensor == 0
    ensures forall m :: n < m <= upTo ==> RecordedAs(c, steps, m, t, id)
    ensures OwnId(c, steps, n) <==> IdStillOwn(c, steps, n)
  {
    hide StateAt, RecordedAs, IdAfter, Readable, VisitedId, VisitedAt, OwnId, IdStillOwn;
    if upTo == 0 {
      NoneRecorded(c, steps, t, id);
      assert false;
    } else {
      RecordedByStep(c, steps, upTo - 1, t, id);
      if RecordedAs(c, steps, upTo - 1, t, id) {
        n := RecordedId(c, steps, upTo - 1, t, id);
      } else {
        n := upTo - 1;
        SharedId(c, steps, upTo);
        OwnIdExactly(c, steps, n);
      }
    }
  }

  lemma NoneRecorded(c: Config, steps: seq<Step>, t: nat, id: SensorId)
    ensures !RecordedAs(c, steps, 0, t, id)
  {
    Start(c, steps);
  }
}
