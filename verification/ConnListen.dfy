/** `connmgr_listen`: the sweep over the connections and the main loop. */
module ConnListen {
  import opened ConnMgrs
  import opened ConnSpec
  import opened ConnTables
  import opened Readings

  /** What one turn of the main loop takes from outside: the result of `poll` and what it reports for
      every slot, the descriptor of a newly accepted connection given the ones in use, the time of the
      accept, and the inputs of the sweep. */
  datatype Round = Round(pollRet: int, events: nat -> (bool, bool), accept: set<int> -> Option<int>, now: int,
                         ins: nat -> Input)

  /** `accept` never returns a descriptor that is still in use. */
  ghost predicate Fresh(accept: set<int> -> Option<int>) {
    forall s: set<int> :: accept(s).Some? ==> accept(s).value !in s
  }

  /** The loop of lines 104-163.  The measure `counter + 1 - i` goes down by one with every visit: a
      kept connection raises `i`, a dropped one lowers `counter`. */
  method SweepLoop(m: ConnMgr, ins: nat -> Input, ghost p: Pass, ghost earlier: seq<Reading>)
    requires m.AtSlot(1, p, 0, earlier) && ins == p.ins
    modifies m.Repr
    ensures m.Swept(p, |p.conns|, earlier) && fresh(m.Repr - old(m.Repr))
    ensures m.table.records == old(m.table.records)
  {
    hide *;
    var visits: nat, i: nat := 0, 1;
    ghost var before, records := m.Repr, m.table.records;
    m.Where(i, p, visits, earlier);
    while i < m.table.counter + 1
      invariant m.AtSlot(i, p, visits, earlier) && fresh(m.Repr - before) && m.table.records == records
      invariant visits <= |p.conns| && m.table.counter + 1 - i == |p.conns| - visits
      decreases m.table.counter + 1 - i
    {
      i := m.NextVisit(i, ins(visits), p, visits, earlier);
      visits := visits + 1;
      m.Where(i, p, visits, earlier);
    }
    m.Where(i, p, visits, earlier);
  }

  // ---- One turn of the main loop ----

  /** What the connection manager works on: the connections in use, the local variable `data`, the
      mailbox and the buffer. */
  datatype View = View(conns: seq<Conn>, data: Reading, mail: SensorId, queue: seq<Reading>)

  ghost predicate Shows(m: ConnMgr, v: View)
    reads m, m.Repr
  {
    m.Is(v.conns, v.data, v.mail, v.queue)
  }

  /** One turn: the connection that was let in, if any, and the sweep, if it took place. */
  datatype Lap = Lap(added: seq<Conn>, p: Pass, swept: bool)

  /** The condition of line 79. */
  predicate Knocked(maxConn: nat, conns: seq<Conn>, round: Round) {
    round.events(0).0 && |conns| < maxConn
  }

  /** The descriptor of the connection that line 82 accepts. */
  function Offered(sv: int, maxConn: nat, conns: seq<Conn>, round: Round): Option<int> {
    if Knocked(maxConn, conns, round) then round.accept(Fds(sv, conns)) else None
  }

  /** The accept path lets in exactly the offered connection, watched and without a sensor; only the
      `revents` of its slot, which nothing sets, are arbitrary. */
  predicate Admitted(offered: Option<int>, now: int, added: seq<Conn>) {
    match offered
    case None => added == []
    case Some(fd) =>
      |added| == 1 && added[0].client == Client(fd, now, 0) && added[0].pfd.fd == fd && added[0].pfd.events == WATCHED
  }

  /** What stays the same: the listening descriptor, `MAX_CONN` and `TIMEOUT`. */
  datatype Setup = Setup(sv: int, maxConn: nat, timeout: int)

  function SetupOf(m: ConnMgr): Setup {
    Setup(m.table.sv, m.table.maxConn, m.timeout)
  }

  /** The turn from `v`: `poll_ret` counts the accept path down (line 101) and does not change during the
      sweep, so the loop at line 104 runs completely or not at all. */
  ghost predicate IsLap(c: Setup, v: View, round: Round, lap: Lap) {
    && Admitted(Offered(c.sv, c.maxConn, v.conns, round), round.now, lap.added)
    && lap.p == Pass(Polled(v.conns, round.events) + lap.added, v.data, v.mail, round.ins, c.timeout)
    && (lap.swept <==> round.pollRet - (if Knocked(c.maxConn, v.conns, round) then 1 else 0) > 0)
  }

  function Visits(lap: Lap): (n: nat)
    ensures n <= |lap.p.conns|
  {
    if lap.swept then |lap.p.conns| else 0
  }

  function AfterLap(v: View, lap: Lap): View {
    var n := Visits(lap);
    View(InUse(lap.p, n), SweepTo(lap.p, n).data, SweepTo(lap.p, n).mail, v.queue + SweepTo(lap.p, n).sent)
  }

  lemma SweepStarts(m: ConnMgr, p: Pass, earlier: seq<Reading>)
    requires p.timeout == m.timeout && m.Is(p.conns, p.data, p.mail, earlier)
    ensures m.Swept(p, 0, earlier) && m.AtSlot(1, p, 0, earlier)
  {
    assert earlier + [] == earlier;
  }

  /** Lines 104-163: a whole sweep or none. */
  method Sweep(m: ConnMgr, ret: int, ins: nat -> Input, ghost p: Pass, ghost earlier: seq<Reading>)
    requires m.Is(p.conns, p.data, p.mail, earlier) && p.timeout == m.timeout && p.ins == ins
    modifies m.Repr
    ensures m.Swept(p, if ret > 0 then |p.conns| else 0, earlier) && fresh(m.Repr - old(m.Repr))
    ensures m.table.records == old(m.table.records)
  {
    hide *;
    SweepStarts(m, p, earlier);
    if ret > 0 {
      SweepLoop(m, ins, p, earlier);
    }
  }

  /** Line 75. */
  method PollAll(m: ConnMgr, events: nat -> (bool, bool), ghost v: View)
    requires Shows(m, v)
    modifies m.table.Repr
    ensures Shows(m, v.(conns := Polled(v.conns, events))) && m.Repr == old(m.Repr)
    ensures m.table.pollFd[0].pollIn == events(0).0 && m.table.records == old(m.table.records)
  {
    m.table.Poll(events);
  }

  /** Lines 80-100. */
  method Admit(m: ConnMgr, accept: set<int> -> Option<int>, now: int, ghost v: View) returns (ghost added: seq<Conn>)
    requires Shows(m, v) && |v.conns| < m.table.maxConn && Fresh(accept)
    modifies m, m.table.Repr
    ensures Admitted(accept(Fds(m.table.sv, v.conns)), now, added)
    ensures Shows(m, v.(conns := v.conns + added)) && fresh(m.Repr - old(m.Repr))
    ensures old(m.table.records) <= m.table.records && |m.table.records| == |old(m.table.records)| + |added|
  {
    m.table.OpenFdsAre();
    var sd := accept(m.table.OpenFds());
    ghost var slot := m.table.Accept(sd, now);
    added := if sd.Some? then [Conn(slot, Client(sd.value, now, 0))] else [];
    m.Repr := m.Repr + m.table.Repr;
    assert v.conns + [] == v.conns;
  }

  lemma PolledFds(sv: int, conns: seq<Conn>, events: nat -> (bool, bool))
    ensures Fds(sv, Polled(conns, events)) == Fds(sv, conns)
  {
    assert forall k :: 0 <= k < |conns| ==> Polled(conns, events)[k].pfd.fd == conns[k].pfd.fd;
  }

  /** What line 79 looks at, and what lines 104-163 modify. */
  lemma InUseNow(m: ConnMgr, v: View)
    requires Shows(m, v)
    ensures m.table.counter == |v.conns| && m.table.pollFd.Length > 0 && m in m.Repr && m.table.Repr <= m.Repr
    ensures m.table.Valid()
  {
  }

  /** Lines 75-101: what `poll` reports, and the accept path. */
  method Prepare(m: ConnMgr, round: Round, ghost v: View) returns (ghost added: seq<Conn>, ret: int)
    requires Shows(m, v) && Fresh(round.accept)
    modifies m.Repr
    ensures Admitted(Offered(m.table.sv, m.table.maxConn, v.conns, round), round.now, added)
    ensures Shows(m, v.(conns := Polled(v.conns, round.events) + added)) && fresh(m.Repr - old(m.Repr))
    ensures ret == round.pollRet - if Knocked(m.table.maxConn, v.conns, round) then 1 else 0
    ensures old(m.table.records) <= m.table.records && |m.table.records| == |old(m.table.records)| + |added|
  {
    hide Shows, ConnMgr.Is, ConnMgr.Valid, Fds, Polled, Fresh;
    ghost var polled := v.(conns := Polled(v.conns, round.events));
    InUseNow(m, v);
    PollAll(m, round.events, v);
    PolledFds(m.table.sv, v.conns, round.events);
    InUseNow(m, polled);
    ret := round.pollRet;
    added := [];
    assert polled.conns + added == polled.conns;
    if m.table.pollFd[0].pollIn && m.table.counter < m.table.maxConn {
      added := Admit(m, round.accept, round.now, polled);
      ret := ret - 1;
    }
  }

  lemma ShowsLap(m: ConnMgr, v: View, lap: Lap)
    requires m.Swept(lap.p, Visits(lap), v.queue)
    ensures Shows(m, AfterLap(v, lap))
  {
  }

  /** A lap without the names above: a connection is let in exactly if the listening socket is readable,
      there is room and accepting succeeds, and it is that one; slots are visited exactly if `poll`
      reported more than the listening socket that was served. */
  lemma LapExactly(c: Setup, v: View, round: Round, lap: Lap)
    requires IsLap(c, v, round, lap)
    ensures var room := round.events(0).0 && |v.conns| < c.maxConn;
      var fd := round.accept({c.sv} + set k | 0 <= k < |v.conns| :: v.conns[k].pfd.fd);
      && (if room && fd.Some? then
            |lap.added| == 1 && lap.added[0].pfd.fd == fd.value && lap.added[0].pfd.events == WATCHED &&
            lap.added[0].client == Client(fd.value, round.now, 0)
          else lap.added == [])
      && (lap.swept <==> round.pollRet > if room then 1 else 0)
      && lap.p.conns == Polled(v.conns, round.events) + lap.added
      && lap.p.data == v.data && lap.p.mail == v.mail && lap.p.timeout == c.timeout
  {
  }

  /** One turn of the main loop, lines 75-163. */
  method Turn(m: ConnMgr, round: Round, ghost v: View) returns (ghost lap: Lap)
    requires Shows(m, v) && Fresh(round.accept)
    modifies m.Repr
    ensures IsLap(SetupOf(m), v, round, lap) && Shows(m, AfterLap(v, lap)) && fresh(m.Repr - old(m.Repr))
    ensures old(m.table.records) <= m.table.records && |m.table.records| == |old(m.table.records)| + |lap.added|
  {
    hide ConnMgr.Is, ConnMgr.Swept, ConnMgr.Valid, Polled, SweepTo, InUse, Fresh, Admitted, Offered, AfterLap, Knocked;
    ghost var added;
    var ret;
    added, ret := Prepare(m, round, v);
    lap := Lap(added, Pass(Polled(v.conns, round.events) + added, v.data, v.mail, round.ins, m.timeout), ret > 0);
    Sweep(m, ret, round.ins, lap.p, v.queue);
    ShowsLap(m, v, lap);
  }

  // ---- The main loop ----

  /** The guard of line 75 and the test of line 77. */
  predicate Goes(round: Round, conns: seq<Conn>) {
    round.pollRet != -1 && (round.pollRet != 0 || conns != [])
  }

  /** The turns so far: each starts from what the previous one left. */
  ghost predicate History(c: Setup, rounds: seq<Round>, views: seq<View>, laps: seq<Lap>) {
    && |laps| <= |rounds| && |views| == |laps| + 1
    && forall j :: 0 <= j < |laps| ==>
         Goes(rounds[j], views[j].conns) && IsLap(c, views[j], rounds[j], laps[j]) &&
         views[j + 1] == AfterLap(views[j], laps[j])
  }

  lemma HistoryGrows(c: Setup, rounds: seq<Round>, views: seq<View>, laps: seq<Lap>, lap: Lap)
    requires History(c, rounds, views, laps) && |laps| < |rounds|
    requires Goes(rounds[|laps|], views[|laps|].conns) && IsLap(c, views[|laps|], rounds[|laps|], lap)
    ensures History(c, rounds, views + [AfterLap(views[|laps|], lap)], laps + [lap])
  {
    hide IsLap, AfterLap, Goes;
  }

  /** How many connections were let in. */
  function Accepted(laps: seq<Lap>): nat {
    if laps == [] then 0 else Accepted(laps[..|laps| - 1]) + |laps[|laps| - 1].added|
  }

  /** The main loop of lines 75-170 on the given rounds, of which it handles as many as there are laps: it
      ends when `poll` fails, or when `poll` times out and no connection is left.  (Lines 164-169 are
      never reached with `poll_ret == -1`, because line 77 leaves the loop first.) */
  method Listen(m: ConnMgr, rounds: seq<Round>, ghost v: View)
      returns (k: nat, ghost views: seq<View>, ghost laps: seq<Lap>)
    requires Shows(m, v) && forall j :: 0 <= j < |rounds| ==> Fresh(rounds[j].accept)
    modifies m.Repr
    ensures k == |laps| && History(SetupOf(m), rounds, views, laps) && views[0] == v && Shows(m, views[k])
    ensures k < |rounds| ==> rounds[k].pollRet == -1 || (rounds[k].pollRet == 0 && views[k].conns == [])
    ensures forall j :: 0 <= j < k ==> rounds[j].pollRet != -1 && (rounds[j].pollRet != 0 || views[j].conns != [])
    ensures fresh(m.Repr - old(m.Repr))
    ensures old(m.table.records) <= m.table.records && |m.table.records| == |old(m.table.records)| + Accepted(laps)
  {
    hide Shows, IsLap, AfterLap, Fresh, ConnMgr.Valid;
    ghost var before, records := m.Repr, m.table.records;
    k, views, laps := 0, [v], [];
    InUseNow(m, views[k]);
    while k < |rounds| && (rounds[k].pollRet != 0 || m.table.counter != 0)
      invariant k == |laps| && History(SetupOf(m), rounds, views, laps) && views[0] == v && Shows(m, views[k])
      invariant m.table.counter == |views[k].conns| && fresh(m.Repr - before)
      invariant records <= m.table.records && |m.table.records| == |records| + Accepted(laps)
    {
      if rounds[k].pollRet == -1 {
        break;
      }
      ghost var lap := Turn(m, rounds[k], views[k]);
      HistoryGrows(SetupOf(m), rounds, views, laps, lap);
      assert (laps + [lap])[..|laps|] == laps;
      views, laps := views + [AfterLap(views[k], lap)], laps + [lap];
      k := k + 1;
      InUseNow(m, views[k]);
    }
  }

  /** The main loop and `connmgr_free`: the record of every client that was let in is freed exactly once, when
      its connection is dropped or at the end. */
  method ListenAndFree(m: ConnMgr, rounds: seq<Round>, ghost v: View)
      returns (k: nat, ghost views: seq<View>, ghost laps: seq<Lap>)
    requires Shows(m, v) && forall j :: 0 <= j < |rounds| ==> Fresh(rounds[j].accept)
    modifies m.Repr
    ensures k == |laps| && History(SetupOf(m), rounds, views, laps) && views[0] == v
    ensures k < |rounds| ==> rounds[k].pollRet == -1 || (rounds[k].pollRet == 0 && views[k].conns == [])
    ensures forall j :: 0 <= j < k ==> rounds[j].pollRet != -1 && (rounds[j].pollRet != 0 || views[j].conns != [])
    ensures old(m.table.records) <= m.table.records && |m.table.records| == |old(m.table.records)| + Accepted(laps)
    ensures m.table.sockList.frees == 1 && forall e :: e in m.table.records ==> e.frees == 1
  {
    hide Shows, IsLap, AfterLap, Fresh, ConnTable.Valid;
    k, views, laps := Listen(m, rounds, v);
    InUseNow(m, views[k]);
    m.table.Release();
  }

  /** Everything that was put into the buffer during some turns. */
  function AllSent(laps: seq<Lap>): seq<Reading> {
    if laps == [] then []
    else AllSent(laps[..|laps| - 1]) + SweepTo(laps[|laps| - 1].p, Visits(laps[|laps| - 1])).sent
  }

  /** Over any number of turns the buffer grows by exactly the readings sent in the sweeps, in order. */
  lemma {:induction false} SentInOrder(c: Setup, rounds: seq<Round>, views: seq<View>, laps: seq<Lap>, j: nat)
    requires History(c, rounds, views, laps) && j <= |laps|
    ensures views[j].queue == views[0].queue + AllSent(laps[..j])
  {
    hide IsLap, InUse, Goes, SweepTo;
    if j > 0 {
      SentInOrder(c, rounds, views, laps, j - 1);
      assert laps[..j][..j - 1] == laps[..j - 1];
      assert views[(j - 1) + 1] == AfterLap(views[j - 1], laps[j - 1]);
    }
  }
}
