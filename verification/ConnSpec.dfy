/** What one visit to a connection, and one sweep over all of them, does in `connmgr.c`
    (lines 104-163).  Sockets, `poll`, the clock and the other threads are inputs. */
module ConnSpec {
  import opened ListSpec
  import opened Readings

  /** `POLLIN | POLLHUP`, and the mark that line 129 puts on a closed connection. */
  const WATCHED := 17
  const DEAD := -1

  /** `struct pollfd`; `revents` is reduced to the two flags that are tested. */
  datatype PollFd = PollFd(fd: int, events: int, pollIn: bool, pollHup: bool)

  /** `tcpsock_dpl` without the socket object. */
  datatype Client = Client(sd: int, lastActive: int, sensor: SensorId)

  /** A slot of the poll array with the client record that belongs to it. */
  datatype Conn = Conn(pfd: PollFd, client: Client)

  /** `element_compare` (lines 205-211). */
  function BySd(x: Client, y: Client): int {
    if x.sd == y.sd then 0 else -1
  }

  /** The result of one `tcp_receive` for one field. */
  datatype Recv<+T> = Got(value: T) | Closed | SocketError

  /** Everything a visit takes from outside: three clock values, three receives, and the sensor id
      that the data manager posted since the previous visit, if any. */
  datatype Input = Input(nowGuard: int, id: Recv<SensorId>, value: Recv<real>, ts: Recv<int>,
                         nowActive: int, post: Option<SensorId>, nowCheck: int)

  datatype Verdict = Keep | StopBySignal | Drop

  /** `sent` is what goes into the shared buffer: one reading or none. */
  datatype Reception = Reception(conn: Conn, data: Reading, sent: seq<Reading>)

  datatype Outcome = Outcome(conn: Conn, data: Reading, mail: SensorId, sent: seq<Reading>, verdict: Verdict)

  /** The guard of line 113. */
  predicate Readable(conn: Conn, now: int, timeout: int) {
    conn.client.lastActive + timeout > now && conn.pfd.pollIn
  }

  function Field<T>(r: Recv<T>, before: T): T {
    if r.Got? then r.value else before
  }

  /** The local variable `data` after the three receives of lines 115-120. */
  function Received(data: Reading, i: Input): Reading {
    Reading(Field(i.id, data.id), Field(i.value, data.value), Field(i.ts, data.ts))
  }

  /** The client record after a reading (lines 124-126): it keeps the first nonzero id it ever sent. */
  function Noted(conn: Conn, now: int, r: Reading): Conn {
    var c := conn.client;
    conn.(client := Client(c.sd, now, if c.sensor == 0 then r.id else c.sensor))
  }

  /** Lines 113-133.  Only the result of the last receive counts. */
  function Receive(conn: Conn, data: Reading, i: Input, timeout: int): Reception {
    if !Readable(conn, i.nowGuard, timeout) then Reception(conn, data, [])
    else
      var data' := Received(data, i);
      if i.ts.Got? then Reception(Noted(conn, i.nowActive, data'), data', [data'])
      else if i.ts.Closed? then Reception(conn.(pfd := conn.pfd.(events := DEAD)), data', [])
      else Reception(conn, data', [])
  }

  /** Line 136.  Repair: 0 means that no signal is pending (line 143), so a match needs a nonzero
      signal; as written, every client that has not sent a reading matches an empty mailbox. */
  predicate Signalled(client: Client, mail: SensorId) {
    mail != 0 && client.sensor == mail
  }

  /** Lines 137-139. */
  predicate Gone(conn: Conn, now: int, timeout: int) {
    conn.client.lastActive + timeout < now || conn.pfd.pollHup || conn.pfd.events == DEAD
  }

  /** Lines 135-162, under the mutex. */
  function Judge(conn: Conn, mail: SensorId, now: int, timeout: int): Verdict {
    if Signalled(conn.client, mail) then StopBySignal
    else if Gone(conn, now, timeout) then Drop
    else Keep
  }

  function Posted(mail: SensorId, post: Option<SensorId>): SensorId {
    if post.Some? then post.value else mail
  }

  function Visit(conn: Conn, data: Reading, mail: SensorId, i: Input, timeout: int): (o: Outcome)
    ensures o.conn.pfd.fd == conn.pfd.fd && o.conn.client.sd == conn.client.sd
  {
    var r := Receive(conn, data, i, timeout);
    var verdict := Judge(r.conn, Posted(mail, i.post), i.nowCheck, timeout);
    Outcome(r.conn, r.data, if verdict == StopBySignal then 0 else Posted(mail, i.post), r.sent, verdict)
  }

  // The next three lemmas say what a visit does without the functions above.

  /** Reading.  A connection is read exactly if its time is not up at the guard and data is reported; the
      fields that arrive replace those in the shared variable.  Exactly if the last one arrives, one
      reading is sent, the time starts again and a connection without an id is given that of the reading;
      a closed connection is marked.  A connection that is not read is left as it is. */
  lemma VisitReads(conn: Conn, data: Reading, mail: SensorId, i: Input, timeout: int)
    ensures var o, c := Visit(conn, data, mail, i, timeout), conn.client;
      var readable := c.lastActive + timeout > i.nowGuard && conn.pfd.pollIn;
      && (o.sent != [] <==> readable && i.ts.Got?)
      && (!readable ==> o.data == data && o.conn == conn && o.sent == [])
      && (readable ==>
            && o.data.id == (if i.id.Got? then i.id.value else data.id)
            && o.data.value == (if i.value.Got? then i.value.value else data.value)
            && o.data.ts == (if i.ts.Got? then i.ts.value else data.ts))
      && (readable && i.ts.Got? ==>
            && o.sent == [o.data] && o.conn.pfd == conn.pfd
            && o.conn.client == Client(c.sd, i.nowActive, if c.sensor == 0 then o.data.id else c.sensor))
      && (readable && i.ts.Closed? ==> o.conn == Conn(conn.pfd.(events := -1), c))
      && (readable && i.ts.SocketError? ==> o.conn == conn)
  {
  }

  /** Stopping by signal.  With the latest post, or else what was in the mailbox, as the signal: a visit
      stops its connection by signal exactly if the signal is not 0 and is the id that the connection is
      recorded with by then, whatever else is the matter with the connection; the mailbox is emptied then
      and keeps the signal otherwise. */
  lemma VisitSignals(conn: Conn, data: Reading, mail: SensorId, i: Input, timeout: int)
    ensures var o, c := Visit(conn, data, mail, i, timeout), conn.client;
      var got := c.lastActive + timeout > i.nowGuard && conn.pfd.pollIn && i.ts.Got?;
      var signal := if i.post.Some? then i.post.value else mail;
      var id := if got && c.sensor == 0 then (if i.id.Got? then i.id.value else data.id) else c.sensor;
      && (o.verdict == StopBySignal <==> signal != 0 && id == signal)
      && o.mail == if signal != 0 && id == signal then 0 else signal
  {
  }

  /** Why a visit drops a connection, in terms of the state before it: hang-up, an earlier or a new
      loss of the connection, more than the timeout since the last reading (which may have come in this
      very visit), or a signal for the id it is recorded with (maybe since this visit). */
  lemma DropReasons(conn: Conn, data: Reading, mail: SensorId, i: Input, timeout: int)
    ensures var c := conn.client;
      var readable := c.lastActive + timeout > i.nowGuard && conn.pfd.pollIn;
      var got := readable && i.ts.Got?;
      var signal := if i.post.Some? then i.post.value else mail;
      var id := if got && c.sensor == 0 then (if i.id.Got? then i.id.value else data.id) else c.sensor;
      Visit(conn, data, mail, i, timeout).verdict != Keep <==>
        || conn.pfd.pollHup
        || conn.pfd.events == -1 || (readable && i.ts.Closed?)
        || (if got then i.nowActive else c.lastActive) + timeout < i.nowCheck
        || (signal != 0 && id == signal)
  {
  }

  function AfterCheck(conns: seq<Conn>, k: nat, verdict: Verdict): seq<Conn>
    requires k < |conns|
  {
    if verdict == Keep then conns else RemoveAt(conns, k)
  }

  /** The slots in use after the visit to the one at position `k`. */
  function AfterVisit(conns: seq<Conn>, k: nat, o: Outcome): seq<Conn>
    requires k < |conns|
  {
    AfterCheck(conns[k := o.conn], k, o.verdict)
  }

  // ---- The sweep ----

  /** What a sweep starts from: the slots 1..counter of the poll array with their clients, the local
      variable `data`, the mailbox, and the inputs of the visits in the order they happen. */
  datatype Pass = Pass(conns: seq<Conn>, data: Reading, mail: SensorId, ins: nat -> Input, timeout: int)

  /** The sweep so far: `stopped` lists the connections stopped by signal. */
  datatype Progress = Progress(data: Reading, mail: SensorId, kept: seq<Conn>, sent: seq<Reading>, stopped: seq<Client>)

  /** The sweep after its first `n` visits; visit `k` is to the slot that was at position `k` when the
      sweep began and takes input `ins(k)`. */
  function SweepTo(p: Pass, n: nat): (s: Progress)
    requires n <= |p.conns|
    ensures |s.kept| <= n
  {
    if n == 0 then Progress(p.data, p.mail, [], [], [])
    else
      var s := SweepTo(p, n - 1);
      var o := Visit(p.conns[n - 1], s.data, s.mail, p.ins(n - 1), p.timeout);
      Progress(o.data, o.mail, if o.verdict == Keep then s.kept + [o.conn] else s.kept, s.sent + o.sent,
               if o.verdict == StopBySignal then s.stopped + [o.conn.client] else s.stopped)
  }

  /** The slots in use after `n` visits: the kept ones, then those still to be visited. */
  function InUse(p: Pass, n: nat): (conns: seq<Conn>)
    requires n <= |p.conns|
    ensures |conns| == |SweepTo(p, n).kept| + |p.conns| - n
    ensures n == |p.conns| ==> conns == SweepTo(p, n).kept
  {
    SweepTo(p, n).kept + p.conns[n..]
  }

  lemma InUseSize(p: Pass, n: nat)
    requires n <= |p.conns|
    ensures |InUse(p, n)| == |SweepTo(p, n).kept| + |p.conns| - n
  {
  }

  /** The next visit happens in place, right behind the kept slots. */
  lemma VisitInPlace(p: Pass, n: nat)
    requires n < |p.conns|
    ensures var k, o := |SweepTo(p, n).kept|, OutcomeAt(p, n);
      && InUse(p, n)[k] == p.conns[n]
      && InUse(p, n + 1) == AfterVisit(InUse(p, n), k, o)
      && SweepTo(p, n + 1).data == o.data && SweepTo(p, n + 1).mail == o.mail
      && SweepTo(p, n + 1).sent == SweepTo(p, n).sent + o.sent
      && SweepTo(p, n + 1).stopped == (if o.verdict == StopBySignal then SweepTo(p, n).stopped + [o.conn.client]
                                       else SweepTo(p, n).stopped)
      && |SweepTo(p, n + 1).kept| == if o.verdict == Keep then k + 1 else k
  {
    hide Visit;
  }

  /** The outcome of the visit to original slot `k`. */
  function OutcomeAt(p: Pass, k: nat): Outcome
    requires k < |p.conns|
  {
    Visit(p.conns[k], SweepTo(p, k).data, SweepTo(p, k).mail, p.ins(k), p.timeout)
  }

  /** The original positions, in order, whose visit among the first `n` met no drop condition. */
  function Survivors(p: Pass, n: nat): (ks: seq<nat>)
    requires n <= |p.conns|
    ensures forall a :: 0 <= a < |ks| ==> ks[a] < n && OutcomeAt(p, ks[a]).verdict == Keep
    ensures forall a, b :: 0 <= a < b < |ks| ==> ks[a] < ks[b]
  {
    if n == 0 then []
    else if OutcomeAt(p, n - 1).verdict == Keep then Survivors(p, n - 1) + [n - 1]
    else Survivors(p, n - 1)
  }

  lemma {:induction false} EverySurvivorIsListed(p: Pass, n: nat, k: nat)
    requires k < n <= |p.conns|
    ensures k in Survivors(p, n) <==> OutcomeAt(p, k).verdict == Keep
  {
    hide OutcomeAt;
    if k < n - 1 {
      EverySurvivorIsListed(p, n - 1, k);
    } else {
      assert forall a :: 0 <= a < |Survivors(p, k)| ==> Survivors(p, k)[a] < k;
    }
  }

  /** The sweep keeps exactly the slots that met no drop condition at their visit, as that visit left
      them and in their original order. */
  lemma {:induction false} SweepFilters(p: Pass, n: nat)
    requires n <= |p.conns|
    ensures |SweepTo(p, n).kept| == |Survivors(p, n)|
    ensures forall a :: 0 <= a < |Survivors(p, n)| ==> SweepTo(p, n).kept[a] == OutcomeAt(p, Survivors(p, n)[a]).conn
  {
    hide Visit;
    if n > 0 {
      SweepFilters(p, n - 1);
    }
  }

  /** How many inputs among the first `n` carry a post. */
  function Posts(ins: nat -> Input, n: nat): nat {
    if n == 0 then 0 else Posts(ins, n - 1) + if ins(n - 1).post.Some? then 1 else 0
  }

  function Pending(mail: SensorId): nat {
    if mail == 0 then 0 else 1
  }

  /** A signal is used up by stopping one connection: a sweep never stops more connections than
      signals were pending at its start or posted meanwhile. */
  lemma {:induction false} OneStopPerSignal(p: Pass, n: nat)
    requires n <= |p.conns|
    ensures |SweepTo(p, n).stopped| + Pending(SweepTo(p, n).mail) <= Pending(p.mail) + Posts(p.ins, n)
  {
    if n > 0 {
      OneStopPerSignal(p, n - 1);
    }
  }
}
