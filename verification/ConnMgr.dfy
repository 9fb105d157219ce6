/** The connection manager thread, `connmgr.c`. */
module ConnMgrs {
  import opened ConnSpec
  import opened ConnTables
  import opened DataMgrs
  import opened ListSpec
  import opened Memory
  import opened Readings
  import opened SBuffers
  import DpLists

  class ConnMgr {
    const timeout: int
    const table: ConnTable
    const buffer: SBuffer
    const stopsig: Mailbox
    var data: Reading
    ghost var Repr: set<object>

    ghost predicate Valid()
      reads this, Repr
      ensures Valid() ==> this in Repr
    {
      && this in Repr && table in Repr && buffer in Repr && stopsig in Repr
      && table.Repr <= Repr && (forall n :: n in buffer.nodes ==> n in Repr && n !in table.Repr)
      && this !in table.Repr && buffer !in table.Repr && stopsig !in table.Repr
      && table.Valid() && buffer.Valid()
    }

    constructor (sv: int, maxConn: nat, timeout: int, buffer: SBuffer, stopsig: Mailbox)
      requires buffer.Valid()
      ensures Valid() && table.conns == [] && table.maxConn == maxConn && table.sv == sv
      ensures this.timeout == timeout && this.buffer == buffer && this.stopsig == stopsig
      ensures fresh(this) && fresh(table) && fresh(table.Repr)
      ensures Repr == {this, buffer, stopsig} + table.Repr + set n: object | n in buffer.nodes
    {
      this.timeout, this.buffer, this.stopsig := timeout, buffer, stopsig;
      this.table := new ConnTable(sv, maxConn);
      data := Reading(0, 0.0, 0);
      new;
      Repr := {this, buffer, stopsig} + table.Repr + set n: object | n in buffer.nodes;
    }

    /** The state of this thread: the connections, the local variable `data`, the mailbox and the
        buffer hold what is given. */
    ghost predicate Is(conns: seq<Conn>, d: Reading, mail: SensorId, queue: seq<Reading>)
      reads this, Repr
    {
      Valid() && table.conns == conns && data == d && stopsig.sensor == mail && buffer.contents == queue
    }

    /** What the thread may modify, and how many connections there are. */
    lemma Footprint(conns: seq<Conn>, d: Reading, mail: SensorId, queue: seq<Reading>)
      requires Is(conns, d, mail, queue)
      ensures this in Repr && table in Repr && buffer in Repr && stopsig in Repr && table.Repr <= Repr
      ensures (forall n :: n in buffer.nodes ==> n in Repr) && |conns| == table.counter
    {
    }

    lemma FoundInUse(i: nat, node: DpLists.Node<Client>, client: Cell<Client>)
      requires table.Found(i, node, client)
      ensures 1 <= i <= table.counter
    {
    }

    /** Line 127. */
    method Forward(ghost conns: seq<Conn>, ghost d: Reading, ghost mail: SensorId, ghost queue: seq<Reading>)
      requires Is(conns, d, mail, queue)
      modifies this, buffer, buffer.nodes
      ensures Is(conns, d, mail, queue + [d]) && fresh(Repr - old(Repr))
    {
      var status := Insert(buffer, data);
      Repr := Repr + {buffer.nodes[|buffer.nodes| - 1]};
    }

    /** Lines 124-126. */
    method Note(i: nat, ghost node: DpLists.Node<Client>, client: Cell<Client>, now: int,
                ghost conns: seq<Conn>, ghost d: Reading, ghost mail: SensorId, ghost queue: seq<Reading>)
      requires Is(conns, d, mail, queue) && table.Found(i, node, client)
      modifies table.Repr
      ensures i <= |conns| && Is(conns[i - 1 := Noted(conns[i - 1], now, d)], d, mail, queue)
      ensures table.Found(i, node, client) && Repr == old(Repr)
      ensures table.records == old(table.records)
    {
      assert client.data == conns[i - 1].client;
      table.Update(i, node, client, now, if client.data.sensor == 0 then data.id else client.data.sensor);
    }

    /** Lines 124-127. */
    method TakeReading(i: nat, ghost node: DpLists.Node<Client>, client: Cell<Client>, now: int,
                       ghost conns: seq<Conn>, ghost d: Reading, ghost mail: SensorId, ghost queue: seq<Reading>)
      requires Is(conns, d, mail, queue) && table.Found(i, node, client)
      modifies Repr
      ensures i <= |conns| && Is(conns[i - 1 := Noted(conns[i - 1], now, d)], d, mail, queue + [d])
      ensures table.Found(i, node, client) && fresh(Repr - old(Repr))
      ensures table.records == old(table.records)
    {
      hide Is, Valid, ConnTable.Found, Noted;
      Footprint(conns, d, mail, queue);
      FoundInUse(i, node, client);
      Note(i, node, client, now, conns, d, mail, queue);
      Footprint(conns[i - 1 := Noted(conns[i - 1], now, d)], d, mail, queue);
      Forward(conns[i - 1 := Noted(conns[i - 1], now, d)], d, mail, queue);
    }

    /** Lines 115-120. */
    method ReceiveFields(input: Input, ghost conns: seq<Conn>, ghost d: Reading, ghost mail: SensorId,
                         ghost queue: seq<Reading>)
      requires Is(conns, d, mail, queue)
      modifies this`data
      ensures Is(conns, Received(d, input), mail, queue)
    {
      data := Received(data, input);
    }

    /** Line 129. */
    method MarkDead(i: nat, ghost node: DpLists.Node<Client>, ghost client: Cell<Client>,
                    ghost conns: seq<Conn>, ghost d: Reading, ghost mail: SensorId, ghost queue: seq<Reading>)
      requires Is(conns, d, mail, queue) && table.Found(i, node, client)
      modifies table.Repr
      ensures i <= |conns|
      ensures Is(conns[i - 1 := conns[i - 1].(pfd := conns[i - 1].pfd.(events := DEAD))], d, mail, queue)
      ensures table.Found(i, node, client) && Repr == old(Repr)
      ensures table.records == old(table.records)
    {
      table.MarkDead(i);
    }

    /** Lines 114-133 for slot `i`; `client` is its record. */
    method ReceiveFrom(i: nat, ghost node: DpLists.Node<Client>, client: Cell<Client>, input: Input,
                       ghost conns: seq<Conn>, ghost d: Reading, ghost mail: SensorId, ghost queue: seq<Reading>)
        returns (ghost r: Reception)
      requires Is(conns, d, mail, queue) && table.Found(i, node, client)
      modifies Repr
      ensures i <= |conns| && r == Receive(conns[i - 1], d, input, timeout)
      ensures Is(conns[i - 1 := r.conn], r.data, mail, queue + r.sent)
      ensures table.Found(i, node, client) && fresh(Repr - old(Repr))
      ensures table.records == old(table.records)
    {
      hide Is, Valid, ConnTable.Found, Noted, Received, Readable;
      Footprint(conns, d, mail, queue);
      FoundInUse(i, node, client);
      r := Receive(conns[i - 1], d, input, timeout);
      assert conns[i - 1 := conns[i - 1]] == conns && queue + [] == queue;
      var readable := IsReadable(i, node, client, input.nowGuard, conns, d, mail, queue);
      if readable {
        ReceiveFields(input, conns, d, mail, queue);
        if input.ts.Got? {
          TakeReading(i, node, client, input.nowActive, conns, r.data, mail, queue);
        } else if input.ts.Closed? {
          MarkDead(i, node, client, conns, r.data, mail, queue);
        }
      }
    }

    /** Line 113. */
    method IsReadable(i: nat, ghost node: DpLists.Node<Client>, client: Cell<Client>, now: int,
                      ghost conns: seq<Conn>, ghost d: Reading, ghost mail: SensorId, ghost queue: seq<Reading>)
        returns (readable: bool)
      requires Is(conns, d, mail, queue) && table.Found(i, node, client)
      ensures i <= |conns| && (readable <==> Readable(conns[i - 1], now, timeout))
      ensures readable <==> conns[i - 1].client.lastActive + timeout > now && conns[i - 1].pfd.pollIn
    {
      assert client.data == table.conns[i - 1].client;
      readable := client.data.lastActive + timeout > now && table.pollFd[i].pollIn;
    }

    /** Lines 135-147: the decision under the mutex.  The data manager may have posted a signal before
        the mutex is taken. */
    method Decide(i: nat, ghost node: DpLists.Node<Client>, client: Cell<Client>, input: Input)
        returns (verdict: Verdict)
      requires Valid() && table.Found(i, node, client)
      modifies stopsig
      ensures Valid()
      ensures verdict == Judge(table.conns[i - 1], Posted(old(stopsig.sensor), input.post), input.nowCheck, timeout)
      ensures stopsig.sensor == if verdict == StopBySignal then 0 else Posted(old(stopsig.sensor), input.post)
      ensures var signal := if input.post.Some? then input.post.value else old(stopsig.sensor);
        verdict == StopBySignal <==> signal != 0 && table.conns[i - 1].client.sensor == signal
    {
      assert client.data == table.conns[i - 1].client && table.pollFd[i] == table.conns[i - 1].pfd;
      if input.post.Some? {
        stopsig.sensor := input.post.value;
      }
      var slot := table.pollFd[i];
      verdict := Keep;
      if stopsig.sensor != 0 && client.data.sensor == stopsig.sensor {
        verdict := StopBySignal;
        stopsig.sensor := 0;
      } else if client.data.lastActive + timeout < input.nowCheck || slot.pollHup || slot.events == DEAD {
        verdict := Drop;
      }
    }

    /** Lines 150-159. */
    method Remove(i: nat, node: DpLists.Node<Client>, ghost client: Cell<Client>)
      requires Valid() && table.Found(i, node, client)
      modifies this, table.Repr
      ensures Valid() && fresh(Repr - old(Repr)) && data == old(data) && unchanged(buffer)
      ensures table.conns == RemoveAt(old(table.conns), i - 1)
      ensures table.records == old(table.records)
    {
      table.Drop(i, node, client);
      Repr := Repr + table.Repr;
    }

    /** Lines 135-162. */
    method Check(i: nat, node: DpLists.Node<Client>, client: Cell<Client>, input: Input,
                 ghost conns: seq<Conn>, ghost d: Reading, ghost mail: SensorId, ghost queue: seq<Reading>)
        returns (verdict: Verdict)
      requires Is(conns, d, mail, queue) && table.Found(i, node, client)
      modifies Repr
      ensures i <= |conns| && verdict == Judge(conns[i - 1], Posted(mail, input.post), input.nowCheck, timeout)
      ensures Is(AfterCheck(conns, i - 1, verdict), d,
                 if verdict == StopBySignal then 0 else Posted(mail, input.post), queue)
      ensures var signal := if input.post.Some? then input.post.value else mail;
        && (verdict == StopBySignal <==> signal != 0 && conns[i - 1].client.sensor == signal)
        && stopsig.sensor == if verdict == StopBySignal then 0 else signal
      ensures fresh(Repr - old(Repr))
      ensures table.records == old(table.records)
    {
      verdict := Decide(i, node, client, input);
      if verdict != Keep {
        Remove(i, node, client);
      }
    }

    /** One turn of the loop at line 104, behind the lookup. */
    method VisitFound(i: nat, node: DpLists.Node<Client>, client: Cell<Client>, input: Input,
                      ghost conns: seq<Conn>, ghost d: Reading, ghost mail: SensorId, ghost queue: seq<Reading>)
        returns (verdict: Verdict, ghost o: Outcome)
      requires Is(conns, d, mail, queue) && table.Found(i, node, client)
      modifies Repr
      ensures i <= |conns| && o == Visit(conns[i - 1], d, mail, input, timeout) && verdict == o.verdict
      ensures Is(AfterVisit(conns, i - 1, o), o.data, o.mail, queue + o.sent)
      ensures fresh(Repr - old(Repr))
      ensures table.records == old(table.records)
    {
      o := Visit(conns[i - 1], d, mail, input, timeout);
      ghost var r := ReceiveFrom(i, node, client, input, conns, d, mail, queue);
      verdict := Check(i, node, client, input, conns[i - 1 := r.conn], r.data, mail, queue + r.sent);
    }

    /** One turn of the loop at line 104. */
    method VisitSlot(i: nat, input: Input,
                     ghost conns: seq<Conn>, ghost d: Reading, ghost mail: SensorId, ghost queue: seq<Reading>)
        returns (verdict: Verdict, ghost o: Outcome)
      requires Is(conns, d, mail, queue) && 1 <= i <= table.counter
      modifies Repr
      ensures i <= |conns| && o == Visit(conns[i - 1], d, mail, input, timeout) && verdict == o.verdict
      ensures Is(AfterVisit(conns, i - 1, o), o.data, o.mail, queue + o.sent)
      ensures fresh(Repr - old(Repr))
      ensures table.records == old(table.records)
    {
      var node, client := table.FindClient(i);
      verdict, o := VisitFound(i, node, client, input, conns, d, mail, queue);
    }

    /** The state after the first `n` visits of the sweep `p`; `earlier` was in the buffer before. */
    ghost predicate Swept(p: Pass, n: nat, earlier: seq<Reading>)
      requires n <= |p.conns|
      reads this, Repr
    {
      && p.timeout == timeout
      && Is(InUse(p, n), SweepTo(p, n).data, SweepTo(p, n).mail, earlier + SweepTo(p, n).sent)
    }

    /** The loop of lines 104-163 after `n` visits, about to look at slot `i`. */
    ghost predicate AtSlot(i: nat, p: Pass, n: nat, earlier: seq<Reading>)
      reads this, Repr, table
    {
      && n <= |p.conns| && Swept(p, n, earlier)
      && i == |SweepTo(p, n).kept| + 1 && table.counter + 1 - i == |p.conns| - n
    }

    lemma Where(i: nat, p: Pass, n: nat, earlier: seq<Reading>)
      requires AtSlot(i, p, n, earlier)
      ensures n <= |p.conns| && Swept(p, n, earlier) && table.counter + 1 - i == |p.conns| - n
    {
    }

    method NextVisit(i: nat, input: Input, ghost p: Pass, ghost n: nat, ghost earlier: seq<Reading>) returns (next: nat)
      requires AtSlot(i, p, n, earlier) && n < |p.conns| && input == p.ins(n)
      modifies Repr
      ensures AtSlot(next, p, n + 1, earlier) && fresh(Repr - old(Repr))
      ensures table.counter + 1 - next == old(table.counter) + 1 - i - 1
      ensures table.records == old(table.records)
    {
      hide Is, Valid, InUse, SweepTo, AfterVisit;
      Where(i, p, n, earlier);
      VisitInPlace(p, n);
      var verdict;
      ghost var s, o := SweepTo(p, n), OutcomeAt(p, n);
      verdict, o := VisitSlot(i, input, InUse(p, n), s.data, s.mail, earlier + s.sent);
      next := if verdict == Keep then i + 1 else i;
      assert earlier + s.sent + o.sent == earlier + (s.sent + o.sent);
      Footprint(InUse(p, n + 1), o.data, o.mail, earlier + SweepTo(p, n + 1).sent);
      InUseSize(p, n + 1);
    }
  }
}
