/** The poll array and the client list of `connmgr.c`, which must describe the same connections. */
module ConnTables {
  import opened ConnSpec
  import opened DpLists
  import opened ListSpec
  import opened Memory
  import opened Readings
  import Ordering

  /** The compaction loop of lines 153-157, which overwrites the array it reads from.  `c` is the
      value of `counter`, so slots 0..c are in use. */
  method Compact(a: array<PollFd>, c: nat, i: nat)
    requires a.Length == c + 1 && 1 <= i <= c
    modifies a
    ensures a[..c] == RemoveAt(old(a[..]), i)
  {
    var id1, id2 := 0, 0;
    while id1 < c
      invariant 0 <= id1 <= c && id2 == if id1 <= i then id1 else id1 + 1
      invariant forall j :: 0 <= j < id1 ==> a[j] == old(a[if j < i then j else j + 1])
      invariant forall j :: id1 <= j <= c ==> a[j] == old(a[j])
    {
      id2 := id2 + if id2 == i then 1 else 0;
      a[id1] := a[id2];
      id1, id2 := id1 + 1, id2 + 1;
    }
  }

  /** `realloc`: a block of `n` slots with the old contents; slots that are new hold anything. */
  method Realloc(a: array<PollFd>, n: nat) returns (b: array<PollFd>)
    ensures fresh(b) && b.Length == n
    ensures forall j :: 0 <= j < n && j < a.Length ==> b[j] == a[j]
  {
    b := new PollFd[n];
    var j := 0;
    while j < n && j < a.Length
      invariant 0 <= j <= n
      invariant forall k :: 0 <= k < j && k < a.Length ==> b[k] == a[k]
    {
      b[j] := a[j];
      j := j + 1;
    }
  }

  /** The descriptors in use, the listening one included. */
  function Fds(sv: int, conns: seq<Conn>): set<int> {
    {sv} + set k | 0 <= k < |conns| :: conns[k].pfd.fd
  }

  /** Slot and client agree on the descriptor, and no two slots share one; `sv` is the listener's. */
  ghost predicate Agreed(conns: seq<Conn>, sv: int) {
    && (forall k :: 0 <= k < |conns| ==> conns[k].client.sd == conns[k].pfd.fd != sv)
    && (forall j, k :: 0 <= j < k < |conns| ==> conns[j].pfd.fd != conns[k].pfd.fd)
  }

  /** `sock_list` runs opposite to the poll array, because its comparator makes every sorted insert
      go to the front. */
  ghost predicate Mirrored(conns: seq<Conn>, clients: seq<Client>) {
    && |conns| == |clients|
    && forall k :: 0 <= k < |conns| ==> conns[k].client == clients[|conns| - 1 - k]
  }

  /** The descriptor of a slot is found at the mirrored position and nowhere else. */
  lemma LookupFinds(conns: seq<Conn>, clients: seq<Client>, sv: int, k: nat, key: Client)
    requires k < |conns| && Agreed(conns, sv) && Mirrored(conns, clients) && key.sd == conns[k].pfd.fd
    ensures IndexOf(BySd, clients, key) == |clients| - 1 - k
  {
    forall j: nat | j < |clients|
      ensures clients[j].sd == key.sd <==> j == |clients| - 1 - k
    {
      assert conns[|clients| - 1 - j].client == clients[j];
    }
    IndexOfIs(BySd, clients, key, |clients| - 1 - k);
  }

  lemma AgreedGrows(conns: seq<Conn>, sv: int, conn: Conn)
    requires Agreed(conns, sv) && conn.client.sd == conn.pfd.fd != sv
    requires forall k :: 0 <= k < |conns| ==> conns[k].pfd.fd != conn.pfd.fd
    ensures Agreed(conns + [conn], sv)
  {
  }

  lemma AgreedShrinks(conns: seq<Conn>, sv: int, k: nat)
    requires Agreed(conns, sv) && k < |conns|
    ensures Agreed(RemoveAt(conns, k), sv)
  {
  }

  lemma MirroredShrinks(conns: seq<Conn>, clients: seq<Client>, k: nat)
    requires Mirrored(conns, clients) && k < |conns|
    ensures Mirrored(RemoveAt(conns, k), RemoveAt(clients, |clients| - 1 - k))
  {
  }

  /** A client with a new descriptor goes to the front of the list. */
  lemma NewClientGoesFirst(conns: seq<Conn>, clients: seq<Client>, sv: int, c: Client)
    requires Agreed(conns, sv) && Mirrored(conns, clients)
    requires forall k :: 0 <= k < |conns| ==> conns[k].pfd.fd != c.sd
    ensures InsertPos(BySd, clients, c) == 0
  {
    if clients != [] {
      assert conns[|conns| - 1].client == clients[0];
    }
    Ordering.NeverGreaterPos(BySd, clients, c);
  }

  /** `conns[k]` is in slot `k + 1` of the poll array, and slot 0 is the listening socket. */
  ghost predicate InArray(conns: seq<Conn>, pollFd: array<PollFd>, sv: int)
    reads pollFd
  {
    && pollFd.Length == |conns| + 1 && pollFd[0].fd == sv
    && forall k :: 0 <= k < |conns| ==> conns[k].pfd == pollFd[k + 1]
  }

  /** The list holds exactly the clients of `conns`. */
  ghost predicate InList(conns: seq<Conn>, sockList: DpList<Client>)
    reads sockList, sockList.nodes, sockList.elems
  {
    && sockList.Valid() && sockList.compare == BySd && Owned(sockList.elems)
    && Mirrored(conns, Load(sockList.elems))
  }

  /** Of all client records ever listed, those on the list are live and the others were freed once. */
  ghost predicate Accounted(records: seq<Cell<Client>>, elems: seq<Cell<Client>>)
    reads records`frees
  {
    && Distinct(records) && (forall e :: e in elems ==> e in records)
    && forall e :: e in records ==> e.frees == if e in elems then 0 else 1
  }

  lemma AccountedGrows(records: seq<Cell<Client>>, elems: seq<Cell<Client>>, k: nat, c: Cell<Client>)
    requires Accounted(records, elems) && k <= |elems| && c !in records && c.frees == 0
    ensures Accounted(records + [c], InsertAt(elems, k, c))
  {
    InsertAtElements(elems, k, c);
  }

  lemma AccountedParts(records: seq<Cell<Client>>, elems: seq<Cell<Client>>)
    requires Accounted(records, elems)
    ensures Distinct(records) && (forall e :: e in elems ==> e in records)
    ensures forall e :: e in records ==> e.frees == if e in elems then 0 else 1
  {
  }

  /** The record at position `k` of the list was freed just now. */
  lemma AccountedShrinks(records: seq<Cell<Client>>, elems: seq<Cell<Client>>, k: nat)
    requires k < |elems| && Distinct(elems) && Distinct(records)
    requires forall e :: e in elems ==> e in records
    requires forall e :: e in records ==> e.frees == if e in elems && e != elems[k] then 0 else 1
    ensures Accounted(records, RemoveAt(elems, k))
  {
    var left := RemoveAt(elems, k);
    forall e | e in elems && e != elems[k]
      ensures e in left
    {
      var i :| 0 <= i < |elems| && elems[i] == e;
      assert left[if i < k then i else i - 1] == e;
    }
  }

  /** Lines 90-96: one slot more for the descriptor `sd`; what `poll` reported for it is anything. */
  method Grow(a: array<PollFd>, sd: int, ghost sv: int, ghost conns: seq<Conn>, ghost c: Client)
      returns (b: array<PollFd>, ghost slot: PollFd)
    requires InArray(conns, a, sv)
    ensures fresh(b) && InArray(conns + [Conn(slot, c)], b, sv)
    ensures slot.fd == sd && slot.events == WATCHED
  {
    b := Realloc(a, a.Length + 1);
    b[a.Length] := b[a.Length].(fd := sd, events := WATCHED);
    slot := b[a.Length];
  }

  /** Lines 81, 93-95 and 97. */
  method ListClient(sockList: DpList<Client>, c: Client, ghost conns: seq<Conn>, ghost slot: PollFd, ghost sv: int)
      returns (ghost client: Cell<Client>, ghost link: Node<Client>)
    requires InList(conns, sockList) && Agreed(conns, sv)
    requires forall k :: 0 <= k < |conns| ==> conns[k].pfd.fd != c.sd
    modifies sockList, sockList.nodes
    ensures InList(conns + [Conn(slot, c)], sockList) && fresh(client) && fresh(link)
    ensures forall n :: n in sockList.nodes ==> n == link || n in old(sockList.nodes)
    ensures sockList.elems == InsertAt(old(sockList.elems), 0, client) && client.frees == 0
  {
    hide DpList.Valid, Owned, Agreed, InsertPos;
    NewClientGoesFirst(conns, Load(sockList.elems), sv, c);
    var cell := new Cell<Client>(c);
    ghost var nodes := sockList.nodes;
    client, link := sockList.InsertSorted(cell, false);
    InsertAtElements(nodes, 0, link);
  }

  lemma AgreedUpdate(conns: seq<Conn>, sv: int, k: nat, conn: Conn)
    requires Agreed(conns, sv) && k < |conns|
    requires conn.pfd.fd == conns[k].pfd.fd && conn.client.sd == conns[k].client.sd
    ensures Agreed(conns[k := conn], sv)
  {
  }

  lemma MirroredUpdate(conns: seq<Conn>, clients: seq<Client>, k: nat, conn: Conn)
    requires Mirrored(conns, clients) && k < |conns| && conn.client == conns[k].client
    ensures Mirrored(conns[k := conn], clients)
  {
  }

  lemma InArrayUpdate(conns: seq<Conn>, a: array<PollFd>, sv: int, k: nat, conn: Conn)
    requires InArray(conns, a, sv) && k < |conns| && conn.pfd == conns[k].pfd
    ensures InArray(conns[k := conn], a, sv)
  {
  }

  lemma PolledKeeps(conns: seq<Conn>, clients: seq<Client>, sv: int, events: nat -> (bool, bool))
    requires Agreed(conns, sv) && Mirrored(conns, clients)
    ensures Agreed(Polled(conns, events), sv) && Mirrored(Polled(conns, events), clients)
  {
  }

  /** Lines 124-126: the record of connection `k` is updated. */
  method UpdateClient(sockList: DpList<Client>, client: Cell<Client>, now: int, sensor: SensorId,
                      ghost conns: seq<Conn>, ghost k: nat)
    requires InList(conns, sockList) && k < |conns| && client == sockList.elems[|conns| - 1 - k]
    modifies client`data
    ensures InList(conns[k := conns[k].(client := Client(conns[k].client.sd, now, sensor))], sockList)
  {
    assert conns[k].client == client.data;
    client.data := client.data.(lastActive := now, sensor := sensor);
  }

  /** Line 129. */
  method MarkSlot(a: array<PollFd>, i: nat, ghost conns: seq<Conn>, ghost sv: int)
    requires InArray(conns, a, sv) && 1 <= i <= |conns|
    modifies a
    ensures InArray(conns[i - 1 := conns[i - 1].(pfd := conns[i - 1].pfd.(events := DEAD))], a, sv)
  {
    a[i] := a[i].(events := DEAD);
  }

  /** Lines 153-158: slot `k + 1` is closed up and the array gets one slot less. */
  method CloseSlot(a: array<PollFd>, k: nat, ghost conns: seq<Conn>, ghost sv: int) returns (b: array<PollFd>)
    requires InArray(conns, a, sv) && k < |conns|
    modifies a
    ensures fresh(b) && InArray(RemoveAt(conns, k), b, sv)
  {
    var c := a.Length - 1;
    Compact(a, c, k + 1);
    b := Realloc(a, c);
    assert forall j :: 0 <= j < c ==> b[j] == a[..c][j];
  }

  /** Line 150: the record of connection `k` leaves the list and is freed. */
  method UnlistClient(sockList: DpList<Client>, node: Node<Client>, ghost conns: seq<Conn>, ghost k: nat)
    requires InList(conns, sockList) && k < |conns| && node == sockList.nodes[|conns| - 1 - k]
    modifies sockList, sockList.nodes, {sockList.elems[|conns| - 1 - k]}`frees
    ensures InList(RemoveAt(conns, k), sockList)
    ensures old(sockList.elems[|conns| - 1 - k]).frees == 1
    ensures forall n :: n in sockList.nodes ==> n in old(sockList.nodes)
    ensures |conns| == |old(sockList.elems)| && Distinct(old(sockList.elems))
    ensures sockList.elems == RemoveAt(old(sockList.elems), |conns| - 1 - k)
  {
    MirroredShrinks(conns, Load(sockList.elems), k);
    sockList.RemoveNode(node, true, |conns| - 1 - k);
  }

  /** `poll` fills in the `revents` of every slot. */
  method ReportEvents(a: array<PollFd>, events: nat -> (bool, bool))
    modifies a
    ensures forall j: nat :: j < a.Length ==> a[j] == old(a[j]).(pollIn := events(j).0, pollHup := events(j).1)
  {
    var i := 0;
    while i < a.Length
      invariant i <= a.Length
      invariant forall j :: i <= j < a.Length ==> a[j] == old(a[j])
      invariant forall j: nat :: j < i ==> a[j] == old(a[j]).(pollIn := events(j).0, pollHup := events(j).1)
    {
      a[i] := a[i].(pollIn := events(i).0, pollHup := events(i).1);
      i := i + 1;
    }
  }

  /** The static variables `poll_fd` and `sock_list` with the local `counter`. */
  class ConnTable {
    const sv: int
    const maxConn: nat
    const sockList: DpList<Client>
    var pollFd: array<PollFd>
    var counter: nat
    /** Slots 1..counter of the poll array with their clients. */
    ghost var conns: seq<Conn>
    /** The records of all clients that were ever let in. */
    ghost var records: seq<Cell<Client>>
    ghost var Repr: set<object>

    ghost predicate Valid()
      reads this, Repr
      ensures Valid() ==> this in Repr
    {
      && this in Repr && pollFd in Repr && sockList in Repr
      && (forall n :: n in sockList.nodes ==> n in Repr) && (forall e :: e in sockList.elems ==> e in Repr)
      && (forall e :: e in records ==> e in Repr) && Accounted(records, sockList.elems)
      && |conns| == counter <= maxConn
      && InArray(conns, pollFd, sv) && InList(conns, sockList) && Agreed(conns, sv)
    }

    /** The parts of `Valid`, without looking into them. */
    lemma Parts()
      requires Valid()
      ensures this in Repr && pollFd in Repr && sockList in Repr && |conns| == counter <= maxConn
      ensures (forall n :: n in sockList.nodes ==> n in Repr) && (forall e :: e in sockList.elems ==> e in Repr)
      ensures (forall e :: e in records ==> e in Repr) && Accounted(records, sockList.elems)
      ensures InArray(conns, pollFd, sv) && InList(conns, sockList) && Agreed(conns, sv)
      ensures pollFd.Length == |conns| + 1 && |sockList.nodes| == |sockList.elems| == |conns|
    {
    }

    lemma Whole()
      requires this in Repr && pollFd in Repr && sockList in Repr && |conns| == counter <= maxConn
      requires (forall n :: n in sockList.nodes ==> n in Repr) && (forall e :: e in sockList.elems ==> e in Repr)
      requires (forall e :: e in records ==> e in Repr) && Accounted(records, sockList.elems)
      requires InArray(conns, pollFd, sv) && InList(conns, sockList) && Agreed(conns, sv)
      ensures Valid()
    {
    }

    /** Lines 48-49 and 63-71, once the listening socket `sv` is open. */
    constructor (sv: int, maxConn: nat)
      ensures Valid() && fresh(Repr) && conns == [] && records == []
      ensures this.sv == sv && this.maxConn == maxConn
    {
      this.sv, this.maxConn := sv, maxConn;
      this.sockList := new DpList<Client>(BySd);
      counter, conns, records := 0, [], [];
      new;
      pollFd := new PollFd[1];
      pollFd[0] := PollFd(sv, 1, false, false);
      Repr := {this, pollFd, sockList};
    }

    /** The node and the record of the client in slot `i`. */
    ghost predicate Found(i: nat, node: Node?<Client>, client: Cell?<Client>)
      reads this, sockList
    {
      && 1 <= i <= counter == |sockList.nodes| == |sockList.elems|
      && node == sockList.nodes[counter - i] && client == sockList.elems[counter - i]
    }

    /** Lines 106-111. */
    method FindClient(i: nat) returns (node: Node?<Client>, client: Cell?<Client>)
      requires Valid() && 1 <= i <= counter
      ensures node != null && client != null && Found(i, node, client)
    {
      var key := Client(pollFd[i].fd, 0, 0);
      LookupFinds(conns, Load(sockList.elems), sv, i - 1, key);
      node := sockList.GetReferenceOfElement(key);
      client := null;
      if node != null {
        client := sockList.GetElementAtReference(node);
      }
    }

    /** The descriptors in the poll array. */
    function OpenFds(): set<int>
      reads this, pollFd
    {
      set k | 0 <= k < pollFd.Length :: pollFd[k].fd
    }

    lemma OpenFdsAre()
      requires Valid()
      ensures OpenFds() == Fds(sv, conns)
    {
      forall fd
        ensures fd in OpenFds() <==> fd in Fds(sv, conns)
      {
        if k :| 0 <= k < pollFd.Length && pollFd[k].fd == fd {
          assert k > 0 ==> conns[k - 1].pfd.fd == fd;
        }
        if k :| 0 <= k < |conns| && conns[k].pfd.fd == fd {
          assert pollFd[k + 1].fd == fd;
        }
      }
    }

    /** Lines 82-98, when line 79 lets a connection in.  `sd` is the descriptor that the accepted
        connection got, which is not in use, or None when accepting failed. */
    method Accept(sd: Option<int>, now: int) returns (ghost slot: PollFd)
      requires Valid() && counter < maxConn
      requires sd.Some? ==> sd.value !in OpenFds()
      modifies Repr
      ensures Valid() && fresh(Repr - old(Repr))
      ensures sd.None? ==> conns == old(conns) && records == old(records)
      ensures sd.Some? ==> slot.fd == sd.value && slot.events == WATCHED
      ensures sd.Some? ==> conns == old(conns) + [Conn(slot, Client(sd.value, now, 0))]
      ensures sd.Some? ==> |records| == |old(records)| + 1 && records[..|old(records)|] == old(records)
    {
      if sd.None? {
        return PollFd(sv, 0, false, false);
      }
      assert forall j :: 0 <= j < pollFd.Length ==> pollFd[j].fd != sd.value;
      slot := Add(sd.value, now);
    }

    /** Lines 88-98. */
    method Add(sd: int, now: int) returns (ghost slot: PollFd)
      requires Valid() && counter < maxConn
      requires sd != sv && forall k :: 0 <= k < |conns| ==> conns[k].pfd.fd != sd
      modifies Repr
      ensures Valid() && fresh(Repr - old(Repr))
      ensures slot.fd == sd && slot.events == WATCHED
      ensures conns == old(conns) + [Conn(slot, Client(sd, now, 0))]
      ensures |records| == |old(records)| + 1 && records[..|old(records)|] == old(records)
    {
      hide *;
      Parts();
      var c := Client(sd, now, 0);
      var grown;
      grown, slot := Grow(pollFd, sd, sv, conns, c);
      ghost var elems := sockList.elems;
      ghost var client, link := ListClient(sockList, c, conns, slot, sv);
      InsertAtElements(elems, 0, client);
      AccountedGrows(records, elems, 0, client);
      records := records + [client];
      AgreedGrows(conns, sv, Conn(slot, c));
      counter, pollFd := counter + 1, grown;
      conns := conns + [Conn(slot, c)];
      Repr := Repr + {grown, client, link};
      Whole();
    }

    /** Lines 142-159 for a connection to be dropped: the record leaves the list and is freed, the
        slot leaves the array.  Repairs: the list node is removed in the signal branch, too, and the
        compaction runs over `counter` slots. */
    method Drop(i: nat, node: Node<Client>, ghost client: Cell<Client>)
      requires Valid() && Found(i, node, client)
      modifies Repr
      ensures Valid() && fresh(Repr - old(Repr))
      ensures conns == RemoveAt(old(conns), i - 1) && records == old(records)
      ensures client.frees == 1
    {
      hide Valid, InArray, InList, Agreed, RemoveAt, Accounted;
      Parts();
      ghost var elems := sockList.elems;
      AccountedParts(records, elems);
      ghost var left := RemoveAt(conns, i - 1);
      RemoveAtElements(conns, i - 1);
      AgreedShrinks(conns, sv, i - 1);
      UnlistClient(sockList, node, conns, i - 1);
      AccountedShrinks(records, elems, |conns| - i);
      RemoveAtElements(elems, |conns| - i);
      var shrunk := CloseSlot(pollFd, i - 1, conns, sv);
      counter, pollFd := counter - 1, shrunk;
      conns := left;
      Repr := Repr + {shrunk};
      Whole();
    }

    /** Lines 124-126: the record of the client in slot `i` is updated. */
    method Update(i: nat, ghost node: Node<Client>, client: Cell<Client>, now: int, sensor: SensorId)
      requires Valid() && Found(i, node, client)
      modifies Repr
      ensures Valid() && Repr == old(Repr) && records == old(records) && Found(i, node, client)
      ensures var was := old(conns[i - 1]);
        conns == old(conns)[i - 1 := was.(client := Client(was.client.sd, now, sensor))]
    {
      hide Valid, InArray, InList, Agreed, Accounted;
      Parts();
      ghost var conn := conns[i - 1].(client := Client(conns[i - 1].client.sd, now, sensor));
      AgreedUpdate(conns, sv, i - 1, conn);
      InArrayUpdate(conns, pollFd, sv, i - 1, conn);
      UpdateClient(sockList, client, now, sensor, conns, i - 1);
      conns := conns[i - 1 := conn];
      Whole();
    }

    /** Line 129. */
    method MarkDead(i: nat)
      requires Valid() && 1 <= i <= counter
      modifies Repr
      ensures Valid() && Repr == old(Repr) && records == old(records)
      ensures unchanged(sockList) && counter == old(counter)
      ensures conns == old(conns)[i - 1 := old(conns[i - 1]).(pfd := old(conns[i - 1]).pfd.(events := DEAD))]
    {
      hide Valid, InArray, Agreed, Accounted, DpList.Valid, Owned, Mirrored;
      Parts();
      ghost var conn := conns[i - 1].(pfd := conns[i - 1].pfd.(events := DEAD));
      AgreedUpdate(conns, sv, i - 1, conn);
      MirroredUpdate(conns, Load(sockList.elems), i - 1, conn);
      MarkSlot(pollFd, i, conns, sv);
      conns := conns[i - 1 := conn];
      Whole();
    }

    /** Line 75. */
    method Poll(events: nat -> (bool, bool))
      requires Valid()
      modifies Repr
      ensures Valid() && Repr == old(Repr) && records == old(records) && unchanged(sockList)
      ensures conns == Polled(old(conns), events)
      ensures (pollFd[0].pollIn, pollFd[0].pollHup) == events(0)
    {
      hide DpList.Valid, Owned, Agreed, Mirrored, Accounted;
      PolledKeeps(conns, Load(sockList.elems), sv, events);
      ReportEvents(pollFd, events);
      conns := Polled(conns, events);
    }

    /** `connmgr_free` (line 186): the records that are still listed are freed, so that all records of
        clients that were ever let in have been freed exactly once. */
    method Release()
      requires Valid()
      modifies Repr
      ensures sockList.frees == 1
      ensures forall e :: e in old(records) ==> e.frees == 1
      ensures records == old(records) && forall e :: e in old(sockList.elems) ==> e in records
    {
      hide DpList.Valid, InArray, Agreed, Mirrored;
      sockList.Free(true);
    }
  }

  function Polled(conns: seq<Conn>, events: nat -> (bool, bool)): (r: seq<Conn>)
    ensures |r| == |conns|
    ensures forall k: nat :: k < |conns| ==>
      r[k] == conns[k].(pfd := conns[k].pfd.(pollIn := events(k + 1).0, pollHup := events(k + 1).1))
  {
    seq(|conns|, k requires 0 <= k < |conns| =>
      conns[k].(pfd := conns[k].pfd.(pollIn := events(k + 1).0, pollHup := events(k + 1).1)))
  }
}
