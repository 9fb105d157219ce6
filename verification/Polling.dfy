/** A consumer that keeps calling `sbuffer_remove` (line 54 of `datamgr.c`, line 22 of `sensor_db.c`) while
    the other threads use the same buffer between its calls. */
module Polling {
  import opened ListSpec
  import opened Readings
  import opened SBuffers

  /** A buffer call of another thread. */
  datatype Call = Put(r: Reading) | Get

  function AfterCall(queue: seq<Reading>, call: Call): seq<Reading> {
    match call
    case Put(r) => queue + [r]
    case Get => if queue == [] then [] else queue[1..]
  }

  function AfterCalls(queue: seq<Reading>, calls: seq<Call>): seq<Reading> {
    if calls == [] then queue
    else
      AfterCall(AfterCalls(queue, calls[..|calls| - 1]), calls[|calls| - 1])
  }

  /** What the calls of the others deliver, and what they insert. */
  function Gotten(queue: seq<Reading>, calls: seq<Call>): seq<Reading> {
    if calls == [] then []
    else
      var before := calls[..|calls| - 1];
      var q := AfterCalls(queue, before);
      Gotten(queue, before) + if calls[|calls| - 1].Get? && q != [] then [q[0]] else []
  }

  function PutIn(calls: seq<Call>): seq<Reading> {
    if calls == [] then []
    else PutIn(calls[..|calls| - 1]) + if calls[|calls| - 1].Put? then [calls[|calls| - 1].r] else []
  }

  /** `taken` is what this consumer's calls delivered; `removed` is what all consumers took, in order. */
  datatype Progress = Progress(taken: seq<Reading>, queue: seq<Reading>, removed: seq<Reading>)

  /** The buffer as the next call finds it; the other threads make the calls `others(k)` before it. */
  function Found(p: Progress, calls: seq<Call>): seq<Reading> {
    AfterCalls(p.queue, calls)
  }

  /** After `k` calls of this consumer. */
  function Polls(queue: seq<Reading>, others: nat -> seq<Call>, k: nat): Progress {
    if k == 0 then Progress([], queue, [])
    else
      var p := Polls(queue, others, k - 1);
      var q, gone := Found(p, others(k - 1)), p.removed + Gotten(p.queue, others(k - 1));
      if q == [] then Progress(p.taken, [], gone) else Progress(p.taken + [q[0]], q[1..], gone + [q[0]])
  }

  /** The record of the consumer: a call that finds the buffer empty leaves it as it is. */
  function Current(p: Progress, uninitialised: Reading): Reading {
    if p.taken == [] then uninitialised else p.taken[|p.taken| - 1]
  }

  function AllPutIn(others: nat -> seq<Call>, k: nat): seq<Reading> {
    if k == 0 then [] else AllPutIn(others, k - 1) + PutIn(others(k - 1))
  }

  lemma {:induction false} CallsConserve(queue: seq<Reading>, calls: seq<Call>)
    ensures Gotten(queue, calls) + AfterCalls(queue, calls) == queue + PutIn(calls)
  {
    if calls != [] {
      var before := calls[..|calls| - 1];
      CallsConserve(queue, before);
      var q, got := AfterCalls(queue, before), Gotten(queue, before);
      match calls[|calls| - 1]
      case Put(r) =>
        assert got + (q + [r]) == (got + q) + [r] == queue + (PutIn(before) + [r]);
      case Get =>
        if q != [] {
          assert (got + [q[0]]) + q[1..] == got + q;
        }
    }
  }

  /** Whatever the others do: what all consumers took, followed by what is left, is what there was at the
      beginning and was inserted since, in order. */
  lemma {:induction false} PollsConserve(queue: seq<Reading>, others: nat -> seq<Call>, k: nat)
    ensures Polls(queue, others, k).removed + Polls(queue, others, k).queue == queue + AllPutIn(others, k)
  {
    if k > 0 {
      var p, calls := Polls(queue, others, k - 1), others(k - 1);
      PollsConserve(queue, others, k - 1);
      CallsConserve(p.queue, calls);
      var q, got := Found(p, calls), Gotten(p.queue, calls);
      Regroup(p.removed, got, q);
      Regroup(p.removed, p.queue, PutIn(calls));
      Regroup(queue, AllPutIn(others, k - 1), PutIn(calls));
      if q != [] {
        assert q == [q[0]] + q[1..];
        Regroup(p.removed + got, [q[0]], q[1..]);
      }
    }
  }

  /** Without other threads the calls take the first readings. */
  lemma {:induction false} PollsAlone(queue: seq<Reading>, others: nat -> seq<Call>, k: nat)
    requires forall j: nat :: j < k ==> others(j) == []
    ensures var n := if k < |queue| then k else |queue|;
      Polls(queue, others, k).taken == queue[..n] && Polls(queue, others, k).queue == queue[n..]
  {
    if k > 0 {
      PollsAlone(queue, others, k - 1);
      assert Found(Polls(queue, others, k - 1), others(k - 1)) == Polls(queue, others, k - 1).queue;
    }
  }

  /** The buffer holds `queue`; its nodes are old ones or from `made`. */
  ghost predicate Holds(buffer: SBuffer, queue: seq<Reading>, made: set<SNode>)
    reads buffer, buffer.nodes
  {
    buffer.Valid() && buffer.contents == queue && forall n :: n in buffer.nodes ==> n in made
  }

  /** One buffer call of another thread. */
  method DoCall(buffer: SBuffer, call: Call, ghost queue: seq<Reading>, ghost made: set<SNode>)
      returns (ghost made': set<SNode>)
    requires Holds(buffer, queue, made)
    modifies buffer, made
    ensures Holds(buffer, AfterCall(queue, call), made')
    ensures made <= made' && fresh(made' - made)
  {
    var status;
    made' := made;
    match call {
      case Put(r) =>
        status := Insert(buffer, r);
        made' := made + {buffer.nodes[|buffer.nodes| - 1]};
      case Get =>
        var data;
        status, data := Remove(buffer, Reading(0, 0.0, 0));
    }
  }

  /** The calls of the other threads between two calls of this one. */
  method DoCalls(buffer: SBuffer, calls: seq<Call>, ghost queue: seq<Reading>, ghost made: set<SNode>)
      returns (ghost made': set<SNode>)
    requires Holds(buffer, queue, made)
    modifies buffer, made
    ensures Holds(buffer, AfterCalls(queue, calls), made') && made <= made' && fresh(made' - made)
  {
    hide Holds;
    made' := made;
    var j := 0;
    while j < |calls|
      invariant j <= |calls| && Holds(buffer, AfterCalls(queue, calls[..j]), made')
      invariant made <= made' && fresh(made' - made)
    {
      assert calls[..j + 1][..j] == calls[..j];
      made' := DoCall(buffer, calls[j], AfterCalls(queue, calls[..j]), made');
      j := j + 1;
    }
    assert calls[..j] == calls;
  }

  /** The next call of this consumer; a reading is delivered exactly if the others left one. */
  method RemoveNext(buffer: SBuffer, data: Reading, others: nat -> seq<Call>, k: nat, ghost queue: seq<Reading>,
                    ghost uninitialised: Reading, ghost made: set<SNode>)
      returns (status: Status, data': Reading, ghost made': set<SNode>)
    requires Holds(buffer, Polls(queue, others, k).queue, made)
    requires data == Current(Polls(queue, others, k), uninitialised)
    modifies buffer, made
    ensures Holds(buffer, Polls(queue, others, k + 1).queue, made') && made <= made' && fresh(made' - made)
    ensures data' == Current(Polls(queue, others, k + 1), uninitialised)
    ensures status == if Found(Polls(queue, others, k), others(k)) == [] then NoData else Success
  {
    made' := DoCalls(buffer, others(k), Polls(queue, others, k).queue, made);
    status, data' := Remove(buffer, data);
  }
}
