/** The storage manager thread, `sensor_db.c` lines 19-26. */
module StorageMgrs {
  import opened Polling
  import opened Readings
  import opened SBuffers

  /** The call after `j` others finds a reading. */
  predicate Served(queue: seq<Reading>, others: nat -> seq<Call>, j: nat) {
    Found(Polls(queue, others, j), others(j)) != []
  }

  lemma ServedNext(queue: seq<Reading>, others: nat -> seq<Call>, uninitialised: Reading, k: nat)
    ensures var p, next := Polls(queue, others, k), Polls(queue, others, k + 1);
      next.taken == if Served(queue, others, k) then p.taken + [Current(next, uninitialised)] else p.taken
  {
  }

  lemma NoneTaken(queue: seq<Reading>, others: nat -> seq<Call>)
    ensures Polls(queue, others, 0) == Progress([], queue, [])
  {
  }

  /** The first `calls` turns of the loop at line 22, while the other threads make the buffer calls
      `others`; `rows` are the rows written to the database.  A call that finds the buffer empty writes
      nothing. */
  method StoreReadings(buffer: SBuffer, others: nat -> seq<Call>, calls: nat, ghost queue: seq<Reading>,
                       ghost made: set<SNode>) returns (rows: seq<Reading>, ghost made': set<SNode>)
    requires Holds(buffer, queue, made)
    modifies buffer, made
    ensures rows == Polls(queue, others, calls).taken
    ensures Holds(buffer, Polls(queue, others, calls).queue, made') && fresh(made' - made)
  {
    hide Holds, Polls, Found;
    rows, made' := [], made;
    var data := Reading(0, 0.0, 0);
    NoneTaken(queue, others);
    var k := 0;
    while k < calls
      invariant 0 <= k <= calls && rows == Polls(queue, others, k).taken
      invariant data == Current(Polls(queue, others, k), Reading(0, 0.0, 0))
      invariant Holds(buffer, Polls(queue, others, k).queue, made') && made <= made' && fresh(made' - made)
    {
      ServedNext(queue, others, Reading(0, 0.0, 0), k);
      var status;
      status, data, made' := RemoveNext(buffer, data, others, k, queue, Reading(0, 0.0, 0), made');
      if status == Success {
        rows := rows + [data];
      }
      k := k + 1;
    }
  }

  /** `storagemgr_parse_sensor_data`; the loop ends only when there is no buffer. */
  method ParseSensorData(buffer: SBuffer?, others: nat -> seq<Call>, calls: nat, ghost queue: seq<Reading>,
                         ghost made: set<SNode>) returns (rows: seq<Reading>, ghost made': set<SNode>)
    requires buffer != null ==> Holds(buffer, queue, made)
    modifies buffer, made
    ensures buffer == null ==> rows == []
    ensures buffer != null ==>
      rows == Polls(queue, others, calls).taken && Holds(buffer, Polls(queue, others, calls).queue, made')
  {
    hide Holds, Polls;
    rows, made' := [], made;
    if buffer != null {
      rows, made' := StoreReadings(buffer, others, calls, queue, made);
    }
  }

  /** What is written when line 24 runs after every call, whether or not it delivered a reading. */
  function Written(queue: seq<Reading>, others: nat -> seq<Call>, uninitialised: Reading, k: nat): (rows: seq<Reading>)
    ensures |rows| == k
  {
    if k == 0 then []
    else Written(queue, others, uninitialised, k - 1) + [Current(Polls(queue, others, k), uninitialised)]
  }

  lemma WrittenNext(queue: seq<Reading>, others: nat -> seq<Call>, uninitialised: Reading, k: nat)
    ensures Written(queue, others, uninitialised, k + 1) ==
            Written(queue, others, uninitialised, k) + [Current(Polls(queue, others, k + 1), uninitialised)]
  {
  }

  /** The same loop to the letter: a call that finds the buffer empty writes the record of the previous
      call once more. */
  method ParseAsWritten(buffer: SBuffer, others: nat -> seq<Call>, uninitialised: Reading, calls: nat,
                        ghost queue: seq<Reading>, ghost made: set<SNode>)
      returns (rows: seq<Reading>, ghost made': set<SNode>)
    requires Holds(buffer, queue, made)
    modifies buffer, made
    ensures rows == Written(queue, others, uninitialised, calls)
    ensures Holds(buffer, Polls(queue, others, calls).queue, made') && fresh(made' - made)
  {
    hide Holds, Polls, Found, Written;
    rows, made' := [], made;
    var data := uninitialised;
    NoneTaken(queue, others);
    var k := 0;
    while k < calls
      invariant 0 <= k <= calls && rows == Written(queue, others, uninitialised, k)
      invariant data == Current(Polls(queue, others, k), uninitialised)
      invariant Holds(buffer, Polls(queue, others, k).queue, made') && made <= made' && fresh(made' - made)
    {
      WrittenNext(queue, others, uninitialised, k);
      var status;
      status, data, made' := RemoveNext(buffer, data, others, k, queue, uninitialised, made');
      rows := rows + [data];
      k := k + 1;
    }
  }

  lemma {:induction false} AllServed(queue: seq<Reading>, others: nat -> seq<Call>, uninitialised: Reading, k: nat)
    ensures |Polls(queue, others, k).taken| <= k
    ensures |Polls(queue, others, k).taken| == k <==> forall j: nat :: j < k ==> Served(queue, others, j)
    ensures |Polls(queue, others, k).taken| == k ==>
      Written(queue, others, uninitialised, k) == Polls(queue, others, k).taken
  {
    hide Polls, Served, Written, Current;
    if k > 0 {
      AllServed(queue, others, uninitialised, k - 1);
      ServedNext(queue, others, uninitialised, k - 1);
      WrittenNext(queue, others, uninitialised, k - 1);
    } else {
      NoneTaken(queue, others);
    }
  }

  /** As written, whatever the other threads do: the database receives exactly the readings that this
      thread took from the buffer if and only if no call finds the buffer empty. */
  lemma WrittenOnceOnlyIfNeverEmpty(queue: seq<Reading>, others: nat -> seq<Call>, uninitialised: Reading, calls: nat)
    ensures Written(queue, others, uninitialised, calls) == Polls(queue, others, calls).taken <==>
            forall j: nat :: j < calls ==> Served(queue, others, j)
  {
    hide Served, Polls;
    AllServed(queue, others, uninitialised, calls);
  }
}
