# Sensor gateway

A Dafny model of the sensor gateway under `Project/`, with proofs about its four stateful parts:

- the doubly linked list of `lib/dplist.c` (`DpList.dfy`, with `ListSpec.dfy` and `Ordering.dfy` for what
  its operations mean on sequences, `Memory.dfy`, `Ledger.dfy` and `Ownership.dfy` for allocation and
  release);
- the connection manager (`ConnTable.dfy` for the poll array and the client list, `ConnSpec.dfy` for what
  a visit and a sweep mean, `ConnMgr.dfy` and `ConnListen.dfy` for the code that does them in place);
- the shared buffer and the stop signal between the three threads (`SBuffer.dfy`, `Polling.dfy`,
  `StorageMgr.dfy`, and over all interleavings `Protocol.dfy`, `Safety.dfy`, `Provenance.dfy`,
  `ForeignIds.dfy` and `Refinement.dfy`);
- the per-sensor window and the node list of the data manager (`Window.dfy`, `SensorMap.dfy`,
  `DataMgr.dfy`).

`Wire.dfy` and `Records.dfy` treat the record format on the connection and in the data file.

Code that works in place is modelled by classes, arrays and loops, and proved against functions on
sequences; the lemmas are about those functions.  `Protocol.dfy` is a transition system whose steps use
the same functions, one step per buffer call and per critical section; `Refinement.dfy` connects it to the
sequential sweep of `ConnListen.dfy`.

`dafny verify dfyconfig.toml` checks everything.

## Assumptions

- Each call of the buffer functions is atomic (`sbuffer.c` takes no lock), and so is the mailbox access,
  which the code protects by a mutex.
- `accept`, `poll`, received fields, clocks and the order of the threads are arbitrary inputs.  `accept`
  does not return a descriptor that is still in use.  A receive delivers a whole field or none.
- `double` is `real`; identifiers are `uint16_t`; `TIMEOUT`, `MAX_CONN`, `SET_MIN_TEMP` and
  `SET_MAX_TEMP` are parameters.
- The array `data_list` is part of the struct `sensor_node_t` and is copied with it, so it is a sequence
  inside the struct; the poll array, which is shared and overwritten in place, is an array.

## Repairs

The sources are unfinished: several lines do not compile or contradict their own headers.  The model
follows the evident intent; each repair is marked where it is made.

- `dplist.c`: `==` for `=` at line 92 and `=` for `==` at lines 114 and 129; freeing and return missing
  at lines 127-135; the loops at lines 138, 184 and 218 stop at the last node (header lines 68, 80 and
  92); the size count at lines 168-173; -1 at line 208; NULL and progress at lines 231-240; the head test
  `<= 0` at line 266 (`Ordering.HeadTestFails` says exactly when it matters).
- `connmgr.c`: `counter` and `conn_counter` are one variable; the sizes at lines 49 and 90 count slots;
  `dpl_remove_node` is the unlinking of `dplist.c` lines 149-158, also for a head with successors; the
  signal branch removes the list node, too, and the close branch unlocks; a stop signal must be nonzero to
  match at line 136.
- `datamgr.c`: the new reading is stored after the shift of lines 87-90
  (`Window.AsWrittenIgnoresLaterReadings` says what happens without); the comparator compares sensor ids
  and lookups pass a node; line 70 sets the timestamp that line 167 returns; the getters test the node
  they found for NULL.
- `datamgr.c` line 54 and `sensor_db.c` line 22: a call that finds the buffer empty does nothing
  (`StorageMgrs.WrittenOnceOnlyIfNeverEmpty` says exactly when that matters).

Kept as they are, although the documentation says otherwise: the average is reported from the sixth
reading on, not from the fifth, and a zero among the readings distorts it (`Window.DocumentedAverageHolds`
says exactly when); the getters answer for an unmapped sensor with the data of the first node
(`SensorMap.GettersAnswer`); inserting at a positive index aborts on the empty list
(`DpLists.DpList.InsertAtIndex`).  Also kept: of the three receives of a record only the last one is checked
(`connmgr.c` line 122), so a reading may carry an id that another connection sent (`Provenance.OwnIdExactly`
says exactly when it does not).

## Model

| member | source | states |
|---|---|---|
| `DpLists.DpList.InsertSorted` | Project/lib/dplist.c:245-279 | The list stays linked both ways and NULL-terminated; exactly one element, the given pointer or a fresh copy, enters at the position that `InsertPos` describes, through one fresh node; ownership survives if and only if a copy was asked for or the element was live and not listed |
| `DpLists.DpList.InsertAtIndex` | Project/lib/dplist.c:85-120 | Inserts at the front for an index of 0 or less, at the end for a large one; aborts exactly for a positive index on the empty list, where the header promises an insertion; ownership survives as for a sorted insert |
| `DpLists.InsertIntoEmpty` | Project/lib/dplist.c:100-102 | A concrete run that aborts: index 1 on the empty list |
| `DpLists.DpList.RemoveAtIndex` | Project/lib/dplist.c:122-161 | Removes the first, the indexed or the last node by clamping the index; the node is freed once, the element once on request; an empty list is unchanged |
| `DpLists.DpList.RemoveNode` | Project/lib/dplist.c:143-158 | Unlinks one node wherever it stands, freeing node and, on request, element; the removed element is not listed any more |
| `DpLists.DpList.Free` | Project/lib/dplist.c:71-83 | Terminates; every node and the list are freed once, and every listed element exactly once on request and not at all otherwise |
| `DpLists.DpList.Size` | Project/lib/dplist.c:163-175 | The number of listed elements |
| `DpLists.DpList.GetReferenceAtIndex` | Project/lib/dplist.c:211-224 | The node at the clamped index, NULL exactly for the empty list |
| `DpLists.DpList.GetElementAtIndex` | Project/lib/dplist.c:177-189 | The element at the clamped index, NULL exactly for the empty list |
| `DpLists.DpList.GetIndexOfElement` | Project/lib/dplist.c:191-209 | The first position comparing equal, or -1 |
| `DpLists.DpList.GetReferenceOfElement` | Project/lib/dplist.c:281-292 | The node at the position that the index lookup finds, or NULL |
| `DpLists.DpList.GetElementAtReference` | Project/lib/dplist.c:226-243 | The element of a listed node; NULL exactly for a reference that is NULL or not listed |
| `DpLists.DpList.LookupsAgree` | Project/lib/dplist.c:177-243 | Index, reference and element lookups denote one and the same first match, or all report that there is none |
| `Ordering.PositionExactly` | Project/lib/dplist.c:256-276 | For any comparator, the position of a sorted insert is the only one that fits the comparisons, ties included |
| `Ordering.SortedInsertKeepsOrder` | Project/lib/dplist.c:256-276 | For every total preorder: the list is sorted after a sorted insert if and only if it was before |
| `Ordering.Placement` | Project/lib/dplist.c:256-276 | Nothing before the new element is greater, nothing behind it smaller |
| `Ordering.InsertAllSorts` | Project/lib/dplist.c:245-279 | Inserting any sequence one by one gives a sorted list for every total preorder |
| `Ordering.InsertAllContents` | Project/lib/dplist.c:245-279 | For any comparator the list holds each inserted element once |
| `Ordering.HeadTestFails` | Project/lib/dplist.c:266-275 | The head test as written goes through a NULL pointer if and only if the list has two or more nodes and the new element equals the head |
| `Ordering.HeadTestFailsOnEqual` | Project/lib/dplist.c:266-275 | A concrete list on which the head test as written fails |
| `Ordering.NeverGreaterIsNoOrder` | Project/connmgr.c:205-211 | A comparator that never answers 'greater', like both of the repository, is a total preorder only if it calls everything equal |
| `Ordering.InsertAllReverses` | Project/lib/dplist.c:256-275 | With such a comparator the list is the reverse of the insertion order; exact for all inputs, with the one exception of an equal second element |
| `Ledgers.ListedValues` | Project/lib/dplist.c:85-161 | Whichever blocks hold them, the listed values change by `SortedInsert`, `InsertAt` or `RemoveAt`, and an aborted insertion changes nothing |
| `Ledgers.StepExactly` | Project/lib/dplist.c:85-161 | Which blocks an operation allocates, lists, unlists and releases, written out by index |
| `Ledgers.GuardIsExact` | Project/lib/dplist.c:114-118 | Ownership of the listed elements survives an operation if and only if a pointer handed in without copying is neither listed nor released |
| `Ledgers.CarefulIsExact` | Project/lib/dplist.c:71-83 | Over any run, old pointers handed in again included: freeing the list after any of the operations releases each element at most once, and every listed element stays owned, if and only if every operation met its guard |
| `Ledgers.EachFreedOnce` | Project/lib/dplist.c:71-83 | After a run that met its guards, the releases so far and those of the final `dpl_free` are of different elements |
| `Ledgers.FreshIsCareful` | Project/lib/dplist.c:248 | A client that allocates what it hands in, or asks for copies, always meets the guards |
| `Ledgers.HandedInTwice` | Project/lib/dplist.c:114-118 | A concrete run in which one element is released twice: its pointer was handed in twice |
| `Ownership.Run` | Project/lib/dplist.c:85-161 | Any run that meets its guards on the heap: list, contents of all elements and releases are exactly those that the ledger of the operations gives, and the list is owned |
| `Ownership.RunAndFree` | Project/lib/dplist.c:71-83 | After the run and `dpl_free`, each element was released once if it was listed at the end or removed with `free`, and not at all otherwise; the client's own elements are those of its insertions, in order, with their values |
| `SBuffers.SBuffer.Append` | Project/sbuffer.c:60-75 | The reading enters at the end of the queue, in a fresh node behind the old ones; the linked structure stays intact |
| `SBuffers.SBuffer.TakeFirst` | Project/sbuffer.c:48-57 | Delivers and deletes the oldest reading and frees its node once |
| `SBuffers.Insert` | Project/sbuffer.c:60-75 | Fails exactly without a buffer, otherwise appends |
| `SBuffers.Remove` | Project/sbuffer.c:44-58 | Failure without a buffer, no data exactly when the queue is empty, and then the caller's record keeps its content; otherwise the oldest reading |
| `SBuffers.SBuffer.EmptyWhenNull` | Project/sbuffer.c:16-19 | `head` is NULL iff `tail` is NULL iff the queue is empty, and `tail` ends the chain |
| `SBuffers.Free` | Project/sbuffer.c:29-42 | Every node and the buffer are freed once; the caller's pointer becomes NULL |
| `Window.WindowOfHistory` | Project/datamgr.c:74-90 | For every history, zeros included: the window is the latest nonzero readings, at least min(4, all of them), followed by free slots |
| `Window.WindowOfNonZero` | Project/datamgr.c:74-90 | For nonzero readings the window is the last min(n, 5) of them |
| `Window.UsedSlots` | Project/datamgr.c:74-81 | For every history: a reading meets a full window if and only if five or more nonzero readings came before it, the latest reading among them |
| `Window.ReportedAverage` | Project/datamgr.c:70-96 | For every history, zeros included: the value is 0 until a reading meets a full window, then the mean of the window after the latest such reading |
| `Window.ReportedWindowIs` | Project/datamgr.c:70-96 | That window read off the history: the last four nonzero readings before the latest one, and the latest one unless the reading before it was zero |
| `Window.DocumentedAverageHolds` | Project/datamgr.h:74-79 | For every history the value equals the one the header promises if and only if fewer than five readings were recorded; or fewer than five nonzero ones before the latest and the last five sum to 0; or the stale readings that zeros keep in the window sum to what is missed of the latest one |
| `Window.KeptAfterFourNonZero` | Project/datamgr.h:74-79 | The promise is kept when the four readings before the latest are nonzero and five nonzero ones came before it |
| `Window.KeptWithoutZeros` | Project/datamgr.h:74-79 | Without zeros the promise is kept if and only if there are not exactly five readings, or their sum is 0 |
| `Window.ZeroBreaksThePromise` | Project/datamgr.c:74-96 | A concrete history of seven readings with one zero: 28 is reported, 38 is promised |
| `Window.StepExactly` | Project/datamgr.c:69-96 | For any node: a reading fills the first free slot and changes no value, or else pushes out the oldest one and sets the value to the mean of the last four values and itself |
| `Window.AlarmExactly` | Project/datamgr.c:92-108 | For any node: too hot if and only if no slot was free and the new mean is above the maximum, too cold if and only if it is below the minimum and not above the maximum |
| `Window.AlarmSound` | Project/datamgr.c:92-108 | For every node: an alarm about a reading implies that the window, which contains the reading, holds a value beyond the limit |
| `Window.AsWrittenIgnoresLaterReadings` | Project/datamgr.c:86-95 | Without the missing store, the window after n nonzero readings consists of the first five readings only, forever |
| `DataMgrs.Record` | Project/datamgr.c:69-108 | The in-place loops have the effect of `Step` on the node; the alarm is too hot, too cold or none exactly as the new mean, written out, compares with the limits |
| `SensorMap.Isolation` | Project/datamgr.c:54-96 | After any interleaved run each node is the result of the readings carrying its id and of nothing else; a node hidden behind one with the same id never changes |
| `SensorMap.OtherReadingsDoNotMatter` | Project/datamgr.c:54-96 | Deleting all readings of other sensors from the run does not change a node |
| `SensorMap.UnmappedReadingsChangeNothing` | Project/datamgr.c:57-68 | Readings with unmapped ids change no node |
| `SensorMap.AlarmInRun` | Project/datamgr.c:92-108 | In any interleaved run from the loaded map, zeros included: too hot if and only if the sensor is mapped, its window full and the mean of the reading and the sensor's last four nonzero ones above the maximum; too cold if and only if that mean is below the minimum and not above the maximum |
| `SensorMap.AlarmInNonZeroRun` | Project/datamgr.c:92-108 | For a sensor with nonzero readings: no alarm through the fifth reading, then exactly the one that the mean of its last five, written out, calls for |
| `SensorMap.AlarmSoundInRun` | Project/datamgr.c:92-108 | In any run, an alarm implies that the sensor is mapped and that this reading, or one of the last four nonzero ones of that sensor before it, is beyond the limit |
| `SensorMap.LoadMapReverses` | Project/datamgr.c:45-49 | The loaded list is the map file from back to front, except for two first lines that name the same sensor |
| `SensorMap.LoadedExactly` | Project/datamgr.c:40-49 | Every node of the loaded list has room and sensor of one line of the file, value and time 0, and five free slots |
| `SensorMap.MappedAfterLoad` | Project/datamgr.c:45-49 | An id is mapped if and only if a line of the file names it |
| `SensorMap.GettersAnswer` | Project/datamgr.c:122-168 | The getters answer about the sensor asked for if and only if it is mapped; otherwise about the first node, not with the documented error |
| `SensorMap.UnmappedSensorHasARoom` | Project/datamgr.c:128-135 | A concrete map on which an unknown sensor gets a room |
| `DataMgrs.DataMgr.constructor` | Project/datamgr.c:37-49 | Loading the file gives the list `LoadMap` of its lines |
| `DataMgrs.DataMgr.Handle` | Project/datamgr.c:56-108 | One reading changes at most the node of its sensor; an unmapped id overwrites the mailbox and nothing else |
| `DataMgrs.DataMgr.ParseReadings` | Project/datamgr.c:54-110 | After any number of turns, with any buffer calls of the other threads between them: the list is the result of exactly the readings this thread took, in order, every turn raised the alarm it should, and the mailbox holds the latest unmapped id unless it was emptied |
| `DataMgrs.AlarmAtExactly` | Project/datamgr.c:54-108 | The alarm of each turn on a loaded map, as in `AlarmInRun`, from the readings this thread took before |
| `DataMgrs.MailExactly` | Project/datamgr.c:57-67 | The mailbox after any turns: the id delivered by the latest turn that delivered an unmapped one, 0 if it was emptied since, and what it held at first if neither happened |
| `DataMgrs.DataMgr.GetRoomId` | Project/datamgr.c:122-136 | The room of the node asked, 65535 only for an empty list |
| `DataMgrs.DataMgr.GetAvg` | Project/datamgr.c:138-152 | The value of the same node as `GetRoomId`, -1 only for an empty list |
| `DataMgrs.DataMgr.GetLastModified` | Project/datamgr.c:154-168 | The timestamp of the same node, -1 only for an empty list |
| `DataMgrs.DataMgr.GetTotalSensors` | Project/datamgr.c:170-174 | The number of nodes |
| `DataMgrs.DataMgr.Free` | Project/datamgr.c:113-120 | Every node and every element of the list is freed exactly once |
| `ConnTables.Compact` | Project/connmgr.c:153-157 | For every 1 <= i <= counter the two-index loop stays in bounds and leaves the old array without slot i |
| `ConnTables.LookupFinds` | Project/connmgr.c:106-111 | The lookup for a slot's descriptor finds the mirrored list position, so it never misses |
| `ConnTables.ConnTable.FindClient` | Project/connmgr.c:106-111 | For every slot in use the lookups deliver the node and the record of that slot's client, never NULL |
| `ConnTables.ConnTable.Accept` | Project/connmgr.c:81-100 | Adds one watched slot and one client with sensor 0 that agree on a new descriptor, or nothing; array and list keep describing the same connections |
| `ConnTables.ConnTable.Drop` | Project/connmgr.c:147-160 | Slot and client disappear together, the record is freed once, all other connections stay in order |
| `ConnTables.ConnTable.Release` | Project/connmgr.c:185-186 | The listed records are freed, so that the records of all clients that were ever let in have been freed exactly once |
| `ConnMgrs.ConnMgr.ReceiveFrom` | Project/connmgr.c:113-133 | The receive part of a visit in place: the slot, the scratch record and the buffer become what `Receive` says, all other slots stay |
| `ConnMgrs.ConnMgr.Check` | Project/connmgr.c:135-162 | The decision under the mutex in place: the slot is kept or removed as `Judge` says; it is stopped by signal if and only if the signal is nonzero and its id, and only then the mailbox is cleared |
| `ConnMgrs.ConnMgr.VisitSlot` | Project/connmgr.c:104-163 | One turn of the sweep in place has the effect of `Visit` on connections, scratch record, mailbox and buffer |
| `ConnSpec.VisitReads` | Project/connmgr.c:113-133 | A visit reads if and only if the connection's time is not up at the guard and data is reported; it sends one reading if and only if the last field arrives then; what becomes of the fields, the client and the slot in each case; otherwise nothing changes |
| `ConnSpec.VisitSignals` | Project/connmgr.c:135-146 | A visit stops its connection by signal if and only if the signal is nonzero and is the id the connection is recorded with by then, whatever else is the matter; the mailbox is emptied then and keeps the signal otherwise |
| `ConnSpec.DropReasons` | Project/connmgr.c:113-139 | A visit drops a connection if and only if it hung up, was lost before or in this visit, is idle for more than the timeout counted from its last reading (this visit's included), or is recorded with the id that is signalled; all conditions written out |
| `ConnListen.SweepLoop` | Project/connmgr.c:104-163 | The sweep with in-place compaction terminates, `counter + 1 - i` falling by one per visit, and ends in the state of `SweepTo` after one visit per original slot |
| `ConnSpec.SweepFilters` | Project/connmgr.c:104-163 | The slots after the sweep are the original ones whose visit met no drop condition, as the visit left them, in their original order |
| `ConnSpec.EverySurvivorIsListed` | Project/connmgr.c:135-163 | An original slot is among the survivors if and only if its visit met no drop condition |
| `ConnSpec.OneStopPerSignal` | Project/connmgr.c:136-146 | A sweep stops at most one connection per signal that was pending or posted |
| `ConnListen.LapExactly` | Project/connmgr.c:79-104 | What makes a turn, written out: a connection is let in if and only if the listener is readable, there is room and accepting succeeds; slots are visited if and only if `poll` reported more than that |
| `ConnListen.Turn` | Project/connmgr.c:75-163 | One turn of the main loop: polled slots; a connection is let in if and only if the listener is readable, there is room and accepting succeeds, and it is the accepted one; then a complete sweep or none, depending on `poll_ret`; the new connections, mailbox and buffer are those of that lap |
| `ConnListen.Listen` | Project/connmgr.c:75-170 | Over any number of turns the connections, mailbox and buffer are those of the chain of laps, each starting from what the previous one left; the loop ends if and only if `poll` fails, or times out with no connection left |
| `ConnListen.ListenAndFree` | Project/connmgr.c:75-186 | Over any number of turns and the final `connmgr_free`: there is one record for each connection that was let in, and each is freed exactly once, when its connection is dropped or at the end |
| `ConnListen.SentInOrder` | Project/connmgr.c:75-170 | Over any number of turns the buffer grows by exactly the readings sent in the sweeps, in order |
| `Protocol.Conservation` | Project/sbuffer.c:44-75 | In every run the removed readings followed by the queue are the inserted ones in order; the rows stored are what the storage manager took; the node list is the result of what the data manager took |
| `Protocol.CheckExactly` | Project/connmgr.c:135-162 | The critical section as a step, written out: stopped if and only if the mailbox holds this client's id, else dropped if and only if hung up, lost or idle; mailbox, slots and next slot in each case |
| `Protocol.DataStepsExactly` | Project/datamgr.c:54-67 | The data manager's steps, written out: it takes the oldest reading whenever it can, keeps an id that no node has, and puts it into the mailbox |
| `Protocol.StorageStepExactly` | Project/sensor_db.c:22-25 | The storage manager's step, written out: it takes the oldest reading whenever there is one and stores it |
| `Safety.EachReadingToOneConsumer` | Project/main.c:156-158 | In every run each inserted reading is queued or went to exactly one consumer, and each consumer got a subsequence in insertion order |
| `Safety.NodeInEveryRun` | Project/datamgr.c:54-96 | In every run a sensor's node depends only on that sensor's readings taken by the data manager |
| `Safety.StoppedOnlyIfReported` | Project/connmgr.c:135-146 | In every run a connection is stopped by signal only for a nonzero id that is not mapped and of which a reading was inserted and taken by the data manager |
| `Safety.SignalsAreExact` | Project/datamgr.c:57-67 | In every run the ids posted, followed by a pending one, are exactly the unmapped ids among the readings the data manager took, in order; the mailbox holds the last one posted unless a connection was stopped since, else 0; every stop uses up the post right before it, for that client's id |
| `Safety.SignalsAreNotDuplicated` | Project/connmgr.c:141-143 | In every run no more connections are stopped by signal than readings of unmapped sensors were taken by the data manager |
| `Safety.TableIsSafe` | Project/connmgr.c:79-111 | In every reachable state descriptors of slots and clients agree, are pairwise distinct and not the listener's, and at most `maxConn` are in use |
| `Provenance.SameConnectionIs` | Project/connmgr.c:88-98 | In every run two visits are to the same accepted connection if and only if they are to the same descriptor and it was in use in every state between them |
| `Provenance.OwnIdExactly` | Project/connmgr.c:115-127 | In every run an inserted reading carries an id written by its own connection if and only if the id arrived in that visit, or the same connection delivered one before and no other connection has since |
| `Provenance.InsertedId` | Project/connmgr.c:115-127 | In every run each reading in the buffer's history was inserted by one visit and carries the id that was delivered last; that is its own connection's if and only if the condition of `OwnIdExactly` held at that visit |
| `Provenance.RecordedId` | Project/connmgr.c:125-126 | In every run a connection's nonzero id was recorded at one of its own visits, when it had none, and kept ever since; it is the id delivered last then, and its own if and only if the condition of `OwnIdExactly` held |
| `Provenance.ReceivedIdIsOwn` | Project/connmgr.c:115-127 | A visit that receives an id itself inserts its own |
| `ForeignIds.IdOfAnotherConnection` | Project/connmgr.c:115-127 | A run with two connections after which the second one is recorded with the id of the first, and a reading with that id was inserted for it |
| `ForeignIds.IdOfAnEarlierConnection` | Project/connmgr.c:115-127 | A run in which a connection that never sent an id is recorded with that of its predecessor on the same descriptor |
| `Refinement.PollRefines` | Project/connmgr.c:75-103 | Whatever the accept path of a turn does is a step of the transition system |
| `Refinement.PollEnds` | Project/connmgr.c:75-77 | When `poll` fails, or times out without a connection, and only then, the main loop does not go on, and no step is made |
| `Refinement.VisitRefines` | Project/connmgr.c:105-162 | A visit interleaved with any steps of the other threads is one sequential visit |
| `Refinement.SweepRefines` | Project/connmgr.c:104-163 | Every interleaving of a sweep with the other threads has the effect of the sequential sweep with suitable posts |
| `Refinement.SweepEnds` | Project/connmgr.c:104-163 | After one interleaved visit per slot the thread is back in `poll` with exactly the survivors |
| `Refinement.TurnRefines` | Project/connmgr.c:75-163 | A whole turn of the main loop, interleaved with the other threads in any way, has the effect of the sequential turn that starts with the mailbox as it is when `poll` returns |
| `Refinement.LoopRefines` | Project/connmgr.c:75-170 | The main loop from the start of the program, interleaved in any way, is a run of the transition system, and each turn is such a lap from what the previous one left |
| `Refinement.DataTurnRefines` | Project/datamgr.c:54-68 | A turn of the data manager is its two steps, whatever other threads do in between: the node of the reading changes, and an unmapped id is in the mailbox afterwards |
| `Polling.PollsConserve` | Project/sbuffer.c:44-75 | Whatever the other threads do between a consumer's calls: what all consumers took, followed by what is queued, is what was there and was inserted, in order |
| `Polling.PollsAlone` | Project/sbuffer.c:44-58 | Without other threads the calls take the first readings of the queue |
| `Polling.RemoveNext` | Project/sbuffer.c:44-58 | A consumer's next call on the heap, with any calls of the other threads before it: it delivers the oldest reading they left, or nothing if they left none |
| `StorageMgrs.ParseSensorData` | Project/sensor_db.c:19-26 | With any buffer calls of the other threads in between, the rows are exactly the readings this thread took, in order, each once |
| `StorageMgrs.ParseAsWritten` | Project/sensor_db.c:21-25 | The loop as written stores one row per call, namely the last reading taken, again for every call that finds the buffer empty |
| `StorageMgrs.WrittenOnceOnlyIfNeverEmpty` | Project/sensor_db.c:22-25 | As written, and whatever the other threads do, the rows are the readings taken if and only if no call finds the buffer empty |
| `Wire.Layout` | Project/sensor_node.c:95-102 | A record is two bytes of id, eight of value and eight of timestamp, in this order |
| `Wire.DecodeOfEncoded` | Project/sensor_node.c:95-102 | Any list of records decodes to itself from its concatenated encoding, whatever incomplete record follows |
| `Wire.EncodeOfDecoded` | Project/sensor_db.c:123-136 | Every byte sequence is the encoding of what it decodes to, followed by an incomplete record |
| `Wire.DecodeOfPrefix` | Project/connmgr.c:115-120 | However much of a stream of records has arrived, it decodes to exactly the records that are complete |
| `Records.SendLoop` | Project/sensor_node.c:91-106 | The field-by-field send loop puts exactly the encoding of one record per sample on the connection |
| `Records.ReceiveField` | Project/connmgr.c:115-120 | Each of the three receives takes its field if it has arrived and waits otherwise; the third completes the record |
| `Records.ReceiveRecord` | Project/connmgr.c:115-120 | From wherever they wait, the receives deliver a record if and only if the rest of it has arrived, and it is the one whose encoding came; otherwise they wait for the first field that is missing |
| `Records.Transmit` | Project/connmgr.c:115-127 | However sender and receiver interleave, field by field on both sides, the gateway receives the records that the sensor node sent, all and in order |
| `Records.RecordsBecomeReadings` | Project/connmgr.c:113-127 | Records that arrive completely at timely visits become exactly their readings in the buffer, in order, whatever other connections left in the shared variable |
| `Records.InsertFromFile` | Project/sensor_db.c:115-138 | The file loop delivers all whole records; an assertion fails if and only if two or more bytes of an incomplete record follow |
| `Records.FileLoopAccepts` | Project/sensor_db.c:123-134 | The file loop delivers given records without a failing assertion if and only if the file is their encoding with at most one stray byte |

## Left out

- Sockets and `poll` themselves (`lib/tcpsock.c`), and the closing of a socket when its record is freed.
- SQLite, `insert_sensor` beyond the row it writes, and every `find_sensor_*` query.
- The log process and its pipe: the reader takes one `read` for one message, so nothing exact holds.
- The status codes stored through `retval`, the port check, and the failure to open the listening socket.
- Weak memory and torn accesses in the buffer, which has no lock.
- Rounding of floating-point numbers, and readings that are not numbers.
- Partial reads of a field on a connection.
- Liveness: `poll` may time out without a sweep, so an idle connection need not be closed in time, and a
  pending signal may be overwritten by the next one before any connection was stopped.
- Allocation failure, and the parsing of a map line by `sscanf`.
- The endless variant of the send loop (`LOOPS` of 1) and `file_creator.c`.
- Everything under `B1/` and `B2/`: exercises without state to reason about.
- DataMgrs.DataMgr.ParseReadings: covers any finite number of turns, because the loop never ends while there is a buffer.
- StorageMgrs.ParseSensorData: covers any finite number of turns, for the same reason.
- StorageMgrs.ParseAsWritten: covers any finite number of turns, for the same reason.
- Ownership.RunAndFree: requires that the run meets its guards, which `Ledgers.CarefulIsExact` shows to be the exact condition; handing a released element in for copying, which reads released memory, is not treated as an error.
- ConnListen.SweepLoop: speaks about a sweep during which no consumer empties the buffer; `Refinement.SweepRefines` covers the interleaved sweep.
- ConnListen.Turn: speaks about a turn during which no consumer empties the buffer; `Refinement.TurnRefines` covers the interleaved turn.
- ConnListen.Listen: speaks about turns during which no other thread uses the buffer or the mailbox except to post; `Refinement.LoopRefines` covers the interleaved loop.
- The client record that line 81 of `connmgr.c` allocates before a failing accept, which nothing frees.
