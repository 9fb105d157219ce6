/** The running average of `datamgr.c` lines 69-108: a window of five slots in which zero marks a
    free slot.  The step functions follow the code; the lemmas say what they mean for a history. */
module Window {
  import opened Readings

  const RUN_AVG_LENGTH := 5

  datatype Alarm = Silent | TooHot | TooCold

  /** `sensor_node_t`.  The array `data_list` is part of the C struct and is copied with it, so it is
      a sequence here. */
  datatype SensorNode = SensorNode(roomId: SensorId, sensor: Reading, dataList: seq<real>)

  ghost predicate WellFormed(node: SensorNode) {
    |node.dataList| == RUN_AVG_LENGTH
  }

  /** The variable `size` after the loop of lines 74-81. */
  function FirstZero(w: seq<real>): (k: nat)
    ensures k <= |w|
    ensures forall i :: 0 <= i < k ==> w[i] != 0.0
    ensures k < |w| ==> w[k] == 0.0
  {
    if w == [] || w[0] == 0.0 then 0 else 1 + FirstZero(w[1..])
  }

  /** The window after one reading.  Repair: the reading is stored in the last slot after the shift
      of lines 87-90, which never writes it. */
  function Push(w: seq<real>, v: real): (w': seq<real>)
    requires |w| == RUN_AVG_LENGTH
    ensures |w'| == RUN_AVG_LENGTH
  {
    var k := FirstZero(w);
    if k < RUN_AVG_LENGTH then w[k := v] else w[1..] + [v]
  }

  function Sum(w: seq<real>): real {
    if w == [] then 0.0 else Sum(w[..|w| - 1]) + w[|w| - 1]
  }

  function Mean(w: seq<real>): real
    requires w != []
  {
    Sum(w) / (|w| as real)
  }

  /** Lines 97-108. */
  function AlarmFor(average: real, minTemp: real, maxTemp: real): Alarm {
    if average > maxTemp then TooHot else if average < minTemp then TooCold else Silent
  }

  /** What one reading does to its node (lines 70-96).  Repair: line 70 updates the timestamp that
      line 167 returns. */
  function Step(node: SensorNode, r: Reading): (node': SensorNode)
    requires WellFormed(node)
    ensures WellFormed(node')
    ensures node'.roomId == node.roomId && node'.sensor.id == node.sensor.id && node'.sensor.ts == r.ts
  {
    var w := Push(node.dataList, r.value);
    var value := if FirstZero(node.dataList) < RUN_AVG_LENGTH then node.sensor.value else Mean(w);
    SensorNode(node.roomId, Reading(node.sensor.id, value, r.ts), w)
  }

  /** The message about that reading (lines 97-108), if any. */
  function StepAlarm(node: SensorNode, r: Reading, minTemp: real, maxTemp: real): Alarm
    requires WellFormed(node)
  {
    if FirstZero(node.dataList) < RUN_AVG_LENGTH then Silent
    else AlarmFor(Step(node, r).sensor.value, minTemp, maxTemp)
  }

  function StepAll(node: SensorNode, rs: seq<Reading>): (node': SensorNode)
    requires WellFormed(node)
    ensures WellFormed(node')
    ensures node'.roomId == node.roomId && node'.sensor.id == node.sensor.id
  {
    if rs == [] then node else Step(StepAll(node, rs[..|rs| - 1]), rs[|rs| - 1])
  }

  /** A node as lines 40-48 create it. */
  function NewNode(room: SensorId, id: SensorId): (node: SensorNode)
    ensures WellFormed(node)
  {
    SensorNode(room, Reading(id, 0.0, 0), Padded([]))
  }

  // ---- Histories ----

  /** A window with the given readings, the free slots filled with zeros. */
  function Padded(p: seq<real>): (w: seq<real>)
    requires |p| <= RUN_AVG_LENGTH
    ensures |w| == RUN_AVG_LENGTH
  {
    p + seq(RUN_AVG_LENGTH - |p|, _ => 0.0)
  }

  function PushAll(h: seq<real>): (w: seq<real>)
    ensures |w| == RUN_AVG_LENGTH
  {
    if h == [] then Padded([]) else Push(PushAll(h[..|h| - 1]), h[|h| - 1])
  }

  function NonZero(h: seq<real>): (r: seq<real>)
    ensures |r| <= |h| && forall x :: x in r ==> x != 0.0
    ensures (forall i :: 0 <= i < |h| ==> h[i] != 0.0) ==> r == h
  {
    if h == [] then []
    else
      var before, v := NonZero(h[..|h| - 1]), h[|h| - 1];
      assert h == h[..|h| - 1] + [v];
      if v == 0.0 then before else before + [v]
  }

  /** The last `k` elements. */
  function Last<T>(h: seq<T>, k: nat): seq<T>
    requires k <= |h|
  {
    h[|h| - k..]
  }

  function Min(a: nat, b: nat): nat { if a < b then a else b }

  lemma FirstZeroIs(w: seq<real>, k: nat)
    requires k <= |w|
    requires forall i :: 0 <= i < k ==> w[i] != 0.0
    requires k < |w| ==> w[k] == 0.0
    ensures FirstZero(w) == k
  {
  }

  lemma PushFree(p: seq<real>, v: real)
    requires |p| < RUN_AVG_LENGTH && forall i :: 0 <= i < |p| ==> p[i] != 0.0
    ensures Push(Padded(p), v) == if v == 0.0 then Padded(p) else Padded(p + [v])
  {
    FirstZeroIs(Padded(p), |p|);
    assert Padded(p)[|p| := v] == if v == 0.0 then Padded(p) else Padded(p + [v]);
  }

  lemma PushFull(p: seq<real>, v: real)
    requires |p| == RUN_AVG_LENGTH && forall i :: 0 <= i < |p| ==> p[i] != 0.0
    ensures Push(Padded(p), v) == p[1..] + [v]
  {
    assert Padded(p) == p;
    FirstZeroIs(p, |p|);
  }

  /** One push on a window that holds the last `k` nonzero readings. */
  lemma PushPadded(h: seq<real>, k: nat, v: real)
    requires k <= |h| && k <= RUN_AVG_LENGTH && forall x :: x in h ==> x != 0.0
    ensures v == 0.0 ==> Push(Padded(Last(h, k)), v) == Padded(Last(h, Min(k, 4)))
    ensures v != 0.0 ==> Push(Padded(Last(h, k)), v) == Padded(Last(h + [v], Min(k + 1, 5)))
  {
    hide Push;
    var p := Last(h, k);
    assert forall i :: 0 <= i < k ==> p[i] == h[|h| - k + i] && p[i] in h;
    if k < RUN_AVG_LENGTH {
      PushFree(p, v);
      assert Last(h + [v], k + 1) == p + [v];
    } else {
      PushFull(p, v);
      assert Last(h, 4) == p[1..] && Last(h + [v], 5) == p[1..] + [v];
    }
  }

  /** How many of the nonzero readings the window holds. */
  function Held(h: seq<real>): (k: nat)
    ensures Min(4, |NonZero(h)|) <= k <= Min(5, |NonZero(h)|)
    ensures |NonZero(h)| == |h| ==> k == Min(5, |h|)
  {
    if h == [] then 0
    else
      var k := Held(h[..|h| - 1]);
      if h[|h| - 1] == 0.0 then Min(k, 4) else Min(k + 1, 5)
  }

  /** For every history, zeros included: the window is a run of the latest nonzero readings, at
      least four of them when there are four, followed by free slots. */
  lemma {:induction false} WindowOfHistory(h: seq<real>)
    ensures Min(4, |NonZero(h)|) <= Held(h) <= Min(5, |NonZero(h)|)
    ensures PushAll(h) == Padded(Last(NonZero(h), Held(h)))
  {
    if h != [] {
      WindowOfHistory(h[..|h| - 1]);
      PushPadded(NonZero(h[..|h| - 1]), Held(h[..|h| - 1]), h[|h| - 1]);
    }
  }

  ghost predicate AllNonZero(h: seq<real>) {
    forall i :: 0 <= i < |h| ==> h[i] != 0.0
  }

  /** Without zero readings the window is exactly the last five readings, or all of them. */
  lemma WindowOfNonZero(h: seq<real>)
    requires AllNonZero(h)
    ensures PushAll(h) == Padded(Last(h, Min(|h|, 5)))
    ensures |h| >= 5 ==> PushAll(h) == Last(h, 5)
  {
    WindowOfHistory(h);
  }

  lemma ValuesSnoc(rs: seq<Reading>)
    requires rs != []
    ensures Values(rs) == Values(rs[..|rs| - 1]) + [rs[|rs| - 1].value]
    ensures Values(rs)[..|rs| - 1] == Values(rs[..|rs| - 1])
  {
  }

  /** The node's window is the window of its history, whatever the readings are. */
  lemma {:induction false} NodeWindow(room: SensorId, id: SensorId, rs: seq<Reading>)
    ensures StepAll(NewNode(room, id), rs).dataList == PushAll(Values(rs))
    ensures StepAll(NewNode(room, id), rs).sensor.ts == if rs == [] then 0 else rs[|rs| - 1].ts
  {
    if rs != [] {
      NodeWindow(room, id, rs[..|rs| - 1]);
      ValuesSnoc(rs);
    }
  }

  // ---- The reported value ----

  /** The next push meets a full window exactly after five or more nonzero readings of which one is
      the latest: a zero frees a slot. */
  predicate Full(h: seq<real>) {
    h != [] && h[|h| - 1] != 0.0 && |NonZero(h)| >= RUN_AVG_LENGTH
  }

  lemma UsedSlots(h: seq<real>)
    ensures FirstZero(PushAll(h)) == Held(h)
    ensures Held(h) == RUN_AVG_LENGTH <==> Full(h)
  {
    WindowOfHistory(h);
    FirstZeroIs(PushAll(h), Held(h));
  }

  /** The last four nonzero readings and a new one. */
  function Recent(h: seq<real>, v: real): (w: seq<real>)
    ensures w != []
  {
    Last(NonZero(h), Min(4, |NonZero(h)|)) + [v]
  }

  lemma FullPush(h: seq<real>, v: real)
    requires Full(h)
    ensures Push(PushAll(h), v) == Recent(h, v)
  {
    UsedSlots(h);
    WindowOfHistory(h);
    var p := Last(NonZero(h), 5);
    assert forall i :: 0 <= i < 5 ==> p[i] == NonZero(h)[|NonZero(h)| - 5 + i] && p[i] in NonZero(h);
    PushFull(p, v);
    assert p[1..] == Last(NonZero(h), 4);
  }

  /** The number of readings up to and including the latest one that met a full window. */
  function LatestFull(h: seq<real>): (n: nat)
    ensures n <= |h|
    ensures n > 0 ==> Full(h[..n - 1])
    ensures forall m :: n <= m < |h| ==> !Full(h[..m])
  {
    hide Full;
    if h == [] then 0
    else
      var before := h[..|h| - 1];
      assert forall m :: 0 <= m < |h| ==> before[..m] == h[..m];
      if Full(before) then |h| else LatestFull(before)
  }

  /** For every history: the value that `datamgr_get_avg` returns is 0 until a reading meets a full
      window, and then the mean of the window after the latest such reading. */
  lemma {:induction false} ReportedAverage(room: SensorId, id: SensorId, rs: seq<Reading>)
    ensures var h, n := Values(rs), LatestFull(Values(rs));
      StepAll(NewNode(room, id), rs).sensor.value == if n == 0 then 0.0 else Mean(PushAll(h[..n]))
  {
    if rs != [] {
      var before, h := rs[..|rs| - 1], Values(rs);
      ValuesSnoc(rs);
      ReportedAverage(room, id, before);
      NodeWindow(room, id, before);
      UsedSlots(Values(before));
      assert h[..|h|] == h;
      assert forall m :: 0 <= m < |h| ==> Values(before)[..m] == h[..m];
    }
  }

  /** The window whose mean is reported, read off the history: nothing before the sixth nonzero
      reading; the latest reading counts unless the one before it was zero. */
  function ReportedWindow(h: seq<real>): seq<real> {
    if h == [] || |NonZero(h[..|h| - 1])| < RUN_AVG_LENGTH then []
    else Recent(h[..|h| - 1], if h[|h| - 2] == 0.0 then 0.0 else h[|h| - 1])
  }

  lemma PushAllSnoc(h: seq<real>)
    requires h != []
    ensures PushAll(h) == Push(PushAll(h[..|h| - 1]), h[|h| - 1])
  {
  }

  lemma ReportedWindowFull(h: seq<real>)
    requires h != [] && Full(h[..|h| - 1])
    ensures ReportedWindow(h) == Recent(h[..|h| - 1], h[|h| - 1])
  {
    hide NonZero, Recent;
  }

  lemma ReportedNow(h: seq<real>)
    requires h != [] && Full(h[..|h| - 1])
    ensures PushAll(h) == ReportedWindow(h) != []
  {
    hide *;
    FullPush(h[..|h| - 1], h[|h| - 1]);
    PushAllSnoc(h);
    ReportedWindowFull(h);
  }

  lemma {:induction false} NoAverageYet(h: seq<real>)
    requires |NonZero(h)| < RUN_AVG_LENGTH
    ensures LatestFull(h) == 0
  {
    if h != [] {
      NoAverageYet(h[..|h| - 1]);
    }
  }

  /** After a zero the reported window is still that of the zero. */
  lemma AfterZero(h: seq<real>)
    requires |h| >= 2 && h[|h| - 2] == 0.0 && |NonZero(h[..|h| - 1])| >= RUN_AVG_LENGTH
    ensures ReportedWindow(h) == ReportedWindow(h[..|h| - 1])
  {
    hide NonZero, Recent;
    var before := h[..|h| - 1];
    assert before[|before| - 1] == 0.0;
    NonZeroOfZero(before, 0.0);
  }

  lemma NonZeroOfZero(h: seq<real>, v: real)
    requires h != [] && h[|h| - 1] == 0.0
    ensures NonZero(h) == NonZero(h[..|h| - 1]) && Recent(h, v) == Recent(h[..|h| - 1], v)
  {
  }

  lemma {:induction false} ReportedWindowIs(h: seq<real>)
    ensures LatestFull(h) == 0 <==> ReportedWindow(h) == []
    ensures LatestFull(h) > 0 ==> PushAll(h[..LatestFull(h)]) == ReportedWindow(h)
  {
    hide NonZero, PushAll, Push, Recent;
    if h != [] {
      var before, n := h[..|h| - 1], LatestFull(h);
      if Full(before) {
        assert h[..|h|] == h;
        ReportedNow(h);
      } else if |NonZero(before)| < RUN_AVG_LENGTH {
        NoAverageYet(before);
      } else {
        ReportedWindowIs(before);
        AfterZero(h);
        assert before[..n] == h[..n];
      }
    }
  }

  // ---- The documented value ----

  /** What the header promises: the average once five readings are recorded (datamgr.h line 74). */
  function DocumentedAverage(h: seq<real>): real {
    if |h| < RUN_AVG_LENGTH then 0.0 else Mean(Last(h, RUN_AVG_LENGTH))
  }

  /** The readings older than the last four that zeros among the last four keep in the window. */
  function Stale(h: seq<real>): seq<real>
    requires |NonZero(h)| >= 4
  {
    Last(NonZero(h), 4)[..4 - |NonZero(Last(h, 4))|]
  }

  /** When the header's promise is kept: not enough readings for an average; or less than five of the
      readings before the latest are nonzero and the documented average is 0, too; or the stale
      readings make up for the latest one, which is missed exactly if the one before it is zero. */
  predicate PromiseKept(h: seq<real>) {
    |h| < RUN_AVG_LENGTH ||
    var before := h[..|h| - 1];
    if |NonZero(before)| < RUN_AVG_LENGTH then Sum(Last(h, RUN_AVG_LENGTH)) == 0.0
    else Sum(Stale(before)) == if h[|h| - 2] == 0.0 then h[|h| - 1] else 0.0
  }

  lemma {:induction false} SumConcat(a: seq<real>, b: seq<real>)
    ensures Sum(a + b) == Sum(a) + Sum(b)
  {
    if b == [] {
      assert a + b == a;
    } else {
      SumConcat(a, b[..|b| - 1]);
      assert (a + b)[..|a + b| - 1] == a + b[..|b| - 1];
    }
  }

  lemma {:induction false} NonZeroConcat(a: seq<real>, b: seq<real>)
    ensures NonZero(a + b) == NonZero(a) + NonZero(b)
  {
    if b == [] {
      assert a + b == a;
    } else {
      NonZeroConcat(a, b[..|b| - 1]);
      assert (a + b)[..|a + b| - 1] == a + b[..|b| - 1];
    }
  }

  lemma {:induction false} SumOfNonZero(h: seq<real>)
    ensures Sum(NonZero(h)) == Sum(h)
  {
    if h != [] {
      SumOfNonZero(h[..|h| - 1]);
      SumConcat(NonZero(h[..|h| - 1]), [h[|h| - 1]]);
      SumOne(h[|h| - 1]);
    }
  }

  /** The window after a push on a full one is made of stale readings, the nonzero ones among the last
      four, and the new one. */
  lemma StaleAndFresh(h: seq<real>)
    requires |NonZero(h)| >= 4
    ensures Last(NonZero(h), 4) == Stale(h) + NonZero(Last(h, 4))
  {
    hide NonZero;
    var a, b := h[..|h| - 4], Last(h, 4);
    NonZeroConcat(a, b);
    assert h == a + b;
    EndsWith(NonZero(a), NonZero(b), 4);
  }

  lemma EndsWith<T>(a: seq<T>, b: seq<T>, k: nat)
    requires |b| <= k <= |a + b|
    ensures Last(a + b, k) == Last(a + b, k)[..k - |b|] + b
  {
  }

  lemma SumOfRecent(h: seq<real>, v: real)
    requires |NonZero(h)| >= 4
    ensures Sum(Recent(h, v)) == Sum(Stale(h)) + Sum(Last(h, 4)) + v
  {
    SumConcat(Last(NonZero(h), 4), [v]);
    SumOne(v);
    StaleAndFresh(h);
    SumConcat(Stale(h), NonZero(Last(h, 4)));
    SumOfNonZero(Last(h, 4));
  }

  lemma SumOne(v: real)
    ensures Sum([v]) == v
  {
  }

  lemma MeanEqual(w: seq<real>, w': seq<real>)
    requires w != [] && |w| == |w'|
    ensures Mean(w) == Mean(w') <==> Sum(w) == Sum(w')
    ensures Mean(w) == 0.0 <==> Sum(w) == 0.0
  {
    var n, s, s' := |w| as real, Sum(w), Sum(w');
    assert s / n * n == s && s' / n * n == s';
  }

  lemma PromiseInSums(h: seq<real>)
    ensures var w := ReportedWindow(h);
      (if w == [] then 0.0 else Mean(w)) == DocumentedAverage(h) <==> PromiseKept(h)
  {
    hide NonZero, Sum, Stale;
    if |h| >= 5 {
      var before, five := h[..|h| - 1], Last(h, 5);
      MeanEqual(five, five);
      if |NonZero(before)| >= 5 {
        var v := if h[|h| - 2] == 0.0 then 0.0 else h[|h| - 1];
        SumOfRecent(before, v);
        MeanEqual(Recent(before, v), five);
        SumSnoc(five);
        assert five[..4] == Last(before, 4);
      }
    }
  }

  lemma SumSnoc(w: seq<real>)
    requires w != []
    ensures Sum(w) == Sum(w[..|w| - 1]) + w[|w| - 1]
  {
  }

  /** For every history the getter's value is the one the header promises if and only if the promise
      is kept as above. */
  lemma DocumentedAverageHolds(room: SensorId, id: SensorId, rs: seq<Reading>)
    ensures StepAll(NewNode(room, id), rs).sensor.value == DocumentedAverage(Values(rs)) <==> PromiseKept(Values(rs))
  {
    hide StepAll, LatestFull, PushAll;
    ReportedAverage(room, id, rs);
    ReportedWindowIs(Values(rs));
    PromiseInSums(Values(rs));
  }

  /** Behind five nonzero readings, four nonzero ones in a row are enough. */
  lemma KeptAfterFourNonZero(h: seq<real>)
    requires |h| >= 6 && |NonZero(h[..|h| - 1])| >= 5 && AllNonZero(h[|h| - 5..|h| - 1])
    ensures PromiseKept(h)
  {
    var before := h[..|h| - 1];
    assert Last(before, 4) == h[|h| - 5..|h| - 1];
    assert before[|before| - 1] == Last(before, 4)[3];
  }

  /** Without zeros the promise is broken at the fifth reading only, unless the mean happens to be 0. */
  lemma KeptWithoutZeros(h: seq<real>)
    requires AllNonZero(h)
    ensures PromiseKept(h) <==> |h| != 5 || Sum(h) == 0.0
  {
    if |h| >= 5 {
      assert AllNonZero(h[..|h| - 1]) && NonZero(h[..|h| - 1]) == h[..|h| - 1];
      if |h| == 5 {
        assert Last(h, 5) == h;
      } else {
        KeptAfterFourNonZero(h);
      }
    }
  }

  lemma NonZeroExample()
    ensures NonZero([10.0, 20.0, 30.0, 40.0, 50.0, 0.0]) == [10.0, 20.0, 30.0, 40.0, 50.0]
  {
    var five := [10.0, 20.0, 30.0, 40.0, 50.0];
    NonZeroConcat(five, [0.0]);
    assert five + [0.0] == [10.0, 20.0, 30.0, 40.0, 50.0, 0.0];
    assert NonZero(five) == five && NonZero([0.0]) == [];
  }

  lemma WindowExample(h: seq<real>)
    requires h == [10.0, 20.0, 30.0, 40.0, 50.0, 0.0, 70.0]
    ensures ReportedWindow(h) == [20.0, 30.0, 40.0, 50.0, 0.0]
  {
    hide NonZero;
    NonZeroExample();
    assert h[..6] == [10.0, 20.0, 30.0, 40.0, 50.0, 0.0];
  }

  lemma SumOfFive(w: seq<real>)
    requires |w| == 5
    ensures Sum(w) == w[0] + w[1] + w[2] + w[3] + w[4]
  {
    assert w[..4][..3] == w[..3] && w[..3][..2] == w[..2] && w[..2][..1] == w[..1] && w[..1][..0] == [];
    assert Sum(w[..4]) == Sum(w[..3]) + w[3] && Sum(w[..3]) == Sum(w[..2]) + w[2];
    assert Sum(w[..2]) == Sum(w[..1]) + w[1] && Sum(w[..1]) == w[0];
  }

  /** A zero among the readings breaks the promise, too: the reading behind it is not averaged, and the
      one that should have left the window still is. */
  lemma ZeroBreaksThePromise(room: SensorId, id: SensorId, rs: seq<Reading>)
    requires Values(rs) == [10.0, 20.0, 30.0, 40.0, 50.0, 0.0, 70.0]
    ensures StepAll(NewNode(room, id), rs).sensor.value == 28.0 && DocumentedAverage(Values(rs)) == 38.0
  {
    hide NonZero, PushAll, StepAll, LatestFull, ReportedWindow, Values, Sum;
    var h := Values(rs);
    ReportedAverage(room, id, rs);
    ReportedWindowIs(h);
    WindowExample(h);
    SumOfFive([20.0, 30.0, 40.0, 50.0, 0.0]);
    SumOfFive([30.0, 40.0, 50.0, 0.0, 70.0]);
    assert Last(h, 5) == [30.0, 40.0, 50.0, 0.0, 70.0];
  }

  // ---- Alarms ----

  lemma {:induction false} SumBounds(w: seq<real>, lo: real, hi: real)
    requires forall i :: 0 <= i < |w| ==> lo <= w[i] <= hi
    ensures lo * (|w| as real) <= Sum(w) <= hi * (|w| as real)
  {
    if w != [] {
      SumBounds(w[..|w| - 1], lo, hi);
      assert |w| as real == (|w| - 1) as real + 1.0;
    }
  }

  lemma MeanBounds(w: seq<real>, lo: real, hi: real)
    requires w != []
    requires forall i :: 0 <= i < |w| ==> lo <= w[i] <= hi
    ensures lo <= Mean(w) <= hi
  {
    SumBounds(w, lo, hi);
  }

  lemma {:induction false} Bounds(w: seq<real>) returns (lo: nat, hi: nat)
    requires w != []
    ensures lo < |w| && hi < |w|
    ensures forall i :: 0 <= i < |w| ==> w[lo] <= w[i] <= w[hi]
  {
    if |w| == 1 {
      lo, hi := 0, 0;
    } else {
      lo, hi := Bounds(w[..|w| - 1]);
      lo := if w[|w| - 1] < w[lo] then |w| - 1 else lo;
      hi := if w[|w| - 1] > w[hi] then |w| - 1 else hi;
    }
  }

  lemma MeanBeyondLimit(w: seq<real>, minTemp: real, maxTemp: real)
    requires w != []
    ensures Mean(w) > maxTemp ==> exists x :: x in w && x > maxTemp
    ensures Mean(w) < minTemp ==> exists x :: x in w && x < minTemp
  {
    var lo, hi := Bounds(w);
    MeanBounds(w, w[lo], w[hi]);
    assert w[lo] in w && w[hi] in w;
  }

  /** Whatever a node went through: no alarm about a reading is raised without a value beyond the limit
      in the window that contains this reading. */
  lemma AlarmSound(node: SensorNode, r: Reading, minTemp: real, maxTemp: real)
    requires WellFormed(node)
    ensures var w, alarm := Step(node, r).dataList, StepAlarm(node, r, minTemp, maxTemp);
      && (alarm == TooHot ==> exists x :: x in w && x > maxTemp)
      && (alarm == TooCold ==> exists x :: x in w && x < minTemp)
      && (alarm != Silent ==> r.value in w)
  {
    MeanBeyondLimit(Step(node, r).dataList, minTemp, maxTemp);
    var k := FirstZero(node.dataList);
    assert Push(node.dataList, r.value)[if k < 5 then k else 4] == r.value;
  }

  lemma MeanOfFive(w: seq<real>)
    requires |w| == 5
    ensures Mean(w) == (w[0] + w[1] + w[2] + w[3] + w[4]) / 5.0
  {
    SumOfFive(w);
  }

  /** What a reading does to any node: while a slot is free it is stored in the first free one and nothing
      else happens; otherwise the oldest value leaves, and the mean of the last four values and the
      reading is reported. */
  lemma StepExactly(node: SensorNode, r: Reading)
    requires WellFormed(node)
    ensures var w, node' := node.dataList, Step(node, r);
      && node'.roomId == node.roomId && node'.sensor.id == node.sensor.id && node'.sensor.ts == r.ts
      && (forall k :: 0 <= k < 5 && w[k] == 0.0 && 0.0 !in w[..k] ==>
            node'.dataList == w[k := r.value] && node'.sensor.value == node.sensor.value)
      && (0.0 !in w ==>
            node'.dataList == [w[1], w[2], w[3], w[4], r.value] &&
            node'.sensor.value == (w[1] + w[2] + w[3] + w[4] + r.value) / 5.0)
  {
    var w := node.dataList;
    forall k | 0 <= k < 5 && w[k] == 0.0 && 0.0 !in w[..k]
      ensures FirstZero(w) == k
    {
      assert forall i :: 0 <= i < k ==> w[..k][i] == w[i];
      FirstZeroIs(w, k);
    }
    if 0.0 !in w {
      FirstZeroIs(w, 5);
      MeanOfFive(Push(w, r.value));
    }
  }

  /** The alarm about a reading, for any node: only a node without a free slot raises one, "too hot" exactly
      if the new mean is above the maximum, and "too cold" exactly if it is below the minimum and not
      above the maximum. */
  lemma AlarmExactly(node: SensorNode, r: Reading, minTemp: real, maxTemp: real)
    requires WellFormed(node)
    ensures var w, alarm := node.dataList, StepAlarm(node, r, minTemp, maxTemp);
      var mean := (w[1] + w[2] + w[3] + w[4] + r.value) / 5.0;
      && (alarm == TooHot <==> 0.0 !in w && mean > maxTemp)
      && (alarm == TooCold <==> 0.0 !in w && mean <= maxTemp && mean < minTemp)
  {
    StepExactly(node, r);
    if 0.0 !in node.dataList {
      FirstZeroIs(node.dataList, 5);
    } else {
      assert FirstZero(node.dataList) < 5;
    }
  }

  /** The alarm about a node's next reading after any history: none unless the reading meets a full window,
      and then exactly the one that the mean of the last four nonzero readings and this one calls for. */
  lemma AlarmOfHistory(room: SensorId, id: SensorId, before: seq<Reading>, r: Reading, minTemp: real, maxTemp: real)
    ensures var node, h := StepAll(NewNode(room, id), before), Values(before);
      var alarm, mean := StepAlarm(node, r, minTemp, maxTemp), Mean(Recent(h, r.value));
      && (alarm == TooHot <==> Full(h) && mean > maxTemp)
      && (alarm == TooCold <==> Full(h) && mean <= maxTemp && mean < minTemp)
      && (Full(h) ==> Step(node, r).dataList == Recent(h, r.value))
  {
    NodeWindow(room, id, before);
    UsedSlots(Values(before));
    if Full(Values(before)) {
      FullPush(Values(before), r.value);
    }
  }

  /** For nonzero readings: silent through the fifth, then about the last five. */
  lemma RecentWithoutZeros(h: seq<real>, v: real)
    requires AllNonZero(h + [v])
    ensures Full(h) <==> |h + [v]| > 5
    ensures Full(h) ==> Recent(h, v) == Last(h + [v], 5)
  {
    assert forall i :: 0 <= i < |h| ==> h[i] == (h + [v])[i];
  }

  // ---- The window without the repair ----

  /** Lines 74-90 to the letter: after the shift the last slot keeps its old content. */
  function PushAsWritten(w: seq<real>, v: real): (w': seq<real>)
    requires |w| == RUN_AVG_LENGTH
    ensures |w'| == RUN_AVG_LENGTH
  {
    var k := FirstZero(w);
    if k < RUN_AVG_LENGTH then w[k := v] else w[1..] + [w[RUN_AVG_LENGTH - 1]]
  }

  function PushAllAsWritten(h: seq<real>): (w: seq<real>)
    ensures |w| == RUN_AVG_LENGTH
  {
    if h == [] then Padded([]) else PushAsWritten(PushAllAsWritten(h[..|h| - 1]), h[|h| - 1])
  }

  /** The window as written: the readings, or what is left of the first five. */
  function FirstReadings(h: seq<real>): (w: seq<real>)
    ensures |w| == RUN_AVG_LENGTH
  {
    if |h| < 5 then Padded(h) else seq(5, i requires 0 <= i < 5 => h[Min(|h| - 5 + i, 4)])
  }

  lemma ReadingAt(h: seq<real>, i: nat)
    requires i < 5
    ensures FirstReadings(h)[i] == if |h| >= 5 then h[Min(|h| - 5 + i, 4)] else if i < |h| then h[i] else 0.0
  {
  }

  lemma UsedReadings(h: seq<real>)
    requires AllNonZero(h)
    ensures FirstZero(FirstReadings(h)) == Min(|h|, 5)
  {
    hide FirstZero;
    var w := FirstReadings(h);
    forall i | 0 <= i < Min(|h|, 5)
      ensures w[i] != 0.0
    {
      ReadingAt(h, i);
    }
    FirstZeroIs(w, Min(|h|, 5));
  }

  lemma PushFirstReadings(h: seq<real>)
    requires h != [] && AllNonZero(h)
    ensures PushAsWritten(FirstReadings(h[..|h| - 1]), h[|h| - 1]) == FirstReadings(h)
  {
    hide FirstZero, FirstReadings;
    var before, v := h[..|h| - 1], h[|h| - 1];
    var w, k := FirstReadings(before), Min(|before|, 5);
    assert AllNonZero(before) by {
      assert forall i :: 0 <= i < |before| ==> before[i] == h[i];
    }
    UsedReadings(before);
    forall i | 0 <= i < 5
      ensures PushAsWritten(w, v)[i] == FirstReadings(h)[i]
    {
      ReadingAt(h, i);
      ReadingAt(before, i);
      ReadingAt(before, if i < 4 then i + 1 else 4);
    }
  }

  /** As written, no reading after the fifth ever enters the window, and the older ones of the first five
      are pushed out by the fifth. */
  lemma {:induction false} AsWrittenIgnoresLaterReadings(h: seq<real>)
    requires AllNonZero(h)
    ensures |h| < 5 ==> PushAllAsWritten(h) == Padded(h)
    ensures |h| >= 5 ==> forall i :: 0 <= i < 5 ==> PushAllAsWritten(h)[i] == h[Min(|h| - 5 + i, 4)]
    ensures PushAllAsWritten(h) == FirstReadings(h)
  {
    if h != [] {
      hide PushAsWritten;
      AsWrittenIgnoresLaterReadings(h[..|h| - 1]);
      PushFirstReadings(h);
    }
  }
}
