/** The weighted build-time sweep: elapsed time shared equally among the tasks running at each moment. */
module NinjaSweep {
  import opened Ranking

  datatype Task = Task(start: real, end: real)

  datatype Event = Event(time: real, stop: bool, task: nat)

  ghost predicate ValidTasks(tasks: seq<Task>) {
    tasks != [] && forall i :: 0 <= i < |tasks| ==> 0.0 <= tasks[i].start <= tasks[i].end
  }

  function StartOf(tasks: seq<Task>, i: nat): Event
    requires i < |tasks|
  {
    Event(tasks[i].start, false, i)
  }

  function StopOf(tasks: seq<Task>, i: nat): Event
    requires i < |tasks|
  {
    Event(tasks[i].end, true, i)
  }

  // ----- the sorted event list

  /** The sort key: time first, then 'start' before 'stop'. */
  predicate Le(a: Event, b: Event) {
    a.time < b.time || (a.time == b.time && (a.stop ==> b.stop))
  }

  function EventsOf(tasks: seq<Task>, n: nat): (evs: seq<Event>)
    requires n <= |tasks|
  {
    if n == 0 then [] else EventsOf(tasks, n - 1) + [StartOf(tasks, n - 1), StopOf(tasks, n - 1)]
  }

  /** A stable insertion: after every event that is not larger. */
  function Insert(evs: seq<Event>, e: Event): seq<Event> {
    if evs == [] || Le(evs[|evs| - 1], e) then evs + [e]
    else Insert(evs[..|evs| - 1], e) + [evs[|evs| - 1]]
  }

  function Sort(evs: seq<Event>): seq<Event> {
    if evs == [] then [] else Insert(Sort(evs[..|evs| - 1]), evs[|evs| - 1])
  }

  ghost predicate Sorted(evs: seq<Event>) {
    forall i, j :: 0 <= i < j < |evs| ==> Le(evs[i], evs[j])
  }

  /** A sorted list holding the start and the stop of every task, each once. */
  ghost predicate Schedule(evs: seq<Event>, tasks: seq<Task>) {
    && Sorted(evs)
    && (forall i, j :: 0 <= i < j < |evs| ==> evs[i] != evs[j])
    && (forall k :: 0 <= k < |evs| ==> Proper(evs[k], tasks))
    && (forall i :: 0 <= i < |tasks| ==> StartOf(tasks, i) in evs && StopOf(tasks, i) in evs)
  }

  ghost predicate Proper(e: Event, tasks: seq<Task>) {
    e.task < |tasks| && (e == StartOf(tasks, e.task) || e == StopOf(tasks, e.task))
  }

  lemma {:induction false} InsertKeeps(evs: seq<Event>, e: Event)
    requires Sorted(evs) && e !in evs && forall i, j :: 0 <= i < j < |evs| ==> evs[i] != evs[j]
    ensures var r := Insert(evs, e);
            && |r| == |evs| + 1
            && Sorted(r)
            && (forall x :: x in r <==> x in evs || x == e)
            && (forall i, j :: 0 <= i < j < |r| ==> r[i] != r[j])
  {
    if evs != [] && !Le(evs[|evs| - 1], e) {
      var front, last := evs[..|evs| - 1], evs[|evs| - 1];
      assert evs == front + [last];
      InsertKeeps(front, e);
      var r := Insert(front, e);
      forall i | 0 <= i < |r| ensures Le(r[i], last) && r[i] != last {
        assert r[i] in r;
      }
    }
  }

  lemma {:induction false} SortKeeps(evs: seq<Event>)
    requires forall i, j :: 0 <= i < j < |evs| ==> evs[i] != evs[j]
    ensures var r := Sort(evs);
            && |r| == |evs|
            && Sorted(r)
            && (forall x :: x in r <==> x in evs)
            && (forall i, j :: 0 <= i < j < |r| ==> r[i] != r[j])
  {
    if evs != [] {
      var front := evs[..|evs| - 1];
      assert evs == front + [evs[|evs| - 1]];
      SortKeeps(front);
      InsertKeeps(Sort(front), evs[|evs| - 1]);
    }
  }

  /** Task i's start is event 2i and its stop event 2i + 1. */
  lemma {:induction false} EventAt(tasks: seq<Task>, n: nat, k: nat)
    requires k < 2 * n <= 2 * |tasks|
    ensures |EventsOf(tasks, n)| == 2 * n
    ensures EventsOf(tasks, n)[k] == if k % 2 == 0 then StartOf(tasks, k / 2) else StopOf(tasks, k / 2)
  {
    if n > 1 {
      EventAt(tasks, n - 1, if k < 2 * n - 2 then k else 0);
    }
  }

  lemma {:induction false} EventsInPairs(tasks: seq<Task>)
    requires tasks != []
    ensures var evs := EventsOf(tasks, |tasks|);
            && |evs| == 2 * |tasks|
            && (forall k :: 0 <= k < |evs| ==> Proper(evs[k], tasks))
            && (forall i, j :: 0 <= i < j < |evs| ==> evs[i] != evs[j])
            && (forall i :: 0 <= i < |tasks| ==> StartOf(tasks, i) in evs && StopOf(tasks, i) in evs)
  {
    hide EventsOf;
    var evs := EventsOf(tasks, |tasks|);
    EventAt(tasks, |tasks|, 0);
    forall k | 0 <= k < |evs| ensures Proper(evs[k], tasks) {
      EventAt(tasks, |tasks|, k);
    }
    forall i, j | 0 <= i < j < |evs| ensures evs[i] != evs[j] {
      EventAt(tasks, |tasks|, i);
      EventAt(tasks, |tasks|, j);
    }
    forall i | 0 <= i < |tasks| ensures StartOf(tasks, i) in evs && StopOf(tasks, i) in evs {
      EventAt(tasks, |tasks|, 2 * i);
      EventAt(tasks, |tasks|, 2 * i + 1);
      assert evs[2 * i] == StartOf(tasks, i) && evs[2 * i + 1] == StopOf(tasks, i);
    }
  }

  /** Sorting the events of any nonempty task list gives a schedule. */
  lemma {:induction false} SortGivesSchedule(tasks: seq<Task>)
    requires tasks != []
    ensures Schedule(Sort(EventsOf(tasks, |tasks|)), tasks)
    ensures |Sort(EventsOf(tasks, |tasks|))| == 2 * |tasks|
  {
    var evs := EventsOf(tasks, |tasks|);
    EventsInPairs(tasks);
    SortKeeps(evs);
    var r := Sort(evs);
    forall k | 0 <= k < |r| ensures Proper(r[k], tasks) {
      assert r[k] in evs;
    }
  }

  /** Events with one time and kind stand in the order of their tasks. */
  ghost predicate Stable(evs: seq<Event>) {
    forall i, j :: 0 <= i < j < |evs| ==> InTaskOrder(evs[i], evs[j])
  }

  predicate InTaskOrder(a: Event, b: Event) {
    a.time == b.time && a.stop == b.stop ==> a.task < b.task
  }

  lemma {:induction false} InsertIsStable(evs: seq<Event>, e: Event)
    requires Stable(evs) && forall i :: 0 <= i < |evs| ==> InTaskOrder(evs[i], e)
    ensures Stable(Insert(evs, e)) && forall x :: x in Insert(evs, e) ==> x in evs || x == e
  {
    hide InTaskOrder;
    if evs != [] && !Le(evs[|evs| - 1], e) {
      var (front, last) := (evs[..|evs| - 1], evs[|evs| - 1]);
      InsertIsStable(front, e);
      Later(e, last);
      var r := Insert(front, e);
      forall i | 0 <= i < |r| ensures InTaskOrder(r[i], last) {
        assert r[i] in r;
      }
    }
  }

  lemma {:induction false} Later(e: Event, last: Event)
    requires !Le(last, e)
    ensures InTaskOrder(e, last)
  {
  }

  /** The sort is stable. */
  lemma {:induction false} SortIsStable(evs: seq<Event>)
    requires Stable(evs)
    ensures Stable(Sort(evs)) && forall x :: x in Sort(evs) ==> x in evs
  {
    hide InTaskOrder, Insert;
    if evs != [] {
      var (front, last) := (evs[..|evs| - 1], evs[|evs| - 1]);
      SortIsStable(front);
      forall i | 0 <= i < |Sort(front)| ensures InTaskOrder(Sort(front)[i], last) {
        assert Sort(front)[i] in front;
      }
      InsertIsStable(Sort(front), last);
    }
  }

  /** Simultaneous events of one kind are swept in the order of the entries. */
  lemma {:induction false} SweepOrderIsStable(tasks: seq<Task>)
    requires tasks != []
    ensures Stable(Sort(EventsOf(tasks, |tasks|)))
  {
    hide EventsOf, Sort;
    var evs := EventsOf(tasks, |tasks|);
    EventAt(tasks, |tasks|, 0);
    forall i, j | 0 <= i < j < |evs| ensures InTaskOrder(evs[i], evs[j]) {
      EventAt(tasks, |tasks|, i);
      EventAt(tasks, |tasks|, j);
    }
    SortIsStable(evs);
  }

  // ----- what the sweep tracks

  /** The tasks in the running map after the first k events. */
  function Running(evs: seq<Event>, k: nat): set<nat>
    requires k <= |evs|
  {
    if k == 0 then {}
    else if evs[k - 1].stop then Running(evs, k - 1) - {evs[k - 1].task}
    else Running(evs, k - 1) + {evs[k - 1].task}
  }

  ghost predicate Seen(evs: seq<Event>, k: nat, e: Event)
    requires k <= |evs|
  {
    e in evs[..k]
  }

  lemma {:induction false} SeenStep(evs: seq<Event>, k: nat, e: Event)
    requires k <= |evs|
    ensures Seen(evs, k, e) <==> k > 0 && (Seen(evs, k - 1, e) || e == evs[k - 1])
  {
    assert k > 0 ==> evs[..k] == evs[..k - 1] + [evs[k - 1]];
  }

  lemma {:induction false} ProperEvent(evs: seq<Event>, tasks: seq<Task>, k: nat)
    requires Schedule(evs, tasks) && k < |evs|
    ensures evs[k].task < |tasks|
    ensures evs[k] == if evs[k].stop then StopOf(tasks, evs[k].task) else StartOf(tasks, evs[k].task)
  {
    assert Proper(evs[k], tasks);
  }

  /** When a task starts, its stop has not been seen. */
  lemma {:induction false} StopNotSeen(evs: seq<Event>, tasks: seq<Task>, k: nat)
    requires ValidTasks(tasks) && Schedule(evs, tasks) && k < |evs| && !evs[k].stop
    ensures evs[k].task < |tasks| && !Seen(evs, k + 1, StopOf(tasks, evs[k].task))
  {
    ProperEvent(evs, tasks, k);
    var p, r := StartsFirst(evs, tasks, evs[k].task);
    assert p == k;
  }

  /** A task is running once its start, and not yet its stop, has been seen. */
  lemma {:induction false} RunningMeans(evs: seq<Event>, tasks: seq<Task>, k: nat, i: nat)
    requires ValidTasks(tasks) && Schedule(evs, tasks) && k <= |evs| && i < |tasks|
    ensures i in Running(evs, k) <==> Seen(evs, k, StartOf(tasks, i)) && !Seen(evs, k, StopOf(tasks, i))
  {
    hide Schedule, ValidTasks, Seen;
    SeenStep(evs, k, StartOf(tasks, i));
    SeenStep(evs, k, StopOf(tasks, i));
    if k > 0 {
      RunningMeans(evs, tasks, k - 1, i);
      ProperEvent(evs, tasks, k - 1);
      if !evs[k - 1].stop {
        StopNotSeen(evs, tasks, k - 1);
      }
    }
  }

  lemma {:induction false} RunningAreTasks(evs: seq<Event>, tasks: seq<Task>, k: nat)
    requires Schedule(evs, tasks) && k <= |evs|
    ensures forall i :: i in Running(evs, k) ==> i < |tasks|
  {
    if k > 0 {
      RunningAreTasks(evs, tasks, k - 1);
    }
  }

  lemma {:induction false} Position(evs: seq<Event>, e: Event) returns (p: nat)
    requires e in evs
    ensures p < |evs| && evs[p] == e
  {
    p :| 0 <= p < |evs| && evs[p] == e;
  }

  /** Because starts sort before stops at equal times, a task's start precedes its stop. */
  lemma {:induction false} StartsFirst(evs: seq<Event>, tasks: seq<Task>, i: nat) returns (p: nat, r: nat)
    requires ValidTasks(tasks) && Schedule(evs, tasks) && i < |tasks|
    ensures p < r < |evs| && evs[p] == StartOf(tasks, i) && evs[r] == StopOf(tasks, i)
  {
    p := Position(evs, StartOf(tasks, i));
    r := Position(evs, StopOf(tasks, i));
  }

  /** A stop event always finds its task running, a start event never does. */
  lemma {:induction false} StopFindsItsTask(evs: seq<Event>, tasks: seq<Task>, k: nat)
    requires ValidTasks(tasks) && Schedule(evs, tasks) && k < |evs|
    ensures evs[k].stop <==> evs[k].task in Running(evs, k)
  {
    var i := evs[k].task;
    var p, r := StartsFirst(evs, tasks, i);
    RunningMeans(evs, tasks, k, i);
    ProperEvent(evs, tasks, k);
    assert p < k ==> evs[..k][p] == evs[p];
  }

  /** The running map is empty at the end. */
  lemma {:induction false} NothingLeftRunning(evs: seq<Event>, tasks: seq<Task>)
    requires ValidTasks(tasks) && Schedule(evs, tasks)
    ensures Running(evs, |evs|) == {}
  {
    RunningAreTasks(evs, tasks, |evs|);
    assert evs[..|evs|] == evs;
    forall i | i in Running(evs, |evs|) ensures false {
      RunningMeans(evs, tasks, |evs|, i);
    }
  }

  // ----- the independent reference: which tasks cover a stretch of time

  predicate Covers(t: Task, a: real, b: real) {
    t.start <= a && b <= t.end
  }

  function Covering(tasks: seq<Task>, a: real, b: real): set<nat> {
    set i: nat | i < |tasks| && Covers(tasks[i], a, b)
  }

  /** Between two consecutive event times the running map holds exactly the tasks that cover the stretch. */
  lemma {:induction false} RunningIsCovering(evs: seq<Event>, tasks: seq<Task>, k: nat)
    requires ValidTasks(tasks) && Schedule(evs, tasks) && 0 < k < |evs| && evs[k - 1].time < evs[k].time
    ensures Running(evs, k) == Covering(tasks, evs[k - 1].time, evs[k].time)
  {
    RunningAreTasks(evs, tasks, k);
    forall i: nat | i < |tasks| ensures i in Running(evs, k) <==> Covers(tasks[i], evs[k - 1].time, evs[k].time) {
      var p, r := StartsFirst(evs, tasks, i);
      RunningMeans(evs, tasks, k, i);
      BeforeIffEarlier(evs, k, p);
      BeforeIffEarlier(evs, k, r);
    }
  }

  /** At a strict step in time, an event lies in the first k exactly when its time is not past the step. */
  lemma {:induction false} BeforeIffEarlier(evs: seq<Event>, k: nat, p: nat)
    requires Sorted(evs) && 0 < k < |evs| && evs[k - 1].time < evs[k].time && p < |evs|
    requires forall i, j :: 0 <= i < j < |evs| ==> evs[i] != evs[j]
    ensures Seen(evs, k, evs[p]) <==> evs[p].time <= evs[k - 1].time
    ensures Seen(evs, k, evs[p]) <==> evs[p].time < evs[k].time
  {
    if p < k {
      assert evs[..k][p] == evs[p];
      assert p == k - 1 || Le(evs[p], evs[k - 1]);
    } else {
      assert p == k || Le(evs[k], evs[p]);
    }
  }

  function Part(len: real, c: nat): real
    requires c > 0
  {
    len / c as real
  }

  function Multiple(c: nat, x: real): real {
    c as real * x
  }

  /** Task i's part of the stretch from a to b: an equal share among all tasks that cover it. */
  function SegmentShare(tasks: seq<Task>, i: nat, a: real, b: real): real
    requires i < |tasks|
  {
    if a < b && i in Covering(tasks, a, b) then Part(b - a, |Covering(tasks, a, b)|) else 0.0
  }

  /** Task i's equal shares over the stretches between the first k event times. */
  function Share(tasks: seq<Task>, evs: seq<Event>, i: nat, k: nat): real
    requires i < |tasks| && k <= |evs|
  {
    if k <= 1 then 0.0 else Share(tasks, evs, i, k - 1) + SegmentShare(tasks, i, evs[k - 2].time, evs[k - 1].time)
  }

  /** The time covered by at least one task, over the same stretches. */
  function Covered(tasks: seq<Task>, evs: seq<Event>, k: nat): real
    requires k <= |evs|
  {
    if k <= 1 then 0.0
    else
      var (a, b) := (evs[k - 2].time, evs[k - 1].time);
      Covered(tasks, evs, k - 1) + if a < b && Covering(tasks, a, b) != {} then b - a else 0.0
  }

  /** The weighted clock: total equal-share time after k events. */
  function Clock(evs: seq<Event>, k: nat): real
    requires k <= |evs|
  {
    if k == 0 then 0.0 else Clock(evs, k - 1) + Tick(evs, k - 1)
  }

  function Tick(evs: seq<Event>, k: nat): real
    requires k < |evs|
  {
    if k == 0 || Running(evs, k) == {} then 0.0 else Part(evs[k].time - evs[k - 1].time, |Running(evs, k)|)
  }

  /** A running task's share grows exactly by the tick of the clock, any other task's not at all. */
  lemma {:induction false} TickIsShare(evs: seq<Event>, tasks: seq<Task>, k: nat, i: nat)
    requires ValidTasks(tasks) && Schedule(evs, tasks) && k < |evs| && i < |tasks|
    ensures Share(tasks, evs, i, k + 1) - Share(tasks, evs, i, k) == if i in Running(evs, k) then Tick(evs, k) else 0.0
  {
    hide Running, Covering;
    if k > 0 {
      assert Le(evs[k - 1], evs[k]);
      if evs[k - 1].time < evs[k].time {
        RunningIsCovering(evs, tasks, k);
      }
    }
  }

  // ----- conservation

  function TotalShare(tasks: seq<Task>, evs: seq<Event>, n: nat, k: nat): real
    requires n <= |tasks| && k <= |evs|
  {
    if n == 0 then 0.0 else TotalShare(tasks, evs, n - 1, k) + Share(tasks, evs, n - 1, k)
  }

  lemma {:induction false} TotalGrows(evs: seq<Event>, tasks: seq<Task>, n: nat, k: nat)
    requires ValidTasks(tasks) && Schedule(evs, tasks) && k < |evs| && n <= |tasks|
    ensures TotalShare(tasks, evs, n, k + 1) - TotalShare(tasks, evs, n, k)
            == Multiple(CountBelow(Running(evs, k), n), Tick(evs, k))
  {
    hide Share, Tick, Running, Schedule, Multiple;
    if n > 0 {
      TotalGrows(evs, tasks, n - 1, k);
      TickIsShare(evs, tasks, k, n - 1);
      MultipleSteps(CountBelow(Running(evs, k), n - 1), Tick(evs, k));
    } else {
      MultipleSteps(0, Tick(evs, k));
    }
  }

  lemma {:induction false} MultipleSteps(c: nat, x: real)
    ensures Multiple(0, x) == 0.0 && Multiple(c + 1, x) == Multiple(c, x) + x
  {
  }

  lemma {:induction false} MultipleAdds(c: nat, x: real, y: real)
    ensures Multiple(c, x + y) == Multiple(c, x) + Multiple(c, y) && Multiple(c, 0.0) == 0.0
  {
  }

  lemma {:induction false} PartBounds(len: real, c: nat, n: nat)
    requires len >= 0.0 && 1 <= c <= n
    ensures Multiple(c, Part(len, c)) == len
    ensures Part(len, c) <= len <= Multiple(n, Part(len, c))
  {
    var (part, rc, rn) := (Part(len, c), c as real, n as real);
    assert rc * part == len;
    assert part >= 0.0;
    assert (rc - 1.0) * part >= 0.0;
    assert (rn - rc) * part >= 0.0;
  }

  /** One step of the clock, paid to every running task, is one step of covered time. */
  lemma {:induction false} CoveredGrows(evs: seq<Event>, tasks: seq<Task>, k: nat)
    requires ValidTasks(tasks) && Schedule(evs, tasks) && 0 < k < |evs|
    ensures Covered(tasks, evs, k + 1) - Covered(tasks, evs, k) == Multiple(|Running(evs, k)|, Tick(evs, k))
  {
    hide Running, Covering, ValidTasks, Part, Multiple;
    var (len, running) := (evs[k].time - evs[k - 1].time, Running(evs, k));
    assert Le(evs[k - 1], evs[k]);
    if len > 0.0 {
      RunningIsCovering(evs, tasks, k);
    }
    MultipleSteps(0, Tick(evs, k));
    if running != {} {
      PartBounds(len, |running|, |running|);
    }
  }

  /** After k events the shares add up to the time covered so far. */
  lemma {:induction false} SharesAddUp(evs: seq<Event>, tasks: seq<Task>, k: nat)
    requires ValidTasks(tasks) && Schedule(evs, tasks) && k <= |evs|
    ensures TotalShare(tasks, evs, |tasks|, k) == Covered(tasks, evs, k)
  {
    hide Running, Tick, Schedule, ValidTasks, TotalShare;
    if k <= 1 {
      NoSharesYet(evs, tasks, |tasks|, k);
    } else {
      hide Covered;
      SharesAddUp(evs, tasks, k - 1);
      TotalGrows(evs, tasks, |tasks|, k - 1);
      CoveredGrows(evs, tasks, k - 1);
      RunningAreTasks(evs, tasks, k - 1);
      CountIsCardinality(Running(evs, k - 1), |tasks|);
    }
  }

  lemma {:induction false} NoSharesYet(evs: seq<Event>, tasks: seq<Task>, n: nat, k: nat)
    requires n <= |tasks| && k <= |evs| && k <= 1
    ensures TotalShare(tasks, evs, n, k) == 0.0
  {
    if n > 0 {
      NoSharesYet(evs, tasks, n - 1, k);
    }
  }

  ghost predicate Busy(tasks: seq<Task>, x: real) {
    exists i :: 0 <= i < |tasks| && tasks[i].start <= x < tasks[i].end
  }

  /** Between two event times some task covers the stretch exactly if some task runs at any one moment of it. */
  lemma {:induction false} StretchIsBusyIff(evs: seq<Event>, tasks: seq<Task>, k: nat, x: real)
    requires ValidTasks(tasks) && Schedule(evs, tasks) && 0 < k < |evs| && evs[k - 1].time <= x < evs[k].time
    ensures Busy(tasks, x) <==> Covering(tasks, evs[k - 1].time, evs[k].time) != {}
  {
    var (a, b) := (evs[k - 1].time, evs[k].time);
    if Busy(tasks, x) {
      var i :| 0 <= i < |tasks| && tasks[i].start <= x < tasks[i].end;
      var p, r := StartsFirst(evs, tasks, i);
      BeforeIffEarlier(evs, k, p);
      BeforeIffEarlier(evs, k, r);
      assert i in Covering(tasks, a, b);
    }
    if Covering(tasks, a, b) != {} {
      var i :| i in Covering(tasks, a, b);
      assert tasks[i].start <= x < tasks[i].end;
    }
  }

  lemma {:induction false} BusyInSpan(evs: seq<Event>, tasks: seq<Task>, x: real)
    requires ValidTasks(tasks) && Schedule(evs, tasks) && Busy(tasks, x)
    ensures evs != [] && evs[0].time <= x < evs[|evs| - 1].time
  {
    var i :| 0 <= i < |tasks| && tasks[i].start <= x < tasks[i].end;
    var p, r := StartsFirst(evs, tasks, i);
    assert p == 0 || Le(evs[0], evs[p]);
    assert r == |evs| - 1 || Le(evs[r], evs[|evs| - 1]);
  }

  /** The weighted durations add up to the covered time, and that is the time at which at least one task runs:
      each stretch between event times is counted exactly if a task runs at any moment of it, and no task runs
      outside the stretches. */
  lemma {:induction false} Conservation(evs: seq<Event>, tasks: seq<Task>)
    requires ValidTasks(tasks) && Schedule(evs, tasks)
    ensures TotalShare(tasks, evs, |tasks|, |evs|) == Covered(tasks, evs, |evs|)
    ensures forall k, x: real :: 0 < k < |evs| && evs[k - 1].time <= x < evs[k].time ==>
              (Busy(tasks, x) <==> Covering(tasks, evs[k - 1].time, evs[k].time) != {})
    ensures forall x: real :: Busy(tasks, x) ==> evs != [] && evs[0].time <= x < evs[|evs| - 1].time
  {
    hide TotalShare, Covered, Schedule, ValidTasks, Busy, Covering;
    SharesAddUp(evs, tasks, |evs|);
    forall k, x: real | 0 < k < |evs| && evs[k - 1].time <= x < evs[k].time
      ensures Busy(tasks, x) <==> Covering(tasks, evs[k - 1].time, evs[k].time) != {}
    {
      StretchIsBusyIff(evs, tasks, k, x);
    }
    forall x: real | Busy(tasks, x) ensures evs != [] && evs[0].time <= x < evs[|evs| - 1].time {
      BusyInSpan(evs, tasks, x);
    }
  }

  // ----- bounds for one task

  /** How much of task i's own interval lies before time x. */
  function Elapsed(t: Task, x: real): real {
    if x <= t.start then 0.0 else if x <= t.end then x - t.start else t.end - t.start
  }

  /** Over one stretch, the task's elapsed time grows by all of it or by nothing, as the task covers it or not. */
  lemma {:induction false} ElapsedGrows(evs: seq<Event>, tasks: seq<Task>, i: nat, k: nat)
    requires ValidTasks(tasks) && Schedule(evs, tasks) && 0 < k < |evs| && i < |tasks|
    ensures var (a, b) := (evs[k - 1].time, evs[k].time);
            && a <= b
            && Elapsed(tasks[i], b) - Elapsed(tasks[i], a) == if Covers(tasks[i], a, b) then b - a else 0.0
  {
    var p, r := StartsFirst(evs, tasks, i);
    assert Le(evs[k - 1], evs[k]);
    if evs[k - 1].time < evs[k].time {
      BeforeIffEarlier(evs, k, p);
      BeforeIffEarlier(evs, k, r);
    }
  }

  lemma {:induction false} SegmentShareBounds(tasks: seq<Task>, i: nat, a: real, b: real)
    requires i < |tasks| && a <= b
    ensures var own := if Covers(tasks[i], a, b) then b - a else 0.0;
            SegmentShare(tasks, i, a, b) <= own <= Multiple(|tasks|, SegmentShare(tasks, i, a, b))
  {
    if a < b && Covers(tasks[i], a, b) {
      var c := Covering(tasks, a, b);
      CountIsCardinality(c, |tasks|);
      assert i in c;
      PartBounds(b - a, |c|, |tasks|);
    }
    MultipleAdds(|tasks|, 0.0, 0.0);
  }

  /** A share never exceeds the time the task has run, nor falls below that time over the number of tasks. */
  lemma {:induction false} ShareWithinElapsed(evs: seq<Event>, tasks: seq<Task>, i: nat, k: nat)
    requires ValidTasks(tasks) && Schedule(evs, tasks) && 0 < k <= |evs| && i < |tasks|
    ensures Share(tasks, evs, i, k) <= Elapsed(tasks[i], evs[k - 1].time) <= Multiple(|tasks|, Share(tasks, evs, i, k))
  {
    hide Schedule, ValidTasks, SegmentShare, Elapsed, Covers, Multiple;
    if k == 1 {
      NothingElapsed(evs, tasks, i);
      MultipleAdds(|tasks|, 0.0, 0.0);
    } else {
      var (a, b) := (evs[k - 2].time, evs[k - 1].time);
      ShareWithinElapsed(evs, tasks, i, k - 1);
      ElapsedGrows(evs, tasks, i, k - 1);
      SegmentShareBounds(tasks, i, a, b);
      MultipleAdds(|tasks|, Share(tasks, evs, i, k - 1), SegmentShare(tasks, i, a, b));
    }
  }

  lemma {:induction false} NothingElapsed(evs: seq<Event>, tasks: seq<Task>, i: nat)
    requires ValidTasks(tasks) && Schedule(evs, tasks) && evs != [] && i < |tasks|
    ensures Elapsed(tasks[i], evs[0].time) == 0.0
  {
    var p, r := StartsFirst(evs, tasks, i);
    assert p == 0 || Le(evs[0], evs[p]);
  }

  /** At the end each weighted duration lies between `duration / number of tasks` and `duration`. */
  lemma {:induction false} WeightedDurationBounds(evs: seq<Event>, tasks: seq<Task>, i: nat)
    requires ValidTasks(tasks) && Schedule(evs, tasks) && i < |tasks|
    ensures var d := tasks[i].end - tasks[i].start;
            Part(d, |tasks|) <= Share(tasks, evs, i, |evs|) <= d
  {
    hide Share, Schedule, Elapsed, Part, Multiple;
    ElapsedAtEnd(evs, tasks, i);
    ShareWithinElapsed(evs, tasks, i, |evs|);
    PartAtMost(tasks[i].end - tasks[i].start, |tasks|, Share(tasks, evs, i, |evs|));
  }

  lemma {:induction false} ElapsedAtEnd(evs: seq<Event>, tasks: seq<Task>, i: nat)
    requires ValidTasks(tasks) && Schedule(evs, tasks) && i < |tasks|
    ensures evs != [] && Elapsed(tasks[i], evs[|evs| - 1].time) == tasks[i].end - tasks[i].start
  {
    var p, r := StartsFirst(evs, tasks, i);
    assert r == |evs| - 1 || Le(evs[r], evs[|evs| - 1]);
  }

  lemma {:induction false} PartAtMost(d: real, n: nat, x: real)
    requires n > 0 && d <= Multiple(n, x)
    ensures Part(d, n) <= x
  {
    var rn := n as real;
    assert rn * (d / rn) == d;
    assert rn * (x - d / rn) >= 0.0;
  }

  // ----- the total against the length of the build

  ghost predicate SegmentsCovered(tasks: seq<Task>, evs: seq<Event>, k: nat)
    requires k <= |evs|
  {
    forall j :: 0 < j < k && evs[j - 1].time < evs[j].time ==> Covering(tasks, evs[j - 1].time, evs[j].time) != {}
  }

  lemma {:induction false} CoveredAtMostElapsed(evs: seq<Event>, tasks: seq<Task>, k: nat)
    requires Sorted(evs) && 0 < k <= |evs|
    ensures Covered(tasks, evs, k) <= evs[k - 1].time - evs[0].time
    ensures Covered(tasks, evs, k) == evs[k - 1].time - evs[0].time <==> SegmentsCovered(tasks, evs, k)
  {
    if k > 1 {
      CoveredAtMostElapsed(evs, tasks, k - 1);
      assert Le(evs[k - 2], evs[k - 1]);
    }
  }

  lemma {:induction false} FindSegment(evs: seq<Event>, x: real, k: nat) returns (j: nat)
    requires Sorted(evs) && 0 < k <= |evs| && evs[0].time <= x < evs[k - 1].time
    ensures 0 < j < k && evs[j - 1].time <= x < evs[j].time
  {
    if evs[k - 2].time <= x {
      j := k - 1;
    } else {
      j := FindSegment(evs, x, k - 1);
    }
  }

  /** The weighted total is at most `latest - earliest`, with equality exactly when some task is running at every
      moment in between. */
  lemma {:induction false} TotalAgainstLength(evs: seq<Event>, tasks: seq<Task>)
    requires ValidTasks(tasks) && Schedule(evs, tasks) && evs != []
    ensures var (first, last) := (evs[0].time, evs[|evs| - 1].time);
            && TotalShare(tasks, evs, |tasks|, |evs|) <= last - first
            && (TotalShare(tasks, evs, |tasks|, |evs|) == last - first
                <==> forall x: real :: first <= x < last ==> Busy(tasks, x))
  {
    hide TotalShare, Covered, Schedule, ValidTasks, Busy, Covering;
    var n := |evs|;
    ScheduleIsSorted(evs, tasks);
    Conservation(evs, tasks);
    CoveredAtMostElapsed(evs, tasks, n);
    if SegmentsCovered(tasks, evs, n) {
      forall x: real | evs[0].time <= x < evs[n - 1].time ensures Busy(tasks, x) {
        var j := FindSegment(evs, x, n);
        StretchIsBusyIff(evs, tasks, j, x);
      }
    }
    if forall x: real :: evs[0].time <= x < evs[n - 1].time ==> Busy(tasks, x) {
      forall j | 0 < j < n && evs[j - 1].time < evs[j].time
        ensures Covering(tasks, evs[j - 1].time, evs[j].time) != {}
      {
        SegmentInSpan(evs, j);
        StretchIsBusyIff(evs, tasks, j, evs[j - 1].time);
      }
    }
  }

  lemma {:induction false} ScheduleIsSorted(evs: seq<Event>, tasks: seq<Task>)
    requires Schedule(evs, tasks)
    ensures Sorted(evs)
  {
  }

  lemma {:induction false} SegmentInSpan(evs: seq<Event>, j: nat)
    requires Sorted(evs) && 0 < j < |evs|
    ensures evs[0].time <= evs[j - 1].time <= evs[j].time <= evs[|evs| - 1].time
  {
    assert j - 1 == 0 || Le(evs[0], evs[j - 1]);
    assert j == |evs| - 1 || Le(evs[j], evs[|evs| - 1]);
  }

  // ----- the sweep over targets

  const EPSILON := 0.000002

  class Target {
    const start: real
    const end: real
    var weightedDuration: real

    constructor (start: real, end: real)
      ensures this.start == start && this.end == end && weightedDuration == 0.0
    {
      this.start, this.end, weightedDuration := start, end, 0.0;
    }

    function Duration(): real {
      end - start
    }

    /** The source asserts the bound; here every caller has to establish it. */
    method WeightedDuration() returns (r: real)
      requires weightedDuration <= Duration() + EPSILON
      ensures r == weightedDuration
    {
      r := weightedDuration;
    }
  }

  function TasksOf(entries: seq<Target>): (tasks: seq<Task>)
    ensures |tasks| == |entries|
    ensures forall i :: 0 <= i < |entries| ==> tasks[i] == Task(entries[i].start, entries[i].end)
  {
    seq(|entries|, i requires 0 <= i < |entries| => Task(entries[i].start, entries[i].end))
  }

  /** The first loop: both events of every target in turn, and the two ends of the build. */
  method CollectEvents(entries: seq<Target>, tasks: seq<Task>)
    returns (evs: seq<Event>, earliest: real, latest: real, totalCpuTime: real)
    requires tasks == TasksOf(entries) && ValidTasks(tasks)
    ensures evs == EventsOf(tasks, |tasks|)
    ensures (exists i :: 0 <= i < |tasks| && tasks[i].start == earliest)
    ensures (forall i :: 0 <= i < |tasks| ==> earliest <= tasks[i].start && tasks[i].end <= latest)
    ensures (exists i :: 0 <= i < |tasks| && tasks[i].end == latest)
    ensures totalCpuTime == CpuTime(tasks, |tasks|)
  {
    evs, earliest, latest, totalCpuTime := [], -1.0, 0.0, 0.0;
    ghost var first, last: nat := 0, 0;
    for n := 0 to |entries|
      invariant evs == EventsOf(tasks, n) && totalCpuTime == CpuTime(tasks, n)
      invariant if n == 0 then earliest < 0.0 else first < n && tasks[first].start == earliest >= 0.0
      invariant latest >= 0.0 && (latest == 0.0 || (last < n && tasks[last].end == latest))
      invariant forall i :: 0 <= i < n ==> earliest <= tasks[i].start && tasks[i].end <= latest
    {
      var target := entries[n];
      if earliest < 0.0 || target.start < earliest {
        earliest, first := target.start, n;
      }
      if target.end > latest {
        latest, last := target.end, n;
      }
      totalCpuTime := totalCpuTime + target.Duration();
      evs := evs + [Event(target.start, false, n), Event(target.end, true, n)];
    }
    assert latest == 0.0 ==> tasks[0].end == latest;
  }

  function CpuTime(tasks: seq<Task>, n: nat): real
    requires n <= |tasks|
  {
    if n == 0 then 0.0 else CpuTime(tasks, n - 1) + (tasks[n - 1].end - tasks[n - 1].start)
  }

  /** The schedule begins at the earliest start and ends at the latest end. */
  lemma {:induction false} EndsOfSchedule(evs: seq<Event>, tasks: seq<Task>, earliest: real, latest: real)
    requires ValidTasks(tasks) && Schedule(evs, tasks) && evs != []
    requires exists i :: 0 <= i < |tasks| && tasks[i].start == earliest
    requires exists i :: 0 <= i < |tasks| && tasks[i].end == latest
    requires forall i :: 0 <= i < |tasks| ==> earliest <= tasks[i].start && tasks[i].end <= latest
    ensures evs[0].time == earliest && evs[|evs| - 1].time == latest
  {
    var i :| 0 <= i < |tasks| && tasks[i].start == earliest;
    var j :| 0 <= j < |tasks| && tasks[j].end == latest;
    var p, r := StartsFirst(evs, tasks, i);
    var p', r' := StartsFirst(evs, tasks, j);
    assert Proper(evs[0], tasks) && Proper(evs[|evs| - 1], tasks);
    assert p == 0 || Le(evs[0], evs[p]);
    assert r' == |evs| - 1 || Le(evs[r'], evs[|evs| - 1]);
  }

  /** Stretch by stretch, its length times the number of tasks that cover it. */
  function ParallelTime(tasks: seq<Task>, evs: seq<Event>, k: nat): real
    requires k <= |evs|
  {
    if k <= 1 then 0.0
    else
      var (a, b) := (evs[k - 2].time, evs[k - 1].time);
      ParallelTime(tasks, evs, k - 1) + Multiple(|Covering(tasks, a, b)|, b - a)
  }

  function ElapsedTotal(tasks: seq<Task>, n: nat, x: real): real
    requires n <= |tasks|
  {
    if n == 0 then 0.0 else ElapsedTotal(tasks, n - 1, x) + Elapsed(tasks[n - 1], x)
  }

  /** The total processor time is the time covered, each stretch counted once per task running in it. */
  lemma {:induction false} CpuTimeIsParallelTime(evs: seq<Event>, tasks: seq<Task>)
    requires ValidTasks(tasks) && Schedule(evs, tasks)
    ensures CpuTime(tasks, |tasks|) == ParallelTime(tasks, evs, |evs|)
  {
    hide ElapsedTotal, ParallelTime, Schedule, ValidTasks;
    ScheduleNotEmpty(evs, tasks);
    ElapsedIsParallel(evs, tasks, |evs|);
    AllElapsed(evs, tasks, |tasks|);
  }

  lemma {:induction false} ScheduleNotEmpty(evs: seq<Event>, tasks: seq<Task>)
    requires ValidTasks(tasks) && Schedule(evs, tasks)
    ensures evs != []
  {
    assert StartOf(tasks, 0) in evs;
  }

  lemma {:induction false} ElapsedIsParallel(evs: seq<Event>, tasks: seq<Task>, k: nat)
    requires ValidTasks(tasks) && Schedule(evs, tasks) && 0 < k <= |evs|
    ensures ElapsedTotal(tasks, |tasks|, evs[k - 1].time) == ParallelTime(tasks, evs, k)
  {
    hide ElapsedTotal, Schedule, ValidTasks, Covering, Multiple;
    if k == 1 {
      NoneElapsed(evs, tasks, |tasks|);
    } else {
      ElapsedIsParallel(evs, tasks, k - 1);
      ElapsedTotalGrows(evs, tasks, |tasks|, k - 1);
      CoveringAreTasks(tasks, evs[k - 2].time, evs[k - 1].time);
      CountIsCardinality(Covering(tasks, evs[k - 2].time, evs[k - 1].time), |tasks|);
    }
  }

  lemma {:induction false} CoveringAreTasks(tasks: seq<Task>, a: real, b: real)
    ensures forall i :: i in Covering(tasks, a, b) ==> i < |tasks|
  {
  }

  lemma {:induction false} NoneElapsed(evs: seq<Event>, tasks: seq<Task>, n: nat)
    requires ValidTasks(tasks) && Schedule(evs, tasks) && evs != [] && n <= |tasks|
    ensures ElapsedTotal(tasks, n, evs[0].time) == 0.0
  {
    hide Schedule, ValidTasks, Elapsed;
    if n > 0 {
      NoneElapsed(evs, tasks, n - 1);
      NothingElapsed(evs, tasks, n - 1);
    }
  }

  lemma {:induction false} ElapsedTotalGrows(evs: seq<Event>, tasks: seq<Task>, n: nat, k: nat)
    requires ValidTasks(tasks) && Schedule(evs, tasks) && 0 < k < |evs| && n <= |tasks|
    ensures var (a, b) := (evs[k - 1].time, evs[k].time);
            ElapsedTotal(tasks, n, b) - ElapsedTotal(tasks, n, a)
            == Multiple(CountBelow(Covering(tasks, a, b), n), b - a)
  {
    hide Schedule, ValidTasks, Elapsed, Multiple;
    var (a, b) := (evs[k - 1].time, evs[k].time);
    MultipleSteps(0, b - a);
    if n > 0 {
      ElapsedTotalGrows(evs, tasks, n - 1, k);
      ElapsedGrows(evs, tasks, n - 1, k);
      MultipleSteps(CountBelow(Covering(tasks, a, b), n - 1), b - a);
    }
  }

  lemma {:induction false} AllElapsed(evs: seq<Event>, tasks: seq<Task>, n: nat)
    requires ValidTasks(tasks) && Schedule(evs, tasks) && evs != [] && n <= |tasks|
    ensures ElapsedTotal(tasks, n, evs[|evs| - 1].time) == CpuTime(tasks, n)
  {
    hide Schedule, ValidTasks, Elapsed;
    if n > 0 {
      AllElapsed(evs, tasks, n - 1);
      ElapsedAtEnd(evs, tasks, n - 1);
    }
  }

  /** The tasks whose stop lies in the first k events. */
  function Stopped(evs: seq<Event>, k: nat): set<nat>
    requires k <= |evs|
  {
    if k == 0 then {} else if evs[k - 1].stop then Stopped(evs, k - 1) + {evs[k - 1].task} else Stopped(evs, k - 1)
  }

  lemma {:induction false} StoppedMeans(evs: seq<Event>, tasks: seq<Task>, k: nat, i: nat)
    requires Schedule(evs, tasks) && k <= |evs| && i < |tasks|
    ensures i in Stopped(evs, k) <==> Seen(evs, k, StopOf(tasks, i))
  {
    hide Schedule, Seen;
    SeenStep(evs, k, StopOf(tasks, i));
    if k > 0 {
      StoppedMeans(evs, tasks, k - 1, i);
      ProperEvent(evs, tasks, k - 1);
    }
  }

  /** What one event changes: shares grow by the tick for running tasks only, and a stopping task was not stopped. */
  lemma {:induction false} EventStep(evs: seq<Event>, tasks: seq<Task>, k: nat)
    requires ValidTasks(tasks) && Schedule(evs, tasks) && k < |evs|
    ensures evs[k].task < |tasks|
    ensures evs[k].stop <==> evs[k].task in Running(evs, k)
    ensures evs[k].stop ==> evs[k].task !in Stopped(evs, k)
    ensures !evs[k].stop ==> Share(tasks, evs, evs[k].task, k) == 0.0
    ensures forall i :: 0 <= i < |tasks| ==>
              Share(tasks, evs, i, k + 1)
              == Share(tasks, evs, i, k) + if i in Running(evs, k) then Tick(evs, k) else 0.0
    ensures forall i :: i in Running(evs, k) ==> i < |tasks| && i !in Stopped(evs, k)
  {
    hide Share, Tick, Running, Stopped;
    var t := evs[k].task;
    StopFindsItsTask(evs, tasks, k);
    StoppedMeans(evs, tasks, k, t);
    if !evs[k].stop {
      NoShareBeforeStart(evs, tasks, k, k);
    }
    RunningAreTasks(evs, tasks, k);
    forall i | 0 <= i < |tasks|
      ensures Share(tasks, evs, i, k + 1)
              == Share(tasks, evs, i, k) + if i in Running(evs, k) then Tick(evs, k) else 0.0
      ensures i in Running(evs, k) ==> i !in Stopped(evs, k)
    {
      TickIsShare(evs, tasks, k, i);
      RunningMeans(evs, tasks, k, i);
      StoppedMeans(evs, tasks, k, i);
    }
  }

  lemma {:induction false} NoShareBeforeStart(evs: seq<Event>, tasks: seq<Task>, k: nat, j: nat)
    requires ValidTasks(tasks) && Schedule(evs, tasks) && j <= k < |evs| && !evs[k].stop
    ensures evs[k].task < |tasks| && Share(tasks, evs, evs[k].task, j) == 0.0
  {
    hide Running, Tick, Schedule, ValidTasks, SegmentShare;
    ProperEvent(evs, tasks, k);
    if j > 0 {
      NoShareBeforeStart(evs, tasks, k, j - 1);
      NotRunningBeforeStart(evs, tasks, k, j - 1);
      hide Share;
      TickIsShare(evs, tasks, j - 1, evs[k].task);
    }
  }

  lemma {:induction false} NotRunningBeforeStart(evs: seq<Event>, tasks: seq<Task>, k: nat, j: nat)
    requires ValidTasks(tasks) && Schedule(evs, tasks) && j <= k < |evs| && !evs[k].stop
    ensures evs[k].task !in Running(evs, j)
  {
    hide Running;
    ProperEvent(evs, tasks, k);
    RunningMeans(evs, tasks, j, evs[k].task);
  }

  function DoneTotal(tasks: seq<Task>, evs: seq<Event>, done: set<nat>, n: nat, k: nat): real
    requires n <= |tasks| && k <= |evs|
  {
    if n == 0 then 0.0
    else DoneTotal(tasks, evs, done, n - 1, k) + if n - 1 in done then Share(tasks, evs, n - 1, k) else 0.0
  }

  lemma {:induction false} DoneTotalStep(evs: seq<Event>, tasks: seq<Task>, n: nat, k: nat)
    requires ValidTasks(tasks) && Schedule(evs, tasks) && k < |evs| && n <= |tasks|
    ensures evs[k].task < |tasks|
    ensures DoneTotal(tasks, evs, Stopped(evs, k + 1), n, k + 1)
            == DoneTotal(tasks, evs, Stopped(evs, k), n, k)
               + if evs[k].stop && evs[k].task < n then Share(tasks, evs, evs[k].task, k + 1) else 0.0
  {
    hide Share, Tick, Running;
    EventStep(evs, tasks, k);
    if n > 0 {
      DoneTotalStep(evs, tasks, n - 1, k);
    }
  }

  lemma {:induction false} AllDone(evs: seq<Event>, tasks: seq<Task>, n: nat)
    requires ValidTasks(tasks) && Schedule(evs, tasks) && n <= |tasks|
    ensures forall i :: 0 <= i < n ==> i in Stopped(evs, |evs|)
    ensures DoneTotal(tasks, evs, Stopped(evs, |evs|), n, |evs|) == TotalShare(tasks, evs, n, |evs|)
  {
    hide Share, Stopped;
    if n > 0 {
      AllDone(evs, tasks, n - 1);
      assert evs[..|evs|] == evs;
      StoppedMeans(evs, tasks, |evs|, n - 1);
    }
  }

  lemma {:induction false} NothingDone(evs: seq<Event>, tasks: seq<Task>, n: nat)
    requires n <= |tasks|
    ensures DoneTotal(tasks, evs, {}, n, 0) == 0.0
  {
    if n > 0 {
      NothingDone(evs, tasks, n - 1);
    }
  }

  /** What the sweep's variables hold after k events. */
  ghost predicate SweepInv(evs: seq<Event>, tasks: seq<Task>, k: nat, running: map<nat, real>, clock: real,
                           weights: seq<real>, total: real)
    requires k <= |evs|
  {
    && |weights| == |tasks|
    && running.Keys == Running(evs, k)
    && clock == Clock(evs, k)
    && (forall i :: i in running ==> i < |tasks| && clock - running[i] == Share(tasks, evs, i, k))
    && (forall i :: 0 <= i < |tasks| && i in Stopped(evs, k) ==> weights[i] == Share(tasks, evs, i, k))
    && total == DoneTotal(tasks, evs, Stopped(evs, k), |tasks|, k)
  }

  lemma {:induction false} SweepTick(evs: seq<Event>, tasks: seq<Task>, k: nat, running: map<nat, real>, clock: real,
                                     weights: seq<real>, total: real)
    requires k < |evs| && SweepInv(evs, tasks, k, running, clock, weights, total)
    ensures k == 0 ==> |running| == 0
    ensures |running| > 0 ==> Tick(evs, k) == Part(evs[k].time - evs[k - 1].time, |running|)
    ensures |running| == 0 ==> Tick(evs, k) == 0.0
  {
    assert |running| == |running.Keys|;
  }

  lemma {:induction false} StartStep(evs: seq<Event>, tasks: seq<Task>, k: nat, running: map<nat, real>, clock: real,
                                     weights: seq<real>, total: real)
    requires ValidTasks(tasks) && Schedule(evs, tasks) && k < |evs| && !evs[k].stop
    requires SweepInv(evs, tasks, k, running, clock, weights, total)
    ensures var clock' := clock + Tick(evs, k);
            SweepInv(evs, tasks, k + 1, running[evs[k].task := clock'], clock', weights, total)
  {
    hide Share, Tick, Schedule, ValidTasks, DoneTotal;
    EventStep(evs, tasks, k);
    DoneTotalStep(evs, tasks, |tasks|, k);
  }

  lemma {:induction false} StopStep(evs: seq<Event>, tasks: seq<Task>, k: nat, running: map<nat, real>, clock: real,
                                    weights: seq<real>, total: real)
    requires ValidTasks(tasks) && Schedule(evs, tasks) && k < |evs| && evs[k].stop
    requires SweepInv(evs, tasks, k, running, clock, weights, total)
    ensures evs[k].task in running && evs[k].task < |weights| == |tasks|
    ensures var clock' := clock + Tick(evs, k);
            var own := clock' - running[evs[k].task];
            SweepInv(evs, tasks, k + 1, running - {evs[k].task}, clock', weights[evs[k].task := own], total + own)
  {
    hide Share, Tick, Schedule, ValidTasks, DoneTotal;
    EventStep(evs, tasks, k);
    DoneTotalStep(evs, tasks, |tasks|, k);
  }

  /** The sweep over the sorted events: sets every target's weighted duration to its equal share and returns the
      weighted total. */
  method Sweep(entries: seq<Target>, tasks: seq<Task>, evs: seq<Event>) returns (weightedTotal: real)
    requires tasks == TasksOf(entries) && ValidTasks(tasks) && Schedule(evs, tasks) && evs != []
    requires forall i, j :: 0 <= i < j < |entries| ==> entries[i] != entries[j]
    modifies entries
    ensures forall i :: 0 <= i < |entries| ==> entries[i].weightedDuration == Share(tasks, evs, i, |evs|)
    ensures weightedTotal == TotalShare(tasks, evs, |tasks|, |evs|)
  {
    hide Share, Tick, Schedule, ValidTasks, TasksOf, TotalShare, SweepInv, Part;
    weightedTotal := 0.0;
    var running: map<nat, real> := map[];
    var lastTime := evs[0].time;
    var lastWeightedTime := 0.0;
    ghost var weights := seq(|entries|, i requires 0 <= i < |entries| reads entries => entries[i].weightedDuration);
    SweepStart(evs, tasks, weights);
    for k := 0 to |evs|
      invariant lastTime == if k == 0 then evs[0].time else evs[k - 1].time
      invariant SweepInv(evs, tasks, k, running, lastWeightedTime, weights, weightedTotal)
      invariant |weights| == |entries| == |tasks|
      invariant forall i :: 0 <= i < |entries| ==> entries[i].weightedDuration == weights[i]
    {
      var event := evs[k];
      var numRunning := |running|;
      SweepTick(evs, tasks, k, running, lastWeightedTime, weights, weightedTotal);
      ghost var before := lastWeightedTime;
      if numRunning > 0 {
        lastWeightedTime := lastWeightedTime + Part(event.time - lastTime, numRunning);
      }
      if !event.stop {
        StartStep(evs, tasks, k, running, before, weights, weightedTotal);
        running := running[event.task := lastWeightedTime];
      } else {
        StopStep(evs, tasks, k, running, before, weights, weightedTotal);
        var weightedDuration := lastWeightedTime - running[event.task];
        entries[event.task].weightedDuration := weightedDuration;
        weights := weights[event.task := weightedDuration];
        weightedTotal := weightedTotal + weightedDuration;
        running := running - {event.task};
      }
      lastTime := event.time;
    }
    SweepEnd(evs, tasks, running, lastWeightedTime, weights, weightedTotal);
    assert |running| == 0;
  }

  lemma {:induction false} SweepEnd(evs: seq<Event>, tasks: seq<Task>, running: map<nat, real>, clock: real,
                                    weights: seq<real>, total: real)
    requires ValidTasks(tasks) && Schedule(evs, tasks) && SweepInv(evs, tasks, |evs|, running, clock, weights, total)
    ensures |running| == 0 && |weights| == |tasks|
    ensures forall i :: 0 <= i < |tasks| ==> weights[i] == Share(tasks, evs, i, |evs|)
    ensures total == TotalShare(tasks, evs, |tasks|, |evs|)
  {
    hide Share, DoneTotal, TotalShare, Stopped, Schedule;
    AllDone(evs, tasks, |tasks|);
    NothingLeftRunning(evs, tasks);
    assert |running| == |running.Keys|;
  }

  lemma {:induction false} SweepStart(evs: seq<Event>, tasks: seq<Task>, weights: seq<real>)
    requires |weights| == |tasks|
    ensures SweepInv(evs, tasks, 0, map[], 0.0, weights, 0.0)
  {
    NothingDone(evs, tasks, |tasks|);
  }

  /** Reads every target's weighted duration, as the grouping of the report does. */
  method ReportedDurations(entries: seq<Target>) returns (reported: seq<real>)
    requires forall i :: 0 <= i < |entries| ==> entries[i].weightedDuration <= entries[i].Duration()
    ensures |reported| == |entries|
    ensures forall i :: 0 <= i < |entries| ==> reported[i] == entries[i].weightedDuration
  {
    reported := [];
    for n := 0 to |entries|
      invariant |reported| == n && forall i :: 0 <= i < n ==> reported[i] == entries[i].weightedDuration
    {
      var weightedDuration := entries[n].WeightedDuration();
      reported := reported + [weightedDuration];
    }
  }

  /** The computation behind the report: `reported` is what each target's `WeightedDuration` gives, its assertion
      included. */
  method SummarizeEntries(entries: seq<Target>)
    returns (length: real, weightedTotal: real, totalCpuTime: real, reported: seq<real>)
    requires ValidTasks(TasksOf(entries))
    requires forall i, j :: 0 <= i < j < |entries| ==> entries[i] != entries[j]
    modifies entries
    ensures var tasks := TasksOf(entries);
            var evs := Sort(EventsOf(tasks, |tasks|));
            && Schedule(evs, tasks) && |evs| == 2 * |tasks|
            && (forall i :: 0 <= i < |entries| ==> entries[i].weightedDuration == Share(tasks, evs, i, |evs|))
            && weightedTotal == TotalShare(tasks, evs, |tasks|, |evs|)
            && length == evs[|evs| - 1].time - evs[0].time
            && totalCpuTime == ParallelTime(tasks, evs, |evs|)
            && weightedTotal <= length
            && (weightedTotal == length
                <==> forall x: real :: evs[0].time <= x < evs[|evs| - 1].time ==> Busy(tasks, x))
    ensures |reported| == |entries|
    ensures forall i :: 0 <= i < |entries| ==>
              && Part(entries[i].Duration(), |entries|) <= entries[i].weightedDuration <= entries[i].Duration()
              && reported[i] == entries[i].weightedDuration
  {
    hide Share, Schedule, ValidTasks, Sort, EventsOf, TasksOf, TotalShare, Busy, Part, CpuTime, ParallelTime;
    var tasks := TasksOf(entries);
    var evs, earliest, latest;
    evs, earliest, latest, totalCpuTime := CollectEvents(entries, tasks);
    evs := Sort(evs);
    SortGivesSchedule(tasks);
    length := latest - earliest;
    EndsOfSchedule(evs, tasks, earliest, latest);
    weightedTotal := Sweep(entries, tasks, evs);
    TotalAgainstLength(evs, tasks);
    CpuTimeIsParallelTime(evs, tasks);
    forall i | 0 <= i < |entries|
      ensures Part(entries[i].Duration(), |entries|) <= entries[i].weightedDuration <= entries[i].Duration()
    {
      WeightedDurationBounds(evs, tasks, i);
    }
    reported := ReportedDurations(entries);
  }
}
