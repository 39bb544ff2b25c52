/** The multi-GPU job scheduler as a state machine over polls of an arbitrary environment. */
module Scheduler {
  import opened Ranking

  /** A row of the GPU table; the driver numbers GPUs from 0. */
  datatype Gpu = Gpu(index: nat, memUsed: int, util: int)

  /** What one trip round the loop observes: the GPU table, and the GPUs whose process has exited. */
  datatype Poll = Poll(gpus: seq<Gpu>, exited: set<nat>)

  datatype Job = Job(config: string, gpu: nat)

  /** `launched` and `finished` are history: every job started so far in order, and the jobs that have ended. */
  datatype State = State(
    pending: seq<string>,
    running: map<nat, string>,
    launched: seq<Job>,
    finished: multiset<Job>)

  const MEM_THRESHOLD := 10000
  const UTIL_THRESHOLD := 30

  /** Indices of the GPUs below both thresholds that run no job of ours. */
  function Idle(gpus: seq<Gpu>, running: map<nat, string>): (idle: seq<nat>)
  {
    if gpus == [] then []
    else
      var (rest, g) := (Idle(gpus[..|gpus| - 1], running), gpus[|gpus| - 1]);
      if g.memUsed <= MEM_THRESHOLD && g.util <= UTIL_THRESHOLD && g.index !in running then rest + [g.index] else rest
  }

  function Slots(idle: nat, running: nat, reserveFree: bool, maxConcurrent: int): (slots: nat)
    ensures slots <= idle
    ensures slots > 0 ==> slots <= maxConcurrent - running
    ensures reserveFree && idle > 1 ==> slots < idle
    ensures running + slots < maxConcurrent ==> slots == idle - if reserveFree && idle > 1 then 1 else 0
  {
    var assignable := if reserveFree && idle > 1 then idle - 1 else idle;
    var room := maxConcurrent - running;
    if (if assignable < room then assignable else room) > 0 then (if assignable < room then assignable else room) else 0
  }

  /** Starts the oldest pending config on a GPU. */
  function LaunchFirst(s: State, gpu: nat): State
    requires s.pending != []
  {
    State(s.pending[1..], s.running[gpu := s.pending[0]], s.launched + [Job(s.pending[0], gpu)], s.finished)
  }

  /** The launch loop. */
  function Launch(s: State, idle: seq<nat>, slots: nat): State
    requires slots <= |idle|
    decreases slots
  {
    if slots > 0 && s.pending != [] then
      Launch(LaunchFirst(s, idle[0]), idle[1..], slots - 1)
    else s
  }

  /** The jobs that run on these GPUs. */
  function JobsOn(running: map<nat, string>, gpus: set<nat>): set<Job> {
    set g | g in gpus && g in running :: Job(running[g], g)
  }

  function Jobs(running: map<nat, string>): set<Job> {
    JobsOn(running, running.Keys)
  }

  function Finish(s: State, exited: set<nat>): State {
    s.(running := s.running - exited, finished := s.finished + multiset(JobsOn(s.running, exited)))
  }

  function Step(s: State, poll: Poll, reserveFree: bool, maxConcurrent: int): State {
    if poll.gpus == [] then s
    else
      var idle := Idle(poll.gpus, s.running);
      Finish(Launch(s, idle, Slots(|idle|, |s.running|, reserveFree, maxConcurrent)), poll.exited)
  }

  function Start(configs: seq<string>): State {
    State(configs, map[], [], multiset{})
  }

  /** The state after a run of polls; the loop leaves as soon as nothing is pending or running. */
  function Run(configs: seq<string>, polls: seq<Poll>, reserveFree: bool, maxConcurrent: int): State {
    if polls == [] then Start(configs)
    else
      var s := Run(configs, polls[..|polls| - 1], reserveFree, maxConcurrent);
      if s.pending == [] && s.running == map[] then s else Step(s, polls[|polls| - 1], reserveFree, maxConcurrent)
  }

  // ----- one launch loop

  /** A GPU table lists each GPU once. */
  ghost predicate DistinctGpus(gpus: seq<Gpu>) {
    forall i, j :: 0 <= i < j < |gpus| ==> gpus[i].index != gpus[j].index
  }

  /** The idle list holds exactly the GPUs under both thresholds that run no job of ours, each once. */
  lemma {:induction false} IdleIsFree(gpus: seq<Gpu>, running: map<nat, string>)
    ensures forall i :: i in Idle(gpus, running) <==>
              i !in running && exists k :: 0 <= k < |gpus| && gpus[k].index == i
                                           && gpus[k].memUsed <= MEM_THRESHOLD && gpus[k].util <= UTIL_THRESHOLD
    ensures DistinctGpus(gpus) ==> Distinct(Idle(gpus, running))
  {
    if gpus != [] {
      var (front, g) := (gpus[..|gpus| - 1], gpus[|gpus| - 1]);
      IdleIsFree(front, running);
      assert gpus == front + [g];
    }
  }

  /** These rows of the table, in ascending order, hold these GPUs. */
  ghost predicate RowsHold(gpus: seq<Gpu>, rows: seq<nat>, indices: seq<nat>) {
    && |rows| == |indices|
    && (forall i :: 0 <= i < |rows| ==> rows[i] < |gpus| && gpus[rows[i]].index == indices[i])
    && (forall i, j :: 0 <= i < j < |rows| ==> rows[i] < rows[j])
  }

  /** The idle list keeps the order of the table. */
  lemma {:induction false} IdleInTableOrder(gpus: seq<Gpu>, running: map<nat, string>) returns (rows: seq<nat>)
    ensures RowsHold(gpus, rows, Idle(gpus, running))
  {
    rows := [];
    if gpus != [] {
      hide RowsHold;
      var front := gpus[..|gpus| - 1];
      rows := IdleInTableOrder(front, running);
      MoreRows(gpus, rows, Idle(front, running));
      if Idle(gpus, running) != Idle(front, running) {
        rows := rows + [|gpus| - 1];
      }
    }
  }

  lemma {:induction false} MoreRows(gpus: seq<Gpu>, rows: seq<nat>, indices: seq<nat>)
    requires gpus != [] && RowsHold(gpus[..|gpus| - 1], rows, indices)
    ensures RowsHold(gpus, rows, indices)
    ensures RowsHold(gpus, rows + [|gpus| - 1], indices + [gpus[|gpus| - 1].index])
  {
  }

  function Configs(jobs: seq<Job>): (r: seq<string>)
    ensures |r| == |jobs|
  {
    seq(|jobs|, i requires 0 <= i < |jobs| => jobs[i].config)
  }

  /** How many jobs one launch loop starts. */
  function Started(s: State, slots: nat): nat {
    if slots < |s.pending| then slots else |s.pending|
  }

  /** The launch loop starts the oldest pending configs, in order. */
  lemma {:induction false} LaunchOrder(s: State, idle: seq<nat>, slots: nat)
    requires slots <= |idle|
    ensures var (r, n) := (Launch(s, idle, slots), Started(s, slots));
            && r.pending == s.pending[n..]
            && Configs(r.launched) == Configs(s.launched) + s.pending[..n]
            && |r.launched| == |s.launched| + n
            && r.finished == s.finished
    decreases slots
  {
    hide Configs, Launch;
    LaunchUnfolds(s, idle, slots);
    if slots > 0 && s.pending != [] {
      var (next, n) := (LaunchFirst(s, idle[0]), Started(s, slots));
      LaunchOrder(next, idle[1..], slots - 1);
      assert next.pending == s.pending[1..] && Started(next, slots - 1) == n - 1;
      ConfigsAppend(s.launched, Job(s.pending[0], idle[0]));
      SplitHead(Configs(s.launched), s.pending, n);
    } else {
      assert s.pending[..0] == [];
    }
  }

  lemma {:induction false} LaunchUnfolds(s: State, idle: seq<nat>, slots: nat)
    requires slots <= |idle|
    ensures Launch(s, idle, slots)
            == if slots > 0 && s.pending != [] then Launch(LaunchFirst(s, idle[0]), idle[1..], slots - 1) else s
  {
  }

  lemma {:induction false} ConfigsAppend(jobs: seq<Job>, job: Job)
    ensures Configs(jobs + [job]) == Configs(jobs) + [job.config]
  {
  }

  lemma {:induction false} SplitHead<T>(a: seq<T>, p: seq<T>, n: nat)
    requires 0 < n <= |p|
    ensures p[1..][n - 1..] == p[n..]
    ensures a + [p[0]] + p[1..][..n - 1] == a + p[..n]
  {
  }

  lemma {:induction false} Rejoin<T>(a: seq<T>, p: seq<T>, n: nat)
    requires n <= |p|
    ensures a + p[..n] + p[n..] == a + p
  {
    assert p == p[..n] + p[n..];
  }

  /** g is among the first n idle GPUs. */
  ghost predicate Taken(idle: seq<nat>, n: nat, g: nat)
    requires n <= |idle|
  {
    g in idle[..n]
  }

  /** Each launched job gets a free GPU of its own, and the GPUs already in use keep theirs. */
  lemma {:induction false} LaunchGpus(s: State, idle: seq<nat>, slots: nat)
    requires slots <= |idle| && Distinct(idle) && forall i :: i in idle ==> i !in s.running
    ensures var (r, n) := (Launch(s, idle, slots), Started(s, slots));
            && |r.running| == |s.running| + n
            && (forall g :: g in r.running <==> g in s.running || Taken(idle, n, g))
            && (forall g :: g in s.running ==> r.running[g] == s.running[g])
    decreases slots
  {
    hide Launch, Distinct, LaunchFirst, Taken;
    LaunchUnfolds(s, idle, slots);
    TakenMeans(idle, Started(s, slots));
    if slots > 0 && s.pending != [] {
      var (next, n) := (LaunchFirst(s, idle[0]), Started(s, slots));
      DistinctTail(idle);
      FirstGpu(s, idle);
      LaunchGpus(next, idle[1..], slots - 1);
      assert Started(next, slots - 1) == n - 1;
    }
  }

  lemma {:induction false} FirstGpu(s: State, idle: seq<nat>)
    requires s.pending != [] && idle != [] && idle[0] !in idle[1..] && forall i :: i in idle ==> i !in s.running
    ensures var next := LaunchFirst(s, idle[0]);
            && next.pending == s.pending[1..]
            && |next.running| == |s.running| + 1
            && (forall i :: i in idle[1..] ==> i !in next.running)
            && (forall g :: g in next.running <==> g in s.running || g == idle[0])
            && (forall g :: g in s.running ==> next.running[g] == s.running[g])
  {
    assert idle[0] in idle;
    forall i | i in idle[1..] ensures i in idle && i != idle[0] {
    }
  }

  lemma {:induction false} DistinctTail(idle: seq<nat>)
    requires idle != [] && Distinct(idle)
    ensures Distinct(idle[1..]) && idle[0] !in idle[1..]
  {
  }

  lemma {:induction false} TakenMeans(idle: seq<nat>, n: nat)
    requires n <= |idle|
    ensures forall g :: Taken(idle, n, g) <==> n > 0 && (g == idle[0] || Taken(idle[1..], n - 1, g))
  {
    assert n > 0 ==> idle[..n] == [idle[0]] + idle[1..][..n - 1];
  }

  lemma {:induction false} JobsMean(running: map<nat, string>, gpus: set<nat>)
    ensures forall job :: job in JobsOn(running, gpus)
                          <==> job.gpu in gpus && job.gpu in running && running[job.gpu] == job.config
  {
    forall job: Job
      ensures job in JobsOn(running, gpus) <==> job.gpu in gpus && job.gpu in running && running[job.gpu] == job.config
    {
      if job.gpu in gpus && job.gpu in running && running[job.gpu] == job.config {
        assert job == Job(running[job.gpu], job.gpu);
      }
    }
  }

  /** Starting a job on a free GPU adds that job to the running ones. */
  lemma {:induction false} JobsAdd(running: map<nat, string>, gpu: nat, config: string)
    requires gpu !in running
    ensures Job(config, gpu) !in Jobs(running)
    ensures Jobs(running[gpu := config]) == Jobs(running) + {Job(config, gpu)}
  {
    hide JobsOn;
    JobsMean(running, running.Keys);
    JobsMean(running[gpu := config], running[gpu := config].Keys);
  }

  /** Every job the launch loop starts is a running job afterwards. */
  lemma {:induction false} LaunchJobs(s: State, idle: seq<nat>, slots: nat)
    requires slots <= |idle| && Distinct(idle) && forall i :: i in idle ==> i !in s.running
    ensures var r := Launch(s, idle, slots);
            multiset(r.launched) + multiset(Jobs(s.running)) == multiset(s.launched) + multiset(Jobs(r.running))
    decreases slots
  {
    hide Jobs, Launch;
    LaunchUnfolds(s, idle, slots);
    if slots > 0 && s.pending != [] {
      var (next, r, job) := (LaunchFirst(s, idle[0]), Launch(s, idle, slots), Job(s.pending[0], idle[0]));
      assert idle[0] in idle;
      JobsAdd(s.running, idle[0], s.pending[0]);
      forall i | i in idle[1..] ensures i in idle && i != idle[0] {
      }
      LaunchJobs(next, idle[1..], slots - 1);
      Cancel(multiset(r.launched), multiset(Jobs(s.running)), multiset(s.launched), multiset(Jobs(r.running)),
             multiset{job});
    }
  }

  lemma {:induction false} Cancel<T>(a: multiset<T>, b: multiset<T>, c: multiset<T>, d: multiset<T>, x: multiset<T>)
    requires a + (b + x) == c + x + d
    ensures a + b == c + d
  {
    forall e ensures (a + b)[e] == (c + d)[e] {
      assert (a + (b + x))[e] == (c + x + d)[e];
    }
  }

  /** Finishing moves the jobs of the exited GPUs, and no others, from running to finished. */
  lemma {:induction false} FinishMoves(s: State, exited: set<nat>)
    ensures var r := Finish(s, exited);
            && multiset(Jobs(r.running)) + r.finished == multiset(Jobs(s.running)) + s.finished
            && |r.finished| + |r.running| == |s.finished| + |s.running|
            && s.finished <= r.finished
            && (forall g :: g in r.running <==> g in s.running && g !in exited)
            && (forall g :: g in r.running ==> r.running[g] == s.running[g])
  {
    hide JobsOn;
    var left := s.running - exited;
    JobsMean(s.running, s.running.Keys);
    JobsMean(s.running, exited);
    JobsMean(left, left.Keys);
    DisjointUnion(Jobs(left), JobsOn(s.running, exited), Jobs(s.running));
    JobCount(s.running);
    JobCount(left);
  }

  lemma {:induction false} DisjointUnion<T>(a: set<T>, b: set<T>, all: set<T>)
    requires a !! b && forall x :: x in all <==> x in a || x in b
    ensures multiset(all) == multiset(a) + multiset(b) && |all| == |a| + |b|
  {
    assert all == a + b;
  }

  /** A GPU holds one job, so there are as many jobs as busy GPUs. */
  lemma {:induction false} JobCount(running: map<nat, string>)
    ensures |Jobs(running)| == |running|
  {
    JobCountOn(running, running.Keys);
    assert |running| == |running.Keys|;
  }

  lemma {:induction false} JobCountOn(running: map<nat, string>, gpus: set<nat>)
    requires gpus <= running.Keys
    ensures |JobsOn(running, gpus)| == |gpus|
  {
    hide JobsOn;
    JobsMean(running, gpus);
    if gpus == {} {
      assert JobsOn(running, gpus) == {};
    } else {
      var g :| g in gpus;
      JobCountOn(running, gpus - {g});
      JobsMean(running, gpus - {g});
      assert JobsOn(running, gpus) == JobsOn(running, gpus - {g}) + {Job(running[g], g)};
    }
  }

  // ----- what one poll does

  /** The job is in the running map. */
  ghost predicate Runs(running: map<nat, string>, job: Job) {
    job.gpu in running && running[job.gpu] == job.config
  }

  /** The n oldest pending configs on the first n idle GPUs. */
  function NewJobs(s: State, idle: seq<nat>, n: nat): (jobs: seq<Job>)
    requires n <= |idle| && n <= |s.pending|
    ensures |jobs| == n
  {
    seq(n, i requires 0 <= i < n => Job(s.pending[i], idle[i]))
  }

  /** The launch loop starts the oldest configs on the first idle GPUs, and touches nothing else. */
  lemma {:induction false} LaunchMeans(s: State, idle: seq<nat>, slots: nat)
    requires slots <= |idle| && Distinct(idle) && forall i :: i in idle ==> i !in s.running
    ensures var (r, jobs) := (Launch(s, idle, slots), NewJobs(s, idle, Started(s, slots)));
            && r.launched == s.launched + jobs
            && forall job :: Runs(r.running, job) <==> Runs(s.running, job) || job in jobs
    decreases slots
  {
    hide Launch, Distinct, LaunchFirst, Runs, NewJobs;
    LaunchUnfolds(s, idle, slots);
    NewJobsMean(s, idle, Started(s, slots));
    if slots > 0 && s.pending != [] {
      var next := LaunchFirst(s, idle[0]);
      DistinctTail(idle);
      FirstGpu(s, idle);
      FirstJob(s, idle[0]);
      LaunchMeans(next, idle[1..], slots - 1);
      assert Started(next, slots - 1) == Started(s, slots) - 1;
    }
  }

  lemma {:induction false} FirstJob(s: State, gpu: nat)
    requires s.pending != [] && gpu !in s.running
    ensures var (next, started) := (LaunchFirst(s, gpu), Job(s.pending[0], gpu));
            && next.launched == s.launched + [started]
            && forall job :: Runs(next.running, job) <==> Runs(s.running, job) || job == started
  {
  }

  lemma {:induction false} NewJobsMean(s: State, idle: seq<nat>, n: nat)
    requires n <= |idle| && n <= |s.pending|
    ensures n == 0 ==> NewJobs(s, idle, n) == []
    ensures n > 0 ==>
              NewJobs(s, idle, n) == [Job(s.pending[0], idle[0])] + NewJobs(LaunchFirst(s, idle[0]), idle[1..], n - 1)
  {
  }

  /** One poll that sees GPUs: it starts as many of the oldest configs as limit, supply and reserve allow, on the
      first idle GPUs; then the jobs of the exited processes, and no others, move from running to finished. */
  lemma {:induction false} StepMeans(s: State, poll: Poll, reserveFree: bool, maxConcurrent: int) returns (n: nat)
    requires DistinctGpus(poll.gpus) && poll.gpus != []
    ensures var (r, idle) := (Step(s, poll, reserveFree, maxConcurrent), Idle(poll.gpus, s.running));
            var supply := |idle| - if reserveFree && |idle| > 1 then 1 else 0;
            && n <= |s.pending| && n <= supply && (n > 0 ==> |s.running| + n <= maxConcurrent)
            && (n == |s.pending| || n == supply || |s.running| + n >= maxConcurrent)
            && var jobs := NewJobs(s, idle, n);
               && r.pending == s.pending[n..]
               && r.launched == s.launched + jobs
               && (forall job :: Runs(r.running, job)
                                 <==> (Runs(s.running, job) || job in jobs) && job.gpu !in poll.exited)
               && (forall job :: r.finished[job]
                                 == s.finished[job]
                                    + if (Runs(s.running, job) || job in jobs) && job.gpu in poll.exited then 1 else 0)
  {
    hide Idle, Launch, Slots, DistinctGpus, Distinct, NewJobs, Runs, Finish;
    var idle := Idle(poll.gpus, s.running);
    IdleIsFree(poll.gpus, s.running);
    var slots := Slots(|idle|, |s.running|, reserveFree, maxConcurrent);
    n := Started(s, slots);
    LaunchOrder(s, idle, slots);
    LaunchMeans(s, idle, slots);
    FinishMeans(Launch(s, idle, slots), poll.exited);
  }

  lemma {:induction false} FinishMeans(s: State, exited: set<nat>)
    ensures var r := Finish(s, exited);
            && r.pending == s.pending && r.launched == s.launched
            && (forall job :: Runs(r.running, job) <==> Runs(s.running, job) && job.gpu !in exited)
            && (forall job :: r.finished[job]
                              == s.finished[job] + if Runs(s.running, job) && job.gpu in exited then 1 else 0)
  {
    hide JobsOn;
    JobsMean(s.running, exited);
  }

  // ----- safety over all runs

  /** Launched plus pending is the config list in order; every launched job is running or finished, each once, with
      its own config and GPU; and the limit holds. */
  ghost predicate Safe(s: State, configs: seq<string>, maxConcurrent: int) {
    && Configs(s.launched) + s.pending == configs
    && multiset(s.launched) == multiset(Jobs(s.running)) + s.finished
    && (|s.running| == 0 || |s.running| <= maxConcurrent)
  }

  /** In numbers: running and finished jobs add up to the launched ones. */
  lemma {:induction false} SafeCounts(s: State, configs: seq<string>, maxConcurrent: int)
    requires Safe(s, configs, maxConcurrent)
    ensures |s.running| + |s.finished| == |s.launched| && |s.launched| + |s.pending| == |configs|
    ensures s.running == map[] ==> s.finished == multiset(s.launched)
  {
    hide Jobs;
    JobCount(s.running);
    assert |multiset(s.launched)| == |s.launched|;
    assert |Configs(s.launched) + s.pending| == |s.launched| + |s.pending|;
    if s.running == map[] {
      assert Jobs(s.running) == {};
    }
  }

  /** The termination measure of the scheduler. */
  function Measure(s: State): nat {
    2 * |s.pending| + |s.running|
  }

  /** Every poll keeps the invariant, and lowers the measure by one for each launch and each finish. */
  lemma {:induction false} StepIsSafe(s: State, poll: Poll, reserveFree: bool, maxConcurrent: int, configs: seq<string>)
    requires Safe(s, configs, maxConcurrent) && DistinctGpus(poll.gpus)
    ensures var r := Step(s, poll, reserveFree, maxConcurrent);
            && Safe(r, configs, maxConcurrent)
            && |r.launched| >= |s.launched| && s.finished <= r.finished
            && Measure(r) + (|r.launched| - |s.launched|) + (|r.finished| - |s.finished|) == Measure(s)
  {
    hide Idle, Launch, Slots, DistinctGpus, Distinct, Configs, Jobs, JobsOn, Finish;
    if poll.gpus != [] {
      var idle := Idle(poll.gpus, s.running);
      IdleIsFree(poll.gpus, s.running);
      var slots := Slots(|idle|, |s.running|, reserveFree, maxConcurrent);
      LaunchIsSafe(s, idle, slots, maxConcurrent, configs);
      FinishIsSafe(Launch(s, idle, slots), poll.exited, maxConcurrent, configs);
    }
  }

  lemma {:induction false} LaunchIsSafe(s: State, idle: seq<nat>, slots: nat, maxConcurrent: int, configs: seq<string>)
    requires Safe(s, configs, maxConcurrent) && slots <= |idle| && (slots > 0 ==> slots <= maxConcurrent - |s.running|)
    requires Distinct(idle) && forall i :: i in idle ==> i !in s.running
    ensures var r := Launch(s, idle, slots);
            && Safe(r, configs, maxConcurrent) && r.finished == s.finished && |r.launched| >= |s.launched|
            && Measure(r) + (|r.launched| - |s.launched|) == Measure(s)
  {
    hide Launch, Distinct, Configs, Jobs, JobsOn;
    LaunchOrder(s, idle, slots);
    LaunchGpus(s, idle, slots);
    LaunchJobs(s, idle, slots);
    Rejoin(Configs(s.launched), s.pending, Started(s, slots));
    var r := Launch(s, idle, slots);
    Transfer(multiset(r.launched), multiset(Jobs(s.running)), multiset(s.launched), multiset(Jobs(r.running)),
             s.finished);
  }

  lemma {:induction false} Transfer<T>(a: multiset<T>, b: multiset<T>, c: multiset<T>, d: multiset<T>, x: multiset<T>)
    requires a + b == c + d && c == b + x
    ensures a == d + x
  {
    forall e ensures a[e] == (d + x)[e] {
      assert (a + b)[e] == (c + d)[e] && c[e] == (b + x)[e];
    }
  }

  lemma {:induction false} FinishIsSafe(s: State, exited: set<nat>, maxConcurrent: int, configs: seq<string>)
    requires Safe(s, configs, maxConcurrent)
    ensures var r := Finish(s, exited);
            && Safe(r, configs, maxConcurrent) && r.launched == s.launched && s.finished <= r.finished
            && Measure(r) + (|r.finished| - |s.finished|) == Measure(s)
  {
    hide Configs, Jobs, JobsOn;
    FinishMoves(s, exited);
  }

  /** No GPU already running a job is given another; with `reserveFree` a poll that saw two or more idle GPUs leaves
      one of them without a job; and jobs stay pending only when the concurrency limit or the supply of GPUs is
      exhausted. */
  lemma {:induction false} PollRespectsGpus(s: State, poll: Poll, reserveFree: bool, maxConcurrent: int)
    requires DistinctGpus(poll.gpus) && poll.gpus != []
    ensures var idle := Idle(poll.gpus, s.running);
            var r := Launch(s, idle, Slots(|idle|, |s.running|, reserveFree, maxConcurrent));
            && (forall g :: g in s.running ==> g in r.running && r.running[g] == s.running[g])
            && (reserveFree && |idle| > 1 ==> exists g :: g in idle && g !in r.running)
            && (r.pending != [] ==>
                  |r.running| >= maxConcurrent
                  || |r.running| == |s.running| + |idle| - (if reserveFree && |idle| > 1 then 1 else 0))
  {
    hide Idle, Launch, Slots, DistinctGpus, Distinct;
    var idle := Idle(poll.gpus, s.running);
    IdleIsFree(poll.gpus, s.running);
    var slots := Slots(|idle|, |s.running|, reserveFree, maxConcurrent);
    LaunchGpus(s, idle, slots);
    LaunchOrder(s, idle, slots);
    if reserveFree && |idle| > 1 {
      LastIsLeft(idle, Started(s, slots));
      assert idle[|idle| - 1] !in Launch(s, idle, slots).running;
    }
  }

  lemma {:induction false} LastIsLeft(idle: seq<nat>, n: nat)
    requires Distinct(idle) && n < |idle|
    ensures idle[|idle| - 1] in idle && !Taken(idle, n, idle[|idle| - 1])
  {
  }

  /** Over every run: jobs start once each, in config order, and when the loop leaves the finished jobs are exactly
      the launched ones. */
  lemma {:induction false} RunIsSafe(configs: seq<string>, polls: seq<Poll>, reserveFree: bool, maxConcurrent: int)
    requires forall i :: 0 <= i < |polls| ==> DistinctGpus(polls[i].gpus)
    ensures var s := Run(configs, polls, reserveFree, maxConcurrent);
            && Safe(s, configs, maxConcurrent)
            && (s.pending == [] && s.running == map[] ==>
                  Configs(s.launched) == configs && s.finished == multiset(s.launched))
            && Measure(s) + |s.launched| + |s.finished| == 2 * |configs|
  {
    hide Step, Configs, Jobs;
    var s := Run(configs, polls, reserveFree, maxConcurrent);
    if polls == [] {
      StartIsSafe(configs, maxConcurrent);
    } else {
      var front := polls[..|polls| - 1];
      RunIsSafe(configs, front, reserveFree, maxConcurrent);
      StepIsSafe(Run(configs, front, reserveFree, maxConcurrent), polls[|polls| - 1], reserveFree, maxConcurrent,
                 configs);
    }
    SafeCounts(s, configs, maxConcurrent);
  }

  lemma {:induction false} StartIsSafe(configs: seq<string>, maxConcurrent: int)
    ensures Safe(Start(configs), configs, maxConcurrent)
  {
    assert Configs([]) == [] && [] + configs == configs;
    assert Jobs(map[]) == {};
  }

  // ----- progress

  /** Some GPU of the table is free, and every process the poll can find running has exited by its end. */
  ghost predicate Clears(s: State, poll: Poll) {
    && DistinctGpus(poll.gpus)
    && (exists k :: 0 <= k < |poll.gpus| && poll.gpus[k].index !in s.running
                    && poll.gpus[k].memUsed <= MEM_THRESHOLD && poll.gpus[k].util <= UTIL_THRESHOLD)
    && (forall k :: 0 <= k < |poll.gpus| ==> poll.gpus[k].index in poll.exited)
    && (forall g :: g in s.running ==> g in poll.exited)
  }

  /** Such a poll starts a job if any is left, and leaves nothing running. */
  lemma {:induction false} ClearingStep(s: State, poll: Poll, reserveFree: bool, maxConcurrent: int)
    requires Clears(s, poll) && s.running == map[] && maxConcurrent >= 1
    ensures var r := Step(s, poll, reserveFree, maxConcurrent);
            && r.running == map[]
            && (s.pending != [] ==> |r.pending| < |s.pending|)
            && (s.pending == [] ==> r.pending == [])
  {
    hide Idle, Step, NewJobs, DistinctGpus;
    var (r, idle) := (Step(s, poll, reserveFree, maxConcurrent), Idle(poll.gpus, s.running));
    var n := StepMeans(s, poll, reserveFree, maxConcurrent);
    IdleIsFree(poll.gpus, s.running);
    var k :| 0 <= k < |poll.gpus| && poll.gpus[k].index !in s.running
             && poll.gpus[k].memUsed <= MEM_THRESHOLD && poll.gpus[k].util <= UTIL_THRESHOLD;
    assert poll.gpus[k].index in idle;
    forall g ensures g !in r.running {
      if g in r.running {
        var job := Job(r.running[g], g);
        assert Runs(r.running, job);
        NewJobsOnIdle(s, idle, n, job);
      }
    }
    assert r.running.Keys == {};
  }

  lemma {:induction false} NewJobsOnIdle(s: State, idle: seq<nat>, n: nat, job: Job)
    requires n <= |idle| && n <= |s.pending|
    ensures job in NewJobs(s, idle, n) ==> job.gpu in idle
  {
  }

  /** If every poll shows a free GPU and every process exits, one poll per config is enough: the loop then leaves with
      every job started once, in order, and finished. */
  lemma {:induction false} RunFinishes(configs: seq<string>, polls: seq<Poll>, reserveFree: bool, maxConcurrent: int)
    requires maxConcurrent >= 1
    requires forall k :: 0 <= k < |polls| ==>
               Clears(Run(configs, polls[..k], reserveFree, maxConcurrent), polls[k])
    ensures var s := Run(configs, polls, reserveFree, maxConcurrent);
            && s.running == map[]
            && |s.pending| <= (if |polls| < |configs| then |configs| - |polls| else 0)
            && (|polls| >= |configs| ==>
                  s.pending == [] && Configs(s.launched) == configs && s.finished == multiset(s.launched))
  {
    hide Step, Clears, Configs;
    if polls != [] {
      var (front, last) := (polls[..|polls| - 1], polls[|polls| - 1]);
      forall k | 0 <= k < |front| ensures Clears(Run(configs, front[..k], reserveFree, maxConcurrent), front[k]) {
        assert front[..k] == polls[..k];
      }
      RunFinishes(configs, front, reserveFree, maxConcurrent);
      ClearingStep(Run(configs, front, reserveFree, maxConcurrent), last, reserveFree, maxConcurrent);
    }
    forall k | 0 <= k < |polls| ensures DistinctGpus(polls[k].gpus) {
      ClearsDistinct(Run(configs, polls[..k], reserveFree, maxConcurrent), polls[k]);
    }
    RunIsSafe(configs, polls, reserveFree, maxConcurrent);
  }

  lemma {:induction false} ClearsDistinct(s: State, poll: Poll)
    requires Clears(s, poll)
    ensures DistinctGpus(poll.gpus)
  {
  }

  /** A poll that can be used: some running process has exited, or a config, a slot and a free GPU are there. */
  ghost predicate Useful(s: State, poll: Poll, maxConcurrent: int) {
    && poll.gpus != [] && DistinctGpus(poll.gpus)
    && ((exists g :: g in s.running && g in poll.exited)
        || (s.pending != [] && |s.running| < maxConcurrent && Idle(poll.gpus, s.running) != []))
  }

  lemma {:induction false} UsefulStep(s: State, poll: Poll, reserveFree: bool, maxConcurrent: int,
                                      configs: seq<string>)
    requires Safe(s, configs, maxConcurrent) && Useful(s, poll, maxConcurrent)
    ensures Measure(Step(s, poll, reserveFree, maxConcurrent)) < Measure(s)
  {
    hide Idle, Step, NewJobs, DistinctGpus, Safe;
    StepIsSafe(s, poll, reserveFree, maxConcurrent, configs);
    var n := StepMeans(s, poll, reserveFree, maxConcurrent);
    var r := Step(s, poll, reserveFree, maxConcurrent);
    NoSmaller(s.finished, r.finished);
    if g :| g in s.running && g in poll.exited {
      var job := Job(s.running[g], g);
      assert Runs(s.running, job);
      Smaller(s.finished, r.finished, job);
    } else {
      assert |Idle(poll.gpus, s.running)| > 0;
      assert n > 0;
    }
  }

  lemma {:induction false} Smaller<T>(a: multiset<T>, b: multiset<T>, x: T)
    requires a <= b && a[x] < b[x]
    ensures |a| < |b|
  {
    assert b == a + (b - a) && x in b - a;
  }

  lemma {:induction false} NoSmaller<T>(a: multiset<T>, b: multiset<T>)
    requires a <= b
    ensures |a| <= |b|
  {
    assert b == a + (b - a);
  }

  /** Whatever the environment does: if every poll before the end is of use, two polls per config are enough. */
  lemma {:induction false} UsefulRunEnds(configs: seq<string>, polls: seq<Poll>, reserveFree: bool, maxConcurrent: int)
    requires forall k :: 0 <= k < |polls| ==> DistinctGpus(polls[k].gpus)
    requires forall k :: 0 <= k < |polls| ==>
               var s := Run(configs, polls[..k], reserveFree, maxConcurrent);
               (s.pending == [] && s.running == map[]) || Useful(s, polls[k], maxConcurrent)
    ensures var s := Run(configs, polls, reserveFree, maxConcurrent);
            Measure(s) <= (if |polls| < 2 * |configs| then 2 * |configs| - |polls| else 0)
    ensures |polls| >= 2 * |configs| ==>
              var s := Run(configs, polls, reserveFree, maxConcurrent);
              s.pending == [] && s.running == map[] && s.finished == multiset(s.launched)
  {
    hide Step, Useful, Safe, DistinctGpus;
    if polls != [] {
      var (front, last) := (polls[..|polls| - 1], polls[|polls| - 1]);
      forall k | 0 <= k < |front|
        ensures var s := Run(configs, front[..k], reserveFree, maxConcurrent);
                (s.pending == [] && s.running == map[]) || Useful(s, front[k], maxConcurrent)
      {
        assert front[..k] == polls[..k];
      }
      UsefulRunEnds(configs, front, reserveFree, maxConcurrent);
      var s := Run(configs, front, reserveFree, maxConcurrent);
      RunIsSafe(configs, front, reserveFree, maxConcurrent);
      if !(s.pending == [] && s.running == map[]) {
        UsefulStep(s, last, reserveFree, maxConcurrent, configs);
      }
    }
    RunIsSafe(configs, polls, reserveFree, maxConcurrent);
  }

  // ----- the scheduling loop

  class JobScheduler {
    const reserveFree: bool
    const maxConcurrent: int
    var pending: seq<string>
    var running: map<nat, string>
    ghost var launched: seq<Job>
    ghost var finished: multiset<Job>

    constructor (configs: seq<string>, reserveFree: bool, maxConcurrent: int)
      ensures AsState() == Start(configs) && this.reserveFree == reserveFree && this.maxConcurrent == maxConcurrent
    {
      this.reserveFree, this.maxConcurrent := reserveFree, maxConcurrent;
      pending, running, launched, finished := configs, map[], [], multiset{};
    }

    ghost function AsState(): State
      reads this
    {
      State(pending, running, launched, finished)
    }

    /** One trip round the loop. Popping the first idle GPU and the first config never fails. */
    method PollOnce(poll: Poll)
      modifies this
      ensures AsState() == Step(old(AsState()), poll, reserveFree, maxConcurrent)
      ensures poll.gpus != [] ==> forall g :: g in poll.exited ==> g !in running
    {
      if poll.gpus == [] {
        return;
      }
      var idle := Idle(poll.gpus, running);
      var slots := Slots(|idle|, |running|, reserveFree, maxConcurrent);
      ghost var (idle0, slots0) := (idle, slots);
      while slots > 0 && pending != []
        invariant 0 <= slots <= |idle|
        invariant Launch(AsState(), idle, slots) == Launch(old(AsState()), idle0, slots0)
        decreases slots
      {
        var gpu, config := idle[0], pending[0];
        idle, pending := idle[1..], pending[1..];
        running := running[gpu := config];
        launched := launched + [Job(config, gpu)];
        slots := slots - 1;
      }
      finished := finished + multiset(JobsOn(running, poll.exited));
      running := running - poll.exited;
    }

    /** The loop over a finite run of polls; it stops early when nothing is left. */
    method ScheduleRuns(polls: seq<Poll>)
      requires exists configs :: AsState() == Start(configs)
      modifies this
      ensures AsState() == Run(old(pending), polls, reserveFree, maxConcurrent)
    {
      var k := 0;
      while k < |polls| && (pending != [] || running != map[])
        invariant k <= |polls|
        invariant AsState() == Run(old(pending), polls[..k], reserveFree, maxConcurrent)
      {
        PollOnce(polls[k]);
        k := k + 1;
        assert polls[..k][..k - 1] == polls[..k - 1];
      }
      RunStops(old(pending), polls, k, reserveFree, maxConcurrent);
    }
  }

  lemma {:induction false} RunStops(configs: seq<string>, polls: seq<Poll>, k: nat, reserveFree: bool,
                                    maxConcurrent: int)
    requires k <= |polls|
    requires var s := Run(configs, polls[..k], reserveFree, maxConcurrent);
             k == |polls| || (s.pending == [] && s.running == map[])
    ensures Run(configs, polls[..k], reserveFree, maxConcurrent) == Run(configs, polls, reserveFree, maxConcurrent)
  {
    if k == |polls| {
      assert polls[..k] == polls;
    } else {
      var front := polls[..|polls| - 1];
      assert front[..k] == polls[..k];
      RunStops(configs, front, k, reserveFree, maxConcurrent);
    }
  }
}
