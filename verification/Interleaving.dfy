/** The measuring goroutines of one reconcile, which share the list of results under a lock: each reads its
    metric's result in one critical section and stores the new one in a second, in any interleaving. */
module Interleaving {
  import opened Prelude
  import opened AnalysisTypes
  import opened MetricLife
  import opened AnalysisRuns
  import opened AnalysisRunProperties

  /** A goroutine: not started, holding its own copy of the result it read, or finished. */
  datatype Thread = Ready | Holding(found: Option<MetricResult>) | Done

  datatype Pool = Pool(results: seq<MetricResult>, threads: seq<Thread>)

  /** What the goroutines share and never change. */
  datatype Job = Job(tasks: seq<Task>, ask: string -> Answer, dryRuns: set<string>)

  function Start(job: Job, results: seq<MetricResult>): Pool {
    Pool(results, seq(|job.tasks|, i => Ready))
  }

  /** The next critical section of goroutine `k`. */
  function Run(job: Job, p: Pool, k: nat): Pool
    requires k < |job.tasks| == |p.threads|
  {
    match p.threads[k]
    case Ready => p.(threads := p.threads[k := Holding(Find(p.results, job.tasks[k].metric.name))])
    case Holding(found) =>
      Pool(Put(p.results, TaskResult(job.tasks[k], found, job.ask, job.dryRuns)), p.threads[k := Done])
    case Done => p
  }

  /** `states` are the pools met when the scheduler picks the goroutines in `picks`, never one that has finished. */
  ghost predicate IsSchedule(job: Job, results: seq<MetricResult>, picks: seq<nat>, states: seq<Pool>) {
    && |states| == |picks| + 1
    && states[0] == Start(job, results)
    && forall i :: 0 <= i < |picks| ==>
         && picks[i] < |job.tasks| == |states[i].threads|
         && states[i].threads[picks[i]] != Done
         && states[i + 1] == Run(job, states[i], picks[i])
  }

  ghost predicate AllDone(p: Pool) {
    forall k :: 0 <= k < |p.threads| ==> p.threads[k] == Done
  }

  /** What goroutine `k` and its metric look like, whatever the others did. */
  ghost predicate OwnView(job: Job, init: seq<MetricResult>, p: Pool, k: nat)
    requires k < |job.tasks| == |p.threads|
  {
    var name := job.tasks[k].metric.name;
    match p.threads[k]
    case Ready => Find(p.results, name) == Find(init, name)
    case Holding(found) => found == Find(init, name) == Find(p.results, name)
    case Done => Find(p.results, name) == Some(TaskResult(job.tasks[k], Find(init, name), job.ask, job.dryRuns))
  }

  ghost predicate Independent(job: Job, init: seq<MetricResult>, p: Pool) {
    && |p.threads| == |job.tasks|
    && (forall k :: 0 <= k < |job.tasks| ==> OwnView(job, init, p, k))
    && (forall name :: (forall k :: 0 <= k < |job.tasks| ==> job.tasks[k].metric.name != name) ==>
          Find(p.results, name) == Find(init, name))
    && DistinctNames(p.results)
  }

  /** One critical section disturbs no other goroutine. */
  lemma {:induction false} RunKeepsView(job: Job, init: seq<MetricResult>, p: Pool, k: nat, j: nat)
    requires DistinctTasks(job.tasks) && Independent(job, init, p)
    requires k < |job.tasks| && j < |job.tasks| && p.threads[k] != Done
    ensures OwnView(job, init, Run(job, p, k), j)
  {
    hide TaskResult, Find, DistinctNames;
    assert OwnView(job, init, p, k) && OwnView(job, init, p, j);
    if p.threads[k].Holding? {
      var t := job.tasks[k];
      TaskResultName(t, p.threads[k].found, job.ask, job.dryRuns) by {
        FindName(init, t.metric.name);
      }
      FindPut(p.results, TaskResult(t, p.threads[k].found, job.ask, job.dryRuns), job.tasks[j].metric.name);
    }
  }

  lemma {:induction false} FindName(results: seq<MetricResult>, name: string)
    ensures Find(results, name).Some? ==> Find(results, name).value.name == name
  {
  }

  lemma {:induction false} RunKeepsIndependence(job: Job, init: seq<MetricResult>, p: Pool, k: nat)
    requires DistinctTasks(job.tasks) && Independent(job, init, p)
    requires k < |job.tasks| && p.threads[k] != Done
    ensures Independent(job, init, Run(job, p, k))
  {
    hide OwnView, TaskResult, DistinctNames, DistinctTasks;
    var p' := Run(job, p, k);
    forall j | 0 <= j < |job.tasks|
      ensures OwnView(job, init, p', j)
    {
      RunKeepsView(job, init, p, k, j);
    }
    if p.threads[k].Holding? {
      var t := job.tasks[k];
      var r := TaskResult(t, p.threads[k].found, job.ask, job.dryRuns);
      assert r.name == t.metric.name by {
        assert OwnView(job, init, p, k);
        HeldName(job, init, p, k);
      }
      PutDistinct(p.results, r);
      forall name | forall j :: 0 <= j < |job.tasks| ==> job.tasks[j].metric.name != name
        ensures Find(p'.results, name) == Find(init, name)
      {
        FindPut(p.results, r, name);
      }
    }
  }

  lemma {:induction false} HeldName(job: Job, init: seq<MetricResult>, p: Pool, k: nat)
    requires k < |job.tasks| == |p.threads| && OwnView(job, init, p, k) && p.threads[k].Holding?
    ensures TaskResult(job.tasks[k], p.threads[k].found, job.ask, job.dryRuns).name == job.tasks[k].metric.name
  {
    hide TaskResult;
    TaskResultName(job.tasks[k], p.threads[k].found, job.ask, job.dryRuns);
  }

  lemma {:induction false} ScheduleIndependent(job: Job, init: seq<MetricResult>, picks: seq<nat>, states: seq<Pool>,
      i: nat)
    requires DistinctTasks(job.tasks) && DistinctNames(init)
    requires IsSchedule(job, init, picks, states) && i <= |picks|
    ensures Independent(job, init, states[i])
  {
    hide Run, DistinctNames, DistinctTasks, Find;
    if i > 0 {
      ScheduleIndependent(job, init, picks, states, i - 1);
      RunKeepsIndependence(job, init, states[i - 1], picks[i - 1]);
    } else {
      StartIndependent(job, init);
    }
  }

  lemma {:induction false} StartIndependent(job: Job, init: seq<MetricResult>)
    requires DistinctNames(init)
    ensures Independent(job, init, Start(job, init))
  {
  }

  /** Every interleaving that lets all goroutines finish stores, for every metric, exactly what running the tasks
      one after another stores, with one result for each name: no update is lost. */
  lemma {:induction false} InterleavingIsIrrelevant(job: Job, init: seq<MetricResult>, picks: seq<nat>,
      states: seq<Pool>, name: string)
    requires DistinctTasks(job.tasks) && DistinctNames(init)
    requires IsSchedule(job, init, picks, states) && AllDone(states[|picks|])
    ensures Find(states[|picks|].results, name) == Find(RunTasks(init, job.tasks, job.ask, job.dryRuns), name)
    ensures DistinctNames(states[|picks|].results)
  {
    hide TaskResult, Find, DistinctNames;
    var last := states[|picks|];
    ScheduleIndependent(job, init, picks, states, |picks|);
    RunTasksFind(init, job.tasks, job.ask, job.dryRuns, name);
    NamedNone(job.tasks, name);
    if TaskNamed(job.tasks, name).Some? {
      NamedAt(job.tasks, name);
      var k :| 0 <= k < |job.tasks| && job.tasks[k] == TaskNamed(job.tasks, name).value;
      assert OwnView(job, init, last, k);
    }
  }

  lemma {:induction false} NamedAt(tasks: seq<Task>, name: string)
    requires TaskNamed(tasks, name).Some?
    ensures exists k :: 0 <= k < |tasks| && tasks[k] == TaskNamed(tasks, name).value
  {
    var n := |tasks| - 1;
    if tasks[n].metric.name != name {
      NamedAt(tasks[..n], name);
      var k :| 0 <= k < n && tasks[..n][k] == TaskNamed(tasks[..n], name).value;
      assert tasks[k] == TaskNamed(tasks, name).value;
    } else {
      assert tasks[n] == TaskNamed(tasks, name).value;
    }
  }

  // ---------------------------------------------------------------------------------------------
  // Waiting for all goroutines

  /** Critical sections still to come. */
  function Remaining(threads: seq<Thread>): nat {
    if threads == [] then 0 else
      Remaining(threads[..|threads| - 1])
      + match threads[|threads| - 1] case Ready => 2 case Holding(_) => 1 case Done => 0
  }

  lemma {:induction false} RemainingUpdate(threads: seq<Thread>, k: nat, t: Thread)
    requires k < |threads|
    requires (threads[k] == Ready && t.Holding?) || (threads[k].Holding? && t == Done)
    ensures Remaining(threads[k := t]) == Remaining(threads) - 1
  {
    var n := |threads| - 1;
    if k == n {
      assert threads[k := t][..n] == threads[..n];
    } else {
      assert threads[k := t][..n] == threads[..n][k := t];
      RemainingUpdate(threads[..n], k, t);
    }
  }

  lemma {:induction false} RemainingReady(n: nat)
    ensures Remaining(seq(n, i => Ready)) == 2 * n
  {
    if n > 0 {
      assert seq(n, i => Ready)[..n - 1] == seq(n - 1, i => Ready);
      RemainingReady(n - 1);
    }
  }

  lemma {:induction false} RemainingZero(threads: seq<Thread>)
    ensures Remaining(threads) == 0 <==> forall k :: 0 <= k < |threads| ==> threads[k] == Done
  {
    if threads != [] {
      RemainingZero(threads[..|threads| - 1]);
    }
  }

  /** The wait for the goroutines always ends: no schedule is longer than two critical sections for each task, and
      one is that long exactly when every goroutine has finished. */
  lemma {:induction false} EveryScheduleEnds(job: Job, init: seq<MetricResult>, picks: seq<nat>, states: seq<Pool>)
    requires IsSchedule(job, init, picks, states)
    ensures |picks| <= 2 * |job.tasks|
    ensures |picks| == 2 * |job.tasks| <==> AllDone(states[|picks|])
  {
    SectionsLeft(job, init, picks, states, |picks|);
    RemainingZero(states[|picks|].threads);
  }

  lemma {:induction false} SectionsLeft(job: Job, init: seq<MetricResult>, picks: seq<nat>, states: seq<Pool>, i: nat)
    requires IsSchedule(job, init, picks, states) && i <= |picks|
    ensures i + Remaining(states[i].threads) == 2 * |job.tasks|
  {
    if i == 0 {
      RemainingReady(|job.tasks|);
    } else {
      SectionsLeft(job, init, picks, states, i - 1);
      var p, k := states[i - 1], picks[i - 1];
      RemainingUpdate(p.threads, k, Run(job, p, k).threads[k]);
    }
  }
}
