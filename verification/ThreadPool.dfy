/** The thread pool with its drain-on-stop rule, as interleaved steps of submitters, workers and the
    stopper. The queue and its counter are touched only under the lock; the stop flag is not. */
module ThreadPool {

  type Task = nat

  /** A submitter: outside, or holding the lock before the checks, after them, or after the push. */
  datatype Submitter = Away | Entered(task: Task) | Admitted(task: Task) | Pushed

  /** A worker: waiting for the lock, holding it, running a task, or returned. */
  datatype Worker = Waiting | Inspecting | Running(ticket: nat) | Exited

  datatype Lock = Free | BySubmitter(p: nat) | ByWorker(w: nat)

  /** The place of a task in `accepted`, the list of all tasks ever pushed, is its ticket. `started` is
      the number taken from the queue, `finished` the tickets that have run, and `atStop` the number
      accepted when the stop flag was raised. */
  datatype Pool = Pool(
    maxQueue: nat,
    queue: seq<Task>,
    stop: bool,
    asked: set<nat>,
    lock: Lock,
    submitters: map<nat, Submitter>,
    workers: seq<Worker>,
    totalSubmitted: nat, completed: nat, failed: nat, rejected: nat,
    joined: bool,
    accepted: seq<Task>, started: nat, finished: set<nat>, atStop: nat)

  datatype Step =
    | SubmitLock(p: nat, task: Task)
    | SubmitCheck(p: nat)
    | SubmitPush(p: nat)
    | SubmitCount(p: nat)
    | WorkerLock(w: nat)
    | WorkerInspect(w: nat)
    | WorkerFinish(w: nat, ok: bool)
    | RaiseStop
    | AskStop(w: nat)
    | Join

  function SubmitterAt(x: Pool, p: nat): Submitter {
    if p in x.submitters then x.submitters[p] else Away
  }

  predicate Enabled(x: Pool, s: Step) {
    match s
    case SubmitLock(p, _) => x.lock.Free? && SubmitterAt(x, p).Away?
    case SubmitCheck(p) => SubmitterAt(x, p).Entered?
    case SubmitPush(p) => SubmitterAt(x, p).Admitted?
    case SubmitCount(p) => SubmitterAt(x, p).Pushed?
    case WorkerLock(w) => x.lock.Free? && w < |x.workers| && x.workers[w].Waiting?
    case WorkerInspect(w) => w < |x.workers| && x.workers[w].Inspecting?
    case WorkerFinish(w, _) => w < |x.workers| && x.workers[w].Running?
    case RaiseStop => !x.stop
    case AskStop(w) => x.stop && w < |x.workers|
    case Join => x.stop && !x.joined && forall w :: 0 <= w < |x.workers| ==> x.workers[w].Exited?
  }

  /** A worker with the lock: take the first task, or leave if the queue is empty and it has been
      asked to stop, or go back to waiting. */
  function Inspect(x: Pool, w: nat): Pool
    requires w < |x.workers|
  {
    if x.queue != [] then
      x.(workers := x.workers[w := Running(x.started)], queue := x.queue[1..], lock := Free,
         started := x.started + 1)
    else if w in x.asked then x.(workers := x.workers[w := Exited], lock := Free)
    else x.(workers := x.workers[w := Waiting], lock := Free)
  }

  function Next(x: Pool, s: Step): Pool
    requires Enabled(x, s)
  {
    match s
    case SubmitLock(p, task) => x.(lock := BySubmitter(p), submitters := x.submitters[p := Entered(task)])
    case SubmitCheck(p) =>
      if x.stop || (x.maxQueue > 0 && |x.queue| >= x.maxQueue) then
        x.(rejected := x.rejected + 1, lock := Free, submitters := x.submitters[p := Away])
      else x.(submitters := x.submitters[p := Admitted(x.submitters[p].task)])
    case SubmitPush(p) =>
      var task := x.submitters[p].task;
      x.(queue := x.queue + [task], accepted := x.accepted + [task], submitters := x.submitters[p := Pushed])
    case SubmitCount(p) =>
      x.(totalSubmitted := x.totalSubmitted + 1, lock := Free, submitters := x.submitters[p := Away])
    case WorkerLock(w) => x.(lock := ByWorker(w), workers := x.workers[w := Inspecting])
    case WorkerInspect(w) => Inspect(x, w)
    case WorkerFinish(w, ok) =>
      x.(completed := x.completed + if ok then 1 else 0,
         failed := x.failed + if ok then 0 else 1,
         finished := x.finished + {x.workers[w].ticket},
         workers := x.workers[w := Waiting])
    case RaiseStop => x.(stop := true, atStop := |x.accepted|)
    case AskStop(w) => x.(asked := x.asked + {w})
    case Join => x.(joined := true)
  }

  predicate CanRun(x: Pool, steps: seq<Step>)
    decreases |steps|
  {
    steps == [] || (Enabled(x, steps[0]) && CanRun(Next(x, steps[0]), steps[1..]))
  }

  function Run(x: Pool, steps: seq<Step>): Pool
    requires CanRun(x, steps)
    decreases |steps|
  {
    if steps == [] then x else Run(Next(x, steps[0]), steps[1..])
  }

  function Start(workers: nat, maxQueue: nat): Pool {
    Pool(maxQueue, [], false, {}, Free, map[], seq(workers, _ => Waiting), 0, 0, 0, 0, false, [], 0, {}, 0)
  }

  // ----- Invariant -----

  /** How many of the first `n` workers are running a task. */
  function Busy(workers: seq<Worker>, n: nat): nat
    requires n <= |workers|
  {
    if n == 0 then 0 else Busy(workers, n - 1) + if workers[n - 1].Running? then 1 else 0
  }

  ghost predicate LockOk(x: Pool) {
    && (forall p :: !SubmitterAt(x, p).Away? <==> x.lock == BySubmitter(p))
    && (forall w :: 0 <= w < |x.workers| && x.workers[w].Inspecting? ==> x.lock == ByWorker(w))
  }

  ghost predicate SomeExited(x: Pool) {
    exists w :: 0 <= w < |x.workers| && x.workers[w].Exited?
  }

  ghost predicate SomeAdmitted(x: Pool) {
    x.lock.BySubmitter? && (SubmitterAt(x, x.lock.p).Admitted? || SubmitterAt(x, x.lock.p).Pushed?)
  }

  /** The stop rule: a worker leaves only after the flag, with the queue empty and no submitter past
      its checks. */
  ghost predicate ExitOk(x: Pool) {
    && (x.asked != {} ==> x.stop)
    && (SomeExited(x) ==> x.stop && x.queue == [] && !SomeAdmitted(x))
    && (x.joined ==> forall w :: 0 <= w < |x.workers| ==> x.workers[w].Exited?)
  }

  function Pending(x: Pool): nat {
    if x.lock.BySubmitter? && SubmitterAt(x, x.lock.p).Admitted? then 1 else 0
  }

  function Uncounted(x: Pool): nat {
    if x.lock.BySubmitter? && SubmitterAt(x, x.lock.p).Pushed? then 1 else 0
  }

  /** The flag lets in at most the one task that had passed the checks. */
  ghost predicate GateOk(x: Pool) {
    && (x.stop ==> x.atStop <= |x.accepted| && |x.accepted| + Pending(x) <= x.atStop + 1)
    && x.totalSubmitted + Uncounted(x) == |x.accepted|
  }

  /** A started ticket is in one worker's hands or finished, not both. */
  ghost predicate TicketsOk(x: Pool) {
    && (forall w :: 0 <= w < |x.workers| && x.workers[w].Running? ==>
          x.workers[w].ticket < x.started && x.workers[w].ticket !in x.finished)
    && (forall v, w :: 0 <= v < w < |x.workers| && x.workers[v].Running? && x.workers[w].Running? ==>
          x.workers[v].ticket != x.workers[w].ticket)
    && (forall k :: k in x.finished ==> k < x.started)
    && (forall k :: 0 <= k < x.started ==>
          k in x.finished || exists w :: 0 <= w < |x.workers| && x.workers[w] == Running(k))
  }

  /** First in, first out, and the numbers add up. */
  ghost predicate FlowOk(x: Pool) {
    && x.started <= |x.accepted| && x.queue == x.accepted[x.started..]
    && x.started == |x.finished| + Busy(x.workers, |x.workers|)
    && x.completed + x.failed == |x.finished|
  }

  ghost predicate Inv(x: Pool) {
    LockOk(x) && ExitOk(x) && GateOk(x) && TicketsOk(x) && FlowOk(x)
  }

  lemma {:induction false} BusySet(workers: seq<Worker>, n: nat, w: nat, v: Worker)
    requires n <= |workers| && w < |workers|
    ensures Busy(workers[w := v], n)
            == Busy(workers, n) + if w < n then (if v.Running? then 1 else 0) - (if workers[w].Running? then 1 else 0) else 0
  {
    if n > 0 {
      BusySet(workers, n - 1, w, v);
    }
  }

  lemma NextLockOk(x: Pool, s: Step)
    requires LockOk(x) && Enabled(x, s)
    ensures LockOk(Next(x, s))
  {
  }

  lemma NextGateOk(x: Pool, s: Step)
    requires LockOk(x) && GateOk(x) && Enabled(x, s)
    ensures GateOk(Next(x, s))
  {
  }

  lemma NextExitOk(x: Pool, s: Step)
    requires LockOk(x) && ExitOk(x) && Enabled(x, s)
    ensures ExitOk(Next(x, s))
  {
    var x' := Next(x, s);
    if s.WorkerInspect? {
      assert x.lock == ByWorker(s.w);
      assert SomeExited(x') ==> SomeExited(x) || x'.workers[s.w].Exited?;
    } else {
      assert SomeExited(x') ==> SomeExited(x);
    }
  }

  /** One worker's step: take the next ticket, finish its own, or do neither. */
  lemma WorkerTicketsOk(x: Pool, x': Pool, w: nat)
    requires TicketsOk(x) && w < |x.workers| == |x'.workers| && x'.workers == x.workers[w := x'.workers[w]]
    requires || (x'.workers[w] == Running(x.started) && x'.started == x.started + 1 && x'.finished == x.finished
                 && !x.workers[w].Running?)
             || (!x'.workers[w].Running? && x'.started == x.started
                 && x'.finished == x.finished + if x.workers[w].Running? then {x.workers[w].ticket} else {})
    ensures TicketsOk(x')
  {
    forall k | 0 <= k < x'.started
      ensures k in x'.finished || exists v :: 0 <= v < |x'.workers| && x'.workers[v] == Running(k)
    {
      if k == x.started {
        assert x'.workers[w] == Running(k);
      } else if k !in x'.finished {
        var v :| 0 <= v < |x.workers| && x.workers[v] == Running(k);
        assert x'.workers[v] == Running(k);
      }
    }
  }

  lemma NextTicketsOk(x: Pool, s: Step)
    requires TicketsOk(x) && Enabled(x, s)
    ensures TicketsOk(Next(x, s))
  {
    if s.WorkerLock? || s.WorkerInspect? || s.WorkerFinish? {
      WorkerTicketsOk(x, Next(x, s), s.w);
    } else {
      var x' := Next(x, s);
      assert x'.workers == x.workers && x'.started == x.started && x'.finished == x.finished;
    }
  }

  lemma FinishFlowOk(x: Pool, s: Step)
    requires TicketsOk(x) && FlowOk(x) && Enabled(x, s) && s.WorkerFinish?
    ensures FlowOk(Next(x, s))
  {
    BusySet(x.workers, |x.workers|, s.w, Waiting);
    assert x.workers[s.w].ticket !in x.finished;
  }

  lemma InspectFlowOk(x: Pool, w: nat)
    requires FlowOk(x) && w < |x.workers| && x.workers[w].Inspecting?
    ensures FlowOk(Inspect(x, w))
  {
    BusySet(x.workers, |x.workers|, w, Inspect(x, w).workers[w]);
  }

  lemma NextFlowOk(x: Pool, s: Step)
    requires TicketsOk(x) && FlowOk(x) && Enabled(x, s)
    ensures FlowOk(Next(x, s))
  {
    if s.WorkerFinish? {
      FinishFlowOk(x, s);
    } else if s.WorkerInspect? {
      InspectFlowOk(x, s.w);
    } else if s.WorkerLock? {
      BusySet(x.workers, |x.workers|, s.w, Inspecting);
    } else if s.SubmitPush? {
      var task := x.submitters[s.p].task;
      assert (x.accepted + [task])[x.started..] == x.accepted[x.started..] + [task];
    }
  }

  lemma NextInv(x: Pool, s: Step)
    requires Inv(x) && Enabled(x, s)
    ensures Inv(Next(x, s))
  {
    NextLockOk(x, s);
    NextExitOk(x, s);
    NextGateOk(x, s);
    NextTicketsOk(x, s);
    NextFlowOk(x, s);
  }

  lemma {:induction false} RunKeepsInv(x: Pool, steps: seq<Step>)
    requires Inv(x) && CanRun(x, steps)
    ensures Inv(Run(x, steps))
    decreases |steps|
  {
    if steps != [] {
      NextInv(x, steps[0]);
      RunKeepsInv(Next(x, steps[0]), steps[1..]);
    }
  }

  lemma {:induction false} NoneBusy(workers: seq<Worker>, n: nat)
    requires n <= |workers| && forall w :: 0 <= w < n ==> !workers[w].Running?
    ensures Busy(workers, n) == 0
  {
    if n > 0 {
      NoneBusy(workers, n - 1);
    }
  }

  lemma StartInv(workers: nat, maxQueue: nat)
    ensures Inv(Start(workers, maxQueue))
  {
    NoneBusy(Start(workers, maxQueue).workers, workers);
  }

  // ----- Theorems -----

  /** Throughout every run: tasks are taken in acceptance order; each accepted task is queued, in the
      hands of exactly one worker, or finished once; and the counters agree with that. */
  lemma NothingLostNothingTwice(workers: nat, maxQueue: nat, steps: seq<Step>)
    requires CanRun(Start(workers, maxQueue), steps)
    ensures var x := Run(Start(workers, maxQueue), steps);
            && x.started <= |x.accepted| && x.queue == x.accepted[x.started..]
            && TicketsOk(x)
            && |x.accepted| == |x.queue| + Busy(x.workers, |x.workers|) + x.completed + x.failed
  {
    StartInv(workers, maxQueue);
    RunKeepsInv(Start(workers, maxQueue), steps);
  }

  lemma AcceptsNothing(x: Pool, s: Step)
    requires Inv(x) && SomeExited(x) && Enabled(x, s)
    ensures Next(x, s).accepted == x.accepted && SomeExited(Next(x, s))
  {
    var w :| 0 <= w < |x.workers| && x.workers[w].Exited?;
    assert Next(x, s).workers[w].Exited?;
    assert forall p :: SubmitterAt(x, p).Admitted? ==> x.lock == BySubmitter(p);
  }

  /** Once any worker has returned, the queue is empty, and in every continuation nothing is ever
      accepted again. */
  lemma {:induction false} NothingAfterExit(x: Pool, steps: seq<Step>)
    requires Inv(x) && SomeExited(x) && CanRun(x, steps)
    ensures Run(x, steps).queue == [] && Run(x, steps).accepted == x.accepted
    decreases |steps|
  {
    if steps != [] {
      NextInv(x, steps[0]);
      AcceptsNothing(x, steps[0]);
      NothingAfterExit(Next(x, steps[0]), steps[1..]);
    }
  }

  /** When the stopper has joined the workers, every accepted task has been taken in order and has
      run exactly once, and the stop flag let in at most one task after it was raised. */
  lemma DrainedWhenJoined(workers: nat, maxQueue: nat, steps: seq<Step>)
    requires workers > 0 && CanRun(Start(workers, maxQueue), steps)
    requires Run(Start(workers, maxQueue), steps).joined
    ensures var x := Run(Start(workers, maxQueue), steps);
            && x.queue == [] && x.started == |x.accepted|
            && (forall k :: 0 <= k < |x.accepted| <==> k in x.finished)
            && x.totalSubmitted == |x.accepted| == |x.finished| == x.completed + x.failed
            && x.atStop <= |x.accepted| <= x.atStop + 1
  {
    var x := Run(Start(workers, maxQueue), steps);
    StartInv(workers, maxQueue);
    RunKeepsInv(Start(workers, maxQueue), steps);
    WorkerCount(Start(workers, maxQueue), steps);
    assert x.workers[0].Exited?;
    NoneBusy(x.workers, |x.workers|);
  }

  lemma {:induction false} WorkerCount(x: Pool, steps: seq<Step>)
    requires CanRun(x, steps)
    ensures |Run(x, steps).workers| == |x.workers|
    decreases |steps|
  {
    if steps != [] {
      WorkerCount(Next(x, steps[0]), steps[1..]);
    }
  }

  // ----- Admission -----

  /** At this check the pool must turn the task away: it is stopping, or a limited queue is full. */
  predicate MustReject(x: Pool) {
    x.stop || (x.maxQueue > 0 && |x.queue| >= x.maxQueue)
  }

  /** How many checks of the run had to reject, and how many had to admit. */
  function Rejections(x: Pool, steps: seq<Step>): nat
    requires CanRun(x, steps)
    decreases |steps|
  {
    if steps == [] then 0
    else (if steps[0].SubmitCheck? && MustReject(x) then 1 else 0) + Rejections(Next(x, steps[0]), steps[1..])
  }

  function Admissions(x: Pool, steps: seq<Step>): nat
    requires CanRun(x, steps)
    decreases |steps|
  {
    if steps == [] then 0
    else (if steps[0].SubmitCheck? && !MustReject(x) then 1 else 0) + Admissions(Next(x, steps[0]), steps[1..])
  }

  function Begun(steps: seq<Step>): nat {
    if steps == [] then 0 else (if steps[0].SubmitLock? then 1 else 0) + Begun(steps[1..])
  }

  /** The lock is held by a submitter that has not pushed yet. */
  function Unpushed(x: Pool): nat {
    if x.lock.BySubmitter? && (SubmitterAt(x, x.lock.p).Entered? || SubmitterAt(x, x.lock.p).Admitted?) then 1 else 0
  }

  ghost predicate QueueOk(x: Pool) {
    x.maxQueue > 0 ==> |x.queue| + Pending(x) <= x.maxQueue
  }

  lemma NextAdmission(x: Pool, s: Step)
    requires LockOk(x) && Enabled(x, s)
    ensures var x' := Next(x, s);
            && (QueueOk(x) ==> QueueOk(x')) && x'.maxQueue == x.maxQueue
            && x'.rejected == x.rejected + (if s.SubmitCheck? && MustReject(x) then 1 else 0)
            && |x'.accepted| + Pending(x') == |x.accepted| + Pending(x) + (if s.SubmitCheck? && !MustReject(x) then 1 else 0)
            && |x'.accepted| + x'.rejected + Unpushed(x')
               == |x.accepted| + x.rejected + Unpushed(x) + (if s.SubmitLock? then 1 else 0)
  {
  }

  lemma {:induction false} RunAdmission(x: Pool, steps: seq<Step>)
    requires LockOk(x) && QueueOk(x) && CanRun(x, steps)
    ensures var x' := Run(x, steps);
            && QueueOk(x') && x'.maxQueue == x.maxQueue
            && x'.rejected == x.rejected + Rejections(x, steps)
            && |x'.accepted| + Pending(x') == |x.accepted| + Pending(x) + Admissions(x, steps)
            && |x'.accepted| + x'.rejected + Unpushed(x') == |x.accepted| + x.rejected + Unpushed(x) + Begun(steps)
    decreases |steps|
  {
    if steps != [] {
      NextLockOk(x, steps[0]);
      NextAdmission(x, steps[0]);
      RunAdmission(Next(x, steps[0]), steps[1..]);
    }
  }

  /** In every run: a limited queue never exceeds its limit; exactly the submissions whose check found the
      pool stopping or the queue full were rejected, and exactly the others admitted; and every submission
      begun is accepted, rejected, or the one still holding the lock. */
  lemma AdmissionExact(workers: nat, maxQueue: nat, steps: seq<Step>)
    requires CanRun(Start(workers, maxQueue), steps)
    ensures var x := Run(Start(workers, maxQueue), steps);
            && (maxQueue > 0 ==> |x.queue| <= maxQueue)
            && x.rejected == Rejections(Start(workers, maxQueue), steps)
            && |x.accepted| + Pending(x) == Admissions(Start(workers, maxQueue), steps)
            && Begun(steps) == |x.accepted| + x.rejected + Unpushed(x)
  {
    StartInv(workers, maxQueue);
    RunAdmission(Start(workers, maxQueue), steps);
  }

  // ----- Outcomes -----

  /** How many tasks ended well, or badly, in the run. */
  function Ended(steps: seq<Step>, ok: bool): nat {
    if steps == [] then 0 else (if steps[0].WorkerFinish? && steps[0].ok == ok then 1 else 0) + Ended(steps[1..], ok)
  }

  lemma {:induction false} OutcomesCounted(x: Pool, steps: seq<Step>)
    requires CanRun(x, steps)
    ensures Run(x, steps).completed == x.completed + Ended(steps, true)
    ensures Run(x, steps).failed == x.failed + Ended(steps, false)
    decreases |steps|
  {
    if steps != [] {
      OutcomesCounted(Next(x, steps[0]), steps[1..]);
    }
  }

  /** A worker with the lock takes the first task of the queue if there is one. */
  lemma InspectionTakes(x: Pool, w: nat)
    requires Inv(x) && Enabled(x, WorkerInspect(w)) && x.queue != []
    ensures var x' := Next(x, WorkerInspect(w));
            && x'.workers[w] == Running(x.started) && x.started < |x.accepted|
            && x.queue[0] == x.accepted[x.started] && x'.queue == x.queue[1..]
  {
  }

  // ----- The stop can always be completed -----

  lemma {:induction false} RunAppend(x: Pool, a: seq<Step>, b: seq<Step>)
    requires CanRun(x, a) && CanRun(Run(x, a), b)
    ensures CanRun(x, a + b) && Run(x, a + b) == Run(Run(x, a), b)
    decreases |a|
  {
    if a == [] {
      assert a + b == b;
    } else {
      RunAppend(Next(x, a[0]), a[1..], b);
      assert (a + b)[1..] == a[1..] + b;
    }
  }

  lemma Then(x: Pool, a: seq<Step>, s: Step) returns (b: seq<Step>)
    requires CanRun(x, a) && Enabled(Run(x, a), s)
    ensures b == a + [s] && CanRun(x, b) && Run(x, b) == Next(Run(x, a), s)
  {
    b := a + [s];
    assert [s][1..] == [];
    RunAppend(x, a, [s]);
  }

  /** A worker that owns the lock is inspecting the queue. */
  ghost predicate LockHeld(x: Pool) {
    x.lock.ByWorker? ==> x.lock.w < |x.workers| && x.workers[x.lock.w].Inspecting?
  }

  lemma {:induction false} RunLockHeld(x: Pool, steps: seq<Step>)
    requires LockOk(x) && LockHeld(x) && CanRun(x, steps)
    ensures LockHeld(Run(x, steps))
    decreases |steps|
  {
    if steps != [] {
      NextLockOk(x, steps[0]);
      NextLockHeld(x, steps[0]);
      RunLockHeld(Next(x, steps[0]), steps[1..]);
    }
  }

  lemma NextLockHeld(x: Pool, s: Step)
    requires LockOk(x) && LockHeld(x) && Enabled(x, s)
    ensures LockHeld(Next(x, s))
  {
  }

  /** The pool is stopping and nobody holds the lock. */
  ghost predicate Stopping(x: Pool, n: nat) {
    Inv(x) && x.stop && x.lock.Free? && |x.workers| == n && !x.joined
  }

  /** Whoever holds the lock can give it back. */
  lemma ReleaseLock(x: Pool) returns (steps: seq<Step>)
    requires Inv(x) && x.stop && LockHeld(x) && !x.joined
    ensures CanRun(x, steps) && Stopping(Run(x, steps), |x.workers|)
  {
    steps := [];
    if x.lock.BySubmitter? {
      var p := x.lock.p;
      assert !SubmitterAt(x, p).Away?;
      if SubmitterAt(x, p).Entered? {
        steps := Then(x, steps, SubmitCheck(p));
      } else {
        if SubmitterAt(x, p).Admitted? {
          steps := Then(x, steps, SubmitPush(p));
        }
        steps := Then(x, steps, SubmitCount(p));
      }
    } else if x.lock.ByWorker? {
      steps := Then(x, steps, WorkerInspect(x.lock.w));
    }
    RunKeepsInv(x, steps);
  }

  lemma {:induction false} AskAll(x: Pool, a: seq<Step>, n: nat, k: nat) returns (b: seq<Step>)
    requires CanRun(x, a) && Stopping(Run(x, a), n) && k <= n
    ensures CanRun(x, b) && Stopping(Run(x, b), n) && forall w :: 0 <= w < k ==> w in Run(x, b).asked
  {
    b := a;
    if k > 0 {
      b := AskAll(x, a, n, k - 1);
      NextInv(Run(x, b), AskStop(k - 1));
      b := Then(x, b, AskStop(k - 1));
    }
  }

  /** Everybody has been asked to stop, and the first `k` workers are not running a task. */
  ghost predicate Asked(x: Pool, n: nat, k: nat) {
    && Stopping(x, n) && k <= n && (forall w :: 0 <= w < n ==> w in x.asked)
    && forall w :: 0 <= w < k ==> !x.workers[w].Running?
  }

  lemma {:induction false} FinishAll(x: Pool, a: seq<Step>, n: nat, k: nat) returns (b: seq<Step>)
    requires CanRun(x, a) && Asked(Run(x, a), n, 0) && k <= n
    ensures CanRun(x, b) && Asked(Run(x, b), n, k)
  {
    b := a;
    if k > 0 {
      b := FinishAll(x, a, n, k - 1);
      if Run(x, b).workers[k - 1].Running? {
        NextInv(Run(x, b), WorkerFinish(k - 1, true));
        b := Then(x, b, WorkerFinish(k - 1, true));
      }
    }
  }

  /** A worker takes the next task and runs it. */
  lemma RunOne(x: Pool, a: seq<Step>, n: nat) returns (b: seq<Step>)
    requires CanRun(x, a) && Asked(Run(x, a), n, n) && n > 0 && Run(x, a).queue != []
    ensures CanRun(x, b) && Asked(Run(x, b), n, n) && |Run(x, b).queue| == |Run(x, a).queue| - 1
  {
    var y := Run(x, a);
    assert !y.workers[0].Inspecting? && !y.workers[0].Exited?;
    NextInv(y, WorkerLock(0));
    b := Then(x, a, WorkerLock(0));
    NextInv(Run(x, b), WorkerInspect(0));
    b := Then(x, b, WorkerInspect(0));
    NextInv(Run(x, b), WorkerFinish(0, true));
    b := Then(x, b, WorkerFinish(0, true));
  }

  lemma {:induction false} Drain(x: Pool, a: seq<Step>, n: nat) returns (b: seq<Step>)
    requires CanRun(x, a) && Asked(Run(x, a), n, n) && n > 0
    ensures CanRun(x, b) && Asked(Run(x, b), n, n) && Run(x, b).queue == []
    decreases |Run(x, a).queue|
  {
    b := a;
    if Run(x, a).queue != [] {
      b := RunOne(x, a, n);
      b := Drain(x, b, n);
    }
  }

  lemma {:induction false} ExitAll(x: Pool, a: seq<Step>, n: nat, k: nat) returns (b: seq<Step>)
    requires CanRun(x, a) && Asked(Run(x, a), n, n) && Run(x, a).queue == [] && k <= n
    ensures CanRun(x, b) && Asked(Run(x, b), n, n) && Run(x, b).queue == []
    ensures forall w :: 0 <= w < k ==> Run(x, b).workers[w].Exited?
  {
    b := a;
    if k > 0 {
      b := ExitAll(x, a, n, k - 1);
      var y := Run(x, b);
      if !y.workers[k - 1].Exited? {
        assert y.workers[k - 1].Waiting?;
        NextInv(y, WorkerLock(k - 1));
        b := Then(x, b, WorkerLock(k - 1));
        NextInv(Run(x, b), WorkerInspect(k - 1));
        b := Then(x, b, WorkerInspect(k - 1));
      }
    }
  }

  /** From every reachable state in which the stop flag is up, the stop can be completed: there is a way
      on in which the workers run what is left, leave and are joined. No run paints itself into a
      corner. */
  lemma StopCanComplete(workers: nat, maxQueue: nat, steps: seq<Step>) returns (more: seq<Step>)
    requires workers > 0 && CanRun(Start(workers, maxQueue), steps)
    requires Run(Start(workers, maxQueue), steps).stop && !Run(Start(workers, maxQueue), steps).joined
    ensures var x := Run(Start(workers, maxQueue), steps);
            CanRun(x, more) && Run(x, more).joined
  {
    var x0 := Start(workers, maxQueue);
    var x := Run(x0, steps);
    StartInv(workers, maxQueue);
    RunKeepsInv(x0, steps);
    RunLockHeld(x0, steps);
    WorkerCount(x0, steps);
    more := ReleaseLock(x);
    more := AskAll(x, more, workers, workers);
    more := FinishAll(x, more, workers, workers);
    more := Drain(x, more, workers);
    more := ExitAll(x, more, workers, workers);
    more := Then(x, more, Join);
  }
}
