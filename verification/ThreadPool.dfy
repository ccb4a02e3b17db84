/** The ingestion thread pool: a mutex, a condition variable, a FIFO of tasks and a
    set of worker threads.

    A run is an arbitrary interleaving of the atomic sections of the pool: whatever
    happens while the mutex is held is one step, and so is each call that happens
    outside it (`notify_one`, `notify_all`, running a task). A task is named by its
    place in submission order, which is also the identity of the promise made for it. */
module ThreadPool {

  /** What one worker thread is doing. `Asleep` is blocked in `cv_.wait`. */
  datatype Phase = Ready | Asleep | Running(task: nat) | Returned

  datatype Outcome = Value | Exception

  datatype Resolution = Resolution(task: nat, outcome: Outcome)

  /** `notifies` and `broadcast` are the wake-ups owed by threads that have released
      the mutex but not yet called `notify_one` or `notify_all`. */
  datatype State = State(
    queue: seq<nat>,
    stopping: bool,
    workers: seq<Phase>,
    notifies: nat,
    broadcast: bool,
    accepted: nat,
    started: seq<nat>,
    resolved: seq<Resolution>)

  datatype Step =
    | Submit
    | NotifyNobody
    | NotifyOne(w: nat)
    | SpuriousWake(w: nat)
    | WorkerSection(w: nat)
    | FinishTask(w: nat, outcome: Outcome)
    | RequestShutdown
    | NotifyAll

  function Init(threads: nat): State {
    State([], threads == 0, seq(threads, _ => Ready), 0, false, 0, [], [])
  }

  predicate SomeoneAsleep(ws: seq<Phase>) {
    exists w | 0 <= w < |ws| :: ws[w].Asleep?
  }

  predicate Enabled(s: State, step: Step) {
    match step
    case Submit => true
    case NotifyNobody => s.notifies > 0 && !SomeoneAsleep(s.workers)
    case NotifyOne(w) => s.notifies > 0 && w < |s.workers| && s.workers[w].Asleep?
    case SpuriousWake(w) => w < |s.workers| && s.workers[w].Asleep?
    case WorkerSection(w) => w < |s.workers| && s.workers[w].Ready?
    case FinishTask(w, _) => w < |s.workers| && s.workers[w].Running?
    case RequestShutdown => true
    case NotifyAll => s.broadcast
  }

  function Submitted(s: State): State {
    if s.stopping then s
    else s.(queue := s.queue + [s.accepted], accepted := s.accepted + 1, notifies := s.notifies + 1)
  }

  /** The locked part of one turn of the worker loop: block, return, or take the front task. */
  function Sectioned(s: State, w: nat): State
    requires w < |s.workers|
  {
    if s.queue == [] then
      s.(workers := s.workers[w := if s.stopping then Returned else Asleep])
    else
      s.(workers := s.workers[w := Running(s.queue[0])],
         queue := s.queue[1..],
         started := s.started + [s.queue[0]])
  }

  function Woken(ws: seq<Phase>): (r: seq<Phase>)
    ensures |r| == |ws|
    ensures forall i | 0 <= i < |ws| :: r[i] == if ws[i].Asleep? then Ready else ws[i]
  {
    seq(|ws|, i requires 0 <= i < |ws| => if ws[i].Asleep? then Ready else ws[i])
  }

  function Apply(s: State, step: Step): State
    requires Enabled(s, step)
  {
    match step
    case Submit => Submitted(s)
    case NotifyNobody => s.(notifies := s.notifies - 1)
    case NotifyOne(w) => s.(notifies := s.notifies - 1, workers := s.workers[w := Ready])
    case SpuriousWake(w) => s.(workers := s.workers[w := Ready])
    case WorkerSection(w) => Sectioned(s, w)
    case FinishTask(w, outcome) =>
      s.(workers := s.workers[w := Ready],
         resolved := s.resolved + [Resolution(s.workers[w].task, outcome)])
    case RequestShutdown =>
      if s.stopping then s else s.(stopping := true, broadcast := true)
    case NotifyAll => s.(broadcast := false, workers := Woken(s.workers))
  }

  /** The state after a schedule; a step that is not enabled does not happen. */
  function Run(s: State, steps: seq<Step>): State
    decreases |steps|
  {
    if steps == [] then s
    else
      var last := |steps| - 1;
      var before := Run(s, steps[..last]);
      if Enabled(before, steps[last]) then Apply(before, steps[last]) else before
  }

  // ---- Counting workers ----

  function Sum(ws: seq<Phase>, weight: Phase -> nat): nat {
    if ws == [] then 0 else weight(ws[0]) + Sum(ws[1..], weight)
  }

  function ReadyWeight(p: Phase): nat { if p.Ready? then 1 else 0 }

  function RunningWeight(p: Phase): nat { if p.Running? then 1 else 0 }

  function LiveWeight(p: Phase): nat { if p.Returned? then 0 else 1 }

  /** Selects the workers running a given task. */
  function RunningTask(task: nat): Phase -> nat {
    p => if p == Running(task) then 1 else 0
  }

  lemma {:induction false} SumUpdate(ws: seq<Phase>, w: nat, p: Phase, weight: Phase -> nat)
    requires w < |ws|
    ensures Sum(ws[w := p], weight) + weight(ws[w]) == Sum(ws, weight) + weight(p)
  {
    if w > 0 {
      SumUpdate(ws[1..], w - 1, p, weight);
      assert ws[w := p][1..] == ws[1..][w - 1 := p];
    } else {
      assert ws[w := p][1..] == ws[1..];
    }
  }

  lemma {:induction false} SumAtLeast(ws: seq<Phase>, w: nat, weight: Phase -> nat)
    requires w < |ws|
    ensures Sum(ws, weight) >= weight(ws[w])
  {
    if w > 0 { SumAtLeast(ws[1..], w - 1, weight); }
  }

  lemma {:induction false} SumWitness(ws: seq<Phase>, weight: Phase -> nat) returns (w: nat)
    requires Sum(ws, weight) > 0
    ensures w < |ws| && weight(ws[w]) > 0
  {
    if weight(ws[0]) > 0 {
      w := 0;
    } else {
      var v := SumWitness(ws[1..], weight);
      w := v + 1;
    }
  }

  lemma {:induction false} SumSame(ws: seq<Phase>, vs: seq<Phase>, weight: Phase -> nat)
    requires |ws| == |vs|
    requires forall i | 0 <= i < |ws| :: weight(ws[i]) == weight(vs[i])
    ensures Sum(ws, weight) == Sum(vs, weight)
  {
    if ws != [] { SumSame(ws[1..], vs[1..], weight); }
  }

  lemma {:induction false} SumZero(ws: seq<Phase>, weight: Phase -> nat)
    requires forall i | 0 <= i < |ws| :: weight(ws[i]) == 0
    ensures Sum(ws, weight) == 0
  {
    if ws != [] { SumZero(ws[1..], weight); }
  }

  // ---- The invariant ----

  function Tasks(rs: seq<Resolution>): seq<nat> {
    seq(|rs|, i requires 0 <= i < |rs| => rs[i].task)
  }

  function Times(s: seq<nat>, t: nat): nat { multiset(s)[t] }

  lemma TimesConcat(a: seq<nat>, b: seq<nat>, t: nat)
    ensures Times(a + b, t) == Times(a, t) + Times(b, t)
  {
  }

  function UpTo(n: nat): seq<nat> { seq(n, i => i) }

  /** No wake-up is lost: when a worker sleeps, every queued task is matched by a worker
      already awake or by a notification still to come. */
  ghost predicate WakeupsOwed(s: State) {
    SomeoneAsleep(s.workers) ==>
      if s.stopping then s.broadcast else |s.queue| <= s.notifies + Sum(s.workers, ReadyWeight)
  }

  /** Each started task is being run by one worker or has been resolved. */
  ghost predicate StartedOnce(s: State) {
    forall t: nat ::
      Times(s.started, t) == Sum(s.workers, RunningTask(t)) + Times(Tasks(s.resolved), t)
  }

  ghost predicate Inv(s: State) {
    && s.started + s.queue == UpTo(s.accepted)
    && StartedOnce(s)
    && WakeupsOwed(s)
    && (s.broadcast ==> s.stopping)
    && (s.workers == [] ==> s.stopping && s.accepted == 0)
    && (forall w | 0 <= w < |s.workers| :: s.workers[w].Returned? ==> s.stopping && s.queue == [])
  }

  lemma {:induction false} InitInv(threads: nat)
    ensures Inv(Init(threads))
  {
    forall t: nat ensures Sum(Init(threads).workers, RunningTask(t)) == 0 {
      SumZero(Init(threads).workers, RunningTask(t));
    }
  }

  lemma StillAsleep(ws: seq<Phase>, w: nat, p: Phase)
    requires w < |ws| && !p.Asleep?
    ensures SomeoneAsleep(ws[w := p]) ==> SomeoneAsleep(ws)
  {
    if SomeoneAsleep(ws[w := p]) {
      var v :| 0 <= v < |ws| && ws[w := p][v].Asleep?;
      assert ws[v].Asleep?;
    }
  }

  lemma StepInv(s: State, step: Step)
    requires Inv(s) && Enabled(s, step)
    ensures Inv(Apply(s, step))
  {
    var t := Apply(s, step);
    match step
    case Submit =>
      if !s.stopping {
        assert s.started + (s.queue + [s.accepted]) == (s.started + s.queue) + [s.accepted];
        assert UpTo(s.accepted + 1) == UpTo(s.accepted) + [s.accepted];
      }
    case NotifyNobody =>
    case NotifyOne(w) => WakeInv(s, w); StillAsleep(s.workers, w, Ready);
    case SpuriousWake(w) => WakeInv(s, w); StillAsleep(s.workers, w, Ready);
    case WorkerSection(w) => SectionInv(s, w);
    case FinishTask(w, outcome) => FinishInv(s, w, outcome);
    case RequestShutdown =>
    case NotifyAll =>
      forall k: nat ensures Sum(t.workers, RunningTask(k)) == Sum(s.workers, RunningTask(k)) {
        SumSame(s.workers, t.workers, RunningTask(k));
      }
      assert forall w | 0 <= w < |t.workers| :: t.workers[w].Returned? ==> s.workers[w].Returned?;
  }

  lemma RunningUpdate(ws: seq<Phase>, w: nat, p: Phase)
    requires w < |ws|
    ensures forall t: nat ::
              Sum(ws[w := p], RunningTask(t)) + RunningTask(t)(ws[w])
              == Sum(ws, RunningTask(t)) + RunningTask(t)(p)
  {
    forall t: nat
      ensures Sum(ws[w := p], RunningTask(t)) + RunningTask(t)(ws[w])
           == Sum(ws, RunningTask(t)) + RunningTask(t)(p)
    {
      SumUpdate(ws, w, p, RunningTask(t));
    }
  }

  lemma WakeInv(s: State, w: nat)
    requires w < |s.workers| && s.workers[w].Asleep?
    ensures Sum(s.workers[w := Ready], ReadyWeight) == Sum(s.workers, ReadyWeight) + 1
    ensures forall t: nat :: Sum(s.workers[w := Ready], RunningTask(t)) == Sum(s.workers, RunningTask(t))
  {
    SumUpdate(s.workers, w, Ready, ReadyWeight);
    RunningUpdate(s.workers, w, Ready);
  }

  lemma SectionInv(s: State, w: nat)
    requires Inv(s) && w < |s.workers| && s.workers[w].Ready?
    ensures Inv(Sectioned(s, w))
  {
    var t := Sectioned(s, w);
    RunningUpdate(s.workers, w, t.workers[w]);
    SumUpdate(s.workers, w, t.workers[w], ReadyWeight);
    if s.queue == [] {
      if s.stopping { StillAsleep(s.workers, w, Returned); }
    } else {
      assert t.started + t.queue == s.started + s.queue;
      StillAsleep(s.workers, w, t.workers[w]);
      forall k: nat ensures Times(t.started, k) == Times(s.started, k) + Times([s.queue[0]], k) {
        TimesConcat(s.started, [s.queue[0]], k);
      }
    }
  }

  lemma FinishInv(s: State, w: nat, outcome: Outcome)
    requires Inv(s) && w < |s.workers| && s.workers[w].Running?
    ensures Inv(Apply(s, FinishTask(w, outcome)))
  {
    var t := Apply(s, FinishTask(w, outcome));
    RunningUpdate(s.workers, w, Ready);
    SumUpdate(s.workers, w, Ready, ReadyWeight);
    StillAsleep(s.workers, w, Ready);
    var done := s.workers[w].task;
    assert Tasks(t.resolved) == Tasks(s.resolved) + [done];
    forall k: nat ensures Times(Tasks(t.resolved), k) == Times(Tasks(s.resolved), k) + Times([done], k) {
      TimesConcat(Tasks(s.resolved), [done], k);
    }
  }

  /** Every schedule, of any length and any interleaving, keeps the invariant. */
  lemma {:induction false} RunInv(threads: nat, steps: seq<Step>)
    ensures Inv(Run(Init(threads), steps))
    decreases |steps|
  {
    if steps == [] {
      InitInv(threads);
    } else {
      var last := |steps| - 1;
      RunInv(threads, steps[..last]);
      var before := Run(Init(threads), steps[..last]);
      if Enabled(before, steps[last]) { StepInv(before, steps[last]); }
    }
  }

  // ---- What the pool promises ----

  lemma {:induction false} UpToTimes(n: nat, t: nat)
    ensures Times(UpTo(n), t) == if t < n then 1 else 0
  {
    if n > 0 {
      UpToTimes(n - 1, t);
      assert UpTo(n) == UpTo(n - 1) + [n - 1];
      TimesConcat(UpTo(n - 1), [n - 1], t);
    }
  }

  /** Each accepted task is queued, running or finished, and is so exactly once. */
  lemma AcceptedTasksAreConserved(threads: nat, steps: seq<Step>, task: nat)
    ensures var s := Run(Init(threads), steps);
            Times(s.queue, task) + Sum(s.workers, RunningTask(task)) + Times(Tasks(s.resolved), task)
            == if task < s.accepted then 1 else 0
  {
    RunInv(threads, steps);
    var s := Run(Init(threads), steps);
    UpToTimes(s.accepted, task);
    TimesConcat(s.started, s.queue, task);
  }

  /** Tasks are started strictly in submission order. */
  lemma StartedInSubmissionOrder(threads: nat, steps: seq<Step>, k: nat)
    requires k < |Run(Init(threads), steps).started|
    ensures Run(Init(threads), steps).started[k] == k
  {
    RunInv(threads, steps);
    var s := Run(Init(threads), steps);
    assert (s.started + s.queue)[k] == s.started[k];
  }

  /** After shutdown has been requested no further task is ever accepted. */
  lemma {:induction false} NothingAcceptedAfterShutdown(s: State, steps: seq<Step>)
    requires s.stopping
    ensures Run(s, steps).stopping && Run(s, steps).accepted == s.accepted
    decreases |steps|
  {
    if steps != [] { NothingAcceptedAfterShutdown(s, steps[..|steps| - 1]); }
  }

  /** A shutdown was requested by one of the steps. */
  predicate ShutdownAsked(steps: seq<Step>) { RequestShutdown in steps }

  lemma StepCounts(s: State, step: Step)
    ensures step.RequestShutdown? || step.Submit? ==> Enabled(s, step)
    ensures Enabled(s, step) ==>
              && Apply(s, step).stopping == (s.stopping || step.RequestShutdown?)
              && Apply(s, step).accepted == s.accepted + if step.Submit? && !s.stopping then 1 else 0
  {
  }

  /** The flag is set exactly if the pool was made without threads or a shutdown was
      requested. */
  lemma {:induction false} StoppingExactlyWhenAsked(threads: nat, steps: seq<Step>)
    ensures Run(Init(threads), steps).stopping <==> threads == 0 || ShutdownAsked(steps)
    decreases |steps|
  {
    if steps != [] {
      var last := |steps| - 1;
      StoppingExactlyWhenAsked(threads, steps[..last]);
      StepCounts(Run(Init(threads), steps[..last]), steps[last]);
      hide Enabled, Apply, Init;
      assert steps == steps[..last] + [steps[last]];
    }
  }

  /** How many submissions come before the first shutdown request. */
  function SubmittedBeforeShutdown(steps: seq<Step>): nat {
    if steps == [] then 0
    else
      var before := steps[..|steps| - 1];
      SubmittedBeforeShutdown(before) + if steps[|steps| - 1].Submit? && !ShutdownAsked(before) then 1 else 0
  }

  /** Every submission before the first shutdown request is accepted, and no other one. */
  lemma {:induction false} AcceptedExactlyBeforeShutdown(threads: nat, steps: seq<Step>)
    ensures Run(Init(threads), steps).accepted == if threads == 0 then 0 else SubmittedBeforeShutdown(steps)
    decreases |steps|
  {
    if steps != [] {
      var last := |steps| - 1;
      AcceptedExactlyBeforeShutdown(threads, steps[..last]);
      StoppingExactlyWhenAsked(threads, steps[..last]);
      StepCounts(Run(Init(threads), steps[..last]), steps[last]);
      hide Enabled, Apply, Init, ShutdownAsked;
    }
  }

  /** A shutdown request stops the pool for good: what is accepted in the end was accepted
      before it. */
  lemma ShutdownRequestStops(threads: nat, steps: seq<Step>, i: nat)
    requires i < |steps| && steps[i] == RequestShutdown
    ensures Run(Init(threads), steps).stopping
    ensures Run(Init(threads), steps).accepted == Run(Init(threads), steps[..i]).accepted
  {
    StoppingExactlyWhenAsked(threads, steps);
    AcceptedExactlyBeforeShutdown(threads, steps);
    AcceptedExactlyBeforeShutdown(threads, steps[..i]);
    CountedUpToShutdown(steps, i);
  }

  lemma {:induction false} CountedUpToShutdown(steps: seq<Step>, i: nat)
    requires i < |steps| && steps[i] == RequestShutdown
    ensures SubmittedBeforeShutdown(steps) == SubmittedBeforeShutdown(steps[..i])
  {
    var last := |steps| - 1;
    if i < last {
      CountedUpToShutdown(steps[..last], i);
      assert steps[..last][..i] == steps[..i] && steps[..last][i] == RequestShutdown;
    }
  }

  /** Every future is resolved by the worker that was running its task, with the outcome
      of that task. */
  lemma {:induction false} ResolvedAsTheTaskEnded(threads: nat, steps: seq<Step>, k: nat) returns (i: nat, w: nat)
    requires k < |Run(Init(threads), steps).resolved|
    ensures i < |steps| && steps[i] == FinishTask(w, Run(Init(threads), steps).resolved[k].outcome)
    ensures var before := Run(Init(threads), steps[..i]);
            w < |before.workers| && before.workers[w] == Running(Run(Init(threads), steps).resolved[k].task)
    decreases |steps|
  {
    var last := |steps| - 1;
    var before := Run(Init(threads), steps[..last]);
    if k < |before.resolved| {
      i, w := ResolvedAsTheTaskEnded(threads, steps[..last], k);
      assert steps[..last][..i] == steps[..i];
      StepKeepsResolutions(before, steps[last]);
    } else {
      i := last;
      StepKeepsResolutions(before, steps[last]);
      w := steps[last].w;
    }
  }

  lemma StepKeepsResolutions(s: State, step: Step)
    ensures Enabled(s, step) ==>
              Apply(s, step).resolved
              == s.resolved + match step
                              case FinishTask(w, outcome) => [Resolution(s.workers[w].task, outcome)]
                              case _ => []
  {
  }

  /** `shutdown()` joins every worker. Once they have all returned the queue has been
      drained and every future handed out has been resolved exactly once. */
  lemma JoinedMeansDrained(threads: nat, steps: seq<Step>)
    ensures var s := Run(Init(threads), steps);
            (forall w | 0 <= w < |s.workers| :: s.workers[w].Returned?) ==>
              s.queue == []
              && forall t: nat :: Times(Tasks(s.resolved), t) == if t < s.accepted then 1 else 0
  {
    RunInv(threads, steps);
    var s := Run(Init(threads), steps);
    if forall w | 0 <= w < |s.workers| :: s.workers[w].Returned? {
      if s.workers != [] {
        assert s.workers[0].Returned?;
      } else {
        assert |s.started + s.queue| == 0;
      }
      forall t: nat ensures Times(Tasks(s.resolved), t) == if t < s.accepted then 1 else 0 {
        AcceptedTasksAreConserved(threads, steps, t);
        SumZero(s.workers, RunningTask(t));
      }
    }
  }

  ghost predicate WorkerStep(step: Step) { step.WorkerSection? || step.FinishTask? }

  /** No lost wake-up: while a task is queued, some worker can move or some thread
      still owes a notification that will wake one. */
  lemma QueuedTaskIsNeverStranded(threads: nat, steps: seq<Step>)
    requires Run(Init(threads), steps).queue != []
    ensures var s := Run(Init(threads), steps);
            || (exists step :: WorkerStep(step) && Enabled(s, step))
            || (SomeoneAsleep(s.workers) && (s.broadcast || s.notifies > 0))
  {
    RunInv(threads, steps);
    var s := Run(Init(threads), steps);
    assert |s.started + s.queue| > 0;
    if SomeoneAsleep(s.workers) && !s.broadcast && s.notifies == 0 {
      var w := SumWitness(s.workers, ReadyWeight);
      assert Enabled(s, WorkerSection(w));
    } else if !SomeoneAsleep(s.workers) {
      match s.workers[0]
      case Ready => assert Enabled(s, WorkerSection(0));
      case Running(_) => assert Enabled(s, FinishTask(0, Value));
      case Returned => assert false;
      case Asleep => assert false;
    }
  }

  /** The work left once the pool is stopping. */
  function Work(s: State): nat {
    2 * |s.queue| + Sum(s.workers, RunningWeight) + Sum(s.workers, LiveWeight)
  }

  /** From the moment the flag is set, each worker step strictly reduces the work left; no
      other step changes it. */
  lemma ShutdownMakesProgress(s: State, step: Step)
    requires Inv(s) && s.stopping && Enabled(s, step)
    ensures var t := Apply(s, step);
            && Inv(t) && t.stopping
            && (if WorkerStep(step) then Work(t) < Work(s) else Work(t) == Work(s))
            && (t.broadcast <==> s.broadcast && !step.NotifyAll?)
  {
    StepInv(s, step);
    match step
    case WorkerSection(w) => WorkAfter(s, w, Apply(s, step).workers[w]);
    case FinishTask(w, _) => WorkAfter(s, w, Ready);
    case NotifyOne(w) => WorkAfter(s, w, Ready);
    case SpuriousWake(w) => WorkAfter(s, w, Ready);
    case NotifyAll =>
      SumSame(s.workers, Woken(s.workers), RunningWeight);
      SumSame(s.workers, Woken(s.workers), LiveWeight);
    case _ =>
  }

  lemma WorkAfter(s: State, w: nat, p: Phase)
    requires w < |s.workers|
    ensures Sum(s.workers[w := p], RunningWeight) + RunningWeight(s.workers[w])
         == Sum(s.workers, RunningWeight) + RunningWeight(p)
    ensures Sum(s.workers[w := p], LiveWeight) + LiveWeight(s.workers[w]) == Sum(s.workers, LiveWeight) + LiveWeight(p)
  {
    SumUpdate(s.workers, w, p, RunningWeight);
    SumUpdate(s.workers, w, p, LiveWeight);
  }

  /** The steps that shutdown still waits for: those of the workers, and the broadcast that
      the first caller owes. */
  ghost predicate ShutdownStep(step: Step) { WorkerStep(step) || step.NotifyAll? }

  function Remaining(s: State): nat { Work(s) + if s.broadcast then 1 else 0 }

  ghost function ShutdownStepsTaken(s: State, steps: seq<Step>): nat
    decreases |steps|
  {
    if steps == [] then 0
    else
      var last := |steps| - 1;
      ShutdownStepsTaken(s, steps[..last])
      + if ShutdownStep(steps[last]) && Enabled(Run(s, steps[..last]), steps[last]) then 1 else 0
  }

  /** Nothing left to do means that every worker has returned. */
  lemma StuckMeansReturned(s: State)
    requires Inv(s) && s.stopping
    requires forall step | ShutdownStep(step) :: !Enabled(s, step)
    ensures forall w | 0 <= w < |s.workers| :: s.workers[w].Returned?
  {
    assert !Enabled(s, NotifyAll);
    assert !SomeoneAsleep(s.workers);
    forall w | 0 <= w < |s.workers| ensures s.workers[w].Returned? {
      assert !Enabled(s, WorkerSection(w)) && !Enabled(s, FinishTask(w, Value));
    }
  }

  /** Shutdown terminates, from the moment the flag is set: however the threads are
      scheduled, the workers' steps and the broadcast are at most `Remaining(s)` in number,
      and when none of them is possible any more all workers have returned. */
  lemma {:induction false} ShutdownTerminates(s: State, steps: seq<Step>)
    requires Inv(s) && s.stopping
    ensures var t := Run(s, steps);
            && Inv(t) && t.stopping
            && ShutdownStepsTaken(s, steps) + Remaining(t) <= Remaining(s)
            && ((forall step | ShutdownStep(step) :: !Enabled(t, step)) ==>
                  forall w | 0 <= w < |t.workers| :: t.workers[w].Returned?)
    decreases |steps|
  {
    if steps != [] {
      var last := |steps| - 1;
      ShutdownTerminates(s, steps[..last]);
      var before := Run(s, steps[..last]);
      hide Work, Inv, Enabled, Apply;
      if Enabled(before, steps[last]) {
        ShutdownMakesProgress(before, steps[last]);
        if steps[last].NotifyAll? { BroadcastOwed(before, steps[last]); }
      }
    }
    var t := Run(s, steps);
    if forall step | ShutdownStep(step) :: !Enabled(t, step) { StuckMeansReturned(t); }
  }

  lemma BroadcastOwed(s: State, step: Step)
    requires Enabled(s, step) && step.NotifyAll?
    ensures s.broadcast
  {
  }

  // ---- The object itself ----

  /** The pool as the source holds it. Each method is one atomic section; the ghost
      fields are the ledger the lemmas above speak about. */
  class Pool {
    var tasks: seq<nat>
    var stopping: bool
    var workers: seq<Phase>
    var submitted: nat
    ghost var notifies: nat
    ghost var broadcast: bool
    ghost var started: seq<nat>
    ghost var resolved: seq<Resolution>

    ghost function View(): State
      reads this
    {
      State(tasks, stopping, workers, notifies, broadcast, submitted, started, resolved)
    }

    constructor (threads: nat)
      ensures View() == Init(threads) && Inv(View())
      ensures tasks == [] && submitted == 0 && stopping == (threads == 0)
      ensures |workers| == threads && forall w | 0 <= w < threads :: workers[w].Ready?
    {
      tasks, stopping, submitted := [], threads == 0, 0;
      workers := seq(threads, _ => Ready);
      notifies, broadcast, started, resolved := 0, false, [], [];
      new;
      InitInv(threads);
    }

    /** The locked section of `submit`; a refused submission throws. */
    method SubmitSection() returns (ok: bool)
      requires Inv(View())
      modifies this
      ensures View() == Apply(old(View()), Submit) && Inv(View())
      ensures ok == !old(stopping)
      ensures ok ==> tasks == old(tasks) + [old(submitted)] && submitted == old(submitted) + 1
                     && notifies == old(notifies) + 1
      ensures !ok ==> tasks == old(tasks) && submitted == old(submitted) && notifies == old(notifies)
      ensures stopping == old(stopping) && broadcast == old(broadcast) && workers == old(workers)
      ensures started == old(started) && resolved == old(resolved)
    {
      StepInv(View(), Submit);
      if stopping { return false; }
      tasks, submitted := tasks + [submitted], submitted + 1;
      notifies := notifies + 1;
      ok := true;
    }

    /** The locked section of the worker loop: `cv_.wait`, then return or pop. */
    method WorkerLoopSection(w: nat)
      requires Inv(View()) && w < |workers| && workers[w].Ready?
      modifies this
      ensures View() == Apply(old(View()), WorkerSection(w)) && Inv(View())
      ensures if old(tasks) == [] then
                workers == old(workers)[w := if stopping then Returned else Asleep]
                && tasks == [] && started == old(started)
              else
                workers == old(workers)[w := Running(old(tasks)[0])]
                && old(tasks) == [old(tasks)[0]] + tasks && started == old(started) + [old(tasks)[0]]
      ensures stopping == old(stopping) && broadcast == old(broadcast) && notifies == old(notifies)
      ensures submitted == old(submitted) && resolved == old(resolved)
    {
      StepInv(View(), WorkerSection(w));
      if !(stopping || tasks != []) {
        workers := workers[w := Asleep];
      } else if stopping && tasks == [] {
        workers := workers[w := Returned];
      } else {
        var task := tasks[0];
        tasks, started := tasks[1..], started + [task];
        workers := workers[w := Running(task)];
      }
    }

    /** Running the wrapped task outside the lock resolves its promise. */
    method RunTask(w: nat, outcome: Outcome)
      requires Inv(View()) && w < |workers| && workers[w].Running?
      modifies this
      ensures View() == Apply(old(View()), FinishTask(w, outcome)) && Inv(View())
      ensures resolved == old(resolved) + [Resolution(old(workers)[w].task, outcome)]
      ensures workers == old(workers)[w := Ready] && tasks == old(tasks) && started == old(started)
      ensures stopping == old(stopping) && broadcast == old(broadcast) && notifies == old(notifies)
      ensures submitted == old(submitted)
    {
      StepInv(View(), FinishTask(w, outcome));
      resolved := resolved + [Resolution(workers[w].task, outcome)];
      workers := workers[w := Ready];
    }

    /** The locked section of `shutdown`; only the first caller goes on to join. */
    method ShutdownSection() returns (first: bool)
      requires Inv(View())
      modifies this
      ensures View() == Apply(old(View()), RequestShutdown) && Inv(View())
      ensures first == !old(stopping)
      ensures stopping && (first ==> broadcast) && (!first ==> broadcast == old(broadcast))
      ensures tasks == old(tasks) && workers == old(workers) && submitted == old(submitted)
      ensures notifies == old(notifies) && started == old(started) && resolved == old(resolved)
    {
      StepInv(View(), RequestShutdown);
      if stopping { return false; }
      stopping, broadcast := true, true;
      first := true;
    }
  }
}
