/** Starting and stopping a kernel thread (lib/luathread.c): one worker, created by
    `thread.run`, and any number of concurrent `stop` calls on its thread object. `stop` is a
    monitor method, so it runs under the object's lock; the worker only ever tries that lock. */
module ThreadStop {

  /** Exit codes: 0, -ENOEXEC, -ENXIO from the body; -EINTR when the body never ran. */
  datatype Code = Zero | NoExec | NoDevice | Interrupted

  datatype Worker =
    | NotBegun                              // created, not yet scheduled
    | Script                                // lunatik_run of the body
    | Polling(ret: Code)                    // about to ask kthread_should_stop
    | Trying(ret: Code)                     // about to try the object lock
    | Decided(locked: bool, ret: Code)      // out of the loop, about to clear its `task` field
    | Cleared(locked: bool, ret: Code)      // about to unlock if it has the lock
    | PutRuntime(ret: Code)
    | PutObject(ret: Code)
    | Exited(code: Code)

  datatype Call =
    | Pending                               // holds a handle, about to enter the monitor
    | Locked                                // in the monitor, about to read its `task` field
    | Got                                   // read a task, about to call kthread_stop
    | Waiting                               // inside kthread_stop
    | Returned(code: Code)                  // kthread_stop returned
    | NeverRan                              // -EINTR: about to clear its `task` field
    | DropRuntime                           // -EINTR: about to put the runtime
    | DropObject                            // -EINTR: about to put the thread object
    | Leaving                               // about to leave the monitor
    | Done
    | Collected                             // its handle has been finalized

  datatype Lock = Free | ByWorker | ByCall(i: nat)

  /** `others` counts the references to the runtime that do not belong to the thread. */
  datatype State = State(lock: Lock, task: bool, shouldStop: bool, worker: Worker, calls: seq<Call>, others: nat,
                         objectCount: int, runtimeCount: int, objectDrops: nat, runtimeDrops: nat)

  /** After `luathread_run`: the thread owns one reference to its object and one to its runtime,
      next to one handle for each future `stop` call. */
  function Init(n: nat, others: nat): State {
    State(Free, true, false, NotBegun, seq(n, i => Pending), others, n + 1, others + 1, 0, 0)
  }

  datatype Step =
    | Begin | ScriptReturns(ret: Code) | Check | Try | Clear | Unlock | WPutRuntime | WPutObject
    | Enter(i: nat) | Read(i: nat) | Stop(i: nat) | Wake(i: nat) | Inspect(i: nat)
    | IClear(i: nat) | IPutRuntime(i: nat) | IPutObject(i: nat) | Leave(i: nat) | Collect(i: nat)

  predicate At(s: State, i: nat, pc: Call) {
    i < |s.calls| && s.calls[i] == pc
  }

  predicate Enabled(s: State, step: Step) {
    match step
    case Begin => s.worker == NotBegun
    case ScriptReturns(ret) => s.worker == Script && ret != Interrupted
    case Check => s.worker.Polling?
    case Try => s.worker.Trying?
    case Clear => s.worker.Decided?
    case Unlock => s.worker.Cleared?
    case WPutRuntime => s.worker.PutRuntime?
    case WPutObject => s.worker.PutObject?
    case Enter(i) => At(s, i, Pending) && s.lock == Free
    case Read(i) => At(s, i, Locked)
    case Stop(i) => At(s, i, Got)
    case Wake(i) => At(s, i, Waiting) && s.worker.Exited?
    case Inspect(i) => i < |s.calls| && s.calls[i].Returned?
    case IClear(i) => At(s, i, NeverRan)
    case IPutRuntime(i) => At(s, i, DropRuntime)
    case IPutObject(i) => At(s, i, DropObject)
    case Leave(i) => At(s, i, Leaving)
    case Collect(i) => At(s, i, Done)
  }

  function Go(s: State, i: nat, pc: Call): State
    requires i < |s.calls|
  {
    s.(calls := s.calls[i := pc])
  }

  function Apply(s: State, step: Step): State
    requires Enabled(s, step)
  {
    match step
    case Begin => s.(worker := if s.shouldStop then Exited(Interrupted) else Script)
    case ScriptReturns(ret) => s.(worker := Polling(ret))
    case Check => s.(worker := if s.shouldStop then Decided(false, s.worker.ret) else Trying(s.worker.ret))
    case Try =>
      if s.lock == Free then s.(lock := ByWorker, worker := Decided(true, s.worker.ret))
      else s.(worker := Polling(s.worker.ret))
    case Clear => s.(task := false, worker := Cleared(s.worker.locked, s.worker.ret))
    case Unlock => s.(lock := if s.worker.locked then Free else s.lock, worker := PutRuntime(s.worker.ret))
    case WPutRuntime =>
      s.(worker := PutObject(s.worker.ret), runtimeCount := s.runtimeCount - 1, runtimeDrops := s.runtimeDrops + 1)
    case WPutObject =>
      s.(worker := Exited(s.worker.ret), objectCount := s.objectCount - 1, objectDrops := s.objectDrops + 1)
    case Enter(i) => Go(s, i, Locked).(lock := ByCall(i))
    case Read(i) => Go(s, i, if s.task then Got else Leaving)
    case Stop(i) => Go(s, i, Waiting).(shouldStop := true)
    case Wake(i) => Go(s, i, Returned(s.worker.code))
    case Inspect(i) => Go(s, i, if s.calls[i].code == Interrupted then NeverRan else Leaving)
    case IClear(i) => Go(s, i, DropRuntime).(task := false)
    case IPutRuntime(i) =>
      Go(s, i, DropObject).(runtimeCount := s.runtimeCount - 1, runtimeDrops := s.runtimeDrops + 1)
    case IPutObject(i) =>
      Go(s, i, Leaving).(objectCount := s.objectCount - 1, objectDrops := s.objectDrops + 1)
    case Leave(i) => Go(s, i, Done).(lock := Free)
    case Collect(i) => Go(s, i, Collected).(objectCount := s.objectCount - 1)
  }

  // ---- sums over the calls ----

  function Open(pc: Call): nat {
    if pc == Collected then 0 else 1
  }

  /** Steps a call still has to take, at most. */
  function Rank(pc: Call): nat {
    match pc
    case Pending => 11 case Locked => 10 case Got => 9 case Waiting => 8 case Returned(_) => 7
    case NeverRan => 6 case DropRuntime => 5 case DropObject => 4 case Leaving => 3 case Done => 2 case Collected => 0
  }

  function Sum(calls: seq<Call>, weight: Call -> nat): nat {
    if calls == [] then 0 else weight(calls[0]) + Sum(calls[1..], weight)
  }

  lemma {:induction false} SumUpdate(calls: seq<Call>, weight: Call -> nat, i: nat, pc: Call)
    requires i < |calls|
    ensures Sum(calls[i := pc], weight) == Sum(calls, weight) - weight(calls[i]) + weight(pc)
  {
    if i > 0 {
      SumUpdate(calls[1..], weight, i - 1, pc);
      assert calls[i := pc][1..] == calls[1..][i - 1 := pc];
    } else {
      assert calls[0 := pc][1..] == calls[1..];
    }
  }

  // ---- the invariant ----

  predicate InMonitor(pc: Call) {
    pc != Pending && pc != Done && pc != Collected
  }

  /** The lock is with exactly whoever's position says so. */
  predicate LockOk(s: State) {
    && (s.lock == ByWorker <==> (s.worker.Decided? || s.worker.Cleared?) && s.worker.locked)
    && (forall i | 0 <= i < |s.calls| :: InMonitor(s.calls[i]) <==> s.lock == ByCall(i))
    && (s.lock.ByCall? ==> s.lock.i < |s.calls|)
  }

  /** What is true of a call at each position, given the worker. */
  predicate CallOk(s: State, pc: Call) {
    match pc
    case Pending => true
    case Locked => !s.shouldStop || s.worker.Exited?
    case Got => s.task && !s.shouldStop && !s.worker.Exited?
    case Waiting => s.shouldStop && (s.worker == Exited(Interrupted) ==> s.task && s.objectDrops == 0 && s.runtimeDrops == 0)
    case Returned(c) => s.shouldStop && s.worker == Exited(c) && (c == Interrupted ==> s.task && s.objectDrops == 0 && s.runtimeDrops == 0)
    case NeverRan => s.shouldStop && s.worker == Exited(Interrupted) && s.task && s.objectDrops == 0 && s.runtimeDrops == 0
    case DropRuntime => s.shouldStop && s.worker == Exited(Interrupted) && !s.task && s.objectDrops == 0 && s.runtimeDrops == 0
    case DropObject => s.shouldStop && s.worker == Exited(Interrupted) && !s.task && s.objectDrops == 0 && s.runtimeDrops == 1
    case Leaving => !s.task && (s.shouldStop ==> s.worker.Exited?)
    case Done => !s.task && (s.shouldStop ==> s.worker.Exited?)
    case Collected => !s.task && (s.shouldStop ==> s.worker.Exited?)
  }

  predicate Cleaning(pc: Call) {
    pc == Waiting || pc == Returned(Interrupted) || pc == NeverRan || pc == DropRuntime || pc == DropObject
  }

  predicate WorkerOk(s: State) {
    && (s.shouldStop && !s.worker.Exited? ==> s.lock.ByCall? && s.lock.i < |s.calls| && s.calls[s.lock.i] == Waiting)
    && match s.worker
       case NotBegun => s.task && s.objectDrops == 0 && s.runtimeDrops == 0
       case Script => s.task && s.objectDrops == 0 && s.runtimeDrops == 0
       case Polling(c) => c != Interrupted && s.task && s.objectDrops == 0 && s.runtimeDrops == 0
       case Trying(c) => c != Interrupted && s.task && s.objectDrops == 0 && s.runtimeDrops == 0
       case Decided(l, c) => (l || s.shouldStop) && c != Interrupted && s.task && s.objectDrops == 0 && s.runtimeDrops == 0
       case Cleared(l, c) => c != Interrupted && !s.task && s.objectDrops == 0 && s.runtimeDrops == 0
       case PutRuntime(c) => c != Interrupted && !s.task && s.objectDrops == 0 && s.runtimeDrops == 0
       case PutObject(c) => c != Interrupted && !s.task && s.objectDrops == 0 && s.runtimeDrops == 1
       case Exited(c) =>
         if c != Interrupted then !s.task && s.objectDrops == 1 && s.runtimeDrops == 1
         else s.shouldStop
              && if s.lock.ByCall? && s.lock.i < |s.calls| && Cleaning(s.calls[s.lock.i]) then true
                 else !s.task && s.objectDrops == 1 && s.runtimeDrops == 1
  }

  predicate CountsOk(s: State) {
    && s.objectCount == Sum(s.calls, Open) + 1 - s.objectDrops
    && s.runtimeCount == s.others + 1 - s.runtimeDrops
  }

  predicate Inv(s: State) {
    LockOk(s) && WorkerOk(s) && CountsOk(s) && forall i | 0 <= i < |s.calls| :: CallOk(s, s.calls[i])
  }

  predicate IsWorkerStep(step: Step) {
    step.Begin? || step.ScriptReturns? || step.Check? || step.Try? || step.Clear? || step.Unlock? || step.WPutRuntime? || step.WPutObject?
  }

  lemma WorkerStepKeepsInv(s: State, step: Step)
    requires Inv(s) && Enabled(s, step) && IsWorkerStep(step)
    ensures Inv(Apply(s, step))
  {
    forall i | 0 <= i < |s.calls|
      ensures CallOk(Apply(s, step), s.calls[i])
    {
      assert CallOk(s, s.calls[i]) && (InMonitor(s.calls[i]) <==> s.lock == ByCall(i));
    }
  }

  lemma CallStepKeepsCalls(s: State, step: Step)
    requires Inv(s) && Enabled(s, step) && !IsWorkerStep(step)
    ensures forall i | 0 <= i < |s.calls| :: CallOk(Apply(s, step), Apply(s, step).calls[i])
  {
    var s' := Apply(s, step);
    assert CallOk(s, s.calls[step.i]);
    forall i | 0 <= i < |s'.calls|
      ensures CallOk(s', s'.calls[i])
    {
      assert CallOk(s, s.calls[i]) && (InMonitor(s.calls[i]) <==> s.lock == ByCall(i));
    }
  }

  lemma CallStepKeepsLock(s: State, step: Step)
    requires LockOk(s) && Enabled(s, step) && !IsWorkerStep(step)
    ensures LockOk(Apply(s, step))
  {
    var s' := Apply(s, step);
    forall i | 0 <= i < |s'.calls|
      ensures InMonitor(s'.calls[i]) <==> s'.lock == ByCall(i)
    {
      assert InMonitor(s.calls[i]) <==> s.lock == ByCall(i);
    }
  }

  lemma CallStepKeepsWorker(s: State, step: Step)
    requires Inv(s) && Enabled(s, step) && !IsWorkerStep(step)
    ensures WorkerOk(Apply(s, step)) && CountsOk(Apply(s, step))
  {
    hide WorkerOk, CountsOk;
    CallStepKeepsFlags(s, step);
    CallStepKeepsCounts(s, step);
  }

  lemma CallStepKeepsFlags(s: State, step: Step)
    requires Inv(s) && Enabled(s, step) && !IsWorkerStep(step)
    ensures WorkerOk(Apply(s, step))
  {
    assert CallOk(s, s.calls[step.i]) && (InMonitor(s.calls[step.i]) <==> s.lock == ByCall(step.i));
    hide CountsOk, Sum;
  }

  lemma CallStepKeepsCounts(s: State, step: Step)
    requires Inv(s) && Enabled(s, step) && !IsWorkerStep(step)
    ensures CountsOk(Apply(s, step))
  {
    hide WorkerOk, CallOk, Sum;
    SumUpdate(s.calls, Open, step.i, Apply(s, step).calls[step.i]);
  }

  lemma StepKeepsInv(s: State, step: Step)
    requires Inv(s) && Enabled(s, step)
    ensures Inv(Apply(s, step)) && |Apply(s, step).calls| == |s.calls| && Apply(s, step).others == s.others
  {
    if IsWorkerStep(step) {
      WorkerStepKeepsInv(s, step);
    } else {
      hide LockOk, WorkerOk, CountsOk, CallOk;
      CallStepKeepsCalls(s, step);
      CallStepKeepsLock(s, step);
      CallStepKeepsWorker(s, step);
    }
  }

  lemma {:induction false} InitOk(n: nat, others: nat)
    ensures Inv(Init(n, others)) && Sum(Init(n, others).calls, Rank) == 11 * n
  {
    if n == 0 {
    } else {
      InitOk(n - 1, others);
      assert Init(n, others).calls[1..] == Init(n - 1, others).calls;
    }
  }

  // ---- every run ----

  /** A run: the worker and `n` stop calls interleave arbitrarily. */
  predicate Linked(steps: seq<Step>, states: seq<State>, i: nat)
    requires i < |steps| && |states| == |steps| + 1
  {
    Enabled(states[i], steps[i]) && states[i + 1] == Apply(states[i], steps[i])
  }

  predicate Path(steps: seq<Step>, states: seq<State>)
    requires |states| == |steps| + 1
  {
    forall i {:trigger steps[i]} | 0 <= i < |steps| :: Linked(steps, states, i)
  }

  predicate Run(n: nat, others: nat, steps: seq<Step>, states: seq<State>) {
    && |states| == |steps| + 1
    && states[0] == Init(n, others)
    && Path(steps, states)
  }

  lemma {:induction false} RunKeepsInv(n: nat, others: nat, steps: seq<Step>, states: seq<State>, k: nat)
    requires Run(n, others, steps, states) && k <= |steps|
    ensures Inv(states[k]) && |states[k].calls| == n && states[k].others == others
  {
    if k == 0 {
      InitOk(n, others);
    } else {
      RunKeepsInv(n, others, steps, states, k - 1);
      assert Linked(steps, states, k - 1) by { var _ := steps[k - 1]; }
      StepKeepsInv(states[k - 1], steps[k - 1]);
    }
  }

  /** The thread's references are dropped at most once each whoever drops them, the counts say
      exactly who is left, and nobody who still has to touch the thread object finds it freed. */
  lemma DroppedAtMostOnce(n: nat, others: nat, steps: seq<Step>, states: seq<State>, k: nat)
    requires Run(n, others, steps, states) && k <= |steps|
    ensures var s := states[k];
            && s.objectDrops <= 1 && s.runtimeDrops <= 1
            && s.objectCount == Sum(s.calls, Open) + 1 - s.objectDrops
            && s.runtimeCount == others + 1 - s.runtimeDrops
            && (!s.worker.Exited? ==> s.objectCount >= 1)
            && (!s.worker.Exited? && !s.worker.PutObject? ==> s.runtimeCount >= 1)
            && (forall i | 0 <= i < |s.calls| && s.calls[i] != Collected :: s.objectCount >= 1)
  {
    RunKeepsInv(n, others, steps, states, k);
    var s := states[k];
    forall i | 0 <= i < |s.calls| && s.calls[i] != Collected
      ensures s.objectCount >= 1
    {
      SumAtLeast(s.calls, i);
    }
    assert s.lock.ByCall? ==> CallOk(s, s.calls[s.lock.i]);
  }

  lemma {:induction false} SumAtLeast(calls: seq<Call>, i: nat)
    requires i < |calls| && calls[i] != Collected
    ensures Sum(calls, Open) >= 1
  {
    if i == 0 {
    } else {
      SumAtLeast(calls[1..], i - 1);
    }
  }

  /** When the worker has exited and every call is over, each reference was dropped exactly once:
      the object is free and the runtime is back to its other references. */
  lemma DroppedExactlyOnce(n: nat, others: nat, steps: seq<Step>, states: seq<State>, k: nat)
    requires Run(n, others, steps, states) && k <= |steps| && Final(states[k])
    ensures var s := states[k];
            s.objectDrops == 1 && s.runtimeDrops == 1 && s.objectCount == 0 && s.runtimeCount == others && !s.task
  {
    RunKeepsInv(n, others, steps, states, k);
    SumClosed(states[k].calls);
  }

  predicate Final(s: State) {
    s.worker.Exited? && forall i | 0 <= i < |s.calls| :: s.calls[i] == Collected
  }

  lemma {:induction false} SumClosed(calls: seq<Call>)
    requires forall i | 0 <= i < |calls| :: calls[i] == Collected
    ensures Sum(calls, Open) == 0
  {
    if calls == [] {
    } else {
      SumClosed(calls[1..]);
    }
  }

  /** `kthread_stop` is only ever called on a thread that has not exited, and by one caller at a time. */
  lemma StopsALiveThread(n: nat, others: nat, steps: seq<Step>, states: seq<State>, k: nat, i: nat)
    requires Run(n, others, steps, states) && k < |steps| && steps[k] == Stop(i)
    ensures !states[k].worker.Exited? && !states[k].shouldStop
    ensures |states[k].calls| == n && forall j | 0 <= j < n && j != i :: !InMonitor(states[k].calls[j])
  {
    RunKeepsInv(n, others, steps, states, k);
    var s := states[k];
    assert CallOk(s, s.calls[i]) && InMonitor(s.calls[i]);
    forall j | 0 <= j < n && j != i
      ensures !InMonitor(s.calls[j])
    {
      assert InMonitor(s.calls[i]) <==> s.lock == ByCall(i);
    }
  }

  /** Once a stop call is over, the thread is no longer to be stopped: its body has returned or
      never ran, and if the call waited for it, it has exited. */
  lemma StopIsEffective(n: nat, others: nat, steps: seq<Step>, states: seq<State>, k: nat, i: nat)
    requires Run(n, others, steps, states) && k <= |steps| && i < |states[k].calls|
    requires states[k].calls[i] in {Leaving, Done, Collected}
    ensures !states[k].task && (states[k].shouldStop ==> states[k].worker.Exited?)
    ensures !states[k].worker.NotBegun? && !states[k].worker.Script? && !states[k].worker.Polling? && !states[k].worker.Trying?
  {
    RunKeepsInv(n, others, steps, states, k);
    assert CallOk(states[k], states[k].calls[i]);
  }

  /** Only the kernel reports -EINTR, and only for a body that never ran: the worker cleans up
      after itself exactly when the stop call does not. */
  lemma {:induction false} InterruptedMeansNeverRan(n: nat, others: nat, steps: seq<Step>, states: seq<State>, k: nat, j: nat)
    requires Run(n, others, steps, states) && j <= k <= |steps| && states[k].worker == Exited(Interrupted)
    ensures states[j].worker == NotBegun || states[j].worker == Exited(Interrupted)
    decreases k - j
  {
    if j < k {
      InterruptedMeansNeverRan(n, others, steps, states, k, j + 1);
      RunKeepsInv(n, others, steps, states, j);
      assert Linked(steps, states, j) by { var _ := steps[j]; }
    }
  }

  // ---- whether the body runs ----

  lemma StepAsks(s: State, step: Step)
    requires Enabled(s, step)
    ensures Apply(s, step).shouldStop <==> s.shouldStop || step.Stop?
  {
  }

  /** The stop flag is set exactly after some call asked the kernel for the stop. */
  lemma {:induction false} AskedIff(n: nat, others: nat, steps: seq<Step>, states: seq<State>, k: nat)
    requires Run(n, others, steps, states) && k <= |steps|
    ensures states[k].shouldStop <==> exists j | 0 <= j < k :: steps[j].Stop?
  {
    if k == 0 {
      assert states[0] == Init(n, others);
    } else {
      assert Linked(steps, states, k - 1) by { var _ := steps[k - 1]; }
      hide Apply, Enabled, Run;
      AskedIff(n, others, steps, states, k - 1);
      StepAsks(states[k - 1], steps[k - 1]);
    }
  }

  /** A thread that is scheduled runs its body if and only if no stop was asked for by then; otherwise it exits at once
      with the interrupted code. */
  lemma BodyRunsIff(n: nat, others: nat, steps: seq<Step>, states: seq<State>, k: nat)
    requires Run(n, others, steps, states) && k < |steps| && steps[k] == Begin
    ensures states[k + 1].worker == Script <==> forall j | 0 <= j < k :: !steps[j].Stop?
    ensures states[k + 1].worker != Script ==> states[k + 1].worker == Exited(Interrupted)
  {
    AskedIff(n, others, steps, states, k);
    assert Linked(steps, states, k) by { var _ := steps[k]; }
  }

  // ---- the exit code ----

  /** The worker is past its body, on its way out or out with this code. */
  predicate Brings(w: Worker, code: Code) {
    match w
    case NotBegun => false
    case Script => false
    case Exited(c) => c == code
    case _ => w.ret == code
  }

  lemma StepBrings(s: State, step: Step, code: Code)
    requires Enabled(s, step) && Brings(s.worker, code)
    ensures Brings(Apply(s, step).worker, code)
  {
  }

  lemma ReturnBrings(s: State, ret: Code)
    requires Enabled(s, ScriptReturns(ret))
    ensures Brings(Apply(s, ScriptReturns(ret)).worker, ret)
  {
  }

  lemma ToldTheSame(s: State, code: Code)
    requires Inv(s) && Brings(s.worker, code)
    ensures forall i | 0 <= i < |s.calls| && s.calls[i].Returned? :: s.calls[i].code == code
  {
  }

  /** What the body returned is what the worker exits with, and what any stop call that waited for it is told. */
  lemma {:induction false} ExitsWithItsReturn(n: nat, others: nat, steps: seq<Step>, states: seq<State>, k: nat, j: nat)
    requires Run(n, others, steps, states) && k < j <= |steps| && steps[k].ScriptReturns?
    ensures Brings(states[j].worker, steps[k].ret)
    ensures forall i | 0 <= i < |states[j].calls| && states[j].calls[i].Returned? :: states[j].calls[i].code == steps[k].ret
    decreases j
  {
    assert Linked(steps, states, j - 1) by { var _ := steps[j - 1]; }
    hide Inv, Apply, Enabled, Brings;
    if j == k + 1 {
      ReturnBrings(states[k], steps[k].ret);
    } else {
      ExitsWithItsReturn(n, others, steps, states, k, j - 1);
      StepBrings(states[j - 1], steps[j - 1], steps[k].ret);
    }
    RunKeepsInv(n, others, steps, states, j);
    ToldTheSame(states[j], steps[k].ret);
  }

  /** A worker that exits with another code than the interrupted one had a body that returned that code. */
  lemma {:induction false} ExitHadReturn(n: nat, others: nat, steps: seq<Step>, states: seq<State>, j: nat, code: Code)
    returns (k: nat)
    requires Run(n, others, steps, states) && j <= |steps| && code != Interrupted && Brings(states[j].worker, code)
    ensures k < j && steps[k] == ScriptReturns(code)
    decreases j
  {
    if j == 0 {
      assert false;
    } else {
      assert Linked(steps, states, j - 1) by { var _ := steps[j - 1]; }
      if steps[j - 1].ScriptReturns? {
        k := j - 1;
      } else {
        k := ExitHadReturn(n, others, steps, states, j - 1, code);
      }
    }
  }

  // ---- no deadlock ----

  function WorkerRank(w: Worker): nat {
    match w
    case NotBegun => 7 case Script => 6 case Polling(_) => 5 case Trying(_) => 5 case Decided(_, _) => 4
    case Cleared(_, _) => 3 case PutRuntime(_) => 2 case PutObject(_) => 1 case Exited(_) => 0
  }

  /** Steps left before everything is over, not counting rounds of the polling loop. */
  function Left(s: State): nat {
    WorkerRank(s.worker) + Sum(s.calls, Rank)
  }

  /** A fruitless look at the stop flag or the lock. */
  predicate IsSpin(s: State, step: Step) {
    (step == Check && !s.shouldStop) || (step == Try && s.lock != Free)
  }

  lemma StepDecreasesLeft(s: State, step: Step)
    requires Enabled(s, step)
    ensures if IsSpin(s, step) then Left(Apply(s, step)) == Left(s) else Left(Apply(s, step)) < Left(s)
  {
    hide Sum, Rank;
    if IsWorkerStep(step) {
      WorkerStepDecreasesRank(s, step);
    } else {
      CallStepDecreasesRank(s, step);
      CallStepKeepsWorkerRank(s, step);
    }
  }

  lemma WorkerStepDecreasesRank(s: State, step: Step)
    requires Enabled(s, step) && IsWorkerStep(step)
    ensures var s' := Apply(s, step);
            s'.calls == s.calls && if IsSpin(s, step) then WorkerRank(s'.worker) == WorkerRank(s.worker)
                                   else WorkerRank(s'.worker) < WorkerRank(s.worker)
  {
  }

  lemma CallStepKeepsWorkerRank(s: State, step: Step)
    requires Enabled(s, step) && !IsWorkerStep(step)
    ensures Apply(s, step).worker == s.worker && !IsSpin(s, step)
  {
  }

  lemma CallStepDecreasesRank(s: State, step: Step)
    requires Enabled(s, step) && !IsWorkerStep(step)
    ensures Sum(Apply(s, step).calls, Rank) < Sum(s.calls, Rank)
  {
    var pc := Apply(s, step).calls[step.i];
    assert Apply(s, step).calls == s.calls[step.i := pc] && Rank(pc) < Rank(s.calls[step.i]);
    hide Apply, Enabled, Rank;
    SumUpdate(s.calls, Rank, step.i, pc);
  }

  function Progressing(steps: seq<Step>, states: seq<State>): nat
    requires |states| == |steps| + 1
  {
    if steps == [] then 0
    else Progressing(steps[1..], states[1..]) + if IsSpin(states[0], steps[0]) then 0 else 1
  }

  /** No run makes more than 11 n + 7 steps besides rounds of the polling loop. */
  lemma RunsAreBounded(n: nat, others: nat, steps: seq<Step>, states: seq<State>)
    requires Run(n, others, steps, states)
    ensures Progressing(steps, states) <= 11 * n + 7
  {
    InitOk(n, others);
    ProgressBounded(steps, states);
  }

  lemma {:induction false} ProgressBounded(steps: seq<Step>, states: seq<State>)
    requires |states| == |steps| + 1
    requires Path(steps, states)
    ensures Progressing(steps, states) + Left(states[|steps|]) <= Left(states[0])
  {
    if steps == [] {
      assert Progressing(steps, states) == 0;
    } else {
      hide Enabled, Apply, IsSpin, Left;
      assert Linked(steps, states, 0) by { var _ := steps[0]; }
      StepDecreasesLeft(states[0], steps[0]);
      forall i | 0 <= i < |steps[1..]| ensures Linked(steps[1..], states[1..], i) {
        assert Linked(steps, states, i + 1) by { var _ := steps[i + 1]; }
      }
      ProgressBounded(steps[1..], states[1..]);
    }
  }

  lemma Extend(n: nat, others: nat, steps: seq<Step>, states: seq<State>, step: Step)
    requires Run(n, others, steps, states) && Enabled(states[|steps|], step)
    ensures Run(n, others, steps + [step], states + [Apply(states[|steps|], step)])
  {
    hide Enabled, Apply;
    var more, reached := steps + [step], states + [Apply(states[|steps|], step)];
    forall i | 0 <= i < |more| ensures Linked(more, reached, i) {
      if i < |steps| { assert Linked(steps, states, i) by { var _ := steps[i]; } }
    }
  }

  /** `next` can be taken from `s` now and ends in a step that is no spin; at most one spin precedes it. */
  predicate Moves(s: State, next: seq<Step>) {
    && 1 <= |next| <= 2 && Enabled(s, next[0])
    && (|next| == 1 ==> !IsSpin(s, next[0]))
    && (|next| == 2 ==> Enabled(Apply(s, next[0]), next[1]) && !IsSpin(Apply(s, next[0]), next[1]))
  }

  /** No deadlock: as long as the worker has not exited or a call is not over, someone can take
      a real step now, or the worker can after one look at the stop flag. */
  lemma NeverStuck(n: nat, others: nat, steps: seq<Step>, states: seq<State>, k: nat) returns (next: seq<Step>)
    requires Run(n, others, steps, states) && k <= |steps| && !Final(states[k])
    ensures Moves(states[k], next)
  {
    RunKeepsInv(n, others, steps, states, k);
    var s := states[k];
    if s.lock.ByCall? {
      next := HolderMoves(s);
    } else {
      next := WorkerMoves(s);
    }
  }

  /** From every reachable state the whole protocol can be brought to its end, where the worker has exited and every
      call is over, in at most 22 n + 14 more steps, spins included. */
  lemma CanFinish(n: nat, others: nat, steps: seq<Step>, states: seq<State>)
    returns (all: seq<Step>, reached: seq<State>)
    requires Run(n, others, steps, states)
    ensures Run(n, others, all, reached) && steps <= all && states <= reached && Final(reached[|all|])
    ensures |all| - |steps| <= 22 * n + 14
  {
    InitOk(n, others);
    ProgressBounded(steps, states);
    all, reached := FinishFrom(n, others, steps, states);
  }

  lemma {:induction false} FinishFrom(n: nat, others: nat, steps: seq<Step>, states: seq<State>)
    returns (all: seq<Step>, reached: seq<State>)
    requires Run(n, others, steps, states)
    ensures Run(n, others, all, reached) && steps <= all && states <= reached && Final(reached[|all|])
    ensures |all| - |steps| <= 2 * Left(states[|steps|])
    decreases Left(states[|steps|])
  {
    all, reached := steps, states;
    if !Final(states[|steps|]) {
      var next := NeverStuck(n, others, steps, states, |steps|);
      hide Run, Enabled, Apply, IsSpin, Left, Final;
      Extend(n, others, steps, states, next[0]);
      var s1 := Apply(states[|steps|], next[0]);
      all, reached := steps + [next[0]], states + [s1];
      StepDecreasesLeft(states[|steps|], next[0]);
      if |next| == 2 {
        Extend(n, others, all, reached, next[1]);
        StepDecreasesLeft(s1, next[1]);
        all, reached := all + [next[1]], reached + [Apply(s1, next[1])];
      }
      all, reached := FinishFrom(n, others, all, reached);
    }
  }

  /** The call in the monitor can move, unless it waits for the worker, who then leaves the loop. */
  lemma HolderMoves(s: State) returns (next: seq<Step>)
    requires Inv(s) && s.lock.ByCall?
    ensures Moves(s, next)
  {
    var i := s.lock.i;
    assert InMonitor(s.calls[i]) && CallOk(s, s.calls[i]);
    match s.calls[i] {
      case Locked => next := [Read(i)];
      case Got => next := [Stop(i)];
      case Waiting =>
        match s.worker {
          case NotBegun => next := [Begin];
          case Script => next := [ScriptReturns(Zero)];
          case Polling(_) => next := [Check];
          case Trying(_) => next := [Try, Check];
          case Decided(_, _) => next := [Clear];
          case Cleared(_, _) => next := [Unlock];
          case PutRuntime(_) => next := [WPutRuntime];
          case PutObject(_) => next := [WPutObject];
          case Exited(_) => next := [Wake(i)];
        }
      case Returned(_) => next := [Inspect(i)];
      case NeverRan => next := [IClear(i)];
      case DropRuntime => next := [IPutRuntime(i)];
      case DropObject => next := [IPutObject(i)];
      case Leaving => next := [Leave(i)];
    }
  }

  lemma WorkerMoves(s: State) returns (next: seq<Step>)
    requires Inv(s) && !s.lock.ByCall? && !Final(s)
    ensures Moves(s, next)
  {
    match s.worker {
      case NotBegun => next := [Begin];
      case Script => next := [ScriptReturns(Zero)];
      case Polling(_) => next := [Check, Try];
      case Trying(_) => next := [Try];
      case Decided(_, _) => next := [Clear];
      case Cleared(_, _) => next := [Unlock];
      case PutRuntime(_) => next := [WPutRuntime];
      case PutObject(_) => next := [WPutObject];
      case Exited(_) =>
        var i :| 0 <= i < |s.calls| && s.calls[i] != Collected;
        assert InMonitor(s.calls[i]) <==> s.lock == ByCall(i);
        next := [if s.calls[i] == Pending then Enter(i) else Collect(i)];
    }
  }
}
