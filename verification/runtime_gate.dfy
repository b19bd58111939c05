/** The gate in front of a Lua state: loading, dispatch through `lunatik_run`, `resume`, and both ways
    to stop, as concurrent agents of one runtime (lunatik.h, lunatik_core.c, lunatik_obj.c).

    Handlers may arrive from the first hook the script registers; `resume` and stopping need the
    runtime object, which its creator publishes only after `lunatik_newruntime` returned.

    `lunatik_run` reads `private` three times under the lock: to test it, to find the `ready` flag in the
    Lua state it points to, and to call the handler with it. A failed load clears `private` without the lock. */
module RuntimeGate {
  import opened Options

  /** A `Stopper` is in `lunatik_stop`, a `Closer` in `lunatik_closeobject`, which tests what it took. */
  datatype Agent = Handler(id: nat) | Resumer(id: nat) | Stopper(id: nat) | Closer(id: nat)

  /** What an agent carries out of its critical section to close. */
  datatype Took = Nothing | TookNull | TookState

  /** Where an agent is: it has the lock; it found `private` set; it read `private` again, to look for `ready`
      there; it saw `ready`; it runs Lua; its handler was called with a null pointer, from where nothing is said;
      it is about to unlock; it closes what it took. */
  datatype Pc =
    | Locked | Tested | Fetched(got: bool) | Passed | Running | OnNull | Leaving(took: Took) | Closing(took: Took)

  /** Where the loader is: the script runs; it returned; `lunatik_setready` has the lock, has set
      `ready`, is over; or the script failed and its Lua state is being closed, is closed. */
  datatype Load = Loading | Loaded | ReadyLocked | ReadySet | Published | FailedClosing | Failed

  datatype Lock = Free | ByLoader | By(agent: Agent)

  datatype State = State(opt: Opt, gfp: Gfp, private: bool, ready: bool, closes: nat, nullCloses: nat,
                         lock: Lock, load: Load, pcs: map<Agent, Pc>)

  /** `lunatik_newruntime` up to the call of the script. */
  function Init(opt: Opt): State {
    State(opt, Kernel, true, false, 0, 0, Free, Loading, map[])
  }

  datatype Step =
    | ScriptReturns | ScriptFails | CloseFailed
    | LockReady | SetReady | UnlockReady
    | Acquire(a: Agent) | Enter(a: Agent) | Fetch(a: Agent) | Peek(a: Agent, seen: bool) | Start(a: Agent)
    | Return(a: Agent) | Release(a: Agent) | Close(a: Agent)

  predicate LoadFailed(s: State) {
    s.load == FailedClosing || s.load == Failed
  }

  predicate Enabled(s: State, step: Step) {
    match step
    case ScriptReturns => s.load == Loading
    case ScriptFails => s.load == Loading
    case CloseFailed => s.load == FailedClosing
    case LockReady => s.load == Loaded && s.lock == Free
    case SetReady => s.load == ReadyLocked
    case UnlockReady => s.load == ReadySet
    case Acquire(a) => a !in s.pcs && s.lock == Free && (a.Handler? || s.load == Published)
    case Enter(a) => a in s.pcs && s.pcs[a] == Locked
    case Fetch(a) => a in s.pcs && s.pcs[a] == Tested
    case Peek(a, seen) => a in s.pcs && s.pcs[a].Fetched? && (!LoadFailed(s) ==> seen == s.ready)
    case Start(a) => a in s.pcs && s.pcs[a] == Passed
    case Return(a) => a in s.pcs && s.pcs[a] == Running
    case Release(a) => a in s.pcs && s.pcs[a].Leaving?
    case Close(a) => a in s.pcs && s.pcs[a].Closing?
  }

  /** What the agent does once it has the lock: a handler tests `private`, `resume` asks for a Lua state, and
      both ways to stop take what is there, of which `lunatik_closeobject` closes no null pointer. */
  function Entered(s: State, a: Agent): Pc {
    match a
    case Handler(_) => if s.private then Tested else Leaving(Nothing)
    case Resumer(_) => if s.private then Running else Leaving(Nothing)
    case Stopper(_) => Leaving(if s.private then TookState else TookNull)
    case Closer(_) => Leaving(if s.private then TookState else Nothing)
  }

  predicate Stops(a: Agent) { a.Stopper? || a.Closer? }

  function Apply(s: State, step: Step): State
    requires Enabled(s, step)
  {
    match step
    case ScriptReturns => s.(load := Loaded, gfp := if s.opt.irq then Atomic else s.gfp)
    case ScriptFails => s.(load := FailedClosing, private := false)
    case CloseFailed => s.(load := Failed, closes := s.closes + 1)
    case LockReady => s.(load := ReadyLocked, lock := ByLoader)
    case SetReady => s.(load := ReadySet, ready := true)
    case UnlockReady => s.(load := Published, lock := Free)
    case Acquire(a) => s.(lock := By(a), pcs := s.pcs[a := Locked])
    case Enter(a) => s.(pcs := s.pcs[a := Entered(s, a)], private := s.private && !Stops(a))
    case Fetch(a) => s.(pcs := s.pcs[a := Fetched(s.private)])
    case Peek(a, seen) => s.(pcs := s.pcs[a := if seen then Passed else Leaving(Nothing)])
    case Start(a) => s.(pcs := s.pcs[a := if s.private then Running else OnNull])
    case Return(a) => s.(pcs := s.pcs[a := Leaving(Nothing)])
    case Release(a) =>
      s.(lock := Free, pcs := if s.pcs[a].took == Nothing then s.pcs - {a} else s.pcs[a := Closing(s.pcs[a].took)])
    case Close(a) =>
      if s.pcs[a].took == TookState then s.(pcs := s.pcs - {a}, closes := s.closes + 1)
      else s.(pcs := s.pcs - {a}, nullCloses := s.nullCloses + 1)
  }

  predicate Linked(steps: seq<Step>, states: seq<State>, i: nat)
    requires i < |steps| && |states| == |steps| + 1
  {
    Enabled(states[i], steps[i]) && states[i + 1] == Apply(states[i], steps[i])
  }

  /** A run: any interleaving from a runtime that starts loading its script. */
  predicate Run(opt: Opt, steps: seq<Step>, states: seq<State>) {
    && |states| == |steps| + 1
    && states[0] == Init(opt)
    && forall i {:trigger steps[i]} | 0 <= i < |steps| :: Linked(steps, states, i)
  }

  // ---- reads of a dead Lua state ----

  /** Between its test of `private` and its look at `ready`. */
  predicate Between(pc: Pc) { pc == Tested || pc.Fetched? }

  predicate Exposed(s: State, a: Agent) {
    a in s.pcs && Between(s.pcs[a])
  }

  /** Step `j` looks for `ready` through a null pointer, or in a Lua state that is being or has been closed. */
  predicate DeadRead(steps: seq<Step>, states: seq<State>, j: nat)
    requires j < |steps| && |states| == |steps| + 1
  {
    steps[j].Peek? && LoadFailed(states[j])
  }

  /** Some such read before step `i` saw `ready` set in what was no longer the Lua state. */
  predicate Misled(steps: seq<Step>, states: seq<State>, i: nat)
    requires i <= |steps| && |states| == |steps| + 1
  {
    i > 0 && (Misled(steps, states, i - 1) || (DeadRead(steps, states, i - 1) && steps[i - 1].seen))
  }

  // ---- who is inside the Lua state ----

  datatype Inside = LoaderIn | AgentIn(a: Agent)

  /** Code runs in the Lua state: the script, a handler, a resumed body, or `lua_close`. */
  predicate IsInside(s: State, who: Inside) {
    match who
    case LoaderIn => s.load == Loading || s.load == FailedClosing
    case AgentIn(a) => a in s.pcs && (s.pcs[a] == Running || s.pcs[a] == Closing(TookState))
  }

  predicate IsAt(s: State, a: Agent, pc: Pc) {
    a in s.pcs && s.pcs[a] == pc
  }

  predicate HasLock(pc: Pc) {
    !pc.Closing?
  }

  predicate TookIt(pc: Pc) {
    pc == Closing(TookState) || pc == Leaving(TookState)
  }

  /** The lock is with exactly the agent whose position says so. */
  predicate LockOk(s: State) {
    && (s.lock == ByLoader <==> s.load == ReadyLocked || s.load == ReadySet)
    && (forall a | a in s.pcs :: HasLock(s.pcs[a]) <==> s.lock == By(a))
    && (s.lock.By? ==> s.lock.agent in s.pcs)
  }

  predicate StateOk(s: State) {
    && (s.private ==> !LoadFailed(s) && s.closes == 0)
    && (s.private || s.closes > 0 ==> forall a | a in s.pcs :: !TookIt(s.pcs[a]))
    && (forall a, b | a in s.pcs && b in s.pcs && TookIt(s.pcs[a]) && TookIt(s.pcs[b]) :: a == b)
    && (s.load == FailedClosing ==> s.closes == 0)
    && s.closes <= 1
  }

  predicate LoadOk(s: State) {
    && (s.ready <==> s.load == ReadySet || s.load == Published)
    && (s.load != Published ==> (forall a | a in s.pcs :: a.Handler? && !TookIt(s.pcs[a])))
    && (!s.private && !LoadFailed(s) ==> s.load == Published)
    && (s.load == Loading || s.load == Loaded || s.load == ReadyLocked || s.load == ReadySet ==> s.closes == 0)
    && s.gfp == (if s.opt.irq && s.load !in {Loading, FailedClosing, Failed} then Atomic else Kernel)
  }

  /** Who may be where, and that a handler between its reads has the Lua state it tested unless the load failed. */
  predicate RoleAt(s: State, a: Agent, pc: Pc) {
    && (Between(pc) || pc == Passed || pc == OnNull ==> a.Handler?)
    && (pc == Running ==> !Stops(a))
    && (pc == Leaving(TookState) ==> Stops(a))
    && (pc in {Leaving(TookNull), Closing(TookNull)} ==> a.Stopper? && !s.private)
    && (pc.Closing? ==> pc.took != Nothing && Stops(a))
    && (Between(pc) && !LoadFailed(s) ==> s.private && pc != Fetched(false))
  }

  predicate RolesOk(s: State) {
    forall a | a in s.pcs :: RoleAt(s, a, s.pcs[a])
  }

  predicate Inv(s: State) {
    LockOk(s) && StateOk(s) && LoadOk(s) && RolesOk(s)
  }

  /** Code runs in a published runtime whose Lua state is attached, and a handler that saw `ready` will, or finds no
      Lua state because the load failed. */
  predicate Gated(s: State) {
    && (forall a | a in s.pcs && s.pcs[a] == Running :: s.load == Published && s.private)
    && (forall a | a in s.pcs && s.pcs[a] == Passed :: if LoadFailed(s) then !s.private else s.load == Published && s.private)
  }

  predicate IsLoaderStep(step: Step) {
    step in {ScriptReturns, ScriptFails, CloseFailed, LockReady, SetReady, UnlockReady}
  }

  lemma LoaderStepKeepsInv(s: State, step: Step)
    requires Inv(s) && Enabled(s, step) && IsLoaderStep(step)
    ensures Inv(Apply(s, step))
  {
  }

  lemma AgentStepKeepsLock(s: State, step: Step)
    requires Inv(s) && Enabled(s, step) && !IsLoaderStep(step)
    ensures LockOk(Apply(s, step))
  {
  }

  lemma AgentStepKeepsState(s: State, step: Step)
    requires Inv(s) && Enabled(s, step) && !IsLoaderStep(step)
    ensures StateOk(Apply(s, step))
  {
    hide RolesOk, LockOk;
    TakersAfter(s, step);
    hide TookIt;
  }

  /** Only a stop that finds the Lua state attached takes it. */
  lemma TakersAfter(s: State, step: Step)
    requires Enabled(s, step) && !IsLoaderStep(step)
    ensures var s' := Apply(s, step);
            forall x | x in s'.pcs && TookIt(s'.pcs[x]) ::
              (x in s.pcs && TookIt(s.pcs[x])) || (step == Enter(x) && Stops(x) && s.private)
  {
  }

  lemma AgentStepKeepsLoad(s: State, step: Step)
    requires Inv(s) && Enabled(s, step) && !IsLoaderStep(step)
    ensures LoadOk(Apply(s, step))
  {
    hide RolesOk, LockOk;
    TakersAfter(s, step);
    hide TookIt;
  }

  lemma AgentStepKeepsRoles(s: State, step: Step)
    requires Inv(s) && Enabled(s, step) && !IsLoaderStep(step)
    ensures RolesOk(Apply(s, step))
  {
    var s' := Apply(s, step);
    forall a | a in s'.pcs ensures RoleAt(s', a, s'.pcs[a]) {
      if a in s.pcs { assert RoleAt(s, a, s.pcs[a]); }
      if a != step.a { OtherRole(s, step, a); } else { OwnRole(s, step); }
    }
  }

  lemma OtherRole(s: State, step: Step, a: Agent)
    requires LockOk(s) && Enabled(s, step) && !IsLoaderStep(step) && a != step.a && a in s.pcs && RoleAt(s, a, s.pcs[a])
    ensures RoleAt(Apply(s, step), a, s.pcs[a])
  {
    assert HasLock(s.pcs[a]) <==> s.lock == By(a);
    if step.Enter? { assert HasLock(s.pcs[step.a]) <==> s.lock == By(step.a); }
  }

  lemma OwnRole(s: State, step: Step)
    requires Enabled(s, step) && !IsLoaderStep(step) && step.a in Apply(s, step).pcs
    requires step.a in s.pcs ==> RoleAt(s, step.a, s.pcs[step.a])
    ensures RoleAt(Apply(s, step), step.a, Apply(s, step).pcs[step.a])
  {
  }

  lemma StepKeepsInv(s: State, step: Step)
    requires Inv(s) && Enabled(s, step)
    ensures Inv(Apply(s, step))
  {
    hide LockOk, StateOk, LoadOk, RolesOk, Enabled, Apply;
    if IsLoaderStep(step) {
      LoaderStepKeepsInv(s, step);
    } else {
      AgentStepKeepsLock(s, step);
      AgentStepKeepsState(s, step);
      AgentStepKeepsLoad(s, step);
      AgentStepKeepsRoles(s, step);
    }
  }

  lemma StepKeepsGated(s: State, step: Step)
    requires Inv(s) && Gated(s) && Enabled(s, step)
    ensures Gated(Apply(s, step))
  {
    var s' := Apply(s, step);
    forall a | a in s'.pcs && (s'.pcs[a] == Passed || s'.pcs[a] == Running)
      ensures s'.pcs[a] == Running ==> s'.load == Published && s'.private
      ensures s'.pcs[a] == Passed ==> if LoadFailed(s') then !s'.private else s'.load == Published && s'.private
    {
      assert a in s.pcs;
      assert HasLock(s.pcs[a]) && RoleAt(s, a, s.pcs[a]);
    }
  }

  lemma StepKeepsOpt(s: State, step: Step)
    requires Enabled(s, step)
    ensures Apply(s, step).opt == s.opt
  {
  }

  lemma {:induction false} RunKeepsInv(opt: Opt, steps: seq<Step>, states: seq<State>, i: nat)
    requires Run(opt, steps, states) && i <= |steps|
    ensures Inv(states[i]) && states[i].opt == opt
  {
    if i == 0 {
      assert states[0] == Init(opt);
    } else {
      hide Inv, Enabled, Apply;
      assert Linked(steps, states, i - 1) by { var _ := steps[i - 1]; }
      RunKeepsInv(opt, steps, states, i - 1);
      StepKeepsInv(states[i - 1], steps[i - 1]);
      StepKeepsOpt(states[i - 1], steps[i - 1]);
    }
  }

  lemma {:induction false} RunKeepsGated(opt: Opt, steps: seq<Step>, states: seq<State>, i: nat)
    requires Run(opt, steps, states) && i <= |steps|
    ensures Gated(states[i])
  {
    if i == 0 {
      assert states[0] == Init(opt);
    } else {
      hide Inv, Enabled, Apply, Gated;
      assert Linked(steps, states, i - 1) by { var _ := steps[i - 1]; }
      RunKeepsInv(opt, steps, states, i - 1);
      RunKeepsGated(opt, steps, states, i - 1);
      StepKeepsGated(states[i - 1], steps[i - 1]);
    }
  }

  // ---- what holds of every run ----

  /** At any moment at most one of the script, the handlers, the resumed bodies and the closers executes in the
      Lua state, and none does once it has been closed. */
  lemma OneAtATime(opt: Opt, steps: seq<Step>, states: seq<State>, i: nat, p: Inside, q: Inside)
    requires Run(opt, steps, states) && i <= |steps| && IsInside(states[i], p)
    ensures (IsInside(states[i], q) ==> p == q) && states[i].closes == 0
  {
    RunKeepsInv(opt, steps, states, i);
    RunKeepsGated(opt, steps, states, i);
    hide Run;
    var s := states[i];
    assert p.AgentIn? ==> HasLock(s.pcs[p.a]) || TookIt(s.pcs[p.a]);
    assert q.AgentIn? && IsInside(s, q) ==> HasLock(s.pcs[q.a]) || TookIt(s.pcs[q.a]);
  }

  /** The Lua state is closed at most once, whatever was read. */
  lemma ClosedAtMostOnce(opt: Opt, steps: seq<Step>, states: seq<State>, i: nat)
    requires Run(opt, steps, states) && i <= |steps|
    ensures states[i].closes <= 1
  {
    RunKeepsInv(opt, steps, states, i);
  }

  /** A handler or resumed body runs only in a published runtime, holding its lock, while the Lua
      state is still attached; an interrupt runtime then allocates atomically. */
  lemma RunsOnlyWhenReady(opt: Opt, steps: seq<Step>, states: seq<State>, i: nat, a: Agent)
    requires Run(opt, steps, states) && i <= |steps| && a in states[i].pcs && states[i].pcs[a] == Running
    ensures var s := states[i];
            && s.lock == By(a) && !Stops(a)
            && s.load == Published && s.ready && s.private && s.gfp == GfpOf(opt)
  {
    RunKeepsInv(opt, steps, states, i);
    RunKeepsGated(opt, steps, states, i);
    assert HasLock(states[i].pcs[a]);
  }

  /** Once a stop section or a failed load cleared the Lua state it stays cleared, and no handler and no resumed
      body ever runs again. */
  lemma {:induction false} NeverAfterStop(opt: Opt, steps: seq<Step>, states: seq<State>, i: nat, j: nat, a: Agent)
    requires Run(opt, steps, states) && i <= j <= |steps| && !states[i].private
    ensures !states[j].private
    ensures !(a in states[j].pcs && states[j].pcs[a] == Running)
    decreases j
  {
    RunKeepsGated(opt, steps, states, j);
    if i == j {
    } else {
      NeverAfterStop(opt, steps, states, i, j - 1, a);
      assert Linked(steps, states, j - 1) by { var _ := steps[j - 1]; }
    }
  }

  lemma StepUnderLock(s: State, step: Step, a: Agent)
    requires Inv(s) && Enabled(s, step) && a in s.pcs && HasLock(s.pcs[a])
    requires a in Apply(s, step).pcs && HasLock(Apply(s, step).pcs[a]) && !LoadFailed(Apply(s, step))
    requires !Stops(a)
    ensures !LoadFailed(s) && Apply(s, step).ready == s.ready && Apply(s, step).private == s.private
    ensures Apply(s, step).load == Published <==> s.load == Published
  {
    assert s.lock == By(a);
    assert forall b | b in s.pcs && HasLock(s.pcs[b]) :: b == a;
  }

  /** Whether a dispatch is run is decided by the state it finds when it gets the lock, however its reads
      interleave with other steps: it is run exactly in a published runtime that was not stopped; unless the
      load failed in between. */
  lemma {:induction false} ReadyMeansRun(opt: Opt, steps: seq<Step>, states: seq<State>, i: nat, j: nat, h: nat)
    requires Run(opt, steps, states) && i < j < |steps|
    requires steps[i] == Enter(Handler(h)) && steps[j].Peek? && steps[j].a == Handler(h)
    requires forall k | i < k <= j :: Exposed(states[k], Handler(h))
    ensures states[i].private
    ensures DeadRead(steps, states, j) || (steps[j].seen <==> states[i].load == Published && states[i].private)
  {
    var a := Handler(h);
    assert Linked(steps, states, i) && Exposed(states[i + 1], a);
    assert Linked(steps, states, j);
    forall k | i < k < j ensures steps[k] != Release(a) {
      assert Linked(steps, states, k) && Exposed(states[k], a);
    }
    SinceEntry(opt, steps, states, i, j, a);
    RunKeepsInv(opt, steps, states, j);
  }

  lemma StepOf(opt: Opt, steps: seq<Step>, states: seq<State>, i: nat)
    requires Run(opt, steps, states) && i < |steps|
    ensures |states| == |steps| + 1 && Linked(steps, states, i)
  {
    var _ := steps[i];
  }

  /** Between the test of `private` under the lock and the release of the lock. */
  predicate InSection(s: State, a: Agent) {
    a in s.pcs && HasLock(s.pcs[a]) && s.pcs[a] != Locked
  }

  lemma EnterSection(s: State, a: Agent)
    requires Enabled(s, Enter(a)) && !Stops(a)
    ensures var s' := Apply(s, Enter(a));
            InSection(s', a) && s'.ready == s.ready && s'.private == s.private && s'.load == s.load
  {
  }

  lemma SectionStep(s: State, step: Step, a: Agent)
    requires InSection(s, a) && Enabled(s, step) && step != Release(a)
    ensures InSection(Apply(s, step), a)
  {
  }

  /** An agent that is no stopper stays in its section until it releases the lock; unless the load fails meanwhile,
      the runtime stays as the agent found it. */
  lemma {:induction false} SinceEntry(opt: Opt, steps: seq<Step>, states: seq<State>, i: nat, j: nat, a: Agent)
    requires Run(opt, steps, states) && i < j <= |steps| && steps[i] == Enter(a) && !Stops(a)
    requires forall k | i < k < j :: steps[k] != Release(a)
    ensures InSection(states[j], a)
    ensures !LoadFailed(states[j]) ==>
              && states[j].ready == states[i].ready && states[j].private == states[i].private
              && (states[j].load == Published <==> states[i].load == Published)
    decreases j
  {
    hide Inv, Apply, Enabled, LoadFailed, Run;
    StepOf(opt, steps, states, j - 1);
    RunKeepsInv(opt, steps, states, j - 1);
    if j - 1 == i {
      EnterSection(states[i], a);
    } else {
      SinceEntry(opt, steps, states, i, j - 1, a);
      SectionStep(states[j - 1], steps[j - 1], a);
      if !LoadFailed(states[j]) { StepUnderLock(states[j - 1], steps[j - 1], a); }
    }
  }

  // ---- exactly when a dispatch runs ----

  predicate Ran(states: seq<State>, i: nat, j: nat, a: Agent)
    requires i <= j < |states|
  {
    exists k | i < k <= j :: IsAt(states[k], a, Running)
  }

  /** On its way to run in a published runtime. */
  predicate OnTheWay(s: State, a: Agent) {
    s.load == Published && s.ready && s.private && (IsAt(s, a, Tested) || IsAt(s, a, Fetched(true)) || IsAt(s, a, Passed))
  }

  lemma WayStep(s: State, step: Step, a: Agent)
    requires Inv(s) && Enabled(s, step) && OnTheWay(s, a)
    ensures OnTheWay(Apply(s, step), a) || IsAt(Apply(s, step), a, Running)
  {
    assert HasLock(s.pcs[a]) && RoleAt(s, a, s.pcs[a]);
    assert forall b | b in s.pcs && HasLock(s.pcs[b]) :: b == a;
  }

  lemma EnterWay(s: State, a: Agent)
    requires Inv(s) && Enabled(s, Enter(a)) && !Stops(a) && s.load == Published && s.private
    ensures OnTheWay(Apply(s, Enter(a)), a) || IsAt(Apply(s, Enter(a)), a, Running)
  {
  }

  lemma {:induction false} RunsByThen(opt: Opt, steps: seq<Step>, states: seq<State>, i: nat, j: nat, a: Agent)
    requires Run(opt, steps, states) && i < j <= |steps| && steps[i] == Enter(a) && !Stops(a)
    requires states[i].load == Published && states[i].private
    ensures Ran(states, i, j, a) || OnTheWay(states[j], a)
    decreases j
  {
    hide Inv, Apply, Enabled, Run, OnTheWay;
    StepOf(opt, steps, states, j - 1);
    RunKeepsInv(opt, steps, states, j - 1);
    if j - 1 == i {
      EnterWay(states[i], a);
    } else {
      RunsByThen(opt, steps, states, i, j - 1, a);
      if Ran(states, i, j - 1, a) {
        var k :| i < k <= j - 1 && IsAt(states[k], a, Running);
      } else {
        WayStep(states[j - 1], steps[j - 1], a);
      }
    }
  }

  /** A dispatch or a resume that takes the lock and releases it has run in between if and only if the runtime was
      published and not stopped when it took the lock, whatever else happens in between. */
  lemma DispatchRunsIff(opt: Opt, steps: seq<Step>, states: seq<State>, i: nat, j: nat, a: Agent)
    requires Run(opt, steps, states) && i < j < |steps| && !Stops(a)
    requires steps[i] == Enter(a) && steps[j] == Release(a) && forall k | i < k < j :: steps[k] != Release(a)
    ensures Ran(states, i, j, a) <==> states[i].load == Published && states[i].private
  {
    if Ran(states, i, j, a) {
      var k :| i < k <= j && IsAt(states[k], a, Running);
      hide Inv, Run;
      RunKeepsGated(opt, steps, states, k);
      SinceEntry(opt, steps, states, i, k, a);
    } else if states[i].load == Published && states[i].private {
      RunsByThen(opt, steps, states, i, j, a);
      StepOf(opt, steps, states, j);
    }
  }

  /** The handler that is about to start does start, in a runtime that did not fail to load. */
  lemma StartRuns(opt: Opt, steps: seq<Step>, states: seq<State>, j: nat, a: Agent)
    requires Run(opt, steps, states) && j < |steps| && steps[j] == Start(a) && !LoadFailed(states[j])
    ensures IsAt(states[j + 1], a, Running)
  {
    StepOf(opt, steps, states, j);
    RunKeepsGated(opt, steps, states, j);
  }

  // ---- exactly when a dead Lua state is read ----

  /** Step `j` fails the load while handler `a` is between its reads. */
  predicate FailsBetween(steps: seq<Step>, states: seq<State>, j: nat, a: Agent)
    requires j < |steps| && |states| == |steps| + 1
  {
    steps[j] == ScriptFails && Exposed(states[j], a)
  }

  lemma NotYetFailed(opt: Opt)
    ensures !LoadFailed(Init(opt))
  {
  }

  lemma StepCatches(s: State, step: Step, a: Agent)
    requires Inv(s) && Enabled(s, step) && Exposed(Apply(s, step), a) && LoadFailed(Apply(s, step))
    ensures (Exposed(s, a) && LoadFailed(s)) || (step == ScriptFails && Exposed(s, a))
  {
  }

  /** A handler caught between its reads by a failed load got there before the load failed. */
  lemma {:induction false} CaughtBetween(opt: Opt, steps: seq<Step>, states: seq<State>, i: nat, a: Agent) returns (j: nat)
    requires Run(opt, steps, states) && i <= |steps| && Exposed(states[i], a) && LoadFailed(states[i])
    ensures j < i && FailsBetween(steps, states, j, a)
    decreases i
  {
    hide Inv, Apply, Enabled, Exposed, LoadFailed;
    if i == 0 { NotYetFailed(opt); }
    var k := i - 1;
    StepOf(opt, steps, states, k);
    RunKeepsInv(opt, steps, states, k);
    StepCatches(states[k], steps[k], a);
    if Exposed(states[k], a) && LoadFailed(states[k]) {
      j := CaughtBetween(opt, steps, states, k, a);
    } else {
      j := k;
    }
  }

  /** A handler caught between its reads goes on to read the dead state, unless it is left there. */
  lemma {:induction false} ReadsOn(opt: Opt, steps: seq<Step>, states: seq<State>, i: nat, a: Agent) returns (j: nat)
    requires Run(opt, steps, states) && i <= |steps| && Exposed(states[i], a) && LoadFailed(states[i])
    requires !Exposed(states[|steps|], a)
    ensures i <= j < |steps| && DeadRead(steps, states, j)
    decreases |steps| - i
  {
    assert Linked(steps, states, i) by { var _ := steps[i]; }
    if Exposed(states[i + 1], a) {
      j := ReadsOn(opt, steps, states, i + 1, a);
    } else {
      j := i;
    }
  }

  /** In a run that leaves no handler between its reads, some handler looks for `ready` through a null pointer or
      in a closed or closing Lua state if and only if the load fails while a handler is between its reads. */
  lemma DeadReadIff(opt: Opt, steps: seq<Step>, states: seq<State>)
    requires Run(opt, steps, states) && forall a :: !Exposed(states[|steps|], a)
    ensures (exists j | 0 <= j < |steps| :: DeadRead(steps, states, j))
            <==> exists j, a | 0 <= j < |steps| :: FailsBetween(steps, states, j, a)
  {
    if j :| 0 <= j < |steps| && DeadRead(steps, states, j) {
      assert Linked(steps, states, j);
      assert Exposed(states[j], steps[j].a);
      var k := CaughtBetween(opt, steps, states, j, steps[j].a);
      assert FailsBetween(steps, states, k, steps[j].a);
    }
    if j, a :| 0 <= j < |steps| && FailsBetween(steps, states, j, a) {
      assert Linked(steps, states, j);
      var k := ReadsOn(opt, steps, states, j + 1, a);
      assert DeadRead(steps, states, k);
    }
  }

  /** A load that never fails between a handler's reads misleads nobody. */
  lemma {:induction false} NeverMisled(opt: Opt, steps: seq<Step>, states: seq<State>, i: nat)
    requires Run(opt, steps, states) && i <= |steps|
    requires forall j, a | 0 <= j < |steps| :: !FailsBetween(steps, states, j, a)
    ensures !Misled(steps, states, i)
  {
    if i == 0 {
    } else {
      NeverMisled(opt, steps, states, i - 1);
      assert Linked(steps, states, i - 1) by { var _ := steps[i - 1]; }
      if DeadRead(steps, states, i - 1) {
        var k := CaughtBetween(opt, steps, states, i - 1, steps[i - 1].a);
        assert false;
      }
    }
  }

  /** A handler that looked for `ready` in a dead Lua state and took what it read for it: it is about to call, or has
      called, its handler with a null pointer. */
  predicate Fooled(s: State, a: Agent) {
    IsAt(s, a, OnNull) || (IsAt(s, a, Passed) && LoadFailed(s))
  }

  lemma StepFools(s: State, step: Step, a: Agent)
    requires Gated(s) && Enabled(s, step)
    ensures Fooled(Apply(s, step), a) <==> Fooled(s, a) || (step == Peek(a, true) && LoadFailed(s))
  {
  }

  /** Somebody is fooled exactly after such a read, and stays so. */
  lemma {:induction false} FooledIff(opt: Opt, steps: seq<Step>, states: seq<State>, i: nat)
    requires Run(opt, steps, states) && i <= |steps|
    ensures (exists a :: Fooled(states[i], a)) <==> Misled(steps, states, i)
    decreases i
  {
    hide Gated, Enabled, Apply, Fooled, LoadFailed;
    if i == 0 {
      NobodyFooled(opt);
    } else {
      var s, step := states[i - 1], steps[i - 1];
      StepOf(opt, steps, states, i - 1);
      RunKeepsGated(opt, steps, states, i - 1);
      FooledIff(opt, steps, states, i - 1);
      forall a ensures Fooled(states[i], a) <==> Fooled(s, a) || (step == Peek(a, true) && LoadFailed(s)) {
        StepFools(s, step, a);
      }
      if DeadRead(steps, states, i - 1) && step.seen { assert Fooled(states[i], step.a); }
    }
  }

  lemma NobodyFooled(opt: Opt)
    ensures forall a :: !Fooled(Init(opt), a)
  {
  }

  /** In a run that leaves no handler before its third read, some handler is called with a null pointer if and only if
      some handler's look for `ready` in a dead Lua state read something that looks set. */
  lemma NullCallIff(opt: Opt, steps: seq<Step>, states: seq<State>)
    requires Run(opt, steps, states) && forall a :: !IsAt(states[|steps|], a, Passed)
    ensures (exists a :: IsAt(states[|steps|], a, OnNull)) <==> Misled(steps, states, |steps|)
  {
    var s := states[|steps|];
    hide Run, Misled;
    FooledIff(opt, steps, states, |steps|);
    forall a ensures Fooled(s, a) <==> IsAt(s, a, OnNull) { }
  }

  lemma Extend(opt: Opt, steps: seq<Step>, states: seq<State>, step: Step) returns (more: seq<Step>, reached: seq<State>)
    requires Run(opt, steps, states) && Enabled(states[|steps|], step)
    ensures more == steps + [step] && reached == states + [Apply(states[|steps|], step)] && Run(opt, more, reached)
  {
    more, reached := steps + [step], states + [Apply(states[|steps|], step)];
    forall i | 0 <= i < |more| ensures Linked(more, reached, i) {
      if i < |steps| { assert Linked(steps, states, i) by { var _ := steps[i]; } }
    }
  }

  lemma Alone(a: Agent, p: Pc, q: Pc)
    ensures map[][a := p] == map[a := p] && map[a := p][a := q] == map[a := q] && map[a := p] - {a} == map[]
  {
  }

  /** A handler is about to look for `ready` in a Lua state that has been closed. */
  lemma Caught(opt: Opt, h: nat) returns (steps: seq<Step>, states: seq<State>)
    ensures Run(opt, steps, states) && steps == [Acquire(Handler(h)), Enter(Handler(h)), Fetch(Handler(h)), ScriptFails, CloseFailed]
    ensures var s := states[|steps|]; s.pcs == map[Handler(h) := Fetched(true)] && s.closes == 1 && !s.private && s.load == Failed
  {
    var a := Handler(h);
    Alone(a, Locked, Tested);
    Alone(a, Tested, Fetched(true));
    steps, states := [], [Init(opt)];
    steps, states := Extend(opt, steps, states, Acquire(a));
    steps, states := Extend(opt, steps, states, Enter(a));
    steps, states := Extend(opt, steps, states, Fetch(a));
    steps, states := Extend(opt, steps, states, ScriptFails);
    steps, states := Extend(opt, steps, states, CloseFailed);
  }

  /** If what is there now reads as set, the third read finds no Lua state: the handler is called with a null pointer. */
  lemma CalledOnNull(opt: Opt, h: nat) returns (steps: seq<Step>, states: seq<State>)
    ensures Run(opt, steps, states) && |steps| == 7 && DeadRead(steps, states, 5)
    ensures states[7].pcs == map[Handler(h) := OnNull]
  {
    Alone(Handler(h), Fetched(true), Passed);
    Alone(Handler(h), Passed, OnNull);
    var a := Handler(h);
    steps, states := Caught(opt, h);
    steps, states := Extend(opt, steps, states, Peek(a, true));
    steps, states := Extend(opt, steps, states, Start(a));
  }

  // ---- a run that runs a handler ----

  /** The script is loaded and published, and then a handler runs to its end. */
  lemma Dispatched(opt: Opt, h: nat) returns (steps: seq<Step>, states: seq<State>)
    ensures var a := Handler(h);
            steps == [ScriptReturns, LockReady, SetReady, UnlockReady, Acquire(a), Enter(a), Fetch(a), Peek(a, true), Start(a),
                      Return(a), Release(a)]
    ensures Run(opt, steps, states) && states[9].pcs == map[Handler(h) := Running] && states[11].pcs == map[]
    ensures states[11].lock == Free && states[11].private && states[11].load == Published
  {
    var a := Handler(h);
    Alone(a, Locked, Tested);
    Alone(a, Tested, Fetched(true));
    Alone(a, Fetched(true), Passed);
    Alone(a, Passed, Running);
    Alone(a, Running, Leaving(Nothing));
    Alone(a, Leaving(Nothing), Locked);
    steps, states := LoadedAndPublished(opt);
    steps, states := Extend(opt, steps, states, Acquire(a));
    steps, states := Extend(opt, steps, states, Enter(a));
    steps, states := Extend(opt, steps, states, Fetch(a));
    steps, states := Extend(opt, steps, states, Peek(a, true));
    steps, states := Extend(opt, steps, states, Start(a));
    steps, states := Extend(opt, steps, states, Return(a));
    steps, states := Extend(opt, steps, states, Release(a));
  }

  lemma LoadedAndPublished(opt: Opt) returns (steps: seq<Step>, states: seq<State>)
    ensures Run(opt, steps, states) && steps == [ScriptReturns, LockReady, SetReady, UnlockReady]
    ensures var s := states[4];
            s.load == Published && s.private && s.ready && s.lock == Free && s.pcs == map[] && s.closes == 0 && s.nullCloses == 0
  {
    steps, states := [], [Init(opt)];
    steps, states := Extend(opt, steps, states, ScriptReturns);
    steps, states := Extend(opt, steps, states, LockReady);
    steps, states := Extend(opt, steps, states, SetReady);
    steps, states := Extend(opt, steps, states, UnlockReady);
  }

  // ---- stopping twice ----

  /** Step `j` is the critical section of a stop. */
  predicate StopSection(steps: seq<Step>, j: nat)
    requires j < |steps|
  {
    steps[j].Enter? && Stops(steps[j].a)
  }

  lemma {:induction false} PrivateUntilStopped(opt: Opt, steps: seq<Step>, states: seq<State>, i: nat)
    requires Run(opt, steps, states) && i <= |steps|
    ensures states[i].private <==> !LoadFailed(states[i]) && forall j | 0 <= j < i :: !StopSection(steps, j)
    decreases i
  {
    if i == 0 {
      assert states[0] == Init(opt);
    } else {
      PrivateUntilStopped(opt, steps, states, i - 1);
      RunKeepsInv(opt, steps, states, i - 1);
      assert Linked(steps, states, i - 1) by { var _ := steps[i - 1]; }
      assert i - 1 < i;
      if StopSection(steps, i - 1) { assert !states[i].private; }
    }
  }

  /** `lunatik_stop` closes a null pointer if and only if some stop came before it; `lunatik_closeobject` never does. */
  lemma StopsNullIff(opt: Opt, steps: seq<Step>, states: seq<State>, i: nat)
    requires Run(opt, steps, states) && i < |steps| && StopSection(steps, i)
    ensures states[i + 1].pcs[steps[i].a] ==
              if forall j | 0 <= j < i :: !StopSection(steps, j) then Leaving(TookState)
              else if steps[i].a.Stopper? then Leaving(TookNull) else Leaving(Nothing)
  {
    PrivateUntilStopped(opt, steps, states, i);
    RunKeepsInv(opt, steps, states, i);
    assert Linked(steps, states, i);
  }

  /** A runtime stopped once by each: the second, `lunatik_stop`, hands a null pointer to `lua_close`. */
  lemma SecondStop(opt: Opt, c: nat, d: nat) returns (steps: seq<Step>, states: seq<State>)
    ensures Run(opt, steps, states) && states[|steps|].closes == 1 && states[|steps|].nullCloses == 1
  {
    var a, b := Closer(c), Stopper(d);
    steps, states := Stopped(opt, a);
    Alone(b, Locked, Leaving(TookNull));
    Alone(b, Leaving(TookNull), Closing(TookNull));
    Alone(b, Closing(TookNull), Closing(TookNull));
    steps, states := Extend(opt, steps, states, Acquire(b));
    steps, states := Extend(opt, steps, states, Enter(b));
    steps, states := Extend(opt, steps, states, Release(b));
    steps, states := Extend(opt, steps, states, Close(b));
  }

  lemma Stopped(opt: Opt, a: Agent) returns (steps: seq<Step>, states: seq<State>)
    requires Stops(a)
    ensures Run(opt, steps, states)
    ensures var s := states[|steps|];
            s.load == Published && !s.private && s.lock == Free && s.pcs == map[] && s.closes == 1 && s.nullCloses == 0
  {
    Alone(a, Locked, Leaving(TookState));
    Alone(a, Leaving(TookState), Closing(TookState));
    Alone(a, Closing(TookState), Closing(TookState));
    steps, states := LoadedAndPublished(opt);
    steps, states := Extend(opt, steps, states, Acquire(a));
    steps, states := Extend(opt, steps, states, Enter(a));
    steps, states := Extend(opt, steps, states, Release(a));
    steps, states := Extend(opt, steps, states, Close(a));
  }
}
