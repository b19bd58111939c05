/** Whole-run results about shared objects: what a count means, how often a private part is
    released, where an object may be seen, and when nothing leaks. */
module ObjectLifetime {
  import opened Options
  import opened Objects
  import opened ObjectRuns

  /** A run: any interleaving of enabled steps from the empty system. */
  predicate Run(steps: seq<Step>, states: seq<State>) {
    && |states| == |steps| + 1
    && states[0] == Initial
    && forall i {:trigger steps[i]} | 0 <= i < |steps| :: Enabled(states[i], steps[i]) && states[i + 1] == Apply(states[i], steps[i])
  }

  lemma {:induction false} RunKeepsInv(steps: seq<Step>, states: seq<State>, i: nat)
    requires Run(steps, states) && i <= |steps|
    ensures Inv(states[i])
  {
    if i == 0 {
    } else {
      RunKeepsInv(steps, states, i - 1);
      StepKeepsInv(states[i - 1], steps[i - 1]);
    }
  }

  /** In every state of every run, a count is the number of references, an object is usable
      exactly while it is referenced, and no reference points at a freed object. */
  lemma CountIsReferences(steps: seq<Step>, states: seq<State>, i: nat, o: Id)
    requires Run(steps, states) && i <= |steps| && o in states[i].objs
    ensures states[i].objs[o].count == |RefsTo(states[i].refs, o)|
    ensures states[i].objs[o].status == Live <==> exists t | t in states[i].refs :: states[i].refs[t] == o
  {
    RunKeepsInv(steps, states, i);
    assert CountedAt(states[i].refs, o, states[i].objs[o]);
    if t :| t in states[i].refs && states[i].refs[t] == o {
      assert t in RefsTo(states[i].refs, o);
    }
    if states[i].objs[o].count > 0 {
      var t :| t in RefsTo(states[i].refs, o);
    }
  }

  // ---- exactly-once release ----

  function Finishes(steps: seq<Step>, o: Id): nat {
    if steps == [] then 0
    else Finishes(steps[..|steps| - 1], o) + if steps[|steps| - 1] == Finish(o) then 1 else 0
  }

  lemma {:induction false} FinishesIsReleases(steps: seq<Step>, states: seq<State>, o: Id)
    requires Run(steps, states)
    ensures Finishes(steps, o) == if o in states[|steps|].objs then states[|steps|].objs[o].releases else 0
  {
    if steps == [] {
    } else {
      var n := |steps| - 1;
      assert Run(steps[..n], states[..n + 1]) by {
        assert forall i | 0 <= i < n :: steps[..n][i] == steps[i] && states[..n + 1][i] == states[i];
      }
      FinishesIsReleases(steps[..n], states[..n + 1], o);
      StepCountsRelease(states[n], steps[n], o);
    }
  }

  lemma StepCountsRelease(s: State, step: Step, o: Id)
    requires Enabled(s, step)
    ensures var s' := Apply(s, step);
            && (o in s.objs ==> o in s'.objs)
            && (if o in s'.objs then s'.objs[o].releases else 0)
               == (if o in s.objs then s.objs[o].releases else 0) + (if step == Finish(o) then 1 else 0)
  {
  }

  /** A private part is released at most once however closes, finalizers and puts interleave,
      and exactly once by the time its object is freed if the object ever had one. */
  lemma ReleasedExactlyOnce(steps: seq<Step>, states: seq<State>, o: Id)
    requires Run(steps, states) && o in states[|steps|].objs
    ensures Finishes(steps, o) <= 1
    ensures Finishes(steps, o) == 1 <==> states[|steps|].objs[o].private == Released
    ensures states[|steps|].objs[o].status == Freed && states[|steps|].objs[o].private != Null ==> Finishes(steps, o) == 1
  {
    RunKeepsInv(steps, states, |steps|);
    FinishesIsReleases(steps, states, o);
    assert ReleasedAt(states[|steps|].pins.Keys, o, states[|steps|].objs[o]);
  }

  /** An object that once had a private part is never back to having none. */
  lemma {:induction false} PrivateIsNotForgotten(steps: seq<Step>, states: seq<State>, o: Id, i: nat, j: nat)
    requires Run(steps, states) && i <= j <= |steps| && o in states[i].objs && states[i].objs[o].private != Null
    ensures o in states[j].objs && states[j].objs[o].private != Null
    decreases j
  {
    if i < j {
      PrivateIsNotForgotten(steps, states, o, i, j - 1);
      StepKeepsPrivate(states[j - 1], steps[j - 1], o);
    }
  }

  lemma StepKeepsPrivate(s: State, step: Step, o: Id)
    requires Enabled(s, step) && o in s.objs && s.objs[o].private != Null
    ensures o in Apply(s, step).objs && Apply(s, step).objs[o].private != Null
  {
  }

  /** Freeing is final: a freed object is never referenced, changed or freed again. */
  lemma {:induction false} FreedIsFinal(steps: seq<Step>, states: seq<State>, o: Id, i: nat, j: nat)
    requires Run(steps, states) && i <= j <= |steps| && o in states[i].objs && states[i].objs[o].status == Freed
    ensures o in states[j].objs && states[j].objs[o] == states[i].objs[o]
    ensures forall t | t in states[j].refs :: states[j].refs[t] != o
    decreases j
  {
    hide Inv, Enabled, Apply;
    RunKeepsInv(steps, states, j);
    if i == j {
    } else {
      FreedIsFinal(steps, states, o, i, j - 1);
      RunKeepsInv(steps, states, j - 1);
      FreedUntouched(states[j - 1], steps[j - 1], o);
    }
    forall t | t in states[j].refs
      ensures states[j].refs[t] != o
    {
      ReferencedIsLive(states[j], t);
    }
  }

  lemma FreedUntouched(s: State, step: Step, o: Id)
    requires Inv(s) && Enabled(s, step) && o in s.objs && s.objs[o].status == Freed
    ensures o in Apply(s, step).objs && Apply(s, step).objs[o] == s.objs[o]
  {
    assert s.objs[o].private != Detached by { assert ReleasedAt(s.pins.Keys, o, s.objs[o]); }
    hide Inv, Enabled, Apply;
    forall t | t in s.refs ensures s.refs[t] != o { ReferencedIsLive(s, t); }
    UnreferencedUntouched(s, step, o);
  }

  lemma UnreferencedUntouched(s: State, step: Step, o: Id)
    requires Enabled(s, step) && o in s.objs && s.objs[o].status == Freed && s.objs[o].private != Detached
    requires forall t | t in s.refs :: s.refs[t] != o
    ensures o in Apply(s, step).objs && Apply(s, step).objs[o] == s.objs[o]
  {
  }

  // ---- where objects may be seen ----

  lemma {:induction false} MakeNeverChanges(steps: seq<Step>, states: seq<State>, o: Id, i: nat, j: nat)
    requires Run(steps, states) && i <= j <= |steps| && o in states[i].objs
    ensures o in states[j].objs && SameMake(states[i].objs[o], states[j].objs[o])
    decreases j
  {
    if i < j {
      MakeNeverChanges(steps, states, o, i, j - 1);
      StepKeepsMake(states[j - 1], steps[j - 1], o);
    }
  }

  lemma StepKeepsMake(s: State, step: Step, o: Id)
    requires Enabled(s, step) && o in s.objs
    ensures o in Apply(s, step).objs && SameMake(s.objs[o], Apply(s, step).objs[o])
  {
  }

  /** A SINGLE object is only ever seen by handles of the runtime that created it, and never in a table. */
  lemma SingleStaysHome(steps: seq<Step>, states: seq<State>, i: nat, j: nat, t: Ref)
    requires Run(steps, states) && i < j <= |steps| && steps[i].New?
    requires steps[i].opt.single || steps[i].cls.opt.single
    requires t in states[j].refs && states[j].refs[t] == steps[i].o
    ensures !t.Entry? && (t.Handle? ==> t.runtime == steps[i].runtime)
  {
    var o := steps[i].o;
    RunKeepsInv(steps, states, j);
    MakeNeverChanges(steps, states, o, i + 1, j);
    assert WellPlaced(states[j].objs, t, states[j].objs[o]);
  }

  /** Whatever a handle in an interrupt runtime refers to is locked by a spinlock, never a
      mutex, and allocates atomically. */
  lemma IrqRuntimeSeesSpinlocks(steps: seq<Step>, states: seq<State>, i: nat, t: Ref)
    requires Run(steps, states) && i <= |steps| && t in states[i].refs && t.Handle?
    ensures t.runtime in states[i].objs && states[i].refs[t] in states[i].objs
    ensures states[i].objs[t.runtime].opt.irq ==>
              var x := states[i].objs[states[i].refs[t]];
              LockOf(x.opt) != Mutex && x.gfp == Atomic
  {
    RunKeepsInv(steps, states, i);
    var s := states[i];
    assert OwnedAt(s.objs, t);
    assert WellPlaced(s.objs, t, s.objs[s.refs[t]]);
    assert WellMade(s.objs[s.refs[t]]);
  }

  // ---- releasing terminates ----

  predicate Internal(step: Step) {
    step.TearDrop? || step.Finish? || step.Free?
  }

  predicate PendingAt(x: Object) {
    x.private == Detached || x.status == Dying
  }

  predicate Quiet(s: State) {
    forall o | o in s.objs :: !PendingAt(s.objs[o])
  }

  function Unfreed(s: State): set<Id> {
    set o | o in s.objs && s.objs[o].status != Freed
  }

  function Unreleased(s: State): set<Id> {
    set o | o in s.objs && s.objs[o].private in {Attached, Detached}
  }

  function Work(s: State): nat {
    |s.refs.Keys| + |Unfreed(s)| + |Unreleased(s)|
  }

  /** The release cascade is never stuck: while something is being released, some agent can go on. */
  lemma ReleaseProgress(s: State) returns (step: Step)
    requires Inv(s) && !Quiet(s)
    ensures Internal(step) && Enabled(s, step)
  {
    var o :| o in s.objs && PendingAt(s.objs[o]);
    assert ReleasedAt(s.pins.Keys, o, s.objs[o]);
    if s.objs[o].private == Detached {
      if t :| t in s.refs && OwnedBy(t, o) {
        DetachedUnpinned(s, t, o);
        step := TearDrop(t);
      } else {
        step := Finish(o);
      }
    } else {
      step := Free(o);
    }
  }

  lemma DetachedUnpinned(s: State, t: Ref, o: Id)
    requires Inv(s) && o in s.objs && s.objs[o].private == Detached && t in s.refs && OwnedBy(t, o)
    ensures !Pinned(s, t)
  {
    forall p | p in s.pins
      ensures t !in s.pins[p]
    {
      assert PinAt(s, p, s.pins[p]);
      assert t in s.pins[p] ==> StackAt(s, s.pins[p], t);
    }
  }

  lemma InternalDecreasesWork(s: State, step: Step)
    requires Inv(s) && Enabled(s, step) && Internal(step)
    ensures Work(Apply(s, step)) < Work(s)
  {
    match step {
      case TearDrop(t) =>
        ReferencedIsLive(s, t);
        DropDecreasesWork(s, t);
      case Finish(o) => FinishDecreasesWork(s, o);
      case Free(o) => FreeDecreasesWork(s, o);
    }
  }

  lemma FinishDecreasesWork(s: State, o: Id)
    requires Enabled(s, Finish(o))
    ensures Work(Apply(s, Finish(o))) < Work(s)
  {
    assert Unreleased(Apply(s, Finish(o))) == Unreleased(s) - {o};
    assert Unfreed(Apply(s, Finish(o))) == Unfreed(s);
  }

  lemma FreeDecreasesWork(s: State, o: Id)
    requires Enabled(s, Free(o))
    ensures Work(Apply(s, Free(o))) < Work(s)
  {
    assert Unfreed(Apply(s, Free(o))) == Unfreed(s) - {o};
    assert Unreleased(Apply(s, Free(o))) == Unreleased(s);
  }

  lemma DropDecreasesWork(s: State, t: Ref)
    requires t in s.refs && s.refs[t] in s.objs && s.objs[s.refs[t]].status == Live
    ensures Work(DelRef(s, t)) < Work(s)
  {
    var s' := DelRef(s, t);
    assert s'.refs.Keys == s.refs.Keys - {t};
    assert Unfreed(s') == Unfreed(s);
    assert Unreleased(s') == Unreleased(s);
  }

  /** `s'` is reached from `s` by release work only. */
  predicate Drains(s: State, steps: seq<Step>, s': State)
    decreases |steps|
  {
    if steps == [] then s' == s
    else Enabled(s, steps[0]) && Internal(steps[0]) && Drains(Apply(s, steps[0]), steps[1..], s')
  }

  /** A release cascade ends: within `Work(s)` steps nothing is left half-released. Every
      internal step decreases `Work`, so it does not matter which one comes next. */
  lemma {:induction false} CascadeTerminates(s: State) returns (steps: seq<Step>, s': State)
    requires Inv(s)
    ensures Drains(s, steps, s') && |steps| <= Work(s) && Inv(s') && Quiet(s')
    decreases Work(s)
  {
    if Quiet(s) {
      steps, s' := [], s;
    } else {
      var step := ReleaseProgress(s);
      StepKeepsInv(s, step);
      InternalDecreasesWork(s, step);
      var rest;
      rest, s' := CascadeTerminates(Apply(s, step));
      steps := [step] + rest;
      assert steps[1..] == rest;
    }
  }

  // ---- memory ----

  /** Allocations that no object stands for. */
  function Lost(s: State): int {
    s.memory - |Unfreed(s)|
  }

  /** Every creation but a refused one makes an object, and every free ends one: only a refusal loses memory. */
  lemma StepLoses(s: State, step: Step)
    requires Inv(s) && Enabled(s, step)
    ensures Lost(Apply(s, step)) == Lost(s) + if step.Refuse? then 1 else 0
  {
    hide Inv, Enabled, Apply, Unfreed;
    StepMemory(s, step);
    StepUnfreed(s, step);
  }

  lemma StepMemory(s: State, step: Step)
    requires Enabled(s, step)
    ensures Apply(s, step).memory == s.memory + if step.New? || step.Create? || step.Refuse? then 1 else if step.Free? then -1 else 0
  {
  }

  lemma StepUnfreed(s: State, step: Step)
    requires Inv(s) && Enabled(s, step)
    ensures |Unfreed(Apply(s, step))| == |Unfreed(s)| + if step.New? || step.Create? then 1 else if step.Free? then -1 else 0
  {
    hide Inv, Enabled, Apply, Unfreed;
    if step.New? || step.Create? {
      MakesOne(s, step);
    } else if step.Free? {
      EndsOne(s, step.o);
    } else {
      SameUnfreed(s, step);
    }
  }

  lemma MakesOne(s: State, step: Step)
    requires Enabled(s, step) && (step.New? || step.Create?)
    ensures |Unfreed(Apply(s, step))| == |Unfreed(s)| + 1
  {
    var s' := Apply(s, step);
    assert s'.objs == s.objs[step.o := s'.objs[step.o]] && s'.objs[step.o].status == Live && step.o !in s.objs;
    hide Enabled, Apply;
    OneMoreUnfreed(s, s', step.o);
  }

  lemma OneMoreUnfreed(s: State, s': State, o: Id)
    requires o !in s.objs && o in s'.objs && s'.objs == s.objs[o := s'.objs[o]] && s'.objs[o].status == Live
    ensures |Unfreed(s')| == |Unfreed(s)| + 1
  {
    assert Unfreed(s') == Unfreed(s) + {o};
  }

  lemma EndsOne(s: State, o: Id)
    requires Enabled(s, Free(o))
    ensures |Unfreed(Apply(s, Free(o)))| == |Unfreed(s)| - 1
  {
    assert Unfreed(Apply(s, Free(o))) == Unfreed(s) - {o};
  }

  lemma SameUnfreed(s: State, step: Step)
    requires Inv(s) && Enabled(s, step) && !step.New? && !step.Create? && !step.Free?
    ensures Unfreed(Apply(s, step)) == Unfreed(s)
  {
    hide Inv, Enabled, Apply;
    SameObjects(s, step);
    forall o | o in s.objs ensures Apply(s, step).objs[o].status == Freed <==> s.objs[o].status == Freed {
      FreedAtFree(s, step, o);
    }
  }

  lemma SameObjects(s: State, step: Step)
    requires Enabled(s, step) && !step.New? && !step.Create?
    ensures Apply(s, step).objs.Keys == s.objs.Keys
  {
  }

  lemma FreedAtFree(s: State, step: Step, o: Id)
    requires Inv(s) && Enabled(s, step) && !step.New? && !step.Create? && !step.Free? && o in s.objs
    ensures o in Apply(s, step).objs && (Apply(s, step).objs[o].status == Freed <==> s.objs[o].status == Freed)
  {
    if step.Drop? || step.TearDrop? {
      ReferencedIsLive(s, step.t);
    } else {
      hide Inv;
      StatusKept(s, step, o);
    }
  }

  lemma StatusKept(s: State, step: Step, o: Id)
    requires Enabled(s, step) && o in s.objs
    requires !step.New? && !step.Create? && !step.Free? && !step.Drop? && !step.TearDrop?
    ensures o in Apply(s, step).objs && Apply(s, step).objs[o].status == s.objs[o].status
  {
  }

  function Refusals(steps: seq<Step>): nat {
    if steps == [] then 0 else Refusals(steps[..|steps| - 1]) + if steps[|steps| - 1].Refuse? then 1 else 0
  }

  /** In every run the memory in use is that of the objects not yet freed, and one object's for every refused
      creation. */
  lemma {:induction false} MemoryIsObjects(steps: seq<Step>, states: seq<State>, i: nat)
    requires Run(steps, states) && i <= |steps|
    ensures states[i].memory == |Unfreed(states[i])| + Refusals(steps[..i])
    decreases i
  {
    hide Enabled, Apply, Unfreed, Inv;
    if i == 0 {
      assert Unfreed(Initial) == {} by { NothingYet(); }
    } else {
      MemoryIsObjects(steps, states, i - 1);
      RunKeepsInv(steps, states, i - 1);
      StepLoses(states[i - 1], steps[i - 1]);
      assert steps[..i][..i - 1] == steps[..i - 1];
    }
  }

  lemma NothingYet()
    ensures Unfreed(Initial) == {}
  {
  }

  lemma {:induction false} NoRefusals(steps: seq<Step>)
    ensures Refusals(steps) == 0 <==> forall i | 0 <= i < |steps| :: !steps[i].Refuse?
  {
    if steps == [] {
    } else {
      NoRefusals(steps[..|steps| - 1]);
      assert steps == steps[..|steps| - 1] + [steps[|steps| - 1]];
    }
  }

  // ---- leaks ----

  /** No object reaches itself through tables and Lua states: owners rank below what they own. */
  ghost predicate Acyclic(s: State) {
    exists rank: map<Id, nat> :: Ranked(s, rank)
  }

  predicate Ranked(s: State, rank: map<Id, nat>) {
    forall t | t in s.refs && !t.Hold? ::
      var owner := if t.Handle? then t.runtime else t.table;
      owner in rank && s.refs[t] in rank && rank[owner] < rank[s.refs[t]]
  }

  predicate AllFreed(s: State) {
    forall o | o in s.objs :: s.objs[o].status == Freed
  }

  /** When C code holds nothing and no release is under way, everything has been freed if and
      only if no objects hold each other in a cycle. */
  lemma NothingLeaksIffAcyclic(s: State)
    requires Inv(s) && Quiet(s) && forall t | t in s.refs :: !t.Hold?
    ensures AllFreed(s) <==> Acyclic(s)
  {
    if AllFreed(s) {
      forall t | t in s.refs ensures false { ReferencedIsLive(s, t); }
      assert Ranked(s, map[]);
    }
    if Acyclic(s) {
      var rank: map<Id, nat> :| Ranked(s, rank);
      forall o | o in s.objs
        ensures s.objs[o].status == Freed
      {
        assert !PendingAt(s.objs[o]);
        if s.objs[o].status == Live { LiveChainEnds(s, rank, o); }
      }
    }
  }

  /** When C code holds nothing and no release is under way, all memory has been given back if and only if no objects
      hold each other in a cycle and no creation was refused. */
  lemma NothingLeaksIff(steps: seq<Step>, states: seq<State>)
    requires Run(steps, states)
    requires var s := states[|steps|]; Quiet(s) && forall t | t in s.refs :: !t.Hold?
    ensures states[|steps|].memory == 0
            <==> Acyclic(states[|steps|]) && forall i | 0 <= i < |steps| :: !steps[i].Refuse?
  {
    var s := states[|steps|];
    RunKeepsInv(steps, states, |steps|);
    MemoryIsObjects(steps, states, |steps|);
    hide Run, Inv, Quiet, Acyclic;
    assert steps[..|steps|] == steps;
    NoRefusals(steps);
    NothingLeaksIffAcyclic(s);
    assert AllFreed(s) <==> Unfreed(s) == {} by { AllFreedIff(s); }
  }

  lemma AllFreedIff(s: State)
    ensures AllFreed(s) <==> Unfreed(s) == {}
  {
    if Unfreed(s) == {} {
      forall o | o in s.objs ensures s.objs[o].status == Freed { assert o !in Unfreed(s); }
    }
  }

  /** A process class asked for in an interrupt runtime: when everything has been released, one object's memory is
      still in use. */
  lemma RefusedCreationLeaks(runtime: Class, cls: Class) returns (steps: seq<Step>, states: seq<State>)
    requires runtime.kind == Runtime && cls.kind != Runtime && !cls.opt.irq
    ensures Run(steps, states)
    ensures var s := states[|steps|]; Quiet(s) && s.refs == map[] && AllFreed(s) && s.memory == 1
  {
    var irq := Opt(true, false, false, false, false);
    var x := SetObject(runtime, irq, InKernel, Attached);
    steps, states := [], [Initial];
    steps, states := Extend(steps, states, Create(0, 0, runtime, irq));
    CreatedAlone(runtime, irq);
    hide Enabled, Apply;
    RefusedAlone(x, cls, 1);
    steps, states := Extend(steps, states, Refuse(0, cls));
    DroppedAlone(x, 2);
    steps, states := Extend(steps, states, Drop(Hold(0)));
    FinishedAlone(Unref(x), 2);
    steps, states := Extend(steps, states, Finish(0));
    FreedAlone(Unref(x).(private := Released, releases := 1), 2);
    steps, states := Extend(steps, states, Free(0));
  }

  lemma Extend(steps: seq<Step>, states: seq<State>, step: Step) returns (more: seq<Step>, reached: seq<State>)
    requires Run(steps, states) && Enabled(states[|steps|], step)
    ensures more == steps + [step] && reached == states + [Apply(states[|steps|], step)] && Run(more, reached)
  {
    hide Enabled, Apply;
    more, reached := steps + [step], states + [Apply(states[|steps|], step)];
    forall i | 0 <= i < |more| ensures Enabled(reached[i], more[i]) && reached[i + 1] == Apply(reached[i], more[i]) {
      if i < |steps| { var _ := steps[i]; }
    }
  }

  /** One object, held by C code or by nobody. */
  function Alone(x: Object, held: bool, memory: int): State {
    State(map[0 := x], if held then map[Hold(0) := 0] else map[], map[], memory)
  }

  lemma CreatedAlone(cls: Class, opt: Opt)
    ensures Enabled(Initial, Create(0, 0, cls, opt))
    ensures Apply(Initial, Create(0, 0, cls, opt)) == Alone(SetObject(cls, opt, InKernel, Attached), true, 1)
  {
  }

  lemma RefusedAlone(x: Object, cls: Class, memory: int)
    requires x.cls.kind == Runtime && x.private == Attached && cls.kind != Runtime && !Admits(x.opt, cls.opt)
    ensures Enabled(Alone(x, true, memory), Refuse(0, cls))
    ensures Apply(Alone(x, true, memory), Refuse(0, cls)) == Alone(x, true, memory + 1)
  {
  }

  lemma DroppedAlone(x: Object, memory: int)
    ensures Enabled(Alone(x, true, memory), Drop(Hold(0)))
    ensures Apply(Alone(x, true, memory), Drop(Hold(0))) == Alone(Unref(x), false, memory)
  {
    var s := Alone(x, true, memory);
    assert s.refs - {Hold(0)} == map[] && s.objs[0 := Unref(x)] == map[0 := Unref(x)];
  }

  lemma FinishedAlone(x: Object, memory: int)
    requires x.private == Detached
    ensures Enabled(Alone(x, false, memory), Finish(0))
    ensures Apply(Alone(x, false, memory), Finish(0)) == Alone(x.(private := Released, releases := x.releases + 1), false, memory)
  {
  }

  lemma FreedAlone(x: Object, memory: int)
    requires x.status == Dying && x.private == Released
    ensures Enabled(Alone(x, false, memory), Free(0))
    ensures Apply(Alone(x, false, memory), Free(0)) == Alone(x.(status := Freed), false, memory - 1)
  {
  }

  /** In such a state a live object has a live owner of lower rank, which cannot go on forever. */
  lemma {:induction false} LiveChainEnds(s: State, rank: map<Id, nat>, o: Id)
    requires Inv(s) && Quiet(s) && Ranked(s, rank) && forall t | t in s.refs :: !t.Hold?
    requires o in s.objs && s.objs[o].status == Live
    ensures false
    decreases if o in rank then rank[o] else 0
  {
    assert CountedAt(s.refs, o, s.objs[o]);
    var t :| t in RefsTo(s.refs, o);
    var owner := if t.Handle? then t.runtime else t.table;
    assert OwnedAt(s.objs, t);
    assert ReleasedAt(s.pins.Keys, owner, s.objs[owner]);
    assert !PendingAt(s.objs[owner]);
    LiveChainEnds(s, rank, owner);
  }

  /** The acyclicity condition is needed: a table stored in itself outlives its last handle. */
  lemma SelfContainedTableLeaks(cls: Class) returns (steps: seq<Step>, states: seq<State>)
    requires cls.kind == Table && !cls.opt.single
    ensures Run(steps, states)
    ensures var s := states[|steps|]; Quiet(s) && !AllFreed(s) && forall t | t in s.refs :: !t.Hold?
  {
    var none := Opt(false, false, false, false, false);
    CreatedAlone(cls, none);
    steps, states := [], [Initial];
    steps, states := Extend(steps, states, Create(0, 0, cls, none));
    hide Enabled, Apply;
    LeftInItself(SetObject(cls, none, InKernel, Attached), "self");
    steps, states := Extend(steps, states, TableSet(Hold(0), 0, "self"));
    steps, states := Extend(steps, states, Drop(Hold(0)));
  }

  lemma LeftInItself(x: Object, key: string)
    requires x.cls.kind == Table && !x.opt.single && x.private == Attached && x.count == 1 && x.status == Live
    ensures var s, put := Alone(x, true, 1), TableSet(Hold(0), 0, key);
            Enabled(s, put) && Enabled(Apply(s, put), Drop(Hold(0)))
            && Apply(Apply(s, put), Drop(Hold(0))) == State(map[0 := x], map[Entry(0, key) := 0], map[], 1)
  {
  }
}
