/** What an interrupt runtime reaches through its handles and the tables behind them (lunatik.h, lunatik_obj.c,
    lunatik_val.c): a handle is checked against the runtime, an entry of a table is not. */
module ObjectContexts {
  import opened Options
  import opened Objects
  import opened ObjectRuns
  import opened ObjectLifetime

  // ---- reachability ----

  /** The runtime or table that holds the reference. */
  function Owner(t: Ref): Id
    requires !t.Hold?
  {
    if t.Handle? then t.runtime else t.table
  }

  /** References that lead from object `a` to object `b`, each held by what the one before refers to. */
  ghost predicate Path(refs: map<Ref, Id>, a: Id, path: seq<Ref>, b: Id)
    decreases |path|
  {
    if path == [] then a == b
    else path[0] in refs && !path[0].Hold? && Owner(path[0]) == a && Path(refs, refs[path[0]], path[1..], b)
  }

  /** `b` is `a` or is reached from it. */
  ghost predicate Reaches(refs: map<Ref, Id>, a: Id, b: Id) {
    exists path :: Path(refs, a, path, b)
  }

  lemma ReachesItself(refs: map<Ref, Id>, a: Id)
    ensures Reaches(refs, a, a)
  {
    assert Path(refs, a, [], a);
  }

  lemma {:induction false} PathMore(refs: map<Ref, Id>, a: Id, path: seq<Ref>, b: Id, t: Ref)
    requires Path(refs, a, path, b) && t in refs && !t.Hold? && Owner(t) == b
    ensures Path(refs, a, path + [t], refs[t])
    decreases |path|
  {
    if path == [] {
      assert (path + [t])[1..] == [];
    } else {
      PathMore(refs, refs[path[0]], path[1..], b, t);
      assert (path + [t])[1..] == path[1..] + [t];
    }
  }

  lemma ReachesMore(refs: map<Ref, Id>, a: Id, t: Ref)
    requires t in refs && !t.Hold? && Reaches(refs, a, Owner(t))
    ensures Reaches(refs, a, refs[t])
  {
    var path :| Path(refs, a, path, Owner(t));
    PathMore(refs, a, path, Owner(t), t);
  }

  lemma {:induction false} PathJoins(refs: map<Ref, Id>, a: Id, p: seq<Ref>, b: Id, q: seq<Ref>, c: Id)
    requires Path(refs, a, p, b) && Path(refs, b, q, c)
    ensures Path(refs, a, p + q, c)
    decreases |p|
  {
    if p == [] {
      assert p + q == q;
    } else {
      PathJoins(refs, refs[p[0]], p[1..], b, q, c);
      assert (p + q)[1..] == p[1..] + q;
    }
  }

  lemma ReachesOn(refs: map<Ref, Id>, a: Id, b: Id, c: Id)
    requires Reaches(refs, a, b) && Reaches(refs, b, c)
    ensures Reaches(refs, a, c)
  {
    var p :| Path(refs, a, p, b);
    var q :| Path(refs, b, q, c);
    PathJoins(refs, a, p, b, q, c);
  }

  /** A set that no reference leaves. */
  ghost predicate ClosedUnder(refs: map<Ref, Id>, ids: iset<Id>) {
    forall t | t in refs && !t.Hold? && Owner(t) in ids :: refs[t] in ids
  }

  lemma {:induction false} PathStaysIn(refs: map<Ref, Id>, a: Id, path: seq<Ref>, b: Id, ids: iset<Id>)
    requires Path(refs, a, path, b) && ClosedUnder(refs, ids) && a in ids
    ensures b in ids
    decreases |path|
  {
    if path == [] {
    } else {
      PathStaysIn(refs, refs[path[0]], path[1..], b, ids);
    }
  }

  /** Everything reached from `a` is in a set that holds `a` and that no reference leaves. */
  lemma StaysIn(refs: map<Ref, Id>, a: Id, ids: iset<Id>)
    requires ClosedUnder(refs, ids) && a in ids
    ensures forall b | Reaches(refs, a, b) :: b in ids
  {
    forall b | Reaches(refs, a, b) ensures b in ids {
      var path :| Path(refs, a, path, b);
      PathStaysIn(refs, a, path, b, ids);
    }
  }

  ghost function From(refs: map<Ref, Id>, a: Id): iset<Id> {
    iset b | Reaches(refs, a, b)
  }

  lemma FromIsClosed(refs: map<Ref, Id>, a: Id)
    ensures ClosedUnder(refs, From(refs, a))
  {
    hide Reaches;
    forall t | t in refs && !t.Hold? && Owner(t) in From(refs, a) ensures refs[t] in From(refs, a) {
      ReachesMore(refs, a, t);
    }
  }

  // ---- what an interrupt runtime reaches ----

  predicate Spinlocked(s: State, o: Id) {
    o in s.objs && LockOf(s.objs[o].opt) != Mutex && s.objs[o].gfp == Atomic
  }

  predicate InterruptRuntime(s: State, r: Id) {
    r in s.objs && s.objs[r].cls.kind == Runtime && s.objs[r].opt.irq
  }

  /** Everything reached from `a`, itself included, may be locked and released in interrupt context. */
  ghost predicate Clean(s: State, a: Id) {
    forall b | Reaches(s.refs, a, b) :: Spinlocked(s, b)
  }

  /** No table that `r` reaches holds an object made without the interrupt option. */
  ghost predicate TablesFit(s: State, r: Id) {
    forall t | t in s.refs && t.Entry? && Reaches(s.refs, r, t.table) ::
      s.refs[t] in s.objs && s.objs[s.refs[t]].opt.irq
  }

  lemma SpinlockedIff(s: State, o: Id)
    requires Inv(s) && o in s.objs
    ensures Spinlocked(s, o) <==> s.objs[o].opt.irq
  {
    assert WellMade(s.objs[o]);
  }

  /** What a handle of an interrupt runtime refers to was checked. */
  lemma HandleChecked(s: State, t: Ref)
    requires Inv(s) && t in s.refs && t.Handle? && t.runtime in s.objs && s.objs[t.runtime].opt.irq
    ensures s.refs[t] in s.objs && s.objs[s.refs[t]].opt.irq
  {
    assert WellPlaced(s.objs, t, s.objs[s.refs[t]]) && WellMade(s.objs[s.refs[t]]);
  }

  /** Everything an interrupt runtime reaches is spinlocked if and only if no table it reaches holds an object made
      without the interrupt option: handles are checked, entries are not. */
  lemma CleanIff(s: State, r: Id)
    requires Inv(s) && InterruptRuntime(s, r)
    ensures Clean(s, r) <==> TablesFit(s, r)
  {
    hide Inv, Reaches, Spinlocked;
    if Clean(s, r) {
      forall t | t in s.refs && t.Entry? && Reaches(s.refs, r, t.table)
        ensures s.refs[t] in s.objs && s.objs[s.refs[t]].opt.irq
      {
        ReachesMore(s.refs, r, t);
        ReferredExists(s, t);
        SpinlockedIff(s, s.refs[t]);
      }
    }
    if TablesFit(s, r) {
      forall b | Reaches(s.refs, r, b) ensures Spinlocked(s, b) { FitMeansSpinlocked(s, r, b); }
    }
  }

  lemma ReferredExists(s: State, t: Ref)
    requires Inv(s) && t in s.refs
    ensures s.refs[t] in s.objs
  {
  }

  /** An object that is neither a runtime nor a table is all there is to check. */
  lemma PlainCleanIff(s: State, o: Id)
    requires Inv(s) && o in s.objs && s.objs[o].cls.kind == Plain
    ensures Clean(s, o) <==> s.objs[o].opt.irq
  {
    ReachesItself(s.refs, o);
    SpinlockedIff(s, o);
    forall t | t in s.refs && !t.Hold? ensures Owner(t) != o { assert OwnedAt(s.objs, t); }
    hide Inv, Spinlocked;
    StaysIn(s.refs, o, iset{o});
  }

  lemma FitMeansSpinlocked(s: State, r: Id, b: Id)
    requires Inv(s) && InterruptRuntime(s, r) && TablesFit(s, r) && Reaches(s.refs, r, b)
    ensures Spinlocked(s, b)
  {
    var path :| Path(s.refs, r, path, b);
    var fit := iset o | Reaches(s.refs, r, o) && o in s.objs && s.objs[o].opt.irq;
    hide Inv, Reaches, Spinlocked;
    forall t | t in s.refs && !t.Hold? && Owner(t) in fit ensures s.refs[t] in fit {
      ReachesMore(s.refs, r, t);
      if t.Handle? { HandleChecked(s, t); }
    }
    ReachesItself(s.refs, r);
    PathStaysIn(s.refs, r, path, b, fit);
    SpinlockedIff(s, b);
  }

  // ---- which steps keep that ----

  /** Every interrupt runtime reaches only what fits it. */
  ghost predicate Safe(s: State) {
    forall r | InterruptRuntime(s, r) :: Clean(s, r)
  }

  /** An interrupt runtime, or something it reaches. */
  ghost predicate Exposed(s: State, o: Id) {
    exists r :: InterruptRuntime(s, r) && Reaches(s.refs, r, o)
  }

  /** The step puts a reference to an object that reaches, or is, one without the interrupt option where an interrupt
      runtime reaches it. */
  ghost predicate Taints(s: State, step: Step)
    requires Enabled(s, step)
  {
    match step
    case Push(src, r, slot) => Exposed(s, r) && !Clean(s, s.refs[src])
    case Clone(hold, r, slot) => Exposed(s, r) && !Clean(s, s.refs[Hold(hold)])
    case TableSet(src, t, key) => Exposed(s, t) && !Clean(s, s.refs[src])
    case TableReplace(src, t, key, hold) => Exposed(s, t) && !Clean(s, s.refs[src])
    case _ => false
  }

  /** The same objects, made alike. */
  predicate Alike(s: State, s': State) {
    s'.objs.Keys == s.objs.Keys && forall o | o in s.objs :: SameMake(s.objs[o], s'.objs[o])
  }

  lemma SameMakeFits(s: State, s': State, o: Id)
    requires Alike(s, s')
    ensures Spinlocked(s', o) <==> Spinlocked(s, o)
    ensures InterruptRuntime(s', o) <==> InterruptRuntime(s, o)
  {
  }

  /** References are only taken away: nothing more is reached. */
  lemma FewerIsSafe(s: State, s': State)
    requires Safe(s) && Alike(s, s')
    requires forall t | t in s'.refs && !t.Hold? :: t in s.refs && s.refs[t] == s'.refs[t]
    ensures Safe(s')
  {
    hide Alike, Spinlocked, InterruptRuntime, Reaches;
    forall r, b | InterruptRuntime(s', r) && Reaches(s'.refs, r, b) ensures Spinlocked(s', b) {
      SameMakeFits(s, s', r);
      SameMakeFits(s, s', b);
      FewerReaches(s.refs, s'.refs, r, b);
      assert Clean(s, r);
    }
  }

  lemma FewerReaches(refs: map<Ref, Id>, refs': map<Ref, Id>, a: Id, b: Id)
    requires forall t | t in refs' && !t.Hold? :: t in refs && refs[t] == refs'[t]
    requires Reaches(refs', a, b)
    ensures Reaches(refs, a, b)
  {
    var path :| Path(refs', a, path, b);
    ReachesItself(refs, a);
    FromIsClosed(refs, a);
    hide Reaches;
    PathStaysIn(refs', a, path, b, From(refs, a));
  }

  /** `s'` is `s` with reference `t` to `o`, new or in place of what was there; C code may hold others. */
  ghost predicate Adds(s: State, s': State, t: Ref, o: Id) {
    && Alike(s, s') && !t.Hold? && t in s'.refs && s'.refs[t] == o
    && (forall u | u in s'.refs && !u.Hold? && u != t :: u in s.refs && s.refs[u] == s'.refs[u])
    && (forall u | u in s.refs && !u.Hold? && u != t :: u in s'.refs && s'.refs[u] == s.refs[u])
  }

  /** Adding a clean object, or adding it where no interrupt runtime reaches, keeps everything safe. */
  lemma AddsSafely(s: State, s': State, t: Ref, o: Id)
    requires Safe(s) && Adds(s, s', t, o) && (Exposed(s, Owner(t)) ==> Clean(s, o))
    ensures Safe(s')
  {
    hide Alike, Spinlocked, InterruptRuntime, Reaches;
    forall r, b | InterruptRuntime(s', r) && Reaches(s'.refs, r, b) ensures Spinlocked(s', b) {
      SameMakeFits(s, s', r);
      SameMakeFits(s, s', b);
      assert Clean(s, r);
      if Reaches(s.refs, r, Owner(t)) { assert Exposed(s, Owner(t)); }
      AddedReaches(s, s', t, o, r, b);
    }
  }

  /** What is reached then was reached before, or from the object added. */
  lemma AddedReaches(s: State, s': State, t: Ref, o: Id, r: Id, b: Id)
    requires Adds(s, s', t, o) && Reaches(s'.refs, r, b)
    ensures Reaches(s.refs, r, b) || (Reaches(s.refs, r, Owner(t)) && Reaches(s.refs, o, b))
  {
    var path :| Path(s'.refs, r, path, b);
    hide Reaches, Alike;
    ReachesItself(s.refs, r);
    ReachesItself(s.refs, o);
    var ids := iset x | Reaches(s.refs, r, x) || (Reaches(s.refs, r, Owner(t)) && Reaches(s.refs, o, x));
    forall u | u in s'.refs && !u.Hold? && Owner(u) in ids ensures s'.refs[u] in ids {
      if u != t {
        if Reaches(s.refs, r, Owner(u)) { ReachesMore(s.refs, r, u); }
        if Reaches(s.refs, o, Owner(u)) { ReachesMore(s.refs, o, u); }
      }
    }
    PathStaysIn(s'.refs, r, path, b, ids);
  }

  /** Adding one that is not clean where an interrupt runtime reaches breaks it. */
  lemma AddsUnsafely(s: State, s': State, t: Ref, o: Id)
    requires Safe(s) && Adds(s, s', t, o) && Exposed(s, Owner(t)) && !Clean(s, o)
    ensures !Safe(s')
  {
    hide Alike, Spinlocked, InterruptRuntime, Reaches;
    var r :| InterruptRuntime(s, r) && Reaches(s.refs, r, Owner(t));
    var b :| Reaches(s.refs, o, b) && !Spinlocked(s, b);
    SameMakeFits(s, s', r);
    SameMakeFits(s, s', b);
    StillReached(s, s', t, o, r);
    ReachesMore(s'.refs, r, t);
    StillReachedFrom(s, s', t, o, r, b);
    ReachesOn(s'.refs, r, o, b);
    assert !Clean(s', r);
  }

  /** The owner is reached without its own references. */
  lemma StillReached(s: State, s': State, t: Ref, o: Id, r: Id)
    requires Adds(s, s', t, o) && Reaches(s.refs, r, Owner(t))
    ensures Reaches(s'.refs, r, Owner(t))
  {
    var path :| Path(s.refs, r, path, Owner(t));
    WithoutOwn(s, s', t, o, r, path);
  }

  lemma {:induction false} WithoutOwn(s: State, s': State, t: Ref, o: Id, r: Id, path: seq<Ref>)
    requires Adds(s, s', t, o) && Path(s.refs, r, path, Owner(t))
    ensures Reaches(s'.refs, r, Owner(t))
    decreases |path|
  {
    hide Reaches, Alike;
    if path == [] || Owner(path[0]) == Owner(t) {
      ReachesItself(s'.refs, r);
    } else {
      var next := s.refs[path[0]];
      WithoutOwn(s, s', t, o, next, path[1..]);
      ReachesItself(s'.refs, r);
      ReachesMore(s'.refs, r, path[0]);
      ReachesOn(s'.refs, r, next, Owner(t));
    }
  }

  /** What is not spinlocked is reached from `o` without `t`, since all that `t` led to was. */
  lemma StillReachedFrom(s: State, s': State, t: Ref, o: Id, r: Id, b: Id)
    requires Safe(s) && Adds(s, s', t, o) && InterruptRuntime(s, r) && Reaches(s.refs, r, Owner(t))
    requires Reaches(s.refs, o, b) && !Spinlocked(s, b)
    ensures Reaches(s'.refs, o, b)
  {
    var path :| Path(s.refs, o, path, b);
    AvoidsOld(s, s', t, o, r, o, path, b);
  }

  lemma {:induction false} AvoidsOld(s: State, s': State, t: Ref, o: Id, r: Id, a: Id, path: seq<Ref>, b: Id)
    requires Safe(s) && Adds(s, s', t, o) && InterruptRuntime(s, r) && Reaches(s.refs, r, Owner(t))
    requires Path(s.refs, a, path, b) && !Spinlocked(s, b)
    ensures Reaches(s'.refs, a, b)
    decreases |path|
  {
    hide Reaches, Alike, Spinlocked, InterruptRuntime;
    ReachesItself(s'.refs, a);
    if path == [] {
    } else if path[0] == t {
      ExposedIsSpinlocked(s, r, Owner(t), path, b);
    } else {
      var next := s.refs[path[0]];
      AvoidsOld(s, s', t, o, r, next, path[1..], b);
      ReachesMore(s'.refs, a, path[0]);
      ReachesOn(s'.refs, a, next, b);
    }
  }

  lemma ExposedIsSpinlocked(s: State, r: Id, a: Id, path: seq<Ref>, b: Id)
    requires Safe(s) && InterruptRuntime(s, r) && Reaches(s.refs, r, a) && Path(s.refs, a, path, b)
    ensures Spinlocked(s, b)
  {
    ReachesOn(s.refs, r, a, b);
    hide Reaches;
    assert Clean(s, r);
  }

  // ---- steps ----

  /** A fresh object holds nothing; one made where an interrupt runtime reaches was checked. */
  lemma FreshIsSafe(s: State, s': State, t: Ref, o: Id)
    requires Inv(s) && Safe(s) && o !in s.objs && !t.Entry?
    requires s'.objs.Keys == s.objs.Keys + {o} && s'.refs == s.refs[t := o]
    requires forall p | p in s.objs :: s'.objs[p] == s.objs[p]
    requires s'.objs[o].opt.irq ==> Spinlocked(s', o)
    requires t.Handle? ==> t.runtime in s.objs && (Exposed(s, t.runtime) ==> Spinlocked(s', o))
    ensures Safe(s')
  {
    forall r | InterruptRuntime(s', r) ensures Clean(s', r) {
      if r == o { FreshIsClean(s, s', t, o); } else { FreshAdded(s, s', t, o, r); }
    }
  }

  lemma FreshIsClean(s: State, s': State, t: Ref, o: Id)
    requires Inv(s) && o !in s.objs && !t.Entry? && s'.refs == s.refs[t := o] && Spinlocked(s', o)
    requires t.Handle? ==> t.runtime in s.objs
    ensures Clean(s', o)
  {
    forall u | u in s'.refs && !u.Hold? ensures Owner(u) != o {
      if u != t { OwnerExists(s, u); }
    }
    StaysIn(s'.refs, o, iset{o});
  }

  lemma OwnerExists(s: State, t: Ref)
    requires Inv(s) && t in s.refs && !t.Hold?
    ensures Owner(t) in s.objs
  {
    assert OwnedAt(s.objs, t);
  }

  lemma FreshAdded(s: State, s': State, t: Ref, o: Id, r: Id)
    requires Inv(s) && Safe(s) && o !in s.objs && !t.Entry? && s'.refs == s.refs[t := o]
    requires s'.objs.Keys == s.objs.Keys + {o} && forall p | p in s.objs :: s'.objs[p] == s.objs[p]
    requires t.Handle? ==> t.runtime in s.objs && (Exposed(s, t.runtime) ==> Spinlocked(s', o))
    requires InterruptRuntime(s', r) && r != o
    ensures Clean(s', r)
  {
    assert InterruptRuntime(s, r) && Clean(s, r);
    hide Inv, Safe, Reaches, InterruptRuntime;
    FreshReached(s, s', t, o, r);
    if t.Handle? && Reaches(s.refs, r, t.runtime) { assert Exposed(s, t.runtime); }
  }

  lemma FreshReached(s: State, s': State, t: Ref, o: Id, r: Id)
    requires Inv(s) && o !in s.objs && !t.Entry? && s'.refs == s.refs[t := o]
    requires t.Handle? ==> t.runtime in s.objs
    ensures forall b | Reaches(s'.refs, r, b) ::
              Reaches(s.refs, r, b) || (b == o && t.Handle? && Reaches(s.refs, r, t.runtime))
  {
    ReachesItself(s.refs, r);
    hide Reaches, Inv;
    var ids := iset x | Reaches(s.refs, r, x) || (x == o && t.Handle? && Reaches(s.refs, r, t.runtime));
    forall u | u in s'.refs && !u.Hold? && Owner(u) in ids ensures s'.refs[u] in ids {
      if u != t {
        OwnerExists(s, u);
        ReachesMore(s.refs, r, u);
      }
    }
    StaysIn(s'.refs, r, ids);
  }

  lemma NewIsSafe(s: State, step: Step)
    requires Inv(s) && Safe(s) && Enabled(s, step) && (step.New? || step.Create?)
    ensures Safe(Apply(s, step))
  {
    hide Inv, Safe, Exposed, Admits, Clean, Inherit;
    if step.New? {
      if Exposed(s, step.runtime) { CheckedIsSpinlocked(s, step); }
      FreshIsSafe(s, Apply(s, step), Handle(step.runtime, step.slot), step.o);
    } else {
      FreshIsSafe(s, Apply(s, step), Hold(step.hold), step.o);
    }
  }

  lemma CheckedIsSpinlocked(s: State, step: Step)
    requires Safe(s) && Enabled(s, step) && step.New? && Exposed(s, step.runtime)
    ensures Spinlocked(Apply(s, step), step.o)
  {
    var r :| InterruptRuntime(s, r) && Reaches(s.refs, r, step.runtime);
    hide Reaches;
    assert Clean(s, r);
    assert Spinlocked(s, step.runtime);
  }

  lemma StaysAlike(s: State, step: Step)
    requires Enabled(s, step) && !step.New? && !step.Create?
    ensures Alike(s, Apply(s, step))
  {
    SameObjects(s, step);
    hide Enabled, Apply;
    forall o | o in s.objs ensures SameMake(s.objs[o], Apply(s, step).objs[o]) { StepKeepsMake(s, step, o); }
  }

  /** The step puts a reference to `o` where a runtime or a table holds it. */
  predicate Puts(s: State, step: Step, t: Ref, o: Id)
    requires Enabled(s, step)
  {
    match step
    case Push(src, r, slot) => t == Handle(r, slot) && o == s.refs[src]
    case Clone(hold, r, slot) => t == Handle(r, slot) && o == s.refs[Hold(hold)]
    case TableSet(src, b, key) => t == Entry(b, key) && o == s.refs[src]
    case TableReplace(src, b, key, hold) => t == Entry(b, key) && o == s.refs[src]
    case _ => false
  }

  lemma PutAdds(s: State, step: Step, t: Ref, o: Id)
    requires Enabled(s, step) && Puts(s, step, t, o)
    ensures Adds(s, Apply(s, step), t, o)
  {
    StaysAlike(s, step);
    hide Alike;
  }

  lemma OthersTakeAway(s: State, step: Step, t: Ref)
    requires Enabled(s, step) && !step.New? && !step.Create? && t in Apply(s, step).refs && !t.Hold?
    requires !step.Push? && !step.Clone? && !step.TableSet? && !step.TableReplace?
    ensures t in s.refs && s.refs[t] == Apply(s, step).refs[t]
  {
  }

  /** From a safe state, a step leads to a safe state if and only if it does not put a tainted object where an
      interrupt runtime reaches it. */
  lemma StepSafeIff(s: State, step: Step)
    requires Inv(s) && Safe(s) && Enabled(s, step)
    ensures Safe(Apply(s, step)) <==> !Taints(s, step)
  {
    hide Inv, Safe, Exposed, Clean;
    if step.New? || step.Create? {
      NewIsSafe(s, step);
    } else if t, o :| Puts(s, step, t, o) {
      PutSafeIff(s, step, t, o);
    } else {
      NotPut(s, step);
      StaysAlike(s, step);
      hide Enabled, Apply, Alike;
      forall t | t in Apply(s, step).refs && !t.Hold? ensures t in s.refs && s.refs[t] == Apply(s, step).refs[t] {
        OthersTakeAway(s, step, t);
      }
      FewerIsSafe(s, Apply(s, step));
    }
  }

  lemma NotPut(s: State, step: Step)
    requires Enabled(s, step) && forall t, o :: !Puts(s, step, t, o)
    ensures !step.Push? && !step.Clone? && !step.TableSet? && !step.TableReplace?
  {
    match step
    case Push(src, r, slot) => assert Puts(s, step, Handle(r, slot), s.refs[src]);
    case Clone(hold, r, slot) => assert Puts(s, step, Handle(r, slot), s.refs[Hold(hold)]);
    case TableSet(src, b, key) => assert Puts(s, step, Entry(b, key), s.refs[src]);
    case TableReplace(src, b, key, hold) => assert Puts(s, step, Entry(b, key), s.refs[src]);
    case _ =>
  }

  lemma PutSafeIff(s: State, step: Step, t: Ref, o: Id)
    requires Safe(s) && Enabled(s, step) && Puts(s, step, t, o)
    ensures Safe(Apply(s, step)) <==> !Taints(s, step)
  {
    PutAdds(s, step, t, o);
    assert Taints(s, step) <==> Exposed(s, Owner(t)) && !Clean(s, o);
    hide Safe, Exposed, Clean, Enabled, Apply, Adds, Taints;
    if Exposed(s, Owner(t)) && !Clean(s, o) {
      AddsUnsafely(s, Apply(s, step), t, o);
    } else {
      AddsSafely(s, Apply(s, step), t, o);
    }
  }

  /** Interrupt runtimes reach only spinlocked objects throughout a run if and only if no step of it puts a tainted
      object where one of them reaches. */
  lemma RunSafeIff(steps: seq<Step>, states: seq<State>)
    requires Run(steps, states)
    ensures (forall i | 0 <= i <= |steps| :: Safe(states[i]))
       <==> (forall i | 0 <= i < |steps| :: !Taints(states[i], steps[i]))
  {
    hide Safe, Taints, Enabled, Apply;
    if forall i | 0 <= i <= |steps| :: Safe(states[i]) {
      forall i | 0 <= i < |steps| ensures !Taints(states[i], steps[i]) {
        RunKeepsInv(steps, states, i);
        assert Safe(states[i]) && Safe(states[i + 1]);
        StepSafeIff(states[i], steps[i]);
      }
    }
    if forall i | 0 <= i < |steps| :: !Taints(states[i], steps[i]) {
      forall i | 0 <= i <= |steps| ensures Safe(states[i]) { UntaintedIsSafe(steps, states, i); }
    }
  }

  lemma {:induction false} UntaintedIsSafe(steps: seq<Step>, states: seq<State>, i: nat)
    requires Run(steps, states) && i <= |steps|
    requires forall j | 0 <= j < |steps| :: !Taints(states[j], steps[j])
    ensures Safe(states[i])
  {
    hide Safe, Taints, Enabled, Apply;
    if i == 0 {
      InitialIsSafe();
    } else {
      UntaintedIsSafe(steps, states, i - 1);
      RunKeepsInv(steps, states, i - 1);
      var _ := steps[i - 1];
      assert !Taints(states[i - 1], steps[i - 1]);
      StepSafeIff(states[i - 1], steps[i - 1]);
    }
  }

  lemma InitialIsSafe()
    ensures Safe(Initial)
  {
    assert forall r :: !InterruptRuntime(Initial, r);
  }

  // ---- a run that does not keep it ----

  const INTERRUPT := Opt(true, false, false, false, false)
  const PROCESS := Opt(false, false, false, false, false)

  function Interrupt(cls: Class, count: nat): Object {
    SetObject(cls, INTERRUPT, InKernel, Attached).(count := count)
  }

  function Process(cls: Class, count: nat): Object {
    SetObject(cls, PROCESS, InKernel, Attached).(count := count)
  }

  /** An interrupt runtime 0 with a handle to table 1. */
  function Owning(runtime: Class, table: Class): State {
    State(map[0 := Interrupt(runtime, 1), 1 := Interrupt(table, 2)],
          map[Hold(0) := 0, Hold(1) := 1, Handle(0, 0) := 1], map[], 2)
  }

  /** Beside them, object 2 is held by C code. */
  function Apart(runtime: Class, table: Class, cls: Class): State {
    State(map[0 := Interrupt(runtime, 1), 1 := Interrupt(table, 2), 2 := Process(cls, 1)],
          map[Hold(0) := 0, Hold(1) := 1, Handle(0, 0) := 1, Hold(2) := 2], map[], 3)
  }

  /** An interrupt runtime may reach a mutex: its table holds the only reference to an object made for process
      context, since `lunatik_checkvalue` asks only whether the object may be shared. */
  lemma InterruptReachesMutex(runtime: Class, table: Class, cls: Class, key: string)
    returns (steps: seq<Step>, states: seq<State>)
    requires runtime.kind == Runtime && table.kind == Table && table.opt.irq && !table.opt.single
    requires !cls.opt.irq && !cls.opt.single
    ensures Run(steps, states)
    ensures var s := states[|steps|];
            InterruptRuntime(s, 0) && Reaches(s.refs, 0, 2) && 2 in s.objs && LockOf(s.objs[2].opt) == Mutex
            && RefsTo(s.refs, 2) == {Entry(1, key)}
  {
    steps, states := [], [Initial];
    CreatedAlone(runtime, INTERRUPT);
    steps, states := Extend(steps, states, Create(0, 0, runtime, INTERRUPT));
    hide Enabled, Apply;
    MadeShared(runtime, table);
    steps, states := Extend(steps, states, Create(1, 1, table, INTERRUPT));
    steps, states := Extend(steps, states, Push(Hold(1), 0, 0));
    MadeApart(runtime, table, cls);
    steps, states := Extend(steps, states, Create(2, 2, cls, PROCESS));
    PutInTable(runtime, table, cls, key);
    steps, states := Extend(steps, states, TableSet(Hold(2), 1, key));
    steps, states := Extend(steps, states, Drop(Hold(2)));
    var s := states[|steps|];
    ReachesItself(s.refs, 0);
    ReachesMore(s.refs, 0, Handle(0, 0));
    ReachesMore(s.refs, 0, Entry(1, key));
  }

  lemma MadeShared(runtime: Class, table: Class)
    requires runtime.kind == Runtime && table.opt.irq && !table.opt.single
    ensures var s := Alone(SetObject(runtime, INTERRUPT, InKernel, Attached), true, 1);
            var make := Create(1, 1, table, INTERRUPT);
            Enabled(s, make) && Enabled(Apply(s, make), Push(Hold(1), 0, 0))
            && Apply(Apply(s, make), Push(Hold(1), 0, 0)) == Owning(runtime, table)
  {
  }

  lemma MadeApart(runtime: Class, table: Class, cls: Class)
    ensures Enabled(Owning(runtime, table), Create(2, 2, cls, PROCESS))
    ensures Apply(Owning(runtime, table), Create(2, 2, cls, PROCESS)) == Apart(runtime, table, cls)
  {
  }

  lemma PutInTable(runtime: Class, table: Class, cls: Class, key: string)
    requires runtime.kind == Runtime && table.kind == Table && !cls.opt.single && !cls.opt.irq
    ensures var s, put, drop := Apart(runtime, table, cls), TableSet(Hold(2), 1, key), Drop(Hold(2));
            Enabled(s, put) && Enabled(Apply(s, put), drop)
            && var s' := Apply(Apply(s, put), drop);
            s'.refs == map[Hold(0) := 0, Hold(1) := 1, Handle(0, 0) := 1, Entry(1, key) := 2]
            && InterruptRuntime(s', 0) && 2 in s'.objs && LockOf(s'.objs[2].opt) == Mutex
  {
  }
}
