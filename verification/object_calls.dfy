/** The C entry points on shared objects, with their loops and recursion, proved to do nothing
    but steps of the transition system and to finish every release they start. */
module ObjectCalls {
  import opened Options
  import opened Objects
  import opened ObjectRuns
  import opened ObjectLifetime

  datatype Outcome = Done | InvalidObject | SharedSingle | WrongContext

  // ---- steps taken by a call ----

  ghost predicate Next(s: State, s': State) {
    exists step :: Enabled(s, step) && s' == Apply(s, step)
  }

  ghost predicate Linked(states: seq<State>, i: nat) {
    i + 1 < |states| ==> Next(states[i], states[i + 1])
  }

  ghost predicate Path(states: seq<State>) {
    |states| > 0 && forall i: nat :: Linked(states, i)
  }

  /** `s'` is reached from `s` by steps of the transition system. */
  ghost predicate Reaches(s: State, s': State) {
    exists states :: Path(states) && states[0] == s && states[|states| - 1] == s'
  }

  lemma ReachesRefl(s: State)
    ensures Reaches(s, s)
  {
    assert Path([s]);
  }

  lemma ReachesNext(s: State, step: Step)
    requires Enabled(s, step)
    ensures Reaches(s, Apply(s, step))
  {
    assert Next(s, Apply(s, step));
    assert Path([s, Apply(s, step)]);
  }

  lemma ReachesTrans(a: State, b: State, c: State)
    requires Reaches(a, b) && Reaches(b, c)
    ensures Reaches(a, c)
  {
    var p :| Path(p) && p[0] == a && p[|p| - 1] == b;
    var q :| Path(q) && q[0] == b && q[|q| - 1] == c;
    var r := p + q[1..];
    forall i: nat
      ensures Linked(r, i)
    {
      assert Linked(p, i);
      if i + 1 >= |p| { assert Linked(q, i + 1 - |p|); }
    }
    assert Path(r) && r[|r| - 1] == c;
  }

  // ---- what a release cascade may do ----

  /** A reference disappears with the private part that held it. */
  ghost predicate GoneWith(s: State, t: Ref) {
    match t
    case Handle(r, _) => r in s.objs && s.objs[r].private == Released
    case Entry(b, _) => b in s.objs && s.objs[b].private == Released
    case Hold(_) => false
  }

  /** An object that stays live keeps its private part; another agent's unfinished release is left
      alone, and none is left behind. */
  predicate Settled(x: Object, y: Object) {
    && (x.status == Freed ==> y.status == Freed && y.private == x.private)
    && (y.status == Live ==> x.status == Live && y.private == x.private && y.releases == x.releases)
    && (PendingAt(x) ==> y.private == x.private && y.status == x.status)
    && (PendingAt(y) ==> PendingAt(x))
    && (x.private == Released ==> y.private == Released)
  }

  ghost predicate RefAfter(s: State, s': State, t: Ref, dropped: set<Ref>)
    requires t in s.refs
  {
    (t in s'.refs && s'.refs[t] == s.refs[t]) || t in dropped || GoneWith(s', t)
  }

  /** References are taken away only if `dropped` or from private parts released completely;
      every object but those in `but` settles: if it stays live it keeps its private part; and no memory is lost. */
  ghost predicate Cascade(s: State, s': State, dropped: set<Ref>, but: set<Id>) {
    && s'.objs.Keys == s.objs.Keys
    && (forall o | o in s.objs :: SameMake(s.objs[o], s'.objs[o]))
    && (forall t | t in s'.refs :: t in s.refs)
    && (forall t | t in s.refs :: RefAfter(s, s', t, dropped))
    && (forall o | o in s.objs && o !in but :: Settled(s.objs[o], s'.objs[o]))
    && (forall o | o in s.objs && o in but :: s.objs[o].private == Released ==> s'.objs[o].private == Released)
    && Lost(s') == Lost(s)
  }

  lemma CascadeTrans(a: State, b: State, c: State, d: set<Ref>, e: set<Ref>, x: set<Id>, y: set<Id>)
    requires Cascade(a, b, d, x) && Cascade(b, c, e, y)
    ensures Cascade(a, c, d + e, x + y)
  {
    hide Lost;
    forall t | t in a.refs
      ensures RefAfter(a, c, t, d + e)
    {
      assert RefAfter(a, b, t, d);
      if t in b.refs { assert RefAfter(b, c, t, e); }
      else if t !in d { GoneStays(b, c, t, e, y); }
    }
    forall o | o in a.objs && o !in x + y
      ensures Settled(a.objs[o], c.objs[o])
    {
      assert Settled(a.objs[o], b.objs[o]) && Settled(b.objs[o], c.objs[o]);
    }
  }

  lemma GoneStays(b: State, c: State, t: Ref, e: set<Ref>, but: set<Id>)
    requires GoneWith(b, t) && Cascade(b, c, e, but)
    ensures GoneWith(c, t)
  {
    hide Lost;
    var o := if t.Handle? then t.runtime else t.table;
    assert o !in but ==> Settled(b.objs[o], c.objs[o]);
  }

  lemma CascadeClose(a: State, c: State, d: set<Ref>, o: Id)
    requires Cascade(a, c, d, {o}) && (o in a.objs ==> Settled(a.objs[o], c.objs[o]))
    ensures Cascade(a, c, d, {})
  {
  }

  /** The references a released private part held are gone with it. */
  lemma CascadeOwned(a: State, c: State, d: set<Ref>, o: Id)
    requires Inv(a) && Cascade(a, c, d, {o}) && o in c.objs && c.objs[o].private == Released
    requires forall t <- d :: t in a.refs ==> OwnedBy(t, o)
    ensures Cascade(a, c, {}, {o})
  {
    hide Lost;
    forall t | t in a.refs
      ensures RefAfter(a, c, t, {})
    {
      assert RefAfter(a, c, t, d) && OwnedAt(a.objs, t);
    }
  }

  /** The reference may be put now: by its holder, or by whoever releases the private part it is in. */
  predicate MayPut(s: State, t: Ref) {
    Enabled(s, Drop(t)) || Enabled(s, TearDrop(t))
  }

  /** Everything a finished call did: steps only, a completed cascade, and less left to release. */
  ghost predicate Did(s: State, s': State, dropped: set<Ref>, but: set<Id>) {
    Inv(s') && Reaches(s, s') && Cascade(s, s', dropped, but) && Work(s') <= Work(s)
  }

  lemma DidNothing(s: State, dropped: set<Ref>, but: set<Id>)
    requires Inv(s)
    ensures Did(s, s, dropped, but)
  {
    ReachesRefl(s);
  }

  /** Two calls in a row, when the second drops no more than the first and the first leaves out no more than the second. */
  lemma DidBoth(a: State, b: State, c: State, d: set<Ref>, e: set<Ref>, x: set<Id>, y: set<Id>)
    requires Did(a, b, d, x) && Did(b, c, e, y) && e <= d && x <= y
    ensures Did(a, c, d, y)
  {
    hide Inv, Cascade, Work, Reaches;
    ReachesTrans(a, b, c);
    CascadeTrans(a, b, c, d, e, x, y);
    assert d + e == d && x + y == y;
  }

  lemma DidDel(s: State, t: Ref)
    requires Inv(s) && MayPut(s, t)
    ensures t in s.refs && s.refs[t] in s.objs
    ensures var s', o := DelRef(s, t), s.refs[t];
            Did(s, s', {t}, {o}) && Work(s') < Work(s)
            && (s'.objs[o].count == 0 ==> !PendingAt(s.objs[o]) && s.objs[o].status == Live && s'.objs[o].status == Dying)
            && (s'.objs[o].count > 0 ==> Did(s, s', {t}, {}))
  {
    PutMeans(s, t);
    hide Inv, Cascade, Work, Reaches, MayPut, DelRef;
    ReferencedIsLive(s, t);
    DropDecreasesWork(s, t);
    DelCascades(s, t);
    DelKeepsInv(s, t);
  }

  /** A put is one step, and it counts down the object. */
  lemma PutMeans(s: State, t: Ref)
    requires MayPut(s, t)
    ensures t in s.refs && s.refs[t] in s.objs && !Pinned(s, t) && Reaches(s, DelRef(s, t))
    ensures s.refs[t] in DelRef(s, t).objs && DelRef(s, t).objs[s.refs[t]] == Unref(s.objs[s.refs[t]])
  {
    hide Reaches;
    ReachesNext(s, if Enabled(s, Drop(t)) then Drop(t) else TearDrop(t));
  }

  /** A step that changes one object and takes away the references `d`. */
  lemma CascadeOne(s: State, s': State, d: set<Ref>, o: Id, x: Object)
    requires o in s.objs && s'.objs == s.objs[o := x] && s'.refs == s.refs - d && Lost(s') == Lost(s)
    requires SameMake(s.objs[o], x) && (s.objs[o].private == Released ==> x.private == Released)
    ensures Cascade(s, s', d, {o})
    ensures Settled(s.objs[o], x) ==> Cascade(s, s', d, {})
  {
    hide GoneWith, Lost;
    assert forall q | q in s.objs && q != o :: s'.objs[q] == s.objs[q];
  }

  lemma DelCascades(s: State, t: Ref)
    requires Inv(s) && t in s.refs && !Pinned(s, t)
    ensures s.refs[t] in s.objs && Cascade(s, DelRef(s, t), {t}, {s.refs[t]})
    ensures s.objs[s.refs[t]].count > 1 ==> Cascade(s, DelRef(s, t), {t}, {})
    ensures s.objs[s.refs[t]].count <= 1 ==> !PendingAt(s.objs[s.refs[t]])
  {
    ReferencedIsLive(s, t);
    if s.objs[s.refs[t]].count <= 1 { LastPutUnpinned(s, t); }
    hide Inv, Cascade;
    DelLosesNothing(s, t);
    hide Lost;
    CascadeOne(s, DelRef(s, t), {t}, s.refs[t], Unref(s.objs[s.refs[t]]));
  }

  lemma DelLosesNothing(s: State, t: Ref)
    requires t in s.refs && s.refs[t] in s.objs && s.objs[s.refs[t]].status == Live
    ensures Lost(DelRef(s, t)) == Lost(s)
  {
    assert Unfreed(DelRef(s, t)) == Unfreed(s);
  }

  function Finished(s: State, o: Id): State
    requires o in s.objs
  {
    s.(objs := s.objs[o := s.objs[o].(private := Released, releases := s.objs[o].releases + 1)], pins := s.pins - {o})
  }

  lemma DidFinish(s: State, o: Id)
    requires Inv(s) && o in s.objs && s.objs[o].private == Detached && forall t | t in s.refs :: !OwnedBy(t, o)
    ensures Did(s, Finished(s, o), {}, {o})
  {
    hide Inv, Cascade;
    assert Enabled(s, Finish(o)) && Apply(s, Finish(o)) == Finished(s, o);
    StepLoses(s, Finish(o));
    hide Lost;
    CascadeOne(s, Finished(s, o), {}, o, Finished(s, o).objs[o]);
    hide Inv, Cascade, Work, Reaches, Enabled, Apply, Finished;
    FinishDecreasesWork(s, o);
    FinishKeepsInv(s, o);
    ReachesNext(s, Finish(o));
  }

  function FreedNow(s: State, o: Id): State
    requires o in s.objs
  {
    s.(objs := s.objs[o := s.objs[o].(status := Freed)], memory := s.memory - 1)
  }

  lemma DidFree(s: State, o: Id)
    requires Inv(s) && o in s.objs && s.objs[o].status == Dying && s.objs[o].private in {Null, Released}
    ensures Did(s, FreedNow(s, o), {}, {o})
  {
    hide Inv, Cascade;
    assert Enabled(s, Free(o)) && Apply(s, Free(o)) == FreedNow(s, o);
    StepLoses(s, Free(o));
    hide Lost;
    CascadeOne(s, FreedNow(s, o), {}, o, FreedNow(s, o).objs[o]);
    hide Inv, Cascade, Work, Reaches, Enabled, Apply, FreedNow;
    FreeDecreasesWork(s, o);
    FreeKeepsInv(s, o);
    ReachesNext(s, Free(o));
  }

  class Core {
    var objs: map<Id, Object>
    var refs: map<Ref, Id>
    var pins: map<Id, set<Ref>>
    ghost var memory: int

    ghost function Sys(): State
      reads this
    {
      State(objs, refs, pins, memory)
    }

    constructor ()
      ensures Sys() == Initial
    {
      objs, refs, pins, memory := map[], map[], map[], 0;
    }

    /** `lunatik_putobject`: drops one reference; the last one releases and frees the object,
        and with it everything only that object kept alive, before the call returns. */
    method PutObject(t: Ref)
      requires Inv(Sys()) && MayPut(Sys(), t)
      modifies this
      ensures Did(old(Sys()), Sys(), {t}, {})
      ensures t !in refs && pins == old(pins)
      ensures Work(Sys()) < Work(old(Sys()))
      decreases Work(Sys()), 0
    {
      hide Inv, Cascade, Work, Reaches, MayPut, Enabled, Pinned;
      ghost var s0 := Sys();
      DidDel(s0, t);
      var o := refs[t];
      objs, refs := objs[o := Unref(objs[o])], refs - {t};
      ghost var s1 := Sys();
      if objs[o].count == 0 {
        ReleaseObject(o);
        PutDone(s0, s1, Sys(), t, o);
      }
    }

    /** `lunatik_releaseobject`: runs once nothing refers to the object any more. */
    method ReleaseObject(o: Id)
      requires Inv(Sys()) && o in objs && objs[o].status == Dying
      modifies this
      ensures Did(old(Sys()), Sys(), {}, {o})
      ensures o in objs && objs[o].status == Freed && pins == old(pins)
      decreases Work(Sys()), 2
    {
      hide Inv, Cascade, Work, Reaches, MayPut, Enabled, Pinned;
      ghost var s0 := Sys();
      DidNothing(s0, {}, {o});
      DyingUnpinned(s0, o);
      if objs[o].private == Detached {
        ReleasePrivate(o);
      }
      ghost var s1 := Sys();
      objs := objs[o := objs[o].(status := Freed)];
      memory := memory - 1;
      DidFree(s1, o);
      DidBoth(s0, s1, Sys(), {}, {}, {o}, {o});
      assert pins == s0.pins;
    }

    /** `lunatik_releaseprivate`: a table drops its entries, a Lua state its handles, one by one. */
    method ReleasePrivate(o: Id)
      requires Inv(Sys()) && o in objs && objs[o].private == Detached
      modifies this
      ensures Did(old(Sys()), Sys(), {}, {o})
      ensures o in objs && objs[o].private == Released && objs[o].status == old(objs[o].status)
      ensures o in old(pins) ==> forall t <- old(pins[o]) :: t in refs
      ensures pins == old(pins) - {o}
      decreases Work(Sys()), 1
    {
      hide Inv, Cascade, Work, Reaches, MayPut, Enabled, Pinned;
      ghost var s0 := Sys();
      var owned := set t | t in refs && OwnedBy(t, o);
      ghost var all := owned;
      DidNothing(s0, all, {});
      while owned != {}
        invariant Did(s0, Sys(), all, {})
        invariant owned == set t | t in refs && OwnedBy(t, o)
        invariant pins == s0.pins
        decreases Work(Sys())
      {
        ghost var s1 := Sys();
        var t :| t in owned;
        TearAllowed(s0, s1, all, t, o);
        PutObject(t);
        DidBoth(s0, s1, Sys(), all, {t}, {}, {});
        owned := set u | u in refs && OwnedBy(u, o);
      }
      ghost var s1 := Sys();
      assert forall t | t in refs && OwnedBy(t, o) :: t in owned;
      StillDetached(s0, s1, all, o);
      objs := objs[o := objs[o].(private := Released, releases := objs[o].releases + 1)];
      pins := pins - {o};
      DidFinish(s1, o);
      PrivateDone(s0, s1, all, o);
    }

    /** `lunatik_deleteobject`, the finalizer: puts the object once; called again on the same
        handle it finds no object and changes nothing. */
    method DeleteObject(r: Id, slot: nat) returns (out: Outcome)
      requires Inv(Sys()) && Runs(Sys(), r) && !Pinned(Sys(), Handle(r, slot))
      modifies this
      ensures out == (if Handle(r, slot) in old(refs) then Done else InvalidObject)
      ensures out == Done ==> Did(old(Sys()), Sys(), {Handle(r, slot)}, {})
      ensures out == InvalidObject ==> Sys() == old(Sys())
      ensures Inv(Sys()) && Handle(r, slot) !in refs
    {
      hide Inv, Cascade, Work, Reaches, MayPut, Enabled, Pinned;
      if Handle(r, slot) !in refs {
        return InvalidObject;
      }
      HandleMayBePut(Sys(), Handle(r, slot));
      PutObject(Handle(r, slot));
      return Done;
    }

    /** `lunatik_closeobject`: only the agent that detaches the private part releases it; the
        object and everything on the agent's stack stay usable meanwhile. */
    method CloseObject(via: Ref, stack: set<Ref>)
      requires Inv(Sys()) && via in refs && refs[via] in objs
      requires objs[refs[via]].private == Attached ==> Enabled(Sys(), Close(via, stack))
      modifies this
      ensures Inv(Sys())
      ensures old(objs[refs[via]].private) != Attached ==> Sys() == old(Sys())
      ensures old(objs[refs[via]].private) == Attached ==>
                var o := old(refs[via]);
                && o in objs && objs[o].private == Released && objs[o].status == Live
                && Reaches(old(Sys()), Sys()) && Cascade(old(Sys()), Sys(), {}, {o})
                && (forall t <- stack :: t in refs)
                && pins == old(pins) - {o}
    {
      hide Inv, Cascade, Work, Reaches, MayPut, Enabled, Pinned;
      var o := refs[via];
      if objs[o].private != Attached {
        return;
      }
      ghost var s0 := Sys();
      DidClose(s0, via, stack);
      objs := objs[o := objs[o].(private := Detached)];
      pins := pins[o := stack];
      ghost var s1 := Sys();
      ReleasePrivate(o);
      ReachesTrans(s0, s1, Sys());
      CascadeClosed(s0, s1, Sys(), o);
      assert pins == s0.pins - {o};
    }

    /** `lunatik_newobject`: no object is made for a process-context class in an interrupt runtime, but what
        was allocated for it before the class is checked is lost. */
    method NewObject(r: Id, slot: nat, o: Id, cls: Class, opt: Opt, attached: bool) returns (out: Outcome)
      requires Inv(Sys()) && Runs(Sys(), r) && Handle(r, slot) !in refs && o !in objs && cls.kind != Runtime
      modifies this
      ensures Inv(Sys()) && Reaches(old(Sys()), Sys())
      ensures out == (if old(objs[r]).opt.irq && !cls.opt.irq then WrongContext else Done)
      ensures out == WrongContext ==> Sys() == old(Sys()).(memory := old(memory) + 1) && Lost(Sys()) == old(Lost(Sys())) + 1
      ensures out == Done ==> refs == old(refs)[Handle(r, slot) := o] && pins == old(pins) && Lost(Sys()) == old(Lost(Sys()))
                              && objs == old(objs)[o := SetObject(cls, opt, InRuntime(r), if attached then Attached else Null)]
      ensures out == Done ==> objs[o].opt.irq == (cls.opt.irq || opt.irq) && objs[o].opt.single == (cls.opt.single || opt.single)
                              && objs[o].opt.monitor == ((cls.opt.monitor || opt.monitor) && !opt.single)
    {
      hide Inv, Cascade, Work, Reaches, MayPut, Enabled, Pinned, Lost;
      ghost var s0 := Sys();
      memory := memory + 1;
      if !Admits(objs[r].opt, cls.opt) {
        RefuseReaches(s0, r, cls);
        return WrongContext;
      }
      NewReaches(s0, r, slot, o, cls, opt, attached);
      objs := objs[o := SetObject(cls, opt, InRuntime(r), if attached then Attached else Null)];
      refs := refs[Handle(r, slot) := o];
      return Done;
    }

    /** `lunatik_pushobject`: shares an object with runtime `r`, or says why it may not be shared. */
    method PushObject(src: Ref, r: Id, slot: nat) returns (out: Outcome)
      requires Inv(Sys()) && src in refs && refs[src] in objs && Runs(Sys(), r) && Handle(r, slot) !in refs
      modifies this
      ensures Inv(Sys()) && Reaches(old(Sys()), Sys()) && pins == old(pins)
      ensures out == SharedSingle <==> old(objs[refs[src]]).opt.single
      ensures out == Done <==> !old(objs[refs[src]]).opt.single && (old(objs[r]).opt.irq ==> old(objs[refs[src]]).cls.opt.irq)
      ensures out != InvalidObject
      ensures out != Done ==> Sys() == old(Sys())
      ensures out == Done ==> Sys() == AddRef(old(Sys()), Handle(r, slot), old(refs[src]))
    {
      hide Inv, Cascade, Work, Reaches, MayPut, Enabled, Pinned;
      var o := refs[src];
      ReachesRefl(Sys());
      if objs[o].opt.single {
        return SharedSingle;
      }
      if !Admits(objs[r].opt, objs[o].cls.opt) {
        return WrongContext;
      }
      PushKeepsInv(Sys(), src, r, slot);
      objs, refs := objs[o := objs[o].(count := objs[o].count + 1)], refs[Handle(r, slot) := o];
      return Done;
    }

    /** `lunatik_pushvalue`: the reference taken by the table lookup becomes the handle, or is put. */
    method PushValue(hold: nat, r: Id, slot: nat) returns (out: Outcome)
      requires Inv(Sys()) && Hold(hold) in refs && refs[Hold(hold)] in objs && !Pinned(Sys(), Hold(hold))
      requires Runs(Sys(), r) && Handle(r, slot) !in refs
      modifies this
      ensures Inv(Sys()) && Reaches(old(Sys()), Sys()) && pins == old(pins)
      ensures out == SharedSingle <==> old(objs[refs[Hold(hold)]]).opt.single
      ensures out == Done <==> !old(objs[refs[Hold(hold)]]).opt.single
                               && (old(objs[r]).opt.irq ==> old(objs[refs[Hold(hold)]]).cls.opt.irq)
      ensures out != InvalidObject
      ensures Hold(hold) !in refs
      ensures out == Done ==> Sys() == MoveRef(old(Sys()), Hold(hold), Handle(r, slot))
      ensures out != Done ==> Cascade(old(Sys()), Sys(), {Hold(hold)}, {})
    {
      hide Inv, Cascade, Work, Reaches, MayPut, Enabled, Pinned;
      var o := refs[Hold(hold)];
      if objs[o].opt.single || !Admits(objs[r].opt, objs[o].cls.opt) {
        out := if objs[o].opt.single then SharedSingle else WrongContext;
        HandleMayBePut(Sys(), Hold(hold));
        PutObject(Hold(hold));
      } else {
        CloneKeepsInv(Sys(), hold, r, slot);
        refs := (refs - {Hold(hold)})[Handle(r, slot) := o];
        out := Done;
      }
    }

    /** `lunatik_lcopyobjects`: copies the arguments of a resume in order, stopping at the first
        that is no object or may not be shared; `n` handles have been made by then. */
    method CopyObjects(from: seq<Argument>, r: Id, slot: nat) returns (out: Outcome, n: nat)
      requires Inv(Sys()) && Runs(Sys(), r) && forall i | i >= slot :: Handle(r, i) !in refs
      requires forall a <- from | a.IsObject? :: a.handle in refs && a.handle.Handle?
                                                 && (a.handle.runtime == r ==> a.handle.slot < slot)
      modifies this
      ensures Inv(Sys()) && Reaches(old(Sys()), Sys()) && pins == old(pins)
      ensures n <= |from| && (out == Done <==> n == |from|)
      ensures forall i | 0 <= i < n :: from[i].IsObject? && Fits(old(Sys()), from[i].handle, r)
      ensures out == InvalidObject ==> from[n] == NoObject
      ensures out == SharedSingle ==> from[n].IsObject? && old(objs[refs[from[n].handle]]).opt.single
      ensures out == WrongContext ==> from[n].IsObject? && !old(objs[refs[from[n].handle]]).opt.single
                                      && old(objs[r]).opt.irq && !old(objs[refs[from[n].handle]]).cls.opt.irq
      ensures Copied(old(Sys()), Sys(), from, n, r, slot)
    {
      hide Inv, Reaches, Copied;
      ghost var s0 := Sys();
      ReachesRefl(s0);
      CopiedNone(s0, from, r, slot);
      n := 0;
      while n < |from|
        invariant n <= |from| && Inv(Sys()) && Reaches(s0, Sys()) && pins == s0.pins
        invariant forall i | 0 <= i < n :: from[i].IsObject? && Fits(s0, from[i].handle, r)
        invariant Copied(s0, Sys(), from, n, r, slot)
      {
        var a := from[n];
        if !a.IsObject? {
          return InvalidObject, n;
        }
        ghost var s1 := Sys();
        CopiedMeans(s0, s1, from, n, r, slot);
        out := PushObject(a.handle, r, slot + n);
        ReachesTrans(s0, s1, Sys());
        if out != Done {
          return;
        }
        CopiedMore(s0, s1, from, n, r, slot);
        n := n + 1;
      }
      return Done, n;
    }
  }

  datatype Argument = IsObject(handle: Ref) | NoObject

  /** The object may be used by other runtimes and in the context of runtime `r`. */
  predicate Fits(s: State, src: Ref, r: Id) {
    && src in s.refs && s.refs[src] in s.objs && r in s.objs && !s.objs[s.refs[src]].opt.single
    && (s.objs[r].opt.irq ==> s.objs[s.refs[src]].cls.opt.irq)
  }

  /** The calls that share an object agree with the steps of the core: a push is done if and only if it is enabled. */
  lemma FitsIffEnabled(s: State, src: Ref, r: Id, slot: nat)
    requires Runs(s, r) && Handle(r, slot) !in s.refs
    ensures Fits(s, src, r) <==> Enabled(s, Push(src, r, slot))
  {
  }

  /** `s'` is `s` with the first `n` arguments as new handles of `r`, at consecutive slots from `slot`. */
  ghost predicate Copied(s: State, s': State, from: seq<Argument>, n: nat, r: Id, slot: nat)
    requires n <= |from|
  {
    && s'.objs.Keys == s.objs.Keys
    && (forall o | o in s.objs :: SameMake(s.objs[o], s'.objs[o]) && s'.objs[o].private == s.objs[o].private)
    && (forall i | 0 <= i < n :: from[i].IsObject? && from[i].handle in s.refs)
    && s'.refs == WithHandles(s.refs, from, n, r, slot)
  }

  function WithHandles(refs: map<Ref, Id>, from: seq<Argument>, n: nat, r: Id, slot: nat): (more: map<Ref, Id>)
    requires n <= |from| && forall i | 0 <= i < n :: from[i].IsObject? && from[i].handle in refs
    ensures forall t :: t in more <==> t in refs || (t.Handle? && t.runtime == r && slot <= t.slot < slot + n)
    ensures forall t | t in refs && !(t.Handle? && t.runtime == r && slot <= t.slot < slot + n) :: more[t] == refs[t]
    ensures forall i {:trigger from[i]} | 0 <= i < n :: more[Handle(r, slot + i)] == refs[from[i].handle]
  {
    if n == 0 then refs
    else WithHandles(refs, from, n - 1, r, slot)[Handle(r, slot + n - 1) := refs[from[n - 1].handle]]
  }

  lemma PutDone(s0: State, s1: State, s2: State, t: Ref, o: Id)
    requires t in s0.refs && s0.refs[t] == o && o in s0.objs && Did(s0, s1, {t}, {o}) && Did(s1, s2, {}, {o})
    requires !PendingAt(s0.objs[o]) && s0.objs[o].status != Freed && o in s2.objs && s2.objs[o].status == Freed
    requires t !in s1.refs
    ensures Did(s0, s2, {t}, {}) && t !in s2.refs
  {
    hide Inv, Cascade, Work, Reaches;
    FreedIsReleased(s2, o);
    CascadeFreed(s0, s1, s2, t, o);
    ReachesTrans(s0, s1, s2);
  }

  lemma FreedIsReleased(s: State, o: Id)
    requires Inv(s) && o in s.objs && s.objs[o].status == Freed
    ensures !PendingAt(s.objs[o])
  {
    assert ReleasedAt(s.pins.Keys, o, s.objs[o]);
  }

  lemma CascadeFreed(s0: State, s1: State, s2: State, t: Ref, o: Id)
    requires Cascade(s0, s1, {t}, {o}) && Cascade(s1, s2, {}, {o})
    requires o in s0.objs && !PendingAt(s0.objs[o]) && s0.objs[o].status != Freed
    requires o in s2.objs && !PendingAt(s2.objs[o]) && s2.objs[o].status == Freed && t !in s1.refs
    ensures Cascade(s0, s2, {t}, {}) && t !in s2.refs
  {
    CascadeTrans(s0, s1, s2, {t}, {}, {o}, {o});
    assert {t} + {} == {t} && {o} + {o} == {o};
    CascadeClose(s0, s2, {t}, o);
  }

  lemma PrivateDone(s0: State, s1: State, all: set<Ref>, o: Id)
    requires Inv(s0) && Did(s0, s1, all, {}) && o in s1.objs && Did(s1, Finished(s1, o), {}, {o})
    requires forall t <- all :: t in s0.refs && OwnedBy(t, o)
    ensures Did(s0, Finished(s1, o), {}, {o})
  {
    hide Inv, Cascade, Work, Reaches;
    var s2 := Finished(s1, o);
    DidBoth(s0, s1, s2, all, {}, {}, {o});
    CascadeOwned(s0, s2, all, o);
  }

  lemma TearAllowed(s0: State, s: State, all: set<Ref>, t: Ref, o: Id)
    requires Inv(s0) && Did(s0, s, all, {}) && o in s0.objs && s0.objs[o].private == Detached
    requires t in s.refs && OwnedBy(t, o)
    ensures t in s0.refs && MayPut(s, t)
  {
    assert s.objs[o].private == Detached by { StillDetached(s0, s, all, o); }
    TearEnabled(s, t, o);
  }

  lemma TearEnabled(s: State, t: Ref, o: Id)
    requires Inv(s) && o in s.objs && s.objs[o].private == Detached && t in s.refs && OwnedBy(t, o)
    ensures MayPut(s, t)
  {
    DetachedUnpinned(s, t, o);
  }

  lemma StillDetached(s0: State, s: State, all: set<Ref>, o: Id)
    requires Did(s0, s, all, {}) && o in s0.objs && s0.objs[o].private == Detached
    ensures o in s.objs && s.objs[o].private == Detached && s.objs[o].status == s0.objs[o].status
    ensures o in s.pins ==> forall t <- s.pins[o] :: t in s.refs
  {
    assert Settled(s0.objs[o], s.objs[o]);
    assert o in s.pins ==> PinAt(s, o, s.pins[o]);
  }

  lemma DyingUnpinned(s: State, o: Id)
    requires Inv(s) && o in s.objs && s.objs[o].status == Dying
    ensures o !in s.pins && s.objs[o].private != Attached
  {
    assert ReleasedAt(s.pins.Keys, o, s.objs[o]);
    if o in s.pins {
      assert PinAt(s, o, s.pins[o]);
      var u :| u in s.pins[o] && u in s.refs && s.refs[u] == o;
      ReferencedIsLive(s, u);
    }
  }

  lemma HandleMayBePut(s: State, t: Ref)
    requires Inv(s) && t in s.refs && !t.Entry? && !Pinned(s, t) && (t.Handle? ==> Runs(s, t.runtime))
    ensures MayPut(s, t)
  {
  }

  lemma NewReaches(s: State, r: Id, slot: nat, o: Id, cls: Class, opt: Opt, attached: bool)
    requires Inv(s) && Runs(s, r) && Handle(r, slot) !in s.refs && o !in s.objs && cls.kind != Runtime
    requires Admits(s.objs[r].opt, cls.opt)
    ensures var s' := s.(objs := s.objs[o := SetObject(cls, opt, InRuntime(r), if attached then Attached else Null)],
                         refs := s.refs[Handle(r, slot) := o], memory := s.memory + 1);
            Inv(s') && Reaches(s, s') && Lost(s') == Lost(s)
  {
    var step := New(r, slot, o, cls, opt, attached);
    assert Enabled(s, step) && Apply(s, step).memory == s.memory + 1;
    hide Lost, Inv, Reaches, Enabled;
    StepLoses(s, step);
    NewKeepsInv(s, r, slot, o, cls, opt, attached);
    ReachesNext(s, step);
  }

  lemma RefuseReaches(s: State, r: Id, cls: Class)
    requires Inv(s) && Runs(s, r) && cls.kind != Runtime && !Admits(s.objs[r].opt, cls.opt)
    ensures var s' := s.(memory := s.memory + 1); Inv(s') && Reaches(s, s') && Lost(s') == Lost(s) + 1
  {
    StepLoses(s, Refuse(r, cls));
    hide Lost, Inv, Reaches;
    RefuseKeepsInv(s, r, cls);
    ReachesNext(s, Refuse(r, cls));
  }

  lemma PushKeepsInv(s: State, src: Ref, r: Id, slot: nat)
    requires Inv(s) && src in s.refs && s.refs[src] in s.objs && Handle(r, slot) !in s.refs
    requires CanClone(s, r, s.objs[s.refs[src]])
    ensures Inv(AddRef(s, Handle(r, slot), s.refs[src])) && Reaches(s, AddRef(s, Handle(r, slot), s.refs[src]))
  {
    assert Apply(s, Push(src, r, slot)) == AddRef(s, Handle(r, slot), s.refs[src]);
    hide Inv, Reaches;
    ReachesNext(s, Push(src, r, slot));
    CountStepKeepsInv(s, Push(src, r, slot));
  }

  lemma CloneKeepsInv(s: State, hold: nat, r: Id, slot: nat)
    requires Inv(s) && Hold(hold) in s.refs && s.refs[Hold(hold)] in s.objs && !Pinned(s, Hold(hold))
    requires Handle(r, slot) !in s.refs && CanClone(s, r, s.objs[s.refs[Hold(hold)]])
    ensures Inv(MoveRef(s, Hold(hold), Handle(r, slot))) && Reaches(s, MoveRef(s, Hold(hold), Handle(r, slot)))
  {
    assert Apply(s, Clone(hold, r, slot)) == MoveRef(s, Hold(hold), Handle(r, slot));
    hide Inv, Reaches;
    ReachesNext(s, Clone(hold, r, slot));
    CountStepKeepsInv(s, Clone(hold, r, slot));
  }

  lemma DidClose(s: State, via: Ref, stack: set<Ref>)
    requires Inv(s) && Enabled(s, Close(via, stack))
    ensures var o := s.refs[via];
            var s' := s.(objs := s.objs[o := s.objs[o].(private := Detached)], pins := s.pins[o := stack]);
            Inv(s') && Reaches(s, s') && s.objs[o].status == Live
            && Cascade(s, s', {}, {o})
  {
    StepLoses(s, Close(via, stack));
    hide Inv, Reaches, Cascade, Lost;
    ReferencedIsLive(s, via);
    var o := s.refs[via];
    CascadeOne(s, Apply(s, Close(via, stack)), {}, o, s.objs[o].(private := Detached));
    hide Enabled;
    CloseKeepsInv(s, via, stack);
    ReachesNext(s, Close(via, stack));
  }

  lemma CascadeClosed(s0: State, s1: State, s2: State, o: Id)
    requires Cascade(s0, s1, {}, {o}) && Cascade(s1, s2, {}, {o})
    ensures Cascade(s0, s2, {}, {o})
  {
    CascadeTrans(s0, s1, s2, {}, {}, {o}, {o});
    assert {o} + {o} == {o};
  }

  lemma CopiedNone(s: State, from: seq<Argument>, r: Id, slot: nat)
    ensures Copied(s, s, from, 0, r, slot)
  {
  }

  lemma CopiedMeans(s0: State, s: State, from: seq<Argument>, n: nat, r: Id, slot: nat)
    requires n < |from| && Copied(s0, s, from, n, r, slot) && Inv(s) && Runs(s0, r)
    requires from[n].IsObject? && from[n].handle in s0.refs && from[n].handle.Handle?
    requires from[n].handle.runtime == r ==> from[n].handle.slot < slot
    requires forall i | i >= slot :: Handle(r, i) !in s0.refs
    ensures from[n].handle in s.refs && s.refs[from[n].handle] == s0.refs[from[n].handle] && s.refs[from[n].handle] in s.objs
    ensures Runs(s, r) && Handle(r, slot + n) !in s.refs
    ensures var t := from[n].handle;
            s.refs[t] == s0.refs[t] && r in s0.objs && s0.refs[t] in s0.objs
            && SameMake(s.objs[s.refs[t]], s0.objs[s0.refs[t]]) && SameMake(s.objs[r], s0.objs[r])
  {
    hide Inv, WithHandles;
    assert SameMake(s0.objs[r], s.objs[r]);
    DomainOf(s, from[n].handle);
    assert SameMake(s0.objs[s0.refs[from[n].handle]], s.objs[s0.refs[from[n].handle]]);
  }

  lemma DomainOf(s: State, t: Ref)
    requires Inv(s) && t in s.refs
    ensures s.refs[t] in s.objs
  {
  }

  lemma HandlesMore(refs: map<Ref, Id>, from: seq<Argument>, n: nat, r: Id, slot: nat)
    requires n < |from| && forall i | 0 <= i <= n :: from[i].IsObject? && from[i].handle in refs
    ensures WithHandles(refs, from, n + 1, r, slot) ==
              WithHandles(refs, from, n, r, slot)[Handle(r, slot + n) := refs[from[n].handle]]
  {
  }

  lemma CopiedMore(s0: State, s: State, from: seq<Argument>, n: nat, r: Id, slot: nat)
    requires n < |from| && Copied(s0, s, from, n, r, slot)
    requires from[n].IsObject? && from[n].handle in s0.refs && s0.refs[from[n].handle] in s.objs
    ensures Copied(s0, AddRef(s, Handle(r, slot + n), s0.refs[from[n].handle]), from, n + 1, r, slot)
  {
    HandlesMore(s0.refs, from, n, r, slot);
    hide WithHandles;
    var s' := AddRef(s, Handle(r, slot + n), s0.refs[from[n].handle]);
    forall o | o in s0.objs
      ensures SameMake(s0.objs[o], s'.objs[o]) && s'.objs[o].private == s0.objs[o].private
    {
      assert SameMake(s0.objs[o], s.objs[o]);
    }
  }
}
