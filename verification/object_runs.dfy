/** What every run of the object core keeps, and when it leaves nothing behind. */
module ObjectRuns {
  import opened Options
  import opened Objects

  // ---- counting ----

  lemma RefsToAdd(refs: map<Ref, Id>, t: Ref, o: Id)
    requires t !in refs
    ensures |RefsTo(refs[t := o], o)| == |RefsTo(refs, o)| + 1
    ensures forall p | p != o :: RefsTo(refs[t := o], p) == RefsTo(refs, p)
  {
    assert RefsTo(refs[t := o], o) == RefsTo(refs, o) + {t};
  }

  lemma RefsToDel(refs: map<Ref, Id>, t: Ref)
    requires t in refs
    ensures |RefsTo(refs - {t}, refs[t])| == |RefsTo(refs, refs[t])| - 1
    ensures forall p | p != refs[t] :: RefsTo(refs - {t}, p) == RefsTo(refs, p)
  {
    assert RefsTo(refs - {t}, refs[t]) == RefsTo(refs, refs[t]) - {t};
  }

  lemma RefsToMove(refs: map<Ref, Id>, from: Ref, to: Ref)
    requires from in refs && to !in refs
    ensures forall p :: |RefsTo((refs - {from})[to := refs[from]], p)| == |RefsTo(refs, p)|
  {
    RefsToDel(refs, from);
    RefsToAdd(refs - {from}, to, refs[from]);
  }

  /** A referenced object has a positive count, so it is live. */
  lemma ReferencedIsLive(s: State, t: Ref)
    requires Inv(s) && t in s.refs
    ensures s.objs[s.refs[t]].count > 0 && s.objs[s.refs[t]].status == Live
  {
    assert t in RefsTo(s.refs, s.refs[t]);
  }

  lemma TwoReferences(s: State, t: Ref, u: Ref)
    requires Inv(s) && t in s.refs && u in s.refs && t != u && s.refs[t] == s.refs[u]
    ensures s.objs[s.refs[t]].count >= 2
  {
    assert {t, u} <= RefsTo(s.refs, s.refs[t]);
    SubsetCard({t, u}, RefsTo(s.refs, s.refs[t]));
  }

  lemma SubsetCard<T>(a: set<T>, b: set<T>)
    requires a <= b
    ensures |a| <= |b|
  {
    assert a + (b - a) == b;
  }

  // ---- each primitive keeps the invariant ----

  lemma AddKeepsInv(s: State, t: Ref, o: Id)
    requires Inv(s) && t !in s.refs && o in s.objs && s.objs[o].status == Live
    requires t.Handle? ==> CanClone(s, t.runtime, s.objs[o])
    requires t.Entry? ==> Holds(s, t.table) && !s.objs[o].opt.single
    ensures Inv(AddRef(s, t, o))
  {
    AddKeepsCounts(s, t, o);
    assert ReleasedOnce(AddRef(s, t, o)) by { AddKeepsReleases(s, t, o); }
    assert Confined(AddRef(s, t, o)) by { AddKeepsConfined(s, t, o); }
    assert PinsOk(AddRef(s, t, o)) by { AddKeepsPins(s, t, o); }
  }

  lemma AddKeepsConfined(s: State, t: Ref, o: Id)
    requires Counted(s) && Confined(s) && t !in s.refs && o in s.objs && Counted(AddRef(s, t, o))
    requires WellPlaced(s.objs, t, s.objs[o])
    ensures Confined(AddRef(s, t, o))
  {
    var s' := AddRef(s, t, o);
    forall p | p in s.objs ensures SameMake(s.objs[p], s'.objs[p]) {}
    ConfinedKept(s, s');
  }

  lemma AddKeepsReleases(s: State, t: Ref, o: Id)
    requires ReleasedOnce(s) && o in s.objs
    ensures ReleasedOnce(AddRef(s, t, o))
  {
    assert forall p | p in s.objs :: ReleasedAt(s.pins.Keys, p, s.objs[p]);
  }

  lemma AddKeepsPins(s: State, t: Ref, o: Id)
    requires PinsOk(s) && t !in s.refs && o in s.objs
    ensures PinsOk(AddRef(s, t, o))
  {
    var s' := AddRef(s, t, o);
    forall u | u in s.refs ensures Kept(s, s', u) {}
    forall p | p in s.pins ensures p in s'.objs && s'.objs[p].private == Detached { assert PinAt(s, p, s.pins[p]); }
    StacksKept(s, s');
  }

  lemma AddKeepsCounts(s: State, t: Ref, o: Id)
    requires Counted(s) && Owned(s) && t !in s.refs && o in s.objs && s.objs[o].status == Live
    requires t.Handle? ==> Runs(s, t.runtime)
    requires t.Entry? ==> Holds(s, t.table)
    ensures Counted(AddRef(s, t, o)) && Owned(AddRef(s, t, o))
  {
    RefsToAdd(s.refs, t, o);
    var s' := AddRef(s, t, o);
    forall p | p in s'.objs
      ensures CountedAt(s'.refs, p, s'.objs[p])
    {
      assert CountedAt(s.refs, p, s.objs[p]);
    }
    forall u | u in s'.refs
      ensures OwnedAt(s'.objs, u)
    {
      assert u in s.refs ==> OwnedAt(s.objs, u);
    }
  }

  /** What an object is made of never changes after `lunatik_setobject`. */
  predicate SameMake(x: Object, y: Object) {
    x.cls == y.cls && x.opt == y.opt && x.gfp == y.gfp && x.home == y.home
  }

  predicate SameMakes(s: State, s': State) {
    forall o | o in s.objs :: o in s'.objs && SameMake(s.objs[o], s'.objs[o])
  }

  lemma ConfinedKept(s: State, s': State)
    requires Counted(s) && Confined(s) && Counted(s') && SameMakes(s, s') && s'.objs.Keys == s.objs.Keys
    requires forall t | t in s'.refs ::
               (t in s.refs && s.refs[t] == s'.refs[t]) || WellPlaced(s.objs, t, s'.objs[s'.refs[t]])
    ensures Confined(s')
  {
    forall t | t in s'.refs
      ensures WellPlaced(s'.objs, t, s'.objs[s'.refs[t]])
    {
      assert t in s.refs && s.refs[t] == s'.refs[t] ==> WellPlaced(s.objs, t, s.objs[s.refs[t]]);
      assert t.Handle? && t.runtime in s.objs ==> SameMake(s.objs[t.runtime], s'.objs[t.runtime]);
      assert SameMake(s.objs[s'.refs[t]], s'.objs[s'.refs[t]]);
    }
    forall o | o in s'.objs
      ensures WellMade(s'.objs[o])
    {
      assert WellMade(s.objs[o]) && SameMake(s.objs[o], s'.objs[o]);
    }
  }

  predicate Kept(s: State, s': State, t: Ref)
    requires t in s.refs
  {
    t in s'.refs && s'.refs[t] == s.refs[t] && (t.Handle? && Runs(s, t.runtime) ==> Runs(s', t.runtime))
  }

  /** Stacks survive a change that keeps every pinned reference and every open Lua state under one. */
  lemma StacksKept(s: State, s': State)
    requires PinsOk(s) && s'.pins == s.pins
    requires forall t | t in s.refs && Pinned(s, t) :: Kept(s, s', t)
    requires forall o | o in s.pins :: o in s'.objs && s'.objs[o].private == Detached
    ensures PinsOk(s')
  {
    forall o | o in s'.pins
      ensures PinAt(s', o, s'.pins[o])
    {
      PinKept(s, s', o);
    }
  }

  lemma PinKept(s: State, s': State, o: Id)
    requires PinsOk(s) && o in s.pins
    requires forall t | t in s.refs && Pinned(s, t) :: Kept(s, s', t)
    requires o in s'.objs && s'.objs[o].private == Detached
    ensures PinAt(s', o, s.pins[o])
  {
    assert PinAt(s, o, s.pins[o]);
    assert forall t <- s.pins[o] | t in s.refs :: Pinned(s, t) && Kept(s, s', t);
    StackKept(s, s', s.pins[o]);
    GroundsKept(s, s', s.pins[o], o);
  }

  lemma GroundsKept(s: State, s': State, stack: set<Ref>, o: Id)
    requires Grounds(s.refs, stack, o)
    requires forall t <- stack | t in s.refs :: Kept(s, s', t)
    ensures Grounds(s'.refs, stack, o)
  {
    var u :| u in stack && u in s.refs && s.refs[u] == o;
    assert Kept(s, s', u);
  }

  lemma StackKept(s: State, s': State, stack: set<Ref>)
    requires Stack(s, stack)
    requires forall t <- stack | t in s.refs :: Kept(s, s', t)
    ensures Stack(s', stack)
  {
    forall t <- stack
      ensures StackAt(s', stack, t)
    {
      assert StackAt(s, stack, t) && Kept(s, s', t);
      if t.Handle? { GroundsKept(s, s', stack, t.runtime); }
    }
  }

  lemma MoveKeepsInv(s: State, from: Ref, to: Ref)
    requires Inv(s) && from in s.refs && to !in s.refs && !Pinned(s, from)
    requires to.Handle? ==> CanClone(s, to.runtime, s.objs[s.refs[from]])
    requires !to.Entry?
    ensures Inv(MoveRef(s, from, to))
  {
    MoveKeepsCounts(s, from, to);
    assert Confined(MoveRef(s, from, to)) by { ConfinedKept(s, MoveRef(s, from, to)); }
    assert PinsOk(MoveRef(s, from, to)) by { MoveKeepsPins(s, from, to); }
  }

  lemma MoveKeepsPins(s: State, from: Ref, to: Ref)
    requires PinsOk(s) && from in s.refs && to !in s.refs && !Pinned(s, from)
    ensures PinsOk(MoveRef(s, from, to))
  {
    var s' := MoveRef(s, from, to);
    forall u | u in s.refs && Pinned(s, u) ensures Kept(s, s', u) {}
    forall p | p in s.pins ensures p in s'.objs && s'.objs[p].private == Detached { assert PinAt(s, p, s.pins[p]); }
    StacksKept(s, s');
  }

  lemma MoveKeepsCounts(s: State, from: Ref, to: Ref)
    requires Counted(s) && Owned(s) && from in s.refs && to !in s.refs
    requires to.Handle? ==> Runs(s, to.runtime)
    requires !to.Entry?
    ensures Counted(MoveRef(s, from, to)) && Owned(MoveRef(s, from, to))
  {
    RefsToMove(s.refs, from, to);
    var s' := MoveRef(s, from, to);
    forall p | p in s'.objs
      ensures CountedAt(s'.refs, p, s'.objs[p])
    {
      assert CountedAt(s.refs, p, s.objs[p]);
    }
  }

  lemma DelKeepsInv(s: State, t: Ref)
    requires Inv(s) && t in s.refs && !Pinned(s, t)
    ensures Inv(DelRef(s, t))
  {
    DelKeepsCounts(s, t);
    assert ReleasedOnce(DelRef(s, t)) by {
      ReferencedIsLive(s, t);
      if s.objs[s.refs[t]].count == 1 { LastPutUnpinned(s, t); }
      DelKeepsReleases(s, t);
    }
    assert Confined(DelRef(s, t)) by { DelKeepsConfined(s, t); }
    assert PinsOk(DelRef(s, t)) by {
      ReferencedIsLive(s, t);
      if s.objs[s.refs[t]].count == 1 { LastPutUnpinned(s, t); }
      DelKeepsPins(s, t);
    }
  }

  lemma DelKeepsConfined(s: State, t: Ref)
    requires Counted(s) && Confined(s) && t in s.refs && Counted(DelRef(s, t))
    ensures Confined(DelRef(s, t))
  {
    var s' := DelRef(s, t);
    forall p | p in s.objs ensures SameMake(s.objs[p], s'.objs[p]) {}
    ConfinedKept(s, s');
  }

  lemma DelKeepsCounts(s: State, t: Ref)
    requires Counted(s) && Owned(s) && t in s.refs
    ensures Counted(DelRef(s, t)) && Owned(DelRef(s, t))
  {
    RefsToDel(s.refs, t);
    var s' := DelRef(s, t);
    assert t in RefsTo(s.refs, s.refs[t]);
    forall p | p in s'.objs
      ensures CountedAt(s'.refs, p, s'.objs[p])
    {
      assert CountedAt(s.refs, p, s.objs[p]);
    }
    forall u | u in s'.refs
      ensures OwnedAt(s'.objs, u)
    {
      assert OwnedAt(s.objs, u);
    }
  }

  lemma DelKeepsReleases(s: State, t: Ref)
    requires ReleasedOnce(s) && t in s.refs && s.refs[t] in s.objs
    requires s.objs[s.refs[t]].status == Live
    requires s.objs[s.refs[t]].count <= 1 ==> s.objs[s.refs[t]].private != Detached
    ensures ReleasedOnce(DelRef(s, t))
  {
    assert forall p | p in s.objs :: ReleasedAt(s.pins.Keys, p, s.objs[p]);
  }

  lemma DelKeepsPins(s: State, t: Ref)
    requires PinsOk(s) && t in s.refs && s.refs[t] in s.objs && !Pinned(s, t)
    requires s.objs[s.refs[t]].count > 1 || NobodyIn(s, s.refs[t])
    ensures PinsOk(DelRef(s, t))
  {
    var s' := DelRef(s, t);
    forall u | u in s.refs && Pinned(s, u) ensures Kept(s, s', u) {}
    forall p | p in s.pins ensures p in s'.objs && s'.objs[p].private == Detached { assert PinAt(s, p, s.pins[p]); }
    StacksKept(s, s');
  }

  /** No agent is releasing `o` or running code in it. */
  predicate NobodyIn(s: State, o: Id) {
    o !in s.pins && forall u | u in s.refs && Pinned(s, u) :: !OwnedBy(u, o)
  }

  /** The last reference is not on the stack of any agent, so nobody runs in, or releases,
      the object it frees. */
  lemma LastPutUnpinned(s: State, t: Ref)
    requires Inv(s) && t in s.refs && !Pinned(s, t) && s.objs[s.refs[t]].count == 1
    ensures NobodyIn(s, s.refs[t]) && s.objs[s.refs[t]].private != Detached
  {
    var o := s.refs[t];
    if o in s.pins {
      assert PinAt(s, o, s.pins[o]);
      OnlyOneReference(s, t, s.pins[o], o);
    }
    forall u | u in s.refs && Pinned(s, u)
      ensures !OwnedBy(u, o)
    {
      var p :| p in s.pins && u in s.pins[p];
      assert PinAt(s, p, s.pins[p]) && StackAt(s, s.pins[p], u);
      if OwnedBy(u, o) { OnlyOneReference(s, t, s.pins[p], p); }
    }
    assert ReleasedAt(s.pins.Keys, o, s.objs[o]);
    ReferencedIsLive(s, t);
  }

  lemma OnlyOneReference(s: State, t: Ref, stack: set<Ref>, p: Id)
    requires Inv(s) && t in s.refs && !Pinned(s, t) && s.objs[s.refs[t]].count == 1
    requires p in s.pins && stack == s.pins[p]
    ensures !Grounds(s.refs, stack, s.refs[t])
  {
    if Grounds(s.refs, stack, s.refs[t]) {
      var u :| u in stack && u in s.refs && s.refs[u] == s.refs[t];
      assert Pinned(s, u);
      TwoReferences(s, t, u);
    }
  }

  // ---- every step keeps the invariant ----

  /** `lunatik_newobject`, `lunatik_createobject`: a fresh object with its first reference. */
  lemma FreshKeepsInv(s: State, s': State, t: Ref, o: Id)
    requires Inv(s) && t !in s.refs && !t.Entry? && o !in s.objs
    requires t.Handle? ==> Runs(s, t.runtime)
    requires s'.refs == s.refs[t := o] && s'.pins == s.pins
    requires s'.objs.Keys == s.objs.Keys + {o} && forall p | p in s.objs :: s'.objs[p] == s.objs[p]
    requires s'.objs[o].count == 1 && s'.objs[o].status == Live && s'.objs[o].releases == 0
    requires s'.objs[o].private in {Attached, Null}
    requires WellMade(s'.objs[o]) && WellPlaced(s.objs, t, s'.objs[o])
    ensures Inv(s')
  {
    assert ReleasedOnce(s') by { assert forall p | p in s.objs :: ReleasedAt(s.pins.Keys, p, s.objs[p]); }
    hide ReleasedOnce, PinsOk, Counted, Confined, Owned;
    FreshKeepsCounts(s, s', t, o);
    FreshKeepsConfined(s, s', t, o);
    FreshKeepsPins(s, s');
  }

  lemma FreshKeepsConfined(s: State, s': State, t: Ref, o: Id)
    requires Counted(s) && Owned(s) && Confined(s) && Counted(s') && o !in s.objs
    requires s'.refs == s.refs[t := o]
    requires s'.objs.Keys == s.objs.Keys + {o} && forall p | p in s.objs :: s'.objs[p] == s.objs[p]
    requires WellMade(s'.objs[o]) && WellPlaced(s.objs, t, s'.objs[o]) && (t.Handle? ==> t.runtime in s.objs)
    ensures Confined(s')
  {
    forall u | u in s'.refs
      ensures WellPlaced(s'.objs, u, s'.objs[s'.refs[u]])
    {
      assert u in s.refs ==> WellPlaced(s.objs, u, s.objs[s.refs[u]]) && OwnedAt(s.objs, u);
    }
  }

  lemma FreshKeepsPins(s: State, s': State)
    requires PinsOk(s) && s'.pins == s.pins
    requires forall t | t in s.refs :: t in s'.refs && s'.refs[t] == s.refs[t]
    requires forall p | p in s.objs :: p in s'.objs && s'.objs[p] == s.objs[p]
    ensures PinsOk(s')
  {
    forall u | u in s.refs ensures Kept(s, s', u) {}
    forall p | p in s.pins ensures p in s'.objs && s'.objs[p].private == Detached { assert PinAt(s, p, s.pins[p]); }
    StacksKept(s, s');
  }

  lemma FreshKeepsCounts(s: State, s': State, t: Ref, o: Id)
    requires Counted(s) && Owned(s) && t !in s.refs && !t.Entry? && o !in s.objs
    requires t.Handle? ==> Runs(s, t.runtime)
    requires s'.refs == s.refs[t := o]
    requires s'.objs.Keys == s.objs.Keys + {o} && forall p | p in s.objs :: s'.objs[p] == s.objs[p]
    requires s'.objs[o].count == 1 && s'.objs[o].status == Live
    ensures Counted(s') && Owned(s')
  {
    RefsToAdd(s.refs, t, o);
    assert RefsTo(s.refs, o) == {};
    forall p | p in s'.objs
      ensures CountedAt(s'.refs, p, s'.objs[p])
    {
      assert p in s.objs ==> CountedAt(s.refs, p, s.objs[p]);
    }
    forall u | u in s'.refs
      ensures OwnedAt(s'.objs, u)
    {
      assert u in s.refs ==> OwnedAt(s.objs, u);
    }
  }

  /** `s'` differs from `s` in the progress of object `o` only. */
  predicate Progressed(s: State, s': State, o: Id) {
    && o in s.objs && o in s'.objs && s'.refs == s.refs
    && s'.objs == s.objs[o := s'.objs[o]]
    && SameMake(s.objs[o], s'.objs[o]) && s'.objs[o].count == s.objs[o].count
    && (s.objs[o].status == Live <==> s'.objs[o].status == Live)
  }

  lemma ProgressKeepsCounts(s: State, s': State, o: Id)
    requires Counted(s) && Owned(s) && Confined(s) && Progressed(s, s', o)
    requires s'.objs[o].private in {Attached, Detached} || forall t | t in s.refs :: !OwnedBy(t, o)
    ensures Counted(s') && Owned(s') && Confined(s')
  {
    forall p | p in s'.objs
      ensures CountedAt(s'.refs, p, s'.objs[p])
    {
      assert CountedAt(s.refs, p, s.objs[p]);
    }
    forall t | t in s'.refs
      ensures OwnedAt(s'.objs, t)
    {
      assert OwnedAt(s.objs, t);
    }
    ConfinedKept(s, s');
  }

  lemma ProgressKeepsReleases(s: State, s': State, o: Id)
    requires ReleasedOnce(s) && Progressed(s, s', o) && s.pins.Keys - {o} <= s'.pins.Keys
    requires ReleasedAt(s.pins.Keys, o, s.objs[o]) ==> ReleasedAt(s'.pins.Keys, o, s'.objs[o])
    ensures ReleasedOnce(s')
  {
    forall p | p in s'.objs
      ensures ReleasedAt(s'.pins.Keys, p, s'.objs[p])
    {
      assert ReleasedAt(s.pins.Keys, p, s.objs[p]);
    }
  }

  lemma CloseKeepsInv(s: State, via: Ref, stack: set<Ref>)
    requires Inv(s) && Enabled(s, Close(via, stack))
    ensures Inv(Apply(s, Close(via, stack)))
  {
    var o, s' := s.refs[via], Apply(s, Close(via, stack));
    assert Counted(s') && Owned(s') && Confined(s') by { ProgressKeepsCounts(s, s', o); }
    assert ReleasedOnce(s') by { ReferencedIsLive(s, via); ProgressKeepsReleases(s, s', o); }
    assert PinsOk(s') by { CloseKeepsPins(s, s', via, stack); }
  }

  lemma CloseKeepsPins(s: State, s': State, via: Ref, stack: set<Ref>)
    requires PinsOk(s) && Enabled(s, Close(via, stack)) && s' == Apply(s, Close(via, stack))
    ensures PinsOk(s')
  {
    var o := s.refs[via];
    forall t | t in s.refs && (Pinned(s, t) || t in stack) ensures Kept(s, s', t) {}
    forall p | p in s'.pins
      ensures PinAt(s', p, s'.pins[p])
    {
      if p == o {
        StackKept(s, s', stack);
        assert Grounds(s.refs, stack, o);
      } else {
        assert PinAt(s, p, s.pins[p]);
        PinKept(s, s', p);
      }
    }
  }

  lemma FinishKeepsInv(s: State, o: Id)
    requires Inv(s) && Enabled(s, Finish(o))
    ensures Inv(Apply(s, Finish(o)))
  {
    var s' := Apply(s, Finish(o));
    assert Counted(s') && Owned(s') && Confined(s') by { ProgressKeepsCounts(s, s', o); }
    assert ReleasedOnce(s') by { ProgressKeepsReleases(s, s', o); }
    assert PinsOk(s') by { ProgressKeepsPins(s, s', o); }
  }

  lemma ProgressKeepsPins(s: State, s': State, o: Id)
    requires PinsOk(s) && Progressed(s, s', o) && s'.pins == s.pins - {o}
    requires s.objs[o].private == Attached ==> s'.objs[o].private == Attached
    ensures PinsOk(s')
  {
    forall t | t in s.refs ensures Kept(s, s', t) {}
    forall p | p in s'.pins
      ensures PinAt(s', p, s'.pins[p])
    {
      assert PinAt(s, p, s.pins[p]);
      PinKept(s, s', p);
    }
  }

  /** A private part that is gone holds nothing, and nobody works on it. */
  lemma NothingInside(s: State, o: Id)
    requires Owned(s) && PinsOk(s) && o in s.objs && s.objs[o].private in {Null, Released}
    ensures o !in s.pins && forall t | t in s.refs :: !OwnedBy(t, o)
  {
    assert o in s.pins ==> PinAt(s, o, s.pins[o]);
    assert forall t | t in s.refs :: OwnedAt(s.objs, t);
  }

  lemma FreeKeepsInv(s: State, o: Id)
    requires Inv(s) && Enabled(s, Free(o))
    ensures Inv(Apply(s, Free(o)))
  {
    hide Counted, Owned, Confined, ReleasedOnce, PinsOk;
    var s' := Apply(s, Free(o));
    NothingInside(s, o);
    assert s'.pins == s.pins - {o};
    ProgressKeepsCounts(s, s', o);
    ProgressKeepsReleases(s, s', o);
    ProgressKeepsPins(s, s', o);
  }

  lemma NewKeepsInv(s: State, r: Id, slot: nat, o: Id, cls: Class, opt: Opt, attached: bool)
    requires Inv(s) && Enabled(s, New(r, slot, o, cls, opt, attached))
    ensures Inv(Apply(s, New(r, slot, o, cls, opt, attached)))
  {
    var s' := Apply(s, New(r, slot, o, cls, opt, attached));
    assert WellMade(s'.objs[o]) && WellPlaced(s.objs, Handle(r, slot), s'.objs[o]);
    FreshKeepsInv(s, s', Handle(r, slot), o);
  }

  lemma CreateKeepsInv(s: State, hold: nat, o: Id, cls: Class, opt: Opt)
    requires Inv(s) && Enabled(s, Create(hold, o, cls, opt))
    ensures Inv(Apply(s, Create(hold, o, cls, opt)))
  {
    var s' := Apply(s, Create(hold, o, cls, opt));
    assert WellMade(s'.objs[o]) && WellPlaced(s.objs, Hold(hold), s'.objs[o]);
    FreshKeepsInv(s, s', Hold(hold), o);
  }

  lemma ReplaceKeepsInv(s: State, src: Ref, t: Id, key: string, hold: nat)
    requires Inv(s) && Enabled(s, TableReplace(src, t, key, hold))
    ensures Inv(Apply(s, TableReplace(src, t, key, hold)))
  {
    ReferencedIsLive(s, src);
    EntryUnpinned(s, Entry(t, key));
    MoveKeepsInv(s, Entry(t, key), Hold(hold));
    AddKeepsInv(MoveRef(s, Entry(t, key), Hold(hold)), Entry(t, key), s.refs[src]);
  }

  lemma RefuseKeepsInv(s: State, r: Id, cls: Class)
    requires Inv(s) && Enabled(s, Refuse(r, cls))
    ensures Inv(Apply(s, Refuse(r, cls)))
  {
    var s' := Apply(s, Refuse(r, cls));
    assert Counted(s') && Owned(s') && ReleasedOnce(s') && Confined(s');
    forall u | u in s.refs ensures Kept(s, s', u) {}
    assert PinsOk(s') by { FreshKeepsPins(s, s'); }
  }

  lemma StepKeepsInv(s: State, step: Step)
    requires Inv(s) && Enabled(s, step)
    ensures Inv(Apply(s, step))
  {
    hide Inv, Enabled, Apply;
    match step {
      case New(r, slot, o, cls, opt, attached) => NewKeepsInv(s, r, slot, o, cls, opt, attached);
      case Create(hold, o, cls, opt) => CreateKeepsInv(s, hold, o, cls, opt);
      case TableReplace(src, t, key, hold) => ReplaceKeepsInv(s, src, t, key, hold);
      case Close(via, stack) => CloseKeepsInv(s, via, stack);
      case Finish(o) => FinishKeepsInv(s, o);
      case Free(o) => FreeKeepsInv(s, o);
      case Refuse(r, cls) => RefuseKeepsInv(s, r, cls);
      case _ => CountStepKeepsInv(s, step);
    }
  }

  /** What `from` referred to is now referred to by `to` instead, and nothing else changed. */
  ghost predicate Handed(refs: map<Ref, Id>, refs': map<Ref, Id>, from: Ref, to: Ref) {
    && from in refs && from !in refs' && to in refs' && refs'[to] == refs[from]
    && forall t | t != from && t != to :: (t in refs <==> t in refs') && (t in refs ==> refs'[t] == refs[t])
  }

  lemma MoveHands(s: State, from: Ref, to: Ref)
    requires from in s.refs && to !in s.refs
    ensures Handed(s.refs, MoveRef(s, from, to).refs, from, to)
  {
  }

  /** A reference that C code gives to a handle, or a table to C code, is moved, not copied. */
  lemma MovesReferences(s: State, step: Step)
    requires Enabled(s, step) && (step.Clone? || step.TableDelete? || step.TableReplace?)
    ensures var refs, refs' := s.refs, Apply(s, step).refs;
            match step
            case Clone(hold, r, slot) => Handed(refs, refs', Hold(hold), Handle(r, slot))
            case TableDelete(t, key, hold) => Handed(refs, refs', Entry(t, key), Hold(hold))
            case TableReplace(src, t, key, hold) =>
              Handed(refs, refs' - {Entry(t, key)}, Entry(t, key), Hold(hold))
              && Entry(t, key) in refs' && refs'[Entry(t, key)] == refs[src]
  {
    hide Handed;
    match step {
      case Clone(hold, r, slot) => MoveHands(s, Hold(hold), Handle(r, slot));
      case TableDelete(t, key, hold) => MoveHands(s, Entry(t, key), Hold(hold));
      case TableReplace(src, t, key, hold) =>
        MoveHands(s, Entry(t, key), Hold(hold));
        assert Apply(s, step).refs - {Entry(t, key)} == MoveRef(s, Entry(t, key), Hold(hold)).refs;
    }
  }

  /** Every other step makes one reference, takes one away, or leaves them as they are. */
  lemma MakesReferences(s: State, step: Step)
    requires Enabled(s, step) && !step.Clone? && !step.TableDelete? && !step.TableReplace?
    ensures var refs, refs' := s.refs, Apply(s, step).refs;
            match step
            case New(r, slot, o, _, _, _) => refs' == refs[Handle(r, slot) := o]
            case Create(hold, o, _, _) => refs' == refs[Hold(hold) := o]
            case Push(src, r, slot) => refs' == refs[Handle(r, slot) := refs[src]]
            case Get(src, hold) => refs' == refs[Hold(hold) := refs[src]]
            case TableSet(src, t, key) => refs' == refs[Entry(t, key) := refs[src]]
            case Drop(t) => refs' == refs - {t}
            case TearDrop(t) => refs' == refs - {t}
            case _ => refs' == refs
  {
  }

  /** Steps that add, move or drop one counted reference. */
  lemma CountStepKeepsInv(s: State, step: Step)
    requires Inv(s) && Enabled(s, step)
    requires step.Push? || step.Get? || step.Clone? || step.TableSet? || step.TableDelete? || step.Drop? || step.TearDrop?
    ensures Inv(Apply(s, step))
  {
    hide Inv, AddRef, MoveRef, DelRef;
    if step.Push? || step.Get? || step.TableSet? {
      ReferencedIsLive(s, step.src);
    }
    match step {
      case Push(src, r, slot) => AddKeepsInv(s, Handle(r, slot), s.refs[src]);
      case Get(src, hold) => AddKeepsInv(s, Hold(hold), s.refs[src]);
      case TableSet(src, t, key) => AddKeepsInv(s, Entry(t, key), s.refs[src]);
      case Clone(hold, r, slot) => MoveKeepsInv(s, Hold(hold), Handle(r, slot));
      case TableDelete(t, key, hold) =>
        EntryUnpinned(s, Entry(t, key));
        MoveKeepsInv(s, Entry(t, key), Hold(hold));
      case Drop(t) => DelKeepsInv(s, t);
      case TearDrop(t) => DelKeepsInv(s, t);
    }
  }

  lemma EntryUnpinned(s: State, t: Ref)
    requires Inv(s) && t.Entry?
    ensures !Pinned(s, t)
  {
    assert forall p | p in s.pins :: PinAt(s, p, s.pins[p]);
  }
}
