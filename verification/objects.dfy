/** The shared-object core as a transition system (lunatik_obj.c, lunatik.h, lunatik_val.c).

    Every counted reference is a token in `refs`: a userdata handle inside a Lua state, an
    entry of an rcu table, or a reference held by C code. A Lua state is the private part of
    a runtime object and a bucket array is the private part of a table, so releasing one
    private part drops the tokens it owns, which may free further objects. Each step below
    is one atomic action of some agent; agents interleave arbitrarily. */
module Objects {
  import opened Options

  type Id = nat

  datatype Kind = Plain | Table | Runtime
  datatype Class = Class(kind: Kind, opt: Opt)

  datatype Ref = Handle(runtime: Id, slot: nat) | Entry(table: Id, key: string) | Hold(id: nat)

  /** `object->private`: never set, set, taken by the agent that releases it, released. */
  datatype Private = Null | Attached | Detached | Released
  datatype Status = Live | Dying | Freed
  datatype Home = InRuntime(id: Id) | InKernel

  datatype Object = Object(cls: Class, opt: Opt, gfp: Gfp, home: Home, count: nat,
                           private: Private, status: Status, releases: nat)

  /** `pins[o]` are the references on the stack of the agent that closed `o` and is still
      releasing its private part. `memory` counts the objects allocated and not given back. */
  datatype State = State(objs: map<Id, Object>, refs: map<Ref, Id>, pins: map<Id, set<Ref>>, memory: int)

  const Initial := State(map[], map[], map[], 0)

  // ---- references ----

  function RefsTo(refs: map<Ref, Id>, o: Id): set<Ref> {
    set t | t in refs && refs[t] == o
  }

  predicate OwnedBy(t: Ref, o: Id) {
    (t.Handle? && t.runtime == o) || (t.Entry? && t.table == o)
  }

  predicate Pinned(s: State, t: Ref) {
    exists o :: o in s.pins && t in s.pins[o]
  }

  predicate Runs(s: State, r: Id) {
    r in s.objs && s.objs[r].cls.kind == Runtime && s.objs[r].private == Attached
  }

  predicate Holds(s: State, t: Id) {
    t in s.objs && s.objs[t].cls.kind == Table && s.objs[t].private == Attached
  }

  /** `lunatik_cloneobject` accepts `x` in runtime `r`. */
  predicate CanClone(s: State, r: Id, x: Object) {
    Runs(s, r) && !x.opt.single && Admits(s.objs[r].opt, x.cls.opt)
  }

  function SetObject(cls: Class, opt: Opt, home: Home, private: Private): Object {
    Object(cls, Inherit(cls.opt, opt), GfpOf(Inherit(cls.opt, opt)), home, 1, private, Live, 0)
  }

  function AddRef(s: State, t: Ref, o: Id): State
    requires o in s.objs
  {
    s.(refs := s.refs[t := o], objs := s.objs[o := s.objs[o].(count := s.objs[o].count + 1)])
  }

  function MoveRef(s: State, from: Ref, to: Ref): State
    requires from in s.refs
  {
    s.(refs := (s.refs - {from})[to := s.refs[from]])
  }

  /** `kref_put`: the last put makes the object unreachable and takes its private part. */
  function Unref(x: Object): Object {
    if x.count > 1 then x.(count := x.count - 1)
    else x.(count := 0, status := Dying, private := if x.private == Attached then Detached else x.private)
  }

  function DelRef(s: State, t: Ref): State
    requires t in s.refs && s.refs[t] in s.objs
  {
    s.(refs := s.refs - {t}, objs := s.objs[s.refs[t] := Unref(s.objs[s.refs[t]])])
  }

  // ---- steps ----

  datatype Step =
    | New(runtime: Id, slot: nat, o: Id, cls: Class, opt: Opt, attached: bool)
    | Refuse(runtime: Id, cls: Class)
    | Create(hold: nat, o: Id, cls: Class, opt: Opt)
    | Push(src: Ref, runtime: Id, slot: nat)
    | Get(src: Ref, hold: nat)
    | Clone(hold: nat, runtime: Id, slot: nat)
    | TableSet(src: Ref, table: Id, key: string)
    | TableReplace(src: Ref, table: Id, key: string, hold: nat)
    | TableDelete(table: Id, key: string, hold: nat)
    | Close(via: Ref, stack: set<Ref>)
    | Drop(t: Ref)
    | TearDrop(t: Ref)
    | Finish(o: Id)
    | Free(o: Id)

  /** The references an agent stands on while it runs code: each is live, a handle lives in a
      Lua state that is open, and the agent reached that Lua state through another of them. */
  predicate Stack(s: State, stack: set<Ref>) {
    forall t <- stack :: StackAt(s, stack, t)
  }

  predicate StackAt(s: State, stack: set<Ref>, t: Ref) {
    t in s.refs && !t.Entry? && (t.Handle? ==> Runs(s, t.runtime) && Grounds(s.refs, stack, t.runtime))
  }

  predicate Grounds(refs: map<Ref, Id>, stack: set<Ref>, o: Id) {
    exists u <- stack :: u in refs && refs[u] == o
  }

  /** `Refuse` is `lunatik_newobject` up to the refusal of its class, which comes after the allocation and
      leaves nobody to free it. */
  predicate Enabled(s: State, step: Step) {
    match step
    case New(r, slot, o, cls, opt, attached) =>
      Runs(s, r) && Handle(r, slot) !in s.refs && o !in s.objs && cls.kind != Runtime
      && Admits(s.objs[r].opt, cls.opt)
    case Refuse(r, cls) => Runs(s, r) && cls.kind != Runtime && !Admits(s.objs[r].opt, cls.opt)
    case Create(hold, o, cls, opt) =>
      Hold(hold) !in s.refs && o !in s.objs
    case Push(src, r, slot) =>
      src in s.refs && Handle(r, slot) !in s.refs && s.refs[src] in s.objs && CanClone(s, r, s.objs[s.refs[src]])
    case Get(src, hold) =>
      src in s.refs && s.refs[src] in s.objs && Hold(hold) !in s.refs
    case Clone(hold, r, slot) =>
      Hold(hold) in s.refs && !Pinned(s, Hold(hold)) && Handle(r, slot) !in s.refs
      && s.refs[Hold(hold)] in s.objs && CanClone(s, r, s.objs[s.refs[Hold(hold)]])
    case TableSet(src, t, key) =>
      src in s.refs && Holds(s, t) && Entry(t, key) !in s.refs
      && s.refs[src] in s.objs && !s.objs[s.refs[src]].opt.single
    case TableReplace(src, t, key, hold) =>
      src in s.refs && Holds(s, t) && Entry(t, key) in s.refs && Hold(hold) !in s.refs
      && s.refs[src] in s.objs && !s.objs[s.refs[src]].opt.single
    case TableDelete(t, key, hold) =>
      Holds(s, t) && Entry(t, key) in s.refs && Hold(hold) !in s.refs
    case Close(via, stack) =>
      via in s.refs && via in stack && Stack(s, stack) && s.refs[via] in s.objs
      && s.objs[s.refs[via]].private == Attached
      && (forall t | t in s.refs && Pinned(s, t) :: !OwnedBy(t, s.refs[via]))
      && (forall t <- stack :: !OwnedBy(t, s.refs[via]))
    case Drop(t) =>
      t in s.refs && s.refs[t] in s.objs && !t.Entry? && !Pinned(s, t) && (t.Handle? ==> Runs(s, t.runtime))
    case TearDrop(t) =>
      t in s.refs && s.refs[t] in s.objs && !t.Hold? && !Pinned(s, t)
      && (var o := if t.Handle? then t.runtime else t.table; o in s.objs && s.objs[o].private == Detached)
    case Finish(o) =>
      o in s.objs && s.objs[o].private == Detached && forall t | t in s.refs :: !OwnedBy(t, o)
    case Free(o) =>
      o in s.objs && s.objs[o].status == Dying && s.objs[o].private in {Null, Released}
  }

  function Apply(s: State, step: Step): State
    requires Enabled(s, step)
  {
    match step
    case New(r, slot, o, cls, opt, attached) =>
      s.(objs := s.objs[o := SetObject(cls, opt, InRuntime(r), if attached then Attached else Null)],
         refs := s.refs[Handle(r, slot) := o], memory := s.memory + 1)
    case Refuse(r, cls) => s.(memory := s.memory + 1)
    case Create(hold, o, cls, opt) =>
      s.(objs := s.objs[o := SetObject(cls, opt, InKernel, Attached)], refs := s.refs[Hold(hold) := o],
         memory := s.memory + 1)
    case Push(src, r, slot) => AddRef(s, Handle(r, slot), s.refs[src])
    case Get(src, hold) => AddRef(s, Hold(hold), s.refs[src])
    case Clone(hold, r, slot) => MoveRef(s, Hold(hold), Handle(r, slot))
    case TableSet(src, t, key) => AddRef(s, Entry(t, key), s.refs[src])
    case TableReplace(src, t, key, hold) => AddRef(MoveRef(s, Entry(t, key), Hold(hold)), Entry(t, key), s.refs[src])
    case TableDelete(t, key, hold) => MoveRef(s, Entry(t, key), Hold(hold))
    case Close(via, stack) =>
      var o := s.refs[via];
      s.(objs := s.objs[o := s.objs[o].(private := Detached)], pins := s.pins[o := stack])
    case Drop(t) => DelRef(s, t)
    case TearDrop(t) => DelRef(s, t)
    case Finish(o) =>
      s.(objs := s.objs[o := s.objs[o].(private := Released, releases := s.objs[o].releases + 1)], pins := s.pins - {o})
    case Free(o) => s.(objs := s.objs[o := s.objs[o].(status := Freed)], memory := s.memory - 1)
  }

  // ---- the invariant ----

  /** The count of every object is the number of its references, and it is live while that is positive. */
  predicate Counted(s: State) {
    && (forall t | t in s.refs :: s.refs[t] in s.objs)
    && (forall o | o in s.objs :: CountedAt(s.refs, o, s.objs[o]))
  }

  predicate CountedAt(refs: map<Ref, Id>, o: Id, x: Object) {
    x.count == |RefsTo(refs, o)| && (x.status == Live <==> x.count > 0)
  }

  /** References live in private parts that are not yet released. */
  predicate Owned(s: State) {
    forall t | t in s.refs :: OwnedAt(s.objs, t)
  }

  predicate OwnedAt(objs: map<Id, Object>, t: Ref) {
    match t
    case Handle(r, _) => r in objs && objs[r].cls.kind == Runtime && objs[r].private in {Attached, Detached}
    case Entry(b, _) => b in objs && objs[b].cls.kind == Table && objs[b].private in {Attached, Detached}
    case Hold(_) => true
  }

  /** A private part is released at most once, and before its object is freed. */
  predicate ReleasedOnce(s: State) {
    forall o | o in s.objs :: ReleasedAt(s.pins.Keys, o, s.objs[o])
  }

  predicate ReleasedAt(closing: set<Id>, o: Id, x: Object) {
    && x.releases == (if x.private == Released then 1 else 0)
    && (x.status == Dying ==> x.private != Attached)
    && (x.status == Freed ==> x.private in {Null, Released})
    && (x.status == Live && x.private == Detached ==> o in closing)
  }

  /** Reference `t` may refer to an object made like `x`. A SINGLE object stays with the runtime
      that created it, and an interrupt runtime holds interrupt classes only. */
  predicate WellPlaced(objs: map<Id, Object>, t: Ref, x: Object) {
    && (x.opt.single ==> t.Hold? || (t.Handle? && x.home == InRuntime(t.runtime)))
    && (t.Handle? && t.runtime in objs && objs[t.runtime].opt.irq ==> x.cls.opt.irq)
  }

  /** Options and allocation flags are those of `lunatik_setobject`. */
  predicate WellMade(x: Object) {
    (x.cls.opt.irq ==> x.opt.irq) && x.gfp == GfpOf(x.opt)
  }

  predicate Confined(s: State)
    requires Counted(s)
  {
    && (forall t | t in s.refs :: WellPlaced(s.objs, t, s.objs[s.refs[t]]))
    && (forall o | o in s.objs :: WellMade(s.objs[o]))
  }

  /** The agent releasing a closed object stands on a reference to that object. */
  predicate PinsOk(s: State) {
    forall o | o in s.pins :: PinAt(s, o, s.pins[o])
  }

  predicate PinAt(s: State, o: Id, stack: set<Ref>) {
    o in s.objs && s.objs[o].private == Detached && Stack(s, stack) && Grounds(s.refs, stack, o)
  }

  predicate Inv(s: State) {
    Counted(s) && Owned(s) && ReleasedOnce(s)
    && Confined(s) && PinsOk(s)
  }
}
