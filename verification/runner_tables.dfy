/** The script registries on rcu tables (lib/lunatik/runner.lua over lib/luarcu.c), and when they act as the finite
    maps of `Runner`: when no two keys in use collide. */
module RunnerTables {
  import opened Bytes
  import opened RunnerNames
  import opened RcuTable
  import opened RcuMap
  import R = Runner

  datatype Configs = Configs(runtimes: Config, percpu: Config, threads: Config)

  /** The three tables, the next runtime, and what became of every runtime. */
  datatype Tables = Tables(
    runtimes: Snapshot, percpu: Snapshot, threads: Snapshot, next: nat, place: map<nat, R.Place>)

  predicate Sized(cs: Configs, t: Tables) {
    && |t.runtimes.buckets| == cs.runtimes.Size() && |t.percpu.buckets| == cs.percpu.Size()
    && |t.threads.buckets| == cs.threads.Size()
  }

  function Empty(cs: Configs): (t: Tables)
    ensures Sized(cs, t)
  {
    Tables(EmptyTable(cs.runtimes), EmptyTable(cs.percpu), EmptyTable(cs.threads), 0, map[])
  }

  function Fetch(c: Config, t: Snapshot, key: Key): Value
    requires |t.buckets| == c.Size()
  {
    TableStep(c, t, Get(key)).1.value
  }

  function Store(c: Config, t: Snapshot, key: Key, value: Value): (t': Snapshot)
    requires |t.buckets| == c.Size()
    ensures |t'.buckets| == c.Size()
  {
    TableStep(c, t, Set(key, value, true)).0
  }

  // ---- one entry ----

  function AddRuntime(cs: Configs, t: Tables, s: Name): (t': Tables)
    requires Sized(cs, t)
    ensures Sized(cs, t')
  {
    t.(runtimes := Store(cs.runtimes, t.runtimes, s, Object(t.next)),
       place := t.place[t.next := R.InRuntimes(s)], next := t.next + 1)
  }

  function AddPercpu(cs: Configs, t: Tables, k: Name): (t': Tables)
    requires Sized(cs, t)
    ensures Sized(cs, t')
  {
    t.(percpu := Store(cs.percpu, t.percpu, k, Object(t.next)),
       place := t.place[t.next := R.InPercpu(k)], next := t.next + 1)
  }

  function Dropped(t: Tables): Tables {
    t.(place := t.place[t.next := R.Orphan], next := t.next + 1)
  }

  /** `stop`: the object that the lookup finds is stopped, and the entry that the removal finds is removed. */
  function StopRuntime(cs: Configs, t: Tables, s: Name): (t': Tables)
    requires Sized(cs, t)
    ensures Sized(cs, t')
  {
    var v := Fetch(cs.runtimes, t.runtimes, s);
    if v.Object? then t.(runtimes := Store(cs.runtimes, t.runtimes, s, Nil), place := t.place[v.id := R.Stopped]) else t
  }

  function StopPercpu(cs: Configs, t: Tables, k: Name): (t': Tables)
    requires Sized(cs, t)
    ensures Sized(cs, t')
  {
    var v := Fetch(cs.percpu, t.percpu, k);
    if v.Object? then t.(percpu := Store(cs.percpu, t.percpu, k, Nil), place := t.place[v.id := R.Stopped]) else t
  }

  function StopThread(cs: Configs, t: Tables, s: Name): (t': Tables)
    requires Sized(cs, t)
    ensures Sized(cs, t')
  {
    if Fetch(cs.threads, t.threads, s).Object? then t.(threads := Store(cs.threads, t.threads, s, Nil)) else t
  }

  // ---- one entry per CPU ----

  function Added(cs: Configs, t: Tables, s: Name, c: nat): (t': Tables)
    requires Sized(cs, t)
    ensures Sized(cs, t')
  {
    if c == 0 then t else AddPercpu(cs, Added(cs, t, s, c - 1), CpuKey(s, c - 1))
  }

  function StoppedCpus(cs: Configs, t: Tables, s: Name, c: nat): (t': Tables)
    requires Sized(cs, t)
    ensures Sized(cs, t')
  {
    if c == 0 then t else StopPercpu(cs, StoppedCpus(cs, t, s, c - 1), CpuKey(s, c - 1))
  }

  /** The failure that a per-CPU run meets from `cpu` on: a key that is too long is a write that fails. */
  function Meets(c: Config, n: nat, s: Name, f: R.Failure, cpu: nat): (g: R.Failure)
    ensures g == R.NoFailure || cpu <= g.cpu < n
    ensures g.CreateFails? ==> g == f
    ensures forall i: nat | cpu <= i < (if g == R.NoFailure then n else g.cpu) :: |CpuKey(s, i)| < c.maxKey
    decreases n - cpu
  {
    if cpu >= n then R.NoFailure
    else if f == R.CreateFails(cpu) then f
    else if f == R.WriteFails(cpu) || |CpuKey(s, cpu)| >= c.maxKey then R.WriteFails(cpu)
    else Meets(c, n, s, f, cpu + 1)
  }

  // ---- the operations ----

  function PercpuRun(cs: Configs, t: Tables, n: nat, s: Name, f: R.Failure): (r: (Tables, R.Outcome))
    requires Sized(cs, t)
    ensures Sized(cs, r.0)
  {
    match Meets(cs.percpu, n, s, f, 0)
    case CreateFails(cpu) => (StoppedCpus(cs, Added(cs, t, s, cpu), s, n), R.Raised)
    case WriteFails(cpu) => (Dropped(Added(cs, t, s, cpu)), R.Raised)
    case NoFailure => (Added(cs, t, s, n), R.Done)
  }

  /** The failure that a plain run meets. */
  function MeetsPlain(c: Config, s: Name, f: R.Failure): R.Failure {
    if f.CreateFails? then f
    else if f.WriteFails? || |s| >= c.maxKey then R.WriteFails(0)
    else R.NoFailure
  }

  function PlainRun(cs: Configs, t: Tables, s: Name, f: R.Failure): (r: (Tables, R.Outcome))
    requires Sized(cs, t)
    ensures Sized(cs, r.0)
  {
    match MeetsPlain(cs.runtimes, s, f)
    case CreateFails(_) => (t, R.Raised)
    case WriteFails(_) => (Dropped(t), R.Raised)
    case NoFailure => (AddRuntime(cs, t, s), R.Done)
  }

  predicate Running(cs: Configs, t: Tables, s: Name)
    requires Sized(cs, t)
  {
    Fetch(cs.runtimes, t.runtimes, s) != Nil || Fetch(cs.percpu, t.percpu, CpuKey(s, 0)) != Nil
  }

  function Run(cs: Configs, t: Tables, n: nat, script: Name, ispercpu: bool, f: R.Failure): (r: (Tables, R.Outcome))
    requires Sized(cs, t)
    ensures Sized(cs, r.0)
  {
    var s := Trim(script);
    if Running(cs, t, s) then (t, R.AlreadyRunning)
    else if ispercpu then PercpuRun(cs, t, n, s, f)
    else PlainRun(cs, t, s, f)
  }

  /** The thread is registered if it runs and the write of its entry succeeds. */
  predicate ThreadKept(c: Config, script: Name, threadRuns: bool, memory: bool) {
    threadRuns && memory && |script| < c.maxKey
  }

  function Spawn(cs: Configs, t: Tables, n: nat, script: Name, ispercpu: bool, f: R.Failure, threadRuns: bool, memory: bool)
    : (r: (Tables, R.Outcome))
    requires Sized(cs, t)
    ensures Sized(cs, r.0)
  {
    if ispercpu then (t, R.Raised)
    else
      var (t', outcome) := Run(cs, t, n, script, false, f);
      if !outcome.Done? then (t', outcome)
      else if !ThreadKept(cs.threads, script, threadRuns, memory) then (t', R.Raised)
      else (t'.(threads := Store(cs.threads, t'.threads, script, Object(t.next))), R.Done)
  }

  function Stop(cs: Configs, t: Tables, n: nat, script: Name): (t': Tables)
    requires Sized(cs, t)
    ensures Sized(cs, t')
  {
    var s := Trim(script);
    StoppedCpus(cs, StopRuntime(cs, StopThread(cs, t, s), s), s, n)
  }

  function StopAll(cs: Configs, t: Tables, n: nat, names: seq<Name>): (t': Tables)
    requires Sized(cs, t)
    ensures Sized(cs, t')
  {
    if names == [] then t else Stop(cs, StopAll(cs, t, n, names[..|names| - 1]), n, names[|names| - 1])
  }

  // ---- the keys in use ----

  /** The tables' parameters, the number of CPUs, the names given to the runner, and the names it looks up. */
  datatype Use = Use(cs: Configs, n: nat, given: iset<Name>, keys: iset<Name>)

  /** The runner looks up trimmed names, and shutting down trims those once more. */
  ghost predicate Closed(u: Use) {
    && (forall s | s in u.given :: Trim(s) in u.keys)
    && (forall s | s in u.keys :: Trim(s) in u.keys)
  }

  ghost predicate ForCpu(u: Use, k: Name) {
    exists s: Name, c: nat :: s in u.keys && c < u.n && k == CpuKey(s, c)
  }

  ghost function CpuKeys(u: Use): iset<Key> {
    iset k: Key | ForCpu(u, k)
  }

  /** No two keys in use collide. */
  ghost predicate NoCollisions(u: Use) {
    Separate(u.cs.runtimes, u.keys) && Separate(u.cs.percpu, CpuKeys(u)) && Separate(u.cs.threads, u.keys + u.given)
  }

  lemma CpuKeyUsed(u: Use, s: Name, c: nat)
    requires s in u.keys && c < u.n
    ensures CpuKey(s, c) in CpuKeys(u)
  {
    hide CpuKey;
    assert ForCpu(u, CpuKey(s, c));
  }

  // ---- a table that holds a map ----

  function Objects(m: map<Name, nat>): map<Key, Value> {
    map k | k in m :: Object(m[k])
  }

  ghost predicate Holds(c: Config, keys: iset<Key>, t: Snapshot, m: map<Name, nat>) {
    Rep(c, keys, t, Objects(m)) && forall k | k in m :: k in keys
  }

  lemma HoldsNothing(c: Config, keys: iset<Key>)
    ensures Holds(c, keys, EmptyTable(c), map[])
  {
    var t := EmptyTable(c);
    forall k | k in keys ensures AgreesOn(Objects(map[]), k, t.buckets[c.Index(k)]) { }
  }

  lemma HoldsFetch(c: Config, keys: iset<Key>, t: Snapshot, m: map<Name, nat>, k: Name)
    requires Holds(c, keys, t, m) && k in keys
    ensures |t.buckets| == c.Size() && Fetch(c, t, k) == if k in m then Object(m[k]) else Nil
  {
    hide BitAnd, Pow2, Lookup, Placed;
    assert AgreesOn(Objects(m), k, t.buckets[c.Index(k)]);
  }

  lemma HoldsSized(c: Config, keys: iset<Key>, t: Snapshot, m: map<Name, nat>)
    requires Holds(c, keys, t, m)
    ensures |t.buckets| == c.Size()
  {
  }

  lemma ObjectsChange(m: map<Name, nat>, k: Name, id: nat)
    ensures Objects(m[k := id]) == Objects(m)[k := Object(id)]
    ensures Objects(m - {k}) == Objects(m) - {k}
  {
  }

  lemma HoldsAdd(c: Config, keys: iset<Key>, t: Snapshot, m: map<Name, nat>, k: Name, id: nat)
    requires Separate(c, keys) && Holds(c, keys, t, m) && k in keys && |k| < c.maxKey
    ensures Holds(c, keys, Store(c, t, k, Object(id)), m[k := id])
  {
    hide Rep, TableStep, Separate, Objects;
    HoldsSized(c, keys, t, m);
    StepKeepsRep(c, keys, t, Objects(m), Set(k, Object(id), true));
    ObjectsChange(m, k, id);
  }

  lemma HoldsRemove(c: Config, keys: iset<Key>, t: Snapshot, m: map<Name, nat>, k: Name)
    requires Separate(c, keys) && Holds(c, keys, t, m) && k in keys
    ensures Holds(c, keys, Store(c, t, k, Nil), m - {k})
  {
    hide Rep, TableStep, Separate, Objects;
    HoldsSized(c, keys, t, m);
    StepKeepsRep(c, keys, t, Objects(m), Set(k, Nil, true));
    ObjectsChange(m, k, 0);
  }

  // ---- the tables act as the maps ----

  ghost predicate Rel(u: Use, t: Tables, r: R.Reg) {
    && Holds(u.cs.runtimes, u.keys, t.runtimes, r.runtimes)
    && Holds(u.cs.percpu, CpuKeys(u), t.percpu, r.percpu)
    && Holds(u.cs.threads, u.keys + u.given, t.threads, r.threads)
    && t.next == r.next && t.place == r.place
  }

  lemma RelSized(u: Use, t: Tables, r: R.Reg)
    requires Rel(u, t, r)
    ensures Sized(u.cs, t)
  {
  }

  lemma RelEmpty(u: Use)
    ensures Rel(u, Empty(u.cs), R.EMPTY)
  {
    hide Holds;
    HoldsNothing(u.cs.runtimes, u.keys);
    HoldsNothing(u.cs.percpu, CpuKeys(u));
    HoldsNothing(u.cs.threads, u.keys + u.given);
  }

  lemma StopRuntimeActs(u: Use, t: Tables, r: R.Reg, s: Name)
    requires NoCollisions(u) && Rel(u, t, r) && s in u.keys && Sized(u.cs, t)
    ensures Rel(u, StopRuntime(u.cs, t, s), R.StopRuntime(r, s))
  {
    hide Holds, Fetch, Store, Separate;
    HoldsFetch(u.cs.runtimes, u.keys, t.runtimes, r.runtimes, s);
    HoldsRemove(u.cs.runtimes, u.keys, t.runtimes, r.runtimes, s);
  }

  lemma StopPercpuActs(u: Use, t: Tables, r: R.Reg, s: Name, c: nat)
    requires NoCollisions(u) && Rel(u, t, r) && s in u.keys && c < u.n && Sized(u.cs, t)
    ensures Rel(u, StopPercpu(u.cs, t, CpuKey(s, c)), R.StopPercpu(r, CpuKey(s, c)))
  {
    hide Holds, Fetch, Store, Separate, CpuKeys, CpuKey;
    CpuKeyUsed(u, s, c);
    HoldsFetch(u.cs.percpu, CpuKeys(u), t.percpu, r.percpu, CpuKey(s, c));
    HoldsRemove(u.cs.percpu, CpuKeys(u), t.percpu, r.percpu, CpuKey(s, c));
  }

  lemma StopThreadActs(u: Use, t: Tables, r: R.Reg, s: Name)
    requires NoCollisions(u) && Rel(u, t, r) && s in u.keys && Sized(u.cs, t)
    ensures Rel(u, StopThread(u.cs, t, s), R.StopThread(r, s))
  {
    hide Holds, Fetch, Store, Separate;
    HoldsFetch(u.cs.threads, u.keys + u.given, t.threads, r.threads, s);
    HoldsRemove(u.cs.threads, u.keys + u.given, t.threads, r.threads, s);
    assert s !in r.threads ==> r.threads - {s} == r.threads;
  }

  lemma AddRuntimeActs(u: Use, t: Tables, r: R.Reg, s: Name)
    requires NoCollisions(u) && Rel(u, t, r) && s in u.keys && |s| < u.cs.runtimes.maxKey && Sized(u.cs, t)
    ensures Rel(u, AddRuntime(u.cs, t, s), R.AddRuntime(r, s))
  {
    hide Holds, Store, Separate;
    HoldsAdd(u.cs.runtimes, u.keys, t.runtimes, r.runtimes, s, r.next);
  }

  lemma AddPercpuActs(u: Use, t: Tables, r: R.Reg, s: Name, c: nat)
    requires NoCollisions(u) && Rel(u, t, r) && s in u.keys && c < u.n && Sized(u.cs, t)
    requires |CpuKey(s, c)| < u.cs.percpu.maxKey
    ensures Rel(u, AddPercpu(u.cs, t, CpuKey(s, c)), R.AddPercpu(r, CpuKey(s, c)))
  {
    hide Holds, Store, Separate, CpuKeys, CpuKey;
    CpuKeyUsed(u, s, c);
    HoldsAdd(u.cs.percpu, CpuKeys(u), t.percpu, r.percpu, CpuKey(s, c), r.next);
  }

  lemma {:induction false} AddedActs(u: Use, t: Tables, r: R.Reg, s: Name, c: nat)
    requires NoCollisions(u) && Rel(u, t, r) && s in u.keys && c <= u.n && Sized(u.cs, t)
    requires forall i: nat | i < c :: |CpuKey(s, i)| < u.cs.percpu.maxKey
    ensures Rel(u, Added(u.cs, t, s, c), R.Added(r, s, c))
    decreases c
  {
    hide Rel, CpuKey, NoCollisions, AddPercpu, R.AddPercpu;
    if c == 0 {
    } else {
      AddedActs(u, t, r, s, c - 1);
      AddPercpuActs(u, Added(u.cs, t, s, c - 1), R.Added(r, s, c - 1), s, c - 1);
    }
  }

  lemma {:induction false} StoppedCpusActs(u: Use, t: Tables, r: R.Reg, s: Name, c: nat)
    requires NoCollisions(u) && Rel(u, t, r) && s in u.keys && c <= u.n && Sized(u.cs, t)
    ensures Rel(u, StoppedCpus(u.cs, t, s, c), R.StoppedCpus(r, s, c))
    decreases c
  {
    hide Rel, CpuKey, NoCollisions, StopPercpu, R.StopPercpu;
    if c == 0 {
    } else {
      StoppedCpusActs(u, t, r, s, c - 1);
      StopPercpuActs(u, StoppedCpus(u.cs, t, s, c - 1), R.StoppedCpus(r, s, c - 1), s, c - 1);
    }
  }

  lemma DroppedActs(u: Use, t: Tables, r: R.Reg)
    requires Rel(u, t, r)
    ensures Rel(u, Dropped(t), R.Dropped(r))
  {
    hide Holds;
  }

  lemma PercpuRunActs(u: Use, t: Tables, r: R.Reg, s: Name, f: R.Failure)
    requires NoCollisions(u) && Rel(u, t, r) && s in u.keys && Sized(u.cs, t)
    ensures var (t', o) := PercpuRun(u.cs, t, u.n, s, f);
            var (r', o') := R.PercpuRun(r, u.n, s, Meets(u.cs.percpu, u.n, s, f, 0));
            Rel(u, t', r') && o == o'
  {
    hide Rel, CpuKey, NoCollisions, Meets, Added, R.Added, StoppedCpus, R.StoppedCpus;
    var g := Meets(u.cs.percpu, u.n, s, f, 0);
    var c := if g == R.NoFailure then u.n else g.cpu;
    AddedActs(u, t, r, s, c);
    var t', r' := Added(u.cs, t, s, c), R.Added(r, s, c);
    StoppedCpusActs(u, t', r', s, u.n);
    DroppedActs(u, t', r');
  }

  /** The failure that a run meets. */
  function MeetsRun(cs: Configs, n: nat, script: Name, ispercpu: bool, f: R.Failure): R.Failure {
    if ispercpu then Meets(cs.percpu, n, Trim(script), f, 0) else MeetsPlain(cs.runtimes, Trim(script), f)
  }

  lemma RunningActs(u: Use, t: Tables, r: R.Reg, s: Name)
    requires Rel(u, t, r) && s in u.keys && u.n >= 1 && Sized(u.cs, t)
    ensures Running(u.cs, t, s) <==> R.Running(r, s)
  {
    hide Holds, Fetch, CpuKeys, CpuKey;
    CpuKeyUsed(u, s, 0);
    HoldsFetch(u.cs.runtimes, u.keys, t.runtimes, r.runtimes, s);
    HoldsFetch(u.cs.percpu, CpuKeys(u), t.percpu, r.percpu, CpuKey(s, 0));
  }

  lemma RunActs(u: Use, t: Tables, r: R.Reg, script: Name, ispercpu: bool, f: R.Failure)
    requires NoCollisions(u) && Rel(u, t, r) && Trim(script) in u.keys && u.n >= 1 && Sized(u.cs, t)
    ensures var (t', o) := Run(u.cs, t, u.n, script, ispercpu, f);
            var (r', o') := R.Run(r, u.n, script, ispercpu, MeetsRun(u.cs, u.n, script, ispercpu, f));
            Rel(u, t', r') && o == o'
  {
    hide Rel, CpuKey, NoCollisions, Meets, PercpuRun, R.PercpuRun, Running, Trim, MeetsPlain, PlainRun, R.PlainRun;
    var s := Trim(script);
    RunningActs(u, t, r, s);
    if !Running(u.cs, t, s) {
      if ispercpu {
        PercpuRunActs(u, t, r, s, f);
      } else {
        PlainRunActs(u, t, r, s, f);
      }
    }
  }

  lemma PlainRunActs(u: Use, t: Tables, r: R.Reg, s: Name, f: R.Failure)
    requires NoCollisions(u) && Rel(u, t, r) && s in u.keys && Sized(u.cs, t)
    ensures var (t', o) := PlainRun(u.cs, t, s, f);
            var (r', o') := R.PlainRun(r, s, MeetsPlain(u.cs.runtimes, s, f));
            Rel(u, t', r') && o == o'
  {
    hide Rel, NoCollisions, AddRuntime, R.AddRuntime;
    if |s| < u.cs.runtimes.maxKey { AddRuntimeActs(u, t, r, s); }
    DroppedActs(u, t, r);
  }

  lemma SpawnActs(u: Use, t: Tables, r: R.Reg, script: Name, ispercpu: bool, f: R.Failure, threadRuns: bool, memory: bool)
    requires NoCollisions(u) && Rel(u, t, r) && script in u.given && Trim(script) in u.keys && u.n >= 1 && Sized(u.cs, t)
    ensures var (t', o) := Spawn(u.cs, t, u.n, script, ispercpu, f, threadRuns, memory);
            var (r', o') := R.Spawn(r, u.n, script, ispercpu, MeetsRun(u.cs, u.n, script, false, f),
                                    ThreadKept(u.cs.threads, script, threadRuns, memory));
            Rel(u, t', r') && o == o'
  {
    if !ispercpu {
      RunActs(u, t, r, script, false, f);
      hide Run, R.Run, MeetsRun, Holds, Store;
      var (t', o) := Run(u.cs, t, u.n, script, false, f);
      var (r', o') := R.Run(r, u.n, script, false, MeetsRun(u.cs, u.n, script, false, f));
      if o == R.Done && ThreadKept(u.cs.threads, script, threadRuns, memory) {
        HoldsAdd(u.cs.threads, u.keys + u.given, t'.threads, r'.threads, script, r.next);
      }
    }
  }

  lemma StopActs(u: Use, t: Tables, r: R.Reg, script: Name)
    requires NoCollisions(u) && Rel(u, t, r) && Trim(script) in u.keys && Sized(u.cs, t)
    ensures Rel(u, Stop(u.cs, t, u.n, script), R.Stop(r, u.n, script))
  {
    hide Rel, NoCollisions, StopThread, R.StopThread, StopRuntime, R.StopRuntime, StoppedCpus, R.StoppedCpus, Trim;
    var s := Trim(script);
    StopThreadActs(u, t, r, s);
    var t1, r1 := StopThread(u.cs, t, s), R.StopThread(r, s);
    StopRuntimeActs(u, t1, r1, s);
    StoppedCpusActs(u, StopRuntime(u.cs, t1, s), R.StopRuntime(r1, s), s, u.n);
  }
}
