/** The registries as the runner updates them: three rcu tables, entry by entry (lib/lunatik/runner.lua). */
module RunnerRegistry {
  import opened Bytes
  import opened Optional
  import opened RunnerNames
  import opened RcuTable
  import opened RcuMap
  import opened RcuIteration
  import V = RcuVisits
  import R = Runner
  import T = RunnerTables
  import L = RunnerTableRuns

  /** `registry[key]`. */
  method Read(t: Table, key: Key) returns (value: Value)
    requires t.Valid()
    ensures value == T.Fetch(t.config, Shot(t), key)
  {
    hide HeldByAll, Lookup, BitAnd, Pow2;
    var taken;
    value, taken := t.GetValue(key);
  }

  /** `registry[key] = value`. */
  method Write(t: Table, key: Key, value: Value, memory: bool) returns (ok: bool)
    requires t.Valid() && Sound(t.config, Shot(t))
    modifies t
    ensures t.Valid() && Sound(t.config, Shot(t)) && ok == Stores(t.config.maxKey, key, value, memory)
    ensures Shot(t) == if ok then T.Store(t.config, old(Shot(t)), key, value) else old(Shot(t))
  {
    hide HeldByAll, Lookup, Updated, BitAnd, Pow2, AddressedAll, CountsUses, Exchanged, Held;
    StepKeepsAddresses(t.config, Shot(t), Set(key, value, memory));
    ok := t.SetValue(key, value, memory);
  }

  lemma EmptySound(c: Config)
    ensures Sound(c, EmptyTable(c))
  {
  }

  class Registry {
    const n: nat
    const runtimes: Table
    const percpu: Table
    const threads: Table
    var next: nat
    ghost var place: map<nat, R.Place>

    ghost predicate Valid()
      reads this, runtimes, percpu, threads
    {
      && runtimes != percpu && runtimes != threads && percpu != threads
      && runtimes.Valid() && percpu.Valid() && threads.Valid()
      && Sound(runtimes.config, Shot(runtimes)) && Sound(percpu.config, Shot(percpu)) && Sound(threads.config, Shot(threads))
    }

    function Configs(): T.Configs {
      T.Configs(runtimes.config, percpu.config, threads.config)
    }

    ghost function Abs(): T.Tables
      reads this, runtimes, percpu, threads
    {
      T.Tables(Shot(runtimes), Shot(percpu), Shot(threads), next, place)
    }

    /** `startup`. */
    constructor (n: nat, cs: T.Configs)
      ensures Valid() && this.n == n && Configs() == cs && Abs() == T.Empty(cs)
      ensures fresh(runtimes) && fresh(percpu) && fresh(threads)
    {
      this.n := n;
      var a := new Table(cs.runtimes);
      var b := new Table(cs.percpu);
      var c := new Table(cs.threads);
      EmptySound(cs.runtimes);
      EmptySound(cs.percpu);
      EmptySound(cs.threads);
      hide Sound, HeldByAll;
      runtimes, percpu, threads := a, b, c;
      next, place := 0, map[];
    }

    /** `stop` of the percpu table. */
    method StopPercpu(k: Name)
      requires Valid()
      modifies this, percpu
      ensures Valid() && Abs() == T.StopPercpu(Configs(), old(Abs()), k)
    {
      hide T.Fetch, T.Store, Sound, HeldByAll;
      var found := Read(percpu, k);
      if found.Object? {
        place := place[found.id := R.Stopped];
        var ok := Write(percpu, k, Nil, true);
      }
    }

    method PercpuStop(s: Name)
      requires Valid()
      modifies this, percpu
      ensures Valid() && Abs() == T.StoppedCpus(Configs(), old(Abs()), s, n)
    {
      hide T.StopPercpu, CpuKey, Sound, HeldByAll;
      for cpu := 0 to n
        invariant Valid() && Abs() == T.StoppedCpus(Configs(), old(Abs()), s, cpu)
      {
        StopPercpu(CpuKey(s, cpu));
      }
    }

    method PercpuRun(s: Name, f: R.Failure) returns (o: R.Outcome)
      requires Valid()
      modifies this, percpu
      ensures Valid() && (Abs(), o) == T.PercpuRun(Configs(), old(Abs()), n, s, f)
    {
      hide T.Store, CpuKey, Sound, HeldByAll, T.StoppedCpus;
      for cpu := 0 to n
        invariant Valid() && Abs() == T.Added(Configs(), old(Abs()), s, cpu)
        invariant T.Meets(percpu.config, n, s, f, 0) == T.Meets(percpu.config, n, s, f, cpu)
      {
        if f == R.CreateFails(cpu) {
          PercpuStop(s);
          return R.Raised;
        }
        var runtime := next;
        next := next + 1;
        var ok := Write(percpu, CpuKey(s, cpu), Object(runtime), f != R.WriteFails(cpu));
        if !ok {
          place := place[runtime := R.Orphan];
          return R.Raised;
        }
        place := place[runtime := R.InPercpu(CpuKey(s, cpu))];
      }
      return R.Done;
    }

    method Run(script: Name, ispercpu: bool, f: R.Failure) returns (o: R.Outcome)
      requires Valid()
      modifies this, runtimes, percpu
      ensures Valid() && (Abs(), o) == T.Run(Configs(), old(Abs()), n, script, ispercpu, f)
    {
      hide T.Store, CpuKey, Sound, HeldByAll, T.PercpuRun, T.Fetch, Trim;
      var s := Trim(script);
      var plain := Read(runtimes, s);
      if plain != Nil { return R.AlreadyRunning; }
      var first := Read(percpu, CpuKey(s, 0));
      if first != Nil { return R.AlreadyRunning; }
      if ispercpu {
        o := PercpuRun(s, f);
        return;
      }
      if f.CreateFails? { return R.Raised; }
      var runtime := next;
      next := next + 1;
      var ok := Write(runtimes, s, Object(runtime), !f.WriteFails?);
      place := place[runtime := if ok then R.InRuntimes(s) else R.Orphan];
      return if ok then R.Done else R.Raised;
    }

    method Spawn(script: Name, ispercpu: bool, f: R.Failure, threadRuns: bool, memory: bool) returns (o: R.Outcome)
      requires Valid()
      modifies this, runtimes, percpu, threads
      ensures Valid() && (Abs(), o) == T.Spawn(Configs(), old(Abs()), n, script, ispercpu, f, threadRuns, memory)
    {
      hide T.Store, Sound, HeldByAll, T.Run;
      if ispercpu { return R.Raised; }
      var runtime := next;
      o := Run(script, false, f);
      if o != R.Done { return; }
      if !threadRuns { return R.Raised; }
      var ok := Write(threads, script, Object(runtime), memory);
      return if ok then R.Done else R.Raised;
    }

    method Stop(script: Name)
      requires Valid()
      modifies this, runtimes, percpu, threads
      ensures Valid() && Abs() == T.Stop(Configs(), old(Abs()), n, script)
    {
      hide T.Store, Sound, HeldByAll, T.StoppedCpus, T.Fetch, Trim;
      var s := Trim(script);
      var thread := Read(threads, s);
      if thread.Object? {
        var ok := Write(threads, s, Nil, true);
      }
      var plain := Read(runtimes, s);
      if plain.Object? {
        place := place[plain.id := R.Stopped];
        var ok := Write(runtimes, s, Nil, true);
      }
      PercpuStop(s);
    }

    /** The names of the running scripts in the order the tables are traversed. */
    method Scripts() returns (names: seq<Name>)
      requires Valid()
      modifies runtimes, percpu
      ensures Valid() && Abs() == old(Abs()) && names == L.Names(old(Abs()))
    {
      var visited := Entries(percpu);
      names := L.BaseNames(L.KeysOf(L.Flat(visited)));
      visited := Entries(runtimes);
      names := names + L.KeysOf(L.Flat(visited));
    }

    /** `list`: the names joined by commas. */
    method List() returns (text: Name)
      requires Valid()
      modifies runtimes, percpu
      ensures Valid() && Abs() == old(Abs()) && text == Joined(L.Names(old(Abs())))
    {
      var names := Scripts();
      text := Joined(names);
    }

    /** `shutdown`: lists the scripts and stops each name. */
    method Shutdown()
      requires Valid()
      modifies this, runtimes, percpu, threads
      ensures Valid() && Abs() == L.Shutdown(Configs(), old(Abs()), n)
    {
      hide L.Names, T.Stop, Sound, HeldByAll;
      var names := Scripts();
      assert names[..0] == [];
      for i := 0 to |names|
        invariant Valid() && Abs() == T.StopAll(Configs(), old(Abs()), n, names[..i])
      {
        assert names[..i + 1][..i] == names[..i];
        Stop(names[i]);
      }
      assert names[..|names|] == names;
    }

    /** The lookup of the XDP hook: a script's own runtime first, then its runtime for this CPU. */
    method Lookup(s: Name, cpu: nat) returns (found: Option<nat>)
      requires Valid()
      ensures found == L.Dispatch(Configs(), Abs(), s, cpu)
    {
      hide T.Fetch, L.HookKey;
      var value := Read(runtimes, s);
      if value.Object? { return Some(value.id); }
      value := Read(percpu, L.HookKey(percpu.config, s, cpu));
      return if value.Object? then Some(value.id) else None;
    }
  }

  /** A traversal that changes nothing. */
  method Entries(t: Table) returns (visited: seq<seq<Entry>>)
    requires t.Valid() && Sound(t.config, Shot(t))
    modifies t
    ensures t.Valid() && Shot(t) == old(Shot(t)) && visited == t.buckets
  {
    hide VisitTable, Sound, HeldByAll;
    var quiet: Callback := (visit, key, value) => Effect([], false);
    V.QuietTable(t.config, Shot(t), 0, quiet, 0);
    var end;
    visited, end := MapEntries(t, quiet);
    assert t.buckets[0..] == t.buckets;
  }
}
