/** What the runner promises, stated on its rcu tables: every run, listing, shutting down and the XDP hook. */
module RunnerTableRuns {
  import opened Bytes
  import opened Optional
  import opened RunnerNames
  import opened RcuTable
  import opened RcuMap
  import opened RunnerTables
  import R = Runner
  import L = RunnerRuns

  // ---- what is kept ----

  predicate Complete(u: Use, t: Tables, s: Name)
    requires Sized(u.cs, t)
  {
    forall c: nat | c < u.n :: Fetch(u.cs.percpu, t.percpu, CpuKey(s, c)) != Nil
  }

  predicate Missing(u: Use, t: Tables, s: Name)
    requires Sized(u.cs, t)
  {
    forall c: nat | c < u.n :: Fetch(u.cs.percpu, t.percpu, CpuKey(s, c)) == Nil
  }

  /** What became of runtime `id` is what a lookup of its key says. */
  ghost predicate Found(u: Use, t: Tables, id: nat)
    requires Sized(u.cs, t) && id in t.place
  {
    match t.place[id]
    case InRuntimes(k) => k in u.keys && Fetch(u.cs.runtimes, t.runtimes, k) == Object(id)
    case InPercpu(k) => k in CpuKeys(u) && Fetch(u.cs.percpu, t.percpu, k) == Object(id)
    case Stopped => true
    case Orphan => true
  }

  ghost predicate Recorded(t: Tables, v: Value, place: R.Place) {
    v == Nil || (v.Object? && v.id in t.place && t.place[v.id] == place)
  }

  /** Every runtime ever created is found under exactly one key, or stopped, or dropped. */
  ghost predicate Accounted(u: Use, t: Tables)
    requires Sized(u.cs, t)
  {
    && (forall id: nat :: id in t.place <==> id < t.next)
    && (forall id | id in t.place :: Found(u, t, id))
    && (forall k | k in u.keys :: Recorded(t, Fetch(u.cs.runtimes, t.runtimes, k), R.InRuntimes(k)))
    && (forall k | k in CpuKeys(u) :: Recorded(t, Fetch(u.cs.percpu, t.percpu, k), R.InPercpu(k)))
  }

  /** Each script has all its CPU instances or none, none is in both registries, and every runtime is accounted for. */
  ghost predicate Good(u: Use, t: Tables) {
    && Sized(u.cs, t) && Accounted(u, t)
    && (forall s | s in u.keys :: Complete(u, t, s) || Missing(u, t, s))
    && (forall s | s in u.keys && Fetch(u.cs.runtimes, t.runtimes, s) != Nil :: Missing(u, t, s))
  }

  lemma FetchPercpu(u: Use, t: Tables, r: R.Reg, s: Name, c: nat)
    requires Rel(u, t, r) && s in u.keys && c < u.n && Sized(u.cs, t)
    ensures Fetch(u.cs.percpu, t.percpu, CpuKey(s, c)) ==
              if CpuKey(s, c) in r.percpu then Object(r.percpu[CpuKey(s, c)]) else Nil
  {
    hide CpuKey, CpuKeys, Holds, Fetch;
    CpuKeyUsed(u, s, c);
    HoldsFetch(u.cs.percpu, CpuKeys(u), t.percpu, r.percpu, CpuKey(s, c));
  }

  lemma FetchRuntime(u: Use, t: Tables, r: R.Reg, s: Name)
    requires Rel(u, t, r) && s in u.keys && Sized(u.cs, t)
    ensures Fetch(u.cs.runtimes, t.runtimes, s) == if s in r.runtimes then Object(r.runtimes[s]) else Nil
  {
    hide Holds, Fetch;
    HoldsFetch(u.cs.runtimes, u.keys, t.runtimes, r.runtimes, s);
  }

  lemma Domains(u: Use, t: Tables, r: R.Reg)
    requires Rel(u, t, r)
    ensures forall s | s in r.runtimes :: s in u.keys
    ensures forall k | k in r.percpu :: k in CpuKeys(u)
    ensures forall s | s in r.threads :: s in u.keys + u.given
  {
    hide Rep;
  }

  /** Scripts that are never looked up are not registered. */
  lemma OutsideKeys(u: Use, t: Tables, r: R.Reg, s: Name, c: nat)
    requires Rel(u, t, r) && CpuKey(s, c) in r.percpu
    ensures s in u.keys && c < u.n
  {
    Domains(u, t, r);
    hide CpuKey, Rel;
    var k := CpuKey(s, c);
    assert ForCpu(u, k);
    var s', c': nat :| s' in u.keys && c' < u.n && k == CpuKey(s', c');
    KeyInjective(s, c, s', c');
  }

  lemma AllOrNoneIff(u: Use, t: Tables, r: R.Reg, s: Name)
    requires Rel(u, t, r) && s in u.keys && Sized(u.cs, t)
    ensures Complete(u, t, s) <==> R.Registered(r, u.n, s)
    ensures Missing(u, t, s) <==> R.Absent(r, u.n, s)
  {
    hide CpuKey, Rel, Fetch;
    forall c: nat | c < u.n
      ensures Fetch(u.cs.percpu, t.percpu, CpuKey(s, c)) != Nil <==> CpuKey(s, c) in r.percpu
    {
      FetchPercpu(u, t, r, s, c);
    }
  }

  /** A lookup of any key in use answers as the map. */
  ghost predicate Answers(c: Config, keys: iset<Key>, t: Snapshot, m: map<Name, nat>) {
    && |t.buckets| == c.Size() && (forall k | k in m :: k in keys)
    && (forall k | k in keys :: Fetch(c, t, k) == if k in m then Object(m[k]) else Nil)
  }

  lemma HoldsAnswers(c: Config, keys: iset<Key>, t: Snapshot, m: map<Name, nat>)
    requires Holds(c, keys, t, m)
    ensures Answers(c, keys, t, m)
  {
    hide Fetch, Rep;
    HoldsSized(c, keys, t, m);
    forall k | k in keys ensures Fetch(c, t, k) == if k in m then Object(m[k]) else Nil { HoldsFetch(c, keys, t, m, k); }
  }

  lemma RecordedIff(c: Config, keys: iset<Key>, table: Snapshot, m: map<Name, nat>, t: Tables, place: Name -> R.Place)
    requires Answers(c, keys, table, m)
    ensures (forall k | k in keys :: Recorded(t, Fetch(c, table, k), place(k)))
            <==> forall k | k in m :: m[k] in t.place && t.place[m[k]] == place(k)
  {
    hide Fetch;
    if forall k | k in keys :: Recorded(t, Fetch(c, table, k), place(k)) {
      forall k | k in m ensures m[k] in t.place && t.place[m[k]] == place(k) {
        assert Recorded(t, Fetch(c, table, k), place(k));
      }
    }
  }

  lemma FoundIff(u: Use, t: Tables, r: R.Reg, id: nat)
    requires Sized(u.cs, t) && t.place == r.place && id in t.place
    requires Answers(u.cs.runtimes, u.keys, t.runtimes, r.runtimes) && Answers(u.cs.percpu, CpuKeys(u), t.percpu, r.percpu)
    ensures Found(u, t, id) <==> R.PlaceHolds(r, id)
  {
    hide Fetch, CpuKeys;
  }

  lemma AccountedIff(u: Use, t: Tables, r: R.Reg)
    requires Rel(u, t, r) && Sized(u.cs, t)
    ensures Accounted(u, t) <==> R.Booked(r)
  {
    hide Holds, CpuKeys, Fetch, Answers, Found, R.PlaceHolds, Recorded;
    HoldsAnswers(u.cs.runtimes, u.keys, t.runtimes, r.runtimes);
    HoldsAnswers(u.cs.percpu, CpuKeys(u), t.percpu, r.percpu);
    RecordedIff(u.cs.runtimes, u.keys, t.runtimes, r.runtimes, t, k => R.InRuntimes(k));
    RecordedIff(u.cs.percpu, CpuKeys(u), t.percpu, r.percpu, t, k => R.InPercpu(k));
    forall id | id in t.place ensures Found(u, t, id) <==> R.PlaceHolds(r, id) { FoundIff(u, t, r, id); }
  }

  /** What a lookup says of a script is what the maps say. */
  ghost predicate Agrees(u: Use, t: Tables, r: R.Reg, s: Name)
    requires Sized(u.cs, t)
  {
    && (Complete(u, t, s) <==> R.Registered(r, u.n, s)) && (Missing(u, t, s) <==> R.Absent(r, u.n, s))
    && (Fetch(u.cs.runtimes, t.runtimes, s) != Nil <==> s in r.runtimes)
  }

  lemma ScriptAgrees(u: Use, t: Tables, r: R.Reg, s: Name)
    requires Rel(u, t, r) && s in u.keys && Sized(u.cs, t)
    ensures Agrees(u, t, r, s)
  {
    hide Rel, Fetch, Complete, Missing, R.Registered, R.Absent;
    AllOrNoneIff(u, t, r, s);
    FetchRuntime(u, t, r, s);
  }

  lemma OthersAbsent(u: Use, t: Tables, r: R.Reg, s: Name)
    requires Rel(u, t, r) && s !in u.keys
    ensures R.Absent(r, u.n, s)
  {
    hide Rel, CpuKey;
    forall c: nat | c < u.n ensures CpuKey(s, c) !in r.percpu {
      if CpuKey(s, c) in r.percpu { OutsideKeys(u, t, r, s, c); }
    }
  }

  lemma WholeIsGood(u: Use, t: Tables, r: R.Reg)
    requires Rel(u, t, r) && Sized(u.cs, t) && Accounted(u, t) && R.Whole(r, u.n) && R.Apart(r, u.n)
    ensures Good(u, t)
  {
    hide Rel, Fetch, CpuKey, Accounted, Complete, Missing, R.Registered, R.Absent, R.IsKey;
    forall s | s in u.keys
      ensures Complete(u, t, s) || Missing(u, t, s)
      ensures Fetch(u.cs.runtimes, t.runtimes, s) != Nil ==> Missing(u, t, s)
    {
      ScriptAgrees(u, t, r, s);
      assert R.AllOrNone(r, u.n, s);
    }
  }

  lemma GoodIsWhole(u: Use, t: Tables, r: R.Reg)
    requires Rel(u, t, r) && Good(u, t)
    ensures R.Whole(r, u.n) && R.Apart(r, u.n)
  {
    hide Rel, Good, R.AllOrNone, R.Absent, R.IsKey, CpuKeys;
    Domains(u, t, r);
    forall s ensures R.AllOrNone(r, u.n, s) && (s in r.runtimes ==> R.Absent(r, u.n, s)) { ScriptWhole(u, t, r, s); }
    forall k | k in r.percpu ensures R.IsKey(u.n, k) { UsedIsKey(u, k); }
  }

  lemma ScriptWhole(u: Use, t: Tables, r: R.Reg, s: Name)
    requires Rel(u, t, r) && Good(u, t)
    ensures R.AllOrNone(r, u.n, s) && (s in r.runtimes ==> R.Absent(r, u.n, s))
  {
    hide Rel, Fetch, Accounted, Complete, Missing, R.Registered, R.Absent;
    if s in u.keys { ScriptAgrees(u, t, r, s); } else { OthersAbsent(u, t, r, s); }
  }

  lemma UsedIsKey(u: Use, k: Name)
    requires k in CpuKeys(u)
    ensures R.IsKey(u.n, k)
  {
    hide CpuKey;
    assert ForCpu(u, k);
  }

  lemma GoodIff(u: Use, t: Tables, r: R.Reg)
    requires Rel(u, t, r) && u.n >= 1
    ensures Good(u, t) <==> R.Inv(r, u.n)
  {
    hide Rel, R.Booked, Accounted, R.Whole, R.Apart;
    RelSized(u, t, r);
    AccountedIff(u, t, r);
    if R.Inv(r, u.n) { WholeIsGood(u, t, r); }
    if Good(u, t) { GoodIsWhole(u, t, r); }
  }

  // ---- running ----

  /** A table write that fails, for want of memory or because the key is too long, in a per-CPU run of a script that
      is not running, for a CPU after the first. */
  predicate LateWrite(u: Use, t: Tables, script: Name, ispercpu: bool, f: R.Failure)
    requires Sized(u.cs, t)
  {
    && ispercpu && !Running(u.cs, t, Trim(script))
    && var g := Meets(u.cs.percpu, u.n, Trim(script), f, 0); g.WriteFails? && g.cpu > 0
  }

  /** Running a script keeps what is kept if and only if no such write fails. */
  lemma RunGoodIff(u: Use, t: Tables, r: R.Reg, script: Name, ispercpu: bool, f: R.Failure)
    requires NoCollisions(u) && Rel(u, t, r) && Good(u, t) && u.n >= 1 && Trim(script) in u.keys
    ensures var (t', o) := Run(u.cs, t, u.n, script, ispercpu, f);
            && (Good(u, t') <==> !LateWrite(u, t, script, ispercpu, f))
            && (o == R.AlreadyRunning <==> Running(u.cs, t, Trim(script)))
            && (o == R.Done ==> Running(u.cs, t', Trim(script)))
  {
    hide Rel, NoCollisions, Run, R.Run, Trim, R.Running, Running, Meets, R.Inv;
    RelSized(u, t, r);
    GoodIff(u, t, r);
    RunActs(u, t, r, script, ispercpu, f);
    var t' := Run(u.cs, t, u.n, script, ispercpu, f).0;
    var g := MeetsRun(u.cs, u.n, script, ispercpu, f);
    var r' := R.Run(r, u.n, script, ispercpu, g).0;
    R.RunKeepsInvIff(r, u.n, script, ispercpu, g);
    GoodIff(u, t', r');
    RunningActs(u, t, r, Trim(script));
    RunningActs(u, t', r', Trim(script));
  }

  /** No runtime fails to be created, and every key that is written fits its table. */
  predicate Unhindered(u: Use, s: Name, ispercpu: bool, f: R.Failure) {
    if ispercpu then (f.NoFailure? || f.cpu >= u.n) && forall c: nat | c < u.n :: |CpuKey(s, c)| < u.cs.percpu.maxKey
    else f.NoFailure? && |s| < u.cs.runtimes.maxKey
  }

  lemma {:induction false} MeetsNothingIff(c: Config, n: nat, s: Name, f: R.Failure, cpu: nat)
    ensures Meets(c, n, s, f, cpu) == R.NoFailure <==>
              (f.NoFailure? || f.cpu >= n || f.cpu < cpu) && forall i: nat | cpu <= i < n :: |CpuKey(s, i)| < c.maxKey
    decreases n - cpu
  {
    hide CpuKey;
    if cpu >= n {
    } else {
      MeetsNothingIff(c, n, s, f, cpu + 1);
    }
  }

  /** On the tables a run is done if and only if the script was not running and nothing hinders it; then exactly the
      scripts that were running and this one are. */
  lemma RunMeans(u: Use, t: Tables, r: R.Reg, script: Name, ispercpu: bool, f: R.Failure)
    requires NoCollisions(u) && Rel(u, t, r) && Good(u, t) && u.n >= 1 && Trim(script) in u.keys
    ensures var (t', o) := Run(u.cs, t, u.n, script, ispercpu, f); var s := Trim(script);
            && (o == R.Done <==> !Running(u.cs, t, s) && Unhindered(u, s, ispercpu, f))
            && (o == R.Done ==> forall s' | s' in u.keys :: Running(u.cs, t', s') <==> Running(u.cs, t, s') || s' == s)
  {
    MeetsNothingIff(u.cs.percpu, u.n, Trim(script), f, 0);
    assert R.Succeeds(u.n, ispercpu, MeetsRun(u.cs, u.n, script, ispercpu, f)) <==> Unhindered(u, Trim(script), ispercpu, f);
    hide Rel, NoCollisions, Run, R.Run, Trim, R.Running, Running, Meets, R.Inv, Unhindered, R.Succeeds, MeetsRun, Good;
    RelSized(u, t, r);
    GoodIff(u, t, r);
    RunActs(u, t, r, script, ispercpu, f);
    var t' := Run(u.cs, t, u.n, script, ispercpu, f).0;
    var g := MeetsRun(u.cs, u.n, script, ispercpu, f);
    var r' := R.Run(r, u.n, script, ispercpu, g).0;
    R.RunMeans(r, u.n, script, ispercpu, g);
    RelSized(u, t', r');
    forall s' | s' in u.keys
      ensures (Running(u.cs, t, s') <==> R.Running(r, s')) && (Running(u.cs, t', s') <==> R.Running(r', s'))
    {
      RunningActs(u, t, r, s');
      RunningActs(u, t', r', s');
    }
  }

  /** A script in whose name, directories included, "lua" does not occur and which ends in a digit or a letter: running
      or stopping its file is running or stopping that name. */
  lemma FileIsScript(u: Use, t: Tables, r: R.Reg, name: Name, ispercpu: bool, f: R.Failure)
    requires NoCollisions(u) && Rel(u, t, r) && Good(u, t) && u.n >= 1 && name in u.keys
    requires !HasLua(name) && EndsInAlnum(name)
    ensures var (t', o) := Run(u.cs, t, u.n, File(name), ispercpu, f);
            && (o == R.AlreadyRunning <==> Running(u.cs, t, name))
            && (o == R.Done <==> !Running(u.cs, t, name) && Unhindered(u, name, ispercpu, f))
            && (o == R.Done ==> forall s' | s' in u.keys :: Running(u.cs, t', s') <==> Running(u.cs, t, s') || s' == name)
    ensures Sized(u.cs, t) && Stop(u.cs, t, u.n, File(name)) == Stop(u.cs, t, u.n, name)
  {
    hide Rel, NoCollisions, Run, Good, Running, Unhindered, StoppedCpus, HasLua, EndsInAlnum, File, Trim;
    RelSized(u, t, r);
    TrimFile(name);
    TrimLeavesAlone(name);
    RunMeans(u, t, r, File(name), ispercpu, f);
    RunGoodIff(u, t, r, File(name), ispercpu, f);
  }

  /** Every lookup in the three tables answers as before. */
  ghost predicate SameLookups(u: Use, t: Tables, t': Tables)
    requires Sized(u.cs, t) && Sized(u.cs, t')
  {
    && (forall k | k in u.keys :: Fetch(u.cs.runtimes, t'.runtimes, k) == Fetch(u.cs.runtimes, t.runtimes, k))
    && (forall k | k in CpuKeys(u) :: Fetch(u.cs.percpu, t'.percpu, k) == Fetch(u.cs.percpu, t.percpu, k))
    && (forall k | k in u.keys + u.given :: Fetch(u.cs.threads, t'.threads, k) == Fetch(u.cs.threads, t.threads, k))
  }

  lemma RelAnswers(u: Use, t: Tables, r: R.Reg)
    requires Rel(u, t, r)
    ensures Answers(u.cs.runtimes, u.keys, t.runtimes, r.runtimes) && Answers(u.cs.percpu, CpuKeys(u), t.percpu, r.percpu)
    ensures Answers(u.cs.threads, u.keys + u.given, t.threads, r.threads)
  {
    hide Holds, Answers, CpuKeys;
    HoldsAnswers(u.cs.runtimes, u.keys, t.runtimes, r.runtimes);
    HoldsAnswers(u.cs.percpu, CpuKeys(u), t.percpu, r.percpu);
    HoldsAnswers(u.cs.threads, u.keys + u.given, t.threads, r.threads);
  }

  /** A per-CPU run that fails to create a runtime at any CPU leaves every lookup as it was, and every runtime it had
      created is stopped. */
  lemma RollbackIsExact(u: Use, t: Tables, r: R.Reg, s: Name, f: R.Failure)
    requires NoCollisions(u) && Rel(u, t, r) && Good(u, t) && u.n >= 1 && s in u.keys && !Running(u.cs, t, s)
    requires Meets(u.cs.percpu, u.n, s, f, 0).CreateFails?
    ensures var (t', o) := PercpuRun(u.cs, t, u.n, s, f);
            && o == R.Raised && SameLookups(u, t, t')
            && forall id: nat | t.next <= id < t'.next :: id in t'.place && t'.place[id] == R.Stopped
  {
    hide Rel, NoCollisions, Good, Running, R.Running, R.Inv, PercpuRun, R.PercpuRun, Meets, CpuKeys, Fetch, R.Absent, CpuKey;
    RelSized(u, t, r);
    GoodIff(u, t, r);
    var g := Meets(u.cs.percpu, u.n, s, f, 0);
    PercpuRunActs(u, t, r, s, f);
    NotRunningIsAbsent(u, t, r, s);
    R.RollbackIsExact(r, u.n, s, g.cpu);
    var t', r' := PercpuRun(u.cs, t, u.n, s, f).0, R.PercpuRun(r, u.n, s, g).0;
    RelAnswers(u, t, r);
    RelAnswers(u, t', r');
    RelPlaces(u, t, r);
    RelPlaces(u, t', r');
  }

  lemma RelPlaces(u: Use, t: Tables, r: R.Reg)
    requires Rel(u, t, r)
    ensures t.next == r.next && t.place == r.place
  {
    hide Holds;
  }

  lemma NotRunningIsAbsent(u: Use, t: Tables, r: R.Reg, s: Name)
    requires Rel(u, t, r) && R.Inv(r, u.n) && s in u.keys && Sized(u.cs, t) && !Running(u.cs, t, s)
    ensures R.Absent(r, u.n, s)
  {
    hide Rel, CpuKey;
    RunningActs(u, t, r, s);
    assert R.AllOrNone(r, u.n, s);
    R.RunningIff(r, u.n, s);
  }

  // ---- stopping ----

  /** Every lookup in a table answers as before, except that `gone` is not found. */
  ghost predicate Without(c: Config, keys: iset<Key>, t: Snapshot, t': Snapshot, gone: iset<Key>)
    requires |t.buckets| == c.Size() == |t'.buckets|
  {
    forall k | k in keys :: Fetch(c, t', k) == if k in gone then Nil else Fetch(c, t, k)
  }

  /** Stopping a script removes its trimmed name from all tables and nothing else, whatever state it is in. */
  lemma StopMeans(u: Use, t: Tables, r: R.Reg, script: Name)
    requires NoCollisions(u) && Rel(u, t, r) && Good(u, t) && u.n >= 1 && Trim(script) in u.keys
    ensures var t', s := Stop(u.cs, t, u.n, script), Trim(script);
            && Good(u, t')
            && Without(u.cs.runtimes, u.keys, t.runtimes, t'.runtimes, iset{s})
            && Without(u.cs.threads, u.keys + u.given, t.threads, t'.threads, iset{s})
            && Without(u.cs.percpu, CpuKeys(u), t.percpu, t'.percpu, iset k | R.IsCpuKey(s, u.n, k))
  {
    hide Rel, NoCollisions, R.Inv, Stop, R.Stop, CpuKeys, Fetch, CpuKey, R.Running, Trim, R.IsCpuKey;
    GoodIff(u, t, r);
    RelAnswers(u, t, r);
    StopActs(u, t, r, script);
    var t', r', s := Stop(u.cs, t, u.n, script), R.Stop(r, u.n, script), Trim(script);
    R.StopMeans(r, u.n, script);
    StopShrunk(r, u.n, script);
    GoodIff(u, t', r');
    RelAnswers(u, t', r');
  }

  lemma StopShrunk(r: R.Reg, n: nat, script: Name)
    requires R.Inv(r, n)
    ensures var r', s := R.Stop(r, n, script), Trim(script);
            && (forall k :: k in r'.percpu <==> k in r.percpu && !R.IsCpuKey(s, n, k))
            && (forall k | k in r'.percpu :: k in r.percpu && r'.percpu[k] == r.percpu[k])
  {
    hide R.Stop, Trim, R.Booked, R.Whole, R.Apart, R.IsCpuKey;
    R.StopShrinks(r, n, script);
  }

  // ---- spawning ----

  /** A spawn keeps every thread under the name of a running script if and only if its name needs no trimming or is a
      running name already: the thread is registered under the name as given. */
  lemma SpawnThreadsIff(u: Use, t: Tables, r: R.Reg, script: Name, f: R.Failure, threadRuns: bool, memory: bool)
    requires Closed(u) && NoCollisions(u) && Rel(u, t, r) && Sized(u.cs, t) && u.n >= 1 && script in u.given && ThreadsRun(u, t)
    requires Spawn(u.cs, t, u.n, script, false, f, threadRuns, memory).1 == R.Done
    ensures ThreadsRun(u, Spawn(u.cs, t, u.n, script, false, f, threadRuns, memory).0)
            <==> Trim(script) == script || (script in u.keys && Fetch(u.cs.runtimes, t.runtimes, script) != Nil)
  {
    hide Rel, NoCollisions, Spawn, R.Spawn, Trim, Fetch, ThreadsRun, L.ThreadsInside, MeetsRun, ThreadKept;
    SpawnActs(u, t, r, script, false, f, threadRuns, memory);
    var g, kept := MeetsRun(u.cs, u.n, script, false, f), ThreadKept(u.cs.threads, script, threadRuns, memory);
    var t', r' := Spawn(u.cs, t, u.n, script, false, f, threadRuns, memory).0, R.Spawn(r, u.n, script, false, g, kept).0;
    ThreadsRunIff(u, t, r);
    ThreadsRunIff(u, t', r');
    L.SpawnThreadsIff(r, u.n, script, g, kept);
    Domains(u, t, r);
    if script in u.keys { FetchRuntime(u, t, r, script); }
  }

  // ---- listing ----

  function Flat(bs: seq<Bucket>): seq<Entry> {
    if bs == [] then [] else bs[0] + Flat(bs[1..])
  }

  function KeysOf(es: seq<Entry>): (ks: seq<Name>)
    ensures |ks| == |es| && forall i | 0 <= i < |es| :: ks[i] == es[i].key
  {
    seq(|es|, i requires 0 <= i < |es| => es[i].key)
  }

  function BaseNames(ks: seq<Name>): seq<Name> {
    if ks == [] then []
    else
      var base := BaseName(ks[|ks| - 1]);
      BaseNames(ks[..|ks| - 1]) + if base.Some? then [base.value] else []
  }

  /** `list`: the scripts of the per-CPU table, then those of the runtimes. */
  function Names(t: Tables): seq<Name> {
    BaseNames(KeysOf(Flat(t.percpu.buckets))) + KeysOf(Flat(t.runtimes.buckets))
  }

  lemma {:induction false} FlatMembers(bs: seq<Bucket>, k: Name)
    ensures k in KeysOf(Flat(bs)) <==> exists i, j :: 0 <= i < |bs| && 0 <= j < |bs[i]| && bs[i][j].key == k
    decreases |bs|
  {
    if bs == [] {
    } else {
      var front, rest := bs[0], bs[1..];
      FlatMembers(rest, k);
      assert KeysOf(Flat(bs)) == KeysOf(front) + KeysOf(Flat(rest));
      hide Flat, KeysOf;
      if k in KeysOf(front) {
        var j :| 0 <= j < |front| && KeysOf(front)[j] == k;
        assert bs[0][j].key == k;
      }
      if k in KeysOf(Flat(rest)) {
        var i, j :| 0 <= i < |rest| && 0 <= j < |rest[i]| && rest[i][j].key == k;
        assert bs[i + 1][j].key == k;
      }
      if i, j :| 0 <= i < |bs| && 0 <= j < |bs[i]| && bs[i][j].key == k {
        if i == 0 { assert KeysOf(front)[j] == k; } else { assert rest[i - 1][j].key == k; }
      }
    }
  }

  /** Keys differ within a bucket and between buckets. */
  ghost predicate AllDiffer(bs: seq<Bucket>) {
    && (forall i | 0 <= i < |bs| :: DistinctKeys(bs[i]))
    && (forall i, j, p, q | 0 <= i < j < |bs| && 0 <= p < |bs[i]| && 0 <= q < |bs[j]| :: bs[i][p].key != bs[j][q].key)
  }

  lemma {:induction false} FlatDistinct(bs: seq<Bucket>)
    requires AllDiffer(bs)
    ensures L.Distinct(KeysOf(Flat(bs)))
    decreases |bs|
  {
    if bs == [] {
    } else {
      var front, rest := bs[0], bs[1..];
      assert AllDiffer(rest) by {
        forall i, j, p, q | 0 <= i < j < |rest| && 0 <= p < |rest[i]| && 0 <= q < |rest[j]|
          ensures rest[i][p].key != rest[j][q].key
        {
          assert bs[i + 1][p].key != bs[j + 1][q].key;
        }
      }
      FlatDistinct(rest);
      var a, b := KeysOf(front), KeysOf(Flat(rest));
      assert KeysOf(Flat(bs)) == a + b;
      hide Flat, KeysOf;
      forall x | x in a ensures x !in b {
        FlatMembers(rest, x);
        var p :| 0 <= p < |a| && a[p] == x;
        assert forall i, j | 0 <= i < |rest| && 0 <= j < |rest[i]| :: rest[i][j].key == bs[i + 1][j].key;
        assert front[p].key == x;
      }
      JoinedDistinct(a, b);
    }
  }

  lemma JoinedDistinct(a: seq<Name>, b: seq<Name>)
    requires L.Distinct(a) && L.Distinct(b) && forall x | x in a :: x !in b
    ensures L.Distinct(a + b)
  {
    var c := a + b;
    forall i, j | 0 <= i < j < |c| ensures c[i] != c[j] {
      if i < |a| <= j { assert c[i] in a && c[j] in b; } else if |a| <= i { assert b[i - |a|] != b[j - |a|]; }
    }
  }

  lemma EntryOwner(c: Config, keys: iset<Key>, t: Snapshot, m: map<Name, nat>, i: nat, j: nat) returns (k: Name)
    requires Separate(c, keys) && Holds(c, keys, t, m) && i < c.Size() && j < |t.buckets[i]|
    ensures k in m && k in keys && t.buckets[i][j].key == CStr(k) && c.Index(k) == i
  {
    var b := t.buckets[i];
    assert Placed(c, keys, i, b);
    hide BitAnd, Pow2, StrNCmpEqual, Find, CStr, Placed, Separate;
    PlacedOwner(c, keys, i, b, j);
    k :| Owns(c, keys, i, k, b[j]);
    FindsOwn(c, keys, i, b, k);
    HoldsFetch(c, keys, t, m, k);
  }

  lemma EntryIsKey(c: Config, keys: iset<Key>, t: Snapshot, m: map<Name, nat>, i: nat, j: nat)
    requires Separate(c, keys) && NulFree(keys) && Holds(c, keys, t, m) && i < c.Size() && j < |t.buckets[i]|
    ensures t.buckets[i][j].key in m && c.Index(t.buckets[i][j].key) == i
  {
    hide BitAnd, Pow2, CStr, Separate;
    var k := EntryOwner(c, keys, t, m, i, j);
    CStrMatchesItself(k);
  }

  lemma PlacedOwner(c: Config, keys: iset<Key>, i: nat, b: Bucket, j: nat)
    requires Placed(c, keys, i, b) && j < |b|
    ensures b[j].value != Nil && exists k :: Owns(c, keys, i, k, b[j])
  {
    assert PlacedAt(c, keys, i, b[j]);
  }

  lemma KeyIsEntry(c: Config, keys: iset<Key>, t: Snapshot, m: map<Name, nat>, k: Name) returns (j: nat)
    requires Separate(c, keys) && NulFree(keys) && Holds(c, keys, t, m) && k in m
    ensures |t.buckets| == c.Size() && j < |t.buckets[c.Index(k)]| && t.buckets[c.Index(k)][j].key == k
  {
    HoldsFetch(c, keys, t, m, k);
    var b := t.buckets[c.Index(k)];
    assert Placed(c, keys, c.Index(k), b);
    hide BitAnd, Pow2, StrNCmpEqual, Find, CStr, Placed, Separate;
    j := Find(b, k);
    CStrMatchesItself(k);
    FindsOwn(c, keys, c.Index(k), b, k);
  }

  /** The entries of a table that holds a map are its keys, each once. */
  lemma HeldKeys(c: Config, keys: iset<Key>, t: Snapshot, m: map<Name, nat>)
    requires Separate(c, keys) && NulFree(keys) && Holds(c, keys, t, m)
    ensures L.Distinct(KeysOf(Flat(t.buckets))) && forall k :: k in KeysOf(Flat(t.buckets)) <==> k in m
  {
    HoldsSized(c, keys, t, m);
    hide BitAnd, Pow2, Separate, Flat, KeysOf;
    var bs: seq<Bucket> := t.buckets;
    forall i: int, j: int | 0 <= i < |bs| && 0 <= j < |bs[i]| ensures bs[i][j].key in m && c.Index(bs[i][j].key) == i {
      EntryIsKey(c, keys, t, m, i, j);
    }
    assert forall i | 0 <= i < |bs| :: Placed(c, keys, i, bs[i]);
    FlatDistinct(bs);
    forall k ensures k in KeysOf(Flat(bs)) <==> k in m {
      FlatMembers(bs, k);
      if k in m {
        var j := KeyIsEntry(c, keys, t, m, k);
        assert bs[c.Index(k)][j].key == k;
      }
    }
  }

  lemma BaseNameIff(k: Name)
    ensures BaseName(k).Some? ==> BaseName(k).value != []
    ensures forall s: Name :: s != [] ==> (k == CpuKey(s, 0) <==> BaseName(k) == Some(s))
  {
    L.NameIsKey(k);
    hide CpuKey, BaseName;
    forall s: Name | s != [] ensures k == CpuKey(s, 0) <==> BaseName(k) == Some(s) {
      NameOfKey(s, 0);
    }
  }

  lemma {:induction false} BaseNamesMean(ks: seq<Name>)
    requires L.Distinct(ks)
    ensures L.Distinct(BaseNames(ks)) && forall s :: s in BaseNames(ks) <==> s != [] && CpuKey(s, 0) in ks
    decreases |ks|
  {
    hide CpuKey, BaseName;
    if ks == [] {
    } else {
      var front, k := ks[..|ks| - 1], ks[|ks| - 1];
      BaseNamesMean(front);
      BaseNameIff(k);
      assert ks == front + [k];
      assert k !in front;
      var base := BaseName(k);
      if base.Some? { L.DistinctMore(BaseNames(front), base.value); }
    }
  }

  /** The listing names every running script once, save one that runs per CPU under an empty name. */
  lemma NamesList(u: Use, t: Tables, r: R.Reg)
    requires NoCollisions(u) && Rel(u, t, r) && NulFree(u.keys) && R.Inv(r, u.n)
    ensures L.Lists(r, Names(t))
  {
    CpuKeysNulFree(u);
    HeldKeys(u.cs.percpu, CpuKeys(u), t.percpu, r.percpu);
    HeldKeys(u.cs.runtimes, u.keys, t.runtimes, r.runtimes);
    hide Rel, NoCollisions, CpuKey, CpuKeys, BaseNames, KeysOf, Flat, R.Booked, R.Whole;
    var a, b := KeysOf(Flat(t.percpu.buckets)), KeysOf(Flat(t.runtimes.buckets));
    BaseNamesMean(a);
    forall s | s in b ensures s !in BaseNames(a) { assert R.Absent(r, u.n, s); }
    JoinedDistinct(BaseNames(a), b);
  }

  lemma CpuKeysNulFree(u: Use)
    requires NulFree(u.keys)
    ensures NulFree(CpuKeys(u))
  {
    forall k | k in CpuKeys(u) ensures 0 !in k {
      var s, c: nat :| s in u.keys && c < u.n && k == CpuKey(s, c);
      DecimalNulFree(c);
    }
  }

  lemma {:induction false} DecimalNulFree(n: nat)
    ensures 0 !in Decimal(n)
  {
    if n >= 10 { DecimalNulFree(n / 10); }
  }

  // ---- shutting down ----

  lemma {:induction false} StopAllActs(u: Use, t: Tables, r: R.Reg, names: seq<Name>)
    requires NoCollisions(u) && Rel(u, t, r) && Sized(u.cs, t) && forall s | s in names :: Trim(s) in u.keys
    ensures Rel(u, StopAll(u.cs, t, u.n, names), L.StopAll(r, u.n, names))
    decreases |names|
  {
    hide Rel, NoCollisions, Trim, Stop, R.Stop;
    if names == [] {
    } else {
      var front, last := names[..|names| - 1], names[|names| - 1];
      StopAllActs(u, t, r, front);
      StopActs(u, StopAll(u.cs, t, u.n, front), L.StopAll(r, u.n, front), last);
    }
  }

  lemma ListedAreKeys(u: Use, t: Tables, r: R.Reg, names: seq<Name>)
    requires Closed(u) && Rel(u, t, r) && L.Lists(r, names)
    ensures forall s | s in names :: Trim(s) in u.keys
  {
    Domains(u, t, r);
    hide Rel, Trim, CpuKey;
    forall s | s in names ensures s in u.keys {
      assert L.Listed(r, s);
      if s !in r.runtimes { OutsideKeys(u, t, r, s, 0); }
    }
  }

  /** `shutdown`: lists the scripts and stops each name. */
  function Shutdown(cs: Configs, t: Tables, n: nat): (t': Tables)
    requires Sized(cs, t)
    ensures Sized(cs, t')
  {
    StopAll(cs, t, n, Names(t))
  }

  lemma ShutdownActs(u: Use, t: Tables, r: R.Reg)
    requires Closed(u) && NoCollisions(u) && NulFree(u.keys) && Rel(u, t, r) && R.Inv(r, u.n)
    ensures Sized(u.cs, t) && L.Lists(r, Names(t)) && Rel(u, Shutdown(u.cs, t, u.n), L.StopAll(r, u.n, Names(t)))
  {
    hide Rel, NoCollisions, R.Inv, StopAll, L.StopAll, Names, Closed, L.Lists;
    RelSized(u, t, r);
    NamesList(u, t, r);
    ListedAreKeys(u, t, r, Names(t));
    StopAllActs(u, t, r, Names(t));
  }

  lemma RunningSomewhere(u: Use, t: Tables, r: R.Reg)
    requires Rel(u, t, r) && u.n >= 1 && Sized(u.cs, t)
    ensures forall s :: R.Running(r, s) <==> s in u.keys && Running(u.cs, t, s)
  {
    Domains(u, t, r);
    hide Rel, CpuKey, Running;
    forall s ensures R.Running(r, s) <==> s in u.keys && Running(u.cs, t, s) {
      if s in u.keys { RunningActs(u, t, r, s); }
      if R.Running(r, s) && s !in r.runtimes { OutsideKeys(u, t, r, s, 0); }
    }
  }

  /** Trimming leaves every running name alone, and no script with an empty name runs per CPU. */
  ghost predicate Settled(u: Use, t: Tables)
    requires Sized(u.cs, t)
  {
    && (forall s | s in u.keys && Running(u.cs, t, s) :: Trim(s) == s)
    && ([] in u.keys ==> Fetch(u.cs.percpu, t.percpu, CpuKey([], 0)) == Nil)
  }

  lemma SettledIff(u: Use, t: Tables, r: R.Reg)
    requires Rel(u, t, r) && u.n >= 1 && Sized(u.cs, t)
    ensures Settled(u, t) <==> (forall s | R.Running(r, s) :: Trim(s) == s) && CpuKey([], 0) !in r.percpu
  {
    RunningSomewhere(u, t, r);
    hide Rel, CpuKey, Running, R.Running, Trim, Fetch;
    if [] in u.keys { FetchPercpu(u, t, r, [], 0); }
    if CpuKey([], 0) in r.percpu { OutsideKeys(u, t, r, [], 0); }
  }

  /** Shutting down stops every script if and only if the names are settled. */
  lemma ShutdownStopsIff(u: Use, t: Tables, r: R.Reg)
    requires Closed(u) && NoCollisions(u) && NulFree(u.keys) && Rel(u, t, r) && Good(u, t) && u.n >= 1
    ensures (forall s | s in u.keys :: !Running(u.cs, Shutdown(u.cs, t, u.n), s)) <==> Settled(u, t)
  {
    hide Rel, NoCollisions, Running, R.Running, Settled, Shutdown, Closed, R.Inv, Names, L.Lists;
    GoodIff(u, t, r);
    ShutdownActs(u, t, r);
    var t', r' := Shutdown(u.cs, t, u.n), L.StopAll(r, u.n, Names(t));
    L.ShutdownEmptiesIff(r, u.n, Names(t));
    RunningSomewhere(u, t', r');
    SettledIff(u, t, r);
  }

  /** Every thread's script is running. */
  ghost predicate ThreadsRun(u: Use, t: Tables)
    requires Sized(u.cs, t)
  {
    forall s | s in u.keys + u.given && Fetch(u.cs.threads, t.threads, s) != Nil ::
      s in u.keys && Fetch(u.cs.runtimes, t.runtimes, s) != Nil
  }

  lemma ThreadsRunIff(u: Use, t: Tables, r: R.Reg)
    requires Rel(u, t, r) && Sized(u.cs, t)
    ensures ThreadsRun(u, t) <==> L.ThreadsInside(r)
  {
    Domains(u, t, r);
    hide Holds, Fetch, CpuKeys;
    forall s | s in u.keys + u.given ensures Fetch(u.cs.threads, t.threads, s) != Nil <==> s in r.threads {
      HoldsFetch(u.cs.threads, u.keys + u.given, t.threads, r.threads, s);
    }
    forall s | s in u.keys ensures Fetch(u.cs.runtimes, t.runtimes, s) != Nil <==> s in r.runtimes {
      FetchRuntime(u, t, r, s);
    }
  }

  predicate NoEntries(t: Snapshot) {
    forall i | 0 <= i < |t.buckets| :: t.buckets[i] == []
  }

  lemma HoldsNoEntries(c: Config, keys: iset<Key>, t: Snapshot)
    requires Separate(c, keys) && Holds(c, keys, t, map[])
    ensures NoEntries(t)
  {
    hide BitAnd, Pow2, StrNCmpEqual, Find, CStr, Placed, Separate, Fetch;
    HoldsSized(c, keys, t, map[]);
    forall i | 0 <= i < |t.buckets| ensures t.buckets[i] == [] {
      if t.buckets[i] != [] { var k := EntryOwner(c, keys, t, map[], i, 0); }
    }
  }

  /** Then nothing is left in any of the three tables. */
  lemma ShutdownLeavesNothing(u: Use, t: Tables, r: R.Reg)
    requires Closed(u) && NoCollisions(u) && NulFree(u.keys) && Rel(u, t, r) && Good(u, t) && u.n >= 1
    requires Settled(u, t) && ThreadsRun(u, t)
    ensures var t' := Shutdown(u.cs, t, u.n); NoEntries(t'.runtimes) && NoEntries(t'.percpu) && NoEntries(t'.threads)
  {
    GoodIff(u, t, r);
    RelSized(u, t, r);
    ThreadsRunIff(u, t, r);
    SettledIff(u, t, r);
    ShutdownActs(u, t, r);
    hide Running, R.Running, Shutdown, Names, L.Lists, Holds, Separate, L.StopAll, R.Inv;
    L.ShutdownClears(r, u.n, Names(t));
    var t' := Shutdown(u.cs, t, u.n);
    HoldsNoEntries(u.cs.runtimes, u.keys, t'.runtimes);
    HoldsNoEntries(u.cs.percpu, CpuKeys(u), t'.percpu);
    HoldsNoEntries(u.cs.threads, u.keys + u.given, t'.threads);
  }

  // ---- the XDP hook ----

  /** The key the hook prints into a buffer of LUARCU_MAXKEY bytes. */
  function HookKey(c: Config, s: Name, cpu: nat): Name {
    var k := CpuKey(CStr(s), cpu);
    if |k| < c.maxKey then k else k[..if c.maxKey == 0 then 0 else c.maxKey - 1]
  }

  /** The runtime that a packet handled on `cpu` is given. */
  function Dispatch(cs: Configs, t: Tables, s: Name, cpu: nat): Option<nat>
    requires Sized(cs, t)
  {
    var v := Fetch(cs.runtimes, t.runtimes, s);
    if v.Object? then Some(v.id)
    else
      var w := Fetch(cs.percpu, t.percpu, HookKey(cs.percpu, s, cpu));
      if w.Object? then Some(w.id) else None
  }

  /** The hook finds a runtime exactly when the script is running, and it is that script's, and that CPU's own if the
      script runs per CPU. */
  lemma DispatchIff(u: Use, t: Tables, r: R.Reg, s: Name, cpu: nat)
    requires Rel(u, t, r) && Good(u, t) && s in u.keys && 0 !in s && cpu < u.n
    requires Fetch(u.cs.runtimes, t.runtimes, s) != Nil || |CpuKey(s, cpu)| < u.cs.percpu.maxKey
    ensures var d := Dispatch(u.cs, t, s, cpu);
            && (d.Some? <==> Running(u.cs, t, s))
            && (d.Some? ==> d.value in t.place && (|| t.place[d.value] == R.InRuntimes(s)
                                                   || t.place[d.value] == R.InPercpu(CpuKey(s, cpu))))
  {
    GoodIff(u, t, r);
    assert t.place == r.place;
    hide Rel, Fetch, CpuKey, Good, R.Inv, Running;
    FetchRuntime(u, t, r, s);
    FetchPercpu(u, t, r, s, cpu);
    CStrMatchesItself(s);
    RunningActs(u, t, r, s);
    L.LookupIff(r, u.n, s, cpu);
  }

  /** A key that fills the hook's buffer matches no entry but its own; a longer one matches none. */
  lemma LongestFetch(c: Config, keys: iset<Key>, t: Snapshot, m: map<Name, nat>, q: Name)
    requires NulFree(keys) && 0 !in q && |q| + 1 >= c.maxKey && Holds(c, keys, t, m)
    ensures |t.buckets| == c.Size() && Fetch(c, t, q) == if q in m then Object(m[q]) else Nil
    ensures |q| >= c.maxKey ==> q !in m
  {
    var i := c.Index(q);
    var b := t.buckets[i];
    assert Placed(c, keys, i, b);
    hide BitAnd, Pow2, StrNCmpEqual, Find, CStr, Placed;
    var j := Find(b, q);
    if j >= 0 { OnlyItsOwn(c, keys, i, b, j, q); }
    if q in m { HoldsFetch(c, keys, t, m, q); }
    if q in keys { HoldsFetch(c, keys, t, m, q); }
  }

  lemma OnlyItsOwn(c: Config, keys: iset<Key>, i: nat, b: Bucket, j: nat, q: Name)
    requires NulFree(keys) && 0 !in q && |q| + 1 >= c.maxKey && Placed(c, keys, i, b) && j < |b|
    requires StrNCmpEqual(b[j].key, q)
    ensures q in keys && |q| < c.maxKey
  {
    hide BitAnd, Pow2, StrNCmpEqual, CStr;
    PlacedOwner(c, keys, i, b, j);
    var k :| Owns(c, keys, i, k, b[j]);
    CStrMatchesItself(k);
    MatchMeans(k, q);
    assert q == k[..|q|] == k;
  }

  /** A per-CPU key that does not fit is stored for no CPU, so its script is not running per CPU. */
  lemma TooLongIsMissing(u: Use, t: Tables, r: R.Reg, s: Name, cpu: nat)
    requires Rel(u, t, r) && Good(u, t) && NulFree(u.keys) && s in u.keys && cpu < u.n
    requires |CpuKey(s, cpu)| >= u.cs.percpu.maxKey
    ensures Missing(u, t, s)
  {
    hide Holds, CpuKeys, Fetch, CpuKey, NulFree;
    CpuKeysNulFree(u);
    CpuKeyUsed(u, s, cpu);
    KeyIsNulFree(CpuKeys(u), CpuKey(s, cpu));
    LongestFetch(u.cs.percpu, CpuKeys(u), t.percpu, r.percpu, CpuKey(s, cpu));
    assert !Complete(u, t, s);
  }

  lemma KeyIsNulFree(keys: iset<Key>, k: Key)
    requires NulFree(keys) && k in keys
    ensures 0 !in k
  {
  }

  lemma CutKey(u: Use, s: Name, cpu: nat)
    requires NulFree(u.keys) && s in u.keys && cpu < u.n && |CpuKey(s, cpu)| >= u.cs.percpu.maxKey
    ensures 0 !in HookKey(u.cs.percpu, s, cpu) && |HookKey(u.cs.percpu, s, cpu)| + 1 >= u.cs.percpu.maxKey
    ensures HookKey(u.cs.percpu, s, cpu) == CpuKey(s, cpu)[..if u.cs.percpu.maxKey == 0 then 0 else u.cs.percpu.maxKey - 1]
  {
    hide CpuKeys, CpuKey, CStr;
    CpuKeysNulFree(u);
    CpuKeyUsed(u, s, cpu);
    CStrMatchesItself(s);
  }

  /** Script `o` runs on every CPU, and the key of `s` for `cpu`, cut to leave room for a NUL, is the key of `o` for CPU
      `c`. */
  ghost predicate CutTo(u: Use, t: Tables, s: Name, cpu: nat, o: Name, c: nat)
    requires Sized(u.cs, t)
  {
    && o in u.keys && c < u.n && Complete(u, t, o) && 0 < u.cs.percpu.maxKey <= |CpuKey(s, cpu)|
    && CpuKey(o, c) == CpuKey(s, cpu)[..u.cs.percpu.maxKey - 1]
  }

  lemma CutFound(u: Use, t: Tables, r: R.Reg, s: Name, cpu: nat)
    requires Rel(u, t, r) && Sized(u.cs, t) && NulFree(u.keys) && s in u.keys && cpu < u.n
    requires Fetch(u.cs.runtimes, t.runtimes, s) == Nil && |CpuKey(s, cpu)| >= u.cs.percpu.maxKey
    ensures var q := HookKey(u.cs.percpu, s, cpu);
            Dispatch(u.cs, t, s, cpu) == if q in r.percpu then Some(r.percpu[q]) else None
  {
    CutKey(u, s, cpu);
    CpuKeysNulFree(u);
    hide Holds, Fetch, CpuKey, NulFree, HookKey, CpuKeys;
    LongestFetch(u.cs.percpu, CpuKeys(u), t.percpu, r.percpu, HookKey(u.cs.percpu, s, cpu));
  }

  lemma CutToFound(u: Use, t: Tables, r: R.Reg, s: Name, cpu: nat, o: Name, c: nat)
    requires Rel(u, t, r) && Sized(u.cs, t) && Missing(u, t, s) && CutTo(u, t, s, cpu, o, c)
    ensures o != s && CpuKey(o, c) in r.percpu
    ensures Fetch(u.cs.percpu, t.percpu, CpuKey(o, c)) == Object(r.percpu[CpuKey(o, c)])
  {
    hide Fetch, CpuKey, HookKey, Rel;
    FetchPercpu(u, t, r, o, c);
    assert Fetch(u.cs.percpu, t.percpu, CpuKey(o, c)) != Nil;
  }

  lemma KeyOfComplete(u: Use, t: Tables, r: R.Reg, q: Name) returns (o: Name, c: nat)
    requires Rel(u, t, r) && Good(u, t) && q in r.percpu
    ensures o in u.keys && c < u.n && CpuKey(o, c) == q && Complete(u, t, o)
  {
    Domains(u, t, r);
    hide Holds, Fetch, CpuKey;
    o, c :| o in u.keys && c < u.n && q == CpuKey(o, c);
    FetchPercpu(u, t, r, o, c);
    assert !Missing(u, t, o);
  }

  /** The hook gives the packet to the runtime of script `o` for CPU `c`. */
  predicate GivenTo(u: Use, t: Tables, s: Name, cpu: nat, o: Name, c: nat)
    requires Sized(u.cs, t)
  {
    var w := Fetch(u.cs.percpu, t.percpu, CpuKey(o, c));
    w.Object? && Dispatch(u.cs, t, s, cpu) == Some(w.id)
  }

  lemma CutGivenTo(u: Use, t: Tables, r: R.Reg, s: Name, cpu: nat, o: Name, c: nat)
    requires Rel(u, t, r) && Sized(u.cs, t) && NulFree(u.keys) && Missing(u, t, s) && s in u.keys && cpu < u.n
    requires Fetch(u.cs.runtimes, t.runtimes, s) == Nil && CutTo(u, t, s, cpu, o, c)
    ensures o != s && GivenTo(u, t, s, cpu, o, c)
  {
    CutToFound(u, t, r, s, cpu, o, c);
    hide Fetch, CpuKey, HookKey, Rel, Missing, Complete, NulFree, Dispatch;
    CutFound(u, t, r, s, cpu);
    CutKey(u, s, cpu);
  }

  lemma CutSomewhere(u: Use, t: Tables, r: R.Reg, s: Name, cpu: nat) returns (o: Name, c: nat)
    requires Rel(u, t, r) && Good(u, t) && NulFree(u.keys) && s in u.keys && cpu < u.n
    requires Fetch(u.cs.runtimes, t.runtimes, s) == Nil && |CpuKey(s, cpu)| >= u.cs.percpu.maxKey
    requires Dispatch(u.cs, t, s, cpu).Some?
    ensures CutTo(u, t, s, cpu, o, c)
  {
    hide Fetch, CpuKey, HookKey, Rel, Missing, Complete, NulFree, Dispatch, Accounted;
    CutFound(u, t, r, s, cpu);
    CutKey(u, s, cpu);
    o, c := KeyOfComplete(u, t, r, HookKey(u.cs.percpu, s, cpu));
  }

  /** What is left of a key that does not fit the hook's buffer may be the key of another script: although the script is
      not running, the hook finds a runtime if and only if that other one is, and it is the other's. */
  lemma CutDispatchIff(u: Use, t: Tables, r: R.Reg, s: Name, cpu: nat)
    requires Rel(u, t, r) && Good(u, t) && NulFree(u.keys) && s in u.keys && cpu < u.n
    requires Fetch(u.cs.runtimes, t.runtimes, s) == Nil && |CpuKey(s, cpu)| >= u.cs.percpu.maxKey
    ensures !Running(u.cs, t, s)
    ensures Dispatch(u.cs, t, s, cpu).Some? <==> exists o: Name, c: nat :: CutTo(u, t, s, cpu, o, c)
    ensures forall o: Name, c: nat | CutTo(u, t, s, cpu, o, c) :: o != s && GivenTo(u, t, s, cpu, o, c)
  {
    TooLongIsMissing(u, t, r, s, cpu);
    assert !Running(u.cs, t, s);
    hide Fetch, CpuKey, HookKey, Rel, Dispatch, Missing, Complete, NulFree, Running, CutTo, Accounted;
    forall o: Name, c: nat | CutTo(u, t, s, cpu, o, c) ensures o != s && GivenTo(u, t, s, cpu, o, c) {
      CutGivenTo(u, t, r, s, cpu, o, c);
    }
    if Dispatch(u.cs, t, s, cpu).Some? { var o, c := CutSomewhere(u, t, r, s, cpu); }
  }

  // ---- every run ----

  datatype Op =
    | RunOp(script: Name, ispercpu: bool, f: R.Failure)
    | SpawnOp(script: Name, ispercpu: bool, f: R.Failure, threadRuns: bool, memory: bool)
    | StopOp(script: Name)
    | ShutdownOp

  function Do(cs: Configs, t: Tables, n: nat, op: Op): (t': Tables)
    requires Sized(cs, t)
    ensures Sized(cs, t')
  {
    match op
    case RunOp(script, ispercpu, f) => Run(cs, t, n, script, ispercpu, f).0
    case SpawnOp(script, ispercpu, f, threadRuns, memory) => Spawn(cs, t, n, script, ispercpu, f, threadRuns, memory).0
    case StopOp(script) => Stop(cs, t, n, script)
    case ShutdownOp => Shutdown(cs, t, n)
  }

  /** Any operation on given names may come next. No table write fails for a CPU after the first. */
  ghost predicate Allowed(u: Use, t: Tables, op: Op)
    requires Sized(u.cs, t)
  {
    && (!op.ShutdownOp? ==> op.script in u.given)
    && (op.RunOp? ==> !LateWrite(u, t, op.script, op.ispercpu, op.f))
  }

  lemma DoActs(u: Use, t: Tables, r: R.Reg, op: Op) returns (r': R.Reg)
    requires Closed(u) && NoCollisions(u) && NulFree(u.keys) && u.n >= 1
    requires Rel(u, t, r) && Sized(u.cs, t) && R.Inv(r, u.n) && Allowed(u, t, op)
    ensures Rel(u, Do(u.cs, t, u.n, op), r') && R.Inv(r', u.n)
    ensures L.ThreadsInside(r) && (op.SpawnOp? ==> Trim(op.script) == op.script) ==> L.ThreadsInside(r')
  {
    hide Rel, NoCollisions, R.Inv, Run, R.Run, Spawn, R.Spawn, Stop, R.Stop, Shutdown, L.StopAll, Trim, Meets, Running,
      R.Running, Names, L.Lists, MeetsPlain;
    match op
    case RunOp(script, ispercpu, f) =>
      RunActs(u, t, r, script, ispercpu, f);
      RunningActs(u, t, r, Trim(script));
      var g := MeetsRun(u.cs, u.n, script, ispercpu, f);
      r' := R.Run(r, u.n, script, ispercpu, g).0;
      L.DoKeepsInv(r, u.n, L.RunOp(script, ispercpu, g));
    case SpawnOp(script, ispercpu, f, threadRuns, memory) =>
      SpawnActs(u, t, r, script, ispercpu, f, threadRuns, memory);
      var g, kept := MeetsRun(u.cs, u.n, script, false, f), ThreadKept(u.cs.threads, script, threadRuns, memory);
      r' := R.Spawn(r, u.n, script, ispercpu, g, kept).0;
      L.DoKeepsInv(r, u.n, L.SpawnOp(script, ispercpu, g, kept));
    case StopOp(script) =>
      StopActs(u, t, r, script);
      r' := R.Stop(r, u.n, script);
      L.DoKeepsInv(r, u.n, L.StopOp(script));
    case ShutdownOp =>
      ShutdownActs(u, t, r);
      r' := L.StopAll(r, u.n, Names(t));
      L.DoKeepsInv(r, u.n, L.ShutdownOp(Names(t)));
  }

  ghost predicate Linked(u: Use, states: seq<Tables>, ops: seq<Op>, i: nat)
    requires i < |ops| && |states| == |ops| + 1
  {
    && Sized(u.cs, states[i]) && Allowed(u, states[i], ops[i])
    && states[i + 1] == Do(u.cs, states[i], u.n, ops[i])
  }

  ghost predicate Runs(u: Use, states: seq<Tables>, ops: seq<Op>) {
    && u.n >= 1 && |states| == |ops| + 1 && states[0] == Empty(u.cs)
    && forall i {:trigger ops[i]} | 0 <= i < |ops| :: Linked(u, states, ops, i)
  }

  /** After every operation of every run over keys that do not collide, the tables act as finite maps: each script has
      all its CPU instances or none, none is in both registries, every runtime ever created is accounted for, and, when
      the names spawned need no trimming, every thread's script is running. */
  lemma {:induction false} EveryRun(u: Use, states: seq<Tables>, ops: seq<Op>, i: nat) returns (r: R.Reg)
    requires Closed(u) && NoCollisions(u) && NulFree(u.keys) && Runs(u, states, ops) && i < |states|
    ensures Rel(u, states[i], r) && Good(u, states[i])
    ensures (forall j | 0 <= j < |ops| && ops[j].SpawnOp? :: Trim(ops[j].script) == ops[j].script)
            ==> ThreadsRun(u, states[i]) && L.ThreadsInside(r)
    decreases i
  {
    hide Rel, NoCollisions, Good, Do, Allowed, ThreadsRun, L.ThreadsInside, Trim;
    if i == 0 {
      r := R.EMPTY;
      RelEmpty(u);
      L.EmptyInv(u.n);
    } else {
      r := EveryRun(u, states, ops, i - 1);
      GoodIff(u, states[i - 1], r);
      var op := ops[i - 1];
      assert Linked(u, states, ops, i - 1);
      r := DoActs(u, states[i - 1], r, op);
    }
    RelSized(u, states[i], r);
    GoodIff(u, states[i], r);
    ThreadsRunIff(u, states[i], r);
  }
}
