/** The script registries: running, spawning, stopping and listing scripts (lib/lunatik/runner.lua), and
    the lookup of a runtime by the XDP hook (lib/luaxdp.c). The tables are finite maps here; `RunnerTables` says when
    the rcu tables are. */
module Runner {
  import opened RunnerNames

  /** Where a created runtime is: registered under a key, stopped, or dropped by a failed table write. */
  datatype Place = InRuntimes(key: Name) | InPercpu(key: Name) | Stopped | Orphan

  datatype Reg = Reg(
    runtimes: map<Name, nat>, percpu: map<Name, nat>, threads: map<Name, nat>,
    next: nat, place: map<nat, Place>)

  const EMPTY: Reg := Reg(map[], map[], map[], 0, map[])

  // ---- what is kept ----

  ghost predicate PlaceHolds(r: Reg, id: nat)
    requires id in r.place
  {
    match r.place[id]
    case InRuntimes(k) => k in r.runtimes && r.runtimes[k] == id
    case InPercpu(k) => k in r.percpu && r.percpu[k] == id
    case Stopped => true
    case Orphan => true
  }

  /** Conservation: every runtime ever created is under exactly one key, or stopped, or dropped. */
  ghost predicate Booked(r: Reg) {
    && (forall id: nat :: id in r.place <==> id < r.next)
    && (forall id | id in r.place :: PlaceHolds(r, id))
    && (forall k | k in r.runtimes :: r.runtimes[k] in r.place && r.place[r.runtimes[k]] == InRuntimes(k))
    && (forall k | k in r.percpu :: r.percpu[k] in r.place && r.place[r.percpu[k]] == InPercpu(k))
  }

  /** Registered for every CPU, or for none. */
  ghost predicate Registered(r: Reg, n: nat, s: Name) {
    forall c: nat :: c < n ==> CpuKey(s, c) in r.percpu
  }

  ghost predicate Absent(r: Reg, n: nat, s: Name) {
    forall c: nat :: c < n ==> CpuKey(s, c) !in r.percpu
  }

  ghost predicate AllOrNone(r: Reg, n: nat, s: Name) {
    Registered(r, n, s) || Absent(r, n, s)
  }

  ghost predicate IsKey(n: nat, k: Name) {
    exists s: Name, c: nat :: c < n && k == CpuKey(s, c)
  }

  ghost predicate Whole(r: Reg, n: nat) {
    (forall s :: AllOrNone(r, n, s)) && forall k | k in r.percpu :: IsKey(n, k)
  }

  /** No script is in both registries. */
  ghost predicate Apart(r: Reg, n: nat) {
    forall s | s in r.runtimes :: Absent(r, n, s)
  }

  ghost predicate Inv(r: Reg, n: nat) {
    n >= 1 && Booked(r) && Whole(r, n) && Apart(r, n)
  }

  ghost predicate Running(r: Reg, s: Name) {
    s in r.runtimes || CpuKey(s, 0) in r.percpu
  }

  // ---- registering and stopping one entry ----

  function AddRuntime(r: Reg, s: Name): Reg {
    r.(runtimes := r.runtimes[s := r.next], place := r.place[r.next := InRuntimes(s)], next := r.next + 1)
  }

  function AddPercpu(r: Reg, k: Name): Reg {
    r.(percpu := r.percpu[k := r.next], place := r.place[r.next := InPercpu(k)], next := r.next + 1)
  }

  function Dropped(r: Reg): Reg {
    r.(place := r.place[r.next := Orphan], next := r.next + 1)
  }

  function StopRuntime(r: Reg, s: Name): Reg {
    if s in r.runtimes then r.(runtimes := r.runtimes - {s}, place := r.place[r.runtimes[s] := Stopped]) else r
  }

  function StopPercpu(r: Reg, k: Name): Reg {
    if k in r.percpu then r.(percpu := r.percpu - {k}, place := r.place[r.percpu[k] := Stopped]) else r
  }

  function StopThread(r: Reg, s: Name): Reg {
    r.(threads := r.threads - {s})
  }

  lemma AddRuntimeBooked(r: Reg, s: Name)
    requires Booked(r) && s !in r.runtimes
    ensures Booked(AddRuntime(r, s))
  {
    var r' := AddRuntime(r, s);
    forall id | id in r'.place ensures PlaceHolds(r', id) {
      assert id != r.next ==> PlaceHolds(r, id);
    }
  }

  lemma AddPercpuBooked(r: Reg, k: Name)
    requires Booked(r) && k !in r.percpu
    ensures Booked(AddPercpu(r, k))
  {
    var r' := AddPercpu(r, k);
    forall id | id in r'.place ensures PlaceHolds(r', id) {
      assert id != r.next ==> PlaceHolds(r, id);
    }
  }

  lemma DroppedBooked(r: Reg)
    requires Booked(r)
    ensures Booked(Dropped(r))
  {
    var r' := Dropped(r);
    forall id | id in r'.place ensures PlaceHolds(r', id) {
      assert id != r.next ==> PlaceHolds(r, id);
    }
  }

  lemma StopRuntimeBooked(r: Reg, s: Name)
    requires Booked(r)
    ensures Booked(StopRuntime(r, s))
  {
    var r' := StopRuntime(r, s);
    forall id | id in r'.place ensures PlaceHolds(r', id) { assert PlaceHolds(r, id); }
  }

  lemma StopPercpuBooked(r: Reg, k: Name)
    requires Booked(r)
    ensures Booked(StopPercpu(r, k))
  {
    var r' := StopPercpu(r, k);
    forall id | id in r'.place ensures PlaceHolds(r', id) { assert PlaceHolds(r, id); }
  }

  // ---- one entry per CPU ----

  /** Registered for the CPUs below `c`. */
  function Added(r: Reg, s: Name, c: nat): Reg {
    if c == 0 then r else AddPercpu(Added(r, s, c - 1), CpuKey(s, c - 1))
  }

  /** Stopped for the CPUs below `c`. */
  function StoppedCpus(r: Reg, s: Name, c: nat): Reg {
    if c == 0 then r else StopPercpu(StoppedCpus(r, s, c - 1), CpuKey(s, c - 1))
  }

  ghost predicate IsCpuKey(s: Name, c: nat, k: Name) {
    exists i: nat :: i < c && k == CpuKey(s, i)
  }

  lemma CpuKeyStep(s: Name, c: nat, k: Name)
    ensures IsCpuKey(s, c + 1, k) <==> IsCpuKey(s, c, k) || k == CpuKey(s, c)
  {
    hide CpuKey;
    if k == CpuKey(s, c) { assert c < c + 1; }
    if IsCpuKey(s, c, k) { var i: nat :| i < c && k == CpuKey(s, i); assert i < c + 1; }
  }

  /** `r'` is `r` with entries added under the keys of `s` below `c`. */
  ghost predicate Grown(r: Reg, r': Reg, s: Name, c: nat) {
    && r'.runtimes == r.runtimes && r'.threads == r.threads
    && (forall k :: k in r'.percpu <==> k in r.percpu || IsCpuKey(s, c, k))
    && (forall k | k in r.percpu :: k in r'.percpu && r'.percpu[k] == r.percpu[k])
  }

  /** `r'` is `r` without the entries under the keys of `s` below `c`. */
  ghost predicate Shrunk(r: Reg, r': Reg, s: Name, c: nat) {
    && r'.runtimes == r.runtimes && r'.threads == r.threads
    && (forall k :: k in r'.percpu <==> k in r.percpu && !IsCpuKey(s, c, k))
    && (forall k | k in r'.percpu :: k in r.percpu && r'.percpu[k] == r.percpu[k])
  }

  lemma AddOne(r: Reg, r': Reg, s: Name, c: nat)
    requires Grown(r, r', s, c) && CpuKey(s, c) !in r.percpu
    ensures Grown(r, AddPercpu(r', CpuKey(s, c)), s, c + 1) && CpuKey(s, c) !in r'.percpu
  {
    hide CpuKey, IsCpuKey;
    NotYet(s, c);
    forall k ensures IsCpuKey(s, c + 1, k) <==> IsCpuKey(s, c, k) || k == CpuKey(s, c) { CpuKeyStep(s, c, k); }
  }

  lemma StopOne(r: Reg, r': Reg, s: Name, c: nat)
    requires Shrunk(r, r', s, c)
    ensures Shrunk(r, StopPercpu(r', CpuKey(s, c)), s, c + 1)
  {
    hide CpuKey, IsCpuKey;
    forall k ensures IsCpuKey(s, c + 1, k) <==> IsCpuKey(s, c, k) || k == CpuKey(s, c) { CpuKeyStep(s, c, k); }
  }

  lemma {:induction false} AddedMeans(r: Reg, n: nat, s: Name, c: nat)
    requires Booked(r) && Absent(r, n, s) && c <= n
    ensures Booked(Added(r, s, c)) && Grown(r, Added(r, s, c), s, c)
    decreases c
  {
    hide Booked, CpuKey, Grown;
    if c == 0 {
      NothingGrown(r, s);
    } else {
      AddedMeans(r, n, s, c - 1);
      AddOne(r, Added(r, s, c - 1), s, c - 1);
      AddPercpuBooked(Added(r, s, c - 1), CpuKey(s, c - 1));
    }
  }

  lemma NothingGrown(r: Reg, s: Name)
    ensures Grown(r, r, s, 0) && Shrunk(r, r, s, 0)
  {
  }

  lemma {:induction false} StoppedMeans(r: Reg, s: Name, c: nat)
    requires Booked(r)
    ensures Booked(StoppedCpus(r, s, c)) && Shrunk(r, StoppedCpus(r, s, c), s, c)
    decreases c
  {
    hide Booked, CpuKey, Shrunk;
    if c == 0 {
      NothingGrown(r, s);
    } else {
      StoppedMeans(r, s, c - 1);
      StopOne(r, StoppedCpus(r, s, c - 1), s, c - 1);
      StopPercpuBooked(StoppedCpus(r, s, c - 1), CpuKey(s, c - 1));
    }
  }

  lemma NotYet(s: Name, c: nat)
    ensures !IsCpuKey(s, c, CpuKey(s, c))
  {
    hide CpuKey;
    forall i: nat | i < c ensures CpuKey(s, c) != CpuKey(s, i) {
      if CpuKey(s, c) == CpuKey(s, i) { KeyInjective(s, c, s, i); }
    }
  }

  /** None of the runtimes from `from` on was dropped. */
  ghost predicate NoneDropped(r: Reg, from: nat) {
    forall id | id in r.place && from <= id :: r.place[id] != Orphan
  }

  lemma {:induction false} AddedPlaces(r: Reg, s: Name, c: nat)
    requires Booked(r)
    ensures NoneDropped(Added(r, s, c), r.next) && Added(r, s, c).next == r.next + c
    decreases c
  {
    if c == 0 {
    } else {
      AddedPlaces(r, s, c - 1);
    }
  }

  lemma {:induction false} StoppedPlaces(r: Reg, s: Name, c: nat, from: nat)
    requires Booked(r) && NoneDropped(r, from)
    ensures NoneDropped(StoppedCpus(r, s, c), from) && StoppedCpus(r, s, c).next == r.next
    decreases c
  {
    hide CpuKey, Booked;
    if c == 0 {
    } else {
      StoppedPlaces(r, s, c - 1, from);
    }
  }

  // ---- the operations ----

  /** What may go wrong in a run: creating a runtime raises, or a table write does. */
  datatype Failure = NoFailure | CreateFails(cpu: nat) | WriteFails(cpu: nat)

  datatype Outcome = Done | AlreadyRunning | Raised

  function PercpuRun(r: Reg, n: nat, s: Name, f: Failure): (Reg, Outcome) {
    if f.CreateFails? && f.cpu < n then (StoppedCpus(Added(r, s, f.cpu), s, n), Raised)
    else if f.WriteFails? && f.cpu < n then (Dropped(Added(r, s, f.cpu)), Raised)
    else (Added(r, s, n), Done)
  }

  function PlainRun(r: Reg, s: Name, f: Failure): (Reg, Outcome) {
    match f
    case CreateFails(_) => (r, Raised)
    case WriteFails(_) => (Dropped(r), Raised)
    case NoFailure => (AddRuntime(r, s), Done)
  }

  function Run(r: Reg, n: nat, script: Name, ispercpu: bool, f: Failure): (Reg, Outcome) {
    var s := Trim(script);
    if s in r.runtimes || CpuKey(s, 0) in r.percpu then (r, AlreadyRunning)
    else if ispercpu then PercpuRun(r, n, s, f)
    else PlainRun(r, s, f)
  }

  function Spawn(r: Reg, n: nat, script: Name, ispercpu: bool, f: Failure, threadRuns: bool): (Reg, Outcome) {
    if ispercpu then (r, Raised)
    else
      var (r', outcome) := Run(r, n, script, false, f);
      if !outcome.Done? then (r', outcome)
      else if !threadRuns then (r', Raised)
      else (r'.(threads := r'.threads[script := r.next]), Done)
  }

  function Stop(r: Reg, n: nat, script: Name): Reg {
    var s := Trim(script);
    StoppedCpus(StopRuntime(StopThread(r, s), s), s, n)
  }

  // ---- running ----

  lemma RunningIff(r: Reg, n: nat, s: Name)
    requires n >= 1 && AllOrNone(r, n, s)
    ensures CpuKey(s, 0) in r.percpu <==> Registered(r, n, s)
    ensures CpuKey(s, 0) !in r.percpu <==> Absent(r, n, s)
  {
    hide CpuKey;
  }

  lemma OtherCpuKeys(s: Name, s': Name, n: nat, c: nat)
    requires s != s'
    ensures !IsCpuKey(s, n, CpuKey(s', c))
  {
    hide CpuKey;
    forall i: nat | i < n ensures CpuKey(s', c) != CpuKey(s, i) {
      if CpuKey(s', c) == CpuKey(s, i) { KeyInjective(s', c, s, i); }
    }
  }

  lemma OwnCpuKey(s: Name, c: nat, i: nat)
    ensures IsCpuKey(s, c, CpuKey(s, i)) <==> i < c
  {
    hide CpuKey;
    if IsCpuKey(s, c, CpuKey(s, i)) {
      var j: nat :| j < c && CpuKey(s, i) == CpuKey(s, j);
      KeyInjective(s, i, s, j);
    }
  }

  /** A registry whose keys are those of `r` plus the keys of `s` below `c` is whole exactly when `c` is 0 or all. */
  lemma WholeAfterAdding(r: Reg, r': Reg, n: nat, s: Name, c: nat)
    requires Whole(r, n) && Absent(r, n, s) && c <= n
    requires forall k :: k in r'.percpu <==> k in r.percpu || IsCpuKey(s, c, k)
    ensures Whole(r', n) <==> c == 0 || c == n
  {
    hide CpuKey;
    forall s', i: nat | s' != s ensures CpuKey(s', i) in r'.percpu <==> CpuKey(s', i) in r.percpu { OtherCpuKeys(s, s', c, i); }
    forall i: nat | i < n ensures CpuKey(s, i) in r'.percpu <==> i < c { OwnCpuKey(s, c, i); }
    forall s' | s' != s ensures AllOrNone(r', n, s') {
      assert AllOrNone(r, n, s');
    }
    forall k | k in r'.percpu ensures IsKey(n, k) {
      if k !in r.percpu { var i: nat :| i < c && k == CpuKey(s, i); assert i < n; }
    }
    if 0 < c < n {
      assert CpuKey(s, 0) in r'.percpu && CpuKey(s, c) !in r'.percpu;
      assert !AllOrNone(r', n, s);
    }
  }

  lemma ApartAfterAdding(r: Reg, r': Reg, n: nat, s: Name, c: nat)
    requires Apart(r, n) && s !in r.runtimes && r'.runtimes == r.runtimes
    requires forall k :: k in r'.percpu <==> k in r.percpu || IsCpuKey(s, c, k)
    ensures Apart(r', n)
  {
    hide CpuKey;
    forall s' | s' in r'.runtimes ensures Absent(r', n, s') {
      assert Absent(r, n, s');
      forall i: nat | i < n ensures CpuKey(s', i) !in r'.percpu { OtherCpuKeys(s, s', c, i); }
    }
  }

  /** A per-CPU run that fails to create a runtime at any CPU leaves all three tables exactly as they were,
      and every runtime it had created is stopped. */
  lemma RollbackIsExact(r: Reg, n: nat, s: Name, cpu: nat)
    requires Inv(r, n) && Absent(r, n, s) && cpu < n
    ensures var (r', o) := PercpuRun(r, n, s, CreateFails(cpu));
            && o == Raised
            && r'.runtimes == r.runtimes && r'.percpu == r.percpu && r'.threads == r.threads
            && r'.next == r.next + cpu && Booked(r')
            && forall id: nat | r.next <= id < r'.next :: id in r'.place && r'.place[id] == Stopped
  {
    var mid := Added(r, s, cpu);
    AddedMeans(r, n, s, cpu);
    AddedPlaces(r, s, cpu);
    StoppedMeans(mid, s, n);
    StoppedPlaces(mid, s, n, r.next);
    var r' := StoppedCpus(mid, s, n);
    assert PercpuRun(r, n, s, CreateFails(cpu)) == (r', Raised);
    hide PercpuRun, Added, StoppedCpus, CpuKey, Booked;
    GrownAndShrunk(r, mid, r', n, s, cpu);
    forall id: nat | r.next <= id < r'.next ensures id in r'.place && r'.place[id] == Stopped {
      NewIsGone(r, r', id);
    }
  }

  lemma GrownAndShrunk(r: Reg, mid: Reg, r': Reg, n: nat, s: Name, c: nat)
    requires Grown(r, mid, s, c) && Shrunk(mid, r', s, n) && Absent(r, n, s) && c <= n
    ensures r'.percpu == r.percpu && r'.runtimes == r.runtimes && r'.threads == r.threads
  {
    hide CpuKey;
    forall k ensures k in r'.percpu <==> k in r.percpu {
      if IsCpuKey(s, c, k) { var i: nat :| i < c && k == CpuKey(s, i); assert i < n; }
      if IsCpuKey(s, n, k) { var i: nat :| i < n && k == CpuKey(s, i); }
    }
  }

  lemma NewIsGone(r: Reg, r': Reg, id: nat)
    requires Booked(r) && Booked(r') && r'.percpu == r.percpu && r'.runtimes == r.runtimes
    requires NoneDropped(r', r.next) && r.next <= id < r'.next
    ensures id in r'.place && r'.place[id] == Stopped
  {
    assert PlaceHolds(r', id);
  }

  /** A table write that fails in a per-CPU run of a script that is not running, for a CPU after the first. */
  ghost predicate LateWrite(r: Reg, n: nat, script: Name, ispercpu: bool, f: Failure) {
    ispercpu && !Running(r, Trim(script)) && f.WriteFails? && 0 < f.cpu < n
  }

  /** Running a script keeps the registries whole and apart if and only if no table write fails for a CPU
      after the first: that failure is the one the per-CPU run does not roll back. */
  lemma RunKeepsInvIff(r: Reg, n: nat, script: Name, ispercpu: bool, f: Failure)
    requires Inv(r, n)
    ensures var (r', o) := Run(r, n, script, ispercpu, f);
            && (Inv(r', n) <==> !LateWrite(r, n, script, ispercpu, f))
            && (o == AlreadyRunning <==> Running(r, Trim(script)))
            && (o != Done ==> r'.runtimes == r.runtimes && r'.threads == r.threads)
            && (o == AlreadyRunning ==> r' == r)
            && (o == Done ==> Running(r', Trim(script)))
  {
    var s := Trim(script);
    RunningIff(r, n, s) by { assert AllOrNone(r, n, s); }
    if !Running(r, s) {
      if !ispercpu {
        PlainRunKeepsInv(r, n, s, f);
      } else if f.CreateFails? && f.cpu < n {
        RollbackIsExact(r, n, s, f.cpu);
        SameTables(r, PercpuRun(r, n, s, f).0, n);
      } else {
        PercpuRunMeans(r, n, s, f);
      }
    }
  }

  /** Nothing fails in time to matter: a plain run meets no failure, a per-CPU run none on its CPUs. */
  predicate Succeeds(n: nat, ispercpu: bool, f: Failure) {
    f.NoFailure? || (ispercpu && f.cpu >= n)
  }

  /** A run is done if and only if the script was not running and nothing fails; then exactly the scripts that were
      running and this one are, this one on every CPU or in one runtime as was asked. */
  lemma RunMeans(r: Reg, n: nat, script: Name, ispercpu: bool, f: Failure)
    requires Inv(r, n)
    ensures var (r', o) := Run(r, n, script, ispercpu, f); var s := Trim(script);
            && (o == Done <==> !Running(r, s) && Succeeds(n, ispercpu, f))
            && (o == Done ==> forall s' :: Running(r', s') <==> Running(r, s') || s' == s)
            && (o == Done ==> if ispercpu then Registered(r', n, s) && s !in r'.runtimes
                              else s in r'.runtimes && Absent(r', n, s))
  {
    var s := Trim(script);
    var (r', o) := Run(r, n, script, ispercpu, f);
    assert AllOrNone(r, n, s);
    RunningIff(r, n, s);
    if o == Done {
      if ispercpu { AddedMeans(r, n, s, n); }
      hide Inv, Trim, CpuKey, Added, Registered, Absent, Run;
      forall s' ensures Running(r', s') <==> Running(r, s') || s' == s { RunAdds(r, n, script, ispercpu, f, s'); }
      DoneWhere(r, n, script, ispercpu, f);
    }
  }

  lemma RunAdds(r: Reg, n: nat, script: Name, ispercpu: bool, f: Failure, s': Name)
    requires Inv(r, n) && Run(r, n, script, ispercpu, f).1 == Done
    ensures Running(Run(r, n, script, ispercpu, f).0, s') <==> Running(r, s') || s' == Trim(script)
  {
    var s := Trim(script);
    assert AllOrNone(r, n, s);
    RunningIff(r, n, s);
    if ispercpu {
      AddedMeans(r, n, s, n);
      hide Trim, CpuKey, Added, IsCpuKey;
      OwnCpuKey(s, n, 0);
      if s' != s { OtherCpuKeys(s, s', n, 0); }
    }
  }

  lemma DoneWhere(r: Reg, n: nat, script: Name, ispercpu: bool, f: Failure)
    requires Inv(r, n) && Run(r, n, script, ispercpu, f).1 == Done
    ensures var r', s := Run(r, n, script, ispercpu, f).0, Trim(script);
            if ispercpu then Registered(r', n, s) && s !in r'.runtimes else s in r'.runtimes && Absent(r', n, s)
  {
    var s := Trim(script);
    assert AllOrNone(r, n, s);
    RunningIff(r, n, s);
    if ispercpu {
      AddedMeans(r, n, s, n);
      hide Trim, CpuKey, Added, IsCpuKey;
      forall c: nat | c < n ensures CpuKey(s, c) in Added(r, s, n).percpu { OwnCpuKey(s, n, c); }
    }
  }

  lemma SameTables(r: Reg, r': Reg, n: nat)
    requires Inv(r, n) && Booked(r') && r'.runtimes == r.runtimes && r'.percpu == r.percpu
    ensures Inv(r', n)
  {
    forall s ensures AllOrNone(r', n, s) { assert AllOrNone(r, n, s); }
    forall s | s in r'.runtimes ensures Absent(r', n, s) { assert Absent(r, n, s); }
  }

  lemma PlainRunKeepsInv(r: Reg, n: nat, s: Name, f: Failure)
    requires Inv(r, n) && Absent(r, n, s) && s !in r.runtimes
    ensures Inv(PlainRun(r, s, f).0, n)
  {
    var r' := PlainRun(r, s, f).0;
    DroppedBooked(r);
    AddRuntimeBooked(r, s);
    hide Booked;
    forall s' ensures AllOrNone(r', n, s') { assert AllOrNone(r, n, s'); }
    forall s' | s' in r'.runtimes ensures Absent(r', n, s') { assert Absent(r, n, s'); }
  }

  lemma PercpuRunMeans(r: Reg, n: nat, s: Name, f: Failure)
    requires Inv(r, n) && Absent(r, n, s) && s !in r.runtimes && !(f.CreateFails? && f.cpu < n)
    ensures var (r', o) := PercpuRun(r, n, s, f);
            && (Inv(r', n) <==> !(f.WriteFails? && 0 < f.cpu < n))
            && r'.runtimes == r.runtimes && r'.threads == r.threads
            && (o == Raised ==> f.WriteFails?) && (o == Done ==> CpuKey(s, 0) in r'.percpu)
  {
    var r' := PercpuRun(r, n, s, f).0;
    var c := if f.WriteFails? && f.cpu < n then f.cpu else n;
    AddedMeans(r, n, s, c);
    DroppedBooked(Added(r, s, c));
    hide Added, Booked;
    WholeAfterAdding(r, r', n, s, c);
    ApartAfterAdding(r, r', n, s, c);
    OwnCpuKey(s, c, 0);
  }

  // ---- stopping ----

  /** Stopping a script removes it and nothing else, whatever state it is in. */
  lemma StopMeans(r: Reg, n: nat, script: Name)
    requires Inv(r, n)
    ensures var r', s := Stop(r, n, script), Trim(script);
            && Inv(r', n)
            && r'.runtimes == r.runtimes - {s} && r'.threads == r.threads - {s}
            && (forall s', c: nat | c < n :: CpuKey(s', c) in r'.percpu <==> CpuKey(s', c) in r.percpu && s' != s)
            && (forall s' :: Running(r', s') <==> Running(r, s') && s' != s)
  {
    var r', s := Stop(r, n, script), Trim(script);
    StopShrinks(r, n, script);
    hide CpuKey, Booked, Stop, Trim, Whole, Apart;
    forall s', c: nat | c < n ensures CpuKey(s', c) in r'.percpu <==> CpuKey(s', c) in r.percpu && s' != s {
      if s' == s { OwnCpuKey(s, n, c); } else { OtherCpuKeys(s, s', n, c); }
    }
    StoppedWhole(r, r', n, s);
  }

  lemma StopShrinks(r: Reg, n: nat, script: Name)
    requires Booked(r)
    ensures var r', s := Stop(r, n, script), Trim(script);
            && Booked(r') && r'.runtimes == r.runtimes - {s} && r'.threads == r.threads - {s}
            && (forall k :: k in r'.percpu <==> k in r.percpu && !IsCpuKey(s, n, k))
            && (forall k | k in r'.percpu :: k in r.percpu && r'.percpu[k] == r.percpu[k])
  {
    hide Booked, StoppedCpus, Trim, IsCpuKey;
    var s := Trim(script);
    var mid := StopRuntime(StopThread(r, s), s);
    StopThreadBooked(r, s);
    StopRuntimeBooked(StopThread(r, s), s);
    StoppedMeans(mid, s, n);
    assert mid.percpu == r.percpu && mid.runtimes == r.runtimes - {s} && mid.threads == r.threads - {s};
  }

  lemma StopThreadBooked(r: Reg, s: Name)
    requires Booked(r)
    ensures Booked(StopThread(r, s))
  {
    var r' := StopThread(r, s);
    forall id | id in r'.place ensures PlaceHolds(r', id) { assert PlaceHolds(r, id); }
  }

  lemma StoppedWhole(r: Reg, r': Reg, n: nat, s: Name)
    requires Inv(r, n) && r'.runtimes == r.runtimes - {s}
    requires forall s', c: nat | c < n :: CpuKey(s', c) in r'.percpu <==> CpuKey(s', c) in r.percpu && s' != s
    requires forall k | k in r'.percpu :: k in r.percpu
    ensures Whole(r', n) && Apart(r', n)
  {
    hide CpuKey, Booked;
    forall s' ensures AllOrNone(r', n, s') {
      assert AllOrNone(r, n, s');
    }
    forall s' | s' in r'.runtimes ensures Absent(r', n, s') {
      assert Absent(r, n, s');
    }
  }
}
