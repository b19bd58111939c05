/** Whole runs of the script registries: listing, shutting down, threads and the XDP lookup. */
module RunnerRuns {
  import opened Optional
  import opened RunnerNames
  import opened Runner

  // ---- listing ----

  /** A script with an empty name that runs per CPU is the one that listing does not name. */
  ghost predicate Listed(r: Reg, s: Name) {
    s in r.runtimes || (s != [] && CpuKey(s, 0) in r.percpu)
  }

  ghost predicate Distinct(names: seq<Name>) {
    forall i, j | 0 <= i < j < |names| :: names[i] != names[j]
  }

  ghost predicate Lists(r: Reg, names: seq<Name>) {
    Distinct(names) && forall s :: s in names <==> Listed(r, s)
  }

  lemma NameIsKey(k: Name)
    ensures BaseName(k).Some? ==> k == CpuKey(BaseName(k).value, 0) && BaseName(k).value != []
  {
    if BaseName(k).Some? {
      assert k == k[..|k| - 2] + k[|k| - 2..];
      assert Decimal(0) == [ZERO];
    }
  }

  lemma DistinctMore(names: seq<Name>, s: Name)
    requires Distinct(names) && s !in names
    ensures Distinct(names + [s])
  {
  }

  // ---- the XDP hook ----

  /** The runtime that a packet handled on `cpu` is given. */
  function Lookup(r: Reg, s: Name, cpu: nat): Option<nat> {
    if s in r.runtimes then Some(r.runtimes[s])
    else if CpuKey(s, cpu) in r.percpu then Some(r.percpu[CpuKey(s, cpu)])
    else None
  }

  /** The hook finds a runtime exactly when the script is running, and it is a live one of that script,
      and that CPU's own if the script runs per CPU. */
  lemma LookupIff(r: Reg, n: nat, s: Name, cpu: nat)
    requires Inv(r, n) && cpu < n
    ensures Lookup(r, s, cpu).Some? <==> Running(r, s)
    ensures Lookup(r, s, cpu).Some? ==>
              var id := Lookup(r, s, cpu).value;
              id in r.place && (r.place[id] == InRuntimes(s) || (r.place[id] == InPercpu(CpuKey(s, cpu)) && s !in r.runtimes))
  {
    hide CpuKey;
    assert AllOrNone(r, n, s);
    RunningIff(r, n, s);
  }

  // ---- shutting down ----

  function StopAll(r: Reg, n: nat, names: seq<Name>): Reg {
    if names == [] then r else Stop(StopAll(r, n, names[..|names| - 1]), n, names[|names| - 1])
  }

  ghost predicate Trimmed(names: seq<Name>, s: Name) {
    exists i | 0 <= i < |names| :: Trim(names[i]) == s
  }

  lemma {:induction false} StopAllMeans(r: Reg, n: nat, names: seq<Name>)
    requires Inv(r, n)
    ensures var r' := StopAll(r, n, names);
            && Inv(r', n)
            && (forall s :: Running(r', s) <==> Running(r, s) && !Trimmed(names, s))
            && (forall s :: s in r'.threads <==> s in r.threads && !Trimmed(names, s))
    decreases |names|
  {
    hide Inv, Running, Trim;
    if names == [] {
    } else {
      var front, last := names[..|names| - 1], names[|names| - 1];
      StopAllMeans(r, n, front);
      StopMeans(StopAll(r, n, front), n, last);
      forall s ensures Trimmed(names, s) <==> Trimmed(front, s) || s == Trim(last) {
        if Trimmed(front, s) { var i :| 0 <= i < |front| && Trim(front[i]) == s; assert Trim(names[i]) == s; }
        if Trimmed(names, s) {
          var i :| 0 <= i < |names| && Trim(names[i]) == s;
          assert i < |front| ==> Trim(front[i]) == s;
        }
      }
    }
  }

  function Longest(names: seq<Name>): (m: nat)
    ensures forall i | 0 <= i < |names| :: |names[i]| <= m
  {
    if names == [] then 0
    else
      var rest := Longest(names[1..]);
      assert forall i | 0 < i < |names| :: names[i] == names[1..][i - 1];
      if |names[0]| > rest then |names[0]| else rest
  }

  /** If every name is the trimmed form of some name, trimming changes none of them. */
  lemma {:induction false} AllCovered(names: seq<Name>, s: Name)
    requires forall x | x in names :: Trimmed(names, x)
    requires s in names
    ensures Trim(s) == s
    decreases Longest(names) - |s|
  {
    hide Trim;
    if Trim(s) != s {
      var i :| 0 <= i < |names| && Trim(names[i]) == s;
      var y := names[i];
      TrimShortens(y);
      AllCovered(names, y);
    }
  }

  lemma TrimEmpty(s: Name)
    ensures Trim(s) == [] <==> s == []
  {
  }

  /** Nothing is registered when nothing runs. */
  lemma NothingRuns(r: Reg, n: nat)
    requires Inv(r, n) && forall s :: !Running(r, s)
    ensures r.runtimes == map[] && r.percpu == map[]
  {
    hide CpuKey, Booked;
    forall s ensures s !in r.runtimes { assert !Running(r, s); }
    forall k ensures k !in r.percpu {
      if k in r.percpu {
        assert IsKey(n, k);
        var s, c: nat :| c < n && k == CpuKey(s, c);
        assert AllOrNone(r, n, s) && !Running(r, s);
        RunningIff(r, n, s);
      }
    }
  }

  /** Shutting down stops every script if and only if trimming leaves every running name alone and no
      script with an empty name runs per CPU: `stop` trims the already trimmed name once more. */
  lemma ShutdownEmptiesIff(r: Reg, n: nat, names: seq<Name>)
    requires Inv(r, n) && Lists(r, names)
    ensures var r' := StopAll(r, n, names);
            (forall s :: !Running(r', s)) <==> (forall s | Running(r, s) :: Trim(s) == s) && CpuKey([], 0) !in r.percpu
  {
    StopAllMeans(r, n, names);
    var r' := StopAll(r, n, names);
    hide Inv, Trim, StopAll, CpuKey;
    if forall s :: !Running(r', s) {
      if CpuKey([], 0) in r.percpu {
        assert Running(r, []) && Trimmed(names, []);
        var i :| 0 <= i < |names| && Trim(names[i]) == [];
        TrimEmpty(names[i]);
        assert Listed(r, []);
        EmptyNameTwice(r, n);
      }
      forall s | Running(r, s) ensures Trim(s) == s {
        forall x | x in names ensures Trimmed(names, x) { assert Listed(r, x) && Running(r, x) && !Running(r', x); }
        assert Listed(r, s);
        AllCovered(names, s);
      }
    }
    if (forall s | Running(r, s) :: Trim(s) == s) && CpuKey([], 0) !in r.percpu {
      forall s ensures !Running(r', s) {
        if Running(r, s) {
          assert Listed(r, s) && s in names;
          var i :| 0 <= i < |names| && names[i] == s;
          assert Trim(names[i]) == s;
        }
      }
    }
  }

  /** Then all three tables are empty, threads included. */
  lemma ShutdownClears(r: Reg, n: nat, names: seq<Name>)
    requires Inv(r, n) && Lists(r, names) && ThreadsInside(r)
    requires (forall s | Running(r, s) :: Trim(s) == s) && CpuKey([], 0) !in r.percpu
    ensures var r' := StopAll(r, n, names); r'.runtimes == map[] && r'.percpu == map[] && r'.threads == map[]
  {
    ShutdownEmptiesIff(r, n, names);
    StopAllMeans(r, n, names);
    var r' := StopAll(r, n, names);
    hide Trim, StopAll, CpuKey;
    NothingRuns(r', n);
    forall s ensures s !in r'.threads {
      if s in r.threads {
        assert Running(r, s) && Listed(r, s) && s in names;
        var i :| 0 <= i < |names| && names[i] == s;
        assert Trim(names[i]) == s && Trimmed(names, s);
      }
    }
  }

  const A: Name := [97]
  const A_LUA: Name := [97, 46] + LUA
  const XLUA: Name := [120] + LUA
  const AXLUA: Name := [97, 120] + LUA
  const A_LUAXLUA: Name := [97, 46] + LUA + XLUA

  /** A name that shutting down misses: "a.luaxlua" runs as "axlua", which is then trimmed to "a". */
  lemma ShutdownMisses(n: nat)
    requires n >= 1
    ensures var r := Run(EMPTY, n, A_LUAXLUA, false, NoFailure).0;
            Lists(r, [AXLUA]) && Running(StopAll(r, n, [AXLUA]), AXLUA)
  {
    TrimTwice();
    EmptyInv(n);
    RunKeepsInvIff(EMPTY, n, A_LUAXLUA, false, NoFailure);
    var r := Run(EMPTY, n, A_LUAXLUA, false, NoFailure).0;
    hide Trim, CpuKey, StopAll;
    assert r.runtimes.Keys == {AXLUA} && r.percpu == map[];
    StopAllMeans(r, n, [AXLUA]);
    assert |A| != |AXLUA|;
  }

  lemma TrimTwice()
    ensures Trim(A_LUAXLUA) == AXLUA && Trim(AXLUA) == A
  {
    var s := A_LUAXLUA;
    assert Word(s) == 1 && MatchesWith(s, 1) && s[..1] == A && s[5..] == XLUA;
    assert Trim(XLUA) == XLUA by { NoMatch(XLUA); }
    TrimOnce();
  }

  lemma TrimOnce()
    ensures Trim(AXLUA) == A
  {
    var t := AXLUA;
    assert Word(t) == 5 by { hide Trim; assert Word(t[3..]) == 2; assert Word(t[1..]) == 4; }
    assert Capture(t, 5) == 1 by {
      hide Trim, Word;
      assert MatchesWith(t, 1);
      assert Capture(t, 2) == 1;
      assert Capture(t, 4) == 1;
    }
    assert t[5..] == [] && t[..1] == A;
  }

  /** Five characters are the least the pattern can match. */
  lemma {:induction false} NoMatch(s: Name)
    requires |s| <= 4
    ensures Trim(s) == s
    decreases |s|
  {
    if s == [] {
    } else {
      assert Capture(s, Word(s)) == 0;
      NoMatch(s[1..]);
      assert s == [s[0]] + s[1..];
    }
  }

  lemma EmptyNameTwice(r: Reg, n: nat)
    requires Inv(r, n) && CpuKey([], 0) in r.percpu
    ensures [] !in r.runtimes
  {
    hide CpuKey, Booked, Whole;
  }

  // ---- threads ----

  ghost predicate ThreadsInside(r: Reg) {
    forall s | s in r.threads :: s in r.runtimes
  }

  /** A spawn keeps every thread under the name of a runtime if and only if its name needs no trimming or
      is a running name already: the thread is registered under the name as given. */
  lemma SpawnThreadsIff(r: Reg, n: nat, script: Name, f: Failure, threadRuns: bool)
    requires ThreadsInside(r) && Spawn(r, n, script, false, f, threadRuns).1 == Done
    ensures ThreadsInside(Spawn(r, n, script, false, f, threadRuns).0) <==> Trim(script) == script || script in r.runtimes
  {
    hide Trim, CpuKey;
    var r' := Spawn(r, n, script, false, f, threadRuns).0;
    assert script in r'.threads;
  }

  lemma StopKeepsThreads(r: Reg, n: nat, script: Name)
    requires Inv(r, n) && ThreadsInside(r)
    ensures ThreadsInside(Stop(r, n, script))
  {
    StopMeans(r, n, script);
  }

  lemma TrimALua()
    ensures Trim(A_LUA) == A
  {
    var s := A_LUA;
    assert s[0] == 97 && s[1..][0] == 46 && s[2..5] == LUA && s[..1] == A && s[5..] == [];
    assert Word(s[1..]) == 0 && Word(s) == 1;
    assert MatchesWith(s, 1) && Capture(s, 1) == 1;
  }

  /** After spawning "a.lua" its thread is under a name that no runtime has, and stopping leaves it there. */
  lemma SpawnedUntrimmed(n: nat)
    requires n >= 1
    ensures var r := Spawn(EMPTY, n, A_LUA, false, NoFailure, true).0;
            !ThreadsInside(r) && A in r.runtimes && A_LUA in Stop(r, n, A_LUA).threads
  {
    TrimALua();
    var r := Spawn(EMPTY, n, A_LUA, false, NoFailure, true).0;
    EmptyInv(n);
    RunKeepsInvIff(EMPTY, n, A_LUA, false, NoFailure);
    hide Trim, StoppedCpus, CpuKey;
    assert A_LUA in r.threads && A_LUA !in r.runtimes by { assert |A| != |A_LUA|; }
    SpawnedBooked(EMPTY, n, A_LUA);
    StopShrinks(r, n, A_LUA);
    assert |A| != |A_LUA|;
  }

  lemma SpawnedBooked(r: Reg, n: nat, script: Name)
    requires Inv(Run(r, n, script, false, NoFailure).0, n) && Run(r, n, script, false, NoFailure).1 == Done
    ensures Inv(Spawn(r, n, script, false, NoFailure, true).0, n)
  {
    hide Run;
    ThreadsDoNotMatter(Run(r, n, script, false, NoFailure).0, Spawn(r, n, script, false, NoFailure, true).0, n);
  }

  lemma ThreadsDoNotMatter(r: Reg, r': Reg, n: nat)
    requires Inv(r, n) && r' == r.(threads := r'.threads)
    ensures Inv(r', n)
  {
    forall id | id in r'.place ensures PlaceHolds(r', id) { assert PlaceHolds(r, id); }
    SameTables(r, r', n);
  }

  lemma EmptyInv(n: nat)
    requires n >= 1
    ensures Inv(EMPTY, n) && ThreadsInside(EMPTY)
  {
    forall s ensures AllOrNone(EMPTY, n, s) { assert Absent(EMPTY, n, s); }
  }

  // ---- every run ----

  datatype Op =
    | RunOp(script: Name, ispercpu: bool, f: Failure)
    | SpawnOp(script: Name, ispercpu: bool, f: Failure, threadRuns: bool)
    | StopOp(script: Name)
    | ShutdownOp(names: seq<Name>)

  function Do(r: Reg, n: nat, op: Op): Reg {
    match op
    case RunOp(script, ispercpu, f) => Run(r, n, script, ispercpu, f).0
    case SpawnOp(script, ispercpu, f, threadRuns) => Spawn(r, n, script, ispercpu, f, threadRuns).0
    case StopOp(script) => Stop(r, n, script)
    case ShutdownOp(names) => StopAll(r, n, names)
  }

  /** Any operation may come next; a shutdown stops the names it lists. No table write fails for a CPU after the first. */
  ghost predicate Allowed(r: Reg, n: nat, op: Op) {
    && (op.ShutdownOp? ==> Lists(r, op.names))
    && (op.RunOp? ==> !LateWrite(r, n, op.script, op.ispercpu, op.f))
  }

  ghost predicate Linked(n: nat, states: seq<Reg>, ops: seq<Op>, i: nat)
    requires i < |ops| && |states| == |ops| + 1
  {
    Allowed(states[i], n, ops[i]) && states[i + 1] == Do(states[i], n, ops[i])
  }

  ghost predicate Runs(n: nat, states: seq<Reg>, ops: seq<Op>) {
    && n >= 1 && |states| == |ops| + 1 && states[0] == EMPTY
    && forall i {:trigger ops[i]} | 0 <= i < |ops| :: Linked(n, states, ops, i)
  }

  lemma DoKeepsInv(r: Reg, n: nat, op: Op)
    requires Inv(r, n) && Allowed(r, n, op)
    ensures Inv(Do(r, n, op), n)
    ensures ThreadsInside(r) && (op.SpawnOp? ==> Trim(op.script) == op.script) ==> ThreadsInside(Do(r, n, op))
  {
    match op
    case RunOp(script, ispercpu, f) =>
      RunKeepsInvIff(r, n, script, ispercpu, f);
      RunGrows(r, n, script, ispercpu, f);
    case SpawnOp(script, ispercpu, f, threadRuns) =>
      SpawnKeepsInv(r, n, script, ispercpu, f, threadRuns);
    case StopOp(script) =>
      StopMeans(r, n, script);
    case ShutdownOp(names) =>
      StopAllKeeps(r, n, names);
  }

  lemma RunGrows(r: Reg, n: nat, script: Name, ispercpu: bool, f: Failure)
    requires Inv(r, n)
    ensures var r' := Run(r, n, script, ispercpu, f).0;
            r'.threads == r.threads && forall s | s in r.runtimes :: s in r'.runtimes
  {
    RunKeepsInvIff(r, n, script, ispercpu, f);
    hide Trim, CpuKey;
    var s := Trim(script);
    assert AllOrNone(r, n, s);
    RunningIff(r, n, s);
    if ispercpu && !Running(r, s) && !(f.CreateFails? && f.cpu < n) { PercpuRunMeans(r, n, s, f); }
  }

  lemma SpawnKeepsInv(r: Reg, n: nat, script: Name, ispercpu: bool, f: Failure, threadRuns: bool)
    requires Inv(r, n)
    ensures var r' := Spawn(r, n, script, ispercpu, f, threadRuns).0;
            Inv(r', n) && (ThreadsInside(r) && Trim(script) == script ==> ThreadsInside(r'))
  {
    if !ispercpu {
      RunKeepsInvIff(r, n, script, false, f);
      RunGrows(r, n, script, false, f);
      var r', r'' := Run(r, n, script, false, f).0, Spawn(r, n, script, false, f, threadRuns).0;
      if Run(r, n, script, false, f).1 == Done && threadRuns {
        if ThreadsInside(r) { SpawnThreadsIff(r, n, script, f, threadRuns); }
        hide Run, Trim;
        ThreadsDoNotMatter(r', r'', n);
      }
    }
  }

  lemma {:induction false} StopAllKeeps(r: Reg, n: nat, names: seq<Name>)
    requires Inv(r, n)
    ensures Inv(StopAll(r, n, names), n) && (ThreadsInside(r) ==> ThreadsInside(StopAll(r, n, names)))
    decreases |names|
  {
    hide Inv;
    if names == [] {
    } else {
      var front := names[..|names| - 1];
      StopAllKeeps(r, n, front);
      StopMeans(StopAll(r, n, front), n, names[|names| - 1]);
      if ThreadsInside(r) { StopKeepsThreads(StopAll(r, n, front), n, names[|names| - 1]); }
    }
  }

  /** After every operation of every run: each script has all its CPU instances or none, none is in both
      registries, every runtime ever created is accounted for, and, when the names spawned need no trimming,
      every thread's script is running. */
  lemma {:induction false} EveryRun(n: nat, states: seq<Reg>, ops: seq<Op>, i: nat)
    requires Runs(n, states, ops) && i < |states|
    ensures Inv(states[i], n)
    ensures (forall j | 0 <= j < |ops| && ops[j].SpawnOp? :: Trim(ops[j].script) == ops[j].script)
            ==> ThreadsInside(states[i])
    decreases i
  {
    if i == 0 {
      EmptyInv(n);
    } else {
      EveryRun(n, states, ops, i - 1);
      var op := ops[i - 1];
      assert Linked(n, states, ops, i - 1);
      DoKeepsInv(states[i - 1], n, op);
    }
  }
}
