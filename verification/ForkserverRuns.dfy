/** The forkserver's iterations: what the host sees of each, whichever process gets to the
    RELEASE, for every stream of payloads and both values of allow_persistent. */
module ForkserverRuns {
  import opened NyxApi
  import opened WaitStatus
  import opened Machine
  import opened Agents
  import opened Simulation
  import opened Campaign

  /** The child's own exit handler reaches the host. */
  predicate ChildReleases(allow: bool, cpu: CpuType, f: Fate) {
    f.Exited? && f.ranAtexit && !allow && cpu.V1?
  }

  /** What the parent reports once waitpid() has returned. */
  function Reports<P, O>(f: Fate): seq<Event<P, O>> {
    match f
    case Killed(s, _) => if s == SIGVTALRM then [Hc(Printf)] else [Hc(Panic)]
    case Exited(c, _) => if c % 256 == ASAN_EXIT_CODE then [Hc(Kasan)] else []
    case StoppedBy(_) => []
  }

  /** The events between the acquisition and the RELEASE, inclusive. */
  function Iteration<P, O>(allow: bool, cpu: CpuType, p: P, o: O, f: Fate): seq<Event<P, O>> {
    [Ran(p, o)] + (if ChildReleases(allow, cpu, f) then [] else Reports(f)) + [Hc(Release)]
  }

  /** The sanitizer's exit code, of a child that has not released itself. */
  predicate ParentSeesAsan(allow: bool, cpu: CpuType, f: Fate) {
    f.Exited? && f.code % 256 == ASAN_EXIT_CODE && !ChildReleases(allow, cpu, f)
  }

  /** A signal other than the timer's. */
  predicate Crash(f: Fate) {
    f.Killed? && f.signal != SIGVTALRM
  }

  /** How many events are of a kind. */
  function Tally<P, O>(t: seq<Event<P, O>>, kind: Event<P, O> -> bool): nat {
    if t == [] then 0 else (if kind(t[0]) then 1 else 0) + Tally(t[1..], kind)
  }

  function Is<P, O>(h: Hypercall): Event<P, O> -> bool {
    (e: Event<P, O>) => e.Hc? && e.call == h
  }

  function IsRun<P, O>(): Event<P, O> -> bool {
    (e: Event<P, O>) => e.Ran?
  }

  function Crashes<G, P, O>(env: Env<G, P, O>): Event<P, O> -> bool {
    (e: Event<P, O>) => e.Ran? && Crash(env.fate(e.outcome))
  }

  function ExitsAsan<G, P, O>(allow: bool, env: Env<G, P, O>): Event<P, O> -> bool {
    (e: Event<P, O>) => e.Ran? && ParentSeesAsan(allow, env.cpu, env.fate(e.outcome))
  }

  /** As many RELEASEs as runs and some more, one PANIC for each run that crashes, and one KASAN for
      each run whose sanitizer's exit code the parent sees. */
  ghost predicate Balanced<G, P, O>(allow: bool, env: Env<G, P, O>, t: seq<Event<P, O>>, more: nat) {
    && Tally(t, Is(Release)) == Tally(t, IsRun()) + more
    && Tally(t, Is(Panic)) == Tally(t, Crashes(env))
    && Tally(t, Is(Kasan)) == Tally(t, ExitsAsan(allow, env))
  }

  lemma {:induction false} TallyConcat<P, O>(s: seq<Event<P, O>>, t: seq<Event<P, O>>, kind: Event<P, O> -> bool)
    ensures Tally(s + t, kind) == Tally(s, kind) + Tally(t, kind)
  {
    if s == [] {
      assert s + t == t;
    } else {
      assert (s + t)[1..] == s[1..] + t;
      TallyConcat(s[1..], t, kind);
    }
  }

  lemma TallyOne<P, O>(e: Event<P, O>, kind: Event<P, O> -> bool)
    ensures Tally([e], kind) == if kind(e) then 1 else 0
  {
    assert [e][1..] == [];
  }

  lemma BalancedConcat<G, P, O>(
    allow: bool, env: Env<G, P, O>, s: seq<Event<P, O>>, i: nat, t: seq<Event<P, O>>, j: nat)
    requires Balanced(allow, env, s, i) && Balanced(allow, env, t, j)
    ensures Balanced(allow, env, s + t, i + j)
  {
    TallyConcat(s, t, Is(Release));
    TallyConcat(s, t, IsRun());
    TallyConcat(s, t, Is(Panic));
    TallyConcat(s, t, Crashes(env));
    TallyConcat(s, t, Is(Kasan));
    TallyConcat(s, t, ExitsAsan(allow, env));
  }

  /** An event that is neither a run nor a report. */
  lemma BalancedOne<G, P, O>(allow: bool, env: Env<G, P, O>, e: Event<P, O>)
    requires !e.Ran? && e != Hc(Panic) && e != Hc(Kasan)
    ensures Balanced(allow, env, [e], if e == Hc(Release) then 1 else 0)
  {
    assert [e][1..] == [];
  }

  /** One RELEASE per iteration and it comes last; PANIC iff the parent sees the child killed by a
      signal other than the timer's, KASAN iff it sees the sanitizer's exit code. A child that
      has released on its own account is reported by no one. */
  lemma IterationReports<P, O>(allow: bool, cpu: CpuType, p: P, o: O, f: Fate)
    ensures var t := Iteration<P, O>(allow, cpu, p, o, f);
            && Tally(t, Is(Release)) == 1 && t[|t|-1] == Hc(Release) && t[0] == Ran(p, o)
            && (Hc(Panic) in t <==> f.Killed? && f.signal != 26)
            && (Hc(Kasan) in t <==>
                  f.Exited? && f.code % 256 == 101 && !(f.ranAtexit && !allow && cpu == V1))
  {
    var t := Iteration<P, O>(allow, cpu, p, o, f);
    IterationTally(allow, cpu, p, o, f, Is(Release));
  }

  lemma IterationTally<P, O>(allow: bool, cpu: CpuType, p: P, o: O, f: Fate, kind: Event<P, O> -> bool)
    ensures var report := if ChildReleases(allow, cpu, f) then [] else Reports<P, O>(f);
            Tally(Iteration(allow, cpu, p, o, f), kind) ==
            (if kind(Ran(p, o)) then 1 else 0) +
            (if report != [] && kind(report[0]) then 1 else 0) + (if kind(Hc(Release)) then 1 else 0)
  {
    var report := if ChildReleases(allow, cpu, f) then [] else Reports<P, O>(f);
    TallyConcat([Ran(p, o)] + report, [Hc(Release)], kind);
    TallyConcat([Ran(p, o)], report, kind);
    TallyOne(Ran(p, o), kind);
    TallyOne(Hc(Release), kind);
    if report != [] {
      assert report == [report[0]];
      TallyOne(report[0], kind);
    }
  }

  lemma IterationIsBalanced<G, P, O>(allow: bool, env: Env<G, P, O>, p: P, o: O)
    ensures Balanced(allow, env, Iteration(allow, env.cpu, p, o, env.fate(o)), 0)
  {
    var f := env.fate(o);
    hide Tally;
    IterationTally(allow, env.cpu, p, o, f, Is(Release));
    IterationTally(allow, env.cpu, p, o, f, IsRun());
    IterationTally(allow, env.cpu, p, o, f, Is(Panic));
    IterationTally(allow, env.cpu, p, o, f, Crashes(env));
    IterationTally(allow, env.cpu, p, o, f, Is(Kasan));
    IterationTally(allow, env.cpu, p, o, f, ExitsAsan(allow, env));
  }

  /** The whole trace, from a prefix that ends with an acquisition of ps[0]. The choices of
      sites 4 and 5 say whether the child can pass its payload on. */
  function Iterations<G, P, O>(allow: bool, env: Env<G, P, O>, m: G, t: seq<Event<P, O>>, ps: seq<P>): seq<Event<P, O>>
    requires ps != []
    decreases |ps|
  {
    if !env.choose(4, |t|) || !env.choose(5, |t|) then t + [Hc(Printf)] + [Hc(UserAbort)]
    else
      var (m', o) := env.target(m, ps[0]);
      var u := t + Iteration(allow, env.cpu, ps[0], o, env.fate(o));
      if |ps| == 1 then u
      else if allow && env.persistent then Iterations(allow, env, m', u + [Hc(FastAcquire)], ps[1..])
      else Iterations(allow, env, m, u + [Resume], ps[1..])
  }

  /** The payload always gets through to the child. */
  ghost predicate GetsThrough<G, P, O>(env: Env<G, P, O>) {
    forall n: nat :: env.choose(4, n) && env.choose(5, n)
  }

  /** The runs of all these payloads: with persistence, each on the memory that the one before it
      left; without, each on the same. */
  function RunsOf<G, P, O>(allow: bool, env: Env<G, P, O>, m: G, ps: seq<P>): (runs: seq<(P, O)>)
    ensures |runs| == |ps|
  {
    if allow && env.persistent then Chained(env.target, m, ps) else Fresh(env.target, m, ps)
  }

  /** The iterations show these runs, in order: all of them, unless a payload fails to get through;
      and, whether it does or not, exactly the reports that the runs call for. */
  lemma {:induction false} IterationsShow<G, P, O>(
    allow: bool, env: Env<G, P, O>, m: G, t: seq<Event<P, O>>, ps: seq<P>, more: nat) returns (k: nat)
    requires ps != [] && Balanced(allow, env, t, more)
    ensures k <= |ps| && (GetsThrough(env) ==> k == |ps|)
    ensures var u := Iterations(allow, env, m, t, ps);
            Outcomes(u) == Outcomes(t) + RunsOf(allow, env, m, ps)[..k] && Balanced(allow, env, u, more)
    decreases |ps|
  {
    hide Outcomes, Iteration, Balanced, Chained, Fresh;
    if !env.choose(4, |t|) || !env.choose(5, |t|) {
      k := 0;
      Silent(allow, env, t, Hc(Printf), more);
      Silent(allow, env, t + [Hc(Printf)], Hc(UserAbort), more);
      assert Outcomes(t) + [] == Outcomes(t);
    } else {
      var (m', o) := env.target(m, ps[0]);
      var u, rest := t + Iteration(allow, env.cpu, ps[0], o, env.fate(o)), ps[1..];
      IterationShows(allow, env, t, ps[0], o, more);
      RunsOfStep(allow, env, m, ps);
      k := 0;
      if |ps| > 1 {
        var e := if allow && env.persistent then Hc(FastAcquire) else Resume;
        Silent(allow, env, u, e, more);
        k := IterationsShow(allow, env, if allow && env.persistent then m' else m, u + [e], rest, more);
      }
      k := k + 1;
      var runs := RunsOf(allow, env, m, ps);
      assert runs[..k] == [(ps[0], o)] + runs[1..][..k - 1];
    }
  }

  lemma RunsOfStep<G, P, O>(allow: bool, env: Env<G, P, O>, m: G, ps: seq<P>)
    requires ps != []
    ensures var (m', o) := env.target(m, ps[0]); var runs := RunsOf(allow, env, m, ps);
            && |runs| == |ps| && runs[0] == (ps[0], o)
            && runs[1..] == RunsOf(allow, env, if allow && env.persistent then m' else m, ps[1..])
  {
    ChainedStep(env.target, m, ps);
    FreshStep(env.target, m, ps);
  }

  /** An event between iterations. */
  lemma Silent<G, P, O>(allow: bool, env: Env<G, P, O>, t: seq<Event<P, O>>, e: Event<P, O>, more: nat)
    requires Balanced(allow, env, t, more) && !e.Ran? && e !in {Hc(Release), Hc(Panic), Hc(Kasan)}
    ensures Balanced(allow, env, t + [e], more) && Outcomes(t + [e]) == Outcomes(t)
  {
    hide Balanced;
    BalancedOne(allow, env, e);
    BalancedConcat(allow, env, t, more, [e], 0);
    OutcomesConcat(t, [e]);
    assert [e][1..] == [] && Outcomes([e]) == [];
    assert Outcomes(t) + [] == Outcomes(t);
  }

  lemma IterationShows<G, P, O>(allow: bool, env: Env<G, P, O>, t: seq<Event<P, O>>, p: P, o: O, more: nat)
    requires Balanced(allow, env, t, more)
    ensures var u := t + Iteration(allow, env.cpu, p, o, env.fate(o));
            Balanced(allow, env, u, more) && Outcomes(u) == Outcomes(t) + [(p, o)]
  {
    hide Balanced;
    var i := Iteration(allow, env.cpu, p, o, env.fate(o));
    IterationIsBalanced(allow, env, p, o);
    BalancedConcat(allow, env, t, more, i, 0);
    OutcomesConcat(t, i);
    assert Outcomes(i) == [(p, o)] + Outcomes(i[1..]);
    NoRunsNoOutcomes(i[1..]);
  }

  // ---------------------------------------------------------------- the machine's steps

  /** Behind an acquisition: in the child, with a snapshot taken at that point. */
  ghost predicate InChild<G, P, O>(allow: bool, env: Env<G, P, O>, vm: Vm<G, P, O>) {
    && vm.status.Running? && vm.guest.pc == 33 && vm.guest.cpu == env.cpu
    && vm.agent.Some? && vm.agent.value.nonReload == allow
    && vm.snap.Some? && vm.snap.value.pc == 33 && vm.snap.value.cpu == env.cpu
  }

  lemma PrintAndAbort<G, P, O>(p: Program, env: Env<G, P, O>, vm: Vm<G, P, O>)
    requires vm.status.Running? && p(vm.guest.pc) == Call(Printf) && p(vm.guest.pc + 1) == Call(UserAbort)
    ensures var v := Run(p, env, vm, 2);
            v.status.Aborted? && v.trace == vm.trace + [Hc(Printf)] + [Hc(UserAbort)]
  {
    hide Run, Step;
    Runs(p, env, vm);
    StepPlain(p, env, vm, Printf);
    StepAbort(p, env, Record(vm, Hc(Printf)));
  }

  lemma PassPayload<G, P, O>(allow: bool, env: Env<G, P, O>, vm: Vm<G, P, O>) returns (n: nat)
    requires InChild(allow, env, vm)
    ensures var v, t := Run(ForkserverProgram(allow), env, vm, n), vm.trace;
            if env.choose(4, |t|) && env.choose(5, |t|) then v == Goto(vm, 39)
            else v.status.Aborted? && v.trace == t + [Hc(Printf)] + [Hc(UserAbort)]
  {
    hide Run, Step;
    var p := ForkserverProgram(allow);
    Runs(p, env, vm);
    StepIf(p, env, vm, Site(4), 36);
    if !env.choose(4, |vm.trace|) {
      n := 3;
      PrintAndAbort(p, env, Goto(vm, 34));
      RunSplit(p, env, vm, 1, 2);
    } else {
      StepIf(p, env, Goto(vm, 36), Site(5), 39);
      n := 2;
      if !env.choose(5, |vm.trace|) {
        n := 4;
        PrintAndAbort(p, env, Goto(vm, 37));
        RunSplit(p, env, vm, 2, 2);
      }
    }
  }

  /** The target's run, and the child's end as far as the parent or the host can see it. */
  lemma ChildRuns<G, P, O>(allow: bool, env: Env<G, P, O>, vm: Vm<G, P, O>) returns (n: nat, v: Vm<G, P, O>)
    requires vm.status.Running? && vm.guest.pc == 39 && vm.guest.cpu == env.cpu
    ensures v == Run(ForkserverProgram(allow), env, vm, n)
    ensures var (m, o) := env.target(vm.guest.mem, vm.buffer);
            var pc := if ChildReleases(allow, env.cpu, env.fate(o)) then 41 else 42;
            v == vm.(guest := vm.guest.(pc := pc, mem := m, last := Some(o)), trace := vm.trace + [Ran(vm.buffer, o)])
  {
    hide Run, Step;
    var p := ForkserverProgram(allow);
    Runs(p, env, vm);
    StepRunTarget(p, env, vm);
    var v1 := Step(p, env, vm);
    StepUnless(p, env, v1, AtexitRan, 42);
    var f := env.fate(env.target(vm.guest.mem, vm.buffer).1);
    assert Holds(env, v1, AtexitRan) <==> f.Exited? && f.ranAtexit;
    n, v := 2, Step(p, env, v1);
    if v.guest.pc == 41 && !ChildReleases(allow, env.cpu, f) {
      if allow { StepJump(p, env, v, 42); } else { StepRelease(p, env, v); }
      n, v := 3, Step(p, env, v);
    }
  }

  lemma ReportKilled<G, P, O>(allow: bool, env: Env<G, P, O>, vm: Vm<G, P, O>) returns (v: Vm<G, P, O>)
    requires vm.status.Running? && vm.guest.pc == 43 && vm.guest.last.Some? && env.fate(vm.guest.last.value).Killed?
    ensures v == Run(ForkserverProgram(allow), env, vm, 3)
    ensures v == Goto(vm, 50).(trace := vm.trace + Reports(env.fate(vm.guest.last.value)))
  {
    hide Run, Step, Holds;
    var p, f := ForkserverProgram(allow), env.fate(vm.guest.last.value);
    Runs(p, env, vm);
    ParentTests(env, vm);
    StepIf(p, env, vm, TermSigIs(SIGVTALRM), 46);
    var timeout := f.signal == SIGVTALRM;
    var v1, h := Goto(vm, if timeout then 46 else 44), if timeout then Printf else Panic;
    StepPlain(p, env, v1, h);
    v := Goto(Record(v1, Hc(h)), 50);
    StepJump(p, env, Record(v1, Hc(h)), 50);
  }

  lemma ReportExited<G, P, O>(allow: bool, env: Env<G, P, O>, vm: Vm<G, P, O>) returns (n: nat, v: Vm<G, P, O>)
    requires vm.status.Running? && vm.guest.pc == 48 && vm.guest.last.Some? && !env.fate(vm.guest.last.value).Killed?
    ensures v == Run(ForkserverProgram(allow), env, vm, n)
    ensures v == Goto(vm, 50).(trace := vm.trace + Reports(env.fate(vm.guest.last.value)))
  {
    hide Run, Step, Holds;
    var p, f := ForkserverProgram(allow), env.fate(vm.guest.last.value);
    Runs(p, env, vm);
    ParentTests(env, vm);
    StepUnless(p, env, vm, ExitStatusIs(ASAN_EXIT_CODE), 50);
    if f.Exited? && f.code % 256 == ASAN_EXIT_CODE {
      StepPlain(p, env, Goto(vm, 49), Kasan);
      n, v := 2, Record(Goto(vm, 49), Hc(Kasan));
    } else {
      n, v := 1, Goto(vm, 50);
      assert vm.trace + Reports(f) == vm.trace;
    }
  }

  lemma ParentReports<G, P, O>(allow: bool, env: Env<G, P, O>, vm: Vm<G, P, O>) returns (n: nat, v: Vm<G, P, O>)
    requires vm.status.Running? && vm.guest.pc == 42 && vm.guest.last.Some?
    ensures v == Run(ForkserverProgram(allow), env, vm, n)
    ensures v == Goto(vm, 50).(trace := vm.trace + Reports(env.fate(vm.guest.last.value)))
  {
    hide Run, Step, Holds;
    var p := ForkserverProgram(allow);
    Runs(p, env, vm);
    ParentTests(env, vm);
    StepUnless(p, env, vm, Signaled, 48);
    if env.fate(vm.guest.last.value).Killed? {
      v := ReportKilled(allow, env, Goto(vm, 43));
      n := 4;
      RunSplit(p, env, vm, 1, 3);
    } else {
      n, v := ReportExited(allow, env, Goto(vm, 48));
      RunSplit(p, env, vm, 1, n);
      n := 1 + n;
    }
  }

  /** The parent's tests on the status word, in terms of what became of the child. */
  lemma ParentTests<G, P, O>(env: Env<G, P, O>, vm: Vm<G, P, O>)
    requires vm.guest.last.Some?
    ensures var f := env.fate(vm.guest.last.value);
            && (Holds(env, vm, Signaled) <==> f.Killed?)
            && (f.Killed? ==> (Holds(env, vm, TermSigIs(SIGVTALRM)) <==> f.signal == SIGVTALRM))
            && (!f.Killed? ==>
                  (Holds(env, vm, ExitStatusIs(ASAN_EXIT_CODE)) <==> f.Exited? && f.code % 256 == ASAN_EXIT_CODE))
  {
    Decode(env.fate(vm.guest.last.value));
  }

  /** One full iteration up to the point where the host decides how to go on: control stands
      at the only RELEASE that will take effect, in the child or in the parent. */
  lemma IterationToRelease<G, P, O>(allow: bool, env: Env<G, P, O>, vm: Vm<G, P, O>) returns (n: nat, v: Vm<G, P, O>)
    requires InChild(allow, env, vm) && env.choose(4, |vm.trace|) && env.choose(5, |vm.trace|)
    ensures v == Run(ForkserverProgram(allow), env, vm, n)
    ensures v.status.Running? && v.agent == vm.agent && v.snap == vm.snap && v.pending == vm.pending
            && v.guest.cpu == env.cpu
    ensures var (m, o) := env.target(vm.guest.mem, vm.buffer); var f := env.fate(o);
            && v.guest.mem == m
            && v.guest.pc == (if ChildReleases(allow, env.cpu, f) then 41 else 50)
            && v.trace + [Hc(Release)] == vm.trace + Iteration(allow, env.cpu, vm.buffer, o, f)
  {
    hide Run, Step;
    var p := ForkserverProgram(allow);
    var n1 := PassPayload(allow, env, vm);
    var n2, v2 := ChildRuns(allow, env, Goto(vm, 39));
    RunSplit(p, env, vm, n1, n2);
    n, v := n1 + n2, v2;
    if v2.guest.pc == 42 {
      var n3, v3 := ParentReports(allow, env, v2);
      RunSplit(p, env, vm, n1 + n2, n3);
      n, v := n1 + n2 + n3, v3;
    }
  }

  /** The RELEASE itself: the snapshot comes back, or the parent forks again. */
  lemma ReleaseAndGoOn<G, P, O>(allow: bool, env: Env<G, P, O>, vm: Vm<G, P, O>) returns (n: nat, v: Vm<G, P, O>)
    requires vm.status.Running? && (vm.guest.pc == 50 || (vm.guest.pc == 41 && !allow && env.cpu.V1?))
             && vm.guest.cpu == env.cpu
    requires vm.agent.Some? && vm.agent.value.nonReload == allow && vm.snap.Some? && vm.snap.value.pc == 33
             && vm.snap.value.cpu == env.cpu
    ensures v == Run(ForkserverProgram(allow), env, vm, n)
    ensures vm.pending == [] ==> v.status.Blocked? && v.trace == vm.trace + [Hc(Release)]
    ensures vm.pending != [] ==>
              && InChild(allow, env, v) && v.snap == vm.snap
              && v.buffer == vm.pending[0] && v.pending == vm.pending[1..]
              && v.guest.mem == (if allow && env.persistent then vm.guest.mem else vm.snap.value.mem)
              && v.trace == vm.trace + [Hc(Release)] + [if allow && env.persistent then Hc(FastAcquire) else Resume]
  {
    hide Run, Step;
    var p := ForkserverProgram(allow);
    Runs(p, env, vm);
    StepRelease(p, env, vm);
    n, v := 1, DoRelease(env, vm);
    if allow && env.persistent {
      StepJump(p, env, v, 32);
      StepDeliver(p, env, Goto(v, 32), FastAcquire);
      n, v := 3, Deliver(Goto(v, 32), FastAcquire);
    }
  }

  /** The forkserver's trace, from its first acquisition to the end of the payloads or to an
      abort, is exactly the sequence of its iterations. */
  lemma {:induction false} ForkserverTrace<G, P, O>(allow: bool, env: Env<G, P, O>, vm: Vm<G, P, O>) returns (n: nat)
    requires InChild(allow, env, vm)
    requires (allow && env.persistent) || vm.snap.value.mem == vm.guest.mem
    ensures var v := Run(ForkserverProgram(allow), env, vm, n);
            !v.status.Running? && v.trace == Iterations(allow, env, vm.guest.mem, vm.trace, [vm.buffer] + vm.pending)
    decreases |vm.pending|
  {
    hide Run, Step;
    var p, ps := ForkserverProgram(allow), [vm.buffer] + vm.pending;
    assert ps[0] == vm.buffer && ps[1..] == vm.pending;
    if !env.choose(4, |vm.trace|) || !env.choose(5, |vm.trace|) {
      n := PassPayload(allow, env, vm);
    } else {
      var n1, v1 := IterationToRelease(allow, env, vm);
      var n2, v2 := ReleaseAndGoOn(allow, env, v1);
      RunSplit(p, env, vm, n1, n2);
      if vm.pending == [] {
        n := n1 + n2;
      } else {
        var n3 := ForkserverTrace(allow, env, v2);
        assert [v2.buffer] + v2.pending == ps[1..];
        RunSplit(p, env, vm, n1 + n2, n3);
        n := n1 + n2 + n3;
      }
    }
  }

  lemma ConfiguredAtFork<G, P, O>(
    allow: bool, env: Env<G, P, O>, mem: G, garbage: HostConfig, buffer: P, payloads: seq<P>, k: nat)
    ensures var v := Run(ForkserverProgram(allow), env, Boot(mem, garbage, buffer, payloads), k);
            v.status.Running? && v.guest.pc == 32 ==>
              v.agent.Some? && v.agent.value.nonReload == allow && v.guest.cpu == env.cpu
  {
    hide Run, Step;
    var p, ann := ForkserverProgram(allow), ForkserverAnnotation(allow);
    var boot := Boot<G, P, O>(mem, garbage, buffer, payloads);
    ForkserverAnnotated(allow);
    assert Inv(ann, Checked(PAYLOAD_MAX, allow), env, boot);
    RunKeepsInv(p, ann, Checked(PAYLOAD_MAX, allow), env, boot, k);
    ForkserverDetects(allow);
    NeverStuck(p, 3, env, boot, k);
  }

  lemma FirstAcquisition<G, P, O>(allow: bool, env: Env<G, P, O>, vm: Vm<G, P, O>) returns (m: nat, child: Vm<G, P, O>)
    requires vm.status.Running? && vm.guest.pc == 32 && vm.snap.None? && vm.pending != []
    requires vm.agent.Some? && vm.agent.value.nonReload == allow && vm.guest.cpu == env.cpu
    ensures var w := Run(ForkserverProgram(allow), env, vm, 1 + m);
            && !w.status.Running?
            && w.trace == Iterations(allow, env, vm.guest.mem, vm.trace + [Hc(FastAcquire)], vm.pending)
  {
    hide Run, Step;
    var p := ForkserverProgram(allow);
    Runs(p, env, vm);
    StepDeliver(p, env, vm, FastAcquire);
    child := Deliver(vm, FastAcquire);
    assert [child.buffer] + child.pending == vm.pending;
    m := ForkserverTrace(allow, env, child);
    RunSplit(p, env, vm, 1, m);
  }

  /** On any run from boot: when the parent first asks for a payload and there is one, the
      rest of the session is the iterations over all of them. */
  lemma ForkserverSession<G, P, O>(
    allow: bool, env: Env<G, P, O>, mem: G, garbage: HostConfig, buffer: P, payloads: seq<P>, k: nat) returns (n: nat)
    requires var v := Run(ForkserverProgram(allow), env, Boot(mem, garbage, buffer, payloads), k);
             v.status.Running? && v.guest.pc == 32 && v.snap.None? && v.pending != []
    ensures var v := Run(ForkserverProgram(allow), env, Boot(mem, garbage, buffer, payloads), k);
            var w := Run(ForkserverProgram(allow), env, Boot(mem, garbage, buffer, payloads), k + n);
            && !w.status.Running?
            && w.trace == Iterations(allow, env, v.guest.mem, v.trace + [Hc(FastAcquire)], v.pending)
  {
    hide Run, Step;
    var p, boot := ForkserverProgram(allow), Boot<G, P, O>(mem, garbage, buffer, payloads);
    var v := Run(p, env, boot, k);
    ConfiguredAtFork(allow, env, mem, garbage, buffer, payloads, k);
    var m, child := FirstAcquisition(allow, env, v);
    n := 1 + m;
    RunSplit(p, env, boot, k, n);
  }

  /** No run of the forkserver, of any length, is caught in a guarded hypercall before it knows the
      CPU type: not before the fork, not in a child, not from a snapshot. */
  lemma ForkserverNeverStuck<G, P, O>(
    allow: bool, env: Env<G, P, O>, mem: G, garbage: HostConfig, buffer: P, payloads: seq<P>, n: nat)
    ensures var v := Run(ForkserverProgram(allow), env, Boot(mem, garbage, buffer, payloads), n);
            && !v.status.Stuck?
            && (v.status.Running? && ForkserverProgram(allow)(v.guest.pc).Guarded? ==> v.guest.cpu == env.cpu)
  {
    hide Run, Step;
    ForkserverDetects(allow);
    NeverStuck(ForkserverProgram(allow), 3, env, Boot<G, P, O>(mem, garbage, buffer, payloads), n);
  }

  // ---------------------------------------------------------------- from boot to the fork loop

  /** The host is compatible, descriptors and the memory map can be opened, some mapping matches,
      and the map ends before `last` events have happened. */
  ghost predicate SetUpWorks<G, P, O>(env: Env<G, P, O>, last: nat) {
    Compatible(env.config, PAYLOAD_MAX) &&
    forall n: nat :: env.choose(0, n) && env.choose(1, n) && env.choose(3, n) && (n >= last ==> !env.choose(2, n))
  }

  ghost predicate SettingUp<G, P, O>(allow: bool, env: Env<G, P, O>, mem: G, ps: seq<P>, vm: Vm<G, P, O>) {
    var pc := vm.guest.pc;
    && vm.status.Running? && pc <= 32 && pc !in {1, 2, 6, 7, 8, 10, 11, 12, 14, 15, 16, 23, 24, 30}
    && vm.snap.None? && vm.pending == ps && vm.guest.mem == mem
    && vm.guest.cpu == (if pc > 3 then env.cpu else Invalid) && (pc > 4 ==> vm.guest.cfg == env.config)
    && NoRuns(vm.trace) && Balanced(allow, env, vm.trace, if pc > 19 then 1 else 0)
  }

  /** A step of the set-up that shows the host something. */
  lemma SetUpEvent<G, P, O>(allow: bool, env: Env<G, P, O>, t: seq<Event<P, O>>, e: Event<P, O>, more: nat)
    requires NoRuns(t) && Balanced(allow, env, t, more) && !e.Ran? && e != Hc(Panic) && e != Hc(Kasan)
    ensures NoRuns(t + [e]) && Balanced(allow, env, t + [e], if e == Hc(Release) then more + 1 else more)
  {
    hide Balanced;
    BalancedOne(allow, env, e);
    BalancedConcat(allow, env, t, more, [e], if e == Hc(Release) then 1 else 0);
  }

  lemma SetUpStep<G, P, O>(allow: bool, env: Env<G, P, O>, mem: G, ps: seq<P>, last: nat, vm: Vm<G, P, O>)
    requires SetUpWorks(env, last) && SettingUp(allow, env, mem, ps, vm) && vm.guest.pc < 25
    ensures var v := Step(ForkserverProgram(allow), env, vm);
            SettingUp(allow, env, mem, ps, v) && vm.guest.pc < v.guest.pc <= 25
  {
    hide Balanced, NoRuns;
    var v := Step(ForkserverProgram(allow), env, vm);
    if v.trace != vm.trace {
      SetUpEvent(allow, env, vm.trace, v.trace[|vm.trace|], if vm.guest.pc > 19 then 1 else 0);
    }
  }

  lemma ForkStep<G, P, O>(allow: bool, env: Env<G, P, O>, mem: G, ps: seq<P>, last: nat, vm: Vm<G, P, O>)
    requires SetUpWorks(env, last) && SettingUp(allow, env, mem, ps, vm) && 29 <= vm.guest.pc < 32
    ensures var v := Step(ForkserverProgram(allow), env, vm);
            SettingUp(allow, env, mem, ps, v) && vm.guest.pc < v.guest.pc
  {
    hide Balanced, NoRuns;
    var v := Step(ForkserverProgram(allow), env, vm);
    if v.trace != vm.trace {
      SetUpEvent(allow, env, vm.trace, v.trace[|vm.trace|], 1);
    }
  }

  /** One line of the map: it is the last, or it is reported. */
  lemma MapStep<G, P, O>(allow: bool, env: Env<G, P, O>, mem: G, ps: seq<P>, last: nat, vm: Vm<G, P, O>)
    requires SetUpWorks(env, last) && SettingUp(allow, env, mem, ps, vm) && 25 <= vm.guest.pc < 29
    ensures var v, pc := Step(ForkserverProgram(allow), env, vm), vm.guest.pc;
            && SettingUp(allow, env, mem, ps, v)
            && (pc == 25 ==> v.trace == vm.trace && v.guest.pc == if env.choose(2, |vm.trace|) then 26 else 29)
            && (pc == 26 ==> |v.trace| > |vm.trace|)
            && (pc > 25 ==> |v.trace| >= |vm.trace| && v.guest.pc == if pc == 28 then 25 else pc + 1)
  {
    hide Balanced, NoRuns;
    var v := Step(ForkserverProgram(allow), env, vm);
    if v.trace != vm.trace {
      SetUpEvent(allow, env, vm.trace, v.trace[|vm.trace|], 1);
    }
  }

  /** One turn of the search that finds a line. */
  lemma MapTurn<G, P, O>(allow: bool, env: Env<G, P, O>, mem: G, ps: seq<P>, last: nat, vm: Vm<G, P, O>)
    requires SetUpWorks(env, last) && SettingUp(allow, env, mem, ps, vm) && vm.guest.pc == 25
             && env.choose(2, |vm.trace|)
    ensures var v := Run(ForkserverProgram(allow), env, vm, 4);
            SettingUp(allow, env, mem, ps, v) && v.guest.pc == 25 && |v.trace| > |vm.trace|
  {
    hide Run, Step, SettingUp, SetUpWorks;
    var p := ForkserverProgram(allow);
    var v1 := Step(p, env, vm);
    var v2 := Step(p, env, v1);
    var v3 := Step(p, env, v2);
    MapStep(allow, env, mem, ps, last, vm);
    MapStep(allow, env, mem, ps, last, v1);
    MapStep(allow, env, mem, ps, last, v2);
    MapStep(allow, env, mem, ps, last, v3);
    Runs(p, env, vm);
  }

  lemma {:induction false} MapEnds<G, P, O>(
    allow: bool, env: Env<G, P, O>, mem: G, ps: seq<P>, last: nat, vm: Vm<G, P, O>) returns (n: nat)
    requires SetUpWorks(env, last) && SettingUp(allow, env, mem, ps, vm) && vm.guest.pc == 25
    ensures var v := Run(ForkserverProgram(allow), env, vm, n); SettingUp(allow, env, mem, ps, v) && v.guest.pc == 29
    decreases last - |vm.trace|
  {
    hide Run, Step, SettingUp;
    if env.choose(2, |vm.trace|) {
      MapTurn(allow, env, mem, ps, last, vm);
      var k := MapEnds(allow, env, mem, ps, last, Run(ForkserverProgram(allow), env, vm, 4));
      RunSplit(ForkserverProgram(allow), env, vm, 4, k);
      n := 4 + k;
    } else {
      MapStep(allow, env, mem, ps, last, vm);
      Runs(ForkserverProgram(allow), env, vm);
      n := 1;
    }
  }

  lemma {:induction false} SetUpReachesMap<G, P, O>(
    allow: bool, env: Env<G, P, O>, mem: G, ps: seq<P>, last: nat, vm: Vm<G, P, O>) returns (n: nat)
    requires SetUpWorks(env, last) && SettingUp(allow, env, mem, ps, vm) && vm.guest.pc <= 25
    ensures var v := Run(ForkserverProgram(allow), env, vm, n); SettingUp(allow, env, mem, ps, v) && v.guest.pc == 25
    decreases 25 - vm.guest.pc
  {
    hide Step, SettingUp, SetUpWorks;
    n := 0;
    if vm.guest.pc < 25 {
      SetUpStep(allow, env, mem, ps, last, vm);
      n := SetUpReachesMap(allow, env, mem, ps, last, Step(ForkserverProgram(allow), env, vm));
      n := n + 1;
    }
  }

  lemma {:induction false} MapReachesFork<G, P, O>(
    allow: bool, env: Env<G, P, O>, mem: G, ps: seq<P>, last: nat, vm: Vm<G, P, O>) returns (n: nat)
    requires SetUpWorks(env, last) && SettingUp(allow, env, mem, ps, vm) && vm.guest.pc >= 29
    ensures var v := Run(ForkserverProgram(allow), env, vm, n); SettingUp(allow, env, mem, ps, v) && v.guest.pc == 32
    decreases 32 - vm.guest.pc
  {
    hide Step, SetUpWorks;
    n := 0;
    if vm.guest.pc < 32 {
      ForkStep(allow, env, mem, ps, last, vm);
      n := MapReachesFork(allow, env, mem, ps, last, Step(ForkserverProgram(allow), env, vm));
      n := n + 1;
    }
  }

  lemma ReachesFork<G, P, O>(
    allow: bool, env: Env<G, P, O>, mem: G, garbage: HostConfig, buffer: P, ps: seq<P>, last: nat) returns (n: nat)
    requires SetUpWorks(env, last)
    ensures var v := Run(ForkserverProgram(allow), env, Boot(mem, garbage, buffer, ps), n);
            SettingUp(allow, env, mem, ps, v) && v.guest.pc == 32
  {
    hide Run, Step, SetUpWorks;
    var p, boot := ForkserverProgram(allow), Boot<G, P, O>(mem, garbage, buffer, ps);
    assert Balanced<G, P, O>(allow, env, [], 0);
    hide Balanced;
    var i := SetUpReachesMap(allow, env, mem, ps, last, boot);
    var j := MapEnds(allow, env, mem, ps, last, Run(p, env, boot, i));
    RunSplit(p, env, boot, i, j);
    var k := MapReachesFork(allow, env, mem, ps, last, Run(p, env, boot, i + j));
    RunSplit(p, env, boot, i + j, k);
    n := i + j + k;
  }

  /** From boot to the end: if nothing fails before the fork, the session of every stream of
      payloads ends, for good, having shown no run of the target but those of its iterations. */
  lemma ForkserverWholeSession<G, P, O>(
    allow: bool, env: Env<G, P, O>, mem: G, garbage: HostConfig, buffer: P, ps: seq<P>, last: nat)
    returns (n: nat, t: seq<Event<P, O>>)
    requires SetUpWorks(env, last)
    ensures NoRuns(t) && Balanced(allow, env, t, 1)
    ensures forall k: nat :: k >= n ==>
              var v := Run(ForkserverProgram(allow), env, Boot(mem, garbage, buffer, ps), k);
              && !v.status.Running?
              && v.trace == if ps == [] then t else Iterations(allow, env, mem, t + [Hc(FastAcquire)], ps)
  {
    hide Run, Step, SetUpWorks, Iterations;
    var p, boot := ForkserverProgram(allow), Boot<G, P, O>(mem, garbage, buffer, ps);
    var i := ReachesFork(allow, env, mem, garbage, buffer, ps, last);
    t := Run(p, env, boot, i).trace;
    var j := 1;
    if ps == [] {
      StepDeliver(p, env, Run(p, env, boot, i), FastAcquire);
      Runs(p, env, Run(p, env, boot, i));
      RunSplit(p, env, boot, i, 1);
    } else {
      j := ForkserverSession(allow, env, mem, garbage, buffer, ps, i);
    }
    n := i + j;
    forall k: nat | k >= n
      ensures Run(p, env, boot, k) == Run(p, env, boot, n)
    {
      RunSplit(p, env, boot, n, k - n);
      RunStopped(p, env, Run(p, env, boot, n), k - n);
    }
  }

  /** What the host has seen in the end: runs of the payloads in order, one RELEASE for each of them
      and one before, a PANIC for each that crashed and a KASAN for each whose sanitizer's exit code
      the parent saw. The runs are all of them, if every payload gets through to its child. */
  lemma ForkserverShows<G, P, O>(
    allow: bool, env: Env<G, P, O>, mem: G, garbage: HostConfig, buffer: P, ps: seq<P>, last: nat)
    returns (n: nat, served: nat)
    requires SetUpWorks(env, last)
    ensures served <= |ps| && (GetsThrough(env) ==> served == |ps|)
    ensures forall k: nat :: k >= n ==>
              var v := Run(ForkserverProgram(allow), env, Boot(mem, garbage, buffer, ps), k);
              && !v.status.Running?
              && Outcomes(v.trace) == RunsOf(allow, env, mem, ps)[..served]
              && Balanced(allow, env, v.trace, 1)
  {
    hide Run, SetUpWorks, Iterations, Outcomes, GetsThrough, Balanced, Chained, Fresh;
    var t;
    n, t := ForkserverWholeSession(allow, env, mem, garbage, buffer, ps, last);
    NoRunsNoOutcomes(t);
    served := 0;
    if ps != [] {
      Silent(allow, env, t, Hc(FastAcquire), 1);
      served := IterationsShow(allow, env, mem, t + [Hc(FastAcquire)], ps, 1);
    }
    assert [] + RunsOf(allow, env, mem, ps)[..served] == RunsOf(allow, env, mem, ps)[..served];
  }

  /** So these sessions do not depend on the host's mode, on any stream of payloads, exactly when
      persistence is not allowed or the target obeys the re-entry rule. */
  lemma ForkserverModesAgreeIff<G, P(!new), O>(
    allow: bool, env: Env<G, P, O>, mem: G, garbage: HostConfig, buffer: P, last: nat)
    requires SetUpWorks(env, last) && GetsThrough(env)
    ensures SessionsAgree(ForkserverProgram(allow), env, mem, garbage, buffer) <==>
            !allow || ResidueFree(env.target, mem)
  {
    hide Run, SetUpWorks, Outcomes, Chained, Fresh, AgreesInTheEnd, ResidueFree, GetsThrough;
    forall ps
      ensures AgreesInTheEnd(ForkserverProgram(allow), env, Boot(mem, garbage, buffer, ps)) <==>
              !allow || Chained(env.target, mem, ps) == Fresh(env.target, mem, ps)
    {
      ForkserverAgreesIff(allow, env, mem, garbage, buffer, ps, last);
    }
    ModesAgreeIffChained(env.target, mem);
  }

  lemma ForkserverAgreesIff<G, P, O>(
    allow: bool, env: Env<G, P, O>, mem: G, garbage: HostConfig, buffer: P, ps: seq<P>, last: nat)
    requires SetUpWorks(env, last) && GetsThrough(env)
    ensures AgreesInTheEnd(ForkserverProgram(allow), env, Boot(mem, garbage, buffer, ps)) <==>
            !allow || Chained(env.target, mem, ps) == Fresh(env.target, mem, ps)
  {
    var persists, reloads := env.(persistent := true), env.(persistent := false);
    assert SetUpWorks(persists, last) && SetUpWorks(reloads, last) && GetsThrough(persists) && GetsThrough(reloads);
    hide Run, SetUpWorks, Outcomes, Chained, Fresh, GetsThrough, Balanced;
    var p, boot := ForkserverProgram(allow), Boot<G, P, O>(mem, garbage, buffer, ps);
    var i, m := ForkserverShows(allow, persists, mem, garbage, buffer, ps, last);
    var j, n := ForkserverShows(allow, reloads, mem, garbage, buffer, ps, last);
    RunsLength(allow, persists, mem, ps);
    RunsLength(allow, reloads, mem, ps);
    if allow {
      AgreeIff(p, env, boot, mem, i, j);
    } else {
      assert AgreeFrom(p, env, boot, if i > j then i else j);
    }
  }

  lemma RunsLength<G, P, O>(allow: bool, env: Env<G, P, O>, m: G, ps: seq<P>)
    ensures RunsOf(allow, env, m, ps)[..|ps|] == RunsOf(allow, env, m, ps)
  {
  }
}
