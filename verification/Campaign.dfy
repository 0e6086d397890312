/** Whole sessions of the agents with a plain round, from boot to the last payload. */
module Campaign {
  import opened NyxApi
  import opened Protocol
  import opened Machine
  import opened Agents
  import opened Simulation

  datatype Shape = Shape(round: nat, config: nat, sent: nat, nonReload: bool, loops: bool, init: Option<nat>)

  /** Where each agent reads and answers the configuration, initializes its target, and starts its round. */
  function ShapeOf(a: Agent): Shape
    requires ReleaseOf(a).Some?
  {
    match a
    case DxeAgent => Shape(21, 7, 18, true, true, None)
    case UefiLibrary => Shape(23, 7, 18, true, true, Some(20))
    case ZephyrAgent => Shape(24, 11, 20, true, true, Some(22))
    case VulnDriver => Shape(31, 8, 17, true, false, None)
    case SelfFuzzer => Shape(27, 6, 16, false, false, None)
  }

  /** The places an agent passes on its way to the first payload if nothing fails. */
  predicate OnPath(a: Agent, pc: nat)
    requires ReleaseOf(a).Some?
  {
    pc <= ShapeOf(a).round &&
    match a
    case DxeAgent => pc !in {9, 10, 15, 16}
    case UefiLibrary => pc !in {9, 10, 15, 16}
    case ZephyrAgent => pc !in {13, 14, 19}
    case VulnDriver => pc !in {1, 2, 10, 11, 16, 19, 26, 27, 28, 29}
    case SelfFuzzer => pc !in {12, 20, 22, 23, 26}
  }

  /** The host is compatible and what the agent needs from outside the model succeeds. */
  ghost predicate Smooth<G, P, O>(a: Agent, env: Env<G, P, O>) {
    match a
    case VulnDriver => Compatible(env.config, PAYLOAD_MAX) && forall k: nat, n: nat :: k <= 2 ==> env.choose(k, n)
    case SelfFuzzer => forall k: nat, n: nat :: env.choose(k, n)
    case _ => Compatible(env.config, PAYLOAD_MAX)
  }

  ghost predicate NoRuns<P, O>(t: seq<Event<P, O>>) {
    forall i :: 0 <= i < |t| ==> !t[i].Ran?
  }

  lemma {:induction false} NoRunsNoOutcomes<P, O>(t: seq<Event<P, O>>)
    requires NoRuns(t)
    ensures Outcomes(t) == []
  {
    if t != [] {
      NoRunsNoOutcomes(t[1..]);
    }
  }

  /** The guest memory that the snapshot holds. */
  function SnapshotMem<G, P, O>(a: Agent, env: Env<G, P, O>, mem: G): G {
    if a in {UefiLibrary, ZephyrAgent} then env.init(mem) else mem
  }

  ghost predicate Booting<G, P, O>(a: Agent, env: Env<G, P, O>, mem: G, payloads: seq<P>, vm: Vm<G, P, O>)
    requires ReleaseOf(a).Some?
  {
    var s, pc := ShapeOf(a), vm.guest.pc;
    && vm.status.Running? && OnPath(a, pc) && vm.snap.None? && vm.pending == payloads && NoRuns(vm.trace)
    && vm.guest.mem == (if s.init.Some? && s.init.value < pc then env.init(mem) else mem)
    && (s.config < pc ==> vm.guest.cfg == env.config)
    && (s.sent < pc ==> vm.agent.Some? && vm.agent.value.nonReload == s.nonReload)
  }

  lemma DxeBootStep<G, P, O>(env: Env<G, P, O>, mem: G, ps: seq<P>, vm: Vm<G, P, O>)
    requires Smooth(DxeAgent, env) && Booting(DxeAgent, env, mem, ps, vm) && vm.guest.pc < 21
    ensures var v := Step(DxeHarness, env, vm); Booting(DxeAgent, env, mem, ps, v) && vm.guest.pc < v.guest.pc
  {
  }

  lemma UefiLibraryBootStep<G, P, O>(env: Env<G, P, O>, mem: G, ps: seq<P>, vm: Vm<G, P, O>)
    requires Smooth(UefiLibrary, env) && Booting(UefiLibrary, env, mem, ps, vm) && vm.guest.pc < 23
    ensures var v := Step(AgentLib, env, vm); Booting(UefiLibrary, env, mem, ps, v) && vm.guest.pc < v.guest.pc
  {
  }

  lemma ZephyrBootStep<G, P, O>(env: Env<G, P, O>, mem: G, ps: seq<P>, vm: Vm<G, P, O>)
    requires Smooth(ZephyrAgent, env) && Booting(ZephyrAgent, env, mem, ps, vm) && vm.guest.pc < 24
    ensures var v := Step(Zephyr, env, vm); Booting(ZephyrAgent, env, mem, ps, v) && vm.guest.pc < v.guest.pc
  {
  }

  lemma VulnDriverFirstSteps<G, P, O>(env: Env<G, P, O>, mem: G, ps: seq<P>, vm: Vm<G, P, O>)
    requires Smooth(VulnDriver, env) && Booting(VulnDriver, env, mem, ps, vm) && vm.guest.pc < 12
    ensures var v := Step(VulnTest, env, vm); Booting(VulnDriver, env, mem, ps, v) && vm.guest.pc < v.guest.pc
  {
  }

  lemma VulnDriverAnswer<G, P, O>(env: Env<G, P, O>, mem: G, ps: seq<P>, vm: Vm<G, P, O>)
    requires Smooth(VulnDriver, env) && Booting(VulnDriver, env, mem, ps, vm) && 12 <= vm.guest.pc < 20
    ensures var v := Step(VulnTest, env, vm); Booting(VulnDriver, env, mem, ps, v) && vm.guest.pc < v.guest.pc
  {
  }

  lemma VulnDriverLastSteps<G, P, O>(env: Env<G, P, O>, mem: G, ps: seq<P>, vm: Vm<G, P, O>)
    requires Smooth(VulnDriver, env) && Booting(VulnDriver, env, mem, ps, vm) && 20 <= vm.guest.pc < 31
    ensures var v := Step(VulnTest, env, vm); Booting(VulnDriver, env, mem, ps, v) && vm.guest.pc < v.guest.pc
  {
  }

  lemma SelfFuzzerFirstSteps<G, P, O>(env: Env<G, P, O>, mem: G, ps: seq<P>, vm: Vm<G, P, O>)
    requires Smooth(SelfFuzzer, env) && Booting(SelfFuzzer, env, mem, ps, vm) && vm.guest.pc < 10
    ensures var v := Step(SelfFuzz, env, vm); Booting(SelfFuzzer, env, mem, ps, v) && vm.guest.pc < v.guest.pc
  {
  }

  lemma SelfFuzzerAnswer<G, P, O>(env: Env<G, P, O>, mem: G, ps: seq<P>, vm: Vm<G, P, O>)
    requires Smooth(SelfFuzzer, env) && Booting(SelfFuzzer, env, mem, ps, vm) && 10 <= vm.guest.pc < 18
    ensures var v := Step(SelfFuzz, env, vm); Booting(SelfFuzzer, env, mem, ps, v) && vm.guest.pc < v.guest.pc
  {
  }

  lemma SelfFuzzerLastSteps<G, P, O>(env: Env<G, P, O>, mem: G, ps: seq<P>, vm: Vm<G, P, O>)
    requires Smooth(SelfFuzzer, env) && Booting(SelfFuzzer, env, mem, ps, vm) && 18 <= vm.guest.pc < 27
    ensures var v := Step(SelfFuzz, env, vm); Booting(SelfFuzzer, env, mem, ps, v) && vm.guest.pc < v.guest.pc
  {
  }

  lemma VulnDriverBootStep<G, P, O>(env: Env<G, P, O>, mem: G, ps: seq<P>, vm: Vm<G, P, O>)
    requires Smooth(VulnDriver, env) && Booting(VulnDriver, env, mem, ps, vm) && vm.guest.pc < 31
    ensures var v := Step(VulnTest, env, vm); Booting(VulnDriver, env, mem, ps, v) && vm.guest.pc < v.guest.pc
  {
    hide Step, Booting, Smooth, VulnTest;
    if vm.guest.pc < 12 {
      VulnDriverFirstSteps(env, mem, ps, vm);
    } else if vm.guest.pc < 20 {
      VulnDriverAnswer(env, mem, ps, vm);
    } else {
      VulnDriverLastSteps(env, mem, ps, vm);
    }
  }

  lemma SelfFuzzerBootStep<G, P, O>(env: Env<G, P, O>, mem: G, ps: seq<P>, vm: Vm<G, P, O>)
    requires Smooth(SelfFuzzer, env) && Booting(SelfFuzzer, env, mem, ps, vm) && vm.guest.pc < 27
    ensures var v := Step(SelfFuzz, env, vm); Booting(SelfFuzzer, env, mem, ps, v) && vm.guest.pc < v.guest.pc
  {
    hide Step, Booting, Smooth, SelfFuzz;
    if vm.guest.pc < 10 {
      SelfFuzzerFirstSteps(env, mem, ps, vm);
    } else if vm.guest.pc < 18 {
      SelfFuzzerAnswer(env, mem, ps, vm);
    } else {
      SelfFuzzerLastSteps(env, mem, ps, vm);
    }
  }

  lemma BootStep<G, P, O>(a: Agent, env: Env<G, P, O>, mem: G, ps: seq<P>, vm: Vm<G, P, O>)
    requires ReleaseOf(a).Some? && Smooth(a, env) && Booting(a, env, mem, ps, vm) && vm.guest.pc < ShapeOf(a).round
    ensures var v := Step(ProgramOf(a), env, vm); Booting(a, env, mem, ps, v) && vm.guest.pc < v.guest.pc
  {
    hide Step, Booting;
    match a
    case DxeAgent => DxeBootStep(env, mem, ps, vm);
    case UefiLibrary => UefiLibraryBootStep(env, mem, ps, vm);
    case ZephyrAgent => ZephyrBootStep(env, mem, ps, vm);
    case VulnDriver => VulnDriverBootStep(env, mem, ps, vm);
    case SelfFuzzer => SelfFuzzerBootStep(env, mem, ps, vm);
  }

  lemma {:induction false} BootReachesRound<G, P, O>(
    a: Agent, env: Env<G, P, O>, mem: G, ps: seq<P>, vm: Vm<G, P, O>) returns (n: nat)
    requires ReleaseOf(a).Some? && Smooth(a, env) && Booting(a, env, mem, ps, vm)
    ensures var v := Run(ProgramOf(a), env, vm, n); Booting(a, env, mem, ps, v) && v.guest.pc == ShapeOf(a).round
    decreases ShapeOf(a).round - vm.guest.pc
  {
    hide Step;
    if vm.guest.pc == ShapeOf(a).round {
      n := 0;
    } else {
      BootStep(a, env, mem, ps, vm);
      var k := BootReachesRound(a, env, mem, ps, Step(ProgramOf(a), env, vm));
      n := k + 1;
    }
  }

  /** The runs of payloads ps that all start from memory m. */
  function Fresh<G, P, O>(target: (G, P) -> (G, O), m: G, ps: seq<P>): seq<(P, O)> {
    seq(|ps|, (i: nat) requires i < |ps| => (ps[i], target(m, ps[i]).1))
  }

  /** The runs of payloads ps that pass their memory on, from m. */
  function Chained<G, P, O>(target: (G, P) -> (G, O), m: G, ps: seq<P>): seq<(P, O)> {
    seq(|ps|, (i: nat) requires i < |ps| => (ps[i], target(MemAfter(target, m, ps[..i]), ps[i]).1))
  }

  lemma ChainedStep<G, P, O>(target: (G, P) -> (G, O), m: G, ps: seq<P>)
    requires ps != []
    ensures var (m', o) := target(m, ps[0]);
            Chained(target, m, ps) == [(ps[0], o)] + Chained(target, m', ps[1..])
  {
    var (m', o) := target(m, ps[0]);
    var rest := ps[1..];
    var all, more := Chained(target, m, ps), Chained(target, m', rest);
    forall i: nat | i < |ps|
      ensures all[i] == if i == 0 then (ps[0], o) else more[i - 1]
    {
      assert all[i] == (ps[i], target(MemAfter(target, m, ps[..i]), ps[i]).1);
      if i > 0 {
        assert ps[..i][0] == ps[0] && ps[..i][1..] == rest[..i - 1] && ps[i] == rest[i - 1];
        assert MemAfter(target, m, ps[..i]) == MemAfter(target, m', rest[..i - 1]);
      } else {
        assert ps[..i] == [];
      }
    }
  }

  lemma FreshStep<G, P, O>(target: (G, P) -> (G, O), m: G, ps: seq<P>)
    requires ps != []
    ensures Fresh(target, m, ps) == [(ps[0], target(m, ps[0]).1)] + Fresh(target, m, ps[1..])
  {
  }

  /** What a host sees of the target over a whole session. */
  function Expected<G, P, O>(a: Agent, env: Env<G, P, O>, mem: G, ps: seq<P>): seq<(P, O)>
    requires ReleaseOf(a).Some?
  {
    var m, s := SnapshotMem(a, env, mem), ShapeOf(a);
    if env.persistent && s.nonReload then Chained(env.target, m, if s.loops || ps == [] then ps else [ps[0]])
    else Fresh(env.target, m, ps)
  }

  lemma ReloadEnd<G, P, O>(p: Program, b: nat, env: Env<G, P, O>, vm: Vm<G, P, O>) returns (n: nat)
    requires RoundAt(p, b) && !Persists(env, vm) && AtRound(vm, b) && NoRuns(vm.trace)
    ensures var v := Run(p, env, vm, n);
            !v.status.Running? && Outcomes(v.trace) == Fresh(env.target, vm.guest.mem, vm.pending)
  {
    hide Run, Step;
    n := 1 + 3 * |vm.pending|;
    ReloadRun(p, b, env, vm);
    var first: seq<Event<P, O>> := if vm.pending == [] then [] else [Hc(NextPayload)];
    OutcomesConcat(vm.trace + first, ReloadRounds(env.target, vm.guest.mem, vm.pending));
    NoRunsNoOutcomes(vm.trace + first);
    ReloadOutcomes(env.target, vm.guest.mem, vm.pending);
  }

  lemma PersistentEnd<G, P, O>(p: Program, b: nat, loops: bool, env: Env<G, P, O>, vm: Vm<G, P, O>) returns (n: nat)
    requires RoundAt(p, b) && p(b + 4) == (if loops then Jump(b) else Exit)
    requires Persists(env, vm) && AtRound(vm, b) && NoRuns(vm.trace)
    ensures var v, ps := Run(p, env, vm, n), vm.pending;
            !v.status.Running? &&
            Outcomes(v.trace) == Chained(env.target, vm.guest.mem, if loops || ps == [] then ps else [ps[0]])
  {
    hide Run, Step;
    var served := if loops || vm.pending == [] then vm.pending else [vm.pending[0]];
    OutcomesConcat(vm.trace, PersistentRounds(env.target, vm.guest.mem, served));
    NoRunsNoOutcomes(vm.trace);
    PersistentOutcomes(env.target, vm.guest.mem, served);
    if loops {
      n := 1 + 5 * |vm.pending|;
      PersistentRun(p, b, env, vm);
    } else {
      n := 5;
      StraightLineOnPersistentHost(p, b, env, vm);
    }
  }

  lemma ShapeIsRight(a: Agent)
    requires ReleaseOf(a).Some?
    ensures var p, b := ProgramOf(a), ShapeOf(a).round;
            RoundAt(p, b) && p(b + 4) == if ShapeOf(a).loops then Jump(b) else Exit
  {
  }

  /** From the round's NEXT_PAYLOAD to the end of the session in n steps. */
  lemma RoundsToEnd<G, P, O>(a: Agent, env: Env<G, P, O>, mem: G, ps: seq<P>, vm: Vm<G, P, O>) returns (n: nat)
    requires ReleaseOf(a).Some? && Booting(a, env, mem, ps, vm) && vm.guest.pc == ShapeOf(a).round
    ensures var v := Run(ProgramOf(a), env, vm, n);
            !v.status.Running? && Outcomes(v.trace) == Expected(a, env, mem, ps)
  {
    hide Run, Step, RoundAt, ProgramOf, Outcomes, Fresh, Chained;
    var p, s := ProgramOf(a), ShapeOf(a);
    ShapeIsRight(a);
    if env.persistent && s.nonReload {
      n := PersistentEnd(p, s.round, s.loops, env, vm);
    } else {
      n := ReloadEnd(p, s.round, env, vm);
    }
  }

  /** Every session of these agents ends, and then for good, having shown exactly the
      expected runs: on a reloading host one for each payload, each from the snapshot's
      memory; on a persistent host a fold over the guest's memory, cut off after the first
      payload if the agent does not loop. */
  lemma WholeSession<G, P, O>(
    a: Agent, env: Env<G, P, O>, mem: G, garbage: HostConfig, buffer: P, ps: seq<P>) returns (n: nat)
    requires ReleaseOf(a).Some? && Smooth(a, env)
    ensures forall k: nat :: k >= n ==>
              var v := Run(ProgramOf(a), env, Boot(mem, garbage, buffer, ps), k);
              !v.status.Running? && Outcomes(v.trace) == Expected(a, env, mem, ps)
  {
    hide Run, Step, Outcomes, Expected;
    var p, boot := ProgramOf(a), Boot<G, P, O>(mem, garbage, buffer, ps);
    var i := BootReachesRound(a, env, mem, ps, boot);
    var j := RoundsToEnd(a, env, mem, ps, Run(p, env, boot, i));
    n := i + j;
    RunSplit(p, env, boot, i, j);
    forall k: nat | k >= n
      ensures Run(p, env, boot, k) == Run(p, env, boot, n)
    {
      RunSplit(p, env, boot, n, k - n);
      RunStopped(p, env, Run(p, env, boot, n), k - n);
    }
  }

  /** Those are: from the memory that the agent's own initialization has left, if it has one, each payload
      on its own; but in persistent mode, if the agent allows it, each on what the one before it left,
      or the first alone if the agent does not loop. */
  lemma WholeSessionShows<G, P, O>(
    a: Agent, env: Env<G, P, O>, mem: G, garbage: HostConfig, buffer: P, ps: seq<P>) returns (n: nat)
    requires ReleaseOf(a).Some? && Smooth(a, env)
    ensures var m := if a == UefiLibrary || a == ZephyrAgent then env.init(mem) else mem;
            forall k: nat :: k >= n ==>
              Outcomes(Run(ProgramOf(a), env, Boot(mem, garbage, buffer, ps), k).trace) ==
              if !env.persistent || a == SelfFuzzer then Fresh(env.target, m, ps)
              else Chained(env.target, m, if a == VulnDriver && |ps| > 1 then ps[..1] else ps)
  {
    hide Run, Outcomes, Smooth, Expected;
    n := WholeSession(a, env, mem, garbage, buffer, ps);
    ExpectedIs(a, env, mem, ps);
  }

  lemma ExpectedIs<G, P, O>(a: Agent, env: Env<G, P, O>, mem: G, ps: seq<P>)
    requires ReleaseOf(a).Some?
    ensures var m := if a == UefiLibrary || a == ZephyrAgent then env.init(mem) else mem;
            Expected(a, env, mem, ps) ==
            if !env.persistent || a == SelfFuzzer then Fresh(env.target, m, ps)
            else Chained(env.target, m, if a == VulnDriver && |ps| > 1 then ps[..1] else ps)
  {
    hide Chained, Fresh;
    if ps != [] {
      assert [ps[0]] == ps[..1];
      assert |ps| == 1 ==> ps[..1] == ps;
    }
  }

  lemma ExpectedAgree<G, P, O>(env: Env<G, P, O>, mem: G, ps: seq<P>)
    ensures Expected(DxeAgent, env, mem, ps) == Expected(VulnDriver, env, mem, ps) <==> !env.persistent || |ps| <= 1
  {
    if env.persistent && |ps| > 1 {
      assert |Expected(DxeAgent, env, mem, ps)| != |Expected(VulnDriver, env, mem, ps)|;
    }
    if |ps| == 1 {
      assert ps == [ps[0]];
    }
  }

  /** In the end the looping DXE harness and the straight-line driver test have shown a reloading
      host the same runs of the target; a persistent host, on exactly the streams of at most
      one payload. */
  lemma LoopAndStraightLineAgree<G, P, O>(
    env: Env<G, P, O>, mem: G, garbage: HostConfig, buffer: P, ps: seq<P>) returns (n: nat)
    requires Smooth(VulnDriver, env)
    ensures forall j: nat, k: nat :: j >= n && k >= n ==>
              var loop := Run(ProgramOf(DxeAgent), env, Boot(mem, garbage, buffer, ps), j);
              var line := Run(ProgramOf(VulnDriver), env, Boot(mem, garbage, buffer, ps), k);
              Outcomes(loop.trace) == Outcomes(line.trace) <==> !env.persistent || |ps| <= 1
  {
    assert Smooth(DxeAgent, env);
    hide Run, Step, Outcomes, Expected, Smooth;
    var m := WholeSession(DxeAgent, env, mem, garbage, buffer, ps);
    n := WholeSession(VulnDriver, env, mem, garbage, buffer, ps);
    n := if m > n then m else n;
    ExpectedAgree(env, mem, ps);
  }

  /** From n steps on, the program has shown the host the same runs in both modes. */
  ghost predicate AgreeFrom<G, P, O>(p: Program, env: Env<G, P, O>, boot: Vm<G, P, O>, n: nat) {
    forall j: nat, k: nat :: j >= n && k >= n ==>
      Outcomes(Run(p, env.(persistent := true), boot, j).trace) ==
        Outcomes(Run(p, env.(persistent := false), boot, k).trace)
  }

  ghost predicate AgreesInTheEnd<G, P, O>(p: Program, env: Env<G, P, O>, boot: Vm<G, P, O>) {
    exists n: nat :: AgreeFrom(p, env, boot, n)
  }

  ghost predicate SessionsAgree<G, P(!new), O>(
    p: Program, env: Env<G, P, O>, mem: G, garbage: HostConfig, buffer: P)
  {
    forall ps :: AgreesInTheEnd(p, env, Boot(mem, garbage, buffer, ps))
  }

  /** In the end the runs of payloads ps are those that pass their memory on from m, or those that
      all start from it, as the mode wants it. */
  ghost predicate ShowsRuns<G, P, O>(p: Program, env: Env<G, P, O>, boot: Vm<G, P, O>, m: G, n: nat) {
    forall k: nat :: k >= n ==>
      Outcomes(Run(p, env, boot, k).trace) == (if env.persistent then Chained else Fresh)(env.target, m, boot.pending)
  }

  lemma AgreeIff<G, P, O>(p: Program, env: Env<G, P, O>, boot: Vm<G, P, O>, m: G, i: nat, j: nat)
    requires ShowsRuns(p, env.(persistent := true), boot, m, i) && ShowsRuns(p, env.(persistent := false), boot, m, j)
    ensures AgreesInTheEnd(p, env, boot) <==> Chained(env.target, m, boot.pending) == Fresh(env.target, m, boot.pending)
  {
    hide Run, Outcomes, Chained, Fresh;
    var last := if i > j then i else j;
    assert Chained(env.target, m, boot.pending) == Fresh(env.target, m, boot.pending) ==> AgreeFrom(p, env, boot, last);
    if n: nat :| AgreeFrom(p, env, boot, n) {
      var k := if n > last then n else last;
      assert Outcomes(Run(p, env.(persistent := true), boot, k).trace)
          == Outcomes(Run(p, env.(persistent := false), boot, k).trace);
    }
  }

  lemma ModesAgreeIffChained<G, P(!new), O>(target: (G, P) -> (G, O), m: G)
    ensures (forall ps :: Chained(target, m, ps) == Fresh(target, m, ps)) <==> ResidueFree(target, m)
  {
    forall ps
      ensures Chained(target, m, ps) == Outcomes(PersistentRounds(target, m, ps))
      ensures Fresh(target, m, ps) == Outcomes(ReloadRounds(target, m, ps))
    {
      PersistentOutcomes(target, m, ps);
      ReloadOutcomes(target, m, ps);
    }
    ModesAgreeIffResidueFree(target, m);
    assert (forall ps :: Chained(target, m, ps) == Fresh(target, m, ps)) <==> ModesAgree(target, m);
  }

  /** What the looping agents show in whole sessions does not depend on the host's mode, on any
      stream of payloads, exactly when the target obeys the re-entry rule from the snapshot on. */
  lemma SessionModesAgreeIff<G, P(!new), O>(a: Agent, env: Env<G, P, O>, mem: G, garbage: HostConfig, buffer: P)
    requires a in {DxeAgent, UefiLibrary, ZephyrAgent} && Compatible(env.config, PAYLOAD_MAX)
    ensures SessionsAgree(ProgramOf(a), env, mem, garbage, buffer) <==>
            ResidueFree(env.target, SnapshotMem(a, env, mem))
  {
    hide Run, Outcomes, Chained, Fresh, AgreesInTheEnd, ResidueFree, ProgramOf;
    var m := SnapshotMem(a, env, mem);
    forall ps
      ensures AgreesInTheEnd(ProgramOf(a), env, Boot(mem, garbage, buffer, ps)) <==>
              Chained(env.target, m, ps) == Fresh(env.target, m, ps)
    {
      var i := WholeSession(a, env.(persistent := true), mem, garbage, buffer, ps);
      var j := WholeSession(a, env.(persistent := false), mem, garbage, buffer, ps);
      AgreeIff(ProgramOf(a), env, Boot(mem, garbage, buffer, ps), m, i, j);
    }
    ModesAgreeIffChained(env.target, m);
  }

  // ---------------------------------------------------------------- the agent that checks nothing

  /** selffuzz after n steps, if it gets that far: one event a step but for the test, and its
      answer to the host in the last. */
  ghost predicate Underway<G, P, O>(vm: Vm<G, P, O>, n: nat) {
    && vm.status.Running? && vm.snap.None?
    && vm.guest.pc == (if n <= 11 then n else n + 1) && |vm.trace| == (if n <= 11 then n else n - 1)
    && (Configured(vm.trace) <==> n >= 16)
  }

  lemma SelfFuzzStep<G, P, O>(env: Env<G, P, O>, vm: Vm<G, P, O>, n: nat)
    requires Underway(vm, n) && n < 16 && (n == 11 ==> env.choose(0, 11))
    ensures Underway(Step(SelfFuzz, env, vm), n + 1)
  {
    hide Configured;
    var v := Step(SelfFuzz, env, vm);
    if n == 11 {
      assert v.trace == vm.trace;
    } else {
      var e := v.trace[|vm.trace|];
      assert v.trace == vm.trace + [e];
      KindsSnoc(vm.trace, e);
    }
  }

  lemma {:induction false} SelfFuzzRuns<G, P, O>(env: Env<G, P, O>, boot: Vm<G, P, O>, n: nat)
    requires Underway(boot, 0) && n <= 16 && (n > 11 ==> env.choose(0, 11))
    ensures Underway(Run(SelfFuzz, env, boot, n), n)
  {
    hide Step, Underway;
    if n > 0 {
      SelfFuzzRuns(env, boot, n - 1);
      SelfFuzzStep(env, Run(SelfFuzz, env, boot, n - 1), n - 1);
      RunSplit(SelfFuzz, env, boot, n - 1, 1);
      Runs(SelfFuzz, env, Run(SelfFuzz, env, boot, n - 1));
    }
  }

  lemma SelfFuzzGivesUp<G, P, O>(env: Env<G, P, O>, vm: Vm<G, P, O>, n: nat)
    requires Underway(vm, 11) && !env.choose(0, 11)
    ensures !Configured(Run(SelfFuzz, env, vm, n).trace)
  {
    hide Run, Step, Configured;
    var v := Goto(vm, 12);
    StepIf(SelfFuzz, env, vm, Site(0), 13);
    StepAbort(SelfFuzz, env, v);
    KindsSnoc(vm.trace, Hc(UserAbort));
    Runs(SelfFuzz, env, vm);
    if n >= 2 {
      RunSplit(SelfFuzz, env, vm, 2, n - 2);
      RunStopped(SelfFuzz, env, Run(SelfFuzz, env, vm, 2), n - 2);
    } else if n == 0 {
      RunSplit(SelfFuzz, env, vm, 0, 1);
      assert Run(SelfFuzz, env, vm, 0) == vm by {
        RunZero(SelfFuzz, env, vm);
      }
    }
  }

  lemma RunZero<G, P, O>(p: Program, env: Env<G, P, O>, vm: Vm<G, P, O>)
    ensures Run(p, env, vm, 0) == vm
  {
  }

  /** Events stay. */
  lemma {:induction false} TraceGrows<G, P, O>(p: Program, env: Env<G, P, O>, vm: Vm<G, P, O>, n: nat)
    ensures vm.trace <= Run(p, env, vm, n).trace
    decreases n
  {
    if n > 0 {
      TraceGrows(p, env, Step(p, env, vm), n - 1);
      StepAppends(p, env, vm);
    }
  }

  lemma StepAppends<G, P, O>(p: Program, env: Env<G, P, O>, vm: Vm<G, P, O>)
    ensures vm.trace <= Step(p, env, vm).trace
  {
  }

  /** Whatever the host's magic, version and payload size are, and whether it has payloads or not:
      selffuzz answers it, in its sixteenth step, exactly if its buffer can be locked in memory. */
  lemma SelfFuzzAnswersIff<G, P, O>(
    env: Env<G, P, O>, mem: G, garbage: HostConfig, buffer: P, ps: seq<P>, n: nat)
    ensures Configured(Run(SelfFuzz, env, Boot(mem, garbage, buffer, ps), n).trace) <==> env.choose(0, 11) && n >= 16
  {
    hide Run, Step, Configured;
    var boot := Boot<G, P, O>(mem, garbage, buffer, ps);
    assert Underway(boot, 0) by {
      NothingConfigured<P, O>();
    }
    if !env.choose(0, 11) && n > 11 {
      SelfFuzzRuns(env, boot, 11);
      RunSplit(SelfFuzz, env, boot, 11, n - 11);
      SelfFuzzGivesUp(env, Run(SelfFuzz, env, boot, 11), n - 11);
    } else {
      SelfFuzzRuns(env, boot, if n <= 16 then n else 16);
      if n > 16 {
        RunSplit(SelfFuzz, env, boot, 16, n - 16);
        TraceGrows(SelfFuzz, env, Run(SelfFuzz, env, boot, 16), n - 16);
        ConfiguredStays(Run(SelfFuzz, env, boot, 16).trace, Run(SelfFuzz, env, boot, n).trace);
      }
    }
  }

  lemma NothingConfigured<P, O>()
    ensures !Configured<P, O>([])
  {
  }

  lemma ConfiguredStays<P, O>(t: seq<Event<P, O>>, u: seq<Event<P, O>>)
    requires Configured(t) && t <= u
    ensures Configured(u)
  {
    var k :| 0 <= k < |t| && IsSet(t[k]);
    assert u[k] == t[k];
  }
}
