/** Whole sessions of fs_fuzzer: a round on a payload of its own, then one for each of the host's.
    It does not allow persistent mode, so that every RELEASE but the first restores the snapshot. */
module FsSessions {
  import opened NyxApi
  import opened Machine
  import opened Agents
  import opened Simulation
  import opened Campaign

  /** The host is compatible, and device, file, seek and write succeed; writes may be short, and
      nothing is said of mounting. */
  ghost predicate Succeeds<G, P, O>(env: Env<G, P, O>) {
    Compatible(env.config, FS_PAYLOAD_MAX) && forall k: nat, n: nat :: k <= 3 ==> env.choose(k, n)
  }

  lemma OutcomesSnoc<P, O>(t: seq<Event<P, O>>, e: Event<P, O>)
    ensures Outcomes(t + [e]) == Outcomes(t) + if e.Ran? then [(e.payload, e.outcome)] else []
  {
    OutcomesConcat(t, [e]);
    assert [e][1..] == [];
    assert Outcomes([e]) == (if e.Ran? then [(e.payload, e.outcome)] else []) + Outcomes([e][1..]);
  }

  // ---------------------------------------------------------------- up to the loop

  ghost predicate Preparing<G, P, O>(env: Env<G, P, O>, mem: G, buffer: P, ps: seq<P>, vm: Vm<G, P, O>) {
    var pc := vm.guest.pc;
    && vm.status.Running? && pc <= 27
    && pc !in {1, 2, 4, 5, 10, 11, 12, 14, 15, 16, 18, 19, 20, 24, 25}
    && vm.snap.None? && vm.pending == ps && vm.guest.mem == mem
    && vm.buffer == (if pc == 27 then env.touch(buffer) else buffer)
    && (pc > 8 ==> vm.guest.cfg == env.config)
    && (pc > 21 ==> vm.agent.Some? && !vm.agent.value.nonReload)
    && Outcomes(vm.trace) == []
  }

  lemma PrepareStep<G, P, O>(env: Env<G, P, O>, mem: G, buffer: P, ps: seq<P>, vm: Vm<G, P, O>)
    requires Succeeds(env) && Preparing(env, mem, buffer, ps, vm) && vm.guest.pc < 27
    ensures var v := Step(FsFuzzer, env, vm); Preparing(env, mem, buffer, ps, v) && vm.guest.pc < v.guest.pc
  {
    hide Outcomes;
    var v := Step(FsFuzzer, env, vm);
    if v.trace != vm.trace {
      var e := v.trace[|vm.trace|];
      assert v.trace == vm.trace + [e];
      OutcomesSnoc(vm.trace, e);
    }
  }

  lemma {:induction false} ReachesLoop<G, P, O>(env: Env<G, P, O>, mem: G, buffer: P, ps: seq<P>, vm: Vm<G, P, O>)
    returns (n: nat)
    requires Succeeds(env) && Preparing(env, mem, buffer, ps, vm)
    ensures var v := Run(FsFuzzer, env, vm, n); Preparing(env, mem, buffer, ps, v) && v.guest.pc == 27
    decreases 27 - vm.guest.pc
  {
    hide Step, Succeeds, Outcomes;
    n := 0;
    if vm.guest.pc < 27 {
      PrepareStep(env, mem, buffer, ps, vm);
      n := ReachesLoop(env, mem, buffer, ps, Step(FsFuzzer, env, vm));
      n := n + 1;
    }
  }

  // ---------------------------------------------------------------- one round

  /** v is vm moved to pc, with some more events of which none is a run. */
  ghost predicate MovedTo<G, P, O>(v: Vm<G, P, O>, vm: Vm<G, P, O>, pc: nat) {
    v == vm.(guest := vm.guest.(pc := pc), trace := v.trace) && Outcomes(v.trace) == Outcomes(vm.trace)
  }

  /** A test, and a message unless it holds. */
  lemma PassMessage<G, P, O>(env: Env<G, P, O>, vm: Vm<G, P, O>, k: nat) returns (n: nat, v: Vm<G, P, O>)
    requires vm.status.Running? && FsFuzzer(vm.guest.pc) == Unless(Site(k), vm.guest.pc + 2)
    requires FsFuzzer(vm.guest.pc + 1) == Call(Printf)
    ensures v == Run(FsFuzzer, env, vm, n) && MovedTo(v, vm, vm.guest.pc + 2)
  {
    hide Run, Step, FsFuzzer, Outcomes;
    Runs(FsFuzzer, env, vm);
    StepUnless(FsFuzzer, env, vm, Site(k), vm.guest.pc + 2);
    n, v := 1, Step(FsFuzzer, env, vm);
    if v.guest.pc == vm.guest.pc + 1 {
      StepPlain(FsFuzzer, env, v, Printf);
      OutcomesSnoc(v.trace, Hc(Printf));
      n, v := 2, Step(FsFuzzer, env, v);
    }
  }

  lemma Writes<G, P, O>(env: Env<G, P, O>, vm: Vm<G, P, O>) returns (n: nat, v: Vm<G, P, O>)
    requires env.choose(3, |vm.trace|) && vm.status.Running? && vm.guest.pc == 27
    ensures v == Run(FsFuzzer, env, vm, n) && MovedTo(v, vm, 32)
  {
    assert FsFuzzer(27) == If(Site(3), 30) && FsFuzzer(30) == Unless(Site(4), 32) && FsFuzzer(31) == Call(Printf);
    hide Run, Step, FsFuzzer, Outcomes;
    StepIf(FsFuzzer, env, vm, Site(3), 30);
    assert Step(FsFuzzer, env, vm) == Goto(vm, 30);
    Runs(FsFuzzer, env, vm);
    hide Holds;
    n, v := PassMessage(env, Goto(vm, 30), 4);
    RunSplit(FsFuzzer, env, vm, 1, n);
    n := 1 + n;
  }

  /** What a run of the target leaves: v is vm behind it, at pc. */
  ghost predicate RanTo<G, P, O>(env: Env<G, P, O>, v: Vm<G, P, O>, vm: Vm<G, P, O>, pc: nat) {
    var (m, o) := env.target(vm.guest.mem, vm.buffer);
    && v == vm.(guest := vm.guest.(pc := pc, mem := m, last := Some(o)), trace := v.trace)
    && Outcomes(v.trace) == Outcomes(vm.trace) + [(vm.buffer, o)]
  }

  lemma Mounts<G, P, O>(env: Env<G, P, O>, vm: Vm<G, P, O>) returns (n: nat, v: Vm<G, P, O>)
    requires vm.status.Running? && vm.guest.pc == 32
    ensures v == Run(FsFuzzer, env, vm, n) && RanTo(env, v, vm, 35)
  {
    assert FsFuzzer(32) == RunTarget && FsFuzzer(33) == Unless(Site(5), 35) && FsFuzzer(34) == Call(Printf);
    hide Run, Step, FsFuzzer, Outcomes;
    Runs(FsFuzzer, env, vm);
    StepRunTarget(FsFuzzer, env, vm);
    OutcomesSnoc(vm.trace, Ran(vm.buffer, env.target(vm.guest.mem, vm.buffer).1));
    n, v := PassMessage(env, Step(FsFuzzer, env, vm), 5);
    RunSplit(FsFuzzer, env, vm, 1, n);
    n := 1 + n;
  }

  /** From the write to the RELEASE. */
  lemma RoundRuns<G, P, O>(env: Env<G, P, O>, vm: Vm<G, P, O>) returns (n: nat, v: Vm<G, P, O>)
    requires Succeeds(env) && vm.status.Running? && vm.guest.pc == 27
    ensures v == Run(FsFuzzer, env, vm, n) && RanTo(env, v, vm, 35)
  {
    hide Run, Step, Outcomes;
    var n1, v1 := Writes(env, vm);
    var n2;
    n2, v := Mounts(env, v1);
    RunSplit(FsFuzzer, env, vm, n1, n2);
    n := n1 + n2;
  }

  /** From behind the snapshot to the next round. */
  lemma AcquireAndLoop<G, P, O>(env: Env<G, P, O>, vm: Vm<G, P, O>)
    requires vm.status.Running? && vm.guest.pc == 37
    ensures MovedTo(Run(FsFuzzer, env, vm, 2), vm, 27)
  {
    assert FsFuzzer(37) == Call(Acquire) && FsFuzzer(38) == Jump(27);
    hide Run, Step, FsFuzzer, Outcomes;
    Runs(FsFuzzer, env, vm);
    StepPlain(FsFuzzer, env, vm, Acquire);
    StepJump(FsFuzzer, env, Record(vm, Hc(Acquire)), 27);
    OutcomesSnoc(vm.trace, Hc(Acquire));
  }

  /** The RELEASE that restores the snapshot, and what follows it. */
  lemma Restores<G, P, O>(env: Env<G, P, O>, vm: Vm<G, P, O>) returns (n: nat, v: Vm<G, P, O>)
    requires vm.status.Running? && vm.guest.pc == 35 && vm.snap.Some? && vm.snap.value.pc == 37
    requires vm.agent.Some? && !vm.agent.value.nonReload
    ensures v == Run(FsFuzzer, env, vm, n) && Outcomes(v.trace) == Outcomes(vm.trace)
    ensures if vm.pending == [] then v.status.Blocked? && v.pending == []
            else v.status.Running? && v.guest == vm.snap.value.(pc := 27) && v.snap == vm.snap && v.agent == vm.agent
                 && [v.buffer] + v.pending == vm.pending
  {
    assert FsFuzzer(35) == Call(Release);
    hide Run, Step, FsFuzzer, Outcomes;
    StepRelease(FsFuzzer, env, vm);
    Runs(FsFuzzer, env, vm);
    OutcomesSnoc(vm.trace, Hc(Release));
    OutcomesSnoc(vm.trace + [Hc(Release)], Resume);
    n, v := 1, DoRelease(env, vm);
    if vm.pending != [] {
      AcquireAndLoop(env, v);
      RunSplit(FsFuzzer, env, vm, 1, 2);
      n, v := 3, Run(FsFuzzer, env, v, 2);
    }
  }

  /** Every round behind the snapshot starts from the memory that the snapshot holds. */
  lemma {:induction false} RoundsRestore<G, P, O>(env: Env<G, P, O>, vm: Vm<G, P, O>) returns (n: nat)
    requires Succeeds(env) && vm.status.Running? && vm.guest.pc == 27 && vm.snap.Some? && vm.snap.value.pc == 37
    requires vm.agent.Some? && !vm.agent.value.nonReload && vm.guest.mem == vm.snap.value.mem
    ensures var v := Run(FsFuzzer, env, vm, n);
            && v.status.Blocked? && v.pending == []
            && Outcomes(v.trace) == Outcomes(vm.trace) + Fresh(env.target, vm.guest.mem, [vm.buffer] + vm.pending)
    decreases |vm.pending|
  {
    hide Run, Step, Outcomes, Succeeds;
    var ps, m := [vm.buffer] + vm.pending, vm.guest.mem;
    var first := (vm.buffer, env.target(m, vm.buffer).1);
    var n0, v0 := RoundRuns(env, vm);
    var n1, v1 := Restores(env, v0);
    RunSplit(FsFuzzer, env, vm, n0, n1);
    n1 := n0 + n1;
    assert Fresh(env.target, m, ps) == [first] + Fresh(env.target, m, vm.pending);
    if vm.pending == [] {
      n := n1;
    } else {
      var n2 := RoundsRestore(env, v1);
      RunSplit(FsFuzzer, env, vm, n1, n2);
      n := n1 + n2;
    }
  }

  /** The first RELEASE, which restores nothing, and the wait for the first payload, at which the
      snapshot is taken. */
  lemma AsksFirst<G, P, O>(env: Env<G, P, O>, vm: Vm<G, P, O>) returns (n: nat, v: Vm<G, P, O>)
    requires vm.status.Running? && vm.guest.pc == 35 && vm.snap.None?
    ensures v == Run(FsFuzzer, env, vm, n) && Outcomes(v.trace) == Outcomes(vm.trace)
    ensures if vm.pending == [] then v.status.Blocked? && v.pending == []
            else v.status.Running? && v.guest == vm.guest.(pc := 27) && v.agent == vm.agent
                 && v.snap == Some(vm.guest.(pc := 37)) && [v.buffer] + v.pending == vm.pending
  {
    assert FsFuzzer(35) == Call(Release) && FsFuzzer(36) == Call(NextPayload);
    hide Run, Step, FsFuzzer, Outcomes;
    Runs(FsFuzzer, env, vm);
    StepRelease(FsFuzzer, env, vm);
    var v1 := Record(vm, Hc(Release));
    OutcomesSnoc(vm.trace, Hc(Release));
    StepDeliver(FsFuzzer, env, v1, NextPayload);
    n, v := 2, Deliver(v1, NextPayload);
    if vm.pending != [] {
      OutcomesSnoc(v1.trace, Hc(NextPayload));
      AcquireAndLoop(env, v);
      RunSplit(FsFuzzer, env, vm, 2, 2);
      n, v := 4, Run(FsFuzzer, env, v, 2);
    }
  }

  /** The loop: the agent's own round, and the rest. */
  lemma LoopRuns<G, P, O>(env: Env<G, P, O>, vm: Vm<G, P, O>) returns (n: nat)
    requires Succeeds(env) && vm.status.Running? && vm.guest.pc == 27 && vm.snap.None?
    requires vm.agent.Some? && !vm.agent.value.nonReload
    ensures var v, (m, o) := Run(FsFuzzer, env, vm, n), env.target(vm.guest.mem, vm.buffer);
            && v.status.Blocked? && v.pending == []
            && Outcomes(v.trace) == Outcomes(vm.trace) + [(vm.buffer, o)] + Fresh(env.target, m, vm.pending)
  {
    hide Run, Step, Outcomes, Succeeds;
    var n1, v1 := RoundRuns(env, vm);
    var n2, v2 := AsksFirst(env, v1);
    RunSplit(FsFuzzer, env, vm, n1, n2);
    n := n1 + n2;
    if vm.pending != [] {
      var k := RoundsRestore(env, v2);
      RunSplit(FsFuzzer, env, vm, n, k);
      n := n + k;
    }
  }

  /** Every session, from boot, on every host and stream of payloads, if device and file work: it
      ends with no payload left, having run once on the agent's own payload, and then once on each
      payload from what that first round left. */
  lemma FsWholeSession<G, P, O>(
    env: Env<G, P, O>, mem: G, garbage: HostConfig, buffer: P, ps: seq<P>) returns (n: nat)
    requires Succeeds(env)
    ensures forall k: nat :: k >= n ==>
              var v := Run(FsFuzzer, env, Boot(mem, garbage, buffer, ps), k);
              var own := env.touch(buffer);
              var (m, o) := env.target(mem, own);
              v.status.Blocked? && v.pending == [] && Outcomes(v.trace) == [(own, o)] + Fresh(env.target, m, ps)
  {
    hide Run, Step, Succeeds, Outcomes;
    var boot := Boot<G, P, O>(mem, garbage, buffer, ps);
    assert Preparing(env, mem, buffer, ps, boot) by {
      NoRunsNoOutcomes<P, O>([]);
    }
    var i := ReachesLoop(env, mem, buffer, ps, boot);
    var v := Run(FsFuzzer, env, boot, i);
    var j := LoopRuns(env, v);
    RunSplit(FsFuzzer, env, boot, i, j);
    n := i + j;
    forall k: nat | k >= n
      ensures Run(FsFuzzer, env, boot, k) == Run(FsFuzzer, env, boot, n)
    {
      RunSplit(FsFuzzer, env, boot, n, k - n);
      RunStopped(FsFuzzer, env, Run(FsFuzzer, env, boot, n), k - n);
    }
  }
}
