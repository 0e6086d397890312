/** What each agent asks of the host before its first payload: every hypercall but messages, in order. */
module SetUps {
  import opened NyxApi
  import opened Machine
  import opened Agents
  import opened Campaign

  predicate AsksPayload<P, O>(e: Event<P, O>) {
    e.Hc? && e.call in {NextPayload, FastAcquire}
  }

  ghost predicate Asked<P, O>(t: seq<Event<P, O>>) {
    exists i :: 0 <= i < |t| && AsksPayload(t[i])
  }

  /** The hypercalls up to the first request for a payload, messages aside. */
  function Calls<P, O>(t: seq<Event<P, O>>): seq<Hypercall> {
    if t == [] || AsksPayload(t[0]) then []
    else (if t[0].Hc? && t[0].call != Printf then [t[0].call] else []) + Calls(t[1..])
  }

  lemma NothingAsked<P, O>()
    ensures !Asked<P, O>([]) && Calls<P, O>([]) == []
  {
  }

  lemma {:induction false} CallsSnoc<P, O>(t: seq<Event<P, O>>, e: Event<P, O>)
    ensures Asked(t + [e]) <==> Asked(t) || AsksPayload(e)
    ensures Calls(t + [e]) == Calls(t) +
              if Asked(t) || AsksPayload(e) || !e.Hc? || e.call == Printf then [] else [e.call]
  {
    var u := t + [e];
    assert u[|t|] == e && forall i :: 0 <= i < |t| ==> u[i] == t[i];
    if t == [] {
      assert u[1..] == [];
    } else {
      assert u[1..] == t[1..] + [e];
      assert Asked(t) <==> AsksPayload(t[0]) || Asked(t[1..]);
      CallsSnoc(t[1..], e);
    }
  }

  /** What comes later does not matter. */
  lemma {:induction false} CallsStay<P, O>(t: seq<Event<P, O>>, u: seq<Event<P, O>>)
    requires Asked(t) && t <= u
    ensures Asked(u) && Calls(u) == Calls(t)
    decreases |u|
  {
    if |t| < |u| {
      var s := u[..|u| - 1];
      CallsStay(t, s);
      CallsSnoc(s, u[|u| - 1]);
      assert u == s + [u[|u| - 1]] && Calls(s) + [] == Calls(s);
    } else {
      assert t == u;
    }
  }

  function Answered(c: HostConfig, nonReload: bool): Hypercall {
    SetAgentConfig(AgentConfig(NYX_AGENT_MAGIC, NYX_AGENT_VERSION, nonReload, c.bitmapSize))
  }

  /** The requests for handlers, if the agent has them; n events have happened. */
  function Handlers<G, P, O>(env: Env<G, P, O>, n: nat): seq<Hypercall> {
    PanicHandler(env, n) + if env.choose(1, n + |PanicHandler(env, n)|) then [SubmitKasan] else []
  }

  function PanicHandler<G, P, O>(env: Env<G, P, O>, n: nat): seq<Hypercall> {
    if env.choose(0, n) then [SubmitPanic] else []
  }

  // ---------------------------------------------------------------- place by place

  function UefiSoFar<G, P, O>(env: Env<G, P, O>, pc: nat): seq<Hypercall> {
    if pc <= 2 then [Acquire, Release][..pc]
    else if pc == 3 then [Acquire, Release]
    else if pc <= 5 then [Acquire, Release] + PanicHandler(env, 2)
    else if pc <= 7 then [Acquire, Release] + Handlers(env, 2)
    else if pc <= 18 then [Acquire, Release] + Handlers(env, 2) + [GetHostConfig]
    else [Acquire, Release] + Handlers(env, 2) + [GetHostConfig] + [Answered(env.config, true)]
  }

  function DxeSoFar<G, P, O>(env: Env<G, P, O>, pc: nat): seq<Hypercall> {
    UefiSoFar(env, pc) + if pc <= 20 then [] else [GetPayload(PAYLOAD_MAX)]
  }

  function AgentLibSoFar<G, P, O>(env: Env<G, P, O>, pc: nat): seq<Hypercall> {
    UefiSoFar(env, pc) +
    if pc <= 21 then [] else if pc == 22 then [GetPayload(PAYLOAD_MAX)] else [GetPayload(PAYLOAD_MAX), SubmitCr3]
  }

  function ZephyrSoFar<G, P, O>(env: Env<G, P, O>, pc: nat): seq<Hypercall> {
    var first := [Acquire, Release, SubmitCr3, SubmitMode];
    if pc <= 3 then []
    else if pc <= 7 then first[..pc - 3]
    else if pc == 8 then first
    else if pc <= 10 then first + PanicHandler(env, 7)
    else if pc == 11 then first + Handlers(env, 7)
    else if pc <= 20 then first + Handlers(env, 7) + [GetHostConfig]
    else if pc == 21 then first + Handlers(env, 7) + [GetHostConfig] + [Answered(env.config, true)]
    else first + Handlers(env, 7) + [GetHostConfig] + [Answered(env.config, true)] + [GetPayload(PAYLOAD_MAX)]
  }

  function VulnTestSoFar(c: HostConfig, pc: nat): seq<Hypercall> {
    [Acquire, Release, SubmitCr3, SubmitMode, GetHostConfig, Answered(c, true), SubmitPanic, SubmitPanic, SubmitCr3,
     GetPayload(PAYLOAD_MAX), RangeSubmit][
      ..if pc <= 4 then 0 else if pc <= 8 then pc - 4 else if pc <= 17 then 5 else if pc <= 21 then 6
        else if pc <= 24 then pc - 15 else if pc <= 30 then 10 else 11]
  }

  function SelfFuzzSoFar(c: HostConfig, pc: nat): seq<Hypercall> {
    [Lock, Acquire, Release, SubmitMode, GetHostConfig, GetPayload(c.payloadBufferSize), SubmitCr3,
     SetAgentConfig(AgentConfig(NYX_AGENT_MAGIC, NYX_AGENT_VERSION, false, 0)), RangeAdvise, RangeSubmit][
      ..if pc <= 2 then 0 else if pc <= 6 then pc - 2 else if pc <= 14 then 5 else if pc <= 16 then pc - 9
        else if pc <= 18 then 8 else if pc <= 24 then 9 else 10]
  }

  function FsFuzzerSoFar(c: HostConfig, pc: nat): seq<Hypercall> {
    [Acquire, Release, GetHostConfig, Answered(c, false), GetPayload(FS_PAYLOAD_MAX), Release][
      ..if pc <= 6 then 0 else if pc <= 8 then pc - 6 else if pc <= 21 then 3 else if pc == 22 then 4
        else if pc <= 35 then 5 else 6]
  }

  function SoFar<G, P, O>(a: Agent, env: Env<G, P, O>, pc: nat): seq<Hypercall> {
    match a
    case DxeAgent => DxeSoFar(env, pc)
    case UefiLibrary => AgentLibSoFar(env, pc)
    case ZephyrAgent => ZephyrSoFar(env, pc)
    case VulnDriver => VulnTestSoFar(env.config, pc)
    case SelfFuzzer => SelfFuzzSoFar(env.config, pc)
    case FileSystems => FsFuzzerSoFar(env.config, pc)
    case Forking(_) => []
  }

  /** Where the agent first asks for a payload. */
  function Asks(a: Agent): nat {
    match a
    case DxeAgent => 21
    case UefiLibrary => 23
    case ZephyrAgent => 24
    case VulnDriver => 31
    case SelfFuzzer => 27
    case FileSystems => 36
    case Forking(_) => 32
  }

  /** Where it has the host's configuration. */
  function Reads(a: Agent): nat {
    match a
    case ZephyrAgent => 11
    case VulnDriver => 8
    case SelfFuzzer => 6
    case FileSystems => 8
    case Forking(_) => 4
    case _ => 7
  }

  /** How many events have happened where an agent decides on a handler. */
  predicate OnTime<G, P, O>(a: Agent, env: Env<G, P, O>, pc: nat, events: nat) {
    match a
    case ZephyrAgent =>
      && (pc <= 8 ==> events == if pc == 8 then 7 else pc) && (pc == 8 ==> env.choose(0, 7))
      && (pc in {9, 10} ==> events == 7 + |PanicHandler(env, 7)|)
      && (pc == 10 ==> env.choose(1, 7 + |PanicHandler(env, 7)|))
    case DxeAgent => UefiOnTime(env, pc, events)
    case UefiLibrary => UefiOnTime(env, pc, events)
    case _ => true
  }

  predicate UefiOnTime<G, P, O>(env: Env<G, P, O>, pc: nat, events: nat) {
    && (pc <= 3 ==> events == if pc == 3 then 2 else pc) && (pc == 3 ==> env.choose(0, 2))
    && (pc in {4, 5} ==> events == 2 + |PanicHandler(env, 2)|)
    && (pc == 5 ==> env.choose(1, 2 + |PanicHandler(env, 2)|))
  }

  /** Behind an abort there is nothing that is reached. */
  predicate Unreached(a: Agent, pc: nat) {
    match a
    case VulnDriver => pc == 29
    case SelfFuzzer => pc == 23
    case FileSystems => pc in {12, 16, 20, 25, 29}
    case _ => false
  }

  /** The agent has not asked for a payload yet, and has made the requests up to this place. */
  ghost predicate OnTheWay<G, P, O>(a: Agent, env: Env<G, P, O>, vm: Vm<G, P, O>) {
    var pc := vm.guest.pc;
    && !Asked(vm.trace) && vm.snap == None && pc <= Asks(a) && !Unreached(a, pc)
    && (pc > Reads(a) ==> vm.guest.cfg == env.config)
    && OnTime(a, env, pc, |vm.trace|)
    && Calls(vm.trace) == SoFar(a, env, pc)
  }

  // ---------------------------------------------------------------- instruction by instruction

  /** The event of an instruction, if there is one. */
  function EventOf<G, P, O>(i: Instr, g: Guest<G, O>): Option<Hypercall> {
    match i
    case Call(h) => Some(h)
    case Guarded(h) => if g.cpu.V1? then Some(h) else None
    case SendConfig(nonReload, copyBitmap) => Some(SetAgentConfig(Answer(g.cfg, nonReload, copyBitmap)))
    case Register(size) => Some(GetPayload(BufferSize(g.cfg, size)))
    case _ => None
  }

  function Emits<G, P, O>(i: Instr, g: Guest<G, O>): seq<Hypercall> {
    var h := EventOf<G, P, O>(i, g);
    if h.None? || h.value == Printf then [] else [h.value]
  }

  predicate Requests(i: Instr) { i in {Call(NextPayload), Call(FastAcquire)} }

  /** A step before the first payload, as far as the set-up is concerned. */
  lemma StepEmits<G, P, O>(p: Program, env: Env<G, P, O>, vm: Vm<G, P, O>)
    requires vm.status.Running? && vm.snap == None && !Asked(vm.trace)
    requires p(vm.guest.pc).Guarded? ==> p(vm.guest.pc).h == RangeSubmit
    ensures var v, i := Step(p, env, vm), p(vm.guest.pc);
            if Requests(i) then
              Calls(v.trace) == Calls(vm.trace) && (v.status.Running? ==> Asked(v.trace))
            else
              && !Asked(v.trace) && v.snap == None
              && Calls(v.trace) == Calls(vm.trace) + Emits<G, P, O>(i, vm.guest)
              && |v.trace| == |vm.trace| + (if EventOf<G, P, O>(i, vm.guest).Some? || i.RunTarget? then 1 else 0)
              && (v.status.Running? ==>
                    && v.guest.pc == Next(env, vm, i)
                    && v.guest.cfg == (if i == Call(GetHostConfig) then env.config else vm.guest.cfg)
                    && v.guest.cpu == (if i.Detect? && vm.guest.cpu.Invalid? then env.cpu else vm.guest.cpu))
              && (i == Call(UserAbort) || i == Exit ==> !v.status.Running?)
  {
    hide Calls, Asked;
    var v := Step(p, env, vm);
    if v.trace == vm.trace {
      assert Calls(vm.trace) + [] == Calls(vm.trace);
    } else {
      assert v.trace == vm.trace + [v.trace[|vm.trace|]];
      CallsSnoc(vm.trace, v.trace[|vm.trace|]);
    }
  }

  function Next<G, P, O>(env: Env<G, P, O>, vm: Vm<G, P, O>, i: Instr): nat {
    match i
    case If(c, t) => if Holds(env, vm, c) then t else vm.guest.pc + 1
    case Unless(c, t) => if Holds(env, vm, c) then vm.guest.pc + 1 else t
    case Jump(t) => t
    case _ => vm.guest.pc + 1
  }

  /** The events of one step of an agent that has not asked for a payload. */
  ghost predicate Advances<G, P, O>(a: Agent, env: Env<G, P, O>, vm: Vm<G, P, O>) {
    var v := Step(ProgramOf(a), env, vm);
    if Asked(v.trace) then Calls(v.trace) == SoFar(a, env, Asks(a))
    else v.status.Running? ==> OnTheWay(a, env, v)
  }

  lemma DxeFirstAdvances<G, P, O>(env: Env<G, P, O>, vm: Vm<G, P, O>)
    requires vm.status.Running? && OnTheWay(DxeAgent, env, vm) && vm.guest.pc <= 6
    ensures Advances(DxeAgent, env, vm)
  {
    hide Calls, Asked, Step;
    StepEmits(ProgramOf(DxeAgent), env, vm);
  }

  lemma DxeLastAdvances<G, P, O>(env: Env<G, P, O>, vm: Vm<G, P, O>)
    requires vm.status.Running? && OnTheWay(DxeAgent, env, vm) && vm.guest.pc > 6
    ensures Advances(DxeAgent, env, vm)
  {
    hide Calls, Asked, Step;
    StepEmits(ProgramOf(DxeAgent), env, vm);
  }

  lemma AgentLibFirstAdvances<G, P, O>(env: Env<G, P, O>, vm: Vm<G, P, O>)
    requires vm.status.Running? && OnTheWay(UefiLibrary, env, vm) && vm.guest.pc <= 6
    ensures Advances(UefiLibrary, env, vm)
  {
    hide Calls, Asked, Step;
    StepEmits(ProgramOf(UefiLibrary), env, vm);
  }

  lemma AgentLibLastAdvances<G, P, O>(env: Env<G, P, O>, vm: Vm<G, P, O>)
    requires vm.status.Running? && OnTheWay(UefiLibrary, env, vm) && vm.guest.pc > 6
    ensures Advances(UefiLibrary, env, vm)
  {
    hide Calls, Asked, Step;
    StepEmits(ProgramOf(UefiLibrary), env, vm);
  }

  lemma ZephyrFirstAdvances<G, P, O>(env: Env<G, P, O>, vm: Vm<G, P, O>)
    requires vm.status.Running? && OnTheWay(ZephyrAgent, env, vm) && vm.guest.pc <= 10
    ensures Advances(ZephyrAgent, env, vm)
  {
    hide Calls, Asked, Step;
    StepEmits(ProgramOf(ZephyrAgent), env, vm);
  }

  lemma ZephyrLastAdvances<G, P, O>(env: Env<G, P, O>, vm: Vm<G, P, O>)
    requires vm.status.Running? && OnTheWay(ZephyrAgent, env, vm) && vm.guest.pc > 10
    ensures Advances(ZephyrAgent, env, vm)
  {
    hide Calls, Asked, Step;
    StepEmits(ProgramOf(ZephyrAgent), env, vm);
  }

  lemma VulnTestAdvances<G, P, O>(env: Env<G, P, O>, vm: Vm<G, P, O>)
    requires vm.status.Running? && OnTheWay(VulnDriver, env, vm)
    ensures Advances(VulnDriver, env, vm)
  {
    hide Calls, Asked, Step;
    StepEmits(ProgramOf(VulnDriver), env, vm);
  }

  lemma SelfFuzzFirstAdvances<G, P, O>(env: Env<G, P, O>, vm: Vm<G, P, O>)
    requires vm.status.Running? && OnTheWay(SelfFuzzer, env, vm) && vm.guest.pc <= 13
    ensures Advances(SelfFuzzer, env, vm)
  {
    hide Calls, Asked, Step;
    StepEmits(ProgramOf(SelfFuzzer), env, vm);
  }

  lemma SelfFuzzLastAdvances<G, P, O>(env: Env<G, P, O>, vm: Vm<G, P, O>)
    requires vm.status.Running? && OnTheWay(SelfFuzzer, env, vm) && vm.guest.pc > 13
    ensures Advances(SelfFuzzer, env, vm)
  {
    hide Calls, Asked, Step;
    StepEmits(ProgramOf(SelfFuzzer), env, vm);
  }

  lemma FsFuzzerFirstAdvances<G, P, O>(env: Env<G, P, O>, vm: Vm<G, P, O>)
    requires vm.status.Running? && OnTheWay(FileSystems, env, vm) && vm.guest.pc <= 16
    ensures Advances(FileSystems, env, vm)
  {
    hide Calls, Asked, Step;
    StepEmits(ProgramOf(FileSystems), env, vm);
  }

  lemma FsFuzzerLastAdvances<G, P, O>(env: Env<G, P, O>, vm: Vm<G, P, O>)
    requires vm.status.Running? && OnTheWay(FileSystems, env, vm) && vm.guest.pc > 16
    ensures Advances(FileSystems, env, vm)
  {
    hide Calls, Asked, Step;
    StepEmits(ProgramOf(FileSystems), env, vm);
  }

  lemma AgentAdvances<G, P, O>(a: Agent, env: Env<G, P, O>, vm: Vm<G, P, O>)
    requires !a.Forking? && vm.status.Running? && OnTheWay(a, env, vm)
    ensures Advances(a, env, vm)
  {
    hide OnTheWay, Advances;
    match a
    case DxeAgent => if vm.guest.pc <= 6 { DxeFirstAdvances(env, vm); } else { DxeLastAdvances(env, vm); }
    case UefiLibrary => if vm.guest.pc <= 6 { AgentLibFirstAdvances(env, vm); } else { AgentLibLastAdvances(env, vm); }
    case ZephyrAgent => if vm.guest.pc <= 10 { ZephyrFirstAdvances(env, vm); } else { ZephyrLastAdvances(env, vm); }
    case VulnDriver => VulnTestAdvances(env, vm);
    case SelfFuzzer => if vm.guest.pc <= 13 { SelfFuzzFirstAdvances(env, vm); } else { SelfFuzzLastAdvances(env, vm); }
    case FileSystems => if vm.guest.pc <= 16 { FsFuzzerFirstAdvances(env, vm); } else { FsFuzzerLastAdvances(env, vm); }
  }

  lemma {:induction false} SetUpIs<G, P, O>(
    a: Agent, env: Env<G, P, O>, mem: G, garbage: HostConfig, buffer: P, ps: seq<P>, n: nat)
    requires !a.Forking?
    ensures var v := Run(ProgramOf(a), env, Boot(mem, garbage, buffer, ps), n);
            if Asked(v.trace) then Calls(v.trace) == SoFar(a, env, Asks(a))
            else v.status.Running? ==> OnTheWay(a, env, v)
  {
    var p, boot := ProgramOf(a), Boot<G, P, O>(mem, garbage, buffer, ps);
    hide Step, ProgramOf, Calls, Asked, SoFar;
    if n == 0 {
      NothingAsked<P, O>();
      assert SoFar(a, env, 0) == [] by { NothingSoFar(a, env); }
    } else {
      hide OnTheWay;
      var v := Run(p, env, boot, n - 1);
      SetUpIs(a, env, mem, garbage, buffer, ps, n - 1);
      RunSplit(p, env, boot, n - 1, 1);
      Runs(p, env, v);
      if Asked(v.trace) {
        StepAppends(p, env, v);
        CallsStay(v.trace, Step(p, env, v).trace);
      } else if v.status.Running? {
        AgentAdvances(a, env, v);
      } else {
        RunStopped(p, env, v, 1);
      }
    }
  }

  lemma NothingSoFar<G, P, O>(a: Agent, env: Env<G, P, O>)
    ensures SoFar(a, env, 0) == []
  {
  }

  // ---------------------------------------------------------------- the requests of each agent

  lemma DxeSoFarIs<G, P, O>(env: Env<G, P, O>)
    ensures var panic, kasan := env.choose(0, 2), env.choose(1, if env.choose(0, 2) then 3 else 2);
            SoFar(DxeAgent, env, 21) ==
            [Acquire, Release] + (if panic then [SubmitPanic] else []) + (if kasan then [SubmitKasan] else []) +
            [GetHostConfig, SetAgentConfig(AgentConfig(0x4178794e, 1, true, env.config.bitmapSize)),
             GetPayload(131072)]
  {
  }

  /** HarnessInit(): the ready state, the handlers that are given, and the handshake. */
  lemma DxeRequests<G, P, O>(env: Env<G, P, O>, mem: G, garbage: HostConfig, buffer: P, ps: seq<P>, n: nat)
    ensures var t := Run(DxeHarness, env, Boot(mem, garbage, buffer, ps), n).trace;
            var panic, kasan := env.choose(0, 2), env.choose(1, if env.choose(0, 2) then 3 else 2);
            Asked(t) ==>
              Calls(t) ==
              [Acquire, Release] + (if panic then [SubmitPanic] else []) + (if kasan then [SubmitKasan] else []) +
              [GetHostConfig, SetAgentConfig(AgentConfig(0x4178794e, 1, true, env.config.bitmapSize)),
               GetPayload(131072)]
  {
    hide Run, Calls, Asked, SoFar;
    DxeSoFarIs(env);
    SetUpIs(DxeAgent, env, mem, garbage, buffer, ps, n);
  }

  lemma AgentLibSoFarIs<G, P, O>(env: Env<G, P, O>)
    ensures var panic, kasan := env.choose(0, 2), env.choose(1, if env.choose(0, 2) then 3 else 2);
            SoFar(UefiLibrary, env, 23) ==
            [Acquire, Release] + (if panic then [SubmitPanic] else []) + (if kasan then [SubmitKasan] else []) +
            [GetHostConfig, SetAgentConfig(AgentConfig(0x4178794e, 1, true, env.config.bitmapSize)),
             GetPayload(131072), SubmitCr3]
  {
  }

  lemma AgentLibRequests<G, P, O>(env: Env<G, P, O>, mem: G, garbage: HostConfig, buffer: P, ps: seq<P>, n: nat)
    ensures var t := Run(AgentLib, env, Boot(mem, garbage, buffer, ps), n).trace;
            var panic, kasan := env.choose(0, 2), env.choose(1, if env.choose(0, 2) then 3 else 2);
            Asked(t) ==>
              Calls(t) ==
              [Acquire, Release] + (if panic then [SubmitPanic] else []) + (if kasan then [SubmitKasan] else []) +
              [GetHostConfig, SetAgentConfig(AgentConfig(0x4178794e, 1, true, env.config.bitmapSize)),
               GetPayload(131072), SubmitCr3]
  {
    hide Run, Calls, Asked, SoFar;
    AgentLibSoFarIs(env);
    SetUpIs(UefiLibrary, env, mem, garbage, buffer, ps, n);
  }

  lemma ZephyrSoFarIs<G, P, O>(env: Env<G, P, O>)
    ensures var panic, kasan := env.choose(0, 7), env.choose(1, if env.choose(0, 7) then 8 else 7);
            SoFar(ZephyrAgent, env, 24) ==
            [Acquire, Release, SubmitCr3, SubmitMode] +
            (if panic then [SubmitPanic] else []) + (if kasan then [SubmitKasan] else []) +
            [GetHostConfig, SetAgentConfig(AgentConfig(0x4178794e, 1, true, env.config.bitmapSize)),
             GetPayload(131072)]
  {
  }

  lemma ZephyrRequests<G, P, O>(env: Env<G, P, O>, mem: G, garbage: HostConfig, buffer: P, ps: seq<P>, n: nat)
    ensures var t := Run(Zephyr, env, Boot(mem, garbage, buffer, ps), n).trace;
            var panic, kasan := env.choose(0, 7), env.choose(1, if env.choose(0, 7) then 8 else 7);
            Asked(t) ==>
              Calls(t) ==
              [Acquire, Release, SubmitCr3, SubmitMode] +
              (if panic then [SubmitPanic] else []) + (if kasan then [SubmitKasan] else []) +
              [GetHostConfig, SetAgentConfig(AgentConfig(0x4178794e, 1, true, env.config.bitmapSize)),
               GetPayload(131072)]
  {
    hide Run, Calls, Asked, SoFar;
    ZephyrSoFarIs(env);
    SetUpIs(ZephyrAgent, env, mem, garbage, buffer, ps, n);
  }

  /** The driver test makes each of its requests, two handlers and its one trace range included, or
      never asks for a payload. */
  lemma VulnTestRequests<G, P, O>(env: Env<G, P, O>, mem: G, garbage: HostConfig, buffer: P, ps: seq<P>, n: nat)
    ensures var t := Run(VulnTest, env, Boot(mem, garbage, buffer, ps), n).trace;
            Asked(t) ==>
              Calls(t) ==
              [Acquire, Release, SubmitCr3, SubmitMode, GetHostConfig,
               SetAgentConfig(AgentConfig(0x4178794e, 1, true, env.config.bitmapSize)),
               SubmitPanic, SubmitPanic, SubmitCr3, GetPayload(131072), RangeSubmit]
  {
    hide Run, Calls, Asked;
    SetUpIs(VulnDriver, env, mem, garbage, buffer, ps, n);
  }

  /** selffuzz takes its snapshot lock first, and sizes its buffer by the host's. */
  lemma SelfFuzzRequests<G, P, O>(env: Env<G, P, O>, mem: G, garbage: HostConfig, buffer: P, ps: seq<P>, n: nat)
    ensures var t := Run(SelfFuzz, env, Boot(mem, garbage, buffer, ps), n).trace;
            Asked(t) ==>
              Calls(t) ==
              [Lock, Acquire, Release, SubmitMode, GetHostConfig, GetPayload(env.config.payloadBufferSize), SubmitCr3,
               SetAgentConfig(AgentConfig(0x4178794e, 1, false, 0)), RangeAdvise, RangeSubmit]
  {
    hide Run, Calls, Asked;
    SetUpIs(SelfFuzzer, env, mem, garbage, buffer, ps, n);
  }

  /** fs_fuzzer, with the RELEASE that ends the round of its own. */
  lemma FsFuzzerRequests<G, P, O>(env: Env<G, P, O>, mem: G, garbage: HostConfig, buffer: P, ps: seq<P>, n: nat)
    ensures var t := Run(FsFuzzer, env, Boot(mem, garbage, buffer, ps), n).trace;
            Asked(t) ==>
              Calls(t) ==
              [Acquire, Release, GetHostConfig,
               SetAgentConfig(AgentConfig(0x4178794e, 1, false, env.config.bitmapSize)), GetPayload(1048576), Release]
  {
    hide Run, Calls, Asked;
    SetUpIs(FileSystems, env, mem, garbage, buffer, ps, n);
  }

  // ---------------------------------------------------------------- the forkserver

  /** How many events there are for one line of the map: a message, and the range on type v1. */
  function PerLine<G, P, O>(env: Env<G, P, O>): nat {
    if env.cpu == V1 then 2 else 1
  }

  /** Each of the first k looks at the map finds a line. */
  ghost predicate Finds<G, P, O>(env: Env<G, P, O>, k: nat) {
    forall j :: 0 <= j < k ==> env.choose(2, 6 + j * PerLine(env))
  }

  function Reported<G, P, O>(env: Env<G, P, O>, k: nat): seq<Hypercall> {
    seq(if env.cpu == V1 then k else 0, _ => RangeSubmit)
  }

  function ForkserverSoFar<G, P, O>(allow: bool, env: Env<G, P, O>, pc: nat, k: nat): seq<Hypercall> {
    [GetHostConfig, Answered(env.config, allow), Acquire, Release, GetPayload(PAYLOAD_MAX), SubmitMode][
      ..if pc <= 4 then 0 else if pc <= 17 then 1 else if pc <= 21 then pc - 16 else 6] + Reported(env, k)
  }

  /** ... with k lines of the map reported. */
  ghost predicate ForkOnTheWay<G, P, O>(allow: bool, env: Env<G, P, O>, vm: Vm<G, P, O>, k: nat) {
    var pc, events := vm.guest.pc, |vm.trace|;
    && !Asked(vm.trace) && vm.snap == None && pc <= 32 && pc !in {8, 12, 16}
    && vm.guest.cpu == (if pc <= 3 then Invalid else env.cpu)
    && (pc > 4 ==> vm.guest.cfg == env.config)
    && Calls(vm.trace) == ForkserverSoFar(allow, env, pc, k) && Finds(env, k)
    && (pc <= 24 ==> k == 0)
    && (pc in {0, 3, 4} ==> events == 0) && (pc in {5, 9, 13, 17} ==> events == 1)
    && (18 <= pc <= 22 ==> events == pc - 16)
    && (pc == 25 ==> events == 6 + k * PerLine(env))
    && (pc in {26, 27} ==> events == 6 + k * PerLine(env) + pc - 26 && env.choose(2, 6 + k * PerLine(env)))
    && (pc == 28 ==> events == 6 + k * PerLine(env))
    && (pc >= 29 ==> !env.choose(2, 6 + k * PerLine(env)))
  }

  /** Behind the first request for a payload: k lines have been found, and no more. */
  ghost predicate ForkPrepared<G, P, O>(allow: bool, env: Env<G, P, O>, t: seq<Event<P, O>>, k: nat) {
    Finds(env, k) && !env.choose(2, 6 + k * PerLine(env)) && Calls(t) == ForkserverSoFar(allow, env, 32, k)
  }

  /** A step takes the forkserver to the next place, or it has found one line more. */
  ghost predicate ForkAdvances<G, P, O>(allow: bool, env: Env<G, P, O>, vm: Vm<G, P, O>, k: nat) {
    var v := Step(ForkserverProgram(allow), env, vm);
    if Asked(v.trace) then ForkPrepared(allow, env, v.trace, k)
    else v.status.Running? ==> ForkOnTheWay(allow, env, v, if vm.guest.pc == 27 then k + 1 else k)
  }

  lemma ForkFirstAdvances<G, P, O>(allow: bool, env: Env<G, P, O>, vm: Vm<G, P, O>, k: nat)
    requires vm.status.Running? && ForkOnTheWay(allow, env, vm, k) && vm.guest.pc <= 17
    ensures ForkAdvances(allow, env, vm, k)
  {
    hide Calls, Asked, Step, Finds;
    StepEmits(ForkserverProgram(allow), env, vm);
  }

  lemma ForkMiddleAdvances<G, P, O>(allow: bool, env: Env<G, P, O>, vm: Vm<G, P, O>, k: nat)
    requires vm.status.Running? && ForkOnTheWay(allow, env, vm, k) && 17 < vm.guest.pc <= 24
    ensures ForkAdvances(allow, env, vm, k)
  {
    hide Calls, Asked, Step, Finds;
    StepEmits(ForkserverProgram(allow), env, vm);
  }

  lemma ForkMapAdvances<G, P, O>(allow: bool, env: Env<G, P, O>, vm: Vm<G, P, O>, k: nat)
    requires vm.status.Running? && ForkOnTheWay(allow, env, vm, k) && vm.guest.pc in {25, 26, 28}
    ensures ForkAdvances(allow, env, vm, k)
  {
    hide Calls, Asked, Step, Finds, Reported, PerLine;
    StepEmits(ForkserverProgram(allow), env, vm);
  }

  lemma ForkReportAdvances<G, P, O>(allow: bool, env: Env<G, P, O>, vm: Vm<G, P, O>, k: nat)
    requires vm.status.Running? && ForkOnTheWay(allow, env, vm, k) && vm.guest.pc == 27
    ensures ForkAdvances(allow, env, vm, k)
  {
    hide Calls, Asked, Step, Finds;
    StepEmits(ForkserverProgram(allow), env, vm);
    assert Reported(env, k + 1) == Reported(env, k) + if env.cpu == V1 then [RangeSubmit] else [];
    OneMoreLine(env, k);
  }

  lemma ForkLastAdvances<G, P, O>(allow: bool, env: Env<G, P, O>, vm: Vm<G, P, O>, k: nat)
    requires vm.status.Running? && ForkOnTheWay(allow, env, vm, k) && 28 < vm.guest.pc
    ensures ForkAdvances(allow, env, vm, k)
  {
    hide Calls, Asked, Step, Finds;
    StepEmits(ForkserverProgram(allow), env, vm);
  }

  lemma OneMoreLine<G, P, O>(env: Env<G, P, O>, k: nat)
    requires Finds(env, k) && env.choose(2, 6 + k * PerLine(env))
    ensures Finds(env, k + 1)
  {
  }

  lemma {:induction false} ForkserverSetUpIs<G, P, O>(
    allow: bool, env: Env<G, P, O>, mem: G, garbage: HostConfig, buffer: P, ps: seq<P>, n: nat) returns (k: nat)
    ensures var v := Run(ForkserverProgram(allow), env, Boot(mem, garbage, buffer, ps), n);
            if Asked(v.trace) then ForkPrepared(allow, env, v.trace, k)
            else v.status.Running? ==> ForkOnTheWay(allow, env, v, k)
  {
    var p, boot := ForkserverProgram(allow), Boot<G, P, O>(mem, garbage, buffer, ps);
    hide Step, ForkserverProgram, Calls, Asked;
    k := 0;
    if n == 0 {
      NothingAsked<P, O>();
    } else {
      hide ForkOnTheWay;
      var v := Run(p, env, boot, n - 1);
      k := ForkserverSetUpIs(allow, env, mem, garbage, buffer, ps, n - 1);
      RunSplit(p, env, boot, n - 1, 1);
      Runs(p, env, v);
      if Asked(v.trace) {
        StepAppends(p, env, v);
        CallsStay(v.trace, Step(p, env, v).trace);
      } else if v.status.Running? {
        if v.guest.pc <= 17 {
          ForkFirstAdvances(allow, env, v, k);
        } else if v.guest.pc <= 24 {
          ForkMiddleAdvances(allow, env, v, k);
        } else if v.guest.pc == 27 {
          ForkReportAdvances(allow, env, v, k);
        } else if v.guest.pc <= 28 {
          ForkMapAdvances(allow, env, v, k);
        } else {
          ForkLastAdvances(allow, env, v, k);
        }
        k := if v.guest.pc == 27 then k + 1 else k;
      } else {
        RunStopped(p, env, v, 1);
      }
    }
  }

  /** forkserver(): the handshake and the ready state, the buffer and the mode, and on type v1 one trace
      range for each line that is found in the map. */
  lemma ForkserverRequests<G, P, O>(
    allow: bool, env: Env<G, P, O>, mem: G, garbage: HostConfig, buffer: P, ps: seq<P>, n: nat) returns (k: nat)
    ensures var t := Run(ForkserverProgram(allow), env, Boot(mem, garbage, buffer, ps), n).trace;
            var perLine := if env.cpu == V1 then 2 else 1;
            Asked(t) ==>
              && (forall j :: 0 <= j < k ==> env.choose(2, 6 + j * perLine)) && !env.choose(2, 6 + k * perLine)
              && Calls(t) ==
                 [GetHostConfig, SetAgentConfig(AgentConfig(0x4178794e, 1, allow, env.config.bitmapSize)),
                  Acquire, Release, GetPayload(131072), SubmitMode] +
                 seq(if env.cpu == V1 then k else 0, _ => RangeSubmit)
  {
    hide Run, Calls, Asked;
    k := ForkserverSetUpIs(allow, env, mem, garbage, buffer, ps, n);
  }
}
