/** The agents in the form they are written in: hypercalls, tests and endless loops in sequence.
    Where a host restores its snapshot, control comes back behind the NEXT_PAYLOAD or
    FAST_ACQUIRE at which it was taken; the loops below have a flag for this. */
module Harness {
  import opened NyxApi
  import opened Protocol
  import opened WaitStatus
  import opened Machine
  import opened Agents
  import opened Simulation
  import opened Campaign
  import opened Session
  import opened ForkserverRuns
  import opened FsSessions
  import opened SetUps

  /** The session runs, at this place of its program. */
  ghost predicate At<G, P, O>(c: Context<G, P, O>, s: State<G, P, O>, pc: nat) {
    Reached(c, s) && s.vm.status.Running? && s.vm.guest.pc == pc
  }

  /** ... before the first payload, with the host's configuration read. */
  ghost predicate AtFirst<G, P, O>(c: Context<G, P, O>, s: State<G, P, O>, pc: nat) {
    At(c, s, pc) && s.vm.snap == None && s.vm.guest.cfg == c.env.config
  }

  /** The agent has told the host to abort. */
  ghost predicate Failed<G, P, O>(c: Context<G, P, O>, s: State<G, P, O>) {
    Reached(c, s) && s.vm.status.Aborted?
  }

  /** ... before the first payload. */
  ghost predicate GivesUp<G, P, O>(c: Context<G, P, O>, s: State<G, P, O>) {
    Failed(c, s) && s.vm.snap == None
  }

  /** The agent waits for a payload, and there is none left. */
  ghost predicate Served<G, P, O>(c: Context<G, P, O>, s: State<G, P, O>) {
    Reached(c, s) && s.vm.status.Blocked? && s.vm.pending == []
  }

  /** The session is over. */
  ghost predicate Over<G, P, O>(c: Context<G, P, O>, s: State<G, P, O>) {
    Reached(c, s) && !s.vm.status.Running?
  }

  lemma SessionEnds<G, P, O>(c: Context<G, P, O>, s: State<G, P, O>, a: Agent)
    requires Over(c, s) && c.program == ProgramOf(a)
    ensures Accepts(s.vm.trace)
    ensures ReleaseOf(a).Some? && Smooth(a, c.env) ==>
              Outcomes(s.vm.trace) == Expected(a, c.env, c.boot.guest.mem, c.boot.pending)
    ensures a != FileSystems && s.vm.snap == None ==> Outcomes(s.vm.trace) == []
  {
    hide Run, Step, Accepts, Outcomes, Expected, Smooth, ProgramOf;
    var mem, cfg, buffer, ps := c.boot.guest.mem, c.boot.guest.cfg, c.boot.buffer, c.boot.pending;
    EveryAgentKeepsTheProtocol(a, c.env, mem, cfg, buffer, ps, s.steps);
    if ReleaseOf(a).Some? && Smooth(a, c.env) {
      var n := WholeSession(a, c.env, mem, cfg, buffer, ps);
      RunSplit(ProgramOf(a), c.env, c.boot, s.steps, n);
      RunStopped(ProgramOf(a), c.env, s.vm, n);
    }
    if a != FileSystems && s.vm.snap == None {
      NoSnapshotNoRuns(a, c.env, mem, cfg, buffer, ps, s.steps);
      NoRunsNoOutcomes(s.vm.trace);
    }
  }

  // ---------------------------------------------------------------- uefi

  /** The ready state */
  method AnnounceReady<G, P, O>(c: Context<G, P, O>, s0: State<G, P, O>) returns (s: State<G, P, O>)
    requires Before(c, s0, Call(Acquire)) && c.program(s0.vm.guest.pc + 1) == Call(Release) && s0.vm.snap == None
    ensures GoesTo(c, s, s0, s0.vm.guest.pc + 2) && s.vm.trace == s0.vm.trace + [Hc(Acquire)] + [Hc(Release)]
  {
    hide Reached, Place, LetGo;
    s := Place(c, s0, Acquire);
    s := LetGo(c, s);
  }

  /** HarnessInit() and agent_init(), which are the same text, up to the host's configuration */
  method Handshake<G, P, O>(c: Context<G, P, O>, s0: State<G, P, O>) returns (s: State<G, P, O>)
    requires At(c, s0, 0) && s0.vm.snap == None && forall k: nat :: k < 20 ==> c.program(k) == UefiInit(k)
    ensures AtFirst(c, s, 8)
  {
    hide Reached, Place, AskHost, PlaceIf;
    s := AnnounceReady(c, s0);
    s := PlaceIf(c, s, 0, SubmitPanic);
    s := PlaceIf(c, s, 1, SubmitKasan);
    s := Place(c, s, Printf);
    s := AskHost(c, s);
  }

  /** ... up to the end of its checks */
  method CheckHost<G, P, O>(c: Context<G, P, O>, s0: State<G, P, O>) returns (s: State<G, P, O>)
    requires AtFirst(c, s0, 8) && forall k: nat :: k < 20 ==> c.program(k) == UefiInit(k)
    ensures if Compatible(c.env.config, PAYLOAD_MAX) then AtFirst(c, s, 17) else GivesUp(c, s)
  {
    hide Reached, Place, Fail, Branch;
    s := Branch(c, s0, IdentityOk, 11);
    if s.vm.guest.cfg.magic != NYX_HOST_MAGIC || s.vm.guest.cfg.version != NYX_HOST_VERSION {
      s := Fail(c, s);
      return;
    }
    s := Place(c, s, Printf);
    s := Place(c, s, Printf);
    s := Place(c, s, Printf);
    s := Branch(c, s, SizeOk(PAYLOAD_MAX), 17);
    if s.vm.guest.cfg.payloadBufferSize > PAYLOAD_MAX {
      s := Fail(c, s);
    }
  }

  /** ... and from there: the agent answers a compatible host, and any other one makes it abort. */
  method HarnessInit<G, P, O>(c: Context<G, P, O>, s0: State<G, P, O>) returns (s: State<G, P, O>)
    requires At(c, s0, 0) && s0.vm.snap == None && forall k: nat :: k < 20 ==> c.program(k) == UefiInit(k)
    ensures if !Compatible(c.env.config, PAYLOAD_MAX) then GivesUp(c, s)
            else AtFirst(c, s, 20) && s.vm.agent == Some(Answer(c.env.config, true, true))
  {
    hide Reached, Place, AnswerHost;
    s := Handshake(c, s0);
    s := CheckHost(c, s);
    if s.vm.status.Running? {
      s := Place(c, s, Printf);
      s := AnswerHost(c, s, AgentConfig(NYX_AGENT_MAGIC, NYX_AGENT_VERSION, true, s.vm.guest.cfg.bitmapSize), true);
      s := Place(c, s, Printf);
    }
  }

  /** The endless loop of HarnessRun() and of both agent_run()s. */
  method FuzzingLoop<G, P, O>(c: Context<G, P, O>, s0: State<G, P, O>, b: nat) returns (s: State<G, P, O>)
    requires RoundAt(c.program, b) && c.program(b + 4) == Jump(b)
    requires At(c, s0, b) && s0.vm.snap == None
    ensures Served(c, s)
  {
    hide Reached, Await, Place, Target, LetGo, Follow;
    s := s0;
    var resumed := false;
    while s.vm.status.Running?
      invariant Served(c, s) || At(c, s, if resumed then b + 1 else b)
      invariant s.vm.status.Running? && s.vm.snap.Some? ==> s.vm.snap.value.pc == b + 1
      invariant resumed && s.vm.status.Running? ==> Reloads(c.env, s.vm)
      decreases if s.vm.status.Running? then |s.vm.pending| + 1 else 0
    {
      if !resumed {
        s := Await(c, s, NextPayload);
        if !s.vm.status.Running? {
          break;
        }
      }
      s := Place(c, s, Acquire);
      s := Target(c, s);
      resumed := Reloads(c.env, s.vm);
      s := LetGo(c, s);
      if s.vm.status.Running? && !resumed {
        s := Follow(c, s, b);
      }
    }
  }

  /** The end of the straight-line agents: one payload and the agent ends, unless the snapshot is
      restored, and then as long as there are payloads. */
  method FuzzOnce<G, P, O>(c: Context<G, P, O>, s0: State<G, P, O>, b: nat) returns (s: State<G, P, O>)
    requires RoundAt(c.program, b) && c.program(b + 4) == Exit
    requires At(c, s0, b) && s0.vm.snap == None
    ensures if s0.vm.pending == [] || !(s0.vm.agent.Some? && s0.vm.agent.value.nonReload && c.env.persistent)
            then Served(c, s)
            else Reached(c, s) && s.vm.status.Halted? && s.vm.pending == s0.vm.pending[1..]
    ensures Over(c, s)
  {
    hide Reached, Await, Place, Target, LetGo, Return;
    s := Await(c, s0, NextPayload);
    ghost var once := s0.vm.agent.Some? && s0.vm.agent.value.nonReload && c.env.persistent;
    while s.vm.status.Running?
      invariant if once && s0.vm.pending != [] && !s.vm.status.Running?
                then Reached(c, s) && s.vm.status.Halted? && s.vm.pending == s0.vm.pending[1..]
                else Served(c, s) ||
                     (At(c, s, b + 1) && s.vm.snap.Some? && s.vm.snap.value.pc == b + 1 && s.vm.agent == s0.vm.agent
                      && (once ==> s.vm.pending == s0.vm.pending[1..]))
      decreases if s.vm.status.Running? then |s.vm.pending| + 1 else 0
    {
      s := Place(c, s, Acquire);
      s := Target(c, s);
      var resumed := Reloads(c.env, s.vm);
      s := LetGo(c, s);
      if s.vm.status.Running? && !resumed {
        s := Return(c, s);
      }
    }
  }

  /** InitializekAFLDxe() and, when it is called, HarnessRun() */
  method Dxe<G, P, O>(env: Env<G, P, O>, mem: G, garbage: HostConfig, buffer: P, payloads: seq<P>)
    returns (s: State<G, P, O>)
    ensures Over(Context(DxeHarness, env, Boot(mem, garbage, buffer, payloads)), s) && Accepts(s.vm.trace)
    ensures if Compatible(env.config, PAYLOAD_MAX) then s.vm.status.Blocked? && s.vm.pending == []
            else s.vm.status.Aborted? && Outcomes(s.vm.trace) == []
    ensures Smooth(DxeAgent, env) ==> Outcomes(s.vm.trace) == Expected(DxeAgent, env, mem, payloads)
  {
    hide Reached, Run, Step, Accepts, Outcomes, Expected, Smooth, RegisterBuffer;
    var c := Context(DxeHarness, env, Boot(mem, garbage, buffer, payloads));
    s := HarnessInit(c, Begin(c));
    if s.vm.status.Running? {
      s := RegisterBuffer(c, s, PAYLOAD_MAX);
      s := FuzzingLoop(c, s, 21);
    }
    SessionEnds(c, s, DxeAgent);
  }

  /** UefiMain(): agent_init() and agent_run() */
  method UefiAgent<G, P, O>(env: Env<G, P, O>, mem: G, garbage: HostConfig, buffer: P, payloads: seq<P>)
    returns (s: State<G, P, O>)
    ensures Over(Context(AgentLib, env, Boot(mem, garbage, buffer, payloads)), s) && Accepts(s.vm.trace)
    ensures if Compatible(env.config, PAYLOAD_MAX) then s.vm.status.Blocked? && s.vm.pending == []
            else s.vm.status.Aborted? && Outcomes(s.vm.trace) == []
    ensures Smooth(UefiLibrary, env) ==> Outcomes(s.vm.trace) == Expected(UefiLibrary, env, mem, payloads)
  {
    hide Reached, Run, Step, Accepts, Outcomes, Expected, Smooth, RegisterBuffer, Init, Place;
    var c := Context(AgentLib, env, Boot(mem, garbage, buffer, payloads));
    s := HarnessInit(c, Begin(c));
    if s.vm.status.Running? {
      s := Init(c, s);
      s := RegisterBuffer(c, s, PAYLOAD_MAX);
      s := Place(c, s, SubmitCr3);
      s := FuzzingLoop(c, s, 23);
    }
    SessionEnds(c, s, UefiLibrary);
  }

  // ---------------------------------------------------------------- zephyr

  lemma ZephyrCode()
    ensures Zephyr(0) == Zephyr(1) == Zephyr(2) == Call(Printf) && Zephyr(3) == Call(Acquire)
    ensures Zephyr(4) == Call(Release) && Zephyr(5) == Call(SubmitCr3) && Zephyr(6) == Call(SubmitMode)
  {
  }

  /** agent_init() up to the handlers */
  method ZephyrHandshake<G, P, O>(c: Context<G, P, O>, s0: State<G, P, O>) returns (s: State<G, P, O>)
    requires At(c, s0, 0) && s0.vm.snap == None && c.program == Zephyr
    ensures At(c, s, 7) && s.vm.snap == None
  {
    hide Reached, Place, LetGo, Zephyr;
    ZephyrCode();
    s := Place(c, s0, Printf);
    s := Place(c, s, Printf);
    s := Place(c, s, Printf);
    s := AnnounceReady(c, s);
    s := Place(c, s, SubmitCr3);
    s := Place(c, s, SubmitMode);
  }

  /** ... up to the host's configuration */
  method ZephyrAsk<G, P, O>(c: Context<G, P, O>, s0: State<G, P, O>) returns (s: State<G, P, O>)
    requires At(c, s0, 7) && s0.vm.snap == None && c.program == Zephyr
    ensures AtFirst(c, s, 12)
  {
    hide Reached, PlaceIf, AskHost;
    s := PlaceIf(c, s0, 0, SubmitPanic);
    s := PlaceIf(c, s, 1, SubmitKasan);
    s := AskHost(c, s);
  }

  /** The checks of zephyr's and vuln_test's handshakes */
  ghost predicate ChecksIdentityAt(p: Program, b: nat) {
    && p(b) == If(IdentityOk, b + 3) && p(b + 1) == Call(Printf) && p(b + 2) == Call(UserAbort)
    && p(b + 3) == p(b + 4) == p(b + 5) == Call(Printf)
    && p(b + 6) == If(SizeOk(PAYLOAD_MAX), b + 8) && p(b + 7) == Call(UserAbort)
  }

  method CheckIdentity<G, P, O>(c: Context<G, P, O>, s0: State<G, P, O>, b: nat) returns (s: State<G, P, O>)
    requires AtFirst(c, s0, b) && ChecksIdentityAt(c.program, b)
    ensures if Compatible(c.env.config, PAYLOAD_MAX) then AtFirst(c, s, b + 8) else GivesUp(c, s)
  {
    hide Reached, Place, Abort, Fail, Branch;
    s := Branch(c, s0, IdentityOk, b + 3);
    if s.vm.guest.cfg.magic != NYX_HOST_MAGIC || s.vm.guest.cfg.version != NYX_HOST_VERSION {
      s := Fail(c, s);
      return;
    }
    s := Place(c, s, Printf);
    s := Place(c, s, Printf);
    s := Place(c, s, Printf);
    s := Branch(c, s, SizeOk(PAYLOAD_MAX), b + 8);
    if PAYLOAD_MAX < s.vm.guest.cfg.payloadBufferSize {
      s := Abort(c, s);
    }
  }

  lemma ZephyrAnswerCode()
    ensures ChecksIdentityAt(Zephyr, 12) && Zephyr(20) == SendConfig(true, true)
  {
  }

  /** ... through its checks */
  method ZephyrAnswer<G, P, O>(c: Context<G, P, O>, s0: State<G, P, O>) returns (s: State<G, P, O>)
    requires AtFirst(c, s0, 12) && c.program == Zephyr
    ensures if Compatible(c.env.config, PAYLOAD_MAX)
            then AtFirst(c, s, 21) && s.vm.agent == Some(Answer(c.env.config, true, true))
            else GivesUp(c, s)
  {
    hide Reached, AnswerHost, Compatible, Zephyr, ChecksIdentityAt;
    ZephyrAnswerCode();
    s := CheckIdentity(c, s0, 12);
    if s.vm.status.Running? {
      s := AnswerHost(c, s, AgentConfig(NYX_AGENT_MAGIC, NYX_AGENT_VERSION, true, s.vm.guest.cfg.bitmapSize), true);
    }
  }

  lemma ZephyrRunCode()
    ensures Zephyr(21) == Register(Fixed(PAYLOAD_MAX)) && Zephyr(22) == InitTarget && Zephyr(23) == Call(Printf)
    ensures RoundAt(Zephyr, 24) && Zephyr(28) == Jump(24)
  {
  }

  /** agent_run() */
  method ZephyrRun<G, P, O>(c: Context<G, P, O>, s0: State<G, P, O>) returns (s: State<G, P, O>)
    requires AtFirst(c, s0, 21) && c.program == Zephyr
    ensures Served(c, s)
  {
    hide Reached, RegisterBuffer, Init, Place, Zephyr, RoundAt;
    ZephyrRunCode();
    s := RegisterBuffer(c, s0, PAYLOAD_MAX);
    s := Init(c, s);
    s := Place(c, s, Printf);
    s := FuzzingLoop(c, s, 24);
  }

  /** main() */
  method ZephyrMain<G, P, O>(env: Env<G, P, O>, mem: G, garbage: HostConfig, buffer: P, payloads: seq<P>)
    returns (s: State<G, P, O>)
    ensures Over(Context(Zephyr, env, Boot(mem, garbage, buffer, payloads)), s) && Accepts(s.vm.trace)
    ensures if Compatible(env.config, PAYLOAD_MAX) then s.vm.status.Blocked? && s.vm.pending == []
            else s.vm.status.Aborted? && Outcomes(s.vm.trace) == []
    ensures Smooth(ZephyrAgent, env) ==> Outcomes(s.vm.trace) == Expected(ZephyrAgent, env, mem, payloads)
  {
    hide Reached, Run, Step, Accepts, Outcomes, Expected, Smooth;
    var c := Context(Zephyr, env, Boot(mem, garbage, buffer, payloads));
    s := ZephyrHandshake(c, Begin(c));
    s := ZephyrAsk(c, s);
    s := ZephyrAnswer(c, s);
    if s.vm.status.Running? {
      s := ZephyrRun(c, s);
    }
    SessionEnds(c, s, ZephyrAgent);
  }

  // ---------------------------------------------------------------- windows

  /** main() opens the driver. */
  method OpenDriver<G, P, O>(c: Context<G, P, O>, s0: State<G, P, O>) returns (s: State<G, P, O>)
    requires At(c, s0, 0) && s0.vm.snap == None && c.program == VulnTest
    ensures if c.env.choose(0, |s0.vm.trace|) then At(c, s, 3) && s.vm.snap == None else GivesUp(c, s)
  {
    hide Reached, Fail, Branch;
    var isOpen := c.env.choose(0, |s0.vm.trace|);
    s := Branch(c, s0, Site(0), 3);
    if !isOpen {
      s := Fail(c, s);
    }
  }

  lemma VulnTestHandshakeCode()
    ensures VulnTest(3) == Call(Printf) && VulnTest(4) == Call(Acquire) && VulnTest(5) == Call(Release)
    ensures VulnTest(6) == Call(SubmitCr3) && VulnTest(7) == Call(SubmitMode) && VulnTest(8) == Call(GetHostConfig)
    ensures ChecksIdentityAt(VulnTest, 9) && VulnTest(17) == SendConfig(true, true)
  {
  }

  /** init_agent_handshake() up to the host's configuration */
  method VulnTestHandshake<G, P, O>(c: Context<G, P, O>, s0: State<G, P, O>) returns (s: State<G, P, O>)
    requires At(c, s0, 3) && s0.vm.snap == None && c.program == VulnTest
    ensures AtFirst(c, s, 9)
  {
    hide Reached, Place, AskHost, LetGo, VulnTest, ChecksIdentityAt;
    VulnTestHandshakeCode();
    s := Place(c, s0, Printf);
    s := AnnounceReady(c, s);
    s := Place(c, s, SubmitCr3);
    s := Place(c, s, SubmitMode);
    s := AskHost(c, s);
  }

  /** ... through its checks */
  method VulnTestAnswer<G, P, O>(c: Context<G, P, O>, s0: State<G, P, O>) returns (s: State<G, P, O>)
    requires AtFirst(c, s0, 9) && c.program == VulnTest
    ensures if Compatible(c.env.config, PAYLOAD_MAX)
            then AtFirst(c, s, 18) && s.vm.agent == Some(Answer(c.env.config, true, true))
            else GivesUp(c, s)
  {
    hide Reached, AnswerHost, Compatible, VulnTest, ChecksIdentityAt;
    VulnTestHandshakeCode();
    s := CheckIdentity(c, s0, 9);
    if s.vm.status.Running? {
      s := AnswerHost(c, s, AgentConfig(NYX_AGENT_MAGIC, NYX_AGENT_VERSION, true, s.vm.guest.cfg.bitmapSize), true);
    }
  }

  lemma VulnTestHandlersCode()
    ensures VulnTest(18) == If(Site(1), 20) && VulnTest(19) == Exit
    ensures VulnTest(20) == Call(Printf) && VulnTest(21) == VulnTest(22) == Call(SubmitPanic)
  {
  }

  /** init_panic_handlers() */
  method VulnTestHandlers<G, P, O>(c: Context<G, P, O>, s0: State<G, P, O>) returns (s: State<G, P, O>)
    requires At(c, s0, 18) && s0.vm.snap == None && c.program == VulnTest
    ensures s.vm.snap == None
    ensures if c.env.choose(1, |s0.vm.trace|) then At(c, s, 23) else Reached(c, s) && s.vm.status.Halted?
  {
    hide Reached, Place, Return, Branch, VulnTest;
    VulnTestHandlersCode();
    var resolved := c.env.choose(1, |s0.vm.trace|);
    s := Branch(c, s0, Site(1), 20);
    if !resolved {
      s := Return(c, s);
      return;
    }
    s := Place(c, s, Printf);
    s := Place(c, s, SubmitPanic);
    s := Place(c, s, SubmitPanic);
  }

  /** CR3 and the payload buffer */
  method VulnTestBuffer<G, P, O>(c: Context<G, P, O>, s0: State<G, P, O>) returns (s: State<G, P, O>)
    requires At(c, s0, 23) && s0.vm.snap == None && c.program == VulnTest
    ensures At(c, s, 25) && s.vm.snap == None
  {
    hide Reached, Place, RegisterBuffer;
    s := Place(c, s0, SubmitCr3);
    s := RegisterBuffer(c, s, PAYLOAD_MAX);
  }

  /** set_ip_range() */
  method SetIpRange<G, P, O>(c: Context<G, P, O>, s0: State<G, P, O>) returns (s: State<G, P, O>)
    requires At(c, s0, 25) && s0.vm.snap == None && c.program == VulnTest
    ensures if c.env.choose(2, |s0.vm.trace|) then At(c, s, 31) && s.vm.snap == None else GivesUp(c, s)
  {
    hide Reached, Place, Abort, PlaceIf, Branch;
    var found := c.env.choose(2, |s0.vm.trace|);
    s := Branch(c, s0, Site(2), 30);
    if found {
      s := Place(c, s, RangeSubmit);
    } else {
      s := PlaceIf(c, s, 3, Printf);
      s := Abort(c, s);
    }
  }

  /** main() up to the first payload */
  method VulnTestSetUp<G, P, O>(c: Context<G, P, O>, s0: State<G, P, O>) returns (s: State<G, P, O>)
    requires At(c, s0, 0) && s0.vm.snap == None && c.program == VulnTest
    ensures s.vm.snap == None && (Over(c, s) || At(c, s, 31)) && !s.vm.status.Blocked?
    ensures !Compatible(c.env.config, PAYLOAD_MAX) ==> GivesUp(c, s)
  {
    hide Reached, VulnTest, Compatible, Answer;
    s := OpenDriver(c, s0);
    if s.vm.status.Running? {
      s := VulnTestHandshake(c, s);
      s := VulnTestAnswer(c, s);
    }
    if s.vm.status.Running? {
      s := VulnTestHandlers(c, s);
    }
    if s.vm.status.Running? {
      s := VulnTestBuffer(c, s);
      s := SetIpRange(c, s);
    }
  }

  lemma VulnTestAsks<G, P, O>(c: Context<G, P, O>, s: State<G, P, O>)
    requires Reached(c, s) && c.program == VulnTest
    ensures Asked(s.vm.trace) ==>
              Calls(s.vm.trace) ==
              [Acquire, Release, SubmitCr3, SubmitMode, GetHostConfig, SetAgentConfig(Answer(c.env.config, true, true)),
               SubmitPanic, SubmitPanic, SubmitCr3, GetPayload(PAYLOAD_MAX), RangeSubmit]
  {
    hide Run, Calls, Asked;
    VulnTestRequests(c.env, c.boot.guest.mem, c.boot.guest.cfg, c.boot.buffer, c.boot.pending, s.steps);
  }

  /** main() */
  method VulnTestMain<G, P, O>(env: Env<G, P, O>, mem: G, garbage: HostConfig, buffer: P, payloads: seq<P>)
    returns (s: State<G, P, O>)
    ensures Over(Context(VulnTest, env, Boot(mem, garbage, buffer, payloads)), s) && Accepts(s.vm.trace)
    ensures !Compatible(env.config, PAYLOAD_MAX) ==> s.vm.status.Aborted?
    ensures Asked(s.vm.trace) ==>
              Calls(s.vm.trace) ==
              [Acquire, Release, SubmitCr3, SubmitMode, GetHostConfig, SetAgentConfig(Answer(env.config, true, true)),
               SubmitPanic, SubmitPanic, SubmitCr3, GetPayload(PAYLOAD_MAX), RangeSubmit]
    ensures s.vm.status.Aborted? || s.vm.snap == None ==> Outcomes(s.vm.trace) == []
    ensures s.vm.status.Blocked? ==> s.vm.pending == []
    ensures Smooth(VulnDriver, env) ==> Outcomes(s.vm.trace) == Expected(VulnDriver, env, mem, payloads)
  {
    hide Reached, Run, Step, Accepts, Outcomes, Expected, Smooth, VulnTest, RoundAt, Calls, Asked;
    ShapeIsRight(VulnDriver);
    var c := Context(VulnTest, env, Boot(mem, garbage, buffer, payloads));
    s := VulnTestSetUp(c, Begin(c));
    if s.vm.status.Running? {
      s := FuzzOnce(c, s, 31);
    }
    SessionEnds(c, s, VulnDriver);
    VulnTestAsks(c, s);
  }

  /** The start of main() and of kafl_agent_init() */
  method SelfFuzzHandshake<G, P, O>(c: Context<G, P, O>, s0: State<G, P, O>) returns (s: State<G, P, O>)
    requires At(c, s0, 0) && s0.vm.snap == None && c.program == SelfFuzz
    ensures At(c, s, 6) && s.vm.snap == None
  {
    hide Reached, Place, LetGo;
    s := Place(c, s0, Printf);
    s := Place(c, s, Printf);
    s := Place(c, s, Lock);
    s := AnnounceReady(c, s);
    s := Place(c, s, SubmitMode);
  }

  /** ... with no test of what the host is */
  method SelfFuzzAsk<G, P, O>(c: Context<G, P, O>, s0: State<G, P, O>) returns (s: State<G, P, O>)
    requires At(c, s0, 6) && s0.vm.snap == None && c.program == SelfFuzz
    ensures At(c, s, 11) && s.vm.snap == None
  {
    hide Reached, Place, AskHost;
    s := AskHost(c, s0);
    s := Place(c, s, Printf);
    s := Place(c, s, Printf);
    s := Place(c, s, Printf);
    s := Place(c, s, Printf);
  }

  /** ... with a buffer as large as the host wants it */
  method SelfFuzzBuffer<G, P, O>(c: Context<G, P, O>, s0: State<G, P, O>) returns (s: State<G, P, O>)
    requires At(c, s0, 11) && s0.vm.snap == None && c.program == SelfFuzz
    ensures if c.env.choose(0, |s0.vm.trace|) then At(c, s, 15) && s.vm.snap == None else GivesUp(c, s)
  {
    hide Reached, Place, Abort, Branch, RegisterBuffer;
    var locked := c.env.choose(0, |s0.vm.trace|);
    s := Branch(c, s0, Site(0), 13);
    if !locked {
      s := Abort(c, s);
      return;
    }
    s := Place(c, s, Printf);
    s := RegisterBuffer(c, s, s.vm.guest.cfg.payloadBufferSize);
  }

  /** ... and from there to the range buffer */
  method SelfFuzzAnswer<G, P, O>(c: Context<G, P, O>, s0: State<G, P, O>) returns (s: State<G, P, O>)
    requires At(c, s0, 15) && s0.vm.snap == None && c.program == SelfFuzz
    ensures At(c, s, 19) && s.vm.snap == None
  {
    hide Reached, Place, AnswerHost;
    s := Place(c, s0, SubmitCr3);
    s := AnswerHost(c, s, AgentConfig(NYX_AGENT_MAGIC, NYX_AGENT_VERSION, false, 0), false);
    s := Place(c, s, Printf);
    s := Place(c, s, RangeAdvise);
  }

  /** submit_ip_ranges(): the search for the section */
  method FindText<G, P, O>(c: Context<G, P, O>, s0: State<G, P, O>) returns (s: State<G, P, O>)
    requires At(c, s0, 19) && s0.vm.snap == None && c.program == SelfFuzz
    ensures GivesUp(c, s) || (At(c, s, 24) && s.vm.snap == None)
  {
    hide Reached, Abort, Branch;
    var isImage := c.env.choose(1, |s0.vm.trace|);
    s := Branch(c, s0, Site(1), 21);
    if !isImage {
      s := Abort(c, s);
      return;
    }
    var found := c.env.choose(2, |s.vm.trace|);
    s := Branch(c, s, Site(2), 24);
    if !found {
      s := Abort(c, s);
    }
  }

  /** ... and its submission */
  method SubmitText<G, P, O>(c: Context<G, P, O>, s0: State<G, P, O>) returns (s: State<G, P, O>)
    requires At(c, s0, 24) && s0.vm.snap == None && c.program == SelfFuzz
    ensures GivesUp(c, s) || (At(c, s, 27) && s.vm.snap == None)
  {
    hide Reached, Place, Abort, Branch;
    s := Place(c, s0, RangeSubmit);
    var locked := c.env.choose(3, |s.vm.trace|);
    s := Branch(c, s, Site(3), 27);
    if !locked {
      s := Abort(c, s);
    }
  }

  /** main() up to the first payload */
  method SelfFuzzSetUp<G, P, O>(c: Context<G, P, O>, s0: State<G, P, O>) returns (s: State<G, P, O>)
    requires At(c, s0, 0) && s0.vm.snap == None && c.program == SelfFuzz
    ensures GivesUp(c, s) || (At(c, s, 27) && s.vm.snap == None)
  {
    hide Reached, SelfFuzz;
    s := SelfFuzzHandshake(c, s0);
    s := SelfFuzzAsk(c, s);
    s := SelfFuzzBuffer(c, s);
    if s.vm.status.Running? {
      s := SelfFuzzAnswer(c, s);
      s := FindText(c, s);
    }
    if s.vm.status.Running? {
      s := SubmitText(c, s);
    }
  }

  /** main() */
  method SelfFuzzMain<G, P, O>(env: Env<G, P, O>, mem: G, garbage: HostConfig, buffer: P, payloads: seq<P>)
    returns (s: State<G, P, O>)
    ensures Over(Context(SelfFuzz, env, Boot(mem, garbage, buffer, payloads)), s) && Accepts(s.vm.trace)
    ensures s.vm.status.Aborted? || s.vm.snap == None ==> Outcomes(s.vm.trace) == []
    ensures s.vm.status.Blocked? ==> s.vm.pending == []
    ensures Smooth(SelfFuzzer, env) ==> Outcomes(s.vm.trace) == Expected(SelfFuzzer, env, mem, payloads)
  {
    hide Reached, Run, Step, Accepts, Outcomes, Expected, Smooth, SelfFuzz, RoundAt;
    ShapeIsRight(SelfFuzzer);
    var c := Context(SelfFuzz, env, Boot(mem, garbage, buffer, payloads));
    s := SelfFuzzSetUp(c, Begin(c));
    if s.vm.status.Running? {
      s := FuzzOnce(c, s, 27);
    }
    SessionEnds(c, s, SelfFuzzer);
  }

  // ---------------------------------------------------------------- linux: forkserver

  /** The checks of the two linux agents, one by one */
  ghost predicate ChecksInTurnAt(p: Program, b: nat, max: nat) {
    && p(b) == If(MagicOk, b + 4) && p(b + 1) == Call(Printf) && p(b + 2) == Call(UserAbort)
    && p(b + 4) == If(VersionOk, b + 8) && p(b + 5) == Call(Printf) && p(b + 6) == Call(UserAbort)
    && p(b + 8) == If(SizeOk(max), b + 12) && p(b + 9) == Call(Printf) && p(b + 10) == Call(UserAbort)
  }

  method CheckInTurn<G, P, O>(c: Context<G, P, O>, s0: State<G, P, O>, b: nat, max: nat) returns (s: State<G, P, O>)
    requires AtFirst(c, s0, b) && ChecksInTurnAt(c.program, b, max)
    ensures if Compatible(c.env.config, max) then AtFirst(c, s, b + 12) && s.vm.guest.cpu == s0.vm.guest.cpu
            else GivesUp(c, s)
  {
    hide Reached, Branch, Fail;
    s := Branch(c, s0, MagicOk, b + 4);
    if s.vm.guest.cfg.magic != NYX_HOST_MAGIC {
      s := Fail(c, s);
      return;
    }
    s := Branch(c, s, VersionOk, b + 8);
    if s.vm.guest.cfg.version != NYX_HOST_VERSION {
      s := Fail(c, s);
      return;
    }
    s := Branch(c, s, SizeOk(max), b + 12);
    if s.vm.guest.cfg.payloadBufferSize > max {
      s := Fail(c, s);
    }
  }

  /** ... its answer, and the ready state */
  method ForkserverAnswer<G, P, O>(c: Context<G, P, O>, s0: State<G, P, O>, allow: bool) returns (s: State<G, P, O>)
    requires AtFirst(c, s0, 17) && c.program == ForkserverProgram(allow)
    ensures var answer, t := Answer(c.env.config, allow, true), s.vm.trace;
            && AtFirst(c, s, 20) && s.vm.guest.cpu == s0.vm.guest.cpu && s.vm.agent == Some(answer)
            && t == s0.vm.trace + [Hc(SetAgentConfig(answer))] + [Hc(Acquire)] + [Hc(Release)]
  {
    hide Reached, AnswerHost, Place, LetGo;
    s := AnswerHost(c, s0, AgentConfig(NYX_AGENT_MAGIC, NYX_AGENT_VERSION, allow, s0.vm.guest.cfg.bitmapSize), true);
    s := AnnounceReady(c, s);
  }

  lemma ForkserverInitCode(allow: bool)
    ensures var p := ForkserverProgram(allow);
            p(3) == Detect && p(4) == Call(GetHostConfig) && ChecksInTurnAt(p, 5, PAYLOAD_MAX)
  {
  }

  /** agent_init(): the CPU type is known from here on; a compatible host, and no other, is answered
      and then shown the ready state. */
  method ForkserverInit<G, P, O>(c: Context<G, P, O>, s0: State<G, P, O>, allow: bool) returns (s: State<G, P, O>)
    requires At(c, s0, 3) && s0.vm.snap == None && s0.vm.guest.cpu == Invalid && c.program == ForkserverProgram(allow)
    ensures if !Compatible(c.env.config, PAYLOAD_MAX) then GivesUp(c, s)
            else
              var answer, t := Answer(c.env.config, allow, true), s.vm.trace;
              && AtFirst(c, s, 20) && s.vm.guest.cpu == c.env.cpu && s.vm.agent == Some(answer) && |t| >= 3
              && t[|t|-3..] == [Hc(SetAgentConfig(answer)), Hc(Acquire), Hc(Release)]
  {
    hide Reached, Know, AskHost, Compatible, ForkserverProgram, ChecksInTurnAt;
    ForkserverInitCode(allow);
    s := Know(c, s0);
    s := AskHost(c, s);
    s := CheckInTurn(c, s, 5, PAYLOAD_MAX);
    if s.vm.status.Running? {
      s := ForkserverAnswer(c, s, allow);
    }
  }

  lemma ForkserverCode(allow: bool)
    ensures var p := ForkserverProgram(allow);
            && p(0) == If(Site(0), 3) && p(1) == Call(Printf) && p(2) == Call(UserAbort)
            && p(20) == Register(Fixed(PAYLOAD_MAX)) && p(21) == Call(SubmitMode) && p(22) == If(Site(1), 25)
            && p(23) == Call(Printf) && p(24) == Call(UserAbort)
  {
  }

  lemma SearchCode(allow: bool)
    ensures var p := ForkserverProgram(allow);
            && p(25) == Unless(Site(2), 29) && p(26) == Call(Printf) && p(27) == Guarded(RangeSubmit)
            && p(28) == Jump(25) && p(29) == If(Site(3), 31) && p(30) == Call(UserAbort) && p(31) == Call(Printf)
  {
  }

  /** The forkserver is set up so far, at this place. */
  ghost predicate AtSetUp<G, P, O>(c: Context<G, P, O>, s: State<G, P, O>, pc: nat, allow: bool) {
    && At(c, s, pc) && s.vm.snap == None && s.vm.guest.cpu == c.env.cpu
    && s.vm.agent.Some? && s.vm.agent.value.nonReload == allow
  }

  /** forkserver() opens its pipes and descriptors. */
  method OpenPipes<G, P, O>(c: Context<G, P, O>, s0: State<G, P, O>, ghost allow: bool) returns (s: State<G, P, O>)
    requires At(c, s0, 0) && s0.vm.snap == None && c.program == ForkserverProgram(allow)
    ensures if c.env.choose(0, |s0.vm.trace|)
            then At(c, s, 3) && s.vm.snap == None && s.vm.guest.cpu == s0.vm.guest.cpu else GivesUp(c, s)
  {
    hide Reached, ForkserverProgram, Fail, Branch;
    ForkserverCode(allow);
    var works := c.env.choose(0, |s0.vm.trace|);
    s := Branch(c, s0, Site(0), 3);
    if !works {
      s := Fail(c, s);
    }
  }

  /** ... registers its buffer and opens the memory map, */
  method OpenMap<G, P, O>(c: Context<G, P, O>, s0: State<G, P, O>, ghost allow: bool) returns (s: State<G, P, O>)
    requires AtSetUp(c, s0, 20, allow) && c.program == ForkserverProgram(allow)
    ensures AtSetUp(c, s, 25, allow) || GivesUp(c, s)
  {
    hide Reached, ForkserverProgram, RegisterBuffer, Place, Fail, Branch;
    ForkserverCode(allow);
    s := RegisterBuffer(c, s0, PAYLOAD_MAX);
    s := Place(c, s, SubmitMode);
    var isOpen := c.env.choose(1, |s.vm.trace|);
    s := Branch(c, s, Site(1), 25);
    if !isOpen {
      s := Fail(c, s);
    }
  }

  /** ... reports a range for each line that matches, through hypercall(), until the map ends, */
  method SearchMap<G, P, O>(c: Context<G, P, O>, s0: State<G, P, O>, ghost allow: bool, ghost last: nat)
    returns (s: State<G, P, O>)
    requires AtSetUp(c, s0, 25, allow) && c.program == ForkserverProgram(allow)
    requires forall n: nat :: n >= last ==> !c.env.choose(2, n)
    ensures AtSetUp(c, s, 29, allow)
  {
    hide Reached, ForkserverProgram, BranchUnless, Place, PlaceGuarded, Follow;
    SearchCode(allow);
    s := s0;
    while c.env.choose(2, |s.vm.trace|)
      invariant AtSetUp(c, s, 25, allow)
      decreases last - |s.vm.trace|
    {
      s := BranchUnless(c, s, Site(2), 29);
      s := Place(c, s, Printf);
      s := PlaceGuarded(c, s, RangeSubmit);
      s := Follow(c, s, 25);
    }
    s := BranchUnless(c, s, Site(2), 29);
  }

  /** ... and goes on to its loop if there was one. */
  method HasRanges<G, P, O>(c: Context<G, P, O>, s0: State<G, P, O>, ghost allow: bool) returns (s: State<G, P, O>)
    requires AtSetUp(c, s0, 29, allow) && c.program == ForkserverProgram(allow)
    ensures AtSetUp(c, s, 32, allow) || GivesUp(c, s)
  {
    hide Reached, ForkserverProgram, Branch, Abort, Place;
    SearchCode(allow);
    var found := c.env.choose(3, |s0.vm.trace|);
    s := Branch(c, s0, Site(3), 31);
    if found {
      s := Place(c, s, Printf);
    } else {
      s := Abort(c, s);
    }
  }

  /** forkserver(), whose map ends before `last` events: it keeps the protocol, and if nothing fails
      it shows exactly the runs of all payloads, and their reports. */
  method ForkserverMain<G, P, O>(
    allow: bool, env: Env<G, P, O>, mem: G, garbage: HostConfig, buffer: P, payloads: seq<P>, ghost last: nat)
    returns (s: State<G, P, O>)
    requires forall n: nat :: n >= last ==> !env.choose(2, n)
    ensures Over(Context(ForkserverProgram(allow), env, Boot(mem, garbage, buffer, payloads)), s)
    ensures Accepts(s.vm.trace) && (s.vm.status.Aborted? || (s.vm.status.Blocked? && s.vm.pending == []))
    ensures !Compatible(env.config, PAYLOAD_MAX) ==> s.vm.status.Aborted? && Outcomes(s.vm.trace) == []
    ensures SetUpWorks(env, last) && GetsThrough(env) ==>
              Outcomes(s.vm.trace) == RunsOf(allow, env, mem, payloads) && Balanced(allow, env, s.vm.trace, 1)
  {
    hide Reached, Run, Step, Accepts, Outcomes, ForkserverProgram, SetUpWorks, GetsThrough, Balanced, Compatible,
      Iterations;
    var c := Context(ForkserverProgram(allow), env, Boot(mem, garbage, buffer, payloads));
    s := OpenPipes(c, Begin(c), allow);
    if s.vm.status.Running? {
      s := ForkserverInit(c, s, allow);
    }
    if s.vm.status.Running? {
      s := OpenMap(c, s, allow);
    }
    if s.vm.status.Running? {
      s := SearchMap(c, s, allow, last);
      s := HasRanges(c, s, allow);
    }
    if s.vm.status.Running? {
      s := ForkLoop(c, s, allow);
    }
    SessionEnds(c, s, Forking(allow));
    if SetUpWorks(env, last) && GetsThrough(env) {
      ForkserverEnds(c, s, allow, last);
    }
  }

  lemma ForkserverEnds<G, P, O>(c: Context<G, P, O>, s: State<G, P, O>, allow: bool, last: nat)
    requires Over(c, s) && c.program == ForkserverProgram(allow) && SetUpWorks(c.env, last) && GetsThrough(c.env)
    ensures Outcomes(s.vm.trace) == RunsOf(allow, c.env, c.boot.guest.mem, c.boot.pending)
    ensures Balanced(allow, c.env, s.vm.trace, 1)
  {
    hide Run, Step, Outcomes, SetUpWorks, GetsThrough, Balanced, Chained, Fresh;
    var ps := c.boot.pending;
    var n, served := ForkserverShows(allow, c.env, c.boot.guest.mem, c.boot.guest.cfg, c.boot.buffer, ps, last);
    assert RunsOf(allow, c.env, c.boot.guest.mem, ps)[..|ps|] == RunsOf(allow, c.env, c.boot.guest.mem, ps);
    RunSplit(c.program, c.env, c.boot, s.steps, n);
    RunStopped(c.program, c.env, s.vm, n);
  }

  /** Behind the acquisition: the snapshot was taken here, and the CPU type is known. */
  ghost predicate InFork<G, P, O>(c: Context<G, P, O>, s: State<G, P, O>, pc: nat, allow: bool) {
    && At(c, s, pc) && s.vm.agent.Some? && s.vm.agent.value.nonReload == allow && s.vm.guest.cpu == c.env.cpu
    && s.vm.snap.Some? && s.vm.snap.value.pc == 33 && s.vm.snap.value.cpu == c.env.cpu
  }

  /** The child has been restored with the next payload. */
  ghost predicate Resumes<G, P, O>(c: Context<G, P, O>, t: State<G, P, O>, s: State<G, P, O>, allow: bool) {
    InFork(c, t, 33, allow) && s.vm.pending != [] && t.vm.pending == s.vm.pending[1..]
  }

  /** The payload goes to the target's input file or pipe. */
  method PassInput<G, P, O>(c: Context<G, P, O>, s0: State<G, P, O>, ghost allow: bool) returns (s: State<G, P, O>)
    requires At(c, s0, 33) && c.program == ForkserverProgram(allow)
    ensures Failed(c, s) || GoesTo(c, s, s0, 39)
  {
    hide Reached, ForkserverProgram, Branch, Fail;
    InputCode(allow);
    var isOpen := c.env.choose(4, |s0.vm.trace|);
    s := Branch(c, s0, Site(4), 36);
    if !isOpen {
      s := Fail(c, s);
      return;
    }
    var written := c.env.choose(5, |s.vm.trace|);
    s := Branch(c, s, Site(5), 39);
    if !written {
      s := Fail(c, s);
    }
  }

  /** The child's end. Through exit() it runs snapshot_reload(), which releases for it unless
      persistent mode is allowed or the CPU type is not v1; that brings back the snapshot, if there
      is a payload. _exit() and signals leave the release to the parent. */
  method ChildExits<G, P, O>(c: Context<G, P, O>, s0: State<G, P, O>, allow: bool)
    returns (s: State<G, P, O>, resumed: bool)
    requires InFork(c, s0, 40, allow) && c.program == ForkserverProgram(allow) && s0.vm.guest.last.Some?
    ensures var fate := c.env.fate(s0.vm.guest.last.value);
            var releases := fate.Exited? && fate.ranAtexit && !allow && c.env.cpu == V1;
            && (resumed <==> releases && s0.vm.pending != [])
            && if resumed then Resumes(c, s, s0, allow)
            else if releases then Served(c, s)
            else InFork(c, s, 42, allow) && s.vm.pending == s0.vm.pending && s.vm.guest.last == s0.vm.guest.last
  {
    assert c.program(40) == Unless(AtexitRan, 42);
    assert c.program(41) == if allow then Jump(42) else Guarded(Release);
    hide Reached, ForkserverProgram, BranchUnless, LetGo, Follow, Skip;
    var fate := c.env.fate(s0.vm.guest.last.value);
    s, resumed := BranchUnless(c, s0, AtexitRan, 42), false;
    if fate.Exited? && fate.ranAtexit {
      if allow {
        s := Follow(c, s, 42);
      } else if c.env.cpu == V1 {
        s := LetGo(c, s);
        resumed := s.vm.status.Running?;
      } else {
        s := Skip(c, s, Release);
      }
    }
  }

  lemma InputCode(allow: bool)
    ensures var p := ForkserverProgram(allow);
            && p(33) == If(Site(4), 36) && p(34) == p(37) == Call(Printf) && p(35) == p(38) == Call(UserAbort)
            && p(36) == If(Site(5), 39)
  {
  }

  lemma ParentCode(allow: bool)
    ensures var p := ForkserverProgram(allow);
            p(42) == Unless(Signaled, 48) && p(48) == Unless(ExitStatusIs(ASAN_EXIT_CODE), 50) && p(49) == Call(Kasan)
  {
  }

  lemma SignalCode(allow: bool)
    ensures var p := ForkserverProgram(allow);
            && p(43) == If(TermSigIs(SIGVTALRM), 46) && p(44) == Call(Panic) && p(46) == Call(Printf)
            && p(45) == p(47) == Jump(50)
  {
  }

  /** The parent, behind waitpid(), when the child was killed by a signal */
  method ReportSignal<G, P, O>(c: Context<G, P, O>, s0: State<G, P, O>, ghost allow: bool) returns (s: State<G, P, O>)
    requires At(c, s0, 43) && c.program == ForkserverProgram(allow) && s0.vm.guest.last.Some?
    ensures GoesTo(c, s, s0, 50)
  {
    hide Reached, ForkserverProgram, Branch, PlaceAndFollow, Encode, TermSig;
    SignalCode(allow);
    var status := Encode(c.env.fate(s0.vm.guest.last.value));
    s := Branch(c, s0, TermSigIs(SIGVTALRM), 46);
    if TermSig(status) == SIGVTALRM {
      s := PlaceAndFollow(c, s, Printf, 50);
    } else {
      s := PlaceAndFollow(c, s, Panic, 50);
    }
  }

  /** ... in general: it takes the status word apart. */
  method ParentReportsTo<G, P, O>(c: Context<G, P, O>, s0: State<G, P, O>, ghost allow: bool)
    returns (s: State<G, P, O>)
    requires At(c, s0, 42) && c.program == ForkserverProgram(allow) && s0.vm.guest.last.Some?
    ensures GoesTo(c, s, s0, 50)
  {
    hide Reached, ForkserverProgram, BranchUnless, Place, Encode, IfSignaled, ExitStatus;
    ParentCode(allow);
    var status := Encode(c.env.fate(s0.vm.guest.last.value));
    s := BranchUnless(c, s0, Signaled, 48);
    if IfSignaled(status) {
      s := ReportSignal(c, s, allow);
    } else {
      s := BranchUnless(c, s, ExitStatusIs(ASAN_EXIT_CODE), 50);
      if ExitStatus(status) == ASAN_EXIT_CODE {
        s := Place(c, s, Kasan);
      }
    }
  }

  /** The parent's RELEASE: the child is restored, or the parent goes on to fork the next one. */
  method ParentReleases<G, P, O>(c: Context<G, P, O>, s0: State<G, P, O>, allow: bool)
    returns (s: State<G, P, O>, resumed: bool)
    requires InFork(c, s0, 50, allow) && c.program == ForkserverProgram(allow)
    ensures resumed <==> !(allow && c.env.persistent) && s0.vm.pending != []
    ensures if resumed then Resumes(c, s, s0, allow)
            else if !(allow && c.env.persistent) then Served(c, s)
            else InFork(c, s, 32, allow) && s.vm.pending == s0.vm.pending
  {
    assert c.program(50) == Call(Release) && c.program(51) == Jump(32);
    hide Reached, ForkserverProgram, LetGo, Follow;
    resumed := Reloads(c.env, s0.vm) && s0.vm.pending != [];
    s := LetGo(c, s0);
    if allow && c.env.persistent {
      s := Follow(c, s, 32);
    }
  }

  /** One turn of the loop, from the acquisition. */
  method ForkTurn<G, P, O>(c: Context<G, P, O>, s0: State<G, P, O>, allow: bool)
    returns (s: State<G, P, O>, resumed: bool)
    requires InFork(c, s0, 33, allow) && c.program == ForkserverProgram(allow)
    ensures if resumed then Resumes(c, s, s0, allow) && !(allow && c.env.persistent)
            else Failed(c, s) || Served(c, s) ||
                 (InFork(c, s, 32, allow) && s.vm.pending == s0.vm.pending && allow && c.env.persistent)
  {
    assert c.program(39) == RunTarget;
    hide Reached, ForkserverProgram, Target;
    resumed := false;
    s := PassInput(c, s0, allow);
    if s.vm.status.Running? {
      s := Target(c, s);
      s, resumed := ChildExits(c, s, allow);
      if s.vm.status.Running? && !resumed {
        s := ParentReportsTo(c, s, allow);
        s, resumed := ParentReleases(c, s, allow);
      }
    }
  }

  lemma BothStopped<G, P, O>(c: Context<G, P, O>, s: State<G, P, O>, n: nat)
    requires Over(c, s) && !Run(c.program, c.env, c.boot, n).status.Running?
    ensures s.vm == Run(c.program, c.env, c.boot, n)
  {
    hide Run;
    if n <= s.steps {
      RunSplit(c.program, c.env, c.boot, n, s.steps - n);
      RunStopped(c.program, c.env, Run(c.program, c.env, c.boot, n), s.steps - n);
    } else {
      RunSplit(c.program, c.env, c.boot, s.steps, n - s.steps);
      RunStopped(c.program, c.env, s.vm, n - s.steps);
    }
  }

  /** forkserver()'s loop: it ends by an abort or when payloads run out, and what the host sees from
      the first acquisition on are the iterations over all payloads. */
  method ForkLoop<G, P, O>(c: Context<G, P, O>, s0: State<G, P, O>, allow: bool) returns (s: State<G, P, O>)
    requires At(c, s0, 32) && s0.vm.snap == None && c.program == ForkserverProgram(allow)
    requires s0.vm.agent.Some? && s0.vm.agent.value.nonReload == allow && s0.vm.guest.cpu == c.env.cpu
    ensures Failed(c, s) || Served(c, s)
    ensures s0.vm.pending != [] ==>
              s.vm.trace == Iterations(allow, c.env, s0.vm.guest.mem, s0.vm.trace + [Hc(FastAcquire)], s0.vm.pending)
  {
    s := s0;
    var resumed := false;
    while s.vm.status.Running?
      invariant Failed(c, s) || Served(c, s) ||
                (if resumed then InFork(c, s, 33, allow)
                 else At(c, s, 32) && s.vm.agent.Some? && s.vm.agent.value.nonReload == allow
                      && s.vm.guest.cpu == c.env.cpu
                      && (s.vm.snap.Some? ==> s.vm.snap.value.pc == 33 && s.vm.snap.value.cpu == c.env.cpu))
      invariant resumed ==> !(allow && c.env.persistent)
      decreases if s.vm.status.Running? then |s.vm.pending| + 1 else 0
    {
      hide Reached, Await;
      if !resumed {
        s := Await(c, s, FastAcquire);
        if !s.vm.status.Running? {
          break;
        }
      }
      s, resumed := ForkTurn(c, s, allow);
    }
    if s0.vm.pending != [] {
      ForkLoopTrace(c, s0, s, allow);
    }
  }

  lemma ForkLoopTrace<G, P, O>(c: Context<G, P, O>, s0: State<G, P, O>, s: State<G, P, O>, allow: bool)
    requires At(c, s0, 32) && s0.vm.snap == None && c.program == ForkserverProgram(allow) && s0.vm.pending != []
    requires Over(c, s)
    ensures s.vm.trace == Iterations(allow, c.env, s0.vm.guest.mem, s0.vm.trace + [Hc(FastAcquire)], s0.vm.pending)
  {
    hide Run, Iterations;
    var guest := c.boot.guest;
    var n := ForkserverSession(allow, c.env, guest.mem, guest.cfg, c.boot.buffer, c.boot.pending, s0.steps);
    BothStopped(c, s, s0.steps + n);
  }

  // ---------------------------------------------------------------- linux: fs_fuzzer

  lemma FsFuzzerInitCode()
    ensures ChecksInTurnAt(FsFuzzer, 9, FS_PAYLOAD_MAX) && FsFuzzer(21) == SendConfig(false, true)
  {
  }

  /** agent_init() from the host's configuration on */
  method FsFuzzerInit<G, P, O>(c: Context<G, P, O>, s0: State<G, P, O>) returns (s: State<G, P, O>)
    requires AtFirst(c, s0, 9) && c.program == FsFuzzer
    ensures if Compatible(c.env.config, FS_PAYLOAD_MAX)
            then AtFirst(c, s, 22) && s.vm.agent == Some(Answer(c.env.config, false, true))
            else Failed(c, s)
  {
    hide Reached, AnswerHost, Compatible, FsFuzzer, ChecksInTurnAt;
    FsFuzzerInitCode();
    s := CheckInTurn(c, s0, 9, FS_PAYLOAD_MAX);
    if s.vm.status.Running? {
      s := AnswerHost(c, s, AgentConfig(NYX_AGENT_MAGIC, NYX_AGENT_VERSION, false, s.vm.guest.cfg.bitmapSize), true);
    }
  }

  /** main() up to there */
  method FsFuzzerStart<G, P, O>(c: Context<G, P, O>, s0: State<G, P, O>) returns (s: State<G, P, O>)
    requires At(c, s0, 0) && s0.vm.snap == None && c.program == FsFuzzer
    ensures Over(c, s) || AtFirst(c, s, 9)
  {
    hide Reached, Branch, Place, Abort, Return, LetGo, AskHost;
    var oneArgument := c.env.choose(0, |s0.vm.trace|);
    s := Branch(c, s0, Site(0), 3);
    if !oneArgument {
      s := Return(c, Place(c, s, Printf));
      return;
    }
    var device := c.env.choose(1, |s.vm.trace|);
    s := Branch(c, s, Site(1), 6);
    if !device {
      s := Abort(c, s);
      return;
    }
    s := AnnounceReady(c, s);
    s := AskHost(c, s);
  }

  lemma FsFuzzerBindCode()
    ensures FsFuzzer(22) == Register(Fixed(FS_PAYLOAD_MAX)) && FsFuzzer(23) == If(Site(2), 26)
    ensures FsFuzzer(24) == Call(UserAbort) && FsFuzzer(26) == TouchBuffer
  {
  }

  /** ... and from there to the loop, with the first payload of the agent's own making */
  method FsFuzzerBind<G, P, O>(c: Context<G, P, O>, s0: State<G, P, O>) returns (s: State<G, P, O>)
    requires At(c, s0, 22) && s0.vm.snap == None && c.program == FsFuzzer
    ensures Failed(c, s) || (At(c, s, 27) && s.vm.snap == None && s.vm.agent == s0.vm.agent)
  {
    hide Reached, Branch, Abort, RegisterBuffer, Touch, FsFuzzer;
    FsFuzzerBindCode();
    s := RegisterBuffer(c, s0, FS_PAYLOAD_MAX);
    var bound := c.env.choose(2, |s.vm.trace|);
    s := Branch(c, s, Site(2), 26);
    if !bound {
      s := Abort(c, s);
      return;
    }
    s := Touch(c, s);
  }

  /** The write to the backing file, if the payload is large enough for one */
  method FsWrite<G, P, O>(c: Context<G, P, O>, s0: State<G, P, O>) returns (s: State<G, P, O>)
    requires At(c, s0, 27) && c.program == FsFuzzer
    ensures if c.env.choose(3, |s0.vm.trace|) then GoesTo(c, s, s0, 32) else Failed(c, s)
  {
    hide Reached, Branch, PlaceIf, Abort;
    var wrote := c.env.choose(3, |s0.vm.trace|);
    s := Branch(c, s0, Site(3), 30);
    if wrote {
      s := PlaceIf(c, s, 4, Printf);
    } else {
      s := Abort(c, s);
    }
  }

  /** One round, from the write to the RELEASE */
  method FsRound<G, P, O>(c: Context<G, P, O>, s0: State<G, P, O>) returns (s: State<G, P, O>)
    requires At(c, s0, 27) && c.program == FsFuzzer
    ensures if c.env.choose(3, |s0.vm.trace|)
            then At(c, s, 35) && s.vm.pending == s0.vm.pending && s.vm.snap == s0.vm.snap && s.vm.agent == s0.vm.agent
            else Failed(c, s)
  {
    hide Reached, PlaceIf, Target;
    s := FsWrite(c, s0);
    if s.vm.status.Running? {
      s := Target(c, s);
      s := PlaceIf(c, s, 5, Printf);
    }
  }

  lemma FsNextCode()
    ensures FsFuzzer(35) == Call(Release) && FsFuzzer(36) == Call(NextPayload)
    ensures FsFuzzer(37) == Call(Acquire) && FsFuzzer(38) == Jump(27)
  {
  }

  /** From the RELEASE to the next round: a restored snapshot goes on with the ACQUIRE. */
  method FsNext<G, P, O>(c: Context<G, P, O>, s0: State<G, P, O>) returns (s: State<G, P, O>)
    requires At(c, s0, 35) && c.program == FsFuzzer && s0.vm.agent.Some? && !s0.vm.agent.value.nonReload
    requires s0.vm.snap.Some? ==> s0.vm.snap.value.pc == 37
    ensures if s0.vm.pending == [] then Served(c, s)
            else At(c, s, 27) && s.vm.pending == s0.vm.pending[1..] && s.vm.agent == s0.vm.agent
                 && s.vm.snap.Some? && s.vm.snap.value.pc == 37
  {
    hide Reached, FsFuzzer, LetGo, Await, PlaceAndFollow;
    FsNextCode();
    s := LetGo(c, s0);
    if !Reloads(c.env, s0.vm) {
      s := Await(c, s, NextPayload);
    }
    if s.vm.status.Running? {
      s := PlaceAndFollow(c, s, Acquire, 27);
    }
  }

  /** main()'s loop: a round before the first payload, and then one for each, until a write fails or
      payloads run out. */
  method FsLoop<G, P, O>(c: Context<G, P, O>, s0: State<G, P, O>) returns (s: State<G, P, O>)
    requires At(c, s0, 27) && s0.vm.snap == None && c.program == FsFuzzer
    requires s0.vm.agent.Some? && !s0.vm.agent.value.nonReload
    ensures Served(c, s) || Failed(c, s)
    ensures (forall n: nat :: c.env.choose(3, n)) ==> Served(c, s)
  {
    ghost var works := forall n: nat :: c.env.choose(3, n);
    s := s0;
    while s.vm.status.Running?
      invariant Served(c, s) || (Failed(c, s) && !works) ||
                (At(c, s, 27) && s.vm.agent == s0.vm.agent && (s.vm.snap.Some? ==> s.vm.snap.value.pc == 37))
      decreases if s.vm.status.Running? then |s.vm.pending| + 1 else 0
    {
      hide Reached, FsFuzzer;
      s := FsRound(c, s);
      if s.vm.status.Running? {
        s := FsNext(c, s);
      }
    }
  }

  lemma FsSessionEnds<G, P, O>(c: Context<G, P, O>, s: State<G, P, O>)
    requires Over(c, s) && c.program == FsFuzzer && Succeeds(c.env)
    ensures var own := c.env.touch(c.boot.buffer);
            var (m, o) := c.env.target(c.boot.guest.mem, own);
            && s.vm.status.Blocked? && s.vm.pending == []
            && Outcomes(s.vm.trace) == [(own, o)] + Fresh(c.env.target, m, c.boot.pending)
  {
    hide Run, Step, Outcomes, Succeeds;
    var n := FsWholeSession(c.env, c.boot.guest.mem, c.boot.guest.cfg, c.boot.buffer, c.boot.pending);
    RunSplit(FsFuzzer, c.env, c.boot, s.steps, n);
    RunStopped(FsFuzzer, c.env, s.vm, n);
  }

  /** main(): if device and file work, the host sees the run on the agent's own payload, and then one
      run on each of its payloads, all from what the first run left. */
  method FsFuzzerMain<G, P, O>(env: Env<G, P, O>, mem: G, garbage: HostConfig, buffer: P, payloads: seq<P>)
    returns (s: State<G, P, O>)
    ensures Over(Context(FsFuzzer, env, Boot(mem, garbage, buffer, payloads)), s) && Accepts(s.vm.trace)
    ensures Succeeds(env) ==>
              var own := env.touch(buffer);
              var (m, o) := env.target(mem, own);
              && s.vm.status.Blocked? && s.vm.pending == []
              && Outcomes(s.vm.trace) == [(own, o)] + Fresh(env.target, m, payloads)
  {
    hide Reached, Run, Step, Accepts, Outcomes, Expected, Smooth, Succeeds, FsFuzzer;
    var c := Context(FsFuzzer, env, Boot(mem, garbage, buffer, payloads));
    s := FsFuzzerStart(c, Begin(c));
    if s.vm.status.Running? {
      s := FsFuzzerInit(c, s);
    }
    if s.vm.status.Running? {
      s := FsFuzzerBind(c, s);
    }
    if s.vm.status.Running? {
      s := FsLoop(c, s);
    }
    SessionEnds(c, s, FileSystems);
    if Succeeds(env) {
      FsSessionEnds(c, s);
    }
  }
}
