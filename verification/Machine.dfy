/** A guest program, a program counter and memory on one side of the hypercall boundary; on
    the other a host that records every hypercall, hands out payloads, takes one snapshot and
    restores it at RELEASE. USER_ABORT ends the session: the host never lets the guest run on. */
module Machine {
  import opened NyxApi
  import opened Protocol
  import opened WaitStatus
  import CpuGuard

  datatype Cond =
    | IdentityOk            // magic and version are the expected ones
    | MagicOk
    | VersionOk
    | SizeOk(max: nat)      // the host's payload buffer is no larger than max
    | Site(k: nat)          // an operation outside the model succeeded
    | AtexitRan             // the child left through exit()
    | Signaled              // WIFSIGNALED
    | TermSigIs(signal: nat)  // WTERMSIG
    | ExitStatusIs(code: nat)  // WEXITSTATUS

  datatype Size = Fixed(n: nat) | FromHost

  datatype Instr =
    | Call(h: Hypercall)                             // kAFL_hypercall(), not guarded by the CPU type
    | Guarded(h: Hypercall)                          // hypercall(): reaches the host on type v1 only
    | Detect                                         // get_nyx_cpu_type()
    | SendConfig(nonReload: bool, copyBitmap: bool)  // SET_AGENT_CONFIG
    | Register(size: Size)                           // GET_PAYLOAD
    | InitTarget
    | TouchBuffer                                    // the guest writes to its payload buffer
    | RunTarget
    | If(c: Cond, target: nat)                       // go to target if c holds
    | Unless(c: Cond, target: nat)                   // go to target unless it does
    | Jump(target: nat)
    | Exit

  type Program = nat -> Instr

  // cfg is the guest's copy of the host configuration, cpu its cached CPU type, last the outcome
  // of its latest run.
  datatype Guest<G, O> = Guest(pc: nat, cfg: HostConfig, cpu: CpuType, mem: G, last: Option<O>)

  // Stuck is the endless recursion of a guarded hypercall before the CPU type is known.
  datatype Status = Running | Blocked | Halted | Aborted | Stuck

  // The payload buffer lies outside the guest state that a snapshot restores.
  datatype Vm<G, P, O> = Vm(
    guest: Guest<G, O>, buffer: P, pending: seq<P>, agent: Option<AgentConfig>,
    snap: Option<Guest<G, O>>, status: Status, trace: seq<Event<P, O>>)

  // choose(k, n) decides Site(k) when n events have happened, so that each visit may differ.
  datatype Env<!G, !P, !O> = Env(
    config: HostConfig, cpu: KnownType, persistent: bool,
    init: G -> G, target: (G, P) -> (G, O), touch: P -> P,
    choose: (nat, nat) -> bool, fate: O -> Fate)

  function Boot<G, P, O>(mem: G, garbage: HostConfig, buffer: P, payloads: seq<P>): Vm<G, P, O> {
    Vm(Guest(0, garbage, Invalid, mem, None), buffer, payloads, None, None, Running, [])
  }

  predicate Holds<G, P, O>(env: Env<G, P, O>, vm: Vm<G, P, O>, c: Cond) {
    match c
    case IdentityOk => vm.guest.cfg.magic == NYX_HOST_MAGIC && vm.guest.cfg.version == NYX_HOST_VERSION
    case MagicOk => vm.guest.cfg.magic == NYX_HOST_MAGIC
    case VersionOk => vm.guest.cfg.version == NYX_HOST_VERSION
    case SizeOk(max) => vm.guest.cfg.payloadBufferSize <= max
    case Site(k) => env.choose(k, |vm.trace|)
    case AtexitRan => vm.guest.last.Some? && var f := env.fate(vm.guest.last.value); f.Exited? && f.ranAtexit
    case Signaled => vm.guest.last.Some? && IfSignaled(Encode(env.fate(vm.guest.last.value)))
    case TermSigIs(s) => vm.guest.last.Some? && TermSig(Encode(env.fate(vm.guest.last.value))) == s
    case ExitStatusIs(s) => vm.guest.last.Some? && ExitStatus(Encode(env.fate(vm.guest.last.value))) == s
  }

  /** A RELEASE restores the snapshot unless the agent allows persistent mode and the host uses it. */
  predicate Reloads<G, P, O>(env: Env<G, P, O>, vm: Vm<G, P, O>) {
    vm.snap.Some? && !(vm.agent.Some? && vm.agent.value.nonReload && env.persistent)
  }

  function Goto<G, P, O>(vm: Vm<G, P, O>, pc: nat): Vm<G, P, O> {
    vm.(guest := vm.guest.(pc := pc))
  }

  function Record<G, P, O>(vm: Vm<G, P, O>, e: Event<P, O>): Vm<G, P, O> {
    Goto(vm, vm.guest.pc + 1).(trace := vm.trace + [e])
  }

  /** NEXT_PAYLOAD and FAST_ACQUIRE: wait for a payload, put it in place, and take the
      snapshot if there is none yet. */
  function Deliver<G, P, O>(vm: Vm<G, P, O>, h: Hypercall): Vm<G, P, O> {
    if vm.pending == [] then vm.(status := Blocked)
    else
      var v := Record(vm, Hc(h)).(buffer := vm.pending[0], pending := vm.pending[1..]);
      v.(snap := if vm.snap.None? then Some(v.guest) else vm.snap)
  }

  function DoRelease<G, P, O>(env: Env<G, P, O>, vm: Vm<G, P, O>): Vm<G, P, O> {
    if !Reloads(env, vm) then Record(vm, Hc(Release))
    else if vm.pending == [] then Record(vm, Hc(Release)).(status := Blocked)
    else vm.(guest := vm.snap.value, buffer := vm.pending[0], pending := vm.pending[1..],
             trace := vm.trace + [Hc(Release)] + [Resume])
  }

  function DoCall<G, P, O>(env: Env<G, P, O>, vm: Vm<G, P, O>, h: Hypercall): Vm<G, P, O> {
    match h
    case NextPayload => Deliver(vm, h)
    case FastAcquire => Deliver(vm, h)
    case Release => DoRelease(env, vm)
    case GetHostConfig => var v := Record(vm, Hc(h)); v.(guest := v.guest.(cfg := env.config))
    case SetAgentConfig(c) => Record(vm, Hc(h)).(agent := Some(c))
    case UserAbort => Record(vm, Hc(h)).(status := Aborted)
    case _ => Record(vm, Hc(h))
  }

  function Answer(c: HostConfig, nonReload: bool, copyBitmap: bool): AgentConfig {
    AgentConfig(NYX_AGENT_MAGIC, NYX_AGENT_VERSION, nonReload, if copyBitmap then c.bitmapSize else 0)
  }

  function BufferSize(c: HostConfig, s: Size): nat {
    match s case Fixed(n) => n case FromHost => c.payloadBufferSize
  }

  function Step<G, P, O>(p: Program, env: Env<G, P, O>, vm: Vm<G, P, O>): Vm<G, P, O> {
    if !vm.status.Running? then vm
    else match p(vm.guest.pc)
      case Call(h) => DoCall(env, vm, h)
      case Guarded(h) =>
        if vm.guest.cpu.V1? then DoCall(env, vm, h)
        else if vm.guest.cpu.Invalid? then vm.(status := Stuck)
        else Goto(vm, vm.guest.pc + 1)
      case Detect =>
        Goto(vm.(guest := vm.guest.(cpu := if vm.guest.cpu.Invalid? then env.cpu else vm.guest.cpu)), vm.guest.pc + 1)
      case SendConfig(nr, copy) => DoCall(env, vm, SetAgentConfig(Answer(vm.guest.cfg, nr, copy)))
      case Register(s) => DoCall(env, vm, GetPayload(BufferSize(vm.guest.cfg, s)))
      case InitTarget => Goto(vm.(guest := vm.guest.(mem := env.init(vm.guest.mem))), vm.guest.pc + 1)
      case TouchBuffer => Goto(vm.(buffer := env.touch(vm.buffer)), vm.guest.pc + 1)
      case RunTarget =>
        var (mem, o) := env.target(vm.guest.mem, vm.buffer);
        Record(vm.(guest := vm.guest.(mem := mem, last := Some(o))), Ran(vm.buffer, o))
      case If(c, t) => Goto(vm, if Holds(env, vm, c) then t else vm.guest.pc + 1)
      case Unless(c, t) => Goto(vm, if Holds(env, vm, c) then vm.guest.pc + 1 else t)
      case Jump(t) => Goto(vm, t)
      case Exit => vm.(status := Halted)
  }

  function Run<G, P, O>(p: Program, env: Env<G, P, O>, vm: Vm<G, P, O>, n: nat): Vm<G, P, O>
    decreases n
  {
    if n == 0 then vm else Run(p, env, Step(p, env, vm), n - 1)
  }

  lemma {:induction false} RunSplit<G, P, O>(p: Program, env: Env<G, P, O>, vm: Vm<G, P, O>, m: nat, n: nat)
    ensures Run(p, env, vm, m + n) == Run(p, env, Run(p, env, vm, m), n)
    decreases m
  {
    if m > 0 {
      RunSplit(p, env, Step(p, env, vm), m - 1, n);
    }
  }

  lemma Runs<G, P, O>(p: Program, env: Env<G, P, O>, vm: Vm<G, P, O>)
    ensures Run(p, env, vm, 1) == Step(p, env, vm)
    ensures Run(p, env, vm, 2) == Step(p, env, Step(p, env, vm))
    ensures Run(p, env, vm, 3) == Step(p, env, Step(p, env, Step(p, env, vm)))
    ensures Run(p, env, vm, 4) == Step(p, env, Step(p, env, Step(p, env, Step(p, env, vm))))
  {
    hide Step;
  }

  // One lemma for each kind of instruction, for proofs that follow a program by hand.

  predicate Plain(h: Hypercall) {
    !(h in {NextPayload, FastAcquire, Release, GetHostConfig, UserAbort}) && !h.SetAgentConfig?
  }

  lemma StepPlain<G, P, O>(p: Program, env: Env<G, P, O>, vm: Vm<G, P, O>, h: Hypercall)
    requires vm.status.Running? && p(vm.guest.pc) == Call(h) && Plain(h)
    ensures Step(p, env, vm) == Record(vm, Hc(h))
  {
  }

  lemma StepAbort<G, P, O>(p: Program, env: Env<G, P, O>, vm: Vm<G, P, O>)
    requires vm.status.Running? && p(vm.guest.pc) == Call(UserAbort)
    ensures Step(p, env, vm) == Record(vm, Hc(UserAbort)).(status := Aborted)
  {
  }

  lemma StepIf<G, P, O>(p: Program, env: Env<G, P, O>, vm: Vm<G, P, O>, c: Cond, t: nat)
    requires vm.status.Running? && p(vm.guest.pc) == If(c, t)
    ensures Step(p, env, vm) == Goto(vm, if Holds(env, vm, c) then t else vm.guest.pc + 1)
  {
  }

  lemma StepUnless<G, P, O>(p: Program, env: Env<G, P, O>, vm: Vm<G, P, O>, c: Cond, t: nat)
    requires vm.status.Running? && p(vm.guest.pc) == Unless(c, t)
    ensures Step(p, env, vm) == Goto(vm, if Holds(env, vm, c) then vm.guest.pc + 1 else t)
  {
  }

  lemma StepJump<G, P, O>(p: Program, env: Env<G, P, O>, vm: Vm<G, P, O>, t: nat)
    requires vm.status.Running? && p(vm.guest.pc) == Jump(t)
    ensures Step(p, env, vm) == Goto(vm, t)
  {
  }

  lemma StepRunTarget<G, P, O>(p: Program, env: Env<G, P, O>, vm: Vm<G, P, O>)
    requires vm.status.Running? && p(vm.guest.pc) == RunTarget
    ensures var (m, o) := env.target(vm.guest.mem, vm.buffer);
            Step(p, env, vm) == Record(vm.(guest := vm.guest.(mem := m, last := Some(o))), Ran(vm.buffer, o))
  {
  }

  lemma StepRelease<G, P, O>(p: Program, env: Env<G, P, O>, vm: Vm<G, P, O>)
    requires vm.status.Running? && p(vm.guest.pc) in {Call(Release), Guarded(Release)}
    requires p(vm.guest.pc) == Guarded(Release) ==> vm.guest.cpu != Invalid
    ensures Step(p, env, vm) ==
            if p(vm.guest.pc) == Guarded(Release) && !vm.guest.cpu.V1? then Goto(vm, vm.guest.pc + 1)
            else DoRelease(env, vm)
  {
  }

  lemma StepDeliver<G, P, O>(p: Program, env: Env<G, P, O>, vm: Vm<G, P, O>, h: Hypercall)
    requires vm.status.Running? && p(vm.guest.pc) == Call(h) && h in {NextPayload, FastAcquire}
    ensures Step(p, env, vm) == Deliver(vm, h)
  {
  }

  /** A machine that has stopped stays as it is. */
  lemma {:induction false} RunStopped<G, P, O>(p: Program, env: Env<G, P, O>, vm: Vm<G, P, O>, n: nat)
    requires !vm.status.Running?
    ensures Run(p, env, vm, n) == vm
    decreases n
  {
    if n > 0 {
      RunStopped(p, env, vm, n - 1);
    }
  }

  // ---------------------------------------------------------------- the CPU type

  /** A guest is stuck in a guarded hypercall exactly if that hypercall never ends, however deeply
      its calls may nest. */
  lemma StuckIffEndless<G, P, O>(p: Program, env: Env<G, P, O>, vm: Vm<G, P, O>, h: Hypercall, calls: nat)
    requires vm.status.Running? && p(vm.guest.pc) == Guarded(h)
    ensures Step(p, env, vm).status.Stuck? <==> CpuGuard.Issue(vm.guest.cpu, h, calls).None?
  {
    CpuGuard.EndlessIffInvalid(vm.guest.cpu, h, calls);
  }

  /** Where a branch leads, if the instruction is one. */
  function BranchTarget(i: Instr): Option<nat> {
    match i case If(_, t) => Some(t) case Unless(_, t) => Some(t) case Jump(t) => Some(t) case _ => None
  }

  /** No way leads to a guarded hypercall but through the detection of the CPU type at d. */
  ghost predicate DetectsAt(p: Program, d: nat) {
    && p(d) == Detect
    && (forall pc: nat :: pc < d ==> !p(pc).Guarded? && (BranchTarget(p(pc)).Some? ==> BranchTarget(p(pc)).value <= d))
    && (forall pc: nat :: pc > d && BranchTarget(p(pc)).Some? ==> BranchTarget(p(pc)).value > d)
  }

  /** Behind the detection the guest knows what CPUID says, and so does the snapshot. */
  ghost predicate Knows<G, P, O>(env: Env<G, P, O>, g: Guest<G, O>, d: nat) {
    g.cpu in {Invalid, env.cpu} && (g.pc > d ==> g.cpu == env.cpu)
  }

  ghost predicate AllKnow<G, P, O>(env: Env<G, P, O>, vm: Vm<G, P, O>, d: nat) {
    && !vm.status.Stuck?
    && (vm.status.Running? ==> Knows(env, vm.guest, d))
    && (vm.snap.Some? ==> Knows(env, vm.snap.value, d))
  }

  lemma {:induction false} NeverStuck<G, P, O>(p: Program, d: nat, env: Env<G, P, O>, vm: Vm<G, P, O>, n: nat)
    requires DetectsAt(p, d) && AllKnow(env, vm, d)
    ensures AllKnow(env, Run(p, env, vm, n), d)
    decreases n
  {
    if n > 0 {
      StepKnows(p, d, env, vm);
      NeverStuck(p, d, env, Step(p, env, vm), n - 1);
    }
  }

  lemma StepKnows<G, P, O>(p: Program, d: nat, env: Env<G, P, O>, vm: Vm<G, P, O>)
    requires DetectsAt(p, d) && AllKnow(env, vm, d)
    ensures AllKnow(env, Step(p, env, vm), d)
  {
  }

  // ---------------------------------------------------------------- annotated programs

  /** ann(pc, q, c, host): in protocol state q, with c as the guest's copy of the host's
      configuration, control may stand at pc. */
  type Annotation = (nat, PState, HostConfig, HostConfig) -> bool

  /** safe(host, h): the agent may make hypercall h to a host with this configuration. */
  type Policy = (HostConfig, Hypercall) -> bool

  ghost predicate CallOk(
    ann: Annotation, safe: Policy, pc: nat, q: PState, c: HostConfig, host: HostConfig, h: Hypercall)
  {
    && safe(host, h)
    && var r := DeltaHypercall(q, h);
       && r.Some?
       && ((h == Release && q.snap != NoSnap && q.progress != Sent(true)) ||
           h == UserAbort ||
           ann(pc + 1, r.value, if h == GetHostConfig then host else c, host))
  }

  ghost predicate LocalOk(
    p: Program, ann: Annotation, safe: Policy, pc: nat, q: PState, c: HostConfig, host: HostConfig)
  {
    && !q.dead
    && match p(pc)
       case Call(h) => CallOk(ann, safe, pc, q, c, host, h)
       case Guarded(h) => CallOk(ann, safe, pc, q, c, host, h) && ann(pc + 1, q, c, host)
       case SendConfig(nr, copy) => CallOk(ann, safe, pc, q, c, host, SetAgentConfig(Answer(c, nr, copy)))
       case Register(s) => CallOk(ann, safe, pc, q, c, host, GetPayload(BufferSize(c, s)))
       case RunTarget => DeltaRun(q).Some? && ann(pc + 1, DeltaRun(q).value, c, host)
       case If(d, t) => BranchOk(ann, pc, q, c, host, d, t)
       case Unless(_, t) => ann(t, q, c, host) && ann(pc + 1, q, c, host)
       case Jump(t) => ann(t, q, c, host)
       case Exit => true
       case _ => ann(pc + 1, q, c, host)
  }

  /** Only tests of the configuration tell the annotation anything; after any other test both
      ways must be allowed. */
  ghost predicate BranchOk(ann: Annotation, pc: nat, q: PState, c: HostConfig, host: HostConfig, d: Cond, t: nat) {
    match d
    case IdentityOk =>
      ann(if c.magic == NYX_HOST_MAGIC && c.version == NYX_HOST_VERSION then t else pc + 1, q, c, host)
    case MagicOk => ann(if c.magic == NYX_HOST_MAGIC then t else pc + 1, q, c, host)
    case VersionOk => ann(if c.version == NYX_HOST_VERSION then t else pc + 1, q, c, host)
    case SizeOk(max) => ann(if c.payloadBufferSize <= max then t else pc + 1, q, c, host)
    case _ => ann(t, q, c, host) && ann(pc + 1, q, c, host)
  }

  ghost predicate Annotated(p: Program, ann: Annotation, safe: Policy) {
    && (forall c, host :: ann(0, START, c, host))
    && forall pc, q, c, host :: ann(pc, q, c, host) ==> LocalOk(p, ann, safe, pc, q, c, host)
  }

  ghost predicate AllSafe<P, O>(t: seq<Event<P, O>>, safe: Policy, host: HostConfig) {
    forall i :: 0 <= i < |t| && t[i].Hc? ==> safe(host, t[i].call)
  }

  // No point of the program follows a run of the target without a payload.
  ghost predicate NeverWarms(ann: Annotation) {
    forall pc, q, c, host :: ann(pc, q, c, host) ==> !q.warmed
  }

  ghost predicate Inv<G, P, O>(ann: Annotation, safe: Policy, env: Env<G, P, O>, vm: Vm<G, P, O>) {
    && Accepts(vm.trace)
    && AllSafe(vm.trace, safe, env.config)
    && var q := After(vm.trace).value;
       && (vm.status.Running? ==> !q.dead && ann(vm.guest.pc, q, vm.guest.cfg, env.config))
       && (vm.snap.Some? <==> q.snap != NoSnap)
       && (vm.agent.Some? <==> q.progress.Sent?)
       && (vm.agent.Some? ==> q.progress == Sent(vm.agent.value.nonReload))
       && (vm.snap.Some? && !q.dead ==> ann(vm.snap.value.pc, Resumed(q), vm.snap.value.cfg, env.config))
       && (vm.snap.Some? ==> q.progress.Sent?)
       && (NeverWarms(ann) ==> !q.warmed)
  }

  lemma ReleaseKeepsInv<G, P, O>(ann: Annotation, safe: Policy, env: Env<G, P, O>, vm: Vm<G, P, O>)
    requires Inv(ann, safe, env, vm) && vm.status.Running?
    requires CallOk(ann, safe, vm.guest.pc, After(vm.trace).value, vm.guest.cfg, env.config, Release)
    ensures Inv(ann, safe, env, DoRelease(env, vm))
  {
    var t := vm.trace + [Hc(Release)];
    AfterSnoc(vm.trace, Hc(Release));
    AfterSnoc(t, Resume);
    assert AllSafe(t + [Resume], safe, env.config);
  }

  lemma DeliverKeepsInv<G, P, O>(ann: Annotation, safe: Policy, env: Env<G, P, O>, vm: Vm<G, P, O>, h: Hypercall)
    requires Inv(ann, safe, env, vm) && vm.status.Running?
    requires CallOk(ann, safe, vm.guest.pc, After(vm.trace).value, vm.guest.cfg, env.config, h)
    requires h == NextPayload || h == FastAcquire
    ensures Inv(ann, safe, env, Deliver(vm, h))
  {
    AfterSnoc(vm.trace, Hc(h));
    var q := After(vm.trace).value;
    assert Resumed(DeltaHypercall(q, h).value) == DeltaHypercall(q, h).value;
  }

  /** Once a snapshot exists, only RELEASE and the acquisitions change what it resumes to. */
  lemma PlainDelta(q: PState, h: Hypercall)
    requires h != Release && h != NextPayload && h != FastAcquire && DeltaHypercall(q, h).Some?
    ensures var r := DeltaHypercall(q, h).value;
            && r.snap == q.snap && r.warmed == q.warmed
            && (r.dead <==> h == UserAbort)
            && (q.snap != NoSnap && !r.dead ==> Resumed(r) == Resumed(q))
            && (if h.SetAgentConfig? then r.progress == Sent(h.config.nonReload)
                else if h == GetHostConfig then r.progress == Got && q.progress == NoConfig
                else r.progress == q.progress)
  {
  }

  /** The invariant survives an event whose effect on the protocol state is r. */
  lemma InvAfter<G, P, O>(
    ann: Annotation, safe: Policy, env: Env<G, P, O>, vm: Vm<G, P, O>, e: Event<P, O>, v: Vm<G, P, O>, r: PState)
    requires Inv(ann, safe, env, vm) && (e.Hc? ==> safe(env.config, e.call))
    requires v.trace == vm.trace + [e] && After(v.trace) == Some(r)
    requires v.snap == vm.snap && r.snap == After(vm.trace).value.snap
    requires v.status.Running? ==> !r.dead && ann(v.guest.pc, r, v.guest.cfg, env.config)
    requires v.agent == if IsSet(e) then Some(e.call.config) else vm.agent
    requires if IsSet(e) then r.progress == Sent(e.call.config.nonReload)
             else r.progress == After(vm.trace).value.progress || (vm.agent.None? && r.progress == Got)
    requires vm.snap.Some? && !r.dead ==> !After(vm.trace).value.dead && Resumed(r) == Resumed(After(vm.trace).value)
    requires NeverWarms(ann) ==> !r.warmed
    ensures Inv(ann, safe, env, v)
  {
  }

  /** The invariant survives a move of the guest that no one observes. */
  lemma InvMove<G, P, O>(ann: Annotation, safe: Policy, env: Env<G, P, O>, vm: Vm<G, P, O>, v: Vm<G, P, O>)
    requires Inv(ann, safe, env, vm) && vm.status.Running?
    requires v.trace == vm.trace && v.snap == vm.snap && v.agent == vm.agent
    requires v.status.Running? ==> ann(v.guest.pc, After(vm.trace).value, v.guest.cfg, env.config)
    ensures Inv(ann, safe, env, v)
  {
  }

  lemma PlainKeepsInv<G, P, O>(ann: Annotation, safe: Policy, env: Env<G, P, O>, vm: Vm<G, P, O>, h: Hypercall)
    requires Inv(ann, safe, env, vm) && vm.status.Running?
    requires CallOk(ann, safe, vm.guest.pc, After(vm.trace).value, vm.guest.cfg, env.config, h)
    requires h != Release && h != NextPayload && h != FastAcquire
    ensures Inv(ann, safe, env, DoCall(env, vm, h))
  {
    var q := After(vm.trace).value;
    AfterSnoc(vm.trace, Hc(h));
    PlainDelta(q, h);
    InvAfter(ann, safe, env, vm, Hc(h), DoCall(env, vm, h), DeltaHypercall(q, h).value);
  }

  lemma CallKeepsInv<G, P, O>(ann: Annotation, safe: Policy, env: Env<G, P, O>, vm: Vm<G, P, O>, h: Hypercall)
    requires Inv(ann, safe, env, vm) && vm.status.Running?
    requires CallOk(ann, safe, vm.guest.pc, After(vm.trace).value, vm.guest.cfg, env.config, h)
    ensures Inv(ann, safe, env, DoCall(env, vm, h))
  {
    if h == Release {
      ReleaseKeepsInv(ann, safe, env, vm);
    } else if h == NextPayload || h == FastAcquire {
      DeliverKeepsInv(ann, safe, env, vm, h);
    } else {
      PlainKeepsInv(ann, safe, env, vm, h);
    }
  }

  /** The steps that make no hypercall. */
  lemma LocalStepKeepsInv<G, P, O>(p: Program, ann: Annotation, safe: Policy, env: Env<G, P, O>, vm: Vm<G, P, O>)
    requires Inv(ann, safe, env, vm) && vm.status.Running?
    requires LocalOk(p, ann, safe, vm.guest.pc, After(vm.trace).value, vm.guest.cfg, env.config)
    requires var i := p(vm.guest.pc); !i.Call? && !i.Guarded? && !i.SendConfig? && !i.Register?
    ensures Inv(ann, safe, env, Step(p, env, vm))
  {
    var q, v := After(vm.trace).value, Step(p, env, vm);
    if p(vm.guest.pc).RunTarget? {
      var e: Event<P, O> := Ran(vm.buffer, env.target(vm.guest.mem, vm.buffer).1);
      AfterSnoc(vm.trace, e);
      assert Resumed(DeltaRun(q).value) == Resumed(q) || vm.snap.None?;
      InvAfter(ann, safe, env, vm, e, v, DeltaRun(q).value);
    } else {
      InvMove(ann, safe, env, vm, v);
    }
  }

  lemma StepKeepsInv<G, P, O>(p: Program, ann: Annotation, safe: Policy, env: Env<G, P, O>, vm: Vm<G, P, O>)
    requires Annotated(p, ann, safe) && Inv(ann, safe, env, vm)
    ensures Inv(ann, safe, env, Step(p, env, vm))
  {
    if vm.status.Running? {
      var q, c, pc := After(vm.trace).value, vm.guest.cfg, vm.guest.pc;
      assert LocalOk(p, ann, safe, pc, q, c, env.config);
      match p(pc)
      case Call(h) => CallKeepsInv(ann, safe, env, vm, h);
      case Guarded(h) => if vm.guest.cpu.V1? { CallKeepsInv(ann, safe, env, vm, h); }
      case SendConfig(nr, copy) => CallKeepsInv(ann, safe, env, vm, SetAgentConfig(Answer(c, nr, copy)));
      case Register(s) => CallKeepsInv(ann, safe, env, vm, GetPayload(BufferSize(c, s)));
      case _ => LocalStepKeepsInv(p, ann, safe, env, vm);
    }
  }

  /** Every run of an annotated program, of any length, on any host, in any mode, with any
      target: its trace is accepted and keeps the policy. */
  lemma {:induction false} RunKeepsInv<G, P, O>(
    p: Program, ann: Annotation, safe: Policy, env: Env<G, P, O>, vm: Vm<G, P, O>, n: nat)
    requires Annotated(p, ann, safe) && Inv(ann, safe, env, vm)
    ensures Inv(ann, safe, env, Run(p, env, vm, n))
    decreases n
  {
    if n > 0 {
      StepKeepsInv(p, ann, safe, env, vm);
      RunKeepsInv(p, ann, safe, env, Step(p, env, vm), n - 1);
    }
  }
}
