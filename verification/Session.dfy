/** One session of an agent on the machine, as a value that an agent written as methods hands on
    from hypercall to hypercall. Each function below is one step of the agent's program, so that
    a session is at any time in a state that this program reaches. */
module Session {
  import opened NyxApi
  import opened Machine

  // What stays the same over a session, and what does not.
  datatype Context<!G, !P, !O> = Context(program: Program, env: Env<G, P, O>, boot: Vm<G, P, O>)
  datatype State<G, P, O> = State(steps: nat, vm: Vm<G, P, O>)

  /** So many steps of the program lead from boot to this state. */
  ghost predicate Reached<G, P, O>(c: Context<G, P, O>, s: State<G, P, O>) {
    && s.vm == Run(c.program, c.env, c.boot, s.steps)
    && c.boot == Boot(c.boot.guest.mem, c.boot.guest.cfg, c.boot.buffer, c.boot.pending)
  }

  /** The guest is about to execute this instruction. */
  ghost predicate Before<G, P, O>(c: Context<G, P, O>, s: State<G, P, O>, i: Instr) {
    Reached(c, s) && s.vm.status.Running? && c.program(s.vm.guest.pc) == i
  }

  /** Of what agents decide by, only the place in the program may have changed. */
  ghost predicate GoesTo<G, P, O>(c: Context<G, P, O>, t: State<G, P, O>, s: State<G, P, O>, pc: nat) {
    && Continues(c, t, s) && t.vm.guest.pc == pc && t.vm.guest.cpu == s.vm.guest.cpu
    && t.vm.guest.cfg == s.vm.guest.cfg && t.vm.agent == s.vm.agent && t.vm.guest.last == s.vm.guest.last
  }

  ghost predicate Continues<G, P, O>(c: Context<G, P, O>, t: State<G, P, O>, s: State<G, P, O>) {
    && Reached(c, t) && t.vm.status == s.vm.status && t.vm.pending == s.vm.pending && t.vm.snap == s.vm.snap
  }

  function Begin<G, P, O>(c: Context<G, P, O>): (s: State<G, P, O>)
    requires c.boot == Boot(c.boot.guest.mem, c.boot.guest.cfg, c.boot.buffer, c.boot.pending)
    ensures Reached(c, s) && s.vm == c.boot
  {
    State(0, c.boot)
  }

  function Stepped<G, P, O>(c: Context<G, P, O>, s: State<G, P, O>, vm: Vm<G, P, O>): (t: State<G, P, O>)
    requires Reached(c, s) && vm == Step(c.program, c.env, s.vm)
    ensures Reached(c, t) && t.vm == vm
  {
    OneMore(c, s);
    State(s.steps + 1, vm)
  }

  lemma OneMore<G, P, O>(c: Context<G, P, O>, s: State<G, P, O>)
    requires Reached(c, s)
    ensures Run(c.program, c.env, c.boot, s.steps + 1) == Step(c.program, c.env, s.vm)
  {
    hide Step;
    RunSplit(c.program, c.env, c.boot, s.steps, 1);
    Runs(c.program, c.env, s.vm);
  }

  /** kAFL_hypercall(), for the hypercalls that are only recorded */
  function Place<G, P, O>(c: Context<G, P, O>, s: State<G, P, O>, h: Hypercall): (t: State<G, P, O>)
    requires Before(c, s, Call(h)) && Plain(h)
    ensures GoesTo(c, t, s, s.vm.guest.pc + 1) && t.vm.trace == s.vm.trace + [Hc(h)]
  {
    Stepped(c, s, Record(s.vm, Hc(h)))
  }

  /** get_nyx_cpu_type() */
  function Know<G, P, O>(c: Context<G, P, O>, s: State<G, P, O>): (t: State<G, P, O>)
    requires Before(c, s, Detect)
    ensures Continues(c, t, s) && t.vm.guest.pc == s.vm.guest.pc + 1 && t.vm.agent == s.vm.agent
    ensures t.vm.guest.cpu == if s.vm.guest.cpu.Invalid? then c.env.cpu else s.vm.guest.cpu
  {
    var cpu := if s.vm.guest.cpu.Invalid? then c.env.cpu else s.vm.guest.cpu;
    Stepped(c, s, Goto(s.vm.(guest := s.vm.guest.(cpu := cpu)), s.vm.guest.pc + 1))
  }

  /** hypercall(), for the hypercalls that are only recorded; the type must be known. */
  function PlaceGuarded<G, P, O>(c: Context<G, P, O>, s: State<G, P, O>, h: Hypercall): (t: State<G, P, O>)
    requires Before(c, s, Guarded(h)) && Plain(h) && s.vm.guest.cpu != Invalid
    ensures GoesTo(c, t, s, s.vm.guest.pc + 1)
    ensures t.vm.trace == s.vm.trace + if s.vm.guest.cpu == V1 then [Hc(h)] else []
  {
    if s.vm.guest.cpu == V1 then Stepped(c, s, Record(s.vm, Hc(h)))
    else
      assert s.vm.guest.cpu == V2 || s.vm.guest.cpu == NoNyx;
      assert s.vm.trace + [] == s.vm.trace;
      Skip(c, s, h)
  }

  /** hypercall(), on a type that skips it */
  function Skip<G, P, O>(c: Context<G, P, O>, s: State<G, P, O>, h: Hypercall): (t: State<G, P, O>)
    requires Before(c, s, Guarded(h)) && s.vm.guest.cpu in {V2, NoNyx}
    ensures GoesTo(c, t, s, s.vm.guest.pc + 1) && t.vm.trace == s.vm.trace
  {
    Stepped(c, s, Goto(s.vm, s.vm.guest.pc + 1))
  }

  /** habort(): the host does not return. */
  function Abort<G, P, O>(c: Context<G, P, O>, s: State<G, P, O>): (t: State<G, P, O>)
    requires Before(c, s, Call(UserAbort))
    ensures Reached(c, t) && t.vm.status.Aborted? && t.vm.snap == s.vm.snap
  {
    Stepped(c, s, Record(s.vm, Hc(UserAbort)).(status := Aborted))
  }

  /** hprintf() and habort() */
  function Fail<G, P, O>(c: Context<G, P, O>, s: State<G, P, O>): (t: State<G, P, O>)
    requires Before(c, s, Call(Printf)) && c.program(s.vm.guest.pc + 1) == Call(UserAbort)
    ensures Reached(c, t) && t.vm.status.Aborted? && t.vm.snap == s.vm.snap
  {
    Abort(c, Place(c, s, Printf))
  }

  function AskHost<G, P, O>(c: Context<G, P, O>, s: State<G, P, O>): (t: State<G, P, O>)
    requires Before(c, s, Call(GetHostConfig))
    ensures Continues(c, t, s) && t.vm.guest.pc == s.vm.guest.pc + 1 && t.vm.guest.cfg == c.env.config
    ensures t.vm.agent == s.vm.agent && t.vm.guest.cpu == s.vm.guest.cpu
  {
    var v := Record(s.vm, Hc(GetHostConfig));
    Stepped(c, s, v.(guest := v.guest.(cfg := c.env.config)))
  }

  function AnswerHost<G, P, O>(c: Context<G, P, O>, s: State<G, P, O>, a: AgentConfig, ghost copyBitmap: bool)
      : (t: State<G, P, O>)
    requires Before(c, s, SendConfig(a.nonReload, copyBitmap)) && a == Answer(s.vm.guest.cfg, a.nonReload, copyBitmap)
    ensures Continues(c, t, s) && t.vm.guest.pc == s.vm.guest.pc + 1 && t.vm.guest.cfg == s.vm.guest.cfg
            && t.vm.agent == Some(a)
    ensures t.vm.guest.cpu == s.vm.guest.cpu && t.vm.trace == s.vm.trace + [Hc(SetAgentConfig(a))]
  {
    Stepped(c, s, Record(s.vm, Hc(SetAgentConfig(a))).(agent := Some(a)))
  }

  function RegisterBuffer<G, P, O>(c: Context<G, P, O>, s: State<G, P, O>, size: nat): (t: State<G, P, O>)
    requires Before(c, s, Register(Fixed(size))) ||
             (Before(c, s, Register(FromHost)) && size == s.vm.guest.cfg.payloadBufferSize)
    ensures GoesTo(c, t, s, s.vm.guest.pc + 1)
  {
    Stepped(c, s, Record(s.vm, Hc(GetPayload(size))))
  }

  /** NEXT_PAYLOAD and FAST_ACQUIRE: the host waits for a payload, for ever if there is none,
      and takes its snapshot the first time. */
  function Await<G, P, O>(c: Context<G, P, O>, s: State<G, P, O>, h: Hypercall): (t: State<G, P, O>)
    requires Before(c, s, Call(h)) && h in {NextPayload, FastAcquire}
    ensures Reached(c, t) && (s.vm.pending == [] ==> t.vm.status.Blocked? && t.vm.pending == [])
    ensures s.vm.pending != [] ==>
              && t.vm.status.Running? && t.vm.guest.cpu == s.vm.guest.cpu
              && t.vm.guest.pc == s.vm.guest.pc + 1 && t.vm.pending == s.vm.pending[1..] && t.vm.agent == s.vm.agent
              && t.vm.snap == if s.vm.snap.None? then Some(t.vm.guest) else s.vm.snap
  {
    StepDeliver(c.program, c.env, s.vm, h);
    Stepped(c, s, Deliver(s.vm, h))
  }

  /** RELEASE, by either way: control goes on behind it, or from the snapshot, or nowhere if
      there is no payload to go on with. */
  function LetGo<G, P, O>(c: Context<G, P, O>, s: State<G, P, O>): (t: State<G, P, O>)
    requires Before(c, s, Call(Release)) || (Before(c, s, Guarded(Release)) && s.vm.guest.cpu == V1)
    ensures !Reloads(c.env, s.vm) ==> GoesTo(c, t, s, s.vm.guest.pc + 1) && t.vm.trace == s.vm.trace + [Hc(Release)]
    ensures Reloads(c.env, s.vm) && s.vm.pending == [] ==> Reached(c, t) && t.vm.status.Blocked? && t.vm.pending == []
    ensures Reloads(c.env, s.vm) && s.vm.pending != [] ==>
              && Reached(c, t) && t.vm.status.Running? && t.vm.guest == s.vm.snap.value
              && t.vm.pending == s.vm.pending[1..] && t.vm.agent == s.vm.agent && t.vm.snap == s.vm.snap
  {
    StepRelease(c.program, c.env, s.vm);
    Stepped(c, s, DoRelease(c.env, s.vm))
  }

  function Target<G, P, O>(c: Context<G, P, O>, s: State<G, P, O>): (t: State<G, P, O>)
    requires Before(c, s, RunTarget)
    ensures Continues(c, t, s) && t.vm.guest.pc == s.vm.guest.pc + 1 && t.vm.agent == s.vm.agent
    ensures t.vm.guest.cpu == s.vm.guest.cpu
    ensures t.vm.guest.last == Some(c.env.target(s.vm.guest.mem, s.vm.buffer).1)
  {
    var (m, o) := c.env.target(s.vm.guest.mem, s.vm.buffer);
    Stepped(c, s, Record(s.vm.(guest := s.vm.guest.(mem := m, last := Some(o))), Ran(s.vm.buffer, o)))
  }

  function Init<G, P, O>(c: Context<G, P, O>, s: State<G, P, O>): (t: State<G, P, O>)
    requires Before(c, s, InitTarget)
    ensures GoesTo(c, t, s, s.vm.guest.pc + 1)
  {
    Stepped(c, s, Goto(s.vm.(guest := s.vm.guest.(mem := c.env.init(s.vm.guest.mem))), s.vm.guest.pc + 1))
  }

  function Touch<G, P, O>(c: Context<G, P, O>, s: State<G, P, O>): (t: State<G, P, O>)
    requires Before(c, s, TouchBuffer)
    ensures GoesTo(c, t, s, s.vm.guest.pc + 1)
  {
    Stepped(c, s, Goto(s.vm.(buffer := c.env.touch(s.vm.buffer)), s.vm.guest.pc + 1))
  }

  /** The branch that the agent's program takes on a test of the agent. */
  function Branch<G, P, O>(c: Context<G, P, O>, s: State<G, P, O>, d: Cond, target: nat): (t: State<G, P, O>)
    requires Before(c, s, If(d, target))
    ensures GoesTo(c, t, s, if Holds(c.env, s.vm, d) then target else s.vm.guest.pc + 1)
  {
    Stepped(c, s, Goto(s.vm, if Holds(c.env, s.vm, d) then target else s.vm.guest.pc + 1))
  }

  /** The branch around something that the agent does if d holds. */
  function BranchUnless<G, P, O>(c: Context<G, P, O>, s: State<G, P, O>, d: Cond, target: nat): (t: State<G, P, O>)
    requires Before(c, s, Unless(d, target))
    ensures GoesTo(c, t, s, if Holds(c.env, s.vm, d) then s.vm.guest.pc + 1 else target)
    ensures t.vm.trace == s.vm.trace
  {
    Stepped(c, s, Goto(s.vm, if Holds(c.env, s.vm, d) then s.vm.guest.pc + 1 else target))
  }

  /** if (handler) kAFL_hypercall(h, handler) */
  function PlaceIf<G, P, O>(c: Context<G, P, O>, s: State<G, P, O>, k: nat, h: Hypercall): (t: State<G, P, O>)
    requires Before(c, s, Unless(Site(k), s.vm.guest.pc + 2)) && c.program(s.vm.guest.pc + 1) == Call(h) && Plain(h)
    ensures GoesTo(c, t, s, s.vm.guest.pc + 2)
  {
    var u := BranchUnless(c, s, Site(k), s.vm.guest.pc + 2);
    if c.env.choose(k, |s.vm.trace|) then Place(c, u, h) else u
  }

  /** The end of a loop's body, or of a branch. */
  function Follow<G, P, O>(c: Context<G, P, O>, s: State<G, P, O>, target: nat): (t: State<G, P, O>)
    requires Before(c, s, Jump(target))
    ensures GoesTo(c, t, s, target) && t.vm.trace == s.vm.trace
  {
    Stepped(c, s, Goto(s.vm, target))
  }

  /** A hypercall at the end of a branch. */
  function PlaceAndFollow<G, P, O>(c: Context<G, P, O>, s: State<G, P, O>, h: Hypercall, target: nat)
      : (t: State<G, P, O>)
    requires Before(c, s, Call(h)) && Plain(h) && c.program(s.vm.guest.pc + 1) == Jump(target)
    ensures GoesTo(c, t, s, target)
  {
    Follow(c, Place(c, s, h), target)
  }

  function Return<G, P, O>(c: Context<G, P, O>, s: State<G, P, O>): (t: State<G, P, O>)
    requires Before(c, s, Exit)
    ensures Reached(c, t) && t.vm.status.Halted? && t.vm.pending == s.vm.pending && t.vm.snap == s.vm.snap
  {
    Stepped(c, s, s.vm.(status := Halted))
  }
}
