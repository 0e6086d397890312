/** Looping and straight-line agents, reload and persistent mode: which of them an observer
    can tell apart. */
module Simulation {
  import opened NyxApi
  import opened Machine
  import opened Agents

  // ---------------------------------------------------------------- what follows RELEASE is dead

  /** Up to b there are only jumps below b; from the NEXT_PAYLOAD at b control runs straight
      to the RELEASE at r. */
  ghost predicate OneRound(p: Program, b: nat, r: nat) {
    && b < r && p(b) == Call(NextPayload) && p(r) == Call(Release)
    && (forall pc: nat :: pc < b ==> StaysBelow(p(pc), b))
    && (forall pc: nat :: b < pc < r ==> StaysBelow(p(pc), 0))
  }

  predicate StaysBelow(i: Instr, b: nat) {
    match i
    case If(_, t) => t <= b && b > 0
    case Unless(_, t) => t <= b && b > 0
    case Jump(t) => t <= b && b > 0
    case Call(h) => h != NextPayload && h != FastAcquire
    case Guarded(h) => h != NextPayload && h != FastAcquire
    case _ => true
  }

  ghost predicate Agree(p1: Program, p2: Program, r: nat) {
    forall pc: nat :: pc <= r ==> p1(pc) == p2(pc)
  }

  ghost predicate Within<G, P, O>(vm: Vm<G, P, O>, b: nat, r: nat) {
    && (vm.status.Running? ==> vm.guest.pc <= r && (vm.guest.pc > b ==> vm.snap.Some?))
    && (vm.snap.Some? ==> b < vm.snap.value.pc <= r)
  }

  /** On a host in reload mode, two programs that agree up to the RELEASE of their first
      round run in lock step for ever: state by state, event by event. */
  lemma {:induction false} AfterReleaseIsDead<G, P, O>(
    p1: Program, p2: Program, b: nat, r: nat, env: Env<G, P, O>, vm: Vm<G, P, O>, n: nat)
    requires OneRound(p1, b, r) && Agree(p1, p2, r)
    requires !env.persistent && Within(vm, b, r)
    ensures Run(p1, env, vm, n) == Run(p2, env, vm, n)
    decreases n
  {
    if n > 0 {
      StepStaysWithin(p1, b, r, env, vm);
      AfterReleaseIsDead(p1, p2, b, r, env, Step(p1, env, vm), n - 1);
    }
  }

  lemma StepStaysWithin<G, P, O>(p: Program, b: nat, r: nat, env: Env<G, P, O>, vm: Vm<G, P, O>)
    requires OneRound(p, b, r) && !env.persistent && Within(vm, b, r)
    ensures Within(Step(p, env, vm), b, r)
  {
    if vm.status.Running? && b < vm.guest.pc < r {
      assert StaysBelow(p(vm.guest.pc), 0);
    } else if vm.status.Running? && vm.guest.pc < b {
      assert StaysBelow(p(vm.guest.pc), b);
    }
  }

  /** The same program with everything after pc r replaced. */
  function CutAfter(p: Program, r: nat, rest: Program): Program {
    (pc: nat) => if pc <= r then p(pc) else rest(pc)
  }

  /** The pc of the RELEASE that ends the first round; agents without NEXT_PAYLOAD, or with a
      round before it, are not of this form. */
  function ReleaseOf(a: Agent): Option<(nat, nat)> {
    match a
    case DxeAgent => Some((21, 24))
    case UefiLibrary => Some((23, 26))
    case ZephyrAgent => Some((24, 27))
    case VulnDriver => Some((31, 34))
    case SelfFuzzer => Some((27, 30))
    case _ => None
  }

  lemma ReleaseEndsOneRound(a: Agent)
    requires ReleaseOf(a).Some?
    ensures OneRound(ProgramOf(a), ReleaseOf(a).value.0, ReleaseOf(a).value.1)
  {
    match a
    case DxeAgent => UefiRounds();
    case UefiLibrary => UefiRounds();
    case ZephyrAgent => ZephyrRound();
    case VulnDriver => VulnTestRound();
    case SelfFuzzer => SelfFuzzRound();
  }

  lemma UefiRounds()
    ensures OneRound(DxeHarness, 21, 24) && OneRound(AgentLib, 23, 26)
  {
  }

  lemma ZephyrRound()
    ensures OneRound(Zephyr, 24, 27)
  {
  }

  lemma VulnTestRound()
    ensures OneRound(VulnTest, 31, 34)
  {
  }

  lemma SelfFuzzRound()
    ensures OneRound(SelfFuzz, 27, 30)
  {
  }

  /** Whatever stands behind the RELEASE of these agents, a jump back to NEXT_PAYLOAD, an exit
      or anything else, makes no difference to any run on a reloading host. */
  lemma LoopIsRedundant<G, P, O>(
    a: Agent, rest: Program, env: Env<G, P, O>, mem: G, garbage: HostConfig, buffer: P, payloads: seq<P>, n: nat)
    requires ReleaseOf(a).Some? && !env.persistent
    ensures var p, boot := ProgramOf(a), Boot<G, P, O>(mem, garbage, buffer, payloads);
            Run(p, env, boot, n) == Run(CutAfter(p, ReleaseOf(a).value.1, rest), env, boot, n)
  {
    var p := ProgramOf(a);
    var (b, r) := ReleaseOf(a).value;
    ReleaseEndsOneRound(a);
    AfterReleaseIsDead(p, CutAfter(p, r, rest), b, r, env, Boot(mem, garbage, buffer, payloads), n);
  }

  // ---------------------------------------------------------------- rounds

  /** The round of the plain agents: NEXT_PAYLOAD, ACQUIRE, the target, RELEASE. */
  predicate RoundAt(p: Program, b: nat) {
    p(b) == Call(NextPayload) && p(b + 1) == Call(Acquire) && p(b + 2) == RunTarget && p(b + 3) == Call(Release)
  }

  /** The events of one round, from ACQUIRE to RELEASE. */
  function Round<P, O>(p: P, o: O): seq<Event<P, O>> {
    [Hc(Acquire), Ran(p, o), Hc(Release)]
  }

  /** Rounds from the snapshot: each starts from the same memory, and the host's Resume puts
      the next payload in place. */
  function ReloadRounds<G, P, O>(target: (G, P) -> (G, O), m: G, ps: seq<P>): seq<Event<P, O>> {
    if ps == [] then []
    else Round(ps[0], target(m, ps[0]).1) + (if |ps| == 1 then [] else [Resume]) + ReloadRounds(target, m, ps[1..])
  }

  /** Rounds of a guest that is never reset: memory is passed on, and each round asks for its payload. */
  function PersistentRounds<G, P, O>(target: (G, P) -> (G, O), m: G, ps: seq<P>): seq<Event<P, O>> {
    if ps == [] then []
    else [Hc(NextPayload)] + Round(ps[0], target(m, ps[0]).1) + PersistentRounds(target, target(m, ps[0]).0, ps[1..])
  }

  function MemAfter<G, P, O>(target: (G, P) -> (G, O), m: G, ps: seq<P>): G {
    if ps == [] then m else MemAfter(target, target(m, ps[0]).0, ps[1..])
  }

  /** The runs of the target that a trace shows. */
  function Outcomes<P, O>(t: seq<Event<P, O>>): seq<(P, O)> {
    if t == [] then []
    else (if t[0].Ran? then [(t[0].payload, t[0].outcome)] else []) + Outcomes(t[1..])
  }

  lemma {:induction false} OutcomesConcat<P, O>(s: seq<Event<P, O>>, t: seq<Event<P, O>>)
    ensures Outcomes(s + t) == Outcomes(s) + Outcomes(t)
  {
    var u := s + t;
    if s == [] {
      assert u == t;
    } else {
      assert u[0] == s[0] && u[1..] == s[1..] + t;
      OutcomesConcat(s[1..], t);
      var first := if s[0].Ran? then [(s[0].payload, s[0].outcome)] else [];
      assert Outcomes(s) == first + Outcomes(s[1..]);
      assert Outcomes(u) == first + (Outcomes(s[1..]) + Outcomes(t));
    }
  }

  lemma RoundOutcomes<P, O>(p: P, o: O)
    ensures Outcomes(Round(p, o)) == [(p, o)]
  {
    var last: seq<Event<P, O>> := [Hc(Release)];
    var tail: seq<Event<P, O>> := [Ran(p, o), Hc(Release)];
    assert last[1..] == [] && tail[1..] == last && Round(p, o)[1..] == tail;
    assert Outcomes(last) == [] && Outcomes(tail) == [(p, o)] + [];
  }

  /** In reload mode every payload meets the snapshot's memory, whatever came before it. */
  lemma {:induction false} ReloadOutcomes<G, P, O>(target: (G, P) -> (G, O), m: G, ps: seq<P>)
    ensures Outcomes(ReloadRounds(target, m, ps)) ==
            seq(|ps|, (i: nat) requires i < |ps| => (ps[i], target(m, ps[i]).1))
  {
    if ps != [] {
      var o := target(m, ps[0]).1;
      var resume: seq<Event<P, O>> := if |ps| == 1 then [] else [Resume];
      RoundOutcomes(ps[0], o);
      OutcomesConcat(Round(ps[0], o) + resume, ReloadRounds(target, m, ps[1..]));
      OutcomesConcat(Round(ps[0], o), resume);
      ReloadOutcomes(target, m, ps[1..]);
    }
  }

  /** In persistent mode a payload meets what its predecessors left. */
  lemma {:induction false} PersistentOutcomes<G, P, O>(target: (G, P) -> (G, O), m: G, ps: seq<P>)
    ensures Outcomes(PersistentRounds(target, m, ps)) ==
            seq(|ps|, (i: nat) requires i < |ps| => (ps[i], target(MemAfter(target, m, ps[..i]), ps[i]).1))
  {
    if ps != [] {
      var (m', o) := target(m, ps[0]);
      var rest := ps[1..];
      RoundOutcomes(ps[0], o);
      OutcomesConcat([Hc(NextPayload)] + Round(ps[0], o), PersistentRounds(target, m', rest));
      OutcomesConcat([Hc(NextPayload)], Round(ps[0], o));
      PersistentOutcomes(target, m', rest);
      var got := Outcomes(PersistentRounds(target, m, ps));
      assert got == [(ps[0], o)] + Outcomes(PersistentRounds(target, m', rest));
      forall i: nat | i < |ps|
        ensures got[i] == (ps[i], target(MemAfter(target, m, ps[..i]), ps[i]).1)
      {
        if i > 0 {
          assert ps[..i][1..] == rest[..i-1] && ps[i] == rest[i-1];
        }
      }
    }
  }

  // ---------------------------------------------------------------- the machine does these rounds

  /** The agent allows persistent mode and the host uses it. */
  ghost predicate Persists<G, P, O>(env: Env<G, P, O>, vm: Vm<G, P, O>) {
    env.persistent && vm.agent.Some? && vm.agent.value.nonReload
  }

  ghost predicate AtRound<G, P, O>(vm: Vm<G, P, O>, b: nat) {
    vm.status.Running? && vm.guest.pc == b && vm.snap.None?
  }

  /** A guest that asks for a payload when there is none waits for ever. */
  lemma NoPayload<G, P, O>(p: Program, b: nat, env: Env<G, P, O>, vm: Vm<G, P, O>, n: nat)
    requires RoundAt(p, b) && vm.status.Running? && vm.guest.pc == b && vm.pending == [] && n > 0
    ensures Run(p, env, vm, n) == vm.(status := Blocked)
  {
    RunStopped(p, env, Step(p, env, vm), n - 1);
  }

  /** From the restored snapshot, with k + 3 steps to go: the state v at the next restoration,
      or at the end of the payloads. */
  lemma ReloadTurn<G, P, O>(p: Program, b: nat, env: Env<G, P, O>, vm: Vm<G, P, O>, k: nat) returns (v: Vm<G, P, O>)
    requires RoundAt(p, b) && !Persists(env, vm)
    requires vm.status.Running? && vm.guest.pc == b + 1 && vm.snap == Some(vm.guest)
    ensures Run(p, env, vm, k + 3) == Run(p, env, v, k)
    ensures v.snap == vm.snap && v.agent == vm.agent
    ensures var events := Round(vm.buffer, env.target(vm.guest.mem, vm.buffer).1);
            if vm.pending == [] then v.status.Blocked? && v.trace == vm.trace + events
            else v.status.Running? && v.guest == vm.guest && [v.buffer] + v.pending == vm.pending
                 && v.trace == vm.trace + events + [Resume]
  {
    var v1 := Step(p, env, vm);
    var v2 := Step(p, env, v1);
    v := Step(p, env, v2);
    assert v1 == Record(vm, Hc(Acquire));
    assert v2.trace == vm.trace + [Hc(Acquire)] + [Ran(vm.buffer, env.target(vm.guest.mem, vm.buffer).1)];
    assert v == DoRelease(env, v2);
    assert Run(p, env, vm, k + 3) == Run(p, env, v1, k + 2) == Run(p, env, v2, k + 1);
  }

  lemma {:induction false} ReloadLoop<G, P, O>(p: Program, b: nat, env: Env<G, P, O>, vm: Vm<G, P, O>)
    requires RoundAt(p, b) && !Persists(env, vm)
    requires vm.status.Running? && vm.guest.pc == b + 1 && vm.snap == Some(vm.guest)
    ensures var v := Run(p, env, vm, 3 * (|vm.pending| + 1));
            && v.status.Blocked?
            && v.trace == vm.trace + ReloadRounds(env.target, vm.guest.mem, [vm.buffer] + vm.pending)
    decreases |vm.pending|
  {
    hide Run, Step;
    var m, ps := vm.guest.mem, [vm.buffer] + vm.pending;
    assert ps[0] == vm.buffer && ps[1..] == vm.pending;
    var v := ReloadTurn(p, b, env, vm, 3 * |vm.pending|);
    if vm.pending == [] {
      RunStopped(p, env, v, 0);
      assert ReloadRounds(env.target, m, ps) == Round(vm.buffer, env.target(m, vm.buffer).1) + [] + [];
    } else {
      ReloadLoop(p, b, env, v);
      assert ReloadRounds(env.target, m, ps) ==
             Round(vm.buffer, env.target(m, vm.buffer).1) + [Resume] + ReloadRounds(env.target, m, vm.pending);
    }
  }

  /** All of a reloading host's payloads, starting at NEXT_PAYLOAD. */
  lemma ReloadRun<G, P, O>(p: Program, b: nat, env: Env<G, P, O>, vm: Vm<G, P, O>)
    requires RoundAt(p, b) && !Persists(env, vm) && AtRound(vm, b)
    ensures var v := Run(p, env, vm, 1 + 3 * |vm.pending|);
            && v.status.Blocked?
            && v.trace == vm.trace + (if vm.pending == [] then [] else [Hc(NextPayload)])
                          + ReloadRounds(env.target, vm.guest.mem, vm.pending)
  {
    var v := Step(p, env, vm);
    if vm.pending == [] {
      NoPayload(p, b, env, vm, 1);
    } else {
      assert Run(p, env, vm, 1 + 3 * |vm.pending|) == Run(p, env, v, 3 * |vm.pending|);
      ReloadLoop(p, b, env, v);
      assert [v.buffer] + v.pending == vm.pending;
    }
  }

  lemma RequestAndAcquire<G, P, O>(p: Program, b: nat, env: Env<G, P, O>, vm: Vm<G, P, O>)
    requires RoundAt(p, b) && vm.status.Running? && vm.guest.pc == b && vm.pending != []
    ensures var v := Run(p, env, vm, 2);
            && v.status.Running? && v.guest == vm.guest.(pc := b + 2) && v.agent == vm.agent
            && v.buffer == vm.pending[0] && v.pending == vm.pending[1..]
            && v.trace == vm.trace + [Hc(NextPayload)] + [Hc(Acquire)]
  {
    var v1 := Step(p, env, vm);
    assert v1 == Deliver(vm, NextPayload);
    var v2 := Step(p, env, v1);
    assert v2 == Record(v1, Hc(Acquire));
    assert Run(p, env, vm, 2) == Run(p, env, v1, 1) == Run(p, env, v2, 0);
  }

  lemma RunAndRelease<G, P, O>(p: Program, b: nat, env: Env<G, P, O>, vm: Vm<G, P, O>)
    requires RoundAt(p, b) && Persists(env, vm) && vm.status.Running? && vm.guest.pc == b + 2
    ensures var v, (m, o) := Run(p, env, vm, 2), env.target(vm.guest.mem, vm.buffer);
            && v.status.Running? && v.guest.pc == b + 4 && v.guest.mem == m && v.agent == vm.agent
            && v.pending == vm.pending
            && v.trace == vm.trace + [Ran(vm.buffer, o)] + [Hc(Release)]
  {
    var v1 := Step(p, env, vm);
    var v2 := Step(p, env, v1);
    assert v2 == Record(v1, Hc(Release));
    assert Run(p, env, vm, 2) == Run(p, env, v1, 1) == Run(p, env, v2, 0);
  }

  /** One round on a persistent host: the guest is left with its own memory behind the RELEASE. */
  lemma PersistentRound<G, P, O>(p: Program, b: nat, env: Env<G, P, O>, vm: Vm<G, P, O>)
    requires RoundAt(p, b) && Persists(env, vm)
    requires vm.status.Running? && vm.guest.pc == b && vm.pending != []
    ensures var v, (m, o) := Run(p, env, vm, 4), env.target(vm.guest.mem, vm.pending[0]);
            && v.status.Running? && v.guest.pc == b + 4 && v.guest.mem == m && v.agent == vm.agent
            && v.pending == vm.pending[1..]
            && v.trace == vm.trace + ([Hc(NextPayload)] + Round(vm.pending[0], o))
  {
    RequestAndAcquire(p, b, env, vm);
    RunAndRelease(p, b, env, Run(p, env, vm, 2));
    RunSplit(p, env, vm, 2, 2);
  }

  /** All of a persistent host's payloads, for an agent that loops. */
  lemma {:induction false} PersistentRun<G, P, O>(p: Program, b: nat, env: Env<G, P, O>, vm: Vm<G, P, O>)
    requires RoundAt(p, b) && p(b + 4) == Jump(b) && Persists(env, vm)
    requires vm.status.Running? && vm.guest.pc == b
    ensures var v := Run(p, env, vm, 1 + 5 * |vm.pending|);
            && v.status.Blocked?
            && v.trace == vm.trace + PersistentRounds(env.target, vm.guest.mem, vm.pending)
            && v.guest.mem == MemAfter(env.target, vm.guest.mem, vm.pending)
    decreases |vm.pending|
  {
    hide Run, Step;
    if vm.pending == [] {
      NoPayload(p, b, env, vm, 1);
    } else {
      var v := LoopRound(p, b, env, vm, 1 + 5 * (|vm.pending| - 1));
      PersistentRun(p, b, env, v);
      assert vm.trace + ([Hc(NextPayload)] + Round(vm.pending[0], env.target(vm.guest.mem, vm.pending[0]).1))
             + PersistentRounds(env.target, v.guest.mem, v.pending)
             == vm.trace + PersistentRounds(env.target, vm.guest.mem, vm.pending);
    }
  }

  /** The state v after one turn of the loop, with k steps left to go. */
  lemma LoopRound<G, P, O>(p: Program, b: nat, env: Env<G, P, O>, vm: Vm<G, P, O>, k: nat) returns (v: Vm<G, P, O>)
    requires RoundAt(p, b) && p(b + 4) == Jump(b) && Persists(env, vm)
    requires vm.status.Running? && vm.guest.pc == b && vm.pending != []
    ensures Run(p, env, vm, k + 5) == Run(p, env, v, k)
    ensures var (m, o) := env.target(vm.guest.mem, vm.pending[0]);
            && v.status.Running? && v.guest.pc == b && v.guest.mem == m && v.agent == vm.agent
            && v.pending == vm.pending[1..]
            && v.trace == vm.trace + ([Hc(NextPayload)] + Round(vm.pending[0], o))
  {
    PersistentRound(p, b, env, vm);
    var v4 := Run(p, env, vm, 4);
    RunSplit(p, env, vm, 4, k + 1);
    v := Step(p, env, v4);
  }

  /** An agent that ends after its round serves a persistent host exactly one payload. */
  lemma StraightLineOnPersistentHost<G, P, O>(p: Program, b: nat, env: Env<G, P, O>, vm: Vm<G, P, O>)
    requires RoundAt(p, b) && p(b + 4) == Exit && Persists(env, vm)
    requires vm.status.Running? && vm.guest.pc == b
    ensures var v := Run(p, env, vm, 5);
            && (if vm.pending == [] then v.status.Blocked? else v.status.Halted?)
            && v.trace == vm.trace +
               PersistentRounds(env.target, vm.guest.mem, if vm.pending == [] then [] else [vm.pending[0]])
  {
    if vm.pending == [] {
      NoPayload(p, b, env, vm, 5);
    } else {
      PersistentRound(p, b, env, vm);
      RunSplit(p, env, vm, 4, 1);
      var v4 := Run(p, env, vm, 4);
      assert Run(p, env, v4, 1) == Run(p, env, Step(p, env, v4), 0);
      assert PersistentRounds(env.target, vm.guest.mem, [vm.pending[0]]) ==
             [Hc(NextPayload)] + Round(vm.pending[0], env.target(vm.guest.mem, vm.pending[0]).1) + [];
    }
  }

  // ---------------------------------------------------------------- mode agreement

  /** The re-entry rule of RunTestHarness: no residue of earlier inputs shows in an outcome. */
  ghost predicate ResidueFree<G, P(!new), O>(target: (G, P) -> (G, O), m: G) {
    forall ps, p :: target(MemAfter(target, m, ps), p).1 == target(m, p).1
  }

  ghost predicate ModesAgree<G, P(!new), O>(target: (G, P) -> (G, O), m: G) {
    forall ps :: Outcomes(PersistentRounds(target, m, ps)) == Outcomes(ReloadRounds(target, m, ps))
  }

  /** A looping agent's two modes yield the same outcomes on every stream of payloads exactly
      when its target obeys the re-entry rule. */
  lemma ModesAgreeIffResidueFree<G, P(!new), O>(target: (G, P) -> (G, O), m: G)
    ensures ModesAgree(target, m) <==> ResidueFree(target, m)
  {
    forall ps | ResidueFree(target, m)
      ensures Outcomes(PersistentRounds(target, m, ps)) == Outcomes(ReloadRounds(target, m, ps))
    {
      PersistentOutcomes(target, m, ps);
      ReloadOutcomes(target, m, ps);
    }
    forall ps, p | ModesAgree(target, m)
      ensures target(MemAfter(target, m, ps), p).1 == target(m, p).1
    {
      var stream := ps + [p];
      assert stream[..|ps|] == ps;
      PersistentOutcomes(target, m, stream);
      ReloadOutcomes(target, m, stream);
      assert Outcomes(PersistentRounds(target, m, stream))[|ps|] == Outcomes(ReloadRounds(target, m, stream))[|ps|];
    }
  }
}
