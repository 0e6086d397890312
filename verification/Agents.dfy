/** The agents as programs of the machine, one instruction per hypercall or test, and the
    proof that each keeps the session protocol and its configuration policy on every run. */
module Agents {
  import opened NyxApi
  import opened Protocol
  import opened Machine
  import opened WaitStatus

  const PAYLOAD_MAX := 128 * 1024
  const FS_PAYLOAD_MAX := 1024 * 1024

  // ---------------------------------------------------------------- uefi: kAFLDxe, kAFLAgentLib

  /** HarnessInit and the library's agent_init up to the end of the handshake (pc 0 to 19). */
  function UefiInit(pc: nat): Instr {
    match pc
    case 0 => Call(Acquire)
    case 1 => Call(Release)
    case 2 => Unless(Site(0), 4)         // no panic handler
    case 3 => Call(SubmitPanic)
    case 4 => Unless(Site(1), 6)         // no kasan handler
    case 5 => Call(SubmitKasan)
    case 6 => Call(Printf)
    case 7 => Call(GetHostConfig)
    case 8 => If(IdentityOk, 11)
    case 9 => Call(Printf)
    case 10 => Call(UserAbort)
    case 11 => Call(Printf)
    case 12 => Call(Printf)
    case 13 => Call(Printf)
    case 14 => If(SizeOk(PAYLOAD_MAX), 17)
    case 15 => Call(Printf)
    case 16 => Call(UserAbort)
    case 17 => Call(Printf)
    case 18 => SendConfig(true, true)
    case _ => Call(Printf)
  }

  /** HarnessInit, then HarnessRun. */
  function DxeHarness(pc: nat): Instr {
    match pc
    case 20 => Register(Fixed(PAYLOAD_MAX))
    case 21 => Call(NextPayload)
    case 22 => Call(Acquire)
    case 23 => RunTarget
    case 24 => Call(Release)
    case 25 => Jump(21)
    case _ => if pc < 20 then UefiInit(pc) else Exit
  }

  ghost predicate DxeAnn(pc: nat, q: PState, c: HostConfig, host: HostConfig) {
    && q.progress == (if pc <= 7 then NoConfig else if pc <= 18 then Got else Sent(true))
    && (q.buffer <==> pc > 20)
    && (q.acquired <==> pc == 1 || pc == 23 || pc == 24)
    && (q.armed <==> pc == 22)
    && (if pc <= 20 then q.snap == NoSnap
        else if pc == 21 || pc > 24 then q.snap in {NoSnap, AtNext}
        else q.snap == AtNext)
    && !q.warmed && !q.dead
    && (pc > 7 ==> c == host)
    && (11 <= pc ==> c.magic == NYX_HOST_MAGIC && c.version == NYX_HOST_VERSION)
    && (17 <= pc ==> c.payloadBufferSize <= PAYLOAD_MAX)
  }

  /** What the checking agents may tell the host: their configuration only if the host's is
      compatible, with the host's own bitmap size, and a buffer no smaller than the host's. */
  ghost predicate CheckedPolicy(host: HostConfig, h: Hypercall, max: nat, persistent: bool) {
    match h
    case SetAgentConfig(a) =>
      Compatible(host, max) && a == AgentConfig(NYX_AGENT_MAGIC, NYX_AGENT_VERSION, persistent, host.bitmapSize)
    case GetPayload(n) => n == max && host.payloadBufferSize <= n
    case _ => true
  }

  ghost function Checked(max: nat, persistent: bool): Policy {
    (host, h) => CheckedPolicy(host, h, max, persistent)
  }

  lemma DxeLocal(pc: nat, q: PState, c: HostConfig, host: HostConfig)
    requires DxeAnn(pc, q, c, host)
    ensures LocalOk(DxeHarness, DxeAnn, Checked(PAYLOAD_MAX, true), pc, q, c, host)
  {
  }

  lemma DxeAnnotated()
    ensures Annotated(DxeHarness, DxeAnn, Checked(PAYLOAD_MAX, true))
  {
    forall pc: nat, q, c, host | DxeAnn(pc, q, c, host)
      ensures LocalOk(DxeHarness, DxeAnn, Checked(PAYLOAD_MAX, true), pc, q, c, host)
    {
      DxeLocal(pc, q, c, host);
    }
  }

  /** agent_init with its target initialization, then agent_run. */
  function AgentLib(pc: nat): Instr {
    match pc
    case 20 => InitTarget
    case 21 => Register(Fixed(PAYLOAD_MAX))
    case 22 => Call(SubmitCr3)
    case 23 => Call(NextPayload)
    case 24 => Call(Acquire)
    case 25 => RunTarget
    case 26 => Call(Release)
    case 27 => Jump(23)
    case _ => if pc < 20 then UefiInit(pc) else Exit
  }

  ghost predicate AgentLibAnn(pc: nat, q: PState, c: HostConfig, host: HostConfig) {
    && q.progress == (if pc <= 7 then NoConfig else if pc <= 18 then Got else Sent(true))
    && (q.buffer <==> pc > 21)
    && (q.acquired <==> pc == 1 || pc == 25 || pc == 26)
    && (q.armed <==> pc == 24)
    && (if pc <= 22 then q.snap == NoSnap
        else if pc == 23 || pc > 26 then q.snap in {NoSnap, AtNext}
        else q.snap == AtNext)
    && !q.warmed && !q.dead
    && (pc > 7 ==> c == host)
    && (11 <= pc ==> c.magic == NYX_HOST_MAGIC && c.version == NYX_HOST_VERSION)
    && (17 <= pc ==> c.payloadBufferSize <= PAYLOAD_MAX)
  }

  lemma AgentLibLocal(pc: nat, q: PState, c: HostConfig, host: HostConfig)
    requires AgentLibAnn(pc, q, c, host)
    ensures LocalOk(AgentLib, AgentLibAnn, Checked(PAYLOAD_MAX, true), pc, q, c, host)
  {
  }

  lemma AgentLibAnnotated()
    ensures Annotated(AgentLib, AgentLibAnn, Checked(PAYLOAD_MAX, true))
  {
    forall pc: nat, q, c, host | AgentLibAnn(pc, q, c, host)
      ensures LocalOk(AgentLib, AgentLibAnn, Checked(PAYLOAD_MAX, true), pc, q, c, host)
    {
      AgentLibLocal(pc, q, c, host);
    }
  }

  // ---------------------------------------------------------------- zephyr

  function Zephyr(pc: nat): Instr {
    match pc
    case 0 => Call(Printf)
    case 1 => Call(Printf)
    case 2 => Call(Printf)
    case 3 => Call(Acquire)
    case 4 => Call(Release)
    case 5 => Call(SubmitCr3)
    case 6 => Call(SubmitMode)
    case 7 => Unless(Site(0), 9)         // no panic handler
    case 8 => Call(SubmitPanic)
    case 9 => Unless(Site(1), 11)        // no kasan handler
    case 10 => Call(SubmitKasan)
    case 11 => Call(GetHostConfig)
    case 12 => If(IdentityOk, 15)
    case 13 => Call(Printf)
    case 14 => Call(UserAbort)
    case 15 => Call(Printf)
    case 16 => Call(Printf)
    case 17 => Call(Printf)
    case 18 => If(SizeOk(PAYLOAD_MAX), 20)
    case 19 => Call(UserAbort)
    case 20 => SendConfig(true, true)
    case 21 => Register(Fixed(PAYLOAD_MAX))
    case 22 => InitTarget
    case 23 => Call(Printf)
    case 24 => Call(NextPayload)
    case 25 => Call(Acquire)
    case 26 => RunTarget
    case 27 => Call(Release)
    case 28 => Jump(24)
    case _ => Exit
  }

  ghost predicate ZephyrAnn(pc: nat, q: PState, c: HostConfig, host: HostConfig) {
    && q.progress == (if pc <= 11 then NoConfig else if pc <= 20 then Got else Sent(true))
    && (q.buffer <==> pc > 21)
    && (q.acquired <==> pc == 4 || pc == 26 || pc == 27)
    && (q.armed <==> pc == 25)
    && (if pc <= 23 then q.snap == NoSnap
        else if pc == 24 || pc > 27 then q.snap in {NoSnap, AtNext}
        else q.snap == AtNext)
    && !q.warmed && !q.dead
    && (pc > 11 ==> c == host)
    && (15 <= pc ==> c.magic == NYX_HOST_MAGIC && c.version == NYX_HOST_VERSION)
    && (20 <= pc ==> c.payloadBufferSize <= PAYLOAD_MAX)
  }

  lemma ZephyrLocal(pc: nat, q: PState, c: HostConfig, host: HostConfig)
    requires ZephyrAnn(pc, q, c, host)
    ensures LocalOk(Zephyr, ZephyrAnn, Checked(PAYLOAD_MAX, true), pc, q, c, host)
  {
  }

  lemma ZephyrAnnotated()
    ensures Annotated(Zephyr, ZephyrAnn, Checked(PAYLOAD_MAX, true))
  {
    forall pc: nat, q, c, host | ZephyrAnn(pc, q, c, host)
      ensures LocalOk(Zephyr, ZephyrAnn, Checked(PAYLOAD_MAX, true), pc, q, c, host)
    {
      ZephyrLocal(pc, q, c, host);
    }
  }

  // ---------------------------------------------------------------- windows: vuln_test

  function VulnTest(pc: nat): Instr {
    match pc
    case 0 => If(Site(0), 3)              // driver opened
    case 1 => Call(Printf)
    case 2 => Call(UserAbort)
    case 3 => Call(Printf)
    case 4 => Call(Acquire)
    case 5 => Call(Release)
    case 6 => Call(SubmitCr3)
    case 7 => Call(SubmitMode)
    case 8 => Call(GetHostConfig)
    case 9 => If(IdentityOk, 12)
    case 10 => Call(Printf)
    case 11 => Call(UserAbort)
    case 12 => Call(Printf)
    case 13 => Call(Printf)
    case 14 => Call(Printf)
    case 15 => If(SizeOk(PAYLOAD_MAX), 17)
    case 16 => Call(UserAbort)
    case 17 => SendConfig(true, true)
    case 18 => If(Site(1), 20)            // both bug check routines resolved
    case 19 => Exit
    case 20 => Call(Printf)
    case 21 => Call(SubmitPanic)
    case 22 => Call(SubmitPanic)
    case 23 => Call(SubmitCr3)
    case 24 => Register(Fixed(PAYLOAD_MAX))
    case 25 => If(Site(2), 30)            // the driver is among the loaded modules
    case 26 => Unless(Site(3), 28)
    case 27 => Call(Printf)
    case 28 => Call(UserAbort)
    case 29 => Exit
    case 30 => Call(RangeSubmit)
    case 31 => Call(NextPayload)
    case 32 => Call(Acquire)
    case 33 => RunTarget
    case 34 => Call(Release)
    case _ => Exit
  }

  ghost predicate VulnTestAnn(pc: nat, q: PState, c: HostConfig, host: HostConfig) {
    && q.progress == (if pc <= 8 then NoConfig else if pc <= 17 then Got else Sent(true))
    && (q.buffer <==> pc > 24)
    && (q.acquired <==> pc == 5 || pc == 33 || pc == 34)
    && (q.armed <==> pc == 32)
    && q.snap == (if pc <= 31 then NoSnap else AtNext)
    && !q.warmed && !q.dead
    && (pc > 8 ==> c == host)
    && (12 <= pc ==> c.magic == NYX_HOST_MAGIC && c.version == NYX_HOST_VERSION)
    && (17 <= pc ==> c.payloadBufferSize <= PAYLOAD_MAX)
  }

  lemma VulnTestLocal(pc: nat, q: PState, c: HostConfig, host: HostConfig)
    requires VulnTestAnn(pc, q, c, host)
    ensures LocalOk(VulnTest, VulnTestAnn, Checked(PAYLOAD_MAX, true), pc, q, c, host)
  {
  }

  lemma VulnTestAnnotated()
    ensures Annotated(VulnTest, VulnTestAnn, Checked(PAYLOAD_MAX, true))
  {
    forall pc: nat, q, c, host | VulnTestAnn(pc, q, c, host)
      ensures LocalOk(VulnTest, VulnTestAnn, Checked(PAYLOAD_MAX, true), pc, q, c, host)
    {
      VulnTestLocal(pc, q, c, host);
    }
  }

  // ---------------------------------------------------------------- windows: selffuzz_test

  function SelfFuzz(pc: nat): Instr {
    match pc
    case 0 => Call(Printf)
    case 1 => Call(Printf)
    case 2 => Call(Lock)
    case 3 => Call(Acquire)
    case 4 => Call(Release)
    case 5 => Call(SubmitMode)
    case 6 => Call(GetHostConfig)
    case 7 => Call(Printf)
    case 8 => Call(Printf)
    case 9 => Call(Printf)
    case 10 => Call(Printf)
    case 11 => If(Site(0), 13)            // buffer locked in memory
    case 12 => Call(UserAbort)
    case 13 => Call(Printf)
    case 14 => Register(FromHost)
    case 15 => Call(SubmitCr3)
    case 16 => SendConfig(false, false)
    case 17 => Call(Printf)
    case 18 => Call(RangeAdvise)
    case 19 => If(Site(1), 21)            // module handle and PE signature
    case 20 => Call(UserAbort)
    case 21 => If(Site(2), 24)            // .text section found
    case 22 => Call(UserAbort)
    case 23 => Jump(27)
    case 24 => Call(RangeSubmit)
    case 25 => If(Site(3), 27)            // section locked in memory
    case 26 => Call(UserAbort)
    case 27 => Call(NextPayload)
    case 28 => Call(Acquire)
    case 29 => RunTarget
    case 30 => Call(Release)
    case _ => Exit
  }

  ghost predicate SelfFuzzAnn(pc: nat, q: PState, c: HostConfig, host: HostConfig) {
    && q.progress == (if pc <= 6 then NoConfig else if pc <= 16 then Got else Sent(false))
    && (q.buffer <==> pc > 14)
    && (q.acquired <==> pc == 4 || pc == 29 || pc == 30)
    && (q.armed <==> pc == 28)
    && q.snap == (if pc <= 27 then NoSnap else AtNext)
    && !q.warmed && !q.dead
    && (pc > 6 ==> c == host)
  }

  /** This agent tests nothing; it sizes its buffer by what the host asks for. */
  ghost predicate SelfFuzzPolicy(host: HostConfig, h: Hypercall) {
    match h
    case SetAgentConfig(a) => a == AgentConfig(NYX_AGENT_MAGIC, NYX_AGENT_VERSION, false, 0)
    case GetPayload(n) => n == host.payloadBufferSize
    case _ => true
  }

  lemma SelfFuzzLocal(pc: nat, q: PState, c: HostConfig, host: HostConfig)
    requires SelfFuzzAnn(pc, q, c, host)
    ensures LocalOk(SelfFuzz, SelfFuzzAnn, SelfFuzzPolicy, pc, q, c, host)
  {
  }

  lemma SelfFuzzAnnotated()
    ensures Annotated(SelfFuzz, SelfFuzzAnn, SelfFuzzPolicy)
  {
    forall pc: nat, q, c, host | SelfFuzzAnn(pc, q, c, host)
      ensures LocalOk(SelfFuzz, SelfFuzzAnn, SelfFuzzPolicy, pc, q, c, host)
    {
      SelfFuzzLocal(pc, q, c, host);
    }
  }

  // ---------------------------------------------------------------- linux: fs_fuzzer

  /** RunTarget is the part of one round between the write and the RELEASE; the round before
      the first NEXT_PAYLOAD runs on what the guest left in its own buffer. */
  function FsFuzzer(pc: nat): Instr {
    match pc
    case 0 => If(Site(0), 3)              // one argument
    case 1 => Call(Printf)
    case 2 => Exit
    case 3 => If(Site(1), 6)              // loop device available
    case 4 => Call(UserAbort)
    case 5 => Exit
    case 6 => Call(Acquire)
    case 7 => Call(Release)
    case 8 => Call(GetHostConfig)
    case 9 => If(MagicOk, 13)
    case 10 => Call(Printf)
    case 11 => Call(UserAbort)
    case 12 => Jump(22)
    case 13 => If(VersionOk, 17)
    case 14 => Call(Printf)
    case 15 => Call(UserAbort)
    case 16 => Jump(22)
    case 17 => If(SizeOk(FS_PAYLOAD_MAX), 21)
    case 18 => Call(Printf)
    case 19 => Call(UserAbort)
    case 20 => Jump(22)
    case 21 => SendConfig(false, true)
    case 22 => Register(Fixed(FS_PAYLOAD_MAX))
    case 23 => If(Site(2), 26)            // loop device bound to the backing file
    case 24 => Call(UserAbort)
    case 25 => Exit
    case 26 => TouchBuffer                // size of the warm-up payload
    case 27 => If(Site(3), 30)            // seek and write succeeded, or were not attempted
    case 28 => Call(UserAbort)
    case 29 => Exit
    case 30 => Unless(Site(4), 32)       // write complete
    case 31 => Call(Printf)
    case 32 => RunTarget
    case 33 => Unless(Site(5), 35)       // nothing mounted
    case 34 => Call(Printf)
    case 35 => Call(Release)
    case 36 => Call(NextPayload)
    case 37 => Call(Acquire)
    case 38 => Jump(27)
    case _ => Exit
  }

  ghost predicate FsFuzzerAnn(pc: nat, q: PState, c: HostConfig, host: HostConfig) {
    && q.progress == (if pc <= 8 then NoConfig else if pc <= 21 then Got else Sent(false))
    && (q.buffer <==> pc > 22)
    && (if pc <= 26 then q.snap == NoSnap && (q.acquired <==> pc == 7) && !q.warmed
        else if pc <= 35 then
          (q.snap == NoSnap && !q.acquired && (q.warmed <==> pc > 32)) ||
          (q.snap == AtNext && q.acquired && q.warmed)
        else if pc == 36 then q.snap == NoSnap && !q.acquired && q.warmed
        else q.snap == AtNext && q.warmed && (q.acquired <==> pc > 37))
    && (q.armed <==> pc == 37)
    && !q.dead && pc !in {12, 16, 20}
    && (pc > 8 ==> c == host)
    && (13 <= pc ==> c.magic == NYX_HOST_MAGIC)
    && (17 <= pc ==> c.version == NYX_HOST_VERSION)
    && (21 <= pc ==> c.payloadBufferSize <= FS_PAYLOAD_MAX)
  }

  lemma FsFuzzerSetupLocal(pc: nat, q: PState, c: HostConfig, host: HostConfig)
    requires FsFuzzerAnn(pc, q, c, host) && pc <= 21
    ensures LocalOk(FsFuzzer, FsFuzzerAnn, Checked(FS_PAYLOAD_MAX, false), pc, q, c, host)
  {
  }

  lemma FsFuzzerLoopLocal(pc: nat, q: PState, c: HostConfig, host: HostConfig)
    requires FsFuzzerAnn(pc, q, c, host) && pc > 21
    ensures LocalOk(FsFuzzer, FsFuzzerAnn, Checked(FS_PAYLOAD_MAX, false), pc, q, c, host)
  {
  }

  lemma FsFuzzerAnnotated()
    ensures Annotated(FsFuzzer, FsFuzzerAnn, Checked(FS_PAYLOAD_MAX, false))
  {
    forall pc: nat, q, c, host | FsFuzzerAnn(pc, q, c, host)
      ensures LocalOk(FsFuzzer, FsFuzzerAnn, Checked(FS_PAYLOAD_MAX, false), pc, q, c, host)
    {
      if pc <= 21 {
        FsFuzzerSetupLocal(pc, q, c, host);
      } else {
        FsFuzzerLoopLocal(pc, q, c, host);
      }
    }
  }

  // ---------------------------------------------------------------- linux: forkserver

  /** The parent's program up to the fork, the child's from there, and the parent's again once
      waitpid() returns; the parent does nothing in between. allow is allow_persistent. */
  function Forkserver(allow: bool, pc: nat): Instr {
    match pc
    case 0 => If(Site(0), 3)              // pipe and descriptors
    case 1 => Call(Printf)
    case 2 => Call(UserAbort)
    case 3 => Detect
    case 4 => Call(GetHostConfig)
    case 5 => If(MagicOk, 9)
    case 6 => Call(Printf)
    case 7 => Call(UserAbort)
    case 8 => Jump(20)
    case 9 => If(VersionOk, 13)
    case 10 => Call(Printf)
    case 11 => Call(UserAbort)
    case 12 => Jump(20)
    case 13 => If(SizeOk(PAYLOAD_MAX), 17)
    case 14 => Call(Printf)
    case 15 => Call(UserAbort)
    case 16 => Jump(20)
    case 17 => SendConfig(allow, true)
    case 18 => Call(Acquire)
    case 19 => Call(Release)
    case 20 => Register(Fixed(PAYLOAD_MAX))
    case 21 => Call(SubmitMode)
    case 22 => If(Site(1), 25)            // memory map opened
    case 23 => Call(Printf)
    case 24 => Call(UserAbort)
    case 25 => Unless(Site(2), 29)       // no further matching line
    case 26 => Call(Printf)
    case 27 => Guarded(RangeSubmit)
    case 28 => Jump(25)
    case 29 => If(Site(3), 31)            // at least one range
    case 30 => Call(UserAbort)
    case 31 => Call(Printf)
    case 32 => Call(FastAcquire)          // fork; the child
    case 33 => If(Site(4), 36)            // pipe or output file opened
    case 34 => Call(Printf)
    case 35 => Call(UserAbort)
    case 36 => If(Site(5), 39)            // payload passed on in full
    case 37 => Call(Printf)
    case 38 => Call(UserAbort)
    case 39 => RunTarget
    case 40 => Unless(AtexitRan, 42)
    case 41 => if allow then Jump(42) else Guarded(Release)  // snapshot_reload
    case 42 => Unless(Signaled, 48)      // the parent, after waitpid
    case 43 => If(TermSigIs(SIGVTALRM), 46)
    case 44 => Call(Panic)
    case 45 => Jump(50)
    case 46 => Call(Printf)
    case 47 => Jump(50)
    case 48 => Unless(ExitStatusIs(ASAN_EXIT_CODE), 50)
    case 49 => Call(Kasan)
    case 50 => Call(Release)
    case 51 => Jump(32)
    case _ => Exit
  }

  ghost predicate ForkserverAnn(allow: bool, pc: nat, q: PState, c: HostConfig, host: HostConfig) {
    && q.progress == (if pc <= 4 then NoConfig else if pc <= 17 then Got else Sent(allow))
    && (q.buffer <==> pc > 20)
    && (q.acquired <==> pc == 19 || 33 <= pc <= 50)
    && (if pc <= 31 then q.snap == NoSnap
        else if 33 <= pc <= 50 then q.snap == AtFast
        else q.snap in {NoSnap, AtFast})
    && !q.armed && !q.warmed && !q.dead && pc !in {8, 12, 16}
    && (pc > 4 ==> c == host)
    && (9 <= pc ==> c.magic == NYX_HOST_MAGIC)
    && (13 <= pc ==> c.version == NYX_HOST_VERSION)
    && (17 <= pc ==> c.payloadBufferSize <= PAYLOAD_MAX)
  }

  function ForkserverProgram(allow: bool): Program {
    (pc: nat) => Forkserver(allow, pc)
  }

  ghost function ForkserverAnnotation(allow: bool): Annotation {
    (pc: nat, q: PState, c: HostConfig, host: HostConfig) => ForkserverAnn(allow, pc, q, c, host)
  }

  lemma ForkserverSetupLocal(allow: bool, pc: nat, q: PState, c: HostConfig, host: HostConfig)
    requires ForkserverAnn(allow, pc, q, c, host) && pc <= 19
    ensures LocalOk(ForkserverProgram(allow), ForkserverAnnotation(allow), Checked(PAYLOAD_MAX, allow), pc, q, c, host)
  {
  }

  lemma ForkserverLoopLocal(allow: bool, pc: nat, q: PState, c: HostConfig, host: HostConfig)
    requires ForkserverAnn(allow, pc, q, c, host) && pc > 19
    ensures LocalOk(ForkserverProgram(allow), ForkserverAnnotation(allow), Checked(PAYLOAD_MAX, allow), pc, q, c, host)
  {
  }

  lemma ForkserverAnnotated(allow: bool)
    ensures Annotated(ForkserverProgram(allow), ForkserverAnnotation(allow), Checked(PAYLOAD_MAX, allow))
  {
    forall pc: nat, q, c, host | ForkserverAnnotation(allow)(pc, q, c, host)
      ensures LocalOk(ForkserverProgram(allow), ForkserverAnnotation(allow), Checked(PAYLOAD_MAX, allow),
                      pc, q, c, host)
    {
      if pc <= 19 {
        ForkserverSetupLocal(allow, pc, q, c, host);
      } else {
        ForkserverLoopLocal(allow, pc, q, c, host);
      }
    }
  }

  lemma ForkserverDetects(allow: bool)
    ensures DetectsAt(ForkserverProgram(allow), 3)
  {
  }

  // ---------------------------------------------------------------- all of them

  datatype Agent = DxeAgent | UefiLibrary | ZephyrAgent | VulnDriver | SelfFuzzer | FileSystems | Forking(allow: bool)

  function ProgramOf(a: Agent): Program {
    match a
    case DxeAgent => DxeHarness
    case UefiLibrary => AgentLib
    case ZephyrAgent => Zephyr
    case VulnDriver => VulnTest
    case SelfFuzzer => SelfFuzz
    case FileSystems => FsFuzzer
    case Forking(allow) => ForkserverProgram(allow)
  }

  ghost function AnnotationOf(a: Agent): Annotation {
    match a
    case DxeAgent => DxeAnn
    case UefiLibrary => AgentLibAnn
    case ZephyrAgent => ZephyrAnn
    case VulnDriver => VulnTestAnn
    case SelfFuzzer => SelfFuzzAnn
    case FileSystems => FsFuzzerAnn
    case Forking(allow) => ForkserverAnnotation(allow)
  }

  /** What each agent may send to a given host. */
  ghost function PolicyOf(a: Agent): Policy {
    match a
    case SelfFuzzer => SelfFuzzPolicy
    case FileSystems => Checked(FS_PAYLOAD_MAX, false)
    case Forking(allow) => Checked(PAYLOAD_MAX, allow)
    case _ => Checked(PAYLOAD_MAX, true)
  }

  lemma AgentAnnotated(a: Agent)
    ensures Annotated(ProgramOf(a), AnnotationOf(a), PolicyOf(a))
  {
    match a
    case DxeAgent => DxeAnnotated();
    case UefiLibrary => AgentLibAnnotated();
    case ZephyrAgent => ZephyrAnnotated();
    case VulnDriver => VulnTestAnnotated();
    case SelfFuzzer => SelfFuzzAnnotated();
    case FileSystems => FsFuzzerAnnotated();
    case Forking(allow) => ForkserverAnnotated(allow);
  }

  /** One automaton accepts the trace of every agent, at every length, on every host, in both
      modes, for every target and every outcome of the operations outside the model; no agent
      sends the host anything its policy forbids; and the target runs only while a payload is
      held, except in the warm-up round of fs_fuzzer. */
  lemma EveryAgentKeepsTheProtocol<G, P, O>(
    a: Agent, env: Env<G, P, O>, mem: G, garbage: HostConfig, buffer: P, payloads: seq<P>, n: nat)
    ensures var t := Run(ProgramOf(a), env, Boot(mem, garbage, buffer, payloads), n).trace;
            && Accepts(t)
            && (forall i :: 0 <= i < |t| && t[i].Hc? ==> PolicyOf(a)(env.config, t[i].call))
            && (a != FileSystems ==> forall i :: 0 <= i < |t| && t[i].Ran? ==> Held(t[..i]) && Started(t[..i]))
  {
    var p, ann, safe := ProgramOf(a), AnnotationOf(a), PolicyOf(a);
    var boot := Boot<G, P, O>(mem, garbage, buffer, payloads);
    AgentAnnotated(a);
    RunKeepsInv(p, ann, safe, env, boot, n);
    if a != FileSystems {
      assert NeverWarms(ann);
      NotWarmedMeansHeld(Run(p, env, boot, n).trace);
    }
  }

  /** Before it has its first payload, an agent other than fs_fuzzer has not run its target. */
  lemma NoSnapshotNoRuns<G, P, O>(
    a: Agent, env: Env<G, P, O>, mem: G, garbage: HostConfig, buffer: P, payloads: seq<P>, n: nat)
    requires a != FileSystems
    ensures var v := Run(ProgramOf(a), env, Boot(mem, garbage, buffer, payloads), n);
            v.snap == None ==> forall i :: 0 <= i < |v.trace| ==> !v.trace[i].Ran?
  {
    hide Run, ProgramOf, AnnotationOf, PolicyOf;
    var boot := Boot<G, P, O>(mem, garbage, buffer, payloads);
    var v := Run(ProgramOf(a), env, boot, n);
    AgentAnnotated(a);
    RunKeepsInv(ProgramOf(a), AnnotationOf(a), PolicyOf(a), env, boot, n);
    RunMeaning(v.trace);
    EveryAgentKeepsTheProtocol(a, env, mem, garbage, buffer, payloads, n);
    forall i | 0 <= i < |v.trace| && v.trace[i].Ran?
      ensures v.snap.Some?
    {
      assert Started(v.trace[..i]);
    }
  }

  /** In particular a checking agent answers a host only if the host's magic, version and
      payload size are the ones it was built for, and the buffer it registers holds the
      host's payload. */
  lemma NoBadConfigIsAnswered<G, P, O>(
    a: Agent, env: Env<G, P, O>, mem: G, garbage: HostConfig, buffer: P, payloads: seq<P>, n: nat, i: nat)
    requires var t := Run(ProgramOf(a), env, Boot(mem, garbage, buffer, payloads), n).trace;
             i < |t| && (IsSet(t[i]) || IsBuffer(t[i]))
    ensures var e := Run(ProgramOf(a), env, Boot(mem, garbage, buffer, payloads), n).trace[i];
            && (a != SelfFuzzer && IsSet(e) ==>
                  Compatible(env.config, if a == FileSystems then FS_PAYLOAD_MAX else PAYLOAD_MAX))
            && (IsBuffer(e) ==> env.config.payloadBufferSize <= e.call.size)
  {
    EveryAgentKeepsTheProtocol(a, env, mem, garbage, buffer, payloads, n);
    var t := Run(ProgramOf(a), env, Boot(mem, garbage, buffer, payloads), n).trace;
    assert PolicyOf(a)(env.config, t[i].call);
  }
}
