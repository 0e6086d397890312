/** The guest/host interface of the agents: constants, configuration records, and the
    hypercalls as they are seen by the host. */
module NyxApi {

  datatype Option<+T> = None | Some(value: T)

  const NYX_HOST_MAGIC := 0x4878794e
  const NYX_AGENT_MAGIC := 0x4178794e
  const NYX_HOST_VERSION := 2
  const NYX_AGENT_VERSION := 1

  const PAGE_SIZE := 4096
  const TWO_64 := 0x1_0000_0000_0000_0000

  datatype CpuType = Invalid | NoNyx | V1 | V2

  // What CPUID amounts to, once it has been asked.
  type KnownType = c: CpuType | c != Invalid witness NoNyx

  type uint64 = x: int | 0 <= x < TWO_64

  datatype HostConfig = HostConfig(
    magic: nat, version: nat, bitmapSize: nat, ijonBitmapSize: nat, payloadBufferSize: nat, workerId: nat)

  // The fields of the agent configuration that some agent sets to a value other than a constant.
  datatype AgentConfig = AgentConfig(magic: nat, version: nat, nonReload: bool, coverageBitmapSize: nat)

  datatype Hypercall =
    | Acquire
    | Release
    | NextPayload
    | FastAcquire
    | GetHostConfig
    | SetAgentConfig(config: AgentConfig)
    | GetPayload(size: nat)
    | SubmitCr3
    | SubmitMode
    | SubmitPanic
    | SubmitKasan
    | RangeAdvise
    | RangeSubmit
    | Printf
    | Lock
    | Panic
    | PanicExtended
    | Kasan
    | UserAbort

  // What an observer at the hypercall boundary sees. Ran stands for one call of the
  // fuzzing target; Resume is the host restoring the snapshot with a new payload in place.
  datatype Event<P, O> =
    | Hc(call: Hypercall)
    | Ran(payload: P, outcome: O)
    | Resume

  /** The check that all agents but one make before they answer the host. */
  predicate Compatible(c: HostConfig, maxPayload: nat) {
    c.magic == NYX_HOST_MAGIC && c.version == NYX_HOST_VERSION && c.payloadBufferSize <= maxPayload
  }
}
