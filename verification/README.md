# A verified model of the kAFL/Nyx guest agents

The repository holds the guest side of a snapshot fuzzer: agents that run inside a virtual machine,
talk to the host through hypercalls, and hand fuzzed inputs to a target. This project models

* the **session protocol** between agent and host (`Protocol`), as an automaton over the events at the
  hypercall boundary and, independently of it, as conditions on positions of a trace;
* the **host and its snapshot** (`Machine`): it records hypercalls, hands out payloads, takes one snapshot
  at the first NEXT_PAYLOAD or FAST_ACQUIRE, restores it at RELEASE unless the agent allows persistent mode
  and the host uses it, and never returns from USER_ABORT;
* seven **agents** (`Agents`): the UEFI harness and agent library, zephyr, the Windows driver test and
  selffuzz, fs_fuzzer and the forkserver, each once as a program of that machine, on which control can be
  moved back to a snapshot, and once in its own form, as methods with tests and endless loops (`Harness`,
  over the steps of `Session`), which are proved to follow the program step by step; and what each of them
  asks of the host before its first payload, request by request (`SetUps`);
* what an observer can tell apart: **loops against straight lines, reload against persistent mode**
  (`Simulation`, `Campaign`), fs_fuzzer's sessions with their **round before the first payload** (`FsSessions`),
  and the **fork/wait loop** with the encoding of wait status words (`ForkserverRuns`, `WaitStatus`, `DetectRanges`);
* the **file bridge** of the agent library (`NyxAgent`, `Sharedir`, `Text`): hget, hpush and
  hprintf_from_file over page-scattered, reused static buffers, arbitrary short reads and writes, and a host
  with read positions, a dump directory and a console; and the cached CPU type that all guarded hypercalls
  depend on (`CpuGuard`), which processes, the forkserver and vmcall are proved to know in time;
* the **vmcall tool** (`Vmcall`, `Hcat`): its recursive dispatcher and all of its commands;
* fs_fuzzer's **backing file** over such sessions (`BackingFile`), and the aligned buffer of the UEFI library (`StackBuffer`).

Objects that the source updates in place are classes (`NyxAgent.Agent`, `NyxAgent.InFile`, `Sharedir.Host`,
`Vmcall.Tool`, `BackingFile.Fuzzer`); their methods are proved against functions on values, and the
properties below are proved about these functions for all inputs.

Some properties that one might expect are false of the code. For these the exact condition is proved:

* looping and straight-line agents agree on a persistent host on streams of at most one payload only
  (`LoopAndStraightLineAgree`): vuln_test allows persistent mode but ends after one round;
* the console shows a streamed text as it is only if the text is shorter than the buffer and the buffer has a
  terminator where it ends (`ConsoleShowsStreamIff`), and several texts only if besides none is shorter than the one
  before it (`TextsShownExactlyIff`, `HcatShowsTextsIff`, `ShorterTextShowsMore`), because the static buffer is never cleared;
* an end in the last page of the address space makes hrange submit a range that ends at zero (`RoundingIsLeastIff`, `LastPageWraps`);
* success of hget means the whole file only if the host was at its beginning, and only on type v1 or for an empty
  file (`SuccessIsWholeIff`): a transfer that is cut short with a request's worth of the file still to come leaves
  the host in the middle of it (`CursorsAfter`, `LeavesRewoundIff`), and a retry then succeeds with the last
  part alone, even in another directory with room for the whole file (`RetryDeliversTail`). Over all that a caller
  may have fetched before, each time into a directory and a space of its own, success means the whole file exactly
  if the file is shorter than a request of 1 MiB, or its last part behind whole requests has no room
  (`SuccessIsWholeOnHistoriesIff`);
* a file fetched and pushed is on the host as it was only if it has content, fits, and was read from its beginning
  on type v1, or was there before and nothing arrived (`RoundTrip`, `FetchAndPush`);
* hcat's process reports success when the bytes read before a file that cannot be opened are a multiple of 256, as
  when it is the first (`SuccessIff`, `MissingFileSucceeds`, `MissingSecondFileSucceeds`), and vmcall does when a
  subcommand is used wrongly (`ReportsInvalidIff`);
* off type v1 no command reaches the host (`SilentOffV1`), but for hpush, which does not go through hypercall();
* selffuzz answers every host, compatible or not, if and only if it can lock its buffer (`SelfFuzzAnswersIff`).

fs_fuzzer sets `agent_non_reload_mode` to 0, so that its host restores memory and file at every RELEASE but the first
(`FsWholeSession`, `SessionImages`). That it has to is shown of a hypothetical host that does not: its rounds would
violate the re-entry rule on every image (`LeavesResidue`), and streams of fully written, unmounted payloads would
look the same exactly if their sizes never decrease (`AgreesIffGrowing`).

`dafny verify dfyconfig.toml` checks the project.

## Model

| member | source | states |
|---|---|---|
| Protocol.AcceptsIffLegal | zephyr_x86_32/src/main.c:27-111 | the automaton accepts a trace if and only if every event is legal where it stands, legality being stated on positions of the trace without the automaton |
| Protocol.RunMeaning | zephyr_x86_32/src/main.c:27-111 | what every component of the automaton's state says about the trace behind it: configuration read and answered, buffer registered, payload held, snapshot taken, aborted |
| Protocol.SessionOrder | zephyr_x86_32/src/main.c:46-104 | GET_HOST_CONFIG precedes SET_AGENT_CONFIG and GET_PAYLOAD, both precede every request for a payload, and the target runs only while a payload is held or once before the first |
| Protocol.SessionAdjacency | uefi_ovmf_64/kAFLDxeHarnessPkg/Dxe/kAFLDxe.c:115-119 | NEXT_PAYLOAD is followed at once by ACQUIRE, and USER_ABORT by nothing |
| Protocol.ReleaseBetween | uefi_ovmf_64/kAFLDxeHarnessPkg/Dxe/kAFLDxe.c:115-119 | a RELEASE lies between any two acquisitions, whether made by ACQUIRE, FAST_ACQUIRE or a restored snapshot |
| Protocol.NotWarmedMeansHeld | linux-user/fs_fuzzer/src/fs_fuzzer.c:196-199 | without a warm-up round, every run of the target has a held payload |
| Machine.RunKeepsInv | windows_x86_64/src/driver/vuln_test.c:250-269 | a program whose places are annotated consistently keeps the protocol and its configuration policy on every run of any length, across snapshots |
| Machine.StuckIffEndless | linux-user/libnyx_agent/src/nyx_agent.c:117-138 | the stuck state of the machine is the recursion that never ends at any depth |
| Machine.NeverStuck | linux-user/libnyx_agent/src/nyx_agent.c:106-138 | a program in which only a detection leads behind the detection is never caught in that recursion, on runs of any length and across snapshots |
| Agents.DxeAnnotated | uefi_ovmf_64/kAFLDxeHarnessPkg/Dxe/kAFLDxe.c:28-123 | HarnessInit and HarnessRun allow every hypercall only in a protocol state and with a host configuration that permits it |
| Agents.AgentLibAnnotated | uefi_ovmf_64/kAFLAgentPkg/Library/kAFLAgentLib/kAFLAgentLib.c:22-114 | the same of agent_init and agent_run |
| Agents.ZephyrAnnotated | zephyr_x86_32/src/main.c:27-111 | the same of the zephyr agent |
| Agents.VulnTestAnnotated | windows_x86_64/src/driver/vuln_test.c:83-273 | the same of the straight-line driver test with its early exits |
| Agents.SelfFuzzAnnotated | windows_x86_64/src/userspace/selffuzz_test.c:15-119 | the same of selffuzz, whose order of the handshake differs and which tests nothing |
| Agents.FsFuzzerAnnotated | linux-user/fs_fuzzer/src/fs_fuzzer.c:56-202 | the same of fs_fuzzer with its round before the first payload |
| Agents.ForkserverAnnotated | linux-user/forkserver/src/forkserver.c:55-335 | the same of the forkserver, for both values of allow_persistent, with the detection of the CPU type as one of its instructions |
| Agents.EveryAgentKeepsTheProtocol | linux-user/fs_fuzzer/src/fs_fuzzer.c:56-202 | one automaton accepts every agent's trace at every length, on every host, in both modes, for every target that returns; no agent sends what its policy forbids; all but fs_fuzzer run the target only while a payload is held |
| Agents.NoBadConfigIsAnswered | linux-user/fs_fuzzer/src/fs_fuzzer.c:64-112 | a SET_AGENT_CONFIG of a checking agent implies that magic, version and payload size were the expected ones; a registered buffer is at least as large as the host's payload, for selffuzz because it uses the host's own size |
| Agents.NoSnapshotNoRuns | windows_x86_64/src/driver/vuln_test.c:215-254 | before its first payload no agent but fs_fuzzer has run the target, on runs of any length |
| SetUps.DxeRequests | uefi_ovmf_64/kAFLDxeHarnessPkg/Dxe/kAFLDxe.c:28-112 | on runs of any length, whatever fails: once the harness has asked for a payload, the hypercalls before that are exactly the ready state, the handlers that are given, and the handshake, with these values and in this order |
| SetUps.AgentLibRequests | uefi_ovmf_64/kAFLAgentPkg/Library/kAFLAgentLib/kAFLAgentLib.c:22-107 | the same of the agent library, which submits CR3 last |
| SetUps.ZephyrRequests | zephyr_x86_32/src/main.c:27-100 | the same of the zephyr agent, with CR3 and the mode behind the ready state |
| SetUps.VulnTestRequests | windows_x86_64/src/driver/vuln_test.c:83-250 | the same of the driver test: two panic handlers, CR3 twice, and exactly one trace range |
| SetUps.SelfFuzzRequests | windows_x86_64/src/userspace/selffuzz_test.c:15-112 | the same of selffuzz: the lock first, the buffer of the host's size before the answer, and the advised and the submitted range |
| SetUps.FsFuzzerRequests | linux-user/fs_fuzzer/src/fs_fuzzer.c:56-198 | the same of fs_fuzzer, with one RELEASE behind its own round |
| SetUps.ForkserverRequests | linux-user/forkserver/src/forkserver.c:55-232 | the same of the forkserver: behind the handshake one trace range for each line found in the map on type v1, none on the others |
| Simulation.AfterReleaseIsDead | uefi_ovmf_64/kAFLDxeHarnessPkg/Dxe/kAFLDxe.c:114-120 | on a reloading host two programs that agree up to the RELEASE of their first round run in lock step for ever |
| Simulation.LoopIsRedundant | uefi_ovmf_64/kAFLDxeHarnessPkg/Dxe/kAFLDxe.c:114-120 | the loop is not required with snapshots: whatever replaces the code behind the RELEASE, all runs are the same |
| Simulation.ReloadOutcomes | windows_x86_64/src/driver/vuln_test.c:250-269 | with snapshots each outcome depends on its own payload and the snapshot only |
| Simulation.PersistentOutcomes | uefi_ovmf_64/kAFLAgentPkg/Library/kAFLAgentLib/kAFLAgentLib.c:105-112 | in persistent mode each payload meets the memory that all earlier ones left |
| Simulation.ReloadRun | windows_x86_64/src/driver/vuln_test.c:250-269 | the machine produces exactly these rounds from every stream of payloads when it restores the snapshot |
| Simulation.PersistentRun | uefi_ovmf_64/kAFLAgentPkg/Library/kAFLAgentLib/kAFLAgentLib.c:105-112 | and exactly these, and the final memory, for a looping agent that is not reset |
| Simulation.StraightLineOnPersistentHost | windows_x86_64/src/driver/vuln_test.c:250-272 | an agent that ends after its round serves a persistent host one payload |
| Simulation.ModesAgreeIffResidueFree | uefi_ovmf_64/kAFLAgentPkg/Include/Library/kAFLAgentLib.h:24-35 | both modes give the same outcomes on every stream if and only if the target obeys the re-entry rule |
| Campaign.WholeSession | uefi_ovmf_64/kAFLDxeHarnessPkg/Dxe/kAFLDxe.c:28-123 | every session of a plain agent, from boot, ends and shows exactly the expected runs: one from the snapshot for each payload, or a fold over memory, cut off after the first if the agent does not loop |
| Campaign.WholeSessionShows | uefi_ovmf_64/kAFLAgentPkg/Library/kAFLAgentLib/kAFLAgentLib.c:90-136 | which runs those are: from the memory that the agent's initialization has left, if it has one, each on its own or on what the one before it left, or the first alone |
| Campaign.LoopAndStraightLineAgree | windows_x86_64/src/driver/vuln_test.c:250-272 | in the end the runs of the looping harness and of the straight-line test have shown the host the same outcomes if and only if it reloads or there is at most one payload |
| Campaign.SessionModesAgreeIff | uefi_ovmf_64/kAFLAgentPkg/Library/kAFLAgentLib/kAFLAgentLib.c:105-112 | from boot, and in the end, the runs that a looping agent on a compatible host has shown are the same in both modes, on every stream, if and only if the target obeys that rule from the snapshot on |
| Campaign.SelfFuzzAnswersIff | windows_x86_64/src/userspace/selffuzz_test.c:56-113 | at every length of every run, on a host of any magic, version and payload size, with or without payloads: selffuzz has answered if and only if its buffer could be locked and sixteen steps are over |
| ForkserverRuns.IterationReports | linux-user/forkserver/src/forkserver.c:321-332 | one RELEASE in each iteration, at its end; PANIC iff the child died of a signal other than the timer's; KASAN iff the parent sees exit code 101 of a child that has not released itself |
| ForkserverRuns.IterationsShow | linux-user/forkserver/src/forkserver.c:237-334 | the iterations show the runs of the payloads in order, each on the snapshot's memory or on what the one before it left, all of them if every payload gets through; and one RELEASE for each run, one PANIC for each crash and one KASAN for each sanitizer exit that the parent sees |
| ForkserverRuns.PassPayload | linux-user/forkserver/src/forkserver.c:249-268 | the child reaches the target, or prints and aborts |
| ForkserverRuns.ChildRuns | linux-user/forkserver/src/forkserver.c:164-169 | the child's exit handler stands at a RELEASE exactly if it left through exit(), persistent mode is not allowed and the CPU type is v1 |
| ForkserverRuns.ParentReports | linux-user/forkserver/src/forkserver.c:321-332 | the parent's tests on the status word lead to its RELEASE with exactly the report that the child's fate calls for |
| ForkserverRuns.IterationToRelease | linux-user/forkserver/src/forkserver.c:237-332 | from an acquisition control comes to one RELEASE, the child's or the parent's |
| ForkserverRuns.ReleaseAndGoOn | linux-user/forkserver/src/forkserver.c:232-334 | behind it the snapshot is back in the child, or the parent forks again |
| ForkserverRuns.ForkserverTrace | linux-user/forkserver/src/forkserver.c:232-334 | for every stream of payloads the trace is the sequence of iterations, up to an abort if there is one |
| ForkserverRuns.ForkserverSession | linux-user/forkserver/src/forkserver.c:174-335 | the same for every run from boot that gets to the fork loop |
| ForkserverRuns.ReachesFork | linux-user/forkserver/src/forkserver.c:174-241 | a forkserver on a compatible host, whose pipes, map and search succeed, gets to its first request for a payload, with the target not yet run |
| ForkserverRuns.ForkserverWholeSession | linux-user/forkserver/src/forkserver.c:174-335 | from boot to the end, for every stream of payloads, the empty one included: the session ends, and its trace is a set-up that runs nothing and the iterations |
| ForkserverRuns.ForkserverShows | linux-user/forkserver/src/forkserver.c:174-335 | the same of whole sessions from boot, with one more RELEASE from the ready state |
| ForkserverRuns.ForkserverModesAgreeIff | linux-user/forkserver/src/forkserver.c:164-169 | in the end the runs shown are the same in both modes of the host, on every stream, if and only if allow_persistent is off or the target obeys the re-entry rule |
| ForkserverRuns.ForkserverNeverStuck | linux-user/forkserver/src/forkserver.c:55-67 | no run of the forkserver from boot, on any CPU, places a guarded hypercall before it knows the CPU type, not in a child either |
| FsSessions.FsWholeSession | linux-user/fs_fuzzer/src/fs_fuzzer.c:117-202 | if device, file and write succeed, every session from boot ends with no payload left and shows one run on the agent's own payload and then one on each of the host's, all from the memory that the first has left |
| WaitStatus.Decode | linux-user/forkserver/src/forkserver.c:321-330 | what the wait macros say of an encoded status: killed, exited and stopped children are told apart, exit codes modulo 256 |
| Session.Await | windows_x86_64/src/driver/vuln_test.c:250-254 | the host waits for a payload and takes its snapshot the first time |
| Session.LetGo | windows_x86_64/src/driver/vuln_test.c:267-269 | RELEASE goes on, or back to the snapshot with the next payload, or waits |
| Harness.HarnessInit | uefi_ovmf_64/kAFLDxeHarnessPkg/Dxe/kAFLDxe.c:28-90 | the handshake as written: a compatible host is answered with these very values, and at any other the agent aborts |
| Harness.FuzzingLoop | uefi_ovmf_64/kAFLDxeHarnessPkg/Dxe/kAFLDxe.c:115-120 | the endless loop ends in neither mode but by waiting with no payload left |
| Harness.FuzzOnce | windows_x86_64/src/driver/vuln_test.c:250-272 | the straight line: with payloads, on a host in persistent mode, the agent halts after exactly one; else snapshots repeat it until none is left |
| Harness.Dxe | uefi_ovmf_64/kAFLDxeHarnessPkg/Dxe/kAFLDxe.c:92-123 | the harness as written reaches an end of its program, keeps the protocol, serves all payloads of a compatible host and shows exactly the expected runs, and at any other host aborts with nothing run |
| Harness.UefiAgent | uefi_ovmf_64/kAFLAgentPkg/Library/kAFLAgentLib/kAFLAgentLib.c:90-136 | the same of the agent library |
| Harness.ZephyrMain | zephyr_x86_32/src/main.c:27-111 | the same of the zephyr agent |
| Harness.VulnTestMain | windows_x86_64/src/driver/vuln_test.c:215-273 | the same of the driver test, which aborts at an incompatible host and asks for a payload only behind all of its requests; whenever it aborts, or ends before its first payload, nothing has run |
| Harness.SelfFuzzMain | windows_x86_64/src/userspace/selffuzz_test.c:98-119 | the same of selffuzz, but for the host, which it does not look at |
| Harness.ForkserverInit | linux-user/forkserver/src/forkserver.c:55-121 | agent_init detects the CPU type first, aborts unless the host is compatible, and else ends its trace with the answer, which carries allow_persistent, and the ready state |
| Harness.SearchMap | linux-user/forkserver/src/forkserver.c:131-162 | the loop over the map as written, with its guarded requests, follows the program on every known type |
| Harness.ChildExits | linux-user/forkserver/src/forkserver.c:164-169 | the snapshot comes back from the child if and only if it releases for itself and there is another payload; without a release control is with the parent, and without a payload the session is over |
| Harness.ParentReportsTo | linux-user/forkserver/src/forkserver.c:304-330 | the branches on the status word follow the program to the RELEASE |
| Harness.ParentReleases | linux-user/forkserver/src/forkserver.c:332-334 | at the parent's RELEASE the child is restored if and only if the mode is not persistent and there is another payload; else the parent goes on or waits |
| Harness.ForkLoop | linux-user/forkserver/src/forkserver.c:232-334 | the fork/wait loop as written ends by an abort or with all payloads served, having shown the host exactly the iterations |
| Harness.ForkserverMain | linux-user/forkserver/src/forkserver.c:174-335 | the forkserver as written, from its pipes to the end: it reaches an end of its program, by an abort or with no payload left, keeps the protocol, aborts at an incompatible host with nothing run, and if nothing fails shows the runs of all payloads and exactly their reports |
| Harness.FsLoop | linux-user/fs_fuzzer/src/fs_fuzzer.c:165-201 | the loop as written, a restored snapshot going on at ACQUIRE, ends by an abort or with all payloads served, and by no abort if every write succeeds |
| Harness.FsFuzzerMain | linux-user/fs_fuzzer/src/fs_fuzzer.c:117-202 | fs_fuzzer as written reaches an end of its program and keeps the protocol; if device, file and write succeed, it serves all payloads and shows the run on its own payload and then each from what that left |
| StackBuffer.AlignedIs | uefi_ovmf_64/kAFLAgentPkg/Library/kAFLAgentLib/kAFLAgentLib.c:93-100 | the computed address is page aligned, behind the array's start, and a whole page behind it iff the array is aligned |
| StackBuffer.SlackIffPage | uefi_ovmf_64/kAFLAgentPkg/Library/kAFLAgentLib/kAFLAgentLib.c:93-100 | the payload buffer lies within the array wherever that lies, if and only if the array has a page of slack |
| Sharedir.ConsecutiveIsContiguous | linux-user/libnyx_agent/src/nyx_agent.c:182-188 | filling a list of consecutive pages in order fills one contiguous buffer |
| Sharedir.Host.StreamBulk | linux-user/libnyx_agent/src/nyx_agent.c:203-212 | the host's reply: an error value, or the next bytes of the file scattered over the listed pages, with the read position moved or rewound |
| Sharedir.Host.DumpFile | linux-user/libnyx_agent/src/nyx_agent.c:264-282 | write or append to a dumped file |
| Text.CStringOf | linux-user/libnyx_agent/src/nyx_agent.c:190-194 | a copied name is read back whole, whatever lies behind its terminator |
| Text.ContainsIff | linux-user/forkserver/src/forkserver.c:154-154 | a pattern is found if and only if it stands somewhere in the text |
| Text.BasenameIsLastComponent | linux-user/libnyx_agent/src/nyx_agent.c:196-201 | the destination's name is the last component of the path, a slash if there is nothing else, and a dot for the empty path |
| CpuGuard.ClassifiedBy | linux-user/libnyx_agent/src/nyx_agent.c:85-104 | exactly which CPUID leaves mean type v1 and v2, and that none means invalid |
| CpuGuard.EndlessIffInvalid | linux-user/libnyx_agent/src/nyx_agent.c:117-138 | hypercall() and habort_msg() call each other without end if and only if the type is invalid |
| CpuGuard.TypeIsKept | linux-user/libnyx_agent/src/nyx_agent.c:106-138 | once detected the type stays, and the host sees all hypercalls up to an abort on type v1 and none on the others |
| CpuGuard.SafeIffDetectsFirst | linux-user/libnyx_agent/src/nyx_agent.c:106-138 | a process never enters that recursion if and only if it asks for the type before its first hypercall |
| NyxAgent.PushingDelivers | linux-user/libnyx_agent/src/nyx_agent.c:264-283 | under arbitrary short reads the source arrives whole behind the old content or instead of it, nothing is sent for an empty source, the agent aborts if and only if a read fails, with a prefix delivered, and the flag is the caller's on the first chunk only |
| NyxAgent.PagesCarryStream | linux-user/libnyx_agent/src/nyx_agent.c:155-173 | N bytes take N / 4096 + 1 hypercalls whose buffers carry the stream in order, the last with the tail of the one before it |
| NyxAgent.ConsoleShowsStreamIff | linux-user/libnyx_agent/src/nyx_agent.c:160-171 | a text is shown as it is if and only if it is shorter than the buffer and the buffer is terminated where it ends |
| NyxAgent.TurnFromHead | linux-user/libnyx_agent/src/nyx_agent.c:205-224 | at the loop's head the destination holds a prefix of the file in whole scratch buffers; a turn leads to the next head or to the end of the transfer |
| NyxAgent.TransferIsExact | linux-user/libnyx_agent/src/nyx_agent.c:203-231 | on every CPU type: success if and only if all that the host has yet to stream of the file has arrived, after so many requests; otherwise a prefix of that. Off type v1 success and an empty file |
| NyxAgent.SuccessIsWholeIff | linux-user/libnyx_agent/src/nyx_agent.c:175-232 | exactly when hget reports success, and exactly when that means the host's whole file, over CPU type, read position and room |
| NyxAgent.WholeFileIff | linux-user/libnyx_agent/src/nyx_agent.c:175-232 | the host's whole file arrives if and only if there is room and the host starts at its beginning |
| NyxAgent.CursorsAfter | linux-user/libnyx_agent/src/nyx_agent.c:203-224 | the read position after any transfer: rewound, or moved on by whole requests if the transfer is cut short with that much still to come |
| NyxAgent.LeavesRewoundIff | linux-user/libnyx_agent/src/nyx_agent.c:214-224 | exactly which transfers leave a host that was at the beginning of every file in the middle of one |
| NyxAgent.SuccessIsWholeOnHistoriesIff | linux-user/libnyx_agent/src/nyx_agent.c:175-232 | after every sequence of transfers from a rewound host, failed ones included, each with a destination and room of its own, success means the whole file if and only if it is shorter than a request, or its part behind whole requests has no room |
| NyxAgent.RetryDeliversTail | linux-user/libnyx_agent/src/nyx_agent.c:203-224 | inputs on which it does not: the first transfer fails, and a second one, wherever it goes and however much room is there, succeeds with the last byte alone |
| NyxAgent.ArrivedIs | linux-user/libnyx_agent/src/nyx_agent.c:175-232 | what stands in the destination's place after any call, successful or not |
| NyxAgent.HgetFailsWith | linux-user/libnyx_agent/src/nyx_agent.c:190-220 | which error each failure of a fetch is reported as, and what it leaves |
| NyxAgent.HgetAllIs | linux-user/vmcall/src/vmcall.c:144-149 | several fetches succeed if and only if each does, from what the earlier ones left; else they end with the first that does not, with its result and what it left |
| NyxAgent.CopiedLastWins | linux-user/vmcall/src/vmcall.c:144-148 | of several paths with one base name the last wins |
| NyxAgent.BatchFetchesWholeFiles | linux-user/vmcall/src/vmcall.c:144-149 | any sequence of fetches over the shared static request gets whole files, each under its own name, with the exact log of names asked for, and leaves the host rewound |
| NyxAgent.RoundTrip | linux-user/vmcall/Makefile:46-58 | from every state of host and guest, whatever the sizes and chunks: exactly when a file that is fetched and pushed is on the host as it was, what is there otherwise, and that nothing else on the host changes |
| NyxAgent.FetchAndPush | linux-user/vmcall/test_agent.sh:6-27 | the two loops composed on one object with one static request and one scratch buffer, from every state and on every known CPU type, with the case of a missing destination |
| NyxAgent.Agent.GetNyxCpuType | linux-user/libnyx_agent/src/nyx_agent.c:106-112 | the type is detected once |
| NyxAgent.Agent.HrangeSubmit | linux-user/libnyx_agent/src/nyx_agent.c:140-150 | a range reaches the host on type v1 only |
| NyxAgent.Agent.Place | linux-user/libnyx_agent/src/nyx_agent.c:117-138 | a hypercall is recorded, or the abort takes effect, on type v1 only |
| NyxAgent.Agent.CheckHostMagic | linux-user/libnyx_agent/src/nyx_agent.c:294-325 | 0 if and only if the host is asked, on type v1, and its magic and version are the expected ones |
| NyxAgent.Agent.CopyName | linux-user/libnyx_agent/src/nyx_agent.c:190-191 | the request's name is exactly the path, older bytes behind it stay |
| NyxAgent.Agent.ListPages | linux-user/libnyx_agent/src/nyx_agent.c:185-188 | the request lists 256 consecutive pages |
| NyxAgent.Agent.Write | linux-user/libnyx_agent/src/nyx_agent.c:214-218 | write() to a file of limited size: whole, short or failing |
| NyxAgent.Agent.RequestChunk | linux-user/libnyx_agent/src/nyx_agent.c:205-212 | the scratch buffer holds the next bytes of the file; nothing is asked for on other CPU types |
| NyxAgent.Agent.FetchChunk | linux-user/libnyx_agent/src/nyx_agent.c:205-220 | one turn, in terms of files, read positions and the log of names |
| NyxAgent.Agent.Transfer | linux-user/libnyx_agent/src/nyx_agent.c:203-231 | the loop does the whole transfer, for every length and every limit of the destination |
| NyxAgent.Agent.HgetFile | linux-user/libnyx_agent/src/nyx_agent.c:175-232 | the call with its error cases: name too long, destination not created, no such file, short write |
| NyxAgent.Agent.PushChunk | linux-user/libnyx_agent/src/nyx_agent.c:268-282 | one turn: a dump request, an abort or the end |
| NyxAgent.Agent.HpushFile | linux-user/libnyx_agent/src/nyx_agent.c:234-292 | the loop does what PushingDelivers is about; an unreadable source sends nothing |
| NyxAgent.Agent.ShowPage | linux-user/libnyx_agent/src/nyx_agent.c:162-171 | one turn: the buffer read, and shown on type v1 unless the read failed |
| NyxAgent.Agent.HprintfFromFile | linux-user/libnyx_agent/src/nyx_agent.c:155-173 | the loop sends what PagesCarryStream is about, returns the length, or -1 on a read error |
| Vmcall.AtMostOneName | linux-user/vmcall/src/vmcall.c:272-283 | at most one table name is a prefix of any word |
| Vmcall.LookupIgnoresOrder | linux-user/vmcall/src/vmcall.c:272-290 | hence a word selects the same command in any order of the table |
| Vmcall.LeadingVmcalls | linux-user/vmcall/src/vmcall.c:270-305 | any number of leading vmcall words lead to what the command behind them does with its own arguments, EINVAL alone becoming success |
| Vmcall.MisusedIff | linux-user/vmcall/src/vmcall.c:64-264 | a command returns EINVAL if and only if its words are wrong, whatever host, CPU and files do; or if hcat's count happens to look like it |
| Vmcall.SilentOffV1 | linux-user/vmcall/src/vmcall.c:64-264 | off type v1 no command but hpush changes anything of the host's, its record of hypercalls included |
| Vmcall.ReportsInvalidIff | linux-user/vmcall/src/vmcall.c:293-320 | the tool reports an invalid command if and only if its first word is not vmcall and names no command, or one whose words are wrong |
| Vmcall.CommandAtIff | linux-user/vmcall/src/vmcall.c:270-290 | a word selects a command of the whole table if and only if its last component begins with the command's name |
| Vmcall.CheckComesTo | linux-user/vmcall/src/vmcall.c:229-257 | check, behind any number of vmcall words: on v1 the host is asked, and aborted if and only if its magic or version is another; on v2 the status is a failure, and on neither type the host is asked |
| Vmcall.HgetComesTo | linux-user/vmcall/src/vmcall.c:109-150 | hget, in the same way: its operands are fetched in order, and the status is 0 if and only if each fetch succeeds, and that of the first failure else, behind which nothing is asked for |
| Vmcall.HgetRefuses | linux-user/vmcall/src/vmcall.c:116-142 | bad usage and a directory that cannot be entered change nothing |
| Vmcall.HpushComesTo | linux-user/vmcall/src/vmcall.c:152-188 | hpush: the source comes to stand on the host under the given name or its own last component, behind the old content if and only if -a is given; a failing read aborts with a prefix; no other dumped file changes |
| Vmcall.HpushRefuses | linux-user/vmcall/src/vmcall.c:159-176 | bad usage and a source that cannot be opened change nothing |
| Vmcall.HrangeComesTo | linux-user/vmcall/src/vmcall.c:190-227 | hrange: up to the first argument that is no range, has an identifier above 3 or is empty, the rounded ranges reach the host on v1; the status is 0 if and only if there is no such argument, or vmcall comes first |
| Vmcall.HcatComesTo | linux-user/vmcall/src/vmcall.c:64-85 | hcat: on v1 the console shows standard input and the files in order, as they are, if and only if they fit the static buffer as they come; the status is 1 if and only if there is no byte, in 64 bits |
| Vmcall.RequestsComeTo | linux-user/vmcall/src/vmcall.c:87-107 | habort, hpanic and hlock: one request of the right kind, on v1 only |
| Vmcall.RoundingIsLeastIff | linux-user/vmcall/src/vmcall.c:210-222 | the submitted pair is the least page-aligned interval around the given one if and only if its end is not in the last page of the address space, and ends at zero otherwise |
| Vmcall.SubmittedIsValidPrefix | linux-user/vmcall/src/vmcall.c:196-226 | the submitted ranges are the rounded longest valid prefix of the arguments |
| Vmcall.Tool.Start | linux-user/vmcall/src/vmcall.c:307-320 | in a process that has just been started, on any CPU: the type is detected before the dispatch from the program's own name, and every command that runs finds it known |
| Vmcall.Tool.CmdDispatch | linux-user/vmcall/src/vmcall.c:270-291 | the recursion ends on every argument vector and leaves host, files and status as that of the command's own handler does |
| Vmcall.Tool.CmdVmcall | linux-user/vmcall/src/vmcall.c:293-305 | EINVAL becomes success |
| Vmcall.Tool.CallHandler | linux-user/vmcall/src/vmcall.c:272-289 | each entry of the table does and returns what its function says |
| Vmcall.Tool.CmdHrange | linux-user/vmcall/src/vmcall.c:190-227 | the same of the command, on the words behind it |
| Vmcall.Tool.SubmitRanges | linux-user/vmcall/src/vmcall.c:196-226 | the loop submits that prefix, on type v1, and fails unless it is all of the arguments |
| Vmcall.Tool.CmdHget | linux-user/vmcall/src/vmcall.c:109-150 | bad usage and a directory that cannot be entered fetch nothing; else the arguments are fetched up to the first that fails |
| Vmcall.Tool.FetchAll | linux-user/vmcall/src/vmcall.c:144-149 | its loop does what HgetAllIs, BatchFetchesWholeFiles and the lemmas on read positions are about |
| Vmcall.Tool.CmdHpush | linux-user/vmcall/src/vmcall.c:152-188 | does what HpushComesTo and HpushRefuses are about: one argument, pushed under the given name or its base name, appended if the option is given |
| Vmcall.Tool.CmdCheck | linux-user/vmcall/src/vmcall.c:229-257 | does what CheckComesTo is about, through check_host_magic() and habort_msg() |
| Hcat.SuccessIff | linux-user/vmcall/src/vmcall.c:64-85 | exactly when the process reports success, with or without standard input and from any buffer, with the wrap-around of its count, the truncation of its result to an int and of the exit status to eight bits, called directly or through vmcall |
| Hcat.MissingSecondFileSucceeds | linux-user/vmcall/src/vmcall.c:73-81 | an input on which a missing file is reported as success although bytes were read |
| Hcat.TextsShownExactlyIff | linux-user/libnyx_agent/src/nyx_agent.c:155-173 | from any buffer: several texts are shown as they are if and only if each fits, none is shorter than the one before it, and each ends where the buffer had a terminator before the first |
| Hcat.HcatShowsTextsIff | linux-user/vmcall/src/vmcall.c:64-85 | the same of hcat in a fresh process, standard input included: if and only if each fits and none is shorter than the one before it |
| Hcat.CmdHcat | linux-user/vmcall/src/vmcall.c:64-85 | standard input and the files go through one static buffer, up to the first that cannot be opened |
| DetectRanges.RangesAreMatchingLines | linux-user/forkserver/src/forkserver.c:144-161 | one range for each parsed line that contains the pattern, in order, numbered from zero |
| DetectRanges.MatchingLineIsSubmitted | linux-user/forkserver/src/forkserver.c:144-158 | a parsed line whose path has the pattern anywhere in it yields a range of its bounds, under the number of such lines before it |
| DetectRanges.SubmittedIsMatchingLine | linux-user/forkserver/src/forkserver.c:144-158 | and no range comes from anything else |
| DetectRanges.DetectRanges | linux-user/forkserver/src/forkserver.c:131-162 | the loop submits exactly these and returns their number as an int; a map that cannot be opened aborts |
| DetectRanges.SetUpRanges | linux-user/forkserver/src/forkserver.c:225-228 | the fork loop is entered exactly if the number of matching lines, as an int, is positive: so, for every map of fewer than 2^31 lines, if and only if some path has bison in it |
| BackingFile.ImageIs | linux-user/fs_fuzzer/src/fs_fuzzer.c:172-182 | what is mounted is the payload as far as it was written, then what earlier rounds left |
| BackingFile.RoundIs | linux-user/fs_fuzzer/src/fs_fuzzer.c:169-197 | a round, by its size: aborted if and only if it is negative or above 8 and seek or write fails; up to 8 nothing happens to the file; else the image, what the file system makes of it, and the mounts |
| BackingFile.RestoringIs | linux-user/fs_fuzzer/src/fs_fuzzer.c:165-201 | rounds that all start from one image: aborted if and only if one fails a check, and else each shows its payload over that image, and leaves what it does to it |
| BackingFile.SessionImages | linux-user/fs_fuzzer/src/fs_fuzzer.c:165-201 | on the agent's host each payload is put before the file system over the file that the agent's own round has left, whatever came between |
| BackingFile.SessionRuns | linux-user/fs_fuzzer/src/fs_fuzzer.c:117-202 | the same of the agent's program on the machine, from boot: each mounted image is the payload over that file |
| BackingFile.LastWriterWins | linux-user/fs_fuzzer/src/fs_fuzzer.c:165-201 | hypothetically, over any run on a host that does not restore: each byte is the one put there last, by a write or by a mounted file system |
| BackingFile.RoundTargetIsRound | linux-user/fs_fuzzer/src/fs_fuzzer.c:165-201 | a round is a target in the sense of Simulation |
| BackingFile.LengthAndMounts | linux-user/fs_fuzzer/src/fs_fuzzer.c:165-201 | without restoration, as between two of them: aborted iff a round fails a check; else the file is as long as its longest write, and as many mounts remain as failed to be undone |
| BackingFile.LeavesResidue | linux-user/fs_fuzzer/src/fs_fuzzer.c:104-104 | hypothetically, on a host that does not restore: the rounds violate the re-entry rule on every image, so that the agent must not allow persistent mode |
| BackingFile.AgreesIffGrowing | linux-user/fs_fuzzer/src/fs_fuzzer.c:104-182 | and on such a host all payloads of given sizes, written in full, would be put before the file system as on a restoring one if and only if no size is less than one before it |
| BackingFile.Fuzzer.RunRound | linux-user/fs_fuzzer/src/fs_fuzzer.c:169-197 | the loop's body does one round; its second check of the write never fires |
| BackingFile.Fuzzer.Rounds | linux-user/fs_fuzzer/src/fs_fuzzer.c:165-201 | the loop as written, with the snapshot restored or not, does the session that SessionImages is about |

## Assumptions about the host

The host's code is not part of this model. The rules it is assumed to follow are those the agents state: the
snapshot is taken at NEXT_PAYLOAD (windows_x86_64/src/driver/vuln_test.c:250) or at the child's FAST_ACQUIRE;
RELEASE restores it (lines 267-269 there; linux-user/forkserver/src/forkserver.c:241) unless the agent's
non-reload mode is set and the host is in persistent mode; payloads appear in the registered buffer, which the
snapshot does not restore; USER_ABORT does not return. A bulk reply that is shorter than the request ends the
file and rewinds it; the console takes each buffer for a C string. A restored snapshot of fs_fuzzer includes its
backing file, which is in the guest.

## Left out

- The `vmcall` and `cpuid` instructions, KVM and QEMU: hypercalls are steps of the machine, CPUID leaves are inputs.
- Targets: an arbitrary function from guest memory and payload to guest memory and outcome. For the forkserver
  guest memory is the whole guest, parent and child, so that what a child leaves behind is up to that function.
- Crashes that end a round by a PANIC from inside the target (handlers submitted to the host): a run of the
  target returns, or in the forkserver ends its child.
- Parsing by sscanf and getopt, formatting, and messages on standard error: parsed values are inputs.
- Agents.ForkserverAnnotated: the search of the memory map line by line, a nondeterministic loop there, which
  DetectRanges models; that its unguarded hypercalls, too, would fault on a CPU without such a host; and a fork()
  that fails, at which an assertion ends the process without a hypercall.
- The agents themselves are methods over a machine state that they hand on, not over an object: a restored snapshot
  replaces all of it, so update in place and aliasing of their configuration records are not captured.
- Harness.SearchMap: that a line matches is decided from outside; DetectRanges models the map and its search.
- BackingFile.AgreesIffGrowing: is about payloads that do not mount; what a mounted file system changes is arbitrary.
- Harness.FsFuzzerMain: a round is one run of the target there; BackingFile models what it does to the file, and
  SessionRuns joins the two.
- Vmcall.Tool.Start: a command that aborts does not return; what is stated of it is the state at the abort.
- Vmcall.Tool.CmdHget: file modes; the files are those of the directory that the option names, if it is given.
- Vmcall.Tool.CmdHpanic and CmdHabort: the text of the message.
- Vmcall.Tool.CmdHpush: host-side name patterns such as XXXXXX are ordinary names.
- basename() may cut trailing slashes off its argument in place; the model leaves arguments as they are.
- NyxAgent.Agent.HgetFile: allocation of the scratch buffer is assumed to succeed, and its release is not modelled.
- NyxAgent.Agent.HpushFile: the progress messages it prints to the host are not among the recorded buffers; and that
  its hypercalls, which no CPU type guards, would fault where no host takes them.
- BackingFile.Fuzzer.Rounds: the loop device and the mounted file system are inputs: which operations succeed, and
  which bytes of the image the file system changes.
- Redirection of the target's output, resource limits and timers of the forkserver; the fault handlers of zephyr.
- macOS agents, the gdiplus programs, planted crash targets, build and provisioning files.
