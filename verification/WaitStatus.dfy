/** The status word that waitpid() reports, and the macros that take it apart. */
module WaitStatus {

  // How a child leaves the parent's waitpid(.., WUNTRACED).
  datatype RawFate =
    | Exited(code: int, ranAtexit: bool)  // exit() and return from main run the handlers, _exit() does not
    | Killed(signal: nat, core: bool)
    | StoppedBy(signal: nat)

  const SIGVTALRM := 26
  const ASAN_EXIT_CODE := 101

  predicate Possible(f: RawFate) {
    match f
    case Exited(_, _) => true
    case Killed(s, _) => 1 <= s <= 64
    case StoppedBy(s) => 1 <= s <= 64
  }

  type Fate = f: RawFate | Possible(f) witness Exited(0, true)

  /** The kernel's encoding: exit code in bits 8-15, terminating signal in bits 0-6, core
      flag in bit 7; a stopped child has 0x7f in the low byte and its signal above. */
  function Encode(f: Fate): nat {
    match f
    case Exited(c, _) => (c % 256) * 256
    case Killed(s, core) => s % 128 + if core then 128 else 0
    case StoppedBy(s) => s * 256 + 127
  }

  function TermSig(status: nat): nat { status % 128 }

  function ExitStatus(status: nat): nat { status / 256 % 256 }

  /** ((signed char) ((status & 0x7f) + 1) >> 1) > 0: the increment carries 0x7f into the
      sign bit, so that a stopped child is not taken for a signalled one. */
  predicate IfSignaled(status: nat) {
    var incremented := TermSig(status) + 1;
    var asSignedChar := if incremented >= 128 then incremented - 256 else incremented;
    FloorHalf(asSignedChar) > 0
  }

  // An arithmetic right shift by one.
  function FloorHalf(x: int): int { x / 2 }

  /** What the parent's tests on the raw status see of the child's fate. */
  lemma Decode(f: Fate)
    ensures IfSignaled(Encode(f)) <==> f.Killed?
    ensures f.Killed? ==> TermSig(Encode(f)) == f.signal
    ensures f.Exited? ==> ExitStatus(Encode(f)) == f.code % 256
    ensures f.StoppedBy? ==> ExitStatus(Encode(f)) == f.signal
    ensures !IfSignaled(Encode(f)) ==>
              (ExitStatus(Encode(f)) == ASAN_EXIT_CODE <==> f.Exited? && f.code % 256 == ASAN_EXIT_CODE)
  {
    match f
    case Exited(c, _) =>
      assert Encode(f) == 128 * (2 * (c % 256));
    case Killed(s, core) =>
      assert s % 128 == s;
    case StoppedBy(s) =>
      assert Encode(f) == 128 * (2 * s) + 127;
  }
}
