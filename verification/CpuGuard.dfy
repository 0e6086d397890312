/** The cached CPU type that decides whether a hypercall is placed at all, and the recursion
    between hypercall() and habort_msg() that it keeps from being entered. */
module CpuGuard {
  import opened NyxApi
  import opened Text

  const BRAND_PT := "NYX vCPU (PT)"
  const BRAND_NO_PT := "NYX vCPU (NO-PT)"

  // The 16 bytes of the CPUID leaf.
  type Brand = b: seq<char> | |b| == 16 witness seq(16, _ => NUL)

  /** _get_nyx_cpu_type(): the leaf as a C string, in a buffer that ends with a NUL of its own. */
  function Classify(brand: Brand): CpuType {
    var str := CString(brand + [NUL]);
    if str == BRAND_PT then V1 else if str == BRAND_NO_PT then V2 else NoNyx
  }

  /** The shorter name must be terminated within the leaf and may be followed by anything; the
      longer one fills it. No leaf yields the invalid type. */
  lemma ClassifiedBy(brand: Brand)
    ensures Classify(brand) == V1 <==> IsPrefix(BRAND_PT, brand) && brand[13] == NUL
    ensures Classify(brand) == V2 <==> brand == BRAND_NO_PT
    ensures Classify(brand) != Invalid
  {
    var b := brand + [NUL];
    CStringIs(b, BRAND_PT);
    CStringIs(b, BRAND_NO_PT);
    assert b[..13] == brand[..13] && b[..16] == brand && brand[..16] == brand;
  }

  // ---------------------------------------------------------------- the recursion

  /** hypercall(), allowing so many nested calls: what reaches the host, or None if the calls
      are used up and it is still running. */
  function Issue(cpu: CpuType, h: Hypercall, calls: nat): Option<seq<Hypercall>>
    decreases calls, 1
  {
    match cpu
    case V1 => Some([h])
    case V2 => Some([])
    case NoNyx => Some([])
    case Invalid => HabortMsg(cpu, calls)
  }

  function HabortMsg(cpu: CpuType, calls: nat): Option<seq<Hypercall>>
    decreases calls, 0
  {
    if calls == 0 then None else Issue(cpu, UserAbort, calls - 1)
  }

  /** On the invalid type the two call each other without end; on no other type do they nest. */
  lemma {:induction false} EndlessIffInvalid(cpu: CpuType, h: Hypercall, calls: nat)
    ensures Issue(cpu, h, calls).None? <==> cpu == Invalid
    decreases calls
  {
    if calls > 0 {
      EndlessIffInvalid(cpu, UserAbort, calls - 1);
    }
  }

  // ---------------------------------------------------------------- whole processes

  // A process asks for the CPU type, when the CPUID leaf reads so and so, or makes a hypercall.
  datatype Op = Detect(brand: Brand) | Place(call: Hypercall)

  datatype Process = Process(cpu: CpuType, sent: seq<Hypercall>)

  /** get_nyx_cpu_type() */
  function Detected(cpu: CpuType, brand: Brand): CpuType {
    if cpu == Invalid then Classify(brand) else cpu
  }

  predicate Aborted(sent: seq<Hypercall>) {
    sent != [] && sent[|sent|-1] == UserAbort
  }

  /** The process once it has run to its end, or to the abort that the host does not return
      from; None if it is caught in the recursion. */
  function Exec(p: Process, ops: seq<Op>, calls: nat): Option<Process>
    decreases |ops|
  {
    if ops == [] || Aborted(p.sent) then Some(p)
    else match ops[0]
      case Detect(brand) => Exec(p.(cpu := Detected(p.cpu, brand)), ops[1..], calls)
      case Place(h) =>
        match Issue(p.cpu, h, calls)
        case None => None
        case Some(sent) => Exec(p.(sent := p.sent + sent), ops[1..], calls)
  }

  const STARTED := Process(Invalid, [])

  /** Every hypercall has a request for the CPU type somewhere before it. */
  ghost predicate DetectsFirst(ops: seq<Op>) {
    forall i :: 0 <= i < |ops| && ops[i].Place? ==> exists j :: 0 <= j < i && ops[j].Detect?
  }

  /** The hypercalls up to and including the first abort. */
  function Placed(ops: seq<Op>): seq<Hypercall>
    decreases |ops|
  {
    if ops == [] then []
    else match ops[0]
      case Detect(_) => Placed(ops[1..])
      case Place(h) => [h] + if h == UserAbort then [] else Placed(ops[1..])
  }

  /** One operation of a process whose type is valid. */
  lemma ExecStep(p: Process, ops: seq<Op>, calls: nat)
    requires p.cpu != Invalid && !Aborted(p.sent) && ops != []
    ensures Exec(p, ops, calls) ==
            if ops[0].Place? && p.cpu == V1 then Exec(p.(sent := p.sent + [ops[0].call]), ops[1..], calls)
            else Exec(p, ops[1..], calls)
  {
    hide Classify;
    assert p.sent + [] == p.sent;
  }

  lemma ExecEnds(p: Process, ops: seq<Op>, calls: nat)
    requires Aborted(p.sent) || ops == []
    ensures Exec(p, ops, calls) == Some(p)
  {
  }

  /** From a valid type on, every process ends, its type never changes whatever CPUID says
      later, and the host sees all hypercalls in order, or none at all. */
  lemma {:induction false} TypeIsKept(p: Process, ops: seq<Op>, calls: nat)
    requires p.cpu != Invalid && !Aborted(p.sent)
    ensures Exec(p, ops, calls) == Some(Process(p.cpu, p.sent + if p.cpu == V1 then Placed(ops) else []))
    decreases |ops|
  {
    hide Exec;
    if ops == [] {
      ExecEnds(p, ops, calls);
      assert p.sent + [] == p.sent;
    } else {
      ExecStep(p, ops, calls);
      if ops[0].Detect? || p.cpu != V1 {
        TypeIsKept(p, ops[1..], calls);
      } else {
        var h, rest := ops[0].call, ops[1..];
        var q := p.(sent := p.sent + [h]);
        if h == UserAbort {
          ExecEnds(q, rest, calls);
          assert Placed(ops) == [h];
        } else {
          TypeIsKept(q, rest, calls);
          assert q.sent + Placed(rest) == p.sent + ([h] + Placed(rest));
        }
      }
    }
  }

  /** A process never enters the endless recursion exactly if it asks for the CPU type before
      its first hypercall, and then the first answer decides everything. */
  lemma {:induction false} SafeIffDetectsFirst(ops: seq<Op>, calls: nat)
    ensures Exec(STARTED, ops, calls).Some? <==> DetectsFirst(ops)
    ensures ops != [] && ops[0].Detect? ==>
              var cpu := Classify(ops[0].brand);
              Exec(STARTED, ops, calls) == Some(Process(cpu, if cpu == V1 then Placed(ops) else []))
  {
    if ops == [] {
    } else {
      match ops[0]
      case Detect(brand) =>
        ClassifiedBy(brand);
        var cpu := Classify(brand);
        TypeIsKept(Process(cpu, []), ops[1..], calls);
        assert Exec(STARTED, ops, calls) == Exec(Process(cpu, []), ops[1..], calls);
        assert [] + Placed(ops[1..]) == Placed(ops);
      case Place(h) =>
        EndlessIffInvalid(Invalid, h, calls);
        assert !DetectsFirst(ops);
    }
  }
}
