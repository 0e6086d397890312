/** The session protocol, twice: as a finite automaton over events, and as conditions on
    positions of a trace that do not mention the automaton. The two are proved equivalent. */
module Protocol {
  import opened NyxApi

  // ---------------------------------------------------------------- the automaton

  datatype Progress = NoConfig | Got | Sent(mayPersist: bool)
  datatype Snap = NoSnap | AtNext | AtFast

  datatype PState = PState(
    progress: Progress, buffer: bool, acquired: bool, armed: bool, snap: Snap, warmed: bool, dead: bool)

  const START := PState(NoConfig, false, false, false, NoSnap, false, false)

  predicate Ready(q: PState) {
    q.progress.Sent? && q.buffer && !q.acquired
  }

  function Delta<P, O>(q: PState, e: Event<P, O>): Option<PState> {
    match e
    case Hc(h) => DeltaHypercall(q, h)
    case Ran(_, _) => DeltaRun(q)
    case Resume =>
      if q.dead || q.armed || q.acquired || q.snap == NoSnap then None else Some(Resumed(q))
  }

  function DeltaHypercall(q: PState, h: Hypercall): Option<PState> {
    if q.dead then None
    else if q.armed then
      if h == Acquire then Some(q.(armed := false, acquired := true)) else None
    else DeltaCall(q, h)
  }

  function DeltaRun(q: PState): Option<PState> {
    if q.dead || q.armed then None
    else if q.acquired && q.snap != NoSnap then Some(q)
    else if Ready(q) && q.snap == NoSnap && !q.warmed then Some(q.(warmed := true))
    else None
  }

  /** The state in which a restored snapshot finds the protocol. */
  function Resumed(q: PState): PState {
    q.(armed := q.snap.AtNext?, acquired := q.snap.AtFast?)
  }

  function DeltaCall(q: PState, h: Hypercall): Option<PState> {
    match h
    case Acquire => if q.acquired || q.snap != NoSnap then None else Some(q.(acquired := true))
    case Release =>
      if q.acquired then Some(q.(acquired := false))
      else if q.snap == NoSnap && q.warmed then Some(q)
      else None
    case NextPayload =>
      if Ready(q) && q.snap != AtFast then Some(q.(armed := true, snap := AtNext)) else None
    case FastAcquire =>
      if Ready(q) && q.snap != AtNext then Some(q.(acquired := true, snap := AtFast)) else None
    case GetHostConfig =>
      if q.progress.NoConfig? && q.snap == NoSnap then Some(q.(progress := Got)) else None
    case SetAgentConfig(c) =>
      if q.progress.Got? && q.snap == NoSnap then Some(q.(progress := Sent(c.nonReload))) else None
    case GetPayload(_) =>
      if !q.progress.NoConfig? && q.snap == NoSnap then Some(q.(buffer := true)) else None
    case Panic => if q.acquired && q.snap != NoSnap then Some(q) else None
    case Kasan => if q.acquired && q.snap != NoSnap then Some(q) else None
    case UserAbort => Some(q.(dead := true))
    case _ => Some(q)
  }

  function After<P, O>(t: seq<Event<P, O>>): Option<PState> {
    if t == [] then Some(START)
    else
      var q := After(t[..|t|-1]);
      if q.None? then None else Delta(q.value, t[|t|-1])
  }

  ghost predicate Accepts<P, O>(t: seq<Event<P, O>>) {
    After(t).Some?
  }

  lemma AfterSnoc<P, O>(t: seq<Event<P, O>>, e: Event<P, O>)
    ensures After(t + [e]) == if After(t).None? then None else Delta(After(t).value, e)
  {
    assert (t + [e])[..|t|] == t;
  }

  // ---------------------------------------------------------------- positions

  ghost predicate Occurs<P, O>(t: seq<Event<P, O>>, h: Hypercall) {
    exists i :: 0 <= i < |t| && t[i] == Hc(h)
  }

  ghost predicate Configured<P, O>(t: seq<Event<P, O>>) {
    exists i :: 0 <= i < |t| && IsSet(t[i])
  }

  predicate IsSet<P, O>(e: Event<P, O>) { e.Hc? && e.call.SetAgentConfig? }

  predicate IsBuffer<P, O>(e: Event<P, O>) { e.Hc? && e.call.GetPayload? }

  ghost predicate Buffered<P, O>(t: seq<Event<P, O>>) {
    exists i :: 0 <= i < |t| && IsBuffer(t[i])
  }

  ghost predicate HasRun<P, O>(t: seq<Event<P, O>>) {
    exists i :: 0 <= i < |t| && t[i].Ran?
  }

  ghost predicate Started<P, O>(t: seq<Event<P, O>>) {
    Occurs(t, NextPayload) || Occurs(t, FastAcquire)
  }

  /** Position j begins an exclusive period: an ACQUIRE, a FAST_ACQUIRE, or the
      restoration of a snapshot that a FAST_ACQUIRE took. */
  ghost predicate Begins<P, O>(t: seq<Event<P, O>>, j: nat)
    requires j < |t|
  {
    t[j] == Hc(Acquire) || t[j] == Hc(FastAcquire) || (t[j] == Resume && Occurs(t[..j], FastAcquire))
  }

  /** Some period has begun and no RELEASE has ended it. */
  ghost predicate Held<P, O>(t: seq<Event<P, O>>) {
    exists j :: 0 <= j < |t| && Begins(t, j) && forall k :: j < k < |t| ==> t[k] != Hc(Release)
  }

  /** The last event put a payload in place and nothing has happened since. */
  ghost predicate Armed<P, O>(t: seq<Event<P, O>>) {
    |t| > 0 && (t[|t|-1] == Hc(NextPayload) || (t[|t|-1] == Resume && Occurs(t, NextPayload)))
  }

  /** Event e may follow trace t. */
  ghost predicate Legal<P, O>(t: seq<Event<P, O>>, e: Event<P, O>) {
    && !Occurs(t, UserAbort)
    && (Armed(t) ==> e == Hc(Acquire))
    && (Armed(t) ||
        match e
        case Ran(_, _) => (Held(t) && Started(t)) || (WarmUp(t) && !HasRun(t))
        case Resume => Started(t) && !Held(t)
        case Hc(h) => LegalCall(t, h))
  }

  /** Everything is set up and no payload has been asked for. */
  ghost predicate WarmUp<P, O>(t: seq<Event<P, O>>) {
    Configured(t) && Buffered(t) && !Held(t) && !Started(t)
  }

  ghost predicate LegalCall<P, O>(t: seq<Event<P, O>>, h: Hypercall) {
    match h
    case Acquire => !Held(t) && !Started(t)
    case Release => Held(t) || (HasRun(t) && !Started(t))
    case NextPayload => Configured(t) && Buffered(t) && !Held(t) && !Occurs(t, FastAcquire)
    case FastAcquire => Configured(t) && Buffered(t) && !Held(t) && !Occurs(t, NextPayload)
    case GetHostConfig => !Occurs(t, GetHostConfig)
    case SetAgentConfig(_) => Occurs(t, GetHostConfig) && !Configured(t)
    case GetPayload(_) => Occurs(t, GetHostConfig) && !Started(t)
    case Panic => Held(t) && Started(t)
    case Kasan => Held(t) && Started(t)
    case _ => true
  }

  // ---------------------------------------------------------------- equivalence

  /** What each component of the automaton's state says about the trace behind it. */
  ghost predicate Meaning<P, O>(t: seq<Event<P, O>>, q: PState) {
    && (q.progress.NoConfig? <==> !Occurs(t, GetHostConfig))
    && (q.progress.Sent? <==> Configured(t))
    && (q.buffer <==> Buffered(t))
    && (q.armed <==> Armed(t) && !Occurs(t, UserAbort))
    && (q.acquired <==> Held(t))
    && (q.snap.AtNext? <==> Occurs(t, NextPayload))
    && (q.snap.AtFast? <==> Occurs(t, FastAcquire))
    && (q.dead <==> Occurs(t, UserAbort))
    && (q.snap.NoSnap? ==> (q.warmed <==> HasRun(t)))
    && (!q.snap.NoSnap? ==> q.progress.Sent? && q.buffer)
    && (q.armed ==> !q.acquired)
  }

  lemma OccursSnoc<P, O>(t: seq<Event<P, O>>, e: Event<P, O>, h: Hypercall)
    ensures Occurs(t + [e], h) <==> Occurs(t, h) || e == Hc(h)
  {
    var u := t + [e];
    if Occurs(t, h) {
      var i :| 0 <= i < |t| && t[i] == Hc(h);
      assert u[i] == Hc(h);
    }
    assert u[|t|] == e;
  }

  lemma KindsSnoc<P, O>(t: seq<Event<P, O>>, e: Event<P, O>)
    ensures Configured(t + [e]) <==> Configured(t) || IsSet(e)
    ensures Buffered(t + [e]) <==> Buffered(t) || IsBuffer(e)
    ensures HasRun(t + [e]) <==> HasRun(t) || e.Ran?
  {
    var u := t + [e];
    assert u[|t|] == e;
    assert forall i :: 0 <= i < |t| ==> u[i] == t[i];
  }

  lemma HeldSnoc<P, O>(t: seq<Event<P, O>>, e: Event<P, O>)
    ensures Held(t + [e]) <==>
              e != Hc(Release) &&
              (e == Hc(Acquire) || e == Hc(FastAcquire) || (e == Resume && Occurs(t, FastAcquire)) || Held(t))
  {
    var u := t + [e];
    assert u[..|t|] == t && u[|t|] == e;
    forall j | 0 <= j < |t|
      ensures Begins(u, j) <==> Begins(t, j)
    {
      assert u[..j] == t[..j] && u[j] == t[j];
    }
    if Held(t) && e != Hc(Release) {
      var j :| 0 <= j < |t| && Begins(t, j) && forall k :: j < k < |t| ==> t[k] != Hc(Release);
      assert Begins(u, j) && forall k :: j < k < |u| ==> u[k] != Hc(Release);
    }
    if Held(u) {
      var j :| 0 <= j < |u| && Begins(u, j) && forall k :: j < k < |u| ==> u[k] != Hc(Release);
      if j < |t| {
        assert u[|t|] != Hc(Release);
        assert Begins(t, j) && forall k :: j < k < |t| ==> t[k] == u[k];
      }
    }
    if e == Hc(Acquire) || e == Hc(FastAcquire) || (e == Resume && Occurs(t, FastAcquire)) {
      assert Begins(u, |t|);
    }
  }

  /** One step: in a state that means its trace, the automaton moves exactly on the
      legal events, into a state that means the longer trace. */
  lemma StepMeaning<P, O>(t: seq<Event<P, O>>, q: PState, e: Event<P, O>)
    requires Meaning(t, q)
    ensures Delta(q, e).Some? <==> Legal(t, e)
    ensures Delta(q, e).Some? ==> Meaning(t + [e], Delta(q, e).value)
  {
    OccursSnoc(t, e, GetHostConfig);
    OccursSnoc(t, e, NextPayload);
    OccursSnoc(t, e, FastAcquire);
    OccursSnoc(t, e, UserAbort);
    KindsSnoc(t, e);
    HeldSnoc(t, e);
    assert (t + [e])[|t|] == e;
  }

  lemma {:induction false} RunMeaning<P, O>(t: seq<Event<P, O>>)
    ensures After(t).Some? ==> Meaning(t, After(t).value)
  {
    if t != [] {
      var s, e := t[..|t|-1], t[|t|-1];
      assert t == s + [e];
      RunMeaning(s);
      if After(s).Some? {
        StepMeaning(s, After(s).value, e);
      }
    }
  }

  /** The automaton accepts a trace iff each of its events is legal where it stands. */
  lemma {:induction false} AcceptsIffLegal<P, O>(t: seq<Event<P, O>>)
    ensures Accepts(t) <==> forall i :: 0 <= i < |t| ==> Legal(t[..i], t[i])
  {
    if t != [] {
      var s, e := t[..|t|-1], t[|t|-1];
      assert t == s + [e];
      AcceptsIffLegal(s);
      assert forall i :: 0 <= i < |s| ==> s[..i] == t[..i] && s[i] == t[i];
      if Accepts(s) {
        RunMeaning(s);
        StepMeaning(s, After(s).value, e);
      } else {
        var i :| 0 <= i < |s| && !Legal(s[..i], s[i]);
        assert !Legal(t[..i], t[i]);
      }
    }
  }

  lemma {:induction false} RunMeaningOfPrefix<P, O>(t: seq<Event<P, O>>, n: nat)
    requires Accepts(t) && n <= |t|
    ensures Accepts(t[..n]) && Meaning(t[..n], After(t[..n]).value)
  {
    if n == |t| {
      assert t[..n] == t;
      RunMeaning(t);
    } else {
      assert t[..|t|-1][..n] == t[..n];
      RunMeaningOfPrefix(t[..|t|-1], n);
    }
  }

  /** The rules a reader of the agents expects, drawn from acceptance alone. */
  lemma SessionOrder<P, O>(t: seq<Event<P, O>>, i: nat)
    requires Accepts(t) && i < |t|
    // GET_HOST_CONFIG precedes SET_AGENT_CONFIG and GET_PAYLOAD
    ensures IsSet(t[i]) || IsBuffer(t[i]) ==> Occurs(t[..i], GetHostConfig)
    // both precede every request for a payload
    ensures t[i] == Hc(NextPayload) || t[i] == Hc(FastAcquire) ==> Configured(t[..i]) && Buffered(t[..i])
    // the target runs only between an acquisition and its RELEASE, or once before the first payload
    ensures t[i].Ran? ==> (Held(t[..i]) && Started(t[..i])) || (WarmUp(t[..i]) && !HasRun(t[..i]))
  {
    AcceptsIffLegal(t);
    RunMeaningOfPrefix(t, i);
    assert Legal(t[..i], t[i]);
  }

  lemma SessionAdjacency<P, O>(t: seq<Event<P, O>>, i: nat)
    requires Accepts(t) && i + 1 < |t|
    // NEXT_PAYLOAD is followed at once by ACQUIRE
    ensures t[i] == Hc(NextPayload) ==> t[i+1] == Hc(Acquire)
    // nothing follows USER_ABORT
    ensures t[i] != Hc(UserAbort)
  {
    var s := t[..i+1];
    assert s[i] == t[i];
    assert t[i] == Hc(NextPayload) ==> Armed(s);
    assert t[i] == Hc(UserAbort) ==> Occurs(s, UserAbort);
    AcceptsIffLegal(t);
    assert Legal(s, t[i+1]);
  }

  /** A RELEASE lies between any two acquisitions. */
  lemma ReleaseBetween<P, O>(t: seq<Event<P, O>>, i: nat, j: nat)
    requires Accepts(t)
    requires i < j < |t| && Begins(t, i) && Begins(t, j)
    ensures exists k :: i < k < j && t[k] == Hc(Release)
  {
    var s := t[..j];
    assert (forall k :: i < k < j ==> t[k] != Hc(Release)) ==> Held(s) by {
      assert s[..i] == t[..i];
      assert Begins(s, i);
    }
    RunMeaningOfPrefix(t, j);
    AcceptsIffLegal(t);
    assert Legal(s, t[j]);
  }

  /** If the trace never used its warm-up round, the target only ever ran under an acquisition. */
  lemma {:induction false} NotWarmedMeansHeld<P, O>(t: seq<Event<P, O>>)
    requires Accepts(t) && !After(t).value.warmed
    ensures forall i :: 0 <= i < |t| && t[i].Ran? ==> Held(t[..i]) && Started(t[..i])
  {
    if t != [] {
      var s := t[..|t|-1];
      RunMeaning(s);
      NotWarmedMeansHeld(s);
      assert forall i :: 0 <= i < |s| ==> s[..i] == t[..i] && s[i] == t[i];
    }
  }
}
