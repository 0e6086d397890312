/** fs_fuzzer's rounds on its backing file, which is overwritten from the start and never truncated.
    The agent does not allow persistent mode, so that its host restores the snapshot, and the file
    with it, at every RELEASE but the first; what would become of the file under a host that did
    not is told apart below. */
module BackingFile {
  import opened NyxApi
  import opened Sharedir
  import opened Machine
  import opened Agents
  import opened Simulation
  import opened Campaign
  import opened FsSessions

  /** One payload, and what the operations of its round return. wrote is the result of write(),
      changes the bytes that the mounted file system puts into the image through the loop device. */
  datatype Round = Round(
    size: int, data: seq<byte>, seekOk: bool, wrote: int, mountOk: bool, changes: map<nat, byte>, umountOk: bool)

  /** The image behind the mount: any of its bytes may be different, its length is not. */
  function Used(image: seq<byte>, changes: map<nat, byte>): (r: seq<byte>)
    ensures |r| == |image|
  {
    seq(|image|, k requires 0 <= k < |image| => if k in changes then changes[k] else image[k])
  }

  /** A write of a negative size fails; any other write may fail or be short. */
  ghost predicate Possible(r: Round) {
    -0x8000_0000 <= r.size < 0x8000_0000 && (r.wrote == -1 || 0 <= r.wrote <= r.size <= |r.data|)
  }

  /** (size_t)size > sizeof(unsigned long): a negative size is a huge one. */
  predicate Attempts(r: Round) { r.size < 0 || r.size > 8 }

  /** The round gets past its checks. */
  predicate Passes(r: Round) {
    Attempts(r) ==> r.seekOk && r.wrote != -1
  }

  function Overwritten(content: seq<byte>, data: seq<byte>): seq<byte> {
    if |content| <= |data| then data else data + content[|data|..]
  }

  // seen holds the image at each attempt to mount it, released the image and the number of
  // mounts at each RELEASE.
  datatype State = State(
    content: seq<byte>, mounts: nat, aborted: bool, seen: seq<seq<byte>>, released: seq<(seq<byte>, nat)>)

  /** From the write to the attempt to unmount. */
  function Mounted(s: State, r: Round): State {
    if !r.mountOk then s.(seen := s.seen + [s.content])
    else
      var mounts := if r.umountOk then s.mounts else s.mounts + 1;
      State(Used(s.content, r.changes), mounts, s.aborted, s.seen + [s.content], s.released)
  }

  function AfterRound(s: State, r: Round): State
    requires Possible(r)
  {
    if !Passes(r) then s.(aborted := true)
    else
      var t := if Attempts(r) then Mounted(s.(content := Overwritten(s.content, r.data[..r.wrote])), r) else s;
      t.(released := t.released + [(t.content, t.mounts)])
  }

  /** Rounds that all start from the image c and m mounts. */
  function Restoring(s: State, c: seq<byte>, m: nat, rounds: seq<Round>): State
    requires forall i :: 0 <= i < |rounds| ==> Possible(rounds[i])
    decreases |rounds|
  {
    if rounds == [] || s.aborted then s
    else Restoring(AfterRound(s.(content := c, mounts := m), rounds[0]), c, m, rounds[1..])
  }

  /** Rounds that each start from what the one before left. */
  function Fuzzed(s: State, rounds: seq<Round>): State
    requires forall i :: 0 <= i < |rounds| ==> Possible(rounds[i])
    decreases |rounds|
  {
    if rounds == [] || s.aborted then s else Fuzzed(AfterRound(s, rounds[0]), rounds[1..])
  }

  /** A session: the first round is the agent's own, and the snapshot is taken behind it. */
  function Session(s: State, rounds: seq<Round>, restores: bool): State
    requires forall i :: 0 <= i < |rounds| ==> Possible(rounds[i])
  {
    if rounds == [] || s.aborted then s
    else
      var t := AfterRound(s, rounds[0]);
      if restores then Restoring(t, t.content, t.mounts, rounds[1..]) else Fuzzed(t, rounds[1..])
  }

  // ---------------------------------------------------------------- the file over a session

  /** The images that rounds from image c put before the file system. */
  function Images(c: seq<byte>, rounds: seq<Round>): seq<seq<byte>>
    requires AllPass(rounds)
  {
    if rounds == [] then []
    else
      (if Attempts(rounds[0]) then [Overwritten(c, rounds[0].data[..rounds[0].wrote])] else []) + Images(c, rounds[1..])
  }

  /** What each of them leaves at its RELEASE: its file, and one more mount if it is stuck. */
  function Left(c: seq<byte>, m: nat, rounds: seq<Round>): seq<(seq<byte>, nat)> {
    seq(|rounds|, i requires 0 <= i < |rounds| => (RoundTarget(c, rounds[i]).0, m + Stuck([rounds[i]])))
  }

  lemma RoundFrom(s: State, c: seq<byte>, m: nat, r: Round)
    requires !s.aborted && Possible(r) && Passes(r)
    ensures var t := AfterRound(s.(content := c, mounts := m), r);
            && !t.aborted && t.seen == s.seen + Images(c, [r]) && t.released == s.released + Left(c, m, [r])
  {
    assert Images(c, [r]) == (if Attempts(r) then [Overwritten(c, r.data[..r.wrote])] else []) + Images(c, [r][1..]);
    assert Stuck([r]) == (if Attempts(r) && r.mountOk && !r.umountOk then 1 else 0) + Stuck([r][1..]);
    assert s.seen + [] == s.seen;
  }

  lemma {:induction false} RestoringIs(s: State, c: seq<byte>, m: nat, rounds: seq<Round>)
    requires !s.aborted && forall i :: 0 <= i < |rounds| ==> Possible(rounds[i])
    ensures var t := Restoring(s, c, m, rounds);
            && (t.aborted <==> exists i :: 0 <= i < |rounds| && !Passes(rounds[i]))
            && (AllPass(rounds) ==>
                  t.seen == s.seen + Images(c, rounds) && t.released == s.released + Left(c, m, rounds))
    decreases |rounds|
  {
    hide AfterRound, RoundTarget, Possible, Passes;
    if rounds == [] {
      assert s.seen + [] == s.seen && s.released + [] == s.released && Left(c, m, rounds) == [];
    } else if !Passes(rounds[0]) {
      FailedRound(s.(content := c, mounts := m), rounds[0]);
    } else {
      var r, rest := rounds[0], rounds[1..];
      RoundFrom(s, c, m, r);
      RestoringIs(AfterRound(s.(content := c, mounts := m), r), c, m, rest);
      assert Left(c, m, rounds) == Left(c, m, [r]) + Left(c, m, rest);
      if AllPass(rounds) {
        assert [r][1..] == [] && Images(c, rounds) == Images(c, [r]) + Images(c, rest);
        assert (s.seen + Images(c, [r])) + Images(c, rest) == s.seen + Images(c, rounds);
      }
    }
  }

  lemma FailedRound(s: State, r: Round)
    requires Possible(r) && !Passes(r)
    ensures AfterRound(s, r).aborted
  {
  }

  /** On the agent's host: every payload is put before the file system over the file that the
      agent's own round has left, and no other; at each RELEASE the file is as that round and this
      one leave it, and at most one mount of this round is left; none, if umount succeeds. */
  lemma SessionImages(s: State, rounds: seq<Round>)
    requires !s.aborted && AllPass(rounds) && rounds != []
    ensures var own := AfterRound(s, rounds[0]); var t := Session(s, rounds, true);
            && !t.aborted
            && t.seen == own.seen + Images(own.content, rounds[1..])
            && t.released == own.released + Left(own.content, own.mounts, rounds[1..])
  {
    var own := AfterRound(s, rounds[0]);
    RestoringIs(own, own.content, own.mounts, rounds[1..]);
  }

  // ---------------------------------------------------------------- without restoration

  lemma OverwrittenIs(content: seq<byte>, data: seq<byte>)
    ensures var c := Overwritten(content, data);
            && |c| == Max(|content|, |data|) && data <= c
            && forall k :: |data| <= k < |content| ==> c[k] == content[k]
  {
  }

  function Max(a: nat, b: nat): nat { if a >= b then a else b }

  function Written(r: Round): nat { if Attempts(r) && r.wrote > 0 then r.wrote else 0 }

  /** The longest of n and all that the rounds wrote. */
  function Longest(n: nat, rounds: seq<Round>): nat
    decreases |rounds|
  {
    if rounds == [] then n else Longest(Max(n, Written(rounds[0])), rounds[1..])
  }

  /** The rounds whose file system could be mounted but not unmounted. */
  function Stuck(rounds: seq<Round>): nat {
    if rounds == [] then 0
    else (if Attempts(rounds[0]) && rounds[0].mountOk && !rounds[0].umountOk then 1 else 0) + Stuck(rounds[1..])
  }

  ghost predicate AllPass(rounds: seq<Round>) {
    forall i :: 0 <= i < |rounds| ==> Possible(rounds[i]) && Passes(rounds[i])
  }

  /** A run is aborted exactly if some round fails a check, as every negative size does. Otherwise
      the file is as long as the longest write yet, and there are as many mounts as failed to be
      undone; so none at any RELEASE if every umount succeeds. */
  lemma {:induction false} LengthAndMounts(s: State, rounds: seq<Round>)
    requires !s.aborted && forall i :: 0 <= i < |rounds| ==> Possible(rounds[i])
    ensures var t := Fuzzed(s, rounds);
            && (t.aborted <==> exists i :: 0 <= i < |rounds| && !Passes(rounds[i]))
            && (AllPass(rounds) ==>
                  && |t.content| == Longest(|s.content|, rounds)
                  && t.mounts == s.mounts + Stuck(rounds)
                  && |t.released| == |s.released| + |rounds|
                  && (rounds != [] ==> t.released[|t.released|-1] == (t.content, t.mounts)))
    decreases |rounds|
  {
    if rounds != [] {
      var r, rest := rounds[0], rounds[1..];
      if Passes(r) {
        LengthAndMounts(AfterRound(s, r), rest);
      }
    }
  }

  /** A round in terms of its size, a size_t in the check, so that a negative one is attempted too, and
      fails. Up to eight bytes are passed over; else the seek and the write must succeed, whatever
      write() wrote stands at the start of the image that is put before the file system, and a mount
      is left behind if it cannot be undone. */
  lemma RoundIs(s: State, r: Round)
    requires Possible(r) && !s.aborted
    ensures var t := AfterRound(s, r); var attempted := r.size < 0 || r.size > 8;
            && (t.aborted <==> attempted && (!r.seekOk || r.wrote == -1))
            && (r.size < 0 ==> t.aborted)
            && (t.aborted ==> t == s.(aborted := true))
            && (!attempted ==> t == s.(released := s.released + [(s.content, s.mounts)]))
            && (attempted && !t.aborted ==>
                  var image := r.data[..r.wrote] + if r.wrote < |s.content| then s.content[r.wrote..] else [];
                  && t.seen == s.seen + [image] && |t.content| == |image|
                  && (forall k :: 0 <= k < |image| ==>
                        t.content[k] == if r.mountOk && k in r.changes then r.changes[k] else image[k])
                  && t.mounts == s.mounts + (if r.mountOk && !r.umountOk then 1 else 0)
                  && t.released == s.released + [(t.content, t.mounts)])
  {
    if Attempts(r) && Passes(r) {
      assert r.data[..r.wrote] + [] == r.data[..r.wrote];
      assert |s.content| == r.wrote ==> s.content[r.wrote..] == [];
    }
  }

  /** What a round puts before the file system: the payload, as far as it was written, and behind
      it what earlier rounds left. */
  lemma ImageIs(s: State, r: Round)
    requires Possible(r) && Passes(r) && Attempts(r)
    ensures var t := AfterRound(s, r); var image := t.seen[|t.seen|-1];
            && |t.seen| == |s.seen| + 1
            && image[..r.wrote] == r.data[..r.wrote]
            && |image| == Max(|s.content|, r.wrote)
            && (forall k :: r.wrote <= k < |s.content| ==> image[k] == s.content[k])
            && t.content == if r.mountOk then Used(image, r.changes) else image
  {
    OverwrittenIs(s.content, r.data[..r.wrote]);
  }

  /** The round puts a byte at k: the write does, or the file system through the mounted image. */
  predicate Touches(r: Round, k: nat) {
    Attempts(r) && (k < r.wrote || (r.mountOk && k in r.changes))
  }

  function PutAt(r: Round, k: nat): byte
    requires Possible(r) && Touches(r, k)
  {
    if r.mountOk && k in r.changes then r.changes[k] else r.data[k]
  }

  lemma {:induction false} ByteStays(s: State, rounds: seq<Round>, k: nat)
    requires !s.aborted && AllPass(rounds) && k < |s.content|
    requires forall i :: 0 <= i < |rounds| ==> !Touches(rounds[i], k)
    ensures var c := Fuzzed(s, rounds).content; k < |c| && c[k] == s.content[k]
    decreases |rounds|
  {
    if rounds != [] {
      var r := rounds[0];
      if Attempts(r) {
        OverwrittenIs(s.content, r.data[..r.wrote]);
      }
      ByteStays(AfterRound(s, r), rounds[1..], k);
    }
  }

  /** Each byte of the file is the one that was put there last, by a write or by a mounted file
      system; no other round, however long its payload, has a say in it. */
  lemma {:induction false} LastWriterWins(s: State, rounds: seq<Round>, i: nat, k: nat)
    requires !s.aborted && AllPass(rounds) && i < |rounds| && Touches(rounds[i], k)
    requires k < Longest(|s.content|, rounds[..i + 1]) && forall j :: i < j < |rounds| ==> !Touches(rounds[j], k)
    ensures var c := Fuzzed(s, rounds).content; k < |c| && c[k] == PutAt(rounds[i], k)
    decreases |rounds|
  {
    var r, rest := rounds[0], rounds[1..];
    var t := AfterRound(s, r);
    LengthAndMounts(s, [r]);
    assert [r][1..] == [] && Fuzzed(s, [r]) == Fuzzed(t, []) == t;
    assert Longest(|s.content|, [r]) == Longest(Max(|s.content|, Written(r)), []);
    assert rounds[..i + 1][1..] == rest[..i];
    if i == 0 {
      assert Longest(|s.content|, rounds[..1]) == Longest(Max(|s.content|, Written(r)), []);
      OverwrittenIs(s.content, r.data[..r.wrote]);
      ByteStays(t, rest, k);
    } else {
      assert rest[i - 1] == rounds[i] && rest[..i - 1 + 1] == rest[..i];
      LastWriterWins(t, rest, i - 1, k);
    }
  }

  // ---------------------------------------------------------------- as a fuzzing target

  /** One round as a target: its memory is the image, its outcome the image that is put before
      the file system, if there is an attempt to mount it. */
  function RoundTarget(c: seq<byte>, r: Round): (seq<byte>, Option<seq<byte>>) {
    if !Attempts(r) || r.wrote < 0 || r.wrote > |r.data| then (c, None)
    else
      var image := Overwritten(c, r.data[..r.wrote]);
      (if r.mountOk then Used(image, r.changes) else image, Some(image))
  }

  lemma RoundTargetIsRound(s: State, r: Round)
    requires Possible(r) && Passes(r)
    ensures var t := AfterRound(s, r); var (c, image) := RoundTarget(s.content, r);
            && t.content == c
            && t.seen == s.seen + if image.Some? then [image.value] else []
  {
    assert s.seen + [] == s.seen;
  }

  /** A round that writes so many bytes of value b. */
  function Filling(n: nat, b: byte): Round {
    Round(n, seq(n, _ => b), true, n, false, map[], true)
  }

  /** The session of the agent's program, on this target and on its host, from boot: the agent's own
      round, and then each payload over the file that this round has left. */
  lemma SessionRuns(
    env: Env<seq<byte>, Round, Option<seq<byte>>>, file: seq<byte>, garbage: HostConfig,
    buffer: Round, rounds: seq<Round>)
    returns (n: nat)
    requires Succeeds(env) && env.target == RoundTarget
    requires Possible(env.touch(buffer)) && Passes(env.touch(buffer)) && AllPass(rounds)
    ensures var own := env.touch(buffer);
            var s := AfterRound(State(file, 0, false, [], []), own);
            forall k: nat :: k >= n ==>
              var v := Run(FsFuzzer, env, Boot(file, garbage, buffer, rounds), k);
              && v.status.Blocked? && v.pending == []
              && Outcomes(v.trace) == [(own, RoundTarget(file, own).1)] + Fresh(RoundTarget, s.content, rounds)
  {
    hide Run, Step, Outcomes, Succeeds, Fresh;
    var own := env.touch(buffer);
    RoundTargetIsRound(State(file, 0, false, [], []), own);
    n := FsWholeSession(env, file, garbage, buffer, rounds);
  }

  /** The agent has to ask for restoration (agent_non_reload_mode is 0): without it, and whatever
      the image was at the snapshot, a later payload could show what an earlier one left. */
  lemma LeavesResidue(c: seq<byte>)
    ensures !ResidueFree(RoundTarget, c)
    ensures !ModesAgree(RoundTarget, c)
  {
    var b: byte := if |c| > 9 && c[9] == 1 then 2 else 1;
    var long, short := Filling(10, b), Filling(9, 0);
    var image := Overwritten(c, long.data[..10]);
    OverwrittenIs(c, long.data[..10]);
    OverwrittenIs(image, short.data[..9]);
    OverwrittenIs(c, short.data[..9]);
    var after, clean := Overwritten(image, short.data[..9]), Overwritten(c, short.data[..9]);
    assert after[9] == b && (|clean| > 9 ==> clean[9] == c[9]);
    assert RoundTarget(c, long).0 == image;
    assert [long][1..] == [];
    assert MemAfter(RoundTarget, c, [long]) == MemAfter(RoundTarget, image, []) == image;
    assert RoundTarget(image, short).1 == Some(after) && RoundTarget(c, short).1 == Some(clean);
    ModesAgreeIffResidueFree(RoundTarget, c);
  }

  // ---------------------------------------------------------------- which streams would not tell

  // A payload size that is not negative.
  type Int31 = n: nat | n < 0x8000_0000

  /** Payloads of these sizes, all written in full and none mounted. */
  ghost predicate FullWrites(rounds: seq<Round>, sizes: seq<nat>) {
    |rounds| == |sizes| &&
    forall i :: 0 <= i < |rounds| ==>
      var r := rounds[i];
      Possible(r) && Passes(r) && !r.mountOk && r.size == sizes[i] && (Attempts(r) ==> r.wrote == r.size)
  }

  /** Of the sizes that are written at all, none is less than the one before it, nor less than m. */
  predicate Growing(m: nat, sizes: seq<nat>)
    decreases |sizes|
  {
    sizes == [] ||
    if sizes[0] <= 8 then Growing(m, sizes[1..]) else m <= sizes[0] && Growing(sizes[0], sizes[1..])
  }

  /** The first size that breaks this. */
  function FirstDrop(m: nat, sizes: seq<nat>): nat
    requires !Growing(m, sizes)
    decreases |sizes|
  {
    if sizes[0] <= 8 then FirstDrop(m, sizes[1..])
    else if sizes[0] < m then sizes[0]
    else FirstDrop(sizes[0], sizes[1..])
  }

  /** From position m on, the two images are the same. */
  ghost predicate SameFrom(p: seq<byte>, c: seq<byte>, m: nat) {
    (|p| == |c| || (|p| <= m && |c| <= m)) && forall k :: m <= k < |p| && k < |c| ==> p[k] == c[k]
  }

  lemma {:induction false} GrowingAgrees(c: seq<byte>, p: seq<byte>, m: nat, rounds: seq<Round>, sizes: seq<nat>)
    requires FullWrites(rounds, sizes) && Growing(m, sizes) && SameFrom(p, c, m)
    ensures Chained(RoundTarget, p, rounds) == Fresh(RoundTarget, c, rounds)
    decreases |rounds|
  {
    if rounds != [] {
      var r := rounds[0];
      ChainedStep(RoundTarget, p, rounds);
      FreshStep(RoundTarget, c, rounds);
      if Attempts(r) {
        var d := r.data[..r.wrote];
        assert Overwritten(p, d) == Overwritten(c, d);
        GrowingAgrees(c, Overwritten(p, d), r.size, rounds[1..], sizes[1..]);
      } else {
        GrowingAgrees(c, p, m, rounds[1..], sizes[1..]);
      }
    }
  }

  function Fillings(sizes: seq<nat>, b: byte): seq<Round> {
    seq(|sizes|, i requires 0 <= i < |sizes| => Filling(sizes[i], b))
  }

  lemma {:induction false} DropShows(c: seq<byte>, p: seq<byte>, m: nat, sizes: seq<nat>, b: byte)
    requires !Growing(m, sizes) && m <= |p| && forall k :: 0 <= k < m ==> p[k] == b
    requires var d := FirstDrop(m, sizes); d < |c| ==> c[d] != b
    ensures Chained(RoundTarget, p, Fillings(sizes, b)) != Fresh(RoundTarget, c, Fillings(sizes, b))
    decreases |sizes|
  {
    var rounds, rest, n := Fillings(sizes, b), sizes[1..], sizes[0];
    var data := rounds[0].data[..n];
    ChainedStep(RoundTarget, p, rounds);
    FreshStep(RoundTarget, c, rounds);
    assert rounds[1..] == Fillings(rest, b);
    if n <= 8 {
      DropShows(c, p, m, rest, b);
      assert Chained(RoundTarget, p, rounds)[1..] != Fresh(RoundTarget, c, rounds)[1..];
    } else if n < m {
      OverwrittenIs(p, data);
      OverwrittenIs(c, data);
      assert Overwritten(p, data)[n] == b;
      assert Chained(RoundTarget, p, rounds)[0] != Fresh(RoundTarget, c, rounds)[0];
    } else {
      OverwrittenIs(p, data);
      DropShows(c, Overwritten(p, data), n, rest, b);
      assert Chained(RoundTarget, p, rounds)[1..] != Fresh(RoundTarget, c, rounds)[1..];
    }
  }

  /** Whatever the payloads of these sizes are, the file system is given the same images whether the
      image c is restored before each of them or not. */
  ghost predicate SameImages(c: seq<byte>, sizes: seq<nat>) {
    forall rounds :: FullWrites(rounds, sizes) ==> Chained(RoundTarget, c, rounds) == Fresh(RoundTarget, c, rounds)
  }

  /** Without restoration the file system would be given the same images as with it, for all payloads
      of these sizes and any image at the snapshot, exactly if no payload is smaller than the one
      before it, those too small to be written aside. */
  lemma AgreesIffGrowing(c: seq<byte>, sizes: seq<Int31>)
    ensures SameImages(c, sizes) <==> Growing(0, sizes)
  {
    if Growing(0, sizes) {
      forall rounds | FullWrites(rounds, sizes)
        ensures Chained(RoundTarget, c, rounds) == Fresh(RoundTarget, c, rounds)
      {
        GrowingAgrees(c, c, 0, rounds, sizes);
      }
    } else {
      var d := FirstDrop(0, sizes);
      var b: byte := if d < |c| && c[d] == 1 then 2 else 1;
      DropShows(c, c, 0, sizes, b);
      assert FullWrites(Fillings(sizes, b), sizes);
    }
  }

  // ---------------------------------------------------------------- the loop

  class Fuzzer {
    const restores: bool  // the host restores its snapshot, as it does for this agent
    var content: seq<byte>
    var mounts: nat
    var aborted: bool
    var seen: seq<seq<byte>>
    var released: seq<(seq<byte>, nat)>

    constructor (content: seq<byte>, restores: bool)
      ensures Now() == State(content, 0, false, [], []) && this.restores == restores
    {
      this.restores := restores;
      this.content, mounts, aborted, seen, released := content, 0, false, [], [];
    }

    ghost function Now(): State
      reads this
    {
      State(content, mounts, aborted, seen, released)
    }

    /** The body of main()'s loop up to the RELEASE. */
    method RunRound(r: Round)
      requires !aborted && Possible(r)
      modifies this
      ensures Now() == AfterRound(old(Now()), r)
    {
      if r.size < 0 || r.size > 8 {
        if !r.seekOk {
          aborted := true;
          return;
        }
        var ret := r.wrote;
        if ret == -1 {
          aborted := true;
          return;
        }
        content := Overwritten(content, r.data[..ret]);
        // The result of resizing the loop device is not kept: this tests write()'s once more.
        if ret == -1 {
          assert false;
        }
        seen := seen + [content];
        if r.mountOk {
          mounts := mounts + 1;
          content := Used(content, r.changes);
          if r.umountOk {
            mounts := mounts - 1;
          }
        }
      }
      released := released + [(content, mounts)];
    }

    /** main()'s loop, for as long as there are payloads. The first round is the agent's own; behind
        it the host takes its snapshot, and what it restores later includes the file. */
    method Rounds(rounds: seq<Round>)
      requires !aborted && forall i :: 0 <= i < |rounds| ==> Possible(rounds[i])
      modifies this
      ensures Now() == Session(old(Now()), rounds, restores)
    {
      if rounds == [] {
        return;
      }
      RunRound(rounds[0]);
      var saved := (content, mounts);
      var i := 1;
      ghost var whole := Session(old(Now()), rounds, restores);
      while i < |rounds| && !aborted
        invariant 1 <= i <= |rounds|
        invariant whole ==
                  if restores then Restoring(Now(), saved.0, saved.1, rounds[i..]) else Fuzzed(Now(), rounds[i..])
      {
        hide AfterRound;
        assert rounds[i..][1..] == rounds[i + 1..];
        if restores {
          content, mounts := saved.0, saved.1;
        }
        RunRound(rounds[i]);
        i := i + 1;
      }
    }
  }
}
