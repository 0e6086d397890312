/** The common agent library: the CPU type, file transfer in both directions, and the
    console, as methods over the library's static buffers. */
module NyxAgent {
  import opened NyxApi
  import opened Text
  import opened Sharedir
  import opened CpuGuard

  const BULK_PAGES := 256
  const SCRATCH := 1024 * 1024
  const NAME_SIZE := 256
  const HPRINTF_MAX_SIZE := 4096

  const ENOENT := 2
  const EIO := 5
  const EINVAL := 22
  const ENAMETOOLONG := 36

  /** The host's dump directory after data has been pushed to a file in any number of chunks. */
  function Delivered(dumps: map<string, seq<byte>>, f: string, append: bool, data: seq<byte>): map<string, seq<byte>> {
    if data == [] then dumps else Dumped(dumps, f, append, data)
  }

  /** What follows the first chunk is appended to it. */
  lemma DeliveredInTwo(dumps: map<string, seq<byte>>, f: string, append: bool, first: seq<byte>, more: seq<byte>)
    requires first != []
    ensures Delivered(dumps, f, append, first + more) == Delivered(Dumped(dumps, f, append, first), f, true, more)
  {
    var base := if append && f in dumps then dumps[f] else [];
    assert base + (first + more) == (base + first) + more;
    if more == [] {
      assert first + more == first;
    }
  }

  /** The append flags of k dump requests: the caller's, then always set. */
  function Flags(append: bool, k: nat): seq<bool> {
    seq(k, i => i > 0 || append)
  }

  /** The length of one read that does not fail, of a plan that may cut it short. */
  function ReadSize(plan: seq<int>, size: nat, left: nat): nat {
    Min(if plan != [] && 1 <= plan[0] < size then plan[0] else size, left)
  }

  lemma ReadSizeRange(plan: seq<int>, size: nat, left: nat)
    requires size > 0
    ensures ReadSize(plan, size, left) <= size && ReadSize(plan, size, left) <= left
    ensures ReadSize(plan, size, left) == 0 <==> left == 0
  {
  }

  predicate ReadFails(plan: seq<int>) { plan != [] && plan[0] == -1 }

  function Tail(plan: seq<int>): seq<int> { if plan == [] then [] else plan[1..] }

  // The host's dump directory and log of append flags, and whether the agent aborted.
  datatype Push = Push(dumps: map<string, seq<byte>>, flags: seq<bool>, failed: bool)

  /** hpush_file()'s loop from position pos on, with the flag of the next chunk. */
  function Pushing(f: string, data: seq<byte>, pos: nat, plan: seq<int>, append: bool, p: Push): Push
    requires pos <= |data|
    decreases |data| - pos
  {
    if ReadFails(plan) then p.(failed := true)
    else if pos == |data| then p
    else
      var end := pos + ReadSize(plan, SCRATCH, |data| - pos);
      Pushing(f, data, end, Tail(plan), true,
        Push(Dumped(p.dumps, f, append, data[pos..end]), p.flags + [append], p.failed))
  }

  lemma PushingStep(f: string, data: seq<byte>, pos: nat, plan: seq<int>, append: bool, p: Push)
    requires pos <= |data|
    ensures var size := ReadSize(plan, SCRATCH, |data| - pos);
            Pushing(f, data, pos, plan, append, p) ==
            if ReadFails(plan) then p.(failed := true)
            else if size == 0 then p
            else Pushing(f, data, pos + size, Tail(plan), true,
                         Push(Dumped(p.dumps, f, append, data[pos..pos + size]), p.flags + [append], p.failed))
  {
  }

  /** Whatever the reads return, the file arrives as it is, behind its old content if the caller
      asks for that; a failing read, and nothing else, makes the agent abort, with a prefix
      delivered. Only the first chunk carries the caller's flag. */
  lemma {:induction false} PushingDelivers(f: string, data: seq<byte>, pos: nat, plan: seq<int>, append: bool, p: Push)
    returns (end: nat, chunks: nat)
    requires pos <= |data| && !p.failed
    ensures pos <= end <= |data| && (chunks == 0 <==> end == pos)
    ensures var r := Pushing(f, data, pos, plan, append, p);
            && r.dumps == Delivered(p.dumps, f, append, data[pos..end])
            && r.flags == p.flags + Flags(append, chunks)
            && (r.failed <==> chunks < |plan| && plan[chunks] == -1)
            && (!r.failed ==> end == |data|)
            && (-1 !in plan ==> !r.failed)
    decreases |data| - pos
  {
    if ReadFails(plan) || pos == |data| {
      end, chunks := pos, 0;
      assert p.flags + Flags(append, 0) == p.flags;
    } else {
      var mid := pos + ReadSize(plan, SCRATCH, |data| - pos);
      var chunk := data[pos..mid];
      var q := Push(Dumped(p.dumps, f, append, chunk), p.flags + [append], p.failed);
      var k;
      end, k := PushingDelivers(f, data, mid, Tail(plan), true, q);
      chunks := k + 1;
      assert data[pos..end] == chunk + data[mid..end];
      DeliveredInTwo(p.dumps, f, append, chunk, data[mid..end]);
      assert [append] + Flags(true, k) == Flags(append, k + 1);
    }
  }

  // ---------------------------------------------------------------- hprintf_from_file, as a function

  /** The static buffer once a chunk has been read into it: its tail is what was there before. */
  function Page(buffer: seq<char>, chunk: seq<char>): seq<char>
    requires |chunk| <= |buffer|
  {
    chunk + buffer[|chunk|..]
  }

  /** The buffers that the host is given for a stream; the last read comes up short, with
      nothing in it if the length is a multiple of the buffer's. */
  function Pages(buffer: seq<char>, stream: seq<char>): (r: seq<seq<char>>)
    requires |buffer| == HPRINTF_MAX_SIZE
    ensures |r| > 0 && forall i :: 0 <= i < |r| ==> |r[i]| == HPRINTF_MAX_SIZE
    decreases |stream|
  {
    if |stream| < HPRINTF_MAX_SIZE then [Page(buffer, stream)]
    else [stream[..HPRINTF_MAX_SIZE]] + Pages(stream[..HPRINTF_MAX_SIZE], stream[HPRINTF_MAX_SIZE..])
  }

  /** One hypercall for each full buffer of 4096 and one more; together they carry the stream,
      and the last one also what the buffer before it left behind. */
  lemma {:induction false} PagesCarryStream(buffer: seq<char>, stream: seq<char>, i: nat)
    requires |buffer| == HPRINTF_MAX_SIZE && i <= |stream| / 4096
    ensures var pages := Pages(buffer, stream);
            && |pages| == |stream| / 4096 + 1
            && (i < |stream| / 4096 ==> pages[i] == stream[i * 4096..i * 4096 + 4096])
            && (i == |stream| / 4096 ==> pages[i] == Page(if i == 0 then buffer else pages[i-1], stream[i * 4096..]))
    decreases |stream|
  {
    if |stream| >= HPRINTF_MAX_SIZE {
      var first, rest := stream[..HPRINTF_MAX_SIZE], stream[HPRINTF_MAX_SIZE..];
      var pages := Pages(first, rest);
      assert |rest| / 4096 == |stream| / 4096 - 1;
      PagesCarryStream(first, rest, if i == 0 then 0 else i - 1);
      assert Pages(buffer, stream) == [first] + pages;
      if i > 0 {
        assert rest[(i - 1) * 4096..] == stream[i * 4096..];
      }
    }
  }

  /** The same pages, gathered as the loop does. */
  function PagesOnto(done: seq<seq<char>>, buffer: seq<char>, stream: seq<char>): (r: seq<seq<char>>)
    requires |buffer| == HPRINTF_MAX_SIZE
    ensures |r| > 0
    decreases |stream|
  {
    if |stream| < HPRINTF_MAX_SIZE then done + [Page(buffer, stream)]
    else PagesOnto(done + [stream[..HPRINTF_MAX_SIZE]], stream[..HPRINTF_MAX_SIZE], stream[HPRINTF_MAX_SIZE..])
  }

  lemma {:induction false} PagesOntoIsPages(done: seq<seq<char>>, buffer: seq<char>, stream: seq<char>)
    requires |buffer| == HPRINTF_MAX_SIZE
    ensures PagesOnto(done, buffer, stream) == done + Pages(buffer, stream)
    decreases |stream|
  {
    if |stream| >= HPRINTF_MAX_SIZE {
      var first, rest := stream[..HPRINTF_MAX_SIZE], stream[HPRINTF_MAX_SIZE..];
      PagesOntoIsPages(done + [first], first, rest);
      assert (done + [first]) + Pages(first, rest) == done + Pages(buffer, stream);
    }
  }

  lemma PagesOntoStep(done: seq<seq<char>>, buffer: seq<char>, stream: seq<char>, at: nat)
    requires |buffer| == HPRINTF_MAX_SIZE && at <= |stream|
    ensures var read := Min(HPRINTF_MAX_SIZE, |stream| - at);
            var page := Page(buffer, stream[at..at + read]);
            PagesOnto(done, buffer, stream[at..]) ==
            if read < HPRINTF_MAX_SIZE then done + [page] else PagesOnto(done + [page], page, stream[at + read..])
  {
    var rest, read := stream[at..], Min(HPRINTF_MAX_SIZE, |stream| - at);
    assert rest[..read] == stream[at..at + read] && rest[read..] == stream[at + read..];
    if read < HPRINTF_MAX_SIZE {
      assert rest[..read] == rest;
    } else {
      assert Page(buffer, rest[..read]) == rest[..read];
    }
  }

  /** What a console shows of those buffers, each of which it takes for a C string. */
  function Console(pages: seq<seq<char>>): string {
    if pages == [] then [] else CString(pages[0]) + Console(pages[1..])
  }

  /** A buffer full of text never ends early, so that every later page is shown in full. */
  lemma {:induction false} ConsoleLength(buffer: seq<char>, stream: seq<char>)
    requires |buffer| == HPRINTF_MAX_SIZE && NUL !in buffer && NUL !in stream
    ensures |Console(Pages(buffer, stream))| > |stream|
    decreases |stream|
  {
    var pages := Pages(buffer, stream);
    if |stream| < HPRINTF_MAX_SIZE {
      CStringLength(Page(buffer, stream));
      assert Console(pages) == CString(pages[0]) + Console(pages[1..]);
    } else {
      var first, rest := stream[..HPRINTF_MAX_SIZE], stream[HPRINTF_MAX_SIZE..];
      CStringLength(first);
      ConsoleLength(first, rest);
      assert pages[1..] == Pages(first, rest);
    }
  }

  /** The console shows a text as it is exactly when the text fits one buffer with room to
      spare and the buffer has a terminator where the text ends; any longer text is followed,
      or repeated, by what the buffer still holds. */
  lemma ConsoleShowsStreamIff(buffer: seq<char>, stream: seq<char>)
    requires |buffer| == HPRINTF_MAX_SIZE && NUL !in stream
    ensures Console(Pages(buffer, stream)) == stream <==> |stream| < HPRINTF_MAX_SIZE && buffer[|stream|] == NUL
  {
    var pages := Pages(buffer, stream);
    if |stream| < HPRINTF_MAX_SIZE {
      CStringReadsOn(stream, buffer[|stream|..]);
      CStringLength(buffer[|stream|..]);
      assert pages[1..] == [] && Console(pages) == CString(pages[0]) + [];
      assert Console(pages) == stream + CString(buffer[|stream|..]);
    } else {
      var first, rest := stream[..HPRINTF_MAX_SIZE], stream[HPRINTF_MAX_SIZE..];
      CStringLength(first);
      ConsoleLength(first, rest);
      assert pages[1..] == Pages(first, rest);
    }
  }

  // ---------------------------------------------------------------- hget, as a function

  // What a transfer depends on and does not change.
  datatype Setting = Setting(
    cpu: CpuType, shared: map<string, seq<byte>>,
    room: string -> nat,     // the largest size each file of the guest can reach
    denied: string -> nat)   // errno of creat() for each name, 0 where it succeeds

  // What a transfer changes: the guest's files, and on the host the read positions and the
  // log of file names asked for.
  datatype View = View(files: map<string, seq<byte>>, cursors: map<string, nat>, names: seq<string>)

  ghost predicate Sound(w: Setting, v: View) {
    v.cursors.Keys == w.shared.Keys && forall f :: f in w.shared ==> v.cursors[f] <= |w.shared[f]|
  }

  /** What the host has yet to stream of a file. */
  function Rest(w: Setting, v: View, path: string): seq<byte>
    requires Sound(w, v) && path in w.shared
  {
    w.shared[path][v.cursors[path]..]
  }

  // What happens to one destination, one read position and the log.
  datatype Effect = Effect(file: seq<byte>, cursor: nat, requests: nat)

  function Repeat<T>(x: T, n: nat): seq<T> { seq(n, _ => x) }

  function Apply(v: View, dst: string, path: string, e: Effect): View {
    View(v.files[dst := e.file], v.cursors[path := e.cursor], v.names + Repeat(path, e.requests))
  }

  lemma ApplyTwice(v: View, dst: string, path: string, d: Effect, e: Effect)
    ensures Apply(Apply(v, dst, path, d), dst, path, e) == Apply(v, dst, path, e.(requests := d.requests + e.requests))
  {
    assert Repeat(path, d.requests) + Repeat(path, e.requests) == Repeat(path, d.requests + e.requests);
  }

  /** One turn of the loop: the view behind it, the length of the reply, and whether all of it
      could be written. */
  function Turn(w: Setting, v: View, dst: string, path: string): (View, nat, bool)
    requires Sound(w, v) && dst in v.files && |v.files[dst]| <= w.room(dst)
  {
    if w.cpu != V1 then (v, 0, true)
    else if path !in w.shared then (v.(names := v.names + [path]), NO_FILE, false)
    else
      var rest := Rest(w, v, path);
      var read := Min(|rest|, SCRATCH);
      var k := Min(read, w.room(dst) - |v.files[dst]|);
      var cursor := if read < SCRATCH then 0 else v.cursors[path] + read;
      (Apply(v, dst, path, Effect(v.files[dst] + rest[..k], cursor, 1)), read, k == read)
  }

  /** The whole transfer into a file that has just been created. A streamed file arrives up to
      what the destination takes, whichever chunk that falls into. */
  function Transferred(w: Setting, v: View, dst: string, path: string): (View, int)
    requires Sound(w, v)
  {
    var created := v.files[dst := []];
    if w.cpu != V1 then (v.(files := created), 0)
    else if path !in w.shared then (v.(files := created, names := v.names + [path]), -EIO)
    else
      var data := Rest(w, v, path);
      var arrived := Min(|data|, w.room(dst));
      var requests := arrived / SCRATCH + 1;
      var cursor := if requests * SCRATCH <= |data| then v.cursors[path] + requests * SCRATCH else 0;
      (Apply(v, dst, path, Effect(data[..arrived], cursor, requests)), if arrived == |data| then 0 else -EIO)
  }

  /** hget_file() from start to end. */
  function Hget(w: Setting, v: View, path: string): (View, int)
    requires Sound(w, v)
  {
    if |path| >= NAME_SIZE then (v, -ENAMETOOLONG)
    else if w.denied(Basename(path)) != 0 then (v, w.denied(Basename(path)))
    else Transferred(w, v, Basename(path), path)
  }

  /** What the loop has done when it is at its head: so many full chunks, `written` bytes in all. */
  function AtHead(data: seq<byte>, c: nat, chunks: nat, written: nat): Effect
    requires written <= |data|
  {
    Effect(data[..written], c + written, chunks)
  }

  ghost predicate WholeChunks(chunks: nat, written: nat) {
    written == chunks * SCRATCH
  }

  lemma FullChunks(total: nat, chunks: nat, written: nat)
    requires WholeChunks(chunks, written) && written <= total <= written + SCRATCH
    ensures total < written + SCRATCH ==> total / SCRATCH == chunks
    ensures (chunks + 1) * SCRATCH == written + SCRATCH
  {
  }

  /** A turn from the head of the loop, as an effect on the view before the loop. */
  lemma TurnEffect(w: Setting, v: View, dst: string, path: string, chunks: nat, written: nat)
    requires Sound(w, v) && w.cpu == V1 && path in w.shared
    requires written <= |Rest(w, v, path)| && written <= w.room(dst)
    ensures var data, c := Rest(w, v, path), v.cursors[path];
            var h := Apply(v, dst, path, AtHead(data, c, chunks, written));
            var read := Min(|data| - written, SCRATCH);
            var k := Min(read, w.room(dst) - written);
            && Sound(w, h)
            && Turn(w, h, dst, path) ==
                 (Apply(v, dst, path,
                        Effect(data[..written + k], if read < SCRATCH then 0 else c + written + SCRATCH, chunks + 1)),
                  read, k == read)
  {
    var data, c := Rest(w, v, path), v.cursors[path];
    var h := Apply(v, dst, path, AtHead(data, c, chunks, written));
    assert Sound(w, h) && Rest(w, h, path) == data[written..];
    var read := Min(|data| - written, SCRATCH);
    var k := Min(read, w.room(dst) - written);
    assert data[..written] + data[written..][..k] == data[..written + k];
    var cursor: nat := if read < SCRATCH then 0 else c + written + SCRATCH;
    ApplyTwice(v, dst, path, AtHead(data, c, chunks, written), Effect(data[..written + k], cursor, 1));
  }

  /** The loop's arithmetic: the turn behind so many full chunks leads to the next head, or out
      of the loop with the whole transfer done. */
  lemma TurnFromHead(w: Setting, v: View, dst: string, path: string, chunks: nat, written: nat)
    requires Sound(w, v) && w.cpu == V1 && path in w.shared && WholeChunks(chunks, written)
    requires written <= |Rest(w, v, path)| && written <= w.room(dst)
    ensures var data, c := Rest(w, v, path), v.cursors[path];
            var h := Apply(v, dst, path, AtHead(data, c, chunks, written));
            && Sound(w, h)
            && var (n, read, ok) := Turn(w, h, dst, path);
               if ok && read == SCRATCH then
                 WholeChunks(chunks + 1, written + SCRATCH)
                 && written + SCRATCH <= |data| && written + SCRATCH <= w.room(dst)
                 && n == Apply(v, dst, path, AtHead(data, c, chunks + 1, written + SCRATCH))
               else (n, if ok then 0 else -EIO) == Transferred(w, v, dst, path)
  {
    var data := Rest(w, v, path);
    hide Turn, Sound, Apply;
    TurnEffect(w, v, dst, path, chunks, written);
    var read := Min(|data| - written, SCRATCH);
    var k := Min(read, w.room(dst) - written);
    FullChunks(written + k, chunks, written);
    if k != read || read < SCRATCH {
      assert written + k == Min(|data|, w.room(dst));
    }
  }

  /** What the destination held before it was created anew does not matter. */
  lemma TransferOverwrites(w: Setting, v: View, dst: string, path: string)
    requires Sound(w, v)
    ensures var created := v.(files := v.files[dst := []]);
            Sound(w, created) && Transferred(w, created, dst, path) == Transferred(w, v, dst, path)
  {
    var created := v.(files := v.files[dst := []]);
    var file := Transferred(w, v, dst, path).0.files[dst];
    assert created.files[dst := file] == v.files[dst := file];
  }

  /** Success means that all has arrived that the host had left of the file; otherwise a prefix of
      that has. On a CPU type other than v1 nothing arrives, and that is a success too. */
  lemma TransferIsExact(w: Setting, v: View, dst: string, path: string)
    requires Sound(w, v)
    ensures var (n, ret) := Transferred(w, v, dst, path);
            && dst in n.files
            && (ret == 0 <==> w.cpu != V1 || (path in w.shared && |Rest(w, v, path)| <= w.room(dst)))
            && (w.cpu != V1 || path !in w.shared ==> n.files[dst] == [] && n.cursors == v.cursors)
            && (w.cpu == V1 && path in w.shared ==>
                  var data := Rest(w, v, path);
                  && n.files[dst] <= data
                  && (ret == 0 <==> n.files[dst] == data)
                  && (ret == 0 ==> n.names == v.names + Repeat(path, |data| / SCRATCH + 1) && n.cursors[path] == 0))
  {
  }

  /** The transfer gets past the name and the creation of the destination. */
  predicate Begins(w: Setting, path: string) {
    |path| < NAME_SIZE && w.denied(Basename(path)) == 0
  }

  /** The destination holds the host's file. */
  ghost predicate Whole(w: Setting, n: View, path: string) {
    path in w.shared && Basename(path) in n.files && n.files[Basename(path)] == w.shared[path]
  }

  /** hget succeeds. */
  ghost predicate Reports(w: Setting, v: View, path: string)
    requires Sound(w, v)
  {
    Begins(w, path) && (w.cpu == V1 ==> path in w.shared && |Rest(w, v, path)| <= w.room(Basename(path)))
  }

  /** When hget reports success, and when that means the whole file: on type v1 if the host was at
      the file's beginning, on other types if the host's file is empty. */
  lemma SuccessIsWholeIff(w: Setting, v: View, path: string)
    requires Sound(w, v)
    ensures var (n, ret) := Hget(w, v, path);
            && (ret == 0 <==> Reports(w, v, path))
            && (Reports(w, v, path) ==>
                  (Whole(w, n, path) <==>
                     path in w.shared && if w.cpu == V1 then v.cursors[path] == 0 else w.shared[path] == []))
  {
    hide Basename;
    if Begins(w, path) {
      TransferIsExact(w, v, Basename(path), path);
    }
  }

  /** The host's whole file arrives exactly when the destination has room and the host starts
      at the beginning, as it does unless an earlier transfer of the file was cut short. */
  lemma WholeFileIff(w: Setting, v: View, path: string)
    requires Sound(w, v) && w.cpu == V1 && path in w.shared && Begins(w, path)
    ensures var (n, ret) := Hget(w, v, path);
            Whole(w, n, path) <==> v.cursors[path] == 0 && |w.shared[path]| <= w.room(Basename(path))
  {
    var c, file := v.cursors[path], w.shared[path];
    if c == 0 {
      assert file[c..] == file;
    }
  }

  // ---------------------------------------------------------------- the host's read positions

  /** How far a transfer that is cut short moves the read position: by whole requests. */
  function Stride(room: nat): (k: nat)
    ensures k > room
  {
    (room / SCRATCH + 1) * SCRATCH
  }

  function NextCursor(size: nat, room: nat, c: nat): nat
    requires c <= size
  {
    if Stride(room) <= size - c then c + Stride(room) else 0
  }

  /** What a transfer does to the host's read positions. */
  lemma CursorsAfter(w: Setting, v: View, path: string)
    requires Sound(w, v)
    ensures Hget(w, v, path).0.cursors ==
            if w.cpu == V1 && path in w.shared && Begins(w, path)
            then v.cursors[path := NextCursor(|w.shared[path]|, w.room(Basename(path)), v.cursors[path])]
            else v.cursors
  {
    hide Basename;
    if w.cpu == V1 && path in w.shared && Begins(w, path) {
      WholeRequests(|Rest(w, v, path)|, w.room(Basename(path)));
    }
  }

  lemma WholeRequests(left: nat, room: nat)
    ensures var requests := Min(left, room) / SCRATCH + 1;
            && (requests * SCRATCH <= left <==> Stride(room) <= left)
            && (Stride(room) <= left ==> requests * SCRATCH == Stride(room))
  {
    if left <= room {
      assert (left / SCRATCH + 1) * SCRATCH > left;
    }
  }

  /** A rewound host stays so, unless the transfer is cut short with a request or more of the file
      still to come. */
  lemma LeavesRewoundIff(w: Setting, v: View, path: string)
    requires Rewound(w, v)
    ensures Rewound(w, Hget(w, v, path).0) <==>
            !(w.cpu == V1 && path in w.shared && Begins(w, path) && Stride(w.room(Basename(path))) <= |w.shared[path]|)
  {
    hide Basename, Hget, Stride;
    CursorsAfter(w, v, path);
    HgetStaysSound(w, v, path);
  }

  // One call of hget: its argument, and what its destination is like by then. An earlier call may
  // have gone to another directory, or have found less space.
  datatype Fetch = Fetch(path: string, room: string -> nat, denied: string -> nat)

  function At(w: Setting, c: Fetch): Setting { w.(room := c.room, denied := c.denied) }

  /** Any calls, one after another, whether they succeed or not. */
  function HgetEach(w: Setting, v: View, calls: seq<Fetch>): (n: View)
    requires Sound(w, v)
    ensures Sound(w, n)
    decreases |calls|
  {
    if calls == [] then v
    else
      HgetStaysSound(At(w, calls[0]), v, calls[0].path);
      HgetEach(w, Hget(At(w, calls[0]), v, calls[0].path).0, calls[1..])
  }

  /** The read position is a whole number of requests into the file. */
  ghost predicate OnChunk(v: View, path: string, q: nat)
    requires path in v.cursors
  {
    v.cursors[path] == q * SCRATCH
  }

  lemma {:induction false} HistoryIsOnChunk(w: Setting, v: View, calls: seq<Fetch>, path: string, q: nat)
    returns (r: nat)
    requires Sound(w, v) && path in w.shared && OnChunk(v, path, q)
    ensures OnChunk(HgetEach(w, v, calls), path, r)
    decreases |calls|
  {
    hide Hget, Basename;
    r := q;
    if calls != [] {
      var u, f := At(w, calls[0]), calls[0].path;
      var n := Hget(u, v, f).0;
      HgetStaysSound(u, v, f);
      CursorsAfter(u, v, f);
      var k := u.room(Basename(f)) / SCRATCH + 1;
      var p := if n.cursors[path] == v.cursors[path] then q else if n.cursors[path] == 0 then 0 else q + k;
      r := HistoryIsOnChunk(w, n, calls[1..], path, p);
    }
  }

  function NoRoom(path: string): Fetch { Fetch(path, _ => 0, _ => 0) }

  /** A file fetched again and again to where there is no room: each time one request further. */
  lemma {:induction false} FullDiskMovesOn(w: Setting, v: View, path: string, q: nat, m: nat)
    requires Sound(w, v) && w.cpu == V1 && path in w.shared && |path| < NAME_SIZE && OnChunk(v, path, q)
    requires (q + m) * SCRATCH <= |w.shared[path]|
    ensures OnChunk(HgetEach(w, v, Repeat(NoRoom(path), m)), path, q + m)
    decreases m
  {
    hide Hget, Basename;
    if m > 0 {
      var u := At(w, NoRoom(path));
      HgetStaysSound(u, v, path);
      CursorsAfter(u, v, path);
      assert Repeat(NoRoom(path), m)[1..] == Repeat(NoRoom(path), m - 1);
      FullDiskMovesOn(w, Hget(u, v, path).0, path, q + 1, m - 1);
    }
  }

  /** If hget succeeds after these calls, the whole file is there. */
  ghost predicate SuccessIsWhole(w: Setting, v: View, history: seq<Fetch>, path: string)
    requires Rewound(w, v)
  {
    var n := HgetEach(w, v, history);
    var (m, ret) := Hget(w, n, path);
    ret == 0 ==> Whole(w, m, path)
  }

  /** On whatever a caller has fetched before from a rewound host, and wherever to, the success of
      hget means that the whole file is there, exactly for the files that are shorter than a
      request, and those whose last part behind whole requests has no room; for any other file
      some history ends in a success that has delivered its last part alone. */
  lemma SuccessIsWholeOnHistoriesIff(w: Setting, v: View, path: string)
    requires Rewound(w, v) && w.cpu == V1 && path in w.shared && Begins(w, path)
    ensures var size, room := |w.shared[path]|, w.room(Basename(path));
            (forall history :: SuccessIsWhole(w, v, history, path)) <==> size < SCRATCH || size % SCRATCH > room
  {
    hide Hget, HgetEach, Basename;
    var size, room := |w.shared[path]|, w.room(Basename(path));
    RewoundIsSound(w, v);
    assert OnChunk(v, path, 0);
    if size < SCRATCH || size % SCRATCH > room {
      forall history
        ensures SuccessIsWhole(w, v, history, path)
      {
        var q := HistoryIsOnChunk(w, v, history, path, 0);
        SuccessIsWholeIff(w, HgetEach(w, v, history), path);
      }
    } else {
      var history := Repeat(NoRoom(path), size / SCRATCH);
      FullDiskMovesOn(w, v, path, 0, size / SCRATCH);
      SuccessIsWholeIff(w, HgetEach(w, v, history), path);
      assert !SuccessIsWhole(w, v, history, path);
    }
  }

  /** For instance: of a file one byte longer than a request, into room for seven bytes, the first
      transfer fails and the second succeeds, with the last byte alone; wherever the second goes, even
      where there is room for all of the file. */
  lemma RetryDeliversTail(w: Setting, v: View, path: string, again: Setting)
    requires Rewound(w, v) && w.cpu == V1 && path in w.shared && Begins(w, path)
    requires |w.shared[path]| == 0x10_0001 && w.room(Basename(path)) == 7
    requires again == w.(room := again.room, denied := again.denied) && Begins(again, path)
    requires again.room(Basename(path)) > 0
    ensures var (first, failure) := Hget(w, v, path);
            && failure == -EIO && Sound(again, first)
            && var (second, success) := Hget(again, first, path);
               && success == 0 && Basename(path) in second.files
               && second.files[Basename(path)] == w.shared[path][0x10_0000..]
  {
    hide Basename;
    var (first, failure) := Hget(w, v, path);
    SuccessIsWholeIff(w, v, path);
    CursorsAfter(w, v, path);
    HgetStaysSound(w, v, path);
    assert Stride(7) == 0x10_0000 && first.cursors[path] == 0x10_0000;
    SuccessIsWholeIff(again, first, path);
    TransferIsExact(again, first, Basename(path), path);
  }

  /** Such a host and guest. */
  lemma RetryHappens(b: byte) returns (w: Setting, v: View, path: string, again: Setting)
    ensures Rewound(w, v) && w.cpu == V1 && path in w.shared && Begins(w, path)
    ensures |w.shared[path]| == 0x10_0001 && w.room(Basename(path)) == 7
    ensures again == w.(room := again.room, denied := again.denied) && Begins(again, path)
    ensures again.room(Basename(path)) == 0x10_0001
  {
    hide Basename;
    path := "f";
    w := Setting(V1, map[path := seq(0x10_0001, _ => b)], (_: string) => 7, (_: string) => 0);
    v := View(map[], map[path := 0], []);
    again := w.(room := (_: string) => 0x10_0001);
  }

  // ---------------------------------------------------------------- sequences of transfers

  /** cmd_hget()'s loop over its arguments, up to the first that fails. */
  function HgetAll(w: Setting, v: View, paths: seq<string>): (View, int)
    requires Sound(w, v)
    decreases |paths|
  {
    if paths == [] then (v, 0)
    else
      HgetStaysSound(w, v, paths[0]);
      var (n, ret) := Hget(w, v, paths[0]);
      if ret != 0 then (n, ret) else HgetAll(w, n, paths[1..])
  }

  /** What the guest and the host are left with by fetches one after another, whatever comes of them. */
  function Behind(w: Setting, v: View, paths: seq<string>): (n: View)
    requires Sound(w, v)
    ensures Sound(w, n)
    decreases |paths|
  {
    if paths == [] then v
    else
      HgetStaysSound(w, v, paths[0]);
      Behind(w, Hget(w, v, paths[0]).0, paths[1..])
  }

  /** The k-th of these fetches succeeds. */
  ghost predicate Fetched(w: Setting, v: View, paths: seq<string>, k: nat)
    requires Sound(w, v) && k < |paths|
  {
    Hget(w, Behind(w, v, paths[..k]), paths[k]).1 == 0
  }

  /** A command that fetches several files succeeds if and only if each fetch does, from what the
      earlier ones have left. Otherwise it ends with the first fetch that does not: with its result,
      and with what it has left, so that no later file is asked for. */
  lemma {:induction false} HgetAllIs(w: Setting, v: View, paths: seq<string>) returns (k: nat)
    requires Sound(w, v)
    ensures k <= |paths| && forall j :: 0 <= j < k ==> Fetched(w, v, paths, j)
    ensures var (n, ret) := HgetAll(w, v, paths);
            && (ret == 0 <==> forall j :: 0 <= j < |paths| ==> Fetched(w, v, paths, j))
            && (ret == 0 ==> n == Behind(w, v, paths))
            && (ret != 0 ==> k < |paths| && (n, ret) == Hget(w, Behind(w, v, paths[..k]), paths[k]))
    decreases |paths|
  {
    hide Hget;
    k := 0;
    if paths != [] {
      assert paths[..0] == [];
      assert Fetched(w, v, paths, 0) <==> Hget(w, v, paths[0]).1 == 0;
      var n, rest := Hget(w, v, paths[0]).0, paths[1..];
      HgetStaysSound(w, v, paths[0]);
      if Hget(w, v, paths[0]).1 == 0 {
        k := HgetAllIs(w, n, rest);
        k := k + 1;
        forall j | 1 <= j < |paths|
          ensures Behind(w, v, paths[..j]) == Behind(w, n, rest[..j - 1])
          ensures Fetched(w, v, paths, j) <==> Fetched(w, n, rest, j - 1)
        {
          assert paths[..j][1..] == rest[..j - 1] && rest[j - 1] == paths[j];
        }
        assert forall j :: 0 <= j < |rest| && Fetched(w, v, paths, j + 1) ==> Fetched(w, n, rest, j);
      }
    }
  }

  /** Which error a fetch fails with, in the order in which they are met. */
  lemma HgetFailsWith(w: Setting, v: View, path: string)
    requires Sound(w, v)
    ensures var (n, ret) := Hget(w, v, path);
            && (|path| >= 256 ==> ret == -36 && n == v)
            && (|path| < 256 && w.denied(Basename(path)) != 0 ==> ret == w.denied(Basename(path)) && n == v)
            && (Begins(w, path) ==> ret in {0, -5})
            && (Begins(w, path) && w.cpu == V1 && path !in w.shared ==>
                  ret == -5 && n == View(v.files[Basename(path) := []], v.cursors, v.names + [path]))
  {
    hide Basename;
  }

  lemma HgetStaysSound(w: Setting, v: View, path: string)
    requires Sound(w, v)
    ensures Sound(w, Hget(w, v, path).0)
  {
    if w.cpu == V1 && path in w.shared {
      var data := Rest(w, v, path);
      var requests := Min(|data|, w.room(Basename(path))) / SCRATCH + 1;
      var cursor: nat := if requests * SCRATCH <= |data| then v.cursors[path] + requests * SCRATCH else 0;
      assert cursor <= |w.shared[path]|;
    }
  }

  /** The host starts every file at its beginning. */
  ghost predicate Rewound(w: Setting, v: View) {
    Sound(w, v) && forall f :: f in w.shared ==> v.cursors[f] == 0
  }

  /** Nothing stands in the way of fetching this file whole. */
  ghost predicate Fetchable(w: Setting, path: string) {
    path in w.shared && Begins(w, path) && |w.shared[path]| <= w.room(Basename(path))
  }

  /** The names that the host is asked for when all these files exist. */
  function AllNames(w: Setting, paths: seq<string>): seq<string> {
    if paths == [] then []
    else
      (if paths[0] in w.shared then Repeat(paths[0], |w.shared[paths[0]]| / SCRATCH + 1) else []) +
      AllNames(w, paths[1..])
  }

  lemma FetchOne(w: Setting, v: View, path: string)
    requires Rewound(w, v) && w.cpu == V1 && Fetchable(w, path)
    ensures var (n, ret) := Hget(w, v, path);
            && ret == 0 && Rewound(w, n)
            && n.files == v.files[Basename(path) := w.shared[path]]
            && n.names == v.names + Repeat(path, |w.shared[path]| / SCRATCH + 1)
  {
    var data := Rest(w, v, path);
    assert data == w.shared[path] && data[..|data|] == data;
  }

  /** Files copied one after another, each under its base name. */
  function Copied(files: map<string, seq<byte>>, shared: map<string, seq<byte>>, paths: seq<string>)
      : map<string, seq<byte>>
    requires forall p :: p in paths ==> p in shared
    decreases |paths|
  {
    if paths == [] then files
    else Copied(files[Basename(paths[0]) := shared[paths[0]]], shared, paths[1..])
  }

  lemma {:induction false} CopiedKeeps(
    files: map<string, seq<byte>>, shared: map<string, seq<byte>>,
    paths: seq<string>, f: string)
    requires forall p :: p in paths ==> p in shared && Basename(p) != f
    ensures f in Copied(files, shared, paths) <==> f in files
    ensures f in files ==> Copied(files, shared, paths)[f] == files[f]
    decreases |paths|
  {
    hide Basename;
    if paths != [] {
      CopiedKeeps(files[Basename(paths[0]) := shared[paths[0]]], shared, paths[1..], f);
    }
  }

  /** Of the paths with a given base name the last one wins. */
  lemma {:induction false} CopiedLastWins(
    files: map<string, seq<byte>>, shared: map<string, seq<byte>>,
    paths: seq<string>, i: nat)
    requires forall p :: p in paths ==> p in shared
    requires i < |paths| && forall p :: p in paths[i + 1..] ==> Basename(p) != Basename(paths[i])
    ensures var f := Basename(paths[i]);
            f in Copied(files, shared, paths) && Copied(files, shared, paths)[f] == shared[paths[i]]
    decreases |paths|
  {
    hide Basename;
    var rest, files' := paths[1..], files[Basename(paths[0]) := shared[paths[0]]];
    if i == 0 {
      CopiedKeeps(files', shared, rest, Basename(paths[0]));
    } else {
      assert rest[i - 1] == paths[i] && rest[i - 1 + 1..] == paths[i + 1..];
      CopiedLastWins(files', shared, rest, i - 1);
    }
  }

  /** A fetch that succeeds leaves the host rewound, so that one fetch after another gets whole
      files, any file as often as it is asked for, and the host is asked for each name in turn. */
  lemma {:induction false} BatchFetchesWholeFiles(w: Setting, v: View, paths: seq<string>)
    requires Rewound(w, v) && w.cpu == V1
    requires forall p :: p in paths ==> p in w.shared && Fetchable(w, p)
    ensures var (n, ret) := HgetAll(w, v, paths);
            && ret == 0 && Rewound(w, n)
            && n.names == v.names + AllNames(w, paths)
            && n.files == Copied(v.files, w.shared, paths)
    decreases |paths|
  {
    hide Basename, Hget, Rewound, Fetchable, Repeat;
    RewoundIsSound(w, v);
    if paths == [] {
      assert v.names + AllNames(w, paths) == v.names;
    } else {
      var path, rest := paths[0], paths[1..];
      assert path in paths;
      var (m, ret) := Hget(w, v, path);
      FetchOne(w, v, path);
      BatchFetchesWholeFiles(w, m, rest);
      RewoundIsSound(w, m);
      assert m.names + AllNames(w, rest) == v.names + AllNames(w, paths);
    }
  }

  lemma RewoundIsSound(w: Setting, v: View)
    requires Rewound(w, v)
    ensures Sound(w, v)
  {
  }

  ghost predicate OnHost(dumps: map<string, seq<byte>>, name: string, file: seq<byte>) {
    name in dumps && dumps[name] == file
  }

  /** What a file of the guest holds, if it exists. */
  function Content(files: map<string, seq<byte>>, f: string): seq<byte> {
    if f in files then files[f] else []
  }

  /** What is in the destination's place once a transfer is over, whatever came of it. */
  lemma ArrivedIs(w: Setting, v: View, path: string)
    requires Sound(w, v) && path in w.shared
    ensures var got := Content(Hget(w, v, path).0.files, Basename(path));
            got ==
            if !Begins(w, path) then Content(v.files, Basename(path))
            else if w.cpu != V1 then []
            else Rest(w, v, path)[..Min(|Rest(w, v, path)|, w.room(Basename(path)))]
  {
    hide Basename;
  }

  /** A file that is fetched, and what then stands in its place pushed under any name, whatever the
      chunks in which it is read back, from any state of the host and the guest: it is on the host
      as it was if it has content, fits, and was read from its beginning on type v1. If nothing
      has arrived, nothing is pushed, and the name keeps what it had; and anything else that has
      arrived is on the host instead. */
  lemma RoundTrip(w: Setting, v: View, path: string, dumps: map<string, seq<byte>>, name: string, plan: seq<int>)
    requires Sound(w, v) && path in w.shared && -1 !in plan
    ensures var file, got := w.shared[path], Content(Hget(w, v, path).0.files, Basename(path));
            var p := Pushing(name, got, 0, plan, false, Push(dumps, [], false));
            && !p.failed
            && (if got == [] then p.dumps == dumps else OnHost(p.dumps, name, got))
            && (Begins(w, path) ==>
                  (OnHost(p.dumps, name, file) <==>
                     (w.cpu == V1 && v.cursors[path] == 0 && 0 < |file| <= w.room(Basename(path)))
                     || (got == [] && OnHost(dumps, name, file))))
            && forall f :: f != name ==> (f in p.dumps <==> f in dumps) && (f in dumps ==> p.dumps[f] == dumps[f])
  {
    hide Basename, Hget, Pushing;
    var file, got := w.shared[path], Content(Hget(w, v, path).0.files, Basename(path));
    ArrivedIs(w, v, path);
    var end, chunks := PushingDelivers(name, got, 0, plan, false, Push(dumps, [], false));
    assert got[0..end] == got && [] + got == got;
    if w.cpu == V1 && v.cursors[path] == 0 {
      assert Rest(w, v, path) == file && file[..|file|] == file;
    }
  }

  /** A file opened for reading. Each entry of plan governs one read(): -1 fails, any other
      value is the most the read returns; without entries reads return all they can. */
  class InFile {
    const data: seq<byte>
    var pos: nat
    var plan: seq<int>

    constructor (data: seq<byte>, plan: seq<int>)
      ensures this.data == data && pos == 0 && this.plan == plan
    {
      this.data, pos, this.plan := data, 0, plan;
    }

    ghost predicate Valid() reads `pos { pos <= |data| }

    /** read(fd, buffer, size). A read that neither fails nor meets the end returns at least one byte. */
    method Read(mem: array<byte>, at: nat, size: nat) returns (n: int)
      requires Valid() && size > 0 && at + size <= mem.Length
      modifies this, mem
      ensures Valid() && plan == Tail(old(plan))
      ensures ReadFails(old(plan)) ==> n == -1 && pos == old(pos)
      ensures !ReadFails(old(plan)) ==>
                && n == ReadSize(old(plan), size, |data| - old(pos))
                && pos == old(pos) + n && mem[at..at + n] == data[old(pos)..pos]
    {
      n := ReadSize(plan, size, |data| - pos);
      if plan != [] {
        var x := plan[0];
        plan := plan[1..];
        if x == -1 {
          return -1;
        }
      }
      var chunk := data[pos..pos + n];
      forall j | 0 <= j < n {
        mem[at + j] := chunk[j];
      }
      pos := pos + n;
    }
  }

  // ---------------------------------------------------------------- the library

  class Agent {
    const host: Host
    const fileName: array<char>     // static req_file.file_name
    const addresses: array<nat>     // static req_file.addresses
    var numAddresses: nat           // static req_file.num_addresses
    const printBuffer: array<char>  // static hprintf_buffer
    const mem: array<byte>          // memory that malloc_resident_pages() hands out, at scratch
    const scratch: nat
    var cpu: CpuType
    var files: map<string, seq<byte>>   // the guest's file system
    const room: string -> nat           // the largest size each file can reach
    const denied: string -> nat         // errno of creat() for each name, 0 where it succeeds

    /** A process that has just been started: its static buffers are zero. */
    constructor (
      host: Host, mem: array<byte>, scratch: nat, files: map<string, seq<byte>>, room: string -> nat,
      denied: string -> nat)
      requires host.Valid() && scratch + SCRATCH <= mem.Length
      ensures Valid() && cpu == Invalid && fresh(fileName) && fresh(addresses) && fresh(printBuffer)
      ensures this.host == host && this.mem == mem && this.scratch == scratch && this.files == files
      ensures this.room == room && this.denied == denied
      ensures forall i :: 0 <= i < HPRINTF_MAX_SIZE ==> printBuffer[i] == NUL
    {
      this.host, this.mem, this.scratch, this.files, this.room, this.denied := host, mem, scratch, files, room, denied;
      fileName := new char[NAME_SIZE](_ => NUL);
      addresses := new nat[479](_ => 0);
      printBuffer := new char[HPRINTF_MAX_SIZE](_ => NUL);
      numAddresses := 0;
      cpu := Invalid;
    }

    ghost predicate Valid()
      reads host`cursors
    {
      && host.Valid()
      && fileName.Length == NAME_SIZE && addresses.Length == 479 && printBuffer.Length == HPRINTF_MAX_SIZE
      && fileName != printBuffer && addresses as object != mem
      && scratch + SCRATCH <= mem.Length
    }

    /** get_nyx_cpu_type(): ask CPUID once and remember the answer. */
    method GetNyxCpuType(brand: Brand) returns (r: CpuType)
      modifies `cpu
      ensures cpu == r == Detected(old(cpu), brand) && r != Invalid
    {
      if cpu == Invalid {
        ClassifiedBy(brand);
        cpu := Classify(brand);
      }
      r := cpu;
    }

    /** hrange_submit(), through hypercall() */
    method HrangeSubmit(id: nat, start: uint64, end: uint64)
      requires cpu != Invalid
      modifies host`ranges
      ensures host.ranges == old(host.ranges) + if cpu == V1 then [Range(id, start, end)] else []
    {
      if cpu == V1 {
        host.SubmitRange(Range(id, start, end));
      }
    }

    /** hypercall() for the hypercalls that are only recorded, and for the abort */
    method Place(h: Hypercall)
      requires cpu != Invalid
      modifies host`calls, host`aborted
      ensures host.calls == if cpu == V1 && h != UserAbort then old(host.calls) + [h] else old(host.calls)
      ensures host.aborted == (old(host.aborted) || (cpu == V1 && h == UserAbort))
    {
      if cpu == V1 {
        if h == UserAbort {
          host.Abort();
        } else {
          host.Record(h);
        }
      }
    }

    /** check_host_magic(): a host that is not asked is not compatible. */
    method CheckHostMagic() returns (ret: int)
      requires cpu != Invalid
      modifies host`calls, host`aborted
      ensures ret == 0 <==>
              cpu == V1 && host.config.magic == NYX_HOST_MAGIC && host.config.version == NYX_HOST_VERSION
      ensures ret in {0, -1}
      ensures host.calls == if cpu == V1 then old(host.calls) + [GetHostConfig] else old(host.calls)
      ensures host.aborted == old(host.aborted)
    {
      var magic, version := 0, 0;
      Place(GetHostConfig);
      if cpu == V1 {
        magic, version := host.config.magic, host.config.version;
      }
      ret := if magic != NYX_HOST_MAGIC || version != NYX_HOST_VERSION then -1 else 0;
    }

    /** strcpy() into the request; what lies behind the terminator stays. */
    method CopyName(s: string)
      requires Valid() && |s| < NAME_SIZE && NUL !in s
      modifies fileName
      ensures CString(fileName[..]) == s
      ensures fileName[|s| + 1..] == old(fileName[|s| + 1..])
    {
      forall i | 0 <= i < |s| {
        fileName[i] := s[i];
      }
      fileName[|s|] := NUL;
      assert fileName[..] == s + [NUL] + fileName[|s| + 1..];
      CStringOf(s, fileName[|s| + 1..]);
    }

    method ListPages()
      requires Valid()
      modifies this`numAddresses, addresses
      ensures numAddresses == BULK_PAGES && addresses[..BULK_PAGES] == Consecutive(scratch, BULK_PAGES)
    {
      for i := 0 to BULK_PAGES
        modifies addresses
        invariant forall j :: 0 <= j < i ==> addresses[j] == scratch + j * PAGE_SIZE
      {
        addresses[i] := scratch + i * PAGE_SIZE;
      }
      numAddresses := BULK_PAGES;
    }

    /** write() to a regular file: short when the file can take only part, -1 when it can
        take nothing of what there is. */
    method Write(f: string, data: seq<byte>) returns (n: int)
      requires f in files && |files[f]| <= room(f)
      modifies `files
      ensures var k := Min(|data|, room(f) - |old(files)[f]|);
              && n == (if k == 0 && data != [] then -1 else k)
              && files == old(files)[f := old(files)[f] + data[..k]]
    {
      var k := Min(|data|, room(f) - |files[f]|);
      n := if k == 0 && data != [] then -1 else k;
      files := files[f := files[f] + data[..k]];
    }

    /** The static request asks for path, into the scratch buffer. */
    ghost predicate Requesting(path: string)
      reads this, fileName, addresses
    {
      && fileName.Length == NAME_SIZE && addresses.Length == 479
      && CString(fileName[..]) == path
      && numAddresses == BULK_PAGES && addresses[..BULK_PAGES] == Consecutive(scratch, BULK_PAGES)
    }

    ghost function Setup(): Setting
      reads this
    {
      Setting(cpu, host.shared, room, denied)
    }

    ghost function Now(): View
      reads this, host
    {
      View(files, host.cursors, host.names)
    }

    /** A bulk request through hypercall(), which only reaches the host on type v1. */
    method RequestChunk(ghost path: string) returns (read: nat)
      requires Valid() && Requesting(path) && cpu != Invalid
      modifies mem, host`cursors, host`names
      ensures Valid() && Requesting(path)
      ensures cpu != V1 ==> read == 0 && host.cursors == old(host.cursors) && host.names == old(host.names)
      ensures cpu == V1 ==> host.names == old(host.names) + [path]
      ensures cpu == V1 && path !in host.shared ==> read == NO_FILE && host.cursors == old(host.cursors)
      ensures cpu == V1 && path in host.shared ==>
                var rest := host.shared[path][old(host.cursors)[path]..];
                && read == Min(|rest|, SCRATCH) && mem[scratch..scratch + read] == rest[..read]
                && host.cursors == old(host.cursors)[
                     path := if read < SCRATCH then 0 else old(host.cursors)[path] + read]
    {
      ConsecutiveIsContiguous(mem[..], scratch, BULK_PAGES, 0);
      if cpu == V1 {
        read := host.StreamBulk(fileName, addresses, numAddresses, mem);
        if read != NO_FILE {
          ConsecutiveIsContiguous(mem[..], scratch, BULK_PAGES, read);
        }
      } else {
        read := 0;
      }
    }

    /** One turn of hget_file()'s loop: a request, and the write of what it brought. */
    method FetchChunk(dst: string, ghost path: string) returns (read: nat, ok: bool)
      requires Valid() && Requesting(path) && cpu != Invalid && dst in files && |files[dst]| <= room(dst)
      modifies this`files, mem, host`cursors, host`names
      ensures Valid() && Requesting(path)
      ensures (Now(), read, ok) == Turn(Setup(), old(Now()), dst, path)
    {
      ghost var w, v := Setup(), Now();
      read := RequestChunk(path);
      if read == NO_FILE {
        return read, false;
      }
      var chunk := mem[scratch..scratch + read];
      ghost var k := Min(read, room(dst) - |files[dst]|);
      if cpu == V1 {
        assert chunk[..k] == Rest(w, v, path)[..k];
        assert v.names + Repeat(path, 1) == v.names + [path];
      } else {
        assert v.files[dst] + chunk[..k] == v.files[dst] && v.files[dst := v.files[dst]] == v.files;
      }
      hide Requesting, Valid, Repeat;
      var n := Write(dst, chunk);
      ok := read == n;
    }

    /** hget_file()'s loop, into the file just created. */
    method Transfer(dst: string, ghost path: string) returns (ret: int)
      requires Valid() && Requesting(path) && cpu != Invalid && dst in files && files[dst] == []
      modifies this`files, mem, host`cursors, host`names
      ensures Valid() && (Now(), ret) == Transferred(Setup(), old(Now()), dst, path)
    {
      ret := 0;
      ghost var w, v := Setup(), Now();
      ghost var streaming := cpu == V1 && path in host.shared;
      ghost var data, c := [], 0;
      if streaming {
        data, c := Rest(w, v, path), host.cursors[path];
        assert v == Apply(v, dst, path, AtHead(data, c, 0, 0));
      }
      assert v.files[dst := []] == v.files;
      ghost var chunks := 0;
      var written: nat := 0;
      while true
        modifies this`files, mem, host`cursors, host`names
        invariant Valid() && Requesting(path)
        invariant WholeChunks(chunks, written) && written <= |data| && written <= room(dst)
        invariant Now() == if streaming then Apply(v, dst, path, AtHead(data, c, chunks, written)) else v
        decreases |data| - written
      {
        hide WholeChunks, Repeat, Consecutive, CString;
        if streaming {
          TurnFromHead(w, v, dst, path, chunks, written);
        }
        var read, ok := FetchChunk(dst, path);
        if !ok {
          ret := -EIO;
          break;
        }
        written := written + read;
        if read != SCRATCH {
          break;
        }
        chunks := chunks + 1;
      }
    }

    /** hget_file(): fetch a file of the shared directory in bulk. */
    method HgetFile(srcPath: string) returns (ret: int)
      requires Valid() && NUL !in srcPath && cpu != Invalid
      modifies this`files, this`numAddresses, fileName, addresses, mem, host`cursors, host`names
      ensures Valid() && (Now(), ret) == Hget(Setup(), old(Now()), srcPath)
    {
      ListPages();
      if |srcPath| < NAME_SIZE {
        CopyName(srcPath);
      } else {
        return -ENAMETOOLONG;
      }
      var dst := Basename(srcPath);
      if denied(dst) != 0 {
        return denied(dst);
      }
      ghost var w, v := Setup(), Now();
      files := files[dst := []];
      TransferOverwrites(w, v, dst, srcPath);
      ret := Transfer(dst, srcPath);
    }

    /** What hpush_file()'s loop comes to from where the source stands, with this flag. */
    ghost function ToPush(src: InFile, dstName: string, append: bool): Push
      requires src.Valid()
      reads src, host`dumps, host`flags
    {
      Pushing(dstName, src.data, src.pos, src.plan, append, Push(host.dumps, host.flags, false))
    }

    /** One turn of the loop: a chunk is sent, or nothing is left to do. */
    method PushChunk(src: InFile, dstName: string, append: bool) returns (bytes: int)
      requires Valid() && src.Valid() && !host.aborted
      modifies src, mem, host`dumps, host`flags, host`aborted
      ensures src.Valid()
      ensures bytes > 0 ==>
                && !host.aborted && src.pos > old(src.pos)
                && ToPush(src, dstName, true) == old(ToPush(src, dstName, append))
      ensures bytes <= 0 ==> Push(host.dumps, host.flags, host.aborted) == old(ToPush(src, dstName, append))
    {
      PushingStep(dstName, src.data, src.pos, src.plan, append, Push(host.dumps, host.flags, false));
      ReadSizeRange(src.plan, SCRATCH, |src.data| - src.pos);
      hide Pushing, Dumped, ReadSize, ReadFails, Tail;
      bytes := src.Read(mem, scratch, SCRATCH);
      if bytes == -1 {
        host.Abort();
      } else if bytes > 0 {
        var chunk := mem[scratch..scratch + bytes];
        assert chunk == src.data[old(src.pos)..src.pos];
        host.DumpFile(dstName, chunk, append);
      }
    }

    /** hpush_file()'s loop: every chunk but the first is appended. */
    method PushChunks(src: InFile, dstName: string, append: bool)
      requires Valid() && src.Valid() && !host.aborted
      modifies src, mem, host`dumps, host`flags, host`aborted
      ensures Push(host.dumps, host.flags, host.aborted) == old(ToPush(src, dstName, append))
    {
      var putAppend := append;
      var bytes := 1;
      while bytes > 0
        invariant src.Valid()
        invariant bytes > 0 ==> !host.aborted && ToPush(src, dstName, putAppend) == old(ToPush(src, dstName, append))
        invariant bytes <= 0 ==> Push(host.dumps, host.flags, host.aborted) == old(ToPush(src, dstName, append))
        decreases bytes > 0, |src.data| - src.pos
      {
        hide ToPush;
        bytes := PushChunk(src, dstName, putAppend);
        putAppend := true;
      }
    }

    /** hpush_file(): send a file of the guest to the host's dump directory. kAFL_hypercall() is called
        directly, on every CPU type. errno is that of open() or of the buffer's allocation, 0 if
        both succeed. */
    method HpushFile(src: InFile, errno: nat, dstName: string, append: bool) returns (ret: int)
      requires Valid() && src.Valid() && src.pos == 0 && !host.aborted
      modifies src, mem, host`dumps, host`flags, host`aborted
      ensures ret == errno
      ensures var before := Push(old(host.dumps), old(host.flags), false);
              Push(host.dumps, host.flags, host.aborted) ==
              if errno != 0 then before else Pushing(dstName, src.data, 0, old(src.plan), append, before)
    {
      ret := errno;
      if errno == 0 {
        PushChunks(src, dstName, append);
      }
    }

    /** fread() of one buffer's size into the static buffer. */
    method ReadPage(stream: seq<char>, at: nat) returns (read: nat)
      requires Valid() && at <= |stream|
      modifies printBuffer
      ensures read == Min(HPRINTF_MAX_SIZE, |stream| - at)
      ensures printBuffer[..] == Page(old(printBuffer[..]), stream[at..at + read])
    {
      read := Min(HPRINTF_MAX_SIZE, |stream| - at);
      forall i | 0 <= i < read {
        printBuffer[i] := stream[at + i];
      }
    }

    /** One turn of hprintf_from_file()'s loop: a buffer is read, and shown unless the read fails. */
    method ShowPage(stream: seq<char>, at: nat, broken: bool) returns (read: nat, eof: bool)
      requires Valid() && cpu != Invalid && at <= |stream|
      modifies printBuffer, host`prints
      ensures read == Min(HPRINTF_MAX_SIZE, |stream| - at) && eof == (read < HPRINTF_MAX_SIZE)
      ensures printBuffer[..] == Page(old(printBuffer[..]), stream[at..at + read])
      ensures host.prints == old(host.prints) + if cpu != V1 || (eof && broken) then [] else [printBuffer[..]]
    {
      hide Page;
      read := ReadPage(stream, at);
      eof := read < HPRINTF_MAX_SIZE;
      if cpu == V1 && !(eof && broken) {
        host.Print(printBuffer[..]);
      }
    }

    /** hprintf_from_file(): stream a file to the console, one buffer per hypercall. The stream
        ends either at the end of the file or, if `broken`, at a read error. */
    method HprintfFromFile(stream: seq<char>, broken: bool) returns (ret: int)
      requires Valid() && cpu != Invalid
      modifies printBuffer, host`prints
      ensures ret == if broken then -1 else |stream|
      ensures var pages := PagesOnto([], old(printBuffer[..]), stream);
              && host.prints == old(host.prints) +
                 (if cpu != V1 then [] else if broken then pages[..|pages|-1] else pages)
              && printBuffer[..] == pages[|pages|-1]
    {
      ghost var pages := PagesOnto([], printBuffer[..], stream);
      ghost var done: seq<seq<char>> := [];
      ghost var before := host.prints;
      var written := 0;
      var eof := false;
      while !eof
        invariant written <= |stream| && (eof ==> written == |stream| && !broken)
        invariant !eof ==> pages == PagesOnto(done, printBuffer[..], stream[written..])
        invariant eof ==> done == pages && printBuffer[..] == pages[|pages|-1]
        invariant host.prints == before + if cpu == V1 then done else []
        decreases !eof, |stream| - written
      {
        hide PagesOnto, Page;
        PagesOntoStep(done, printBuffer[..], stream, written);
        var read;
        read, eof := ShowPage(stream, written, broken);
        if eof && broken {
          return -1;
        }
        done := done + [printBuffer[..]];
        written := written + read;
      }
      return written;
    }
  }

  /** What the tool's own test does with each of its files: fetch it, and push what then stands in
      its place. From any state, and whatever the chunks in which it is read back: it is on the
      host again as it was if it has content, fits, and was read from its beginning on type v1. */
  method FetchAndPush(agent: Agent, path: string, plan: seq<int>) returns (ret: int)
    requires agent.Valid() && agent.cpu != Invalid && !agent.host.aborted && NUL !in path && -1 !in plan
    requires path in agent.host.shared
    modifies agent`files, agent`numAddresses, agent.fileName, agent.addresses, agent.mem
    modifies agent.host`cursors, agent.host`names, agent.host`dumps, agent.host`flags, agent.host`aborted
    ensures agent.Valid() && !agent.host.aborted
    ensures ret == 0 <==> old(Reports(agent.Setup(), agent.Now(), path))
    ensures var file, name, dumps := agent.host.shared[path], Basename(path), old(agent.host.dumps);
            Begins(agent.Setup(), path) ==>
              (OnHost(agent.host.dumps, name, file) <==>
                 (agent.cpu == V1 && old(agent.host.cursors[path]) == 0 && 0 < |file| <= agent.room(name))
                 || (OnHost(dumps, name, file) &&
                     (agent.cpu != V1 || agent.room(name) == 0 || old(agent.host.cursors[path]) == |file|)))
    ensures var got := Content(agent.files, Basename(path));
            if got == [] then agent.host.dumps == old(agent.host.dumps)
            else OnHost(agent.host.dumps, Basename(path), got)
    ensures forall f :: f in old(agent.host.dumps) && f != Basename(path) ==>
              f in agent.host.dumps && agent.host.dumps[f] == old(agent.host.dumps)[f]
  {
    var name := Basename(path);
    hide Basename, Hget;
    ghost var w, v := agent.Setup(), agent.Now();
    SuccessIsWholeIff(w, v, path);
    ArrivedIs(w, v, path);
    RoundTrip(w, v, path, agent.host.dumps, name, plan);
    ret := agent.HgetFile(path);
    var found := name in agent.files;
    var file := new InFile(if found then agent.files[name] else [], plan);
    PushingLogs(name, file.data, 0, plan, false, Push(agent.host.dumps, [], false), agent.host.flags);
    var sent := agent.HpushFile(file, if found then 0 else ENOENT, name, false);
  }

  /** The log of flags has no influence on the push. */
  lemma {:induction false} PushingLogs(
    f: string, data: seq<byte>, pos: nat, plan: seq<int>, append: bool, p: Push, flags: seq<bool>)
    requires pos <= |data|
    ensures var q, r := Pushing(f, data, pos, plan, append, p), Pushing(f, data, pos, plan, append, p.(flags := flags));
            r.dumps == q.dumps && r.failed == q.failed
    decreases |data| - pos
  {
    if !ReadFails(plan) && pos < |data| {
      var end := pos + ReadSize(plan, SCRATCH, |data| - pos);
      var q := Push(Dumped(p.dumps, f, append, data[pos..end]), p.flags + [append], p.failed);
      PushingLogs(f, data, end, Tail(plan), true, q, flags + [append]);
    }
  }
}
