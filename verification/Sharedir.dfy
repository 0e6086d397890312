/** The host's side of file transfer, as the agents rely on it: a directory of shared files that
    is read in bulk through lists of guest pages, a directory of dumped files, and a console. */
module Sharedir {
  import opened NyxApi
  import opened Text

  type byte = bv8

  const NO_FILE := 0xFFFF_FFFF_FFFF_FFFF

  function Min(a: nat, b: nat): nat { if a <= b then a else b }

  /** No two of the pages overlap, and all lie within memory of the given size. */
  predicate Apart(pages: seq<nat>, size: nat) {
    && (forall i :: 0 <= i < |pages| ==> pages[i] + PAGE_SIZE <= size)
    && (forall i, j :: 0 <= i < j < |pages| ==> pages[i] + PAGE_SIZE <= pages[j] || pages[j] + PAGE_SIZE <= pages[i])
  }

  /** The first n bytes of the listed pages, taken in the order of the list. */
  function Gather(m: seq<byte>, pages: seq<nat>, n: nat): seq<byte>
    requires n <= |pages| * PAGE_SIZE && forall i :: 0 <= i < |pages| ==> pages[i] + PAGE_SIZE <= |m|
  {
    seq(n, k requires 0 <= k < n => m[pages[k / PAGE_SIZE] + k % PAGE_SIZE])
  }

  function Consecutive(base: nat, count: nat): seq<nat> {
    seq(count, i requires 0 <= i < count => base + i * PAGE_SIZE)
  }

  /** A list of consecutive pages is one contiguous buffer. */
  lemma ConsecutiveIsContiguous(m: seq<byte>, base: nat, count: nat, n: nat)
    requires base + count * PAGE_SIZE <= |m| && n <= count * PAGE_SIZE
    ensures Apart(Consecutive(base, count), |m|)
    ensures Gather(m, Consecutive(base, count), n) == m[base..base + n]
  {
    var g := Gather(m, Consecutive(base, count), n);
    forall k: nat | k < n
      ensures g[k] == m[base + k]
    {
      assert (k / PAGE_SIZE) * PAGE_SIZE + k % PAGE_SIZE == k;
    }
  }

  /** Filling one more page of the list leaves the earlier ones as they were. */
  lemma GatherOneMore(m: seq<byte>, m': seq<byte>, pages: seq<nat>, i: nat, rest: seq<byte>, n: nat)
    requires |m| == |m'| && Apart(pages, |m|) && i < |pages| && n <= |rest| && n <= |pages| * PAGE_SIZE
    requires Gather(m, pages, Min(n, i * PAGE_SIZE)) == rest[..Min(n, i * PAGE_SIZE)]
    requires forall k :: 0 <= k < |m| && !(pages[i] <= k < pages[i] + PAGE_SIZE) ==> m'[k] == m[k]
    requires forall k :: i * PAGE_SIZE <= k < Min(n, (i + 1) * PAGE_SIZE) ==>
             m'[pages[i] + (k - i * PAGE_SIZE)] == rest[k]
    ensures Gather(m', pages, Min(n, (i + 1) * PAGE_SIZE)) == rest[..Min(n, (i + 1) * PAGE_SIZE)]
  {
    var g, g' := Gather(m, pages, Min(n, i * PAGE_SIZE)), Gather(m', pages, Min(n, (i + 1) * PAGE_SIZE));
    forall k: nat | k < |g'|
      ensures g'[k] == rest[k]
    {
      var page := k / PAGE_SIZE;
      if k < i * PAGE_SIZE {
        assert g[k] == rest[k];
        assert page < i && (pages[page] + PAGE_SIZE <= pages[i] || pages[i] + PAGE_SIZE <= pages[page]);
      } else {
        assert page == i && k % PAGE_SIZE == k - i * PAGE_SIZE;
      }
    }
  }

  /** A dump directory after one dump request. */
  function Dumped(dumps: map<string, seq<byte>>, f: string, append: bool, data: seq<byte>): map<string, seq<byte>> {
    dumps[f := (if append && f in dumps then dumps[f] else []) + data]
  }

  datatype Range = Range(id: nat, start: uint64, end: uint64)

  class Host {
    const shared: map<string, seq<byte>>
    const config: HostConfig
    var cursors: map<string, nat>   // how far each shared file has been read
    var dumps: map<string, seq<byte>>
    var names: seq<string>          // the file names of all bulk requests so far
    var flags: seq<bool>            // the append flags of all dump requests so far
    var prints: seq<seq<char>>      // the buffers of all PRINTF requests so far
    var ranges: seq<Range>          // the trace ranges of all RANGE_SUBMIT requests so far
    var calls: seq<Hypercall>       // all other hypercalls so far
    var aborted: bool

    constructor (shared: map<string, seq<byte>>, config: HostConfig)
      ensures Valid() && this.shared == shared && this.config == config && calls == [] && dumps == map[]
              && forall f :: f in shared ==> cursors[f] == 0
      ensures names == [] && flags == [] && prints == [] && ranges == [] && !aborted
    {
      this.shared, this.config, calls := shared, config, [];
      cursors, dumps := map f | f in shared :: 0, map[];
      names, flags, prints, ranges := [], [], [], [];
      aborted := false;
    }

    ghost predicate Valid()
      reads `cursors
    {
      cursors.Keys == shared.Keys && forall f :: f in shared ==> cursors[f] <= |shared[f]|
    }

    /** REQ_STREAM_DATA_BULK: fill the listed pages in order from where the file was left. A
        reply shorter than the request ends the file, and the next request starts it anew. */
    method StreamBulk(fileName: array<char>, addresses: array<nat>, count: nat, mem: array<byte>) returns (n: nat)
      requires Valid() && count <= addresses.Length && Apart(addresses[..count], mem.Length)
      requires addresses as object != mem
      modifies `cursors, `names, mem
      ensures Valid() && names == old(names) + [CString(old(fileName[..]))]
      ensures CString(old(fileName[..])) !in shared ==>
                n == NO_FILE && mem[..] == old(mem[..]) && cursors == old(cursors)
      ensures CString(old(fileName[..])) in shared ==>
                var f := CString(old(fileName[..]));
                var c := old(cursors)[f];
                var rest := shared[f][c..];
                && n == Min(|rest|, count * PAGE_SIZE)
                && Gather(mem[..], addresses[..count], n) == rest[..n]
                && cursors == old(cursors)[f := if n < count * PAGE_SIZE then 0 else c + n]
    {
      var f := CString(fileName[..]);
      names := names + [f];
      if f !in shared {
        return NO_FILE;
      }
      var c := cursors[f];
      var rest := shared[f][c..];
      n := Min(|rest|, count * PAGE_SIZE);
      ghost var pages := addresses[..count];
      var i := 0;
      while i < count
        modifies mem
        invariant 0 <= i <= count
        invariant Gather(mem[..], pages, Min(n, i * PAGE_SIZE)) == rest[..Min(n, i * PAGE_SIZE)]
      {
        ghost var before := mem[..];
        FillPage(mem, addresses[i], rest[Min(n, i * PAGE_SIZE)..Min(n, (i + 1) * PAGE_SIZE)]);
        GatherOneMore(before, mem[..], pages, i, rest, n);
        i := i + 1;
      }
      cursors := cursors[f := if n < count * PAGE_SIZE then 0 else c + n];
    }

    static method FillPage(mem: array<byte>, at: nat, data: seq<byte>)
      requires at + PAGE_SIZE <= mem.Length && |data| <= PAGE_SIZE
      modifies mem
      ensures forall j :: 0 <= j < |data| ==> mem[at + j] == data[j]
      ensures forall k :: 0 <= k < mem.Length && !(at <= k < at + PAGE_SIZE) ==> mem[k] == old(mem[k])
    {
      forall j | 0 <= j < |data| {
        mem[at + j] := data[j];
      }
    }

    /** DUMP_FILE: write or append to a file in the dump directory. */
    method DumpFile(f: string, data: seq<byte>, append: bool)
      modifies `dumps, `flags
      ensures flags == old(flags) + [append]
      ensures dumps == Dumped(old(dumps), f, append, data)
    {
      flags := flags + [append];
      dumps := Dumped(dumps, f, append, data);
    }

    method Print(buffer: seq<char>)
      modifies `prints
      ensures prints == old(prints) + [buffer]
    {
      prints := prints + [buffer];
    }

    method SubmitRange(r: Range)
      modifies `ranges
      ensures ranges == old(ranges) + [r]
    {
      ranges := ranges + [r];
    }

    method Record(h: Hypercall)
      modifies `calls
      ensures calls == old(calls) + [h]
    {
      calls := calls + [h];
    }

    /** USER_ABORT: the guest is not resumed. */
    method Abort()
      modifies `aborted
      ensures aborted
    {
      aborted := true;
    }
  }
}
