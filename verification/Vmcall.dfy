/** The vmcall command line tool: its commands and its dispatcher. */
module Vmcall {
  import opened NyxApi
  import opened Text
  import opened Sharedir
  import opened CpuGuard
  import opened NyxAgent
  import opened Concat = Hcat

  // ---------------------------------------------------------------- the dispatcher, as functions

  datatype Command = Self | Hcat | Habort | Hget | Hpush | Hpanic | Hrange | Hlock | Check

  function NameOf(c: Command): string {
    match c
    case Self => "vmcall"
    case Hcat => "hcat"
    case Habort => "habort"
    case Hget => "hget"
    case Hpush => "hpush"
    case Hpanic => "hpanic"
    case Hrange => "hrange"
    case Hlock => "hlock"
    case Check => "check"
  }

  const CMD_LIST: seq<Command> := [Self, Hcat, Habort, Hget, Hpush, Hpanic, Hrange, Hlock, Check]

  /** The first entry of the table whose name the word begins with. */
  function Lookup(table: seq<Command>, word: string): Option<Command> {
    if table == [] then None
    else if IsPrefix(NameOf(table[0]), word) then Some(table[0])
    else Lookup(table[1..], word)
  }

  lemma NamesDiffer(c: Command, d: Command)
    requires c != d
    ensures NameOf(c)[0] != NameOf(d)[0] || NameOf(c)[1] != NameOf(d)[1] || NameOf(c)[2] != NameOf(d)[2]
  {
  }

  lemma AtMostOneName(c: Command, d: Command, word: string)
    requires IsPrefix(NameOf(c), word) && IsPrefix(NameOf(d), word)
    ensures c == d
  {
    assert forall k :: 0 <= k <= 2 ==> word[..|NameOf(c)|][k] == word[k] == word[..|NameOf(d)|][k];
    if c != d {
      NamesDiffer(c, d);
    }
  }

  /** A word selects a command if it begins with the command's name, wherever the command stands
      in the table: the order of the table does not matter. */
  lemma {:induction false} LookupIgnoresOrder(table: seq<Command>, word: string, c: Command)
    ensures Lookup(table, word) == Some(c) <==> c in table && IsPrefix(NameOf(c), word)
  {
    if table != [] {
      if IsPrefix(NameOf(table[0]), word) && IsPrefix(NameOf(c), word) {
        AtMostOneName(table[0], c, word);
      }
      LookupIgnoresOrder(table[1..], word, c);
    }
  }

  /** basename(argv[optind]), where argv[argc] is null. */
  function Word(argv: seq<string>, optind: nat): string
    requires optind <= |argv|
  {
    if optind == |argv| then "." else Basename(argv[optind])
  }

  lemma DotIsNoCommand()
    ensures Lookup(CMD_LIST, ".") == None
  {
    if c: Command :| Lookup(CMD_LIST, ".") == Some(c) {
      LookupIgnoresOrder(CMD_LIST, ".", c);
    }
  }

  function CommandAt(argv: seq<string>, optind: nat): (r: Option<Command>)
    requires optind <= |argv|
    ensures r.Some? ==> optind < |argv|
  {
    DotIsNoCommand();
    Lookup(CMD_LIST, Word(argv, optind))
  }

  // ---------------------------------------------------------------- hrange, as functions

  // What sscanf() makes of an argument with all three numbers in it.
  datatype RangeArg = RangeArg(id: uint64, start: uint64, end: uint64)

  predicate ValidRange(arg: Option<RangeArg>) {
    arg.Some? && arg.value.id <= 3 && arg.value.start < arg.value.end
  }

  function RoundDown(x: uint64): uint64 { x - x % PAGE_SIZE }

  /** In 64-bit arithmetic. */
  function RoundUp(x: uint64): uint64 {
    if x % PAGE_SIZE == 0 then x else (x / PAGE_SIZE + 1) * PAGE_SIZE % TWO_64
  }

  ghost predicate Covers(s: int, e: int, start: int, end: int) {
    s % PAGE_SIZE == 0 && e % PAGE_SIZE == 0 && s <= start && end <= e
  }

  ghost predicate LeastCover(s: int, e: int, start: int, end: int) {
    Covers(s, e, start, end) && forall s', e' :: Covers(s', e', start, end) ==> s' <= s && e <= e'
  }

  /** The rounded interval is the least one of whole pages that contains the given one, unless
      the end lies in the last page of the address space: then it wraps to zero. */
  lemma RoundingIsLeastIff(start: uint64, end: uint64)
    requires start < end
    ensures LeastCover(RoundDown(start), RoundUp(end), start, end) <==> end <= TWO_64 - PAGE_SIZE
    ensures end > TWO_64 - PAGE_SIZE ==> RoundUp(end) == 0
  {
    var s, e := RoundDown(start), RoundUp(end);
    if end <= TWO_64 - PAGE_SIZE {
      forall s', e' | Covers(s', e', start, end)
        ensures s' <= s && e <= e'
      {
        NoMultipleBetween(s' / PAGE_SIZE, start);
        NoMultipleBetween((end - 1) / PAGE_SIZE, e' - 1);
      }
    }
  }

  /** For instance, this range ends before it starts. */
  lemma LastPageWraps()
    ensures Rounded(RangeArg(0, 0x1000, 0xFFFF_FFFF_FFFF_F001)) == Range(0, 0x1000, 0)
  {
  }

  lemma NoMultipleBetween(q: int, x: int)
    ensures q * PAGE_SIZE <= x ==> q <= x / PAGE_SIZE
  {
  }

  function Rounded(a: RangeArg): Range {
    Range(a.id, RoundDown(a.start), RoundUp(a.end))
  }

  /** The ranges submitted for these arguments. */
  function Submitted(args: seq<Option<RangeArg>>): seq<Range> {
    if args == [] || !ValidRange(args[0]) then [] else [Rounded(args[0].value)] + Submitted(args[1..])
  }

  /** They are the rounded longest valid prefix of the arguments. */
  lemma {:induction false} SubmittedIsValidPrefix(args: seq<Option<RangeArg>>)
    ensures var k := |Submitted(args)|;
            && k <= |args| && (k < |args| ==> !ValidRange(args[k]))
            && forall i :: 0 <= i < k ==> ValidRange(args[i]) && Submitted(args)[i] == Rounded(args[i].value)
  {
    if args != [] && ValidRange(args[0]) {
      SubmittedIsValidPrefix(args[1..]);
    }
  }

  lemma SubmittedStep(args: seq<Option<RangeArg>>, i: nat)
    requires i < |args|
    ensures Submitted(args[i..]) ==
            if ValidRange(args[i]) then [Rounded(args[i].value)] + Submitted(args[i + 1..]) else []
  {
    assert args[i..][1..] == args[i + 1..];
  }

  // ---------------------------------------------------------------- the commands, as functions

  type CText = s: string | NUL !in s

  // What getopt() makes of a command's words: whether it meets an unknown option, the options of
  // hget and hpush, and the words that are left.
  datatype Options = Options(bad: bool, append: bool, output: Option<CText>, operands: seq<CText>)

  // A file that hpush opens: errno, 0 if that succeeds; what it holds, and how reads of it go.
  datatype Opened = Opened(errno: nat, data: seq<byte>, plan: seq<int>)

  // What the process is given.
  datatype Inputs = Inputs(
    argv: seq<string>,
    stdin: Option<Source>,                  // None if it is a terminal
    fopen: string -> Option<Source>,
    getopt: (Command, nat) -> Options,      // for a command and optind when it starts
    chdir: string -> nat,                   // errno, 0 if it succeeds
    open: string -> Opened,
    sscanf: string -> Option<RangeArg>)

  // What it changes: files, the host's record of all hypercalls, and the static console buffer.
  datatype World = World(
    view: View, push: Push, prints: seq<seq<char>>, ranges: seq<Range>, calls: seq<Hypercall>, buffer: Buffer)

  /** What follows on the command's name, each as f reads it. */
  function Arguments<T>(argv: seq<string>, k: nat, f: string -> T): seq<T>
    requires k <= |argv|
  {
    seq(|argv| - k, j requires 0 <= j < |argv| - k => f(argv[k + j]))
  }

  /** A hypercall that is only recorded, through hypercall(). */
  function Recorded(w: Setting, x: World, h: Hypercall): World {
    if w.cpu == V1 then x.(calls := x.calls + [h]) else x
  }

  function Stopped(w: Setting, x: World): World {
    if w.cpu == V1 then x.(push := x.push.(failed := true)) else x
  }

  function HandleHcat(i: Inputs, w: Setting, x: World, k: nat): (World, int)
    requires k <= |i.argv|
  {
    var (o, ret) := HcatOn(x.buffer, i.stdin, Arguments(i.argv, k, i.fopen));
    (x.(prints := x.prints + if w.cpu == V1 then o.pages else [], buffer := o.buffer), ret)
  }

  function HandleHget(i: Inputs, w: Setting, x: World, k: nat): (World, int)
    requires Sound(w, x.view)
  {
    var o := i.getopt(Hget, k);
    if o.bad || o.operands == [] then (x, -EINVAL)
    else if o.output.Some? && i.chdir(o.output.value) != 0 then (x, i.chdir(o.output.value))
    else
      var (view, ret) := HgetAll(w, x.view, o.operands);
      (x.(view := view), ret)
  }

  function HandleHpush(i: Inputs, x: World, k: nat): (World, int) {
    var o := i.getopt(Hpush, k);
    if o.bad || |o.operands| != 1 then (x, -EINVAL)
    else
      var path, file := o.operands[0], i.open(o.operands[0]);
      var name := if o.output.Some? then o.output.value else Basename(path);
      if file.errno != 0 then (x, file.errno)
      else (x.(push := Pushing(name, file.data, 0, file.plan, o.append, x.push)), 0)
  }

  function HandleHrange(i: Inputs, w: Setting, x: World, k: nat): (World, int)
    requires k <= |i.argv|
  {
    var args := Arguments(i.argv, k, i.sscanf);
    (if w.cpu == V1 then x.(ranges := x.ranges + Submitted(args)) else x,
     if |Submitted(args)| == |args| then 0 else -EINVAL)
  }

  /** On type v2 the host is not asked, so that it never passes; nor does the abort reach it. */
  function HandleCheck(w: Setting, config: HostConfig, x: World): (World, int) {
    match w.cpu
    case V1 =>
      var asked := Recorded(w, x, GetHostConfig);
      if config.magic == NYX_HOST_MAGIC && config.version == NYX_HOST_VERSION then (asked, 1)
      else (Stopped(w, asked), -1)
    case V2 => (x, -2)
    case _ => (x, 0)
  }

  /** What a command does, and returns, when it starts with optind == k. A command that aborts
      does not return; its state is the one at the abort. */
  function Handle(i: Inputs, w: Setting, config: HostConfig, x: World, c: Command, k: nat): (World, int)
    requires c != Self && k <= |i.argv| && Sound(w, x.view)
  {
    match c
    case Hcat => HandleHcat(i, w, x, k)
    case Habort => (Stopped(w, x), 0)
    case Hget => HandleHget(i, w, x, k)
    case Hpush => HandleHpush(i, x, k)
    case Hpanic => (Recorded(w, x, if k < |i.argv| then PanicExtended else Panic), 0)
    case Hrange => HandleHrange(i, w, x, k)
    case Hlock => (Recorded(w, x, Lock), 0)
    case Check => HandleCheck(w, config, x)
  }

  /** Off type v1 no command but hpush, which does not go through hypercall(), reaches the host:
      only files of the guest and the static buffer change. */
  lemma SilentOffV1(i: Inputs, w: Setting, config: HostConfig, x: World, c: Command, k: nat)
    requires c != Self && k <= |i.argv| && Sound(w, x.view)
    requires w.cpu != V1 && c != Hpush
    ensures var y := Handle(i, w, config, x, c, k).0;
            y == x.(view := x.view.(files := y.view.files), buffer := y.buffer)
  {
    hide Basename;
    if c == Hget {
      var o := i.getopt(Hget, k);
      HgetAllOffV1(w, x.view, o.operands);
    } else if c == Hcat {
      assert x.prints + [] == x.prints;
    }
  }

  lemma {:induction false} HgetAllOffV1(w: Setting, v: View, paths: seq<string>)
    requires Sound(w, v) && w.cpu != V1
    ensures var n := HgetAll(w, v, paths).0; n == v.(files := n.files)
    decreases |paths|
  {
    hide Basename;
    if paths != [] {
      HgetStaysSound(w, v, paths[0]);
      HgetAllOffV1(w, NyxAgent.Hget(w, v, paths[0]).0, paths[1..]);
    }
  }

  lemma {:induction false} HgetAllIsNoMisuse(w: Setting, v: View, paths: seq<string>)
    requires Sound(w, v)
    ensures HgetAll(w, v, paths).1 != -EINVAL
    decreases |paths|
  {
    hide Basename;
    if paths != [] {
      HgetStaysSound(w, v, paths[0]);
      HgetAllIsNoMisuse(w, NyxAgent.Hget(w, v, paths[0]).0, paths[1..]);
    }
  }

  /** The command is used wrongly; or it is hcat, and its count of bytes looks like EINVAL. */
  predicate Misused(i: Inputs, c: Command, k: nat)
    requires k <= |i.argv|
  {
    match c
    case Hget => i.getopt(c, k).bad || i.getopt(c, k).operands == []
    case Hpush => i.getopt(c, k).bad || |i.getopt(c, k).operands| != 1
    case Hrange => exists r :: r in Arguments(i.argv, k, i.sscanf) && !ValidRange(r)
    case Hcat =>
      var files := Sources(i.stdin, Arguments(i.argv, k, i.fopen));
      None in files && Total(files) % 0x1_0000_0000 == 0x1_0000_0000 - EINVAL
    case _ => false
  }

  /** Exactly then a command returns EINVAL, whatever the host and the CPU. */
  lemma MisusedIff(i: Inputs, w: Setting, config: HostConfig, x: World, c: Command, k: nat)
    requires c != Self && k <= |i.argv| && Sound(w, x.view)
    ensures Handle(i, w, config, x, c, k).1 == -EINVAL <==> Misused(i, c, k)
  {
    hide HcatOn, Total, Submitted, HgetAll, Pushing, Basename;
    match c
    case Hget => HgetAllIsNoMisuse(w, x.view, i.getopt(c, k).operands);
    case Hrange => SubmittedAllIff(Arguments(i.argv, k, i.sscanf));
    case Hcat => HcatMisusedIff(x.buffer, i.stdin, Arguments(i.argv, k, i.fopen));
    case _ =>
  }

  lemma SubmittedAllIff(args: seq<Option<RangeArg>>)
    ensures |Submitted(args)| == |args| <==> forall r :: r in args ==> ValidRange(r)
  {
    SubmittedIsValidPrefix(args);
  }

  lemma HcatMisusedIff(buffer: Buffer, stdin: Option<Source>, args: seq<Option<Source>>)
    ensures var files := Sources(stdin, args);
            HcatOn(buffer, stdin, args).1 == -EINVAL <==>
            None in files && Total(files) % 0x1_0000_0000 == 0x1_0000_0000 - EINVAL
  {
    hide Cat, HcatOn, Total, ToInt;
    HcatIsCat(buffer, stdin, args);
    CatStatus(Output([], buffer, 0), Sources(stdin, args));
    LowByte(Total(Sources(stdin, args)));
  }

  // ---------------------------------------------------------------- dispatch, as a function

  /** What cmd_dispatch() does and returns. */
  function Dispatch(i: Inputs, w: Setting, config: HostConfig, x: World, optind: nat): (World, int)
    requires optind <= |i.argv| && Sound(w, x.view)
    decreases |i.argv| - optind
  {
    match CommandAt(i.argv, optind)
    case None => (x, -EINVAL)
    case Some(Self) =>
      var (y, ret) := Dispatch(i, w, config, x, optind + 1);
      (y, Returns(ret, true))
    case Some(c) => Handle(i, w, config, x, c, optind + 1)
  }

  /** Any number of leading vmcall words lead to the same command, with its arguments where they
      are; all they change is that EINVAL, the command's own included, becomes success. */
  lemma {:induction false} LeadingVmcalls(i: Inputs, w: Setting, config: HostConfig, x: World, optind: nat, n: nat)
    requires optind + n <= |i.argv| && Sound(w, x.view)
    requires forall j :: optind <= j < optind + n ==> CommandAt(i.argv, j) == Some(Self)
    ensures var (y, ret) := Dispatch(i, w, config, x, optind + n);
            Dispatch(i, w, config, x, optind) == (y, if ret == -22 && n > 0 then 0 else ret)
    decreases n
  {
    hide CommandAt, Handle;
    if n > 0 {
      LeadingVmcalls(i, w, config, x, optind + 1, n - 1);
    }
  }

  /** The tool reports an invalid command exactly if its first word is not vmcall, and names no
      command or one that is used wrongly. */
  lemma ReportsInvalidIff(i: Inputs, w: Setting, config: HostConfig, x: World)
    requires Sound(w, x.view)
    ensures Dispatch(i, w, config, x, 0).1 == -EINVAL <==>
            match CommandAt(i.argv, 0)
            case None => true
            case Some(Self) => false
            case Some(c) => Misused(i, c, 1)
  {
    hide Misused, Handle, CommandAt;
    var r := CommandAt(i.argv, 0);
    if r.Some? && r.value != Self {
      MisusedIff(i, w, config, x, r.value, 1);
    }
  }

  // ---------------------------------------------------------------- what each command comes to

  /** A word selects a command exactly if its last component begins with the command's name. */
  lemma CommandAtIff(argv: seq<string>, k: nat, c: Command)
    requires k <= |argv|
    ensures CommandAt(argv, k) == Some(c) <==> k < |argv| && IsPrefix(NameOf(c), Basename(argv[k]))
  {
    hide Basename, Lookup;
    assert c in CMD_LIST;
    LookupIgnoresOrder(CMD_LIST, Word(argv, k), c);
    if k == |argv| {
      DotIsNoCommand();
    }
  }

  /** The tool's own name, n vmcall words in all, and then a word that selects the command. */
  ghost predicate Selects(argv: seq<string>, n: nat, c: Command) {
    && c != Self && n < |argv| && CommandAt(argv, n) == Some(c)
    && forall j :: 0 <= j < n ==> CommandAt(argv, j) == Some(Self)
  }

  lemma Selected(i: Inputs, w: Setting, config: HostConfig, x: World, n: nat, c: Command)
    requires Sound(w, x.view) && Selects(i.argv, n, c)
    ensures var (y, ret) := Handle(i, w, config, x, c, n + 1);
            Dispatch(i, w, config, x, 0) == (y, if ret == -22 && n > 0 then 0 else ret)
  {
    hide CommandAt, Handle;
    LeadingVmcalls(i, w, config, x, 0, n);
  }

  /** check: on type v1 the host is asked, and told to abort exactly if its magic or its version is
      another; on the other types it is not asked, and the status names the type, v2 as a failure. */
  lemma CheckComesTo(i: Inputs, w: Setting, config: HostConfig, x: World, n: nat)
    requires Sound(w, x.view) && Selects(i.argv, n, Check)
    ensures var (y, ret) := Dispatch(i, w, config, x, 0);
            if w.cpu != V1 then y == x && ret == (if w.cpu == V2 then -2 else 0)
            else
              && y == x.(calls := x.calls + [GetHostConfig], push := y.push)
              && y.push == x.push.(failed := y.push.failed)
              && (if config.magic == 0x4878794e && config.version == 2
                  then ret == 1 && y.push.failed == x.push.failed
                  else ret == -1 && y.push.failed)
  {
    hide Dispatch, Selects;
    Selected(i, w, config, x, n, Check);
  }

  /** habort stops the host, hpanic and hlock make one request each; all on type v1 only. */
  lemma RequestsComeTo(i: Inputs, w: Setting, config: HostConfig, x: World, n: nat, c: Command)
    requires Sound(w, x.view) && Selects(i.argv, n, c) && c in {Habort, Hpanic, Hlock}
    ensures var (y, ret) := Dispatch(i, w, config, x, 0);
            && ret == 0
            && (w.cpu != V1 ==> y == x)
            && (w.cpu == V1 ==>
                  match c
                  case Habort => y == x.(push := x.push.(failed := true))
                  case Hpanic => y == x.(calls := x.calls + [if n + 1 == |i.argv| then Panic else PanicExtended])
                  case _ => y == x.(calls := x.calls + [Lock]))
  {
    hide Dispatch;
    Selected(i, w, config, x, n, c);
  }

  /** hget: it fetches its operands in order, each from what the earlier ones have left, and its
      status is that of the first that fails. */
  lemma HgetComesTo(i: Inputs, w: Setting, config: HostConfig, x: World, n: nat) returns (k: nat)
    requires Sound(w, x.view) && Selects(i.argv, n, Hget)
    requires var o := i.getopt(Hget, n + 1);
             !o.bad && o.operands != [] && (o.output.Some? ==> i.chdir(o.output.value) == 0)
    ensures var paths := i.getopt(Hget, n + 1).operands; var (y, ret) := Dispatch(i, w, config, x, 0);
            && y == x.(view := y.view)
            && k <= |paths| && (forall j :: 0 <= j < k ==> Fetched(w, x.view, paths, j))
            && (ret == 0 <==> forall j :: 0 <= j < |paths| ==> Fetched(w, x.view, paths, j))
            && (ret == 0 ==> y.view == Behind(w, x.view, paths))
            && (ret != 0 ==> k < |paths| && (y.view, ret) == NyxAgent.Hget(w, Behind(w, x.view, paths[..k]), paths[k]))
  {
    hide Dispatch, Selects, HgetAll, NyxAgent.Hget, Fetched, Behind;
    Selected(i, w, config, x, n, Hget);
    HgetAllIsNoMisuse(w, x.view, i.getopt(Hget, n + 1).operands);
    k := HgetAllIs(w, x.view, i.getopt(Hget, n + 1).operands);
  }

  /** Words that make no sense, or a directory that cannot be entered: nothing is asked for. */
  lemma HgetRefuses(i: Inputs, w: Setting, config: HostConfig, x: World, n: nat)
    requires Sound(w, x.view) && Selects(i.argv, n, Hget)
    ensures var o := i.getopt(Hget, n + 1); var (y, ret) := Dispatch(i, w, config, x, 0);
            && (o.bad || o.operands == [] ==> y == x && ret == if n > 0 then 0 else -22)
            && (!o.bad && o.operands != [] && o.output.Some? && i.chdir(o.output.value) != 0 ==>
                  y == x && ret == i.chdir(o.output.value))
  {
    hide Dispatch, Selects, HgetAll;
    Selected(i, w, config, x, n, Hget);
  }

  /** hpush: the operand's content comes to stand on the host under the name given by -o, or else the
      operand's last component, behind what was there if -a is given and instead of it if not, and
      nothing else there changes. A read that fails has left a prefix, and aborts. */
  lemma HpushComesTo(i: Inputs, w: Setting, config: HostConfig, x: World, n: nat) returns (end: nat, chunks: nat)
    requires Sound(w, x.view) && Selects(i.argv, n, Hpush) && !x.push.failed
    requires !i.getopt(Hpush, n + 1).bad && |i.getopt(Hpush, n + 1).operands| == 1
    requires i.open(i.getopt(Hpush, n + 1).operands[0]).errno == 0
    ensures var o := i.getopt(Hpush, n + 1); var source := i.open(o.operands[0]);
            var name := if o.output.Some? then o.output.value else Basename(o.operands[0]);
            var (y, ret) := Dispatch(i, w, config, x, 0);
            && ret == 0 && y == x.(push := y.push) && end <= |source.data|
            && (-1 !in source.plan ==> !y.push.failed) && (!y.push.failed ==> end == |source.data|)
            && (y.push.failed <==> chunks < |source.plan| && source.plan[chunks] == -1)
            && y.push.flags == x.push.flags + Flags(o.append, chunks)
            && (end == 0 ==> y.push.dumps == x.push.dumps)
            && (end > 0 ==>
                  name in y.push.dumps &&
                  y.push.dumps[name] ==
                  (if o.append && name in x.push.dumps then x.push.dumps[name] else []) + source.data[..end])
            && forall f :: f != name ==>
                 (f in y.push.dumps <==> f in x.push.dumps) &&
                 (f in x.push.dumps ==> y.push.dumps[f] == x.push.dumps[f])
  {
    hide Dispatch, Selects, Pushing, Basename;
    var o := i.getopt(Hpush, n + 1);
    var source := i.open(o.operands[0]);
    var name := if o.output.Some? then o.output.value else Basename(o.operands[0]);
    Selected(i, w, config, x, n, Hpush);
    end, chunks := PushingDelivers(name, source.data, 0, source.plan, o.append, x.push);
    assert source.data[0..end] == source.data[..end];
  }

  lemma HpushRefuses(i: Inputs, w: Setting, config: HostConfig, x: World, n: nat)
    requires Sound(w, x.view) && Selects(i.argv, n, Hpush)
    ensures var o := i.getopt(Hpush, n + 1); var (y, ret) := Dispatch(i, w, config, x, 0);
            if o.bad || |o.operands| != 1 then y == x && ret == (if n > 0 then 0 else -22)
            else i.open(o.operands[0]).errno != 0 ==> y == x && ret == i.open(o.operands[0]).errno
  {
    hide Dispatch, Selects, Pushing, Basename;
    Selected(i, w, config, x, n, Hpush);
  }

  /** hrange: up to the first argument that is no range, has another identifier than 0 to 3 or is
      empty, the ranges reach the host on type v1, rounded to whole pages. */
  lemma HrangeComesTo(i: Inputs, w: Setting, config: HostConfig, x: World, n: nat) returns (k: nat)
    requires Sound(w, x.view) && Selects(i.argv, n, Hrange)
    ensures var args := Arguments(i.argv, n + 1, i.sscanf); var (y, ret) := Dispatch(i, w, config, x, 0);
            && k <= |args| && ret == (if k == |args| || n > 0 then 0 else -22)
            && (forall j :: 0 <= j < k ==>
                  args[j].Some? && args[j].value.id < 4 && args[j].value.start < args[j].value.end)
            && (k < |args| ==>
                  args[k].None? || args[k].value.id >= 4 || args[k].value.start >= args[k].value.end)
            && y == x.(ranges := y.ranges)
            && |y.ranges| == |x.ranges| + (if w.cpu == V1 then k else 0) && y.ranges[..|x.ranges|] == x.ranges
            && (w.cpu == V1 ==>
                  forall j :: 0 <= j < k ==>
                    y.ranges[|x.ranges| + j] ==
                    Range(args[j].value.id, RoundDown(args[j].value.start), RoundUp(args[j].value.end)))
  {
    var args := Arguments(i.argv, n + 1, i.sscanf);
    hide Dispatch, Selects, Submitted, RoundDown, RoundUp;
    Selected(i, w, config, x, n, Hrange);
    SubmittedIsValidPrefix(args);
    k := |Submitted(args)|;
    assert forall j :: 0 <= j < k ==> ValidRange(args[j]);
  }

  /** hcat: on type v1 the console shows standard input, and behind it the files in order, as they are,
      exactly if they fit the static buffer as they come; off type v1 nothing is sent. The process
      reports success unless there is not a single byte, in 64 bits. */
  lemma HcatComesTo(
    i: Inputs, w: Setting, config: HostConfig, x: World, n: nat, input: Option<string>, texts: seq<string>)
    requires Sound(w, x.view) && Selects(i.argv, n, Hcat) && |i.argv| == n + 1 + |texts|
    requires i.stdin == if input.Some? then Some(Source(input.value, false)) else None
    requires forall j :: 0 <= j < |texts| ==> i.fopen(i.argv[n + 1 + j]) == Some(Source(texts[j], false))
    requires (input.Some? ==> NUL !in input.value) && forall t :: t in texts ==> NUL !in t
    ensures var (y, ret) := Dispatch(i, w, config, x, 0);
            var shown := (if input.Some? then input.value else []) + Flatten(texts);
            && y == x.(prints := y.prints, buffer := y.buffer) && x.prints <= y.prints
            && (w.cpu == V1 ==>
                  (Console(y.prints[|x.prints|..]) == shown <==>
                     Fits(x.buffer, 0, (if input.Some? then [input.value] else []) + texts)))
            && (w.cpu != V1 ==> y.prints == x.prints)
            && ret == if |shown| % 0x1_0000_0000_0000_0000 == 0 then 1 else 0
  {
    hide Dispatch, Selects, HcatOn, Console, Cat, Fits, Total;
    Selected(i, w, config, x, n, Hcat);
    var args, all := Arguments(i.argv, n + 1, i.fopen), (if input.Some? then [input.value] else []) + texts;
    assert args == Readable(texts);
    assert Sources(i.stdin, args) == Readable(all);
    HcatIsCat(x.buffer, i.stdin, args);
    CatSendsPages(Output([], x.buffer, 0), all);
    assert [] + CatPages(x.buffer, all) == CatPages(x.buffer, all);
    TextsShownExactlyIff(x.buffer, all);
    assert Flatten(all) == (if input.Some? then input.value else []) + Flatten(texts) by {
      assert all[if input.Some? then 1 else 0..] == texts;
    }
    CatStatus(Output([], x.buffer, 0), Readable(all));
    TotalIsLength(all);
    var o := HcatOn(x.buffer, i.stdin, args).0;
    assert w.cpu == V1 ==> (x.prints + o.pages)[|x.prints|..] == o.pages;
    assert w.cpu != V1 ==> x.prints + [] == x.prints;
  }

  lemma {:induction false} TotalIsLength(texts: seq<string>)
    ensures Total(Readable(texts)) == |Flatten(texts)| && AllOpen(Readable(texts))
  {
    if texts != [] {
      assert Readable(texts)[1..] == Readable(texts[1..]);
      TotalIsLength(texts[1..]);
    }
  }

  // ---------------------------------------------------------------- the tool

  class Tool {
    const inputs: Inputs
    const agent: Agent
    var optind: nat

    constructor (inputs: Inputs, agent: Agent)
      ensures this.inputs == inputs && this.agent == agent && optind == 0
    {
      this.inputs, this.agent, optind := inputs, agent, 0;
    }

    /** The host runs, and the CPU type is known. */
    ghost predicate Ready()
      reads this, agent, agent.host
    {
      agent.Valid() && agent.cpu != Invalid && !agent.host.aborted && optind <= |inputs.argv|
    }

    ghost function Now(): World
      requires agent.Valid()
      reads agent, agent.host, agent.printBuffer
    {
      var h := agent.host;
      World(agent.Now(), Push(h.dumps, h.flags, h.aborted), h.prints, h.ranges, h.calls, agent.printBuffer[..])
    }

    /** main(), in a process that has just been started: whatever the CPU, no hypercall is guarded
        by a type that is not known, as every method below that places one requires. */
    method Start(brand: Brand) returns (ret: int)
      requires agent.Valid() && !agent.host.aborted
      modifies this, agent, agent.fileName, agent.addresses, agent.mem, agent.printBuffer, agent.host
      ensures agent.Valid() && agent.cpu == Detected(old(agent.cpu), brand) != Invalid
      ensures (Now(), ret) == Dispatch(inputs, agent.Setup(), agent.host.config, old(Now()), 0)
    {
      var cpu := agent.GetNyxCpuType(brand);
      optind := 0;
      ret := CmdDispatch();
    }

    method CmdDispatch() returns (ret: int)
      requires Ready()
      modifies this, agent`files, agent`numAddresses, agent.fileName, agent.addresses, agent.mem, agent.printBuffer,
               agent.host
      ensures agent.Valid()
      ensures (Now(), ret) == Dispatch(inputs, agent.Setup(), agent.host.config, old(Now()), old(optind))
      decreases |inputs.argv| - optind, 1
    {
      hide Handle, Returns, Basename;
      var argv, i := inputs.argv, 0;
      while i < |CMD_LIST|
        invariant 0 <= i <= |CMD_LIST|
        invariant CommandAt(argv, optind) == Lookup(CMD_LIST[i..], Word(argv, optind))
      {
        var c := CMD_LIST[i];
        if IsPrefix(NameOf(c), Word(argv, optind)) {
          assert CommandAt(argv, optind) == Some(c);
          optind := optind + 1;
          if c == Self {
            ret := CmdVmcall();
          } else {
            ret := CallHandler(c);
          }
          return;
        }
        i := i + 1;
      }
      return -EINVAL;
    }

    method CmdVmcall() returns (ret: int)
      requires Ready()
      modifies this, agent`files, agent`numAddresses, agent.fileName, agent.addresses, agent.mem, agent.printBuffer,
               agent.host
      ensures agent.Valid()
      ensures var (x, r) := Dispatch(inputs, agent.Setup(), agent.host.config, old(Now()), old(optind));
              (Now(), ret) == (x, Returns(r, true))
      decreases |inputs.argv| - optind, 2
    {
      hide Dispatch;
      ret := CmdDispatch();
      if ret == -EINVAL {
        ret := 0;
      }
    }

    /** The call through the table. */
    method CallHandler(c: Command) returns (ret: int)
      requires Ready() && c != Self
      modifies agent`files, agent`numAddresses, agent.fileName, agent.addresses, agent.mem, agent.printBuffer,
               agent.host
      ensures agent.Valid() && (Now(), ret) == Handle(inputs, agent.Setup(), agent.host.config, old(Now()), c, optind)
    {
      hide HandleHcat, HandleHget, HandleHpush, HandleHrange, HandleCheck;
      match c {
        case Hcat => ret := CmdHcat();
        case Habort => ret := CmdHabort();
        case Hget => ret := CmdHget();
        case Hpush => ret := CmdHpush();
        case Hpanic => ret := CmdHpanic();
        case Hrange => ret := CmdHrange();
        case Hlock => ret := CmdHlock();
        case Check => ret := CmdCheck();
      }
    }

    method CmdHcat() returns (ret: int)
      requires Ready()
      modifies agent.printBuffer, agent.host`prints
      ensures agent.Valid() && (Now(), ret) == HandleHcat(inputs, agent.Setup(), old(Now()), optind)
    {
      hide HcatOn;
      ret := Concat.CmdHcat(agent, inputs.stdin, Arguments(inputs.argv, optind, inputs.fopen));
    }

    method CmdHabort() returns (ret: int)
      requires Ready()
      modifies agent.host`calls, agent.host`aborted
      ensures agent.Valid() && (Now(), ret) == (Stopped(agent.Setup(), old(Now())), 0)
    {
      agent.Place(UserAbort);
      ret := 0;
    }

    method CmdHpanic() returns (ret: int)
      requires Ready()
      modifies agent.host`calls, agent.host`aborted
      ensures agent.Valid()
      ensures Now() == Recorded(agent.Setup(), old(Now()), if optind < |inputs.argv| then PanicExtended else Panic)
              && ret == 0
    {
      if optind < |inputs.argv| {
        agent.Place(PanicExtended);
      } else {
        agent.Place(Panic);
      }
      ret := 0;
    }

    method CmdHlock() returns (ret: int)
      requires Ready()
      modifies agent.host`calls, agent.host`aborted
      ensures agent.Valid() && (Now(), ret) == (Recorded(agent.Setup(), old(Now()), Lock), 0)
    {
      agent.Place(Lock);
      ret := 0;
    }

    method CmdCheck() returns (ret: int)
      requires Ready()
      modifies agent.host`calls, agent.host`aborted
      ensures agent.Valid() && (Now(), ret) == HandleCheck(agent.Setup(), agent.host.config, old(Now()))
    {
      var found := if agent.cpu == V1 then 1 else if agent.cpu == V2 then 2 else 0;
      if found != 0 {
        var r := agent.CheckHostMagic();
        if r != 0 {
          agent.Place(UserAbort);
          return -found;
        }
      }
      return found;
    }

    method CmdHrange() returns (ret: int)
      requires Ready()
      modifies agent.host`ranges
      ensures agent.Valid() && (Now(), ret) == HandleHrange(inputs, agent.Setup(), old(Now()), optind)
    {
      hide Submitted;
      ret := SubmitRanges(Arguments(inputs.argv, optind, inputs.sscanf));
    }

    /** cmd_hrange()'s loop */
    method SubmitRanges(args: seq<Option<RangeArg>>) returns (ret: int)
      requires agent.cpu != Invalid
      modifies agent.host`ranges
      ensures ret == if |Submitted(args)| == |args| then 0 else -EINVAL
      ensures agent.host.ranges ==
              if agent.cpu == V1 then old(agent.host.ranges) + Submitted(args) else old(agent.host.ranges)
    {
      var i := 0;
      assert args[0..] == args;
      hide Submitted;
      while i < |args|
        invariant 0 <= i <= |args|
        invariant |Submitted(args)| == i + |Submitted(args[i..])|
        invariant agent.cpu == V1 ==>
                    old(agent.host.ranges) + Submitted(args) == agent.host.ranges + Submitted(args[i..])
        invariant agent.cpu != V1 ==> agent.host.ranges == old(agent.host.ranges)
      {
        SubmittedStep(args, i);
        if args[i].None? {
          return -EINVAL;
        }
        var RangeArg(id, start, end) := args[i].value;
        if id > 3 {
          return -EINVAL;
        }
        if start >= end {
          return -EINVAL;
        }
        if end % PAGE_SIZE != 0 {
          end := (end / PAGE_SIZE + 1) * PAGE_SIZE % TWO_64;
        }
        if start % PAGE_SIZE != 0 {
          start := start - start % PAGE_SIZE;
        }
        assert start == RoundDown(args[i].value.start) && end == RoundUp(args[i].value.end);
        hide RoundDown, RoundUp;
        agent.HrangeSubmit(id, start, end);
        i := i + 1;
      }
      return 0;
    }

    method CmdHget() returns (ret: int)
      requires Ready()
      modifies agent`files, agent`numAddresses, agent.fileName, agent.addresses, agent.mem
      modifies agent.host`cursors, agent.host`names
      ensures agent.Valid() && (Now(), ret) == HandleHget(inputs, agent.Setup(), old(Now()), optind)
    {
      hide HgetAll;
      var o := inputs.getopt(Hget, optind);
      if o.bad || o.operands == [] {
        return -EINVAL;
      }
      if o.output.Some? {
        ret := inputs.chdir(o.output.value);
        if ret != 0 {
          return;
        }
      }
      ret := FetchAll(o.operands);
    }

    /** cmd_hget()'s loop; the files land in what is now the current directory. */
    method FetchAll(paths: seq<CText>) returns (ret: int)
      requires agent.Valid() && agent.cpu != Invalid
      modifies agent`files, agent`numAddresses, agent.fileName, agent.addresses, agent.mem
      modifies agent.host`cursors, agent.host`names
      ensures agent.Valid() && (agent.Now(), ret) == HgetAll(agent.Setup(), old(agent.Now()), paths)
    {
      ret := 0;
      ghost var w := agent.Setup();
      ghost var whole := HgetAll(w, agent.Now(), paths);
      var i := 0;
      while i < |paths| && ret == 0
        invariant 0 <= i <= |paths| && agent.Valid() && agent.Setup() == w
        invariant whole == if ret == 0 then HgetAll(w, agent.Now(), paths[i..]) else (agent.Now(), ret)
      {
        assert paths[i..][1..] == paths[i + 1..];
        ret := agent.HgetFile(paths[i]);
        if ret != 0 {
          break;
        }
        i := i + 1;
      }
    }

    method CmdHpush() returns (ret: int)
      requires Ready()
      modifies agent.mem, agent.host`dumps, agent.host`flags, agent.host`aborted
      ensures agent.Valid() && (Now(), ret) == HandleHpush(inputs, old(Now()), optind)
    {
      hide Pushing, Basename;
      var o := inputs.getopt(Hpush, optind);
      if o.bad || |o.operands| != 1 {
        return -EINVAL;
      }
      var path := o.operands[0];
      var file := inputs.open(path);
      var src := new InFile(file.data, file.plan);
      if o.output.Some? {
        ret := agent.HpushFile(src, file.errno, o.output.value, o.append);
      } else {
        ret := agent.HpushFile(src, file.errno, Basename(path), o.append);
      }
    }
  }
}
