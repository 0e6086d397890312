/** vmcall's hcat command: several files streamed through one static buffer to the console. */
module Hcat {
  import opened NyxApi
  import opened Text
  import opened Sharedir
  import opened NyxAgent

  // A stream that can be opened: what it yields until it ends, or until a read fails.
  datatype Source = Source(text: seq<char>, broken: bool)

  type Buffer = b: seq<char> | |b| == HPRINTF_MAX_SIZE witness seq(HPRINTF_MAX_SIZE, _ => NUL)

  const ZEROED: Buffer := seq(HPRINTF_MAX_SIZE, _ => NUL)

  // What has been sent to the console, the static buffer, and the count of bytes, a size_t.
  datatype Output = Output(pages: seq<seq<char>>, buffer: Buffer, written: uint64)

  /** The value that hprintf_from_file() returns, an ssize_t. */
  function Returned(s: Source): int { if s.broken then -1 else |s.text| }

  /** One file more. A read error takes one off the count, as the error value is added to it. */
  function Streamed(o: Output, s: Source): Output {
    var pages := Pages(o.buffer, s.text);
    var sent := if s.broken then pages[..|pages|-1] else pages;
    Output(o.pages + sent, pages[|pages|-1], (o.written + Returned(s)) % TWO_64)
  }

  /** The conversion of the count to the int that is returned. */
  function ToInt(n: uint64): int {
    var low := n % 0x1_0000_0000;
    if low < 0x8000_0000 then low else low - 0x1_0000_0000
  }

  /** The loop over the file arguments, None where one cannot be opened: what is sent, and the
      value returned. */
  function Cat(o: Output, files: seq<Option<Source>>): (Output, int)
    decreases |files|
  {
    if files == [] then (o, if o.written > 0 then 0 else 1)
    else if files[0].None? then (o, ToInt(o.written))
    else Cat(Streamed(o, files[0].value), files[1..])
  }

  /** The whole command, from the static buffer as it is: standard input first, unless that is a
      terminal, and then the file arguments. */
  function HcatOn(buffer: Buffer, stdin: Option<Source>, args: seq<Option<Source>>): (Output, int) {
    var start := Output([], buffer, 0);
    Cat(if stdin.Some? then Streamed(start, stdin.value) else start, args)
  }

  function Sources(stdin: Option<Source>, args: seq<Option<Source>>): seq<Option<Source>> {
    (if stdin.Some? then [stdin] else []) + args
  }

  lemma HcatIsCat(buffer: Buffer, stdin: Option<Source>, args: seq<Option<Source>>)
    ensures HcatOn(buffer, stdin, args) == Cat(Output([], buffer, 0), Sources(stdin, args))
  {
    assert stdin.Some? ==> Sources(stdin, args)[1..] == args;
    assert stdin.None? ==> Sources(stdin, args) == args;
  }

  // ---------------------------------------------------------------- the exit status

  ghost predicate AllOpen(files: seq<Option<Source>>) { None !in files }

  /** The sum of what the files return, up to the first that cannot be opened. */
  function Total(files: seq<Option<Source>>): int {
    if files == [] || files[0].None? then 0 else Returned(files[0].value) + Total(files[1..])
  }

  lemma StreamedWritten(o: Output, s: Source)
    ensures Streamed(o, s).written == (o.written + Returned(s)) % TWO_64
  {
  }

  lemma AddMod(a: int, b: int, c: int)
    ensures ((a + b) % TWO_64 + c) % TWO_64 == (a + (b + c)) % TWO_64
  {
    var q := (a + b) / TWO_64;
    assert a + b + c == (a + b) % TWO_64 + c + q * TWO_64;
  }

  /** The count is the sum, and the status is a function of it. */
  lemma {:induction false} CatStatus(o: Output, files: seq<Option<Source>>)
    ensures var (n, status) := Cat(o, files);
            && n.written == (o.written + Total(files)) % TWO_64
            && status == if AllOpen(files) then (if n.written > 0 then 0 else 1) else ToInt(n.written)
    decreases |files|
  {
    hide ToInt, Streamed, Returned;
    if files != [] && files[0].Some? {
      var s, rest := files[0].value, files[1..];
      CatStatus(Streamed(o, s), rest);
      StreamedWritten(o, s);
      AddMod(o.written, Returned(s), Total(rest));
      assert files == [files[0]] + rest;
    }
  }

  /** What main() returns for what the command returns: cmd_vmcall() takes EINVAL for success. */
  function Returns(ret: int, viaVmcall: bool): int {
    if viaVmcall && ret == -EINVAL then 0 else ret
  }

  /** What the caller of the process sees of that. */
  function ExitStatus(ret: int): nat { ret % 256 }

  lemma LowByte(n: int)
    ensures ExitStatus(ToInt(n % TWO_64)) == n % 256
    ensures ToInt(n % TWO_64) == -EINVAL <==> n % 0x1_0000_0000 == 0x1_0000_0000 - EINVAL
  {
    var m, q := n % TWO_64, n / TWO_64;
    assert n == m + (q * 0x1_0000_0000) * 0x1_0000_0000;
    assert n == m + (q * 0x1_0000_0000 * 0x100_0000) * 256;
    var low, high := m % 0x1_0000_0000, m / 0x1_0000_0000;
    assert m == low + (high * 0x100_0000) * 256;
    assert low - 0x1_0000_0000 == low - 0x100_0000 * 256;
  }

  /** The process reports success exactly if it has read a number of bytes that is not zero in 64
      bits; or, when a file cannot be opened, if the number read by then is zero in eight: as when
      the first file named does not exist. Called through vmcall it also takes for success the
      one number that looks like EINVAL. On types other than v1 the same holds of the bytes read,
      although none is sent. */
  lemma SuccessIff(buffer: Buffer, stdin: Option<Source>, args: seq<Option<Source>>, viaVmcall: bool)
    ensures var files := Sources(stdin, args);
            ExitStatus(Returns(HcatOn(buffer, stdin, args).1, viaVmcall)) == 0 <==>
            if AllOpen(files) then Total(files) % TWO_64 != 0
            else Total(files) % 256 == 0 || (viaVmcall && Total(files) % 0x1_0000_0000 == 0x1_0000_0000 - EINVAL)
  {
    hide ToInt, Total, AllOpen, Cat, HcatOn;
    HcatIsCat(buffer, stdin, args);
    CatStatus(Output([], buffer, 0), Sources(stdin, args));
    LowByte(Total(Sources(stdin, args)));
  }

  lemma MissingFileSucceeds()
    ensures Cat(Output([], ZEROED, 0), [None]) == (Output([], ZEROED, 0), 0)
  {
  }

  /** And so does a missing file behind 256 bytes. */
  lemma MissingSecondFileSucceeds(text: seq<char>)
    requires |text| == 256
    ensures Cat(Output([], ZEROED, 0), [Some(Source(text, false)), None]).1 == 256 && ExitStatus(256) == 0
  {
    var files := [Some(Source(text, false)), None];
    var o := Output([], ZEROED, 0);
    assert files[1..] == [None] && files[1..][0].None?;
    assert Cat(o, files) == Cat(Streamed(o, Source(text, false)), files[1..]);
    StreamedWritten(o, Source(text, false));
  }

  // ---------------------------------------------------------------- what the console shows

  /** The buffers sent for readable texts, each streamed over what the one before it left. */
  function CatPages(buffer: Buffer, texts: seq<string>): seq<seq<char>>
    decreases |texts|
  {
    if texts == [] then []
    else
      var pages := Pages(buffer, texts[0]);
      pages + CatPages(pages[|pages|-1], texts[1..])
  }

  function Readable(texts: seq<string>): seq<Option<Source>> {
    seq(|texts|, i requires 0 <= i < |texts| => Some(Source(texts[i], false)))
  }

  lemma {:induction false} CatSendsPages(o: Output, texts: seq<string>)
    ensures Cat(o, Readable(texts)).0.pages == o.pages + CatPages(o.buffer, texts)
    decreases |texts|
  {
    if texts == [] {
      assert o.pages + [] == o.pages;
    } else {
      var pages := Pages(o.buffer, texts[0]);
      assert Readable(texts)[1..] == Readable(texts[1..]);
      CatSendsPages(Streamed(o, Source(texts[0], false)), texts[1..]);
      assert (o.pages + pages) + CatPages(pages[|pages|-1], texts[1..]) == o.pages + CatPages(o.buffer, texts);
    }
  }

  function Flatten(texts: seq<string>): string {
    if texts == [] then [] else texts[0] + Flatten(texts[1..])
  }

  lemma {:induction false} ConsoleConcat(a: seq<seq<char>>, b: seq<seq<char>>)
    ensures Console(a + b) == Console(a) + Console(b)
  {
    if a == [] {
      assert a + b == b;
    } else {
      assert (a + b)[1..] == a[1..] + b;
      ConsoleConcat(a[1..], b);
    }
  }

  /** No text is shown short, whatever the buffer holds. */
  lemma ShownInFull(buffer: Buffer, text: string)
    requires NUL !in text
    ensures |Console(Pages(buffer, text))| >= |text|
    ensures |text| >= HPRINTF_MAX_SIZE ==> |Console(Pages(buffer, text))| > |text|
  {
    var pages := Pages(buffer, text);
    if |text| < HPRINTF_MAX_SIZE {
      CStringReadsOn(text, buffer[|text|..]);
    } else {
      var first, rest := text[..HPRINTF_MAX_SIZE], text[HPRINTF_MAX_SIZE..];
      CStringLength(first);
      ConsoleLength(first, rest);
      assert pages[1..] == Pages(first, rest);
    }
  }

  lemma ShownExactlyIff(buffer: Buffer, text: string)
    requires NUL !in text
    ensures Console(Pages(buffer, text)) == text <==> |text| < HPRINTF_MAX_SIZE && buffer[|text|] == NUL
    ensures Console(Pages(buffer, text)) == text ==>
              var pages := Pages(buffer, text); pages[|pages|-1] == text + buffer[|text|..]
    ensures Console(Pages(buffer, text)) != text ==> |Console(Pages(buffer, text))| > |text|
  {
    ConsoleShowsStreamIff(buffer, text);
    ShownInFull(buffer, text);
    if |text| < HPRINTF_MAX_SIZE {
      assert Pages(buffer, text)[1..] == [] && Console([]) == [];
      assert Console(Pages(buffer, text)) == CString(Page(buffer, text)) + [];
      CStringReadsOn(text, buffer[|text|..]);
    }
  }

  lemma {:induction false} AllShownInFull(buffer: Buffer, texts: seq<string>)
    requires forall t :: t in texts ==> NUL !in t
    ensures |Console(CatPages(buffer, texts))| >= |Flatten(texts)|
    decreases |texts|
  {
    if texts != [] {
      var pages := Pages(buffer, texts[0]);
      ConsoleConcat(pages, CatPages(pages[|pages|-1], texts[1..]));
      ShownInFull(buffer, texts[0]);
      AllShownInFull(pages[|pages|-1], texts[1..]);
    }
  }

  /** Each text fits the buffer, is no shorter than the one before it, and ends where the buffer has
      a terminator. */
  predicate Fits(buffer: Buffer, m: nat, texts: seq<string>)
    decreases |texts|
  {
    texts == [] ||
    (m <= |texts[0]| < HPRINTF_MAX_SIZE && buffer[|texts[0]|] == NUL && Fits(buffer, |texts[0]|, texts[1..]))
  }

  lemma {:induction false} FitsBehind(a: Buffer, b: Buffer, m: nat, texts: seq<string>)
    requires forall k :: m <= k < HPRINTF_MAX_SIZE ==> a[k] == b[k]
    ensures Fits(a, m, texts) <==> Fits(b, m, texts)
    decreases |texts|
  {
    if texts != [] && m <= |texts[0]| < HPRINTF_MAX_SIZE {
      FitsBehind(a, b, |texts[0]|, texts[1..]);
    }
  }

  /** The console shows several texts as they are, one after another, exactly if none is shorter than
      its predecessor, and each ends where the buffer that they all go through had a terminator
      before the first; any other list is shown with leftovers. */
  lemma TextsShownExactlyIff(buffer: Buffer, texts: seq<string>)
    requires forall t :: t in texts ==> NUL !in t
    ensures Console(CatPages(buffer, texts)) == Flatten(texts) <==> Fits(buffer, 0, texts)
  {
    TextsShownBehind(buffer, 0, texts);
  }

  lemma {:induction false} TextsShownBehind(buffer: Buffer, m: nat, texts: seq<string>)
    requires m <= HPRINTF_MAX_SIZE && NUL !in buffer[..m] && forall t :: t in texts ==> NUL !in t
    ensures Console(CatPages(buffer, texts)) == Flatten(texts) <==> Fits(buffer, m, texts)
    decreases |texts|
  {
    if texts != [] {
      var text, rest, pages := texts[0], texts[1..], Pages(buffer, texts[0]);
      var left := pages[|pages|-1];
      var shown, shownRest := Console(pages), Console(CatPages(left, rest));
      ConsoleConcat(pages, CatPages(left, rest));
      ShownExactlyIff(buffer, text);
      AllShownInFull(left, rest);
      assert |text| < m ==> buffer[|text|] in buffer[..m];
      if shown == text {
        assert left[..|text|] == text;
        TextsShownBehind(left, |text|, rest);
        FitsBehind(left, buffer, |text|, rest);
        if shown + shownRest == text + Flatten(rest) {
          assert shownRest == (shown + shownRest)[|text|..] == Flatten(rest);
        }
      } else {
        assert |shown + shownRest| > |text + Flatten(rest)|;
      }
    }
  }

  /** Each text is shorter than the buffer and no shorter than the one before it. */
  predicate Climbing(m: nat, texts: seq<string>)
    decreases |texts|
  {
    texts == [] || (m <= |texts[0]| < HPRINTF_MAX_SIZE && Climbing(|texts[0]|, texts[1..]))
  }

  lemma {:induction false} FitsZeroed(m: nat, texts: seq<string>)
    ensures Fits(ZEROED, m, texts) <==> Climbing(m, texts)
    decreases |texts|
  {
    if texts != [] {
      FitsZeroed(|texts[0]|, texts[1..]);
    }
  }

  /** As a freshly started process sends what it reads, the standard input included. */
  lemma HcatShowsTextsIff(stdin: Option<Source>, args: seq<Option<Source>>, texts: seq<string>)
    requires Sources(stdin, args) == Readable(texts) && forall t :: t in texts ==> NUL !in t
    ensures Console(HcatOn(ZEROED, stdin, args).0.pages) == Flatten(texts) <==> Climbing(0, texts)
  {
    hide HcatOn, Cat;
    HcatIsCat(ZEROED, stdin, args);
    CatSendsPages(Output([], ZEROED, 0), texts);
    assert [] + CatPages(ZEROED, texts) == CatPages(ZEROED, texts);
    TextsShownExactlyIff(ZEROED, texts);
    FitsZeroed(0, texts);
  }

  /** For instance, a shorter second text is shown with the end of the first. */
  lemma ShorterTextShowsMore()
    ensures Console(HcatOn(ZEROED, None, Readable(["bb", "a"])).0.pages) != "bba"
  {
    var texts := ["bb", "a"];
    assert texts[1..] == ["a"] && ["a"][1..] == [];
    assert Flatten([]) == [] && Flatten(["a"]) == "a" + [] && Flatten(texts) == "bb" + Flatten(["a"]);
    assert !Climbing(2, ["a"]);
    assert Sources(None, Readable(texts)) == Readable(texts);
    HcatShowsTextsIff(None, Readable(texts), texts);
  }

  // ---------------------------------------------------------------- the command

  ghost predicate Sending(agent: Agent, before: seq<seq<char>>, o: Output)
    reads agent, agent.printBuffer, agent.host`prints
  {
    && agent.printBuffer[..] == o.buffer
    && agent.host.prints == before + (if agent.cpu == V1 then o.pages else [])
  }

  method StreamOne(agent: Agent, s: Source, ghost before: seq<seq<char>>, ghost o: Output) returns (ret: int)
    requires agent.Valid() && agent.cpu != Invalid && Sending(agent, before, o)
    modifies agent.printBuffer, agent.host`prints
    ensures ret == Returned(s) && Sending(agent, before, Streamed(o, s))
  {
    PagesOntoIsPages([], o.buffer, s.text);
    ret := agent.HprintfFromFile(s.text, s.broken);
  }

  /** cmd_hcat(): standard input first unless it is a terminal, then each file argument. */
  method CmdHcat(agent: Agent, stdin: Option<Source>, files: seq<Option<Source>>) returns (ret: int)
    requires agent.Valid() && agent.cpu != Invalid
    modifies agent.printBuffer, agent.host`prints
    ensures var (o, status) := HcatOn(old(agent.printBuffer[..]), stdin, files);
            ret == status && Sending(agent, old(agent.host.prints), o)
  {
    ghost var before := agent.host.prints;
    ghost var o := Output([], agent.printBuffer[..], 0);
    var written: uint64 := 0;
    if stdin.Some? {
      var n := StreamOne(agent, stdin.value, before, o);
      written := (written + n) % TWO_64;
      o := Streamed(o, stdin.value);
    }
    ghost var whole := Cat(o, files);
    var i := 0;
    assert files[0..] == files;
    while i < |files|
      invariant 0 <= i <= |files| && agent.Valid() && Sending(agent, before, o) && o.written == written
      invariant whole == Cat(o, files[i..])
    {
      hide Sending, Streamed;
      assert files[i..][1..] == files[i + 1..];
      if files[i].None? {
        return ToInt(written);
      }
      var n := StreamOne(agent, files[i].value, before, o);
      written := (written + n) % TWO_64;
      StreamedWritten(o, files[i].value);
      o := Streamed(o, files[i].value);
      i := i + 1;
    }
    return if written > 0 then 0 else 1;
  }
}
