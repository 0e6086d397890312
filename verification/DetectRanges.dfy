/** The forkserver's search of its memory map for ranges to trace, and the decision that hangs on
    it whether the fork loop is entered. */
module DetectRanges {
  import opened NyxApi
  import opened Text
  import opened Sharedir
  import opened NyxAgent

  const TWO_32 := 0x1_0000_0000

  // An executable mapping with a path name, as sscanf() takes it from a line of the map.
  datatype MapLine = MapLine(start: uint64, end: uint64, path: string)

  /** All three fields were found and strstr() finds the pattern in the path. */
  predicate Matches(line: Option<MapLine>, pattern: string) {
    line.Some? && Contains(line.value.path, pattern)
  }

  function Count(lines: seq<Option<MapLine>>, pattern: string): nat {
    if lines == [] then 0 else (if Matches(lines[0], pattern) then 1 else 0) + Count(lines[1..], pattern)
  }

  /** The ranges submitted when the counter, an unsigned int, starts at region. */
  function Ranges(lines: seq<Option<MapLine>>, pattern: string, region: nat): seq<Range>
    decreases |lines|
  {
    if lines == [] then []
    else if Matches(lines[0], pattern) then
      [Range(region % TWO_32, lines[0].value.start, lines[0].value.end)] + Ranges(lines[1..], pattern, region + 1)
    else Ranges(lines[1..], pattern, region)
  }

  /** There is one range for each matching line and no other; the j-th of them is the matching
      line that j matching lines precede, under the number j. */
  lemma {:induction false} RangesAreMatchingLines(lines: seq<Option<MapLine>>, pattern: string, region: nat, k: nat)
    ensures |Ranges(lines, pattern, region)| == Count(lines, pattern)
    ensures k < |lines| && Matches(lines[k], pattern) ==>
              var j := Count(lines[..k], pattern);
              j < Count(lines, pattern)
              && Ranges(lines, pattern, region)[j] ==
                Range((region + j) % TWO_32, lines[k].value.start, lines[k].value.end)
    decreases |lines|
  {
    if lines != [] {
      var rest := lines[1..];
      var here := if Matches(lines[0], pattern) then 1 else 0;
      RangesAreMatchingLines(rest, pattern, region + here, if k == 0 then 0 else k - 1);
      if 0 < k < |lines| {
        assert lines[..k][1..] == rest[..k-1];
        assert Count(lines[..k], pattern) == here + Count(rest[..k-1], pattern);
      }
    }
  }

  /** A line of which all three fields were found, and whose path has the pattern somewhere in it,
      is submitted: its own bounds, under the number of such lines before it. */
  lemma MatchingLineIsSubmitted(
    lines: seq<Option<MapLine>>, pattern: string, k: nat, before: string, behind: string)
    returns (j: nat)
    requires k < |lines| && lines[k].Some? && lines[k].value.path == before + pattern + behind
    ensures j <= k && j < |Ranges(lines, pattern, 0)|
    ensures Ranges(lines, pattern, 0)[j] == Range(j % TWO_32, lines[k].value.start, lines[k].value.end)
  {
    hide Contains, Ranges;
    ContainsAt(before, pattern, behind);
    RangesAreMatchingLines(lines, pattern, 0, k);
    j := Count(lines[..k], pattern);
    CountAtMost(lines[..k], pattern);
  }

  /** And nothing else is. */
  lemma {:induction false} SubmittedIsMatchingLine(
    lines: seq<Option<MapLine>>, pattern: string, region: nat, j: nat)
    returns (k: nat, before: string, behind: string)
    requires j < |Ranges(lines, pattern, region)|
    ensures k < |lines| && lines[k].Some? && lines[k].value.path == before + pattern + behind
    ensures Ranges(lines, pattern, region)[j] ==
            Range((region + j) % TWO_32, lines[k].value.start, lines[k].value.end)
    decreases |lines|
  {
    if Matches(lines[0], pattern) && j == 0 {
      k := 0;
      ContainsIff(lines[0].value.path, pattern);
      before, behind :| lines[0].value.path == before + pattern + behind;
    } else {
      var here := if Matches(lines[0], pattern) then 1 else 0;
      k, before, behind := SubmittedIsMatchingLine(lines[1..], pattern, region + here, j - here);
      k := k + 1;
    }
  }

  lemma {:induction false} CountAtMost(lines: seq<Option<MapLine>>, pattern: string)
    ensures Count(lines, pattern) <= |lines|
  {
    if lines != [] {
      CountAtMost(lines[1..], pattern);
    }
  }

  lemma {:induction false} CountPositive(lines: seq<Option<MapLine>>, pattern: string)
    ensures Count(lines, pattern) > 0 <==> exists k :: 0 <= k < |lines| && Matches(lines[k], pattern)
  {
    if lines != [] {
      CountPositive(lines[1..], pattern);
      if k :| 0 <= k < |lines| && Matches(lines[k], pattern) {
        assert k > 0 ==> lines[1..][k-1] == lines[k];
      }
      if k :| 0 <= k < |lines| - 1 && Matches(lines[1..][k], pattern) {
        assert lines[k + 1] == lines[1..][k];
      }
    }
  }

  /** The unsigned counter, returned as an int. */
  function AsInt(region: nat): int {
    var low := region % TWO_32;
    if low < 0x8000_0000 then low else low - TWO_32
  }

  lemma CountStep(lines: seq<Option<MapLine>>, pattern: string, i: nat)
    requires i < |lines|
    ensures Count(lines[..i + 1], pattern) == Count(lines[..i], pattern) + if Matches(lines[i], pattern) then 1 else 0
    ensures Ranges(lines[..i + 1], pattern, 0) == Ranges(lines[..i], pattern, 0) +
              if !Matches(lines[i], pattern) then []
              else [Range(Count(lines[..i], pattern) % TWO_32, lines[i].value.start, lines[i].value.end)]
  {
    assert lines[..i + 1] == lines[..i] + [lines[i]];
    CountSnoc(lines[..i], lines[i], pattern);
    RangesSnoc(lines[..i], lines[i], pattern, 0);
  }

  lemma {:induction false} CountSnoc(lines: seq<Option<MapLine>>, line: Option<MapLine>, pattern: string)
    ensures Count(lines + [line], pattern) == Count(lines, pattern) + if Matches(line, pattern) then 1 else 0
  {
    if lines == [] {
      assert (lines + [line])[1..] == [];
    } else {
      assert (lines + [line])[1..] == lines[1..] + [line];
      CountSnoc(lines[1..], line, pattern);
    }
  }

  lemma {:induction false} RangesSnoc(lines: seq<Option<MapLine>>, line: Option<MapLine>, pattern: string, region: nat)
    ensures Ranges(lines + [line], pattern, region) == Ranges(lines, pattern, region) +
              if !Matches(line, pattern) then []
              else [Range((region + Count(lines, pattern)) % TWO_32, line.value.start, line.value.end)]
    decreases |lines|
  {
    if lines == [] {
      assert (lines + [line])[1..] == [];
    } else {
      assert (lines + [line])[1..] == lines[1..] + [line];
      RangesSnoc(lines[1..], line, pattern, region + if Matches(lines[0], pattern) then 1 else 0);
    }
  }

  /** detectranges(): open(f) is the parsed content of f, None if it cannot be opened. */
  method DetectRanges(
    agent: Agent, mapfile: Option<string>, pattern: Option<string>,
    open: string -> Option<seq<Option<MapLine>>>)
    returns (ret: int)
    requires agent.cpu != Invalid && !agent.host.aborted
    modifies agent.host`ranges, agent.host`aborted
    ensures mapfile.None? || pattern.None? ==> ret == -1 && agent.host.ranges == old(agent.host.ranges)
    ensures agent.host.aborted <==> mapfile.Some? && pattern.Some? && open(mapfile.value).None?
    ensures mapfile.Some? && pattern.Some? && open(mapfile.value).Some? ==>
              var lines := open(mapfile.value).value;
              && ret == AsInt(Count(lines, pattern.value))
              && agent.host.ranges == old(agent.host.ranges) +
                   if agent.cpu == V1 then Ranges(lines, pattern.value, 0) else []
  {
    if mapfile.None? || pattern.None? {
      return -1;
    }
    var fp := open(mapfile.value);
    if fp.None? {
      agent.host.Abort();
      return 0;
    }
    var lines := fp.value;
    var region := 0;
    var i := 0;
    while i < |lines|
      modifies agent.host`ranges
      invariant 0 <= i <= |lines|
      invariant region == Count(lines[..i], pattern.value) % TWO_32
      invariant agent.host.ranges == old(agent.host.ranges) +
                  if agent.cpu == V1 then Ranges(lines[..i], pattern.value, 0) else []
    {
      hide Contains, Ranges, Count;
      CountStep(lines, pattern.value, i);
      if lines[i].Some? {
        var MapLine(start, end, file) := lines[i].value;
        if Contains(file, pattern.value) {
          agent.HrangeSubmit(region, start, end);
          region := (region + 1) % TWO_32;
        }
      }
      i := i + 1;
    }
    assert lines[..|lines|] == lines;
    return if region < 0x8000_0000 then region else region - TWO_32;
  }

  /** "bison" stands somewhere in the path. */
  ghost predicate HasBison(path: string) {
    exists before, behind :: path == before + "bison" + behind
  }

  /** The forkserver up to its fork loop, which is entered unless the host has been told to abort:
      only with at least one matching line, and with every number of them that an int can hold. */
  method SetUpRanges(agent: Agent, open: string -> Option<seq<Option<MapLine>>>)
    requires agent.cpu != Invalid && !agent.host.aborted
    modifies agent.host`ranges, agent.host`aborted
    ensures var maps := open("/proc/self/maps");
            && (!agent.host.aborted ==>
                  maps.Some? && exists k :: 0 <= k < |maps.value| && Matches(maps.value[k], "bison"))
            && (!agent.host.aborted <==> maps.Some? && 1 <= Count(maps.value, "bison") % TWO_32 < 0x8000_0000)
            && (maps.Some? && |maps.value| < 0x8000_0000 ==>
                  (!agent.host.aborted <==>
                     exists k :: 0 <= k < |maps.value| && maps.value[k].Some? && HasBison(maps.value[k].value.path)))
            && (!agent.host.aborted && agent.cpu == V1 ==>
                  agent.host.ranges == old(agent.host.ranges) + Ranges(maps.value, "bison", 0))
  {
    var ret := DetectRanges(agent, Some("/proc/self/maps"), Some("bison"), open);
    if agent.host.aborted {
      return;
    }
    var lines := open("/proc/self/maps").value;
    CountPositive(lines, "bison");
    CountAtMost(lines, "bison");
    forall k | 0 <= k < |lines| && lines[k].Some?
      ensures Matches(lines[k], "bison") <==> HasBison(lines[k].value.path)
    {
      ContainsIff(lines[k].value.path, "bison");
    }
    hide Contains, HasBison;
    if ret < 1 {
      agent.host.Abort();
    }
  }
}
