/** C strings and POSIX path names. */
module Text {

  const NUL: char := '\0'

  /** What a reader of a char buffer takes the string in it to be. */
  function CString(b: seq<char>): string {
    if b == [] || b[0] == NUL then [] else [b[0]] + CString(b[1..])
  }

  lemma {:induction false} CStringOf(s: string, rest: seq<char>)
    requires NUL !in s
    ensures CString(s + [NUL] + rest) == s
  {
    var b := s + [NUL] + rest;
    if s != [] {
      assert b[0] == s[0] && s[0] in s;
      assert b[1..] == s[1..] + [NUL] + rest;
      CStringOf(s[1..], rest);
    }
  }

  /** Comparing a buffer with a string, as strcmp() does. */
  lemma {:induction false} CStringIs(b: seq<char>, s: string)
    requires NUL !in s
    ensures CString(b) == s <==> IsPrefix(s, b) && (|b| == |s| || b[|s|] == NUL)
  {
    if b != [] && b[0] != NUL && s != [] {
      CStringIs(b[1..], s[1..]);
      assert CString(b) == [b[0]] + CString(b[1..]);
      assert s == [s[0]] + s[1..];
      if IsPrefix(s, b) {
        assert b[0] == b[..|s|][0] && b[1..][..|s| - 1] == b[..|s|][1..];
      }
      if b[0] == s[0] && IsPrefix(s[1..], b[1..]) {
        assert b[..|s|] == [b[0]] + b[1..][..|s| - 1];
      }
    }
  }

  /** Text without NUL reads on into what follows it. */
  lemma {:induction false} CStringReadsOn(s: string, rest: seq<char>)
    requires NUL !in s
    ensures CString(s + rest) == s + CString(rest)
  {
    var b := s + rest;
    if s == [] {
      assert b == rest;
    } else {
      assert b[0] == s[0] && s[0] in s;
      assert b[1..] == s[1..] + rest;
      CStringReadsOn(s[1..], rest);
      assert s == [s[0]] + s[1..];
    }
  }

  lemma {:induction false} CStringLength(b: seq<char>)
    ensures |CString(b)| <= |b|
    ensures |CString(b)| == |b| <==> NUL !in b
    ensures CString(b) == [] <==> b == [] || b[0] == NUL
  {
    if b != [] && b[0] != NUL {
      CStringLength(b[1..]);
      assert b == [b[0]] + b[1..];
    }
  }

  predicate IsPrefix(p: string, s: string) {
    |p| <= |s| && s[..|p|] == p
  }

  /** strstr() finds the pattern. */
  predicate Contains(s: string, pattern: string) {
    exists i :: 0 <= i <= |s| && IsPrefix(pattern, s[i..])
  }

  lemma PrefixIff(p: string, s: string)
    ensures IsPrefix(p, s) <==> exists rest :: s == p + rest
  {
    if IsPrefix(p, s) {
      assert s == p + s[|p|..];
    }
  }

  /** Wherever in the text the pattern stands. */
  lemma ContainsIff(s: string, pattern: string)
    ensures Contains(s, pattern) <==> exists before, behind :: s == before + pattern + behind
  {
    if i :| 0 <= i <= |s| && IsPrefix(pattern, s[i..]) {
      assert s == s[..i] + pattern + s[i..][|pattern|..];
    }
    if before, behind :| s == before + pattern + behind {
      ContainsAt(before, pattern, behind);
    }
  }

  lemma ContainsAt(before: string, pattern: string, behind: string)
    ensures Contains(before + pattern + behind, pattern)
  {
    var s := before + pattern + behind;
    assert s[|before|..] == pattern + behind && IsPrefix(pattern, s[|before|..]);
  }

  function StripSlashes(s: string): string {
    if s != [] && s[|s|-1] == '/' then StripSlashes(s[..|s|-1]) else s
  }

  function AfterLastSlash(s: string): string {
    if s == [] || s[|s|-1] == '/' then [] else AfterLastSlash(s[..|s|-1]) + [s[|s|-1]]
  }

  /** basename() of POSIX, for a path that is not null. */
  function Basename(path: string): string {
    if path == [] then "."
    else if StripSlashes(path) == [] then "/"
    else AfterLastSlash(StripSlashes(path))
  }

  ghost predicate AllSlashes(s: string) {
    forall i :: 0 <= i < |s| ==> s[i] == '/'
  }

  lemma {:induction false} StripSlashesParts(s: string)
    ensures |StripSlashes(s)| <= |s| && s[..|StripSlashes(s)|] == StripSlashes(s) && AllSlashes(s[|StripSlashes(s)|..])
    ensures StripSlashes(s) != [] ==> StripSlashes(s)[|StripSlashes(s)|-1] != '/'
  {
    if s != [] && s[|s|-1] == '/' {
      StripSlashesParts(s[..|s|-1]);
    }
  }

  lemma {:induction false} AfterLastSlashParts(s: string)
    ensures var r := AfterLastSlash(s); var k := |s| - |r|;
            k >= 0 && s[k..] == r && '/' !in r && (k == 0 || s[k-1] == '/')
  {
    if s != [] && s[|s|-1] != '/' {
      AfterLastSlashParts(s[..|s|-1]);
    }
  }

  /** The base name is the last component: what stands before it is empty or ends with a
      slash, and only slashes stand behind it. */
  lemma BasenameIsLastComponent(path: string)
    ensures var r := Basename(path);
            if path == [] then r == "." else if AllSlashes(path) then r == "/" else
            r != [] && '/' !in r &&
            exists i, j :: 0 <= i <= j <= |path| && path[i..j] == r && AllSlashes(path[j..]) &&
              (i == 0 || path[i-1] == '/')
  {
    var t := StripSlashes(path);
    StripSlashesParts(path);
    AfterLastSlashParts(t);
    var r := AfterLastSlash(t);
    var i, j := |t| - |r|, |t|;
    if path == [] {
      return;
    }
    assert AllSlashes(path) <==> t == [] by {
      assert t != [] ==> path[|t| - 1] != '/';
      assert t == [] ==> path[0..] == path;
    }
    assert path[i..j] == r && AllSlashes(path[j..]) && (i == 0 || path[i-1] == '/');
  }
}
