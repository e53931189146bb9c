/** The names of flags and the files the flags are saved in (communicator/flags.cpp). */
module FlagNames {

  predicate IsLetter(c: char) {
    'a' <= c <= 'z' || 'A' <= c <= 'Z'
  }

  predicate IsDigit(c: char) {
    '0' <= c <= '9'
  }

  predicate IsAlnum(c: char) {
    IsLetter(c) || IsDigit(c)
  }

  function LowerChar(c: char): char {
    if 'A' <= c <= 'Z' then (c as int + 0x20) as char else c
  }

  function Lower(s: string): (r: string)
    ensures |r| == |s|
  {
    seq(|s|, i requires 0 <= i < |s| => LowerChar(s[i]))
  }

  // ---- the language of names ----------------------------------------------

  function Join(segments: seq<string>): string
    requires segments != []
  {
    if |segments| == 1 then segments[0] else segments[0] + "-" + Join(segments[1..])
  }

  predicate IsSegment(s: string) {
    s != "" && forall i :: 0 <= i < |s| ==> IsAlnum(s[i])
  }

  ghost predicate AreSegments(segments: seq<string>) {
    segments != [] && forall i :: 0 <= i < |segments| ==> IsSegment(segments[i])
  }

  /** Letters and digits in segments separated by single dashes, starting with a letter. */
  ghost predicate IsName(s: string) {
    exists segments :: AreSegments(segments) && IsLetter(segments[0][0]) && s == Join(segments)
  }

  /** The same, character by character; the first character may be a digit. */
  ghost predicate IsDashed(s: string) {
    && s != ""
    && (forall i :: 0 <= i < |s| ==> IsAlnum(s[i]) || s[i] == '-')
    && s[0] != '-' && s[|s| - 1] != '-'
    && (forall i :: 0 < i < |s| ==> s[i - 1] != '-' || s[i] != '-')
  }

  lemma {:induction false} JoinIsDashed(segments: seq<string>)
    requires AreSegments(segments)
    ensures IsDashed(Join(segments)) && Join(segments)[0] == segments[0][0]
  {
    assert IsSegment(segments[0]);
    if |segments| > 1 {
      JoinIsDashed(segments[1..]);
    }
  }

  lemma {:induction false} DashedIsJoin(s: string) returns (segments: seq<string>)
    requires IsDashed(s)
    ensures AreSegments(segments) && s == Join(segments) && segments[0][0] == s[0]
  {
    if p :| 0 <= p < |s| && s[p] == '-' && forall i :: 0 <= i < p ==> s[i] != '-' {
      var rest := s[p + 1..];
      assert s[p + 1] != '-';
      assert IsDashed(rest) by {
        forall i | 0 < i < |rest| ensures rest[i - 1] != '-' || rest[i] != '-' {
          assert s[p + i] != '-' || s[p + i + 1] != '-';
        }
      }
      var tail := DashedIsJoin(rest);
      segments := [s[..p]] + tail;
      assert segments[1..] == tail;
      assert s == s[..p] + "-" + rest;
    } else {
      NoDash(s, |s|);
      segments := [s];
    }
  }

  lemma {:induction false} NoDash(s: string, n: nat)
    requires n <= |s|
    requires forall p :: 0 <= p < |s| && s[p] == '-' ==> exists i :: 0 <= i < p && s[i] == '-'
    ensures forall i :: 0 <= i < n ==> s[i] != '-'
  {
    if n > 0 { NoDash(s, n - 1); }
  }

  /** The language, exactly. */
  lemma NameExactly(s: string)
    ensures IsName(s) <==> IsDashed(s) && IsLetter(s[0])
  {
    if IsName(s) {
      var segments :| AreSegments(segments) && IsLetter(segments[0][0]) && s == Join(segments);
      JoinIsDashed(segments);
    }
    if IsDashed(s) && IsLetter(s[0]) {
      var segments := DashedIsJoin(s);
    }
  }

  /** Lowercasing changes neither membership nor a lowercased name. */
  lemma LowerKeepsName(s: string)
    ensures Lower(Lower(s)) == Lower(s)
    ensures IsName(Lower(s)) <==> IsName(s)
  {
    NameExactly(s);
    NameExactly(Lower(s));
    forall i | 0 <= i < |s|
      ensures (IsAlnum(Lower(s)[i]) <==> IsAlnum(s[i])) && (Lower(s)[i] == '-' <==> s[i] == '-')
           && (IsLetter(Lower(s)[i]) <==> IsLetter(s[i]))
    {}
  }

  /** Lowercasing, character by character: capital letters move 32 places, nothing else changes. */
  lemma LowerExactly(s: string, i: nat)
    requires i < |s|
    ensures |Lower(s)| == |s|
    ensures 'A' <= s[i] <= 'Z' ==> Lower(s)[i] as int == s[i] as int + 32 && 'a' <= Lower(s)[i] <= 'z'
    ensures !('A' <= s[i] <= 'Z') ==> Lower(s)[i] == s[i]
  {}

  // ---- the check, in place ------------------------------------------------

  /** The first k characters were accepted by the loop. */
  ghost predicate Accepted(s: string, k: nat)
    requires k <= |s|
  {
    && (forall i :: 0 <= i < k ==> IsAlnum(s[i]) || s[i] == '-')
    && (k > 0 ==> IsLetter(s[0]))
    && (forall i :: 0 < i < k ==> s[i - 1] != '-' || s[i] != '-')
  }

  /** The name when the loop has lowercased its first k characters. */
  ghost predicate LoweredTo(now: string, was: string, k: nat) {
    k <= |was| && now == Lower(was[..k]) + was[k..]
  }

  /** The switch of the loop: whether the character may come next, and what it becomes. */
  method CheckCharacter(c: char, first: bool, lastChar: char) returns (valid: bool, lower: char)
    ensures valid <==> if first then IsLetter(c) else IsAlnum(c) || (c == '-' && lastChar != '-')
    ensures valid ==> lower == LowerChar(c)
  {
    lower := c;
    if c == '-' {
      if first {
        return false, lower;
      }
      if lastChar == '-' {
        return false, lower;
      }
    } else if '0' <= c <= '9' {
      if first {
        return false, lower;
      }
    } else if 'A' <= c <= 'Z' {
      lower := (c as int + 0x20) as char;
    } else if c < 'a' || c > 'z' {
      return false, lower;
    }
    valid := true;
  }

  lemma LoweredNext(now: string, was: string, k: nat)
    requires LoweredTo(now, was, k) && k < |was|
    ensures now[k] == was[k] && LoweredTo(now[k := LowerChar(was[k])], was, k + 1)
  {
    assert Lower(was[..k + 1]) == Lower(was[..k]) + [LowerChar(was[k])];
  }

  lemma AcceptedNext(s: string, k: nat)
    requires k < |s| && Accepted(s, k)
    ensures Accepted(s, k + 1)
       <==> if k == 0 then IsLetter(s[0]) else IsAlnum(s[k]) || (s[k] == '-' && s[k - 1] != '-')
  {}

  lemma RefusedMeans(s: string, k: nat)
    requires k <= |s| && !Accepted(s, k)
    ensures !IsName(s)
  {
    NameExactly(s);
  }

  lemma AcceptedMeans(s: string)
    requires Accepted(s, |s|)
    ensures IsName(s) <==> s != "" && s[|s| - 1] != '-'
  {
    NameExactly(s);
  }

  /** Checks the name and makes it lowercase; a refused name is lowercase up to where it was refused. */
  method ValidName(name: array<char>) returns (valid: bool)
    modifies name
    ensures valid <==> IsName(old(name[..]))
    ensures valid ==> name[..] == Lower(old(name[..]))
    ensures exists k :: LoweredTo(name[..], old(name[..]), k)
  {
    ghost var was := name[..];
    assert LoweredTo(name[..], was, 0);
    if name.Length == 0 {
      AcceptedMeans(was);
      return false;
    }
    var first, lastChar := true, '\0';
    var idx := 0;
    while idx < name.Length
      invariant 0 <= idx <= name.Length
      invariant LoweredTo(name[..], was, idx)
      invariant first <==> idx == 0
      invariant idx > 0 ==> lastChar == LowerChar(was[idx - 1])
      invariant Accepted(was, idx)
    {
      LoweredNext(name[..], was, idx);
      AcceptedNext(was, idx);
      var ok, c := CheckCharacter(name[idx], first, lastChar);
      if !ok {
        RefusedMeans(was, idx + 1);
        assert LoweredTo(name[..], old(name[..]), idx);
        return false;
      }
      name[idx] := c;
      first := false;
      lastChar := c;
      idx := idx + 1;
    }
    assert was[..idx] == was;
    AcceptedMeans(was);
    valid := lastChar != '-';
  }

  // ---- file names ---------------------------------------------------------

  function FileName(path: string, unit: string, section: string, name: string): string {
    if path == "" then "" else path + "/" + unit + "_" + section + "_" + name + ".flag"
  }

  lemma HeadsAlign(h1: string, t1: string, h2: string, t2: string)
    requires h1 + "_" + t1 == h2 + "_" + t2
    requires Plain(h1) && Plain(h2)
    ensures h1 == h2 && t1 == t2
  {
    var whole := h1 + "_" + t1;
    assert whole[|h1|] == '_' && whole[|h2|] == '_';
    assert |h1| == |h2|;
    assert whole[..|h1|] == h1 && whole[..|h2|] == h2;
    assert whole[|h1| + 1..] == t1 && whole[|h2| + 1..] == t2;
  }

  lemma NoUnderscore(s: string)
    requires IsName(s)
    ensures Plain(Lower(s))
  {
    NameExactly(s);
  }

  lemma SamePrefix(p: string, a: string, b: string)
    requires p + a == p + b
    ensures a == b
  {
    assert (p + a)[|p|..] == a && (p + b)[|p|..] == b;
  }

  lemma SameSuffix(a: string, b: string, q: string)
    requires a + q == b + q
    ensures a == b
  {
    assert |a| == |b|;
    assert (a + q)[..|a|] == a && (b + q)[..|b|] == b;
  }

  /** Two flags share a file exactly when their names are equal, ignoring case, or
      there is no directory for flags at all. */
  lemma FileNamesExactly(path: string, u1: string, s1: string, n1: string, u2: string, s2: string, n2: string)
    requires IsName(u1) && IsName(s1) && IsName(n1) && IsName(u2) && IsName(s2) && IsName(n2)
    ensures FileName(path, Lower(u1), Lower(s1), Lower(n1)) == FileName(path, Lower(u2), Lower(s2), Lower(n2))
       <==> path == "" || (Lower(u1) == Lower(u2) && Lower(s1) == Lower(s2) && Lower(n1) == Lower(n2))
  {
    var f1, f2 := FileName(path, Lower(u1), Lower(s1), Lower(n1)), FileName(path, Lower(u2), Lower(s2), Lower(n2));
    if path != "" && f1 == f2 {
      NoUnderscore(u1);
      NoUnderscore(s1);
      NoUnderscore(u2);
      NoUnderscore(s2);
      SamePartsOf(path, Lower(u1), Lower(s1), Lower(n1), Lower(u2), Lower(s2), Lower(n2));
    }
  }

  predicate Plain(s: string) {
    forall i :: 0 <= i < |s| ==> s[i] != '_'
  }

  /** What stands before the first underscore, and after it. */
  function Head(s: string): string {
    if s == [] || s[0] == '_' then [] else [s[0]] + Head(s[1..])
  }

  function Tail(s: string): string {
    if s == [] then [] else if s[0] == '_' then s[1..] else Tail(s[1..])
  }

  lemma {:induction false} HeadAndTail(h: string, t: string)
    requires Plain(h)
    ensures Head(h + "_" + t) == h && Tail(h + "_" + t) == t
  {
    var whole := h + "_" + t;
    if h == [] {
      assert whole == "_" + t && whole[1..] == t;
    } else {
      HeadAndTail(h[1..], t);
      assert whole[1..] == h[1..] + "_" + t && whole[0] == h[0];
      assert h == [h[0]] + h[1..];
    }
  }

  /** How a file name is read: in the directory, unit, section and name with underscores between, and the extension. */
  lemma FileNameReads(path: string, unit: string, section: string, name: string)
    requires IsName(unit) && IsName(section) && path != ""
    ensures var file := FileName(path, Lower(unit), Lower(section), Lower(name));
            && |file| > |path| + 6 && file[..|path| + 1] == path + "/" && file[|file| - 5..] == ".flag"
            && var text := file[|path| + 1..|file| - 5];
            Head(text) == Lower(unit) && Head(Tail(text)) == Lower(section) && Tail(Tail(text)) == Lower(name)
  {
    var u, s, n := Lower(unit), Lower(section), Lower(name);
    NoUnderscore(unit);
    NoUnderscore(section);
    NameExactly(unit);
    var file := FileName(path, u, s, n);
    var text := u + "_" + (s + "_" + n);
    assert file == path + "/" + text + ".flag";
    assert file[|path| + 1..|file| - 5] == text;
    HeadAndTail(u, s + "_" + n);
    HeadAndTail(s, n);
  }

  lemma SamePartsOf(path: string, u1: string, s1: string, n1: string, u2: string, s2: string, n2: string)
    requires path != "" && Plain(u1) && Plain(s1) && Plain(u2) && Plain(s2)
    requires FileName(path, u1, s1, n1) == FileName(path, u2, s2, n2)
    ensures u1 == u2 && s1 == s2 && n1 == n2
  {
    var p, q := path + "/", ".flag";
    var a1, a2 := s1 + "_" + (n1 + q), s2 + "_" + (n2 + q);
    assert FileName(path, u1, s1, n1) == p + (u1 + "_" + a1);
    assert FileName(path, u2, s2, n2) == p + (u2 + "_" + a2);
    SamePrefix(p, u1 + "_" + a1, u2 + "_" + a2);
    HeadsAlign(u1, a1, u2, a2);
    HeadsAlign(s1, n1 + q, s2, n2 + q);
    SameSuffix(n1, n2, q);
  }
}

module Flags {
  import opened FlagNames

  class Flag {
    var unit: string
    var section: string
    var name: string
    var filename: string

    constructor (unit: string, section: string, name: string)
      ensures this.unit == unit && this.section == section && this.name == name && filename == ""
    {
      this.unit, this.section, this.name, filename := unit, section, name, "";
    }

    /** The file of the flag; computed once, and again as long as there is no directory. */
    method GetFilename(path: string) returns (r: string)
      modifies this`filename
      ensures r == filename
      ensures filename == if old(filename) != "" then old(filename) else FileName(path, unit, section, name)
    {
      if filename == "" {
        filename := path;
        if filename != "" {
          filename := filename + ("/" + unit + "_" + section + "_" + name + ".flag");
          assert filename == FileName(path, unit, section, name);
        }
      }
      return filename;
    }
  }

  method Checked(s: string) returns (valid: bool, lower: string)
    ensures valid <==> IsName(s)
    ensures valid ==> lower == Lower(s)
  {
    var name := new char[|s|](i requires 0 <= i < |s| => s[i]);
    assert name[..] == s;
    valid := ValidName(name);
    lower := name[..];
  }

  /** The naming constructor: it throws, here null, unless all three names are valid. */
  method NewFlag(unit: string, section: string, name: string) returns (flag: Flag?)
    ensures flag != null <==> IsName(unit) && IsName(section) && IsName(name)
    ensures flag != null ==>
              && fresh(flag) && flag.filename == ""
              && flag.unit == Lower(unit) && flag.section == Lower(section) && flag.name == Lower(name)
  {
    var ok, u := Checked(unit);
    if !ok {
      return null;
    }
    var s, n: string;
    ok, s := Checked(section);
    if !ok {
      return null;
    }
    ok, n := Checked(name);
    if !ok {
      return null;
    }
    flag := new Flag(u, s, n);
  }
}
