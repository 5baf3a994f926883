/** The JavaScript string operations the scaffolder relies on: `trim`,
    `startsWith`, `endsWith`, `includes`, `split` by a literal separator, and
    `replace` with a global pattern that stands for a literal name. */
module Strings {

  /** The characters `String.prototype.trim` removes: the ECMAScript
      WhiteSpace and LineTerminator code points. */
  predicate IsSpace(c: char) {
    || c == '\t' || c == '\n' || c == '\U{B}' || c == '\U{C}' || c == '\r'
    || c == ' ' || c == '\U{A0}' || c == '\U{1680}'
    || ('\U{2000}' <= c <= '\U{200A}')
    || c == '\U{2028}' || c == '\U{2029}' || c == '\U{202F}' || c == '\U{205F}'
    || c == '\U{3000}' || c == '\U{FEFF}'
  }

  predicate AllSpace(s: string) {
    forall i :: 0 <= i < |s| ==> IsSpace(s[i])
  }

  /** `trimStart`: leading white space dropped. */
  function TrimStart(s: string): (r: string)
    ensures |r| <= |s|
    ensures r == [] || !IsSpace(r[0])
  {
    if s != [] && IsSpace(s[0]) then TrimStart(s[1..]) else s
  }

  /** `trimEnd`: trailing white space dropped. */
  function TrimEnd(s: string): (r: string)
    ensures |r| <= |s|
    ensures r == [] || !IsSpace(r[|r| - 1])
  {
    if s != [] && IsSpace(s[|s| - 1]) then TrimEnd(s[..|s| - 1]) else s
  }

  /** What `trimStart` drops is a prefix of white space. */
  lemma {:induction false} TrimStartShape(s: string)
    ensures var r := TrimStart(s);
      && r == s[|s| - |r|..]
      && forall i :: 0 <= i < |s| - |r| ==> IsSpace(s[i])
  {
    if s != [] && IsSpace(s[0]) {
      TrimStartShape(s[1..]);
      var r := TrimStart(s[1..]);
      assert s[1..][|s| - 1 - |r|..] == s[|s| - |r|..];
      assert forall i :: 1 <= i < |s| - |r| ==> s[i] == s[1..][i - 1];
    }
  }

  /** What `trimEnd` drops is a suffix of white space. */
  lemma {:induction false} TrimEndShape(s: string)
    ensures var r := TrimEnd(s);
      && r == s[..|r|]
      && forall i :: |r| <= i < |s| ==> IsSpace(s[i])
  {
    if s != [] && IsSpace(s[|s| - 1]) {
      TrimEndShape(s[..|s| - 1]);
      var r := TrimEnd(s[..|s| - 1]);
      assert s[..|s| - 1][..|r|] == s[..|r|];
      assert forall i :: |r| <= i < |s| - 1 ==> s[i] == s[..|s| - 1][i];
    }
  }

  /** Leading white space is dropped up to the first printing character. */
  lemma {:induction false} TrimStartAfterSpaces(sp: string, rest: string)
    requires AllSpace(sp) && (rest == [] || !IsSpace(rest[0]))
    ensures TrimStart(sp + rest) == rest
    decreases |sp|
  {
    if sp == [] {
      assert sp + rest == rest;
    } else {
      assert (sp + rest)[0] == sp[0];
      assert (sp + rest)[1..] == sp[1..] + rest;
      TrimStartAfterSpaces(sp[1..], rest);
    }
  }

  /** Indentation before a printing text is removed by `trim`. */
  lemma TrimIndented(sp: string, rest: string)
    requires AllSpace(sp) && |rest| > 0 && !IsSpace(rest[0]) && !IsSpace(rest[|rest| - 1])
    ensures Trim(sp + rest) == rest
  {
    TrimStartAfterSpaces(sp, rest);
  }

  /** `s.trim()`: white space dropped on both sides; nothing is left exactly
      when `s` is all white space. */
  function Trim(s: string): (r: string)
    ensures r == [] <==> AllSpace(s)
    ensures r != [] ==> !IsSpace(r[0]) && !IsSpace(r[|r| - 1])
  {
    var a := TrimStart(s);
    var r := TrimEnd(a);
    TrimStartShape(s);
    TrimEndShape(a);
    assert r == [] ==> AllSpace(s) by {
      if r == [] {
        assert forall j :: 0 <= j < |a| ==> IsSpace(a[j]);
      }
    }
    assert r != [] ==> r[0] == a[0];
    r
  }

  /** trim() cuts a run of whitespace from each end and keeps the middle
      of the text as it is. */
  lemma TrimShape(s: string)
    ensures exists i, j :: 0 <= i <= j <= |s| && Trim(s) == s[i..j] && AllSpace(s[..i]) && AllSpace(s[j..])
  {
    var a := TrimStart(s);
    var r := TrimEnd(a);
    TrimStartShape(s);
    TrimEndShape(a);
    var i := |s| - |a|;
    var j := i + |r|;
    assert a == s[i..] && r == a[..|r|];
    assert r == s[i..j];
    forall k | 0 <= k < |s[j..]|
      ensures IsSpace(s[j..][k])
    {
      assert s[j..][k] == a[|r| + k];
    }
    assert Trim(s) == s[i..j];
  }

  predicate StartsWith(s: string, prefix: string) {
    |prefix| <= |s| && s[..|prefix|] == prefix
  }

  predicate EndsWith(s: string, suffix: string) {
    |suffix| <= |s| && s[|s| - |suffix|..] == suffix
  }

  /** `o` occurs in `s` starting at index `i`. */
  predicate OccursAt(s: string, o: string, i: int) {
    0 <= i && i + |o| <= |s| && s[i..i + |o|] == o
  }

  /** `s.includes(o)`. */
  function Contains(s: string, o: string): (r: bool)
    ensures r <==> exists i :: OccursAt(s, o, i)
    decreases |s|
  {
    if |s| < |o| then
      assert forall i :: !OccursAt(s, o, i);
      false
    else if s[..|o|] == o then
      assert OccursAt(s, o, 0);
      true
    else
      var r := Contains(s[1..], o);
      assert forall i :: OccursAt(s[1..], o, i) <==> OccursAt(s, o, i + 1) by {
        forall i ensures OccursAt(s[1..], o, i) <==> OccursAt(s, o, i + 1) {
          if 0 <= i && i + |o| <= |s| - 1 {
            assert s[1..][i..i + |o|] == s[i + 1..i + 1 + |o|];
          }
        }
      }
      assert forall i :: OccursAt(s, o, i) ==> i == 0 || OccursAt(s[1..], o, i - 1);
      r
  }

  /** `s.split(sep)` for a non-empty literal separator: the pieces between
      the occurrences of `sep` found scanning left to right without overlap. */
  function Split(s: string, sep: string): (parts: seq<string>)
    requires |sep| > 0
    ensures |parts| >= 1 && parts[0] <= s
    decreases |s|
  {
    if |s| < |sep| then [s]
    else if s[..|sep|] == sep then [""] + Split(s[|sep|..], sep)
    else
      var t := Split(s[1..], sep);
      [[s[0]] + t[0]] + t[1..]
  }

  /** `parts.join(sep)`. */
  function Join(parts: seq<string>, sep: string): string {
    if |parts| == 0 then ""
    else if |parts| == 1 then parts[0]
    else parts[0] + sep + Join(parts[1..], sep)
  }

  /** `s.replace(new RegExp(o, 'g'), n)` where `o` is a literal: every
      occurrence of `o`, found left to right without overlap, becomes `n`. */
  function ReplaceAll(s: string, o: string, n: string): string
    requires |o| > 0
    decreases |s|
  {
    if |s| < |o| then s
    else if s[..|o|] == o then n + ReplaceAll(s[|o|..], o, n)
    else [s[0]] + ReplaceAll(s[1..], o, n)
  }

  lemma JoinAddFirst(c: char, t: seq<string>, sep: string)
    requires |t| >= 1
    ensures Join([[c] + t[0]] + t[1..], sep) == [c] + Join(t, sep)
  {
    var parts := [[c] + t[0]] + t[1..];
    assert parts[1..] == t[1..];
  }

  /** Replacing is splitting at the occurrences and joining with the
      replacement. */
  lemma {:induction false} ReplaceAllIsSplitJoin(s: string, o: string, n: string)
    requires |o| > 0
    ensures ReplaceAll(s, o, n) == Join(Split(s, o), n)
    decreases |s|
  {
    if |s| < |o| {
    } else if s[..|o|] == o {
      ReplaceAllIsSplitJoin(s[|o|..], o, n);
      var t := Split(s[|o|..], o);
      assert ([""] + t)[1..] == t;
    } else {
      ReplaceAllIsSplitJoin(s[1..], o, n);
      JoinAddFirst(s[0], Split(s[1..], o), n);
    }
  }

  /** Replacing a name by itself changes nothing. */
  lemma {:induction false} ReplaceAllSelf(s: string, o: string)
    requires |o| > 0
    ensures ReplaceAll(s, o, o) == s
    decreases |s|
  {
    if |s| < |o| {
    } else if s[..|o|] == o {
      ReplaceAllSelf(s[|o|..], o);
      assert s == s[..|o|] + s[|o|..];
    } else {
      ReplaceAllSelf(s[1..], o);
      assert s == [s[0]] + s[1..];
    }
  }

  /** Joining the pieces of a split with the separator gives back the input. */
  lemma JoinSplit(s: string, sep: string)
    requires |sep| > 0
    ensures Join(Split(s, sep), sep) == s
  {
    ReplaceAllIsSplitJoin(s, sep, sep);
    ReplaceAllSelf(s, sep);
  }

  /** No piece of a split contains the separator. */
  lemma {:induction false} SplitPartsFree(s: string, sep: string)
    requires |sep| > 0
    ensures forall k :: 0 <= k < |Split(s, sep)| ==> !Contains(Split(s, sep)[k], sep)
    decreases |s|
  {
    var parts := Split(s, sep);
    if |s| < |sep| {
      assert !Contains(s, sep);
    } else if s[..|sep|] == sep {
      SplitPartsFree(s[|sep|..], sep);
      var t := Split(s[|sep|..], sep);
      assert parts == [""] + t;
      assert !Contains("", sep);
      forall k | 1 <= k < |parts| ensures !Contains(parts[k], sep) {
        assert parts[k] == t[k - 1];
      }
    } else {
      SplitPartsFree(s[1..], sep);
      var t := Split(s[1..], sep);
      var first := [s[0]] + t[0];
      assert parts == [first] + t[1..];
      assert first <= s;
      assert !Contains(first, sep) by {
        if |first| >= |sep| {
          assert first[..|sep|] == s[..|sep|];
          assert first[1..] == t[0];
        }
      }
      forall k | 1 <= k < |parts| ensures !Contains(parts[k], sep) {
        assert parts[k] == t[k];
      }
    }
  }

  /** A string without the name is left as it is. */
  lemma {:induction false} ReplaceAllAbsent(s: string, o: string, n: string)
    requires |o| > 0 && !Contains(s, o)
    ensures ReplaceAll(s, o, n) == s
    decreases |s|
  {
    if |s| >= |o| {
      ReplaceAllAbsent(s[1..], o, n);
      assert s == [s[0]] + s[1..];
    }
  }

  /** Replacing does not always remove every occurrence of the name: a
      replacement can join two pieces into a new occurrence. */
  lemma ReplaceCanLeaveName()
    ensures ReplaceAll("abb", "ab", "a") == "ab"
    ensures Contains(ReplaceAll("abb", "ab", "a"), "ab")
  {
    assert "abb"[..2] == "ab";
    assert "abb"[2..] == "b";
    assert OccursAt("ab", "ab", 0);
  }
}
