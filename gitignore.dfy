/** Turning a template's `.gitignore` into the glob ignore list used when the
    template is copied (src/index.ts). */
module GitIgnore {
  import opened Wrappers
  import opened Strings

  /** What is never copied: dependencies, build output, version control. */
  const DefaultSkipFiles: seq<string> := ["node_modules/**", "dist/**", ".git/**"]

  /** A line trimmed and stripped of at most one leading '/'. */
  function Unanchored(line: string): string {
    var t := Trim(line);
    if StartsWith(t, "/") then t[1..] else t
  }

  // convertGitIgnoreToGlob: a directory line "d/" becomes "d/**"; a line
  // without a wildcard becomes "**/line", so that it matches at any depth; a
  // line with a wildcard is kept. The result always holds a wildcard.
  function ConvertGitIgnoreToGlob(line: string): (r: string)
    ensures '*' in r
  {
    var p := Unanchored(line);
    var p' := if EndsWith(p, "/") then p + "**" else p;
    assert p' != p ==> p'[|p'| - 1] == '*';
    if '*' !in p' && !EndsWith(p', "/") then
      assert ("**/" + p')[0] == '*';
      "**/" + p'
    else p'
  }

  /** The three outcomes of the conversion, by the shape of the unanchored
      line. */
  lemma ConvertCases(line: string)
    ensures var u := Unanchored(line);
      && (EndsWith(u, "/") ==> ConvertGitIgnoreToGlob(line) == u + "**")
      && (!EndsWith(u, "/") && '*' !in u ==> ConvertGitIgnoreToGlob(line) == "**/" + u)
      && (!EndsWith(u, "/") && '*' in u ==> ConvertGitIgnoreToGlob(line) == u)
  {
    var u := Unanchored(line);
    if EndsWith(u, "/") {
      assert (u + "**")[|u| + 1] == '*';
    }
  }

  /** A line with printing characters at both ends that starts with
      something other than '/' is its own unanchored form. */
  lemma UnanchoredPlain(line: string)
    requires |line| > 0 && !IsSpace(line[0]) && !IsSpace(line[|line| - 1]) && line[0] != '/'
    ensures Unanchored(line) == line
  {
    TrimKeeps(line);
  }

  lemma ConvertDirectoryLine()
    ensures ConvertGitIgnoreToGlob("dist/") == "dist/**"
  {
    assert "dist/"[0] == 'd';
    UnanchoredPlain("dist/");
    ConvertCases("dist/");
  }

  /** A root-anchored name loses its '/' and is matched at any depth. */
  lemma ConvertAnchored(line: string)
    requires |line| >= 2 && line[0] == '/' && line[|line| - 1] != '/'
    requires !IsSpace(line[|line| - 1]) && '*' !in line
    ensures ConvertGitIgnoreToGlob(line) == "**/" + line[1..]
  {
    TrimKeeps(line);
    assert StartsWith(line, "/") by { assert line[..1] == "/"; }
    var u := line[1..];
    assert Unanchored(line) == u;
    assert u[|u| - 1] == line[|line| - 1];
    assert !EndsWith(u, "/") by { assert u[|u| - 1..] != "/"; }
    assert '*' !in u by {
      forall i | 0 <= i < |u| ensures u[i] != '*' { assert u[i] == line[i + 1]; }
    }
    ConvertCases(line);
  }

  lemma ConvertAnchoredName()
    ensures ConvertGitIgnoreToGlob("/build") == "**/" + "build"
  {
    assert "/build"[0] == '/' && "/build"[5] == 'd';
    assert '*' !in "/build" by {
      forall i | 0 <= i < 6 ensures "/build"[i] != '*' { }
    }
    ConvertAnchored("/build");
    assert "/build"[1..] == "build";
  }

  lemma ConvertWildcardLine()
    ensures ConvertGitIgnoreToGlob("*.log") == "*.log"
  {
    assert "*.log"[0] == '*';
    UnanchoredPlain("*.log");
    ConvertCases("*.log");
  }

  lemma ConvertEmptyLine()
    ensures ConvertGitIgnoreToGlob("") == "**/"
  {
    ConvertCases("");
  }

  /** A string that starts and ends with a printing character trims to
      itself. */
  lemma TrimKeeps(s: string)
    requires |s| > 0 && !IsSpace(s[0]) && !IsSpace(s[|s| - 1])
    ensures Trim(s) == s
  {
  }

  /** The filter of createFromTemplate: a line is kept when it is not blank
      and its first character, before trimming, is not '#'. */
  predicate Keep(line: string) {
    Trim(line) != "" && !StartsWith(line, "#")
  }

  /** An indented line is kept, even when its text starts with '#': the
      comment test looks at the untrimmed first character. It is converted
      as its trimmed text. */
  lemma KeepIndented(sp: string, rest: string)
    requires |sp| > 0 && AllSpace(sp) && |rest| > 0
    requires !IsSpace(rest[0]) && !IsSpace(rest[|rest| - 1]) && rest[0] != '/'
    ensures Keep(sp + rest)
    ensures ConvertGitIgnoreToGlob(sp + rest) == ConvertGitIgnoreToGlob(rest)
  {
    TrimIndented(sp, rest);
    TrimKeeps(rest);
    assert !StartsWith(sp + rest, "#") by {
      assert (sp + rest)[0] == sp[0];
      assert IsSpace(sp[0]);
    }
  }

  /** A name with printing characters at both ends, no leading '/', no
      trailing '/' and no '*' gets the any-depth prefix. */
  lemma ConvertPlain(line: string)
    requires |line| > 0 && !IsSpace(line[0]) && !IsSpace(line[|line| - 1])
    requires line[0] != '/' && line[|line| - 1] != '/' && '*' !in line
    ensures ConvertGitIgnoreToGlob(line) == "**/" + line
  {
    UnanchoredPlain(line);
    assert !EndsWith(line, "/") by { assert line[|line| - 1..] != "/"; }
    ConvertCases(line);
  }

  /** The line `"  # x"`: two spaces, then a text that starts with '#'. */
  lemma KeepIndentedHash()
    ensures Keep("  " + "# x") && ConvertGitIgnoreToGlob("  " + "# x") == "**/" + "# x"
  {
    assert "# x"[0] == '#' && "# x"[2] == 'x';
    assert AllSpace("  ") by {
      forall i | 0 <= i < 2 ensures IsSpace("  "[i]) { }
    }
    assert '*' !in "# x" by {
      forall i | 0 <= i < 3 ensures "# x"[i] != '*' { }
    }
    KeepIndented("  ", "# x");
    ConvertPlain("# x");
  }

  lemma DropComment()
    ensures !Keep("# comment")
  {
    assert StartsWith("# comment", "#") by { assert "# comment"[..1] == "#"; }
  }

  lemma DropBlank()
    ensures !Keep(" \t ")
  {
    assert AllSpace(" \t ") by {
      forall i | 0 <= i < 3 ensures IsSpace(" \t "[i]) { }
    }
  }

  /** `.filter(Keep)`. */
  function KeptLines(lines: seq<string>): (r: seq<string>)
    ensures |r| <= |lines|
  {
    if lines == [] then []
    else if Keep(lines[0]) then [lines[0]] + KeptLines(lines[1..])
    else KeptLines(lines[1..])
  }

  /** The filter keeps exactly the lines that pass it. */
  lemma {:induction false} KeptLinesMembers(lines: seq<string>)
    ensures forall l :: l in KeptLines(lines) <==> l in lines && Keep(l)
  {
    if lines != [] {
      KeptLinesMembers(lines[1..]);
      assert forall l :: l in lines <==> l == lines[0] || l in lines[1..];
    }
  }

  /** The filter keeps file order: it distributes over concatenation. */
  lemma {:induction false} KeptLinesAppend(a: seq<string>, b: seq<string>)
    ensures KeptLines(a + b) == KeptLines(a) + KeptLines(b)
  {
    if a != [] {
      assert (a + b)[0] == a[0];
      assert (a + b)[1..] == a[1..] + b;
      KeptLinesAppend(a[1..], b);
    } else {
      assert a + b == b;
    }
  }

  /** `.map(convertGitIgnoreToGlob)`. */
  function ConvertAll(lines: seq<string>): (r: seq<string>)
    ensures |r| == |lines|
    ensures forall i :: 0 <= i < |r| ==> r[i] == ConvertGitIgnoreToGlob(lines[i])
  {
    seq(|lines|, i requires 0 <= i < |lines| => ConvertGitIgnoreToGlob(lines[i]))
  }

  /** The patterns contributed by a `.gitignore` text, one per kept line, in
      file order. */
  function GitIgnoreGlobs(text: string): seq<string> {
    ConvertAll(KeptLines(Split(text, "\n")))
  }

  /** The ignore list of createFromTemplate: the defaults, followed, when the
      `.gitignore` is to be read and exists, by one pattern per kept line. */
  function IgnorePatterns(useGitIgnore: bool, gitignore: Option<string>): (r: seq<string>)
    ensures |r| >= 3 && r[..3] == DefaultSkipFiles
    ensures !useGitIgnore || gitignore.None? ==> r == DefaultSkipFiles
    ensures useGitIgnore && gitignore.Some? ==> r[3..] == GitIgnoreGlobs(gitignore.value)
    ensures forall i :: 0 <= i < |r| ==> '*' in r[i]
  {
    DefaultsHaveWildcard();
    if useGitIgnore && gitignore.Some? then
      var g := GitIgnoreGlobs(gitignore.value);
      var r := DefaultSkipFiles + g;
      assert r[..3] == DefaultSkipFiles && r[3..] == g;
      assert forall i :: 3 <= i < |r| ==> r[i] == g[i - 3];
      r
    else DefaultSkipFiles
  }

  lemma DefaultsHaveWildcard()
    ensures forall i :: 0 <= i < |DefaultSkipFiles| ==> '*' in DefaultSkipFiles[i]
  {
    assert DefaultSkipFiles[0][14] == '*';
    assert DefaultSkipFiles[1][6] == '*';
    assert DefaultSkipFiles[2][6] == '*';
  }
}
