/** The parts of Node's `path` module the scaffolder depends on, on POSIX
    separators and without normalisation. */
module Paths {
  import opened Strings

  /** `path.join(a, b)`: the two segments with one '/' between them; an
      empty segment contributes nothing. */
  function JoinPath(a: string, b: string): (r: string)
    ensures EndsWith(r, b)
    ensures StartsWith(r, a)
    ensures |r| <= |a| + 1 + |b|
    ensures r == a + b || r == a + "/" + b
    ensures r == a + "/" + b <==> a != "" && b != "" && !EndsWith(a, "/")
  {
    if a == "" then b
    else if b == "" then a
    else if EndsWith(a, "/") then a + b
    else a + "/" + b
  }

  /** The text after the last '/' of `p`. */
  function Basename(p: string): (r: string)
    ensures EndsWith(p, r) && '/' !in r
    ensures |r| < |p| ==> p[|p| - |r| - 1] == '/'
    decreases |p|
  {
    if p == [] then []
    else if p[|p| - 1] == '/' then []
    else Basename(p[..|p| - 1]) + [p[|p| - 1]]
  }

  /** The suffix of `b` that starts at its last '.', or nothing when `b` has
      no '.'. */
  function DotSuffix(b: string): (d: string)
    ensures d == [] <==> '.' !in b
    ensures d != [] ==> d[0] == '.' && '.' !in d[1..] && EndsWith(b, d)
    decreases |b|
  {
    if b == [] then []
    else if b[|b| - 1] == '.' then ['.']
    else
      var t := DotSuffix(b[..|b| - 1]);
      assert b == b[..|b| - 1] + [b[|b| - 1]];
      if t == [] then [] else t + [b[|b| - 1]]
  }

  /** `path.extname(p)`: from the last '.' of the base name to its end; empty
      when the base name has no '.', when its only leading '.' is its last one
      (a dot file such as `.gitignore`), and for `..`. */
  function Extname(p: string): (r: string)
    ensures r == [] || (r[0] == '.' && '.' !in r[1..] && '/' !in r && EndsWith(p, r))
    ensures var b := Basename(p); r != [] <==> '.' in b && b != ".." && DotSuffix(b) != b
  {
    var b := Basename(p);
    var d := DotSuffix(b);
    if d == [] || |d| == |b| || b == ".." then []
    else
      assert d == b[|b| - |d|..] && p[|p| - |b|..] == b;
      assert p[|p| - |d|..] == b[|b| - |d|..];
      d
  }

  /** A path without '/' is its own base name. */
  lemma {:induction false} BasenameNoSlash(p: string)
    requires '/' !in p
    ensures Basename(p) == p
    decreases |p|
  {
    if p != [] {
      assert p[|p| - 1] in p;
      var init := p[..|p| - 1];
      assert '/' !in init by {
        forall i | 0 <= i < |init| ensures init[i] != '/' { assert init[i] == p[i]; }
      }
      BasenameNoSlash(init);
      assert init + [p[|p| - 1]] == p;
    }
  }

  /** The dot suffix is what follows the last '.'. */
  lemma {:induction false} DotSuffixAfterLastDot(stem: string, ext: string)
    requires '.' !in ext
    ensures DotSuffix(stem + "." + ext) == "." + ext
    decreases |ext|
  {
    var b := stem + "." + ext;
    if ext == [] {
      assert b[|b| - 1] == '.';
    } else {
      var init := ext[..|ext| - 1];
      var c := ext[|ext| - 1];
      assert c in ext;
      assert '.' !in init by {
        forall i | 0 <= i < |init| ensures init[i] != '.' { assert init[i] == ext[i]; }
      }
      assert b[..|b| - 1] == stem + "." + init;
      assert b[|b| - 1] == c;
      DotSuffixAfterLastDot(stem, init);
      assert "." + init + [c] == "." + ext;
    }
  }

  /** The extension of a name with a non-empty stem is its text from the
      last '.', with its case kept. */
  lemma ExtnameOfName(stem: string, ext: string)
    requires stem != [] && stem != "." && '/' !in stem && '/' !in ext && '.' !in ext
    ensures Extname(stem + "." + ext) == "." + ext
  {
    var p := stem + "." + ext;
    assert '/' !in p by {
      forall i | 0 <= i < |p| ensures p[i] != '/' {
        if i < |stem| { assert p[i] == stem[i]; }
        else if i > |stem| { assert p[i] == ext[i - |stem| - 1]; }
      }
    }
    BasenameNoSlash(p);
    DotSuffixAfterLastDot(stem, ext);
    assert p[0] == stem[0];
    assert |stem| == 1 ==> stem == [stem[0]];
    assert p != "..";
    assert |"." + ext| < |p|;
  }

  /** The extension keeps its case: `README.MD` ends in `.MD`, not `.md`. */
  lemma ExtnameIsCaseKept()
    ensures Extname("README" + "." + "MD") == "." + "MD"
  {
    assert '/' !in "README" by {
      forall i | 0 <= i < 6 ensures "README"[i] != '/' { }
    }
    assert "README"[0] == 'R';
    ExtnameOfName("README", "MD");
  }
}
