/** The part of the `create` command that is logic rather than prompting:
    the project-name validator and the composition of the project
    directory and of the createFromTemplate options. */
module Cli {
  import opened Wrappers
  import opened Strings
  import opened Paths
  import opened Fs
  import opened Scaffold
  import opened Templates

  /** What the `validate` closure returns: `true`, or a message. */
  datatype Verdict = Accepted | Rejected(message: string)

  const RequiredMessage: string := "Project name is required"
  const CharsetMessage: string :=
    "Project name can only contain lowercase letters, numbers, hyphens, and underscores"

  /** A character of the class `[a-z0-9-_]`. */
  predicate NameChar(c: char) {
    ('a' <= c <= 'z') || ('0' <= c <= '9') || c == '-' || c == '_'
  }

  /** `/^[a-z0-9-_]+$/.test(s)`. */
  predicate MatchesNamePattern(s: string) {
    |s| > 0 && forall i :: 0 <= i < |s| ==> NameChar(s[i])
  }

  /** The `validate` closure of the project-name prompt: a blank input is
      refused first, then the character class is tested on the untrimmed
      input. */
  function Validate(input: string): (v: Verdict)
    ensures v == Accepted || v == Rejected(RequiredMessage) || v == Rejected(CharsetMessage)
  {
    if Trim(input) == "" then Rejected(RequiredMessage)
    else if !MatchesNamePattern(input) then Rejected(CharsetMessage)
    else Accepted
  }

  /** A name made of the allowed characters has no whitespace in it. */
  lemma PatternNotBlank(s: string)
    requires MatchesNamePattern(s)
    ensures !AllSpace(s)
  {
    assert !IsSpace(s[0]);
  }

  /** Accepted exactly when the whole input matches the pattern. */
  lemma ValidateAccepts(input: string)
    ensures Validate(input) == Accepted <==> MatchesNamePattern(input)
  {
    if MatchesNamePattern(input) {
      PatternNotBlank(input);
    }
  }

  /** The required-message exactly for empty and whitespace-only input, so
      such input never gets the character-class message. */
  lemma ValidateRequired(input: string)
    ensures Validate(input) == Rejected(RequiredMessage) <==> AllSpace(input)
    ensures AllSpace(input) ==> Validate(input) != Rejected(CharsetMessage)
  {
  }

  /** The character-class message exactly for non-blank input with some
      character outside `[a-z0-9-_]`. */
  lemma ValidateCharset(input: string)
    ensures Validate(input) == Rejected(CharsetMessage)
            <==> !AllSpace(input) && exists i :: 0 <= i < |input| && !NameChar(input[i])
  {
  }

  /** The pattern is tested on the untrimmed input: a leading space is
      refused even though the trimmed text would pass. */
  lemma ValidateLeadingSpace()
    ensures Validate(" app") == Rejected(CharsetMessage)
  {
    assert " app"[1] == 'a' && !IsSpace(" app"[1]);
    assert !NameChar(" app"[0]);
  }

  /** An accepted name is safe for the rename: it is a literal pattern and
      a plain replacement, and it has no '/'. */
  lemma AcceptedNameIsPlain(name: string)
    requires Validate(name) == Accepted
    ensures LiteralPattern(name) && PlainReplacement(name) && '/' !in name
  {
    ValidateAccepts(name);
    forall i | 0 <= i < |name|
      ensures !IsRegexMeta(name[i]) && name[i] != '$' && name[i] != '/'
    {
      NameCharPlain(name[i]);
    }
  }

  /** A character of the name class is neither a metacharacter nor '/'. */
  lemma NameCharPlain(c: char)
    requires NameChar(c)
    ensures !IsRegexMeta(c) && c != '$' && c != '/'
  {
  }

  /** The directory the project is created in: the answered target path
      taken as it is when it starts with '/', resolved against the working
      directory otherwise, joined with the project name. `resolve` stands
      for `path.resolve` on one path. */
  function TargetPath(answer: string, projectName: string, cwd: string,
                      resolve: string -> string): (r: string)
    ensures EndsWith(r, projectName)
    ensures StartsWith(answer, "/") ==> StartsWith(r, resolve(answer))
    ensures !StartsWith(answer, "/") ==> StartsWith(r, resolve(JoinPath(cwd, answer)))
  {
    var absTargetPath := if StartsWith(answer, "/") then resolve(answer) else resolve(JoinPath(cwd, answer));
    JoinPath(absTargetPath, projectName)
  }

  /** An absolute answer does not depend on the working directory. */
  lemma TargetPathAbsolute(answer: string, projectName: string, cwd1: string, cwd2: string,
                           resolve: string -> string)
    requires StartsWith(answer, "/")
    ensures TargetPath(answer, projectName, cwd1, resolve) == TargetPath(answer, projectName, cwd2, resolve)
  {
  }

  /** The last segment of `x + b`, when `x` is empty or ends with '/', is
      `b` itself if `b` has no '/'. */
  lemma {:induction false} BasenameAfterSlash(x: string, b: string)
    requires x == "" || EndsWith(x, "/")
    requires '/' !in b
    ensures Basename(x + b) == b
    decreases |b|
  {
    if b == [] {
      assert x + b == x;
      if x != "" {
        assert x[|x| - 1] == '/';
      }
    } else {
      var init := b[..|b| - 1];
      assert (x + b)[..|x + b| - 1] == x + init;
      assert (x + b)[|x + b| - 1] == b[|b| - 1];
      assert b[|b| - 1] in b;
      BasenameAfterSlash(x, init);
      assert init + [b[|b| - 1]] == b;
    }
  }

  /** With an accepted name, the project directory is named after the
      project. */
  lemma TargetPathNamesProject(answer: string, projectName: string, cwd: string,
                               resolve: string -> string)
    requires Validate(projectName) == Accepted
    ensures Basename(TargetPath(answer, projectName, cwd, resolve)) == projectName
  {
    AcceptedNameIsPlain(projectName);
    var base := if StartsWith(answer, "/") then resolve(answer) else resolve(JoinPath(cwd, answer));
    if base == "" {
      BasenameAfterSlash("", projectName);
      assert "" + projectName == projectName;
    } else if EndsWith(base, "/") {
      BasenameAfterSlash(base, projectName);
    } else {
      var x := base + "/";
      assert EndsWith(x, "/") by {
        assert x[|x| - 1..] == "/";
      }
      BasenameAfterSlash(x, projectName);
    }
  }

  /** The prompt answers the `create` action uses. */
  datatype Answers = Answers(template: Template, projectName: string, targetPath: string, isReplaceAll: bool)

  /** The options the `create` action hands to createFromTemplate: the
      selected template's path, the composed project directory, the
      `.gitignore` always read, and the answered name and replace-all
      choice. */
  function CreateRequest(a: Answers, cwd: string, resolve: string -> string): CreateOptions {
    CreateOptions(a.template.path, TargetPath(a.targetPath, a.projectName, cwd, resolve),
                  Some(true), Some(a.projectName), Some(a.isReplaceAll))
  }

  /** Through the `create` command, with an accepted name, the `.gitignore`
      is read, the rename step runs after a finished copy, and the answer
      to the replace-all question makes no difference to what is created. */
  lemma CreateRequestEffect(a: Answers, cwd: string, resolve: string -> string,
                            t: Tree, template: Option<Tree>,
                            glob: (Tree, seq<string>) -> seq<string>, codec: JsonCodec)
    requires Validate(a.projectName) == Accepted
    requires ManifestNameLiteral(codec, t)
    requires template.Some? ==> ManifestNameLiteral(codec, template.value)
    ensures var opts := CreateRequest(a, cwd, resolve);
      && opts.templatePath == a.template.path
      && opts.targetPath == TargetPath(a.targetPath, a.projectName, cwd, resolve)
      && UseGitIgnore(opts) && RenameRequested(opts)
      && CreateSpec(t, opts, template, glob, codec)
         == CreateSpec(t, CreateRequest(a.(isReplaceAll := false), cwd, resolve), template, glob, codec)
  {
    ValidateAccepts(a.projectName);
    var opts := CreateRequest(a, cwd, resolve);
    CreateIgnoresReplaceAll(t, opts, template, glob, codec, Some(false));
  }
}
