/** createFromTemplate and updateProjectFiles (src/index.ts): copying a
    template tree into a target directory, then renaming the project in the
    copy. */
module Scaffold {
  import opened Wrappers
  import opened Strings
  import opened Paths
  import opened Fs
  import opened GitIgnore
  import opened Seqs

  /** A directory tree, by paths relative to its root. */
  datatype Tree = Tree(files: map<string, string>, dirs: set<string>)

  /** No path is both a file and a directory. */
  predicate WellFormed(t: Tree) {
    t.files.Keys !! t.dirs
  }

  /** `fs.existsSync` below the root of `t`. */
  predicate Exists(t: Tree, p: string) {
    p in t.files || p in t.dirs
  }

  /** `fs.readFile(p, 'utf-8')`. */
  function ReadText(t: Tree, p: string): Result<string, Error> {
    if p in t.files then Success(t.files[p])
    else if p in t.dirs then Failure(IsADirectory(p))
    else Failure(NoSuchFile(p))
  }

  /** What a run leaves behind: the tree, the files it wrote in the order it
      wrote them, and whether it finished or threw. */
  datatype Run = Run(tree: Tree, log: seq<string>, outcome: Outcome<Error>)

  /** The CreateOptions interface; fields the caller may omit are options. */
  datatype CreateOptions = CreateOptions(
    templatePath: string,
    targetPath: string,
    skipGitIgnore: Option<bool>,
    projectName: Option<string>,
    isReplaceAll: Option<bool>)

  const ManifestFile: string := "package.json"
  const ReadmeFile: string := "README.md"
  const GitIgnoreFile: string := ".gitignore"
  const TextFileExtensions: seq<string> :=
    [".ts", ".tsx", ".js", ".jsx", ".json", ".md", ".yml", ".yaml", ".html"]

  /** Characters with a meaning in a JavaScript regular expression. */
  predicate IsRegexMeta(c: char) {
    || c == '\\' || c == '^' || c == '$' || c == '.' || c == '|' || c == '?' || c == '*'
    || c == '+' || c == '(' || c == ')' || c == '[' || c == ']' || c == '{' || c == '}'
  }

  /** A name that `new RegExp(name, 'g')` matches literally. */
  predicate LiteralPattern(name: string) {
    |name| > 0 && forall i :: 0 <= i < |name| ==> !IsRegexMeta(name[i])
  }

  /** A replacement string without `$` substitution patterns. */
  predicate PlainReplacement(s: string) {
    '$' !in s
  }

  /** If `text` reads as a manifest, its name is a literal pattern. */
  predicate NameIsLiteral(codec: JsonCodec, text: string) {
    codec.parse(text).Some? ==> LiteralPattern(codec.parse(text).value.name)
  }

  predicate ManifestNameLiteral(codec: JsonCodec, t: Tree) {
    ManifestFile in t.files ==> NameIsLiteral(codec, t.files[ManifestFile])
  }

  // ---------------------------------------------------------------------
  // Copying

  /** One pass of the copy loop for entry `p` of the listing: a directory is
      made with `ensureDir`, a file is copied over whatever file was there,
      and `statSync` throws for an entry that is not in the template. */
  function CopyEntry(t: Tree, template: Tree, p: string): Result<(Tree, seq<string>), Error> {
    if p in template.dirs then
      if p in t.files then Failure(NotADirectory(p))
      else Success((t.(dirs := t.dirs + {p}), []))
    else if p in template.files then
      if p in t.dirs then Failure(IsADirectory(p))
      else Success((t.(files := t.files[p := template.files[p]]), [p]))
    else Failure(NoSuchFile(p))
  }

  /** The copy loop over a listing, stopping at the first entry that throws. */
  function CopyEntries(t: Tree, template: Tree, listing: seq<string>): Run
    decreases |listing|
  {
    if listing == [] then Run(t, [], Pass)
    else match CopyEntry(t, template, listing[0])
      case Failure(e) => Run(t, [], Fail(e))
      case Success((t', w)) =>
        var r := CopyEntries(t', template, listing[1..]);
        Run(r.tree, w + r.log, r.outcome)
  }

  /** The target with every listed template entry laid over it. */
  function Overlay(t: Tree, template: Tree, listing: seq<string>): Tree {
    Tree(t.files + (map p | p in listing && p in template.files :: template.files[p]),
         t.dirs + (set p | p in listing && p in template.dirs))
  }

  /** The listed template files, in listing order. */
  function FileEntries(template: Tree, listing: seq<string>): seq<string> {
    if listing == [] then []
    else (if listing[0] in template.files && listing[0] !in template.dirs then [listing[0]] else [])
         + FileEntries(template, listing[1..])
  }

  /** An entry the copy can take: it is in the template and does not clash
      with what the target holds at that path. */
  predicate Copyable(t: Tree, template: Tree, p: string) {
    && Exists(template, p)
    && (p in template.dirs ==> p !in t.files)
    && (p in template.files ==> p !in t.dirs)
  }

  /** The copy finishes exactly when every listed entry is copyable. */
  lemma {:induction false} CopyEntriesPasses(t: Tree, template: Tree, listing: seq<string>)
    requires WellFormed(template)
    ensures CopyEntries(t, template, listing).outcome == Pass
            <==> forall p :: p in listing ==> Copyable(t, template, p)
    decreases |listing|
  {
    if listing != [] {
      var p := listing[0];
      assert forall q :: q in listing <==> q == p || q in listing[1..];
      match CopyEntry(t, template, p)
      case Failure(e) =>
        assert !Copyable(t, template, p) && p in listing;
      case Success((t', w)) =>
        CopyEntriesPasses(t', template, listing[1..]);
        assert forall q :: Copyable(t', template, q) <==> Copyable(t, template, q);
    }
  }

  /** Making the directory of the first entry, then laying over the rest,
      gives the overlay of the whole listing. */
  lemma OverlayDirStep(t: Tree, template: Tree, p: string, rest: seq<string>)
    requires WellFormed(template) && p in template.dirs
    ensures Overlay(t.(dirs := t.dirs + {p}), template, rest) == Overlay(t, template, [p] + rest)
  {
    var listing := [p] + rest;
    assert forall q :: q in listing <==> q == p || q in rest;
    var a := Overlay(t.(dirs := t.dirs + {p}), template, rest);
    var b := Overlay(t, template, listing);
    assert a.files == b.files;
    assert a.dirs == b.dirs;
  }

  /** Copying the file of the first entry, then laying over the rest, gives
      the overlay of the whole listing. */
  lemma OverlayFileStep(t: Tree, template: Tree, p: string, rest: seq<string>)
    requires WellFormed(template) && p in template.files
    ensures Overlay(t.(files := t.files[p := template.files[p]]), template, rest)
            == Overlay(t, template, [p] + rest)
  {
    var listing := [p] + rest;
    var v := template.files[p];
    var mr := map q | q in rest && q in template.files :: template.files[q];
    var ml := map q | q in listing && q in template.files :: template.files[q];
    assert ml == mr[p := v] by {
      assert forall q :: q in listing <==> q == p || q in rest;
    }
    assert t.files[p := v] + mr == t.files + mr[p := v];
    assert Overlay(t, template, listing).dirs == Overlay(t, template, rest).dirs by {
      assert forall q :: q in listing <==> q == p || q in rest;
    }
  }

  /** A finished copy leaves the overlay of the listed entries. */
  lemma {:induction false} CopyEntriesTree(t: Tree, template: Tree, listing: seq<string>)
    requires WellFormed(template)
    ensures var r := CopyEntries(t, template, listing);
      r.outcome == Pass ==> r.tree == Overlay(t, template, listing)
    decreases |listing|
  {
    if listing != [] {
      var p := listing[0];
      assert listing == [p] + listing[1..];
      match CopyEntry(t, template, p)
      case Failure(e) =>
      case Success((t', w)) =>
        CopyEntriesTree(t', template, listing[1..]);
        if p in template.dirs {
          OverlayDirStep(t, template, p, listing[1..]);
        } else {
          OverlayFileStep(t, template, p, listing[1..]);
        }
    }
  }

  /** A finished copy writes the listed files, in listing order. */
  lemma {:induction false} CopyEntriesLog(t: Tree, template: Tree, listing: seq<string>)
    requires WellFormed(template)
    ensures var r := CopyEntries(t, template, listing);
      r.outcome == Pass ==> r.log == FileEntries(template, listing)
    decreases |listing|
  {
    if listing != [] {
      match CopyEntry(t, template, listing[0])
      case Failure(e) =>
      case Success((t', w)) =>
        CopyEntriesLog(t', template, listing[1..]);
    }
  }

  /** A file of the copy holds either what the target had or what the
      template has at that path, whether or not the copy finished. */
  lemma {:induction false} CopyEntriesOrigin(t: Tree, template: Tree, listing: seq<string>, p: string)
    ensures var r := CopyEntries(t, template, listing);
      p in r.tree.files ==>
        (p in t.files && r.tree.files[p] == t.files[p])
        || (p in template.files && r.tree.files[p] == template.files[p])
    decreases |listing|
  {
    if listing != [] {
      match CopyEntry(t, template, listing[0])
      case Failure(e) =>
      case Success((t', w)) =>
        CopyEntriesOrigin(t', template, listing[1..], p);
    }
  }

  /** The copy never makes a path both a file and a directory. */
  lemma {:induction false} CopyEntriesWellFormed(t: Tree, template: Tree, listing: seq<string>)
    requires WellFormed(t)
    ensures WellFormed(CopyEntries(t, template, listing).tree)
    decreases |listing|
  {
    if listing != [] {
      match CopyEntry(t, template, listing[0])
      case Failure(e) =>
      case Success((t', w)) =>
        CopyEntriesWellFormed(t', template, listing[1..]);
    }
  }

  // ---------------------------------------------------------------------
  // Renaming

  /** `p` is `d` or lies below it. */
  predicate Under(p: string, d: string) {
    p == d || StartsWith(p, d + "/")
  }

  /** The ignore list of the replace-all glob, matched from the target root:
      the default skip list (everything in the root-level `node_modules`,
      `dist` and `.git`) and the root-level `package.json` and `README.md`. */
  predicate Skipped(p: string) {
    Under(p, "node_modules") || Under(p, "dist") || Under(p, ".git")
    || p == ManifestFile || p == ReadmeFile
  }

  /** The replace-all pass rewrites a file that the glob lists, that has an
      allow-listed extension and whose text contains the old name. */
  predicate Rewrites(p: string, text: string, oldName: string) {
    !Skipped(p) && Extname(p) in TextFileExtensions && Contains(text, oldName)
  }

  /** Only the root-level manifest and readme are kept out of the pass: a
      nested `package.json` or `README.md` is listed like any other file. */
  lemma NestedManifestListed()
    ensures !Skipped("app/package.json") && !Skipped("docs/README.md")
  {
    assert "app/package.json"[0] == 'a';
    var readme := "docs/README.md";
    assert readme[0] == 'd' && readme[1] == 'o';
    assert "dist/"[1] == 'i' && ReadmeFile[0] == 'R';
    assert readme[..5][1] == 'o';
    assert !StartsWith(readme, "dist/");
    assert readme != ReadmeFile;
  }

  /** The files after the replace-all pass. */
  function RewriteAll(files: map<string, string>, oldName: string, newName: string): map<string, string>
    requires |oldName| > 0
  {
    map p | p in files :: if Rewrites(p, files[p], oldName) then ReplaceAll(files[p], oldName, newName) else files[p]
  }

  /** The files the replace-all pass writes. */
  function ScanSet(files: map<string, string>, oldName: string): set<string> {
    set p | p in files && Rewrites(p, files[p], oldName)
  }

  /** The files part-way through the replace-all pass: of the selected
      files `hits`, those no longer in `todo` have been rewritten. */
  function PartialRewrite(files: map<string, string>, hits: set<string>, todo: set<string>,
                          oldName: string, newName: string): map<string, string>
    requires |oldName| > 0
  {
    map p | p in files :: if p in hits && p !in todo then ReplaceAll(files[p], oldName, newName) else files[p]
  }

  /** Before the pass, when every selected file is still to be visited,
      nothing has changed. */
  lemma PartialStart(files: map<string, string>, hits: set<string>, todo: set<string>,
                     oldName: string, newName: string)
    requires |oldName| > 0 && hits <= todo
    ensures PartialRewrite(files, hits, todo, oldName, newName) == files
  {
  }

  /** Visiting one more file rewrites at most that file, and only when it
      is selected. */
  lemma PartialStep(files: map<string, string>, hits: set<string>, todo: set<string>, file: string,
                    oldName: string, newName: string)
    requires |oldName| > 0 && file in todo && file in files
    ensures var before := PartialRewrite(files, hits, todo, oldName, newName);
      PartialRewrite(files, hits, todo - {file}, oldName, newName)
      == if file in hits then before[file := ReplaceAll(files[file], oldName, newName)] else before
  {
    var before := PartialRewrite(files, hits, todo, oldName, newName);
    var after := PartialRewrite(files, hits, todo - {file}, oldName, newName);
    var expected := if file in hits then before[file := ReplaceAll(files[file], oldName, newName)] else before;
    assert after.Keys == expected.Keys;
    forall p | p in after
      ensures after[p] == expected[p]
    {
      if p != file {
        assert after[p] == before[p];
      }
    }
  }

  /** After the pass, every selected file has been rewritten: the files are
      those of RewriteAll. */
  lemma PartialEnd(files: map<string, string>, oldName: string, newName: string)
    requires |oldName| > 0
    ensures PartialRewrite(files, ScanSet(files, oldName), {}, oldName, newName)
            == RewriteAll(files, oldName, newName)
  {
  }

  /** The first stage of updateProjectFiles: `package.json` gets the new
      name, then `README.md`, if it exists, has the old name replaced. */
  function RenameManifest(t: Tree, projectName: string, codec: JsonCodec): Run
    requires ManifestNameLiteral(codec, t)
  {
    if !Exists(t, ManifestFile) then Run(t, [], Pass)
    else match ReadText(t, ManifestFile)
      case Failure(e) => Run(t, [], Fail(e))
      case Success(text) =>
        match codec.parse(text)
        case None => Run(t, [], Fail(InvalidJson(ManifestFile)))
        case Some(m) =>
          var t1 := t.(files := t.files[ManifestFile := codec.render(m.(name := projectName))]);
          if !Exists(t1, ReadmeFile) then Run(t1, [ManifestFile], Pass)
          else match ReadText(t1, ReadmeFile)
            case Failure(e) => Run(t1, [ManifestFile], Fail(e))
            case Success(readme) =>
              Run(t1.(files := t1.files[ReadmeFile := ReplaceAll(readme, m.name, projectName)]),
                  [ManifestFile, ReadmeFile], Pass)
  }

  /** The replace-all pass runs: it was asked for and the manifest stage
      finished after reading a manifest. */
  predicate PassRuns(t: Tree, isReplaceAll: bool, codec: JsonCodec) {
    && isReplaceAll
    && ManifestFile in t.files
    && codec.parse(t.files[ManifestFile]).Some?
    && ReadmeFile !in t.dirs
  }

  /** The name `package.json` had before the rename. */
  function OldName(t: Tree, codec: JsonCodec): string
    requires ManifestFile in t.files && codec.parse(t.files[ManifestFile]).Some?
  {
    codec.parse(t.files[ManifestFile]).value.name
  }

  /** updateProjectFiles(targetPath, projectName, isReplaceAll). */
  function UpdateSpec(t: Tree, projectName: string, isReplaceAll: bool, codec: JsonCodec): Run
    requires ManifestNameLiteral(codec, t)
  {
    var r := RenameManifest(t, projectName, codec);
    if PassRuns(t, isReplaceAll, codec) then
      Run(r.tree.(files := RewriteAll(r.tree.files, OldName(t, codec), projectName)), r.log, Pass)
    else r
  }

  /** The files the replace-all pass of updateProjectFiles writes. */
  function ScanPaths(t: Tree, projectName: string, isReplaceAll: bool, codec: JsonCodec): set<string>
    requires ManifestNameLiteral(codec, t)
  {
    if PassRuns(t, isReplaceAll, codec) then
      ScanSet(RenameManifest(t, projectName, codec).tree.files, OldName(t, codec))
    else {}
  }

  /** Without a `package.json` nothing is read, written or changed. */
  lemma UpdateWithoutManifest(t: Tree, projectName: string, isReplaceAll: bool, codec: JsonCodec)
    requires ManifestNameLiteral(codec, t) && !Exists(t, ManifestFile)
    ensures UpdateSpec(t, projectName, isReplaceAll, codec) == Run(t, [], Pass)
    ensures ScanPaths(t, projectName, isReplaceAll, codec) == {}
  {
  }

  /** With a readable manifest, the rename writes `package.json` first and
      then `README.md`, gives the manifest the new name with its other fields
      kept, and replaces the old name, read before the write, throughout the
      readme. */
  lemma UpdateRenames(t: Tree, projectName: string, isReplaceAll: bool, codec: JsonCodec)
    requires ManifestNameLiteral(codec, t) && WellFormed(t)
    requires ManifestFile in t.files && codec.parse(t.files[ManifestFile]).Some?
    requires RoundTrips(codec)
    ensures var r := UpdateSpec(t, projectName, isReplaceAll, codec);
      var m := codec.parse(t.files[ManifestFile]).value;
      && ManifestFile in r.tree.files
      && codec.parse(r.tree.files[ManifestFile]) == Some(m.(name := projectName))
      && (ReadmeFile in t.files ==>
            ReadmeFile in r.tree.files
            && r.tree.files[ReadmeFile] == ReplaceAll(t.files[ReadmeFile], m.name, projectName)
            && r.log == [ManifestFile, ReadmeFile] && r.outcome == Pass)
      && (!Exists(t, ReadmeFile) ==> r.log == [ManifestFile] && r.outcome == Pass)
      && (ReadmeFile in t.dirs ==> r.log == [ManifestFile] && r.outcome == Fail(IsADirectory(ReadmeFile)))
  {
    var m := codec.parse(t.files[ManifestFile]).value;
    assert codec.parse(codec.render(m.(name := projectName))) == Some(m.(name := projectName));
  }

  /** Without the replace-all pass, only `package.json` and `README.md` may
      change; every other file and every directory is kept. */
  lemma UpdateTouchesOnlyManifestAndReadme(t: Tree, projectName: string, codec: JsonCodec)
    requires ManifestNameLiteral(codec, t)
    ensures var r := UpdateSpec(t, projectName, false, codec);
      && r.tree.dirs == t.dirs
      && r.tree.files.Keys <= t.files.Keys
      && forall p :: p in t.files && p != ManifestFile && p != ReadmeFile ==>
           p in r.tree.files && r.tree.files[p] == t.files[p]
  {
  }

  /** With the replace-all pass, a file other than the root `package.json`
      and `README.md` is rewritten exactly when the pass selects it, and a
      file the pass does not select keeps its text. */
  lemma UpdateReplaceAll(t: Tree, projectName: string, codec: JsonCodec)
    requires ManifestNameLiteral(codec, t) && WellFormed(t)
    requires PassRuns(t, true, codec)
    ensures var r := UpdateSpec(t, projectName, true, codec);
      var o := OldName(t, codec);
      && r.outcome == Pass
      && r.tree.dirs == t.dirs && r.tree.files.Keys == t.files.Keys
      && (forall p :: p in t.files && p != ManifestFile && p != ReadmeFile ==>
            r.tree.files[p] == if Rewrites(p, t.files[p], o) then ReplaceAll(t.files[p], o, projectName) else t.files[p])
      && ScanPaths(t, projectName, true, codec) == ScanSet(t.files, o)
  {
    var o := OldName(t, codec);
    var r1 := RenameManifest(t, projectName, codec);
    assert forall p :: p in t.files && p != ManifestFile && p != ReadmeFile ==> r1.tree.files[p] == t.files[p];
    assert !Rewrites(ManifestFile, r1.tree.files[ManifestFile], o);
    assert ReadmeFile in r1.tree.files ==> !Rewrites(ReadmeFile, r1.tree.files[ReadmeFile], o);
    assert ScanSet(r1.tree.files, o) == ScanSet(t.files, o);
  }

  // ---------------------------------------------------------------------
  // Creating

  /** `skipGitIgnore` defaults to true, and true means the `.gitignore` IS
      read. */
  function UseGitIgnore(opts: CreateOptions): bool {
    opts.skipGitIgnore.GetOr(true)
  }

  /** The `.gitignore` text, when it is to be read and exists. */
  function ReadGitIgnore(template: Tree, use: bool): Result<Option<string>, Error> {
    if !use || !Exists(template, GitIgnoreFile) then Success(None)
    else match ReadText(template, GitIgnoreFile)
      case Failure(e) => Failure(e)
      case Success(text) => Success(Some(text))
  }

  /** The package name the rename step would be given: only a truthy one. */
  predicate RenameRequested(opts: CreateOptions) {
    Truthy(opts.projectName)
  }

  /** createFromTemplate(options), with the template as it is on disk (`None`
      when the template path does not exist) and `glob` standing for the glob
      library's listing of a tree under a list of ignore patterns. The rename
      step is always called without `isReplaceAll`. */
  function CreateSpec(t: Tree, opts: CreateOptions, template: Option<Tree>,
                      glob: (Tree, seq<string>) -> seq<string>, codec: JsonCodec): Run
    requires ManifestNameLiteral(codec, t)
    requires template.Some? ==> ManifestNameLiteral(codec, template.value)
  {
    if template.None? then Run(t, [], Fail(TemplateNotFound(opts.templatePath)))
    else match ReadGitIgnore(template.value, UseGitIgnore(opts))
      case Failure(e) => Run(t, [], Fail(e))
      case Success(gitignore) =>
        var listing := glob(template.value, IgnorePatterns(UseGitIgnore(opts), gitignore));
        CopyRenameSpec(t, template.value, listing, opts.projectName, codec)
  }

  /** The part of createFromTemplate after the listing: copy the listed
      entries, then, when the copy finished and the project name is truthy,
      run the rename step without `isReplaceAll`. */
  function CopyRenameSpec(t: Tree, template: Tree, listing: seq<string>,
                          projectName: Option<string>, codec: JsonCodec): Run
    requires ManifestNameLiteral(codec, t) && ManifestNameLiteral(codec, template)
  {
    var c := CopyEntries(t, template, listing);
    if c.outcome.Fail? || !Truthy(projectName) then c
    else
      CopyEntriesOrigin(t, template, listing, ManifestFile);
      var u := UpdateSpec(c.tree, projectName.value, false, codec);
      Run(u.tree, c.log + u.log, u.outcome)
  }

  /** A missing template throws before anything is read or written. */
  lemma CreateWithoutTemplate(t: Tree, opts: CreateOptions,
                              glob: (Tree, seq<string>) -> seq<string>, codec: JsonCodec)
    requires ManifestNameLiteral(codec, t)
    ensures CreateSpec(t, opts, None, glob, codec) == Run(t, [], Fail(TemplateNotFound(opts.templatePath)))
  {
  }

  /** The `isReplaceAll` option has no effect on createFromTemplate. */
  lemma CreateIgnoresReplaceAll(t: Tree, opts: CreateOptions, template: Option<Tree>,
                                glob: (Tree, seq<string>) -> seq<string>, codec: JsonCodec, b: Option<bool>)
    requires ManifestNameLiteral(codec, t)
    requires template.Some? ==> ManifestNameLiteral(codec, template.value)
    ensures CreateSpec(t, opts, template, glob, codec)
            == CreateSpec(t, opts.(isReplaceAll := b), template, glob, codec)
  {
  }

  /** The glob is handed the default skip list, followed by the converted
      `.gitignore` lines when the `.gitignore` is read. */
  lemma CreateGlobPatterns(opts: CreateOptions, template: Tree)
    requires ReadGitIgnore(template, UseGitIgnore(opts)).Success?
    ensures var gi := ReadGitIgnore(template, UseGitIgnore(opts)).value;
      var ps := IgnorePatterns(UseGitIgnore(opts), gi);
      && ps[..3] == DefaultSkipFiles
      && (UseGitIgnore(opts) && GitIgnoreFile in template.files ==>
            ps[3..] == GitIgnoreGlobs(template.files[GitIgnoreFile]))
      && (!UseGitIgnore(opts) || !Exists(template, GitIgnoreFile) ==> ps == DefaultSkipFiles)
  {
  }

  /** Without a truthy project name, createFromTemplate is the copy alone. */
  lemma CreateWithoutName(t: Tree, opts: CreateOptions, template: Tree,
                          glob: (Tree, seq<string>) -> seq<string>, codec: JsonCodec)
    requires ManifestNameLiteral(codec, t) && ManifestNameLiteral(codec, template)
    requires ReadGitIgnore(template, UseGitIgnore(opts)).Success? && !RenameRequested(opts)
    ensures var gi := ReadGitIgnore(template, UseGitIgnore(opts)).value;
      CreateSpec(t, opts, Some(template), glob, codec)
      == CopyEntries(t, template, glob(template, IgnorePatterns(UseGitIgnore(opts), gi)))
  {
  }

  /** A finished copy-and-rename leaves the listed template entries in the
      target; every file other than the root `package.json` and `README.md`
      holds what the copy put there, since the replace-all pass never runs. */
  lemma CreateEffect(t: Tree, opts: CreateOptions, template: Tree,
                     glob: (Tree, seq<string>) -> seq<string>, codec: JsonCodec)
    requires WellFormed(template)
    requires ManifestNameLiteral(codec, t) && ManifestNameLiteral(codec, template)
    requires ReadGitIgnore(template, UseGitIgnore(opts)).Success?
    ensures var gi := ReadGitIgnore(template, UseGitIgnore(opts)).value;
      var listing := glob(template, IgnorePatterns(UseGitIgnore(opts), gi));
      var o := Overlay(t, template, listing);
      var r := CreateSpec(t, opts, Some(template), glob, codec);
      r.outcome == Pass ==>
        && r.tree.dirs == o.dirs
        && (forall p :: p in o.files && p != ManifestFile && p != ReadmeFile ==>
              p in r.tree.files && r.tree.files[p] == o.files[p])
        && FileEntries(template, listing) <= r.log
  {
    var gi := ReadGitIgnore(template, UseGitIgnore(opts)).value;
    var listing := glob(template, IgnorePatterns(UseGitIgnore(opts), gi));
    var c := CopyEntries(t, template, listing);
    if c.outcome == Pass {
      CopyEntriesTree(t, template, listing);
      CopyEntriesLog(t, template, listing);
      if RenameRequested(opts) {
        CopyEntriesOrigin(t, template, listing, ManifestFile);
        UpdateTouchesOnlyManifestAndReadme(c.tree, opts.projectName.value, codec);
      }
    } else {
      assert CreateSpec(t, opts, Some(template), glob, codec).outcome.Fail?;
    }
  }

  /** When the copy of a listed template `package.json` that reads as a
      manifest finishes and the project name is truthy, the target's
      `package.json` reads back as the template's manifest with the new name,
      and a copied template `README.md` ends with every occurrence of the
      template's old name replaced by the new one. */
  lemma CreateRenames(t: Tree, opts: CreateOptions, template: Tree,
                      glob: (Tree, seq<string>) -> seq<string>, codec: JsonCodec)
    requires WellFormed(t) && WellFormed(template) && RoundTrips(codec)
    requires ManifestNameLiteral(codec, t) && ManifestNameLiteral(codec, template)
    requires ReadGitIgnore(template, UseGitIgnore(opts)).Success? && RenameRequested(opts)
    requires var gi := ReadGitIgnore(template, UseGitIgnore(opts)).value;
      ManifestFile in glob(template, IgnorePatterns(UseGitIgnore(opts), gi))
    requires ManifestFile in template.files && codec.parse(template.files[ManifestFile]).Some?
    ensures var gi := ReadGitIgnore(template, UseGitIgnore(opts)).value;
      var listing := glob(template, IgnorePatterns(UseGitIgnore(opts), gi));
      var c := CopyEntries(t, template, listing);
      var r := CreateSpec(t, opts, Some(template), glob, codec);
      var m := codec.parse(template.files[ManifestFile]).value;
      var name := opts.projectName.value;
      c.outcome == Pass ==>
        && ManifestFile in r.tree.files
        && codec.parse(r.tree.files[ManifestFile]) == Some(m.(name := name))
        && (ReadmeFile in listing && ReadmeFile in template.files ==>
              && r.outcome == Pass
              && ReadmeFile in r.tree.files
              && r.tree.files[ReadmeFile] == ReplaceAll(template.files[ReadmeFile], m.name, name)
              && r.log == c.log + [ManifestFile, ReadmeFile])
  {
    var gi := ReadGitIgnore(template, UseGitIgnore(opts)).value;
    var listing := glob(template, IgnorePatterns(UseGitIgnore(opts), gi));
    var c := CopyEntries(t, template, listing);
    if c.outcome == Pass {
      CopyEntriesTree(t, template, listing);
      CopyEntriesWellFormed(t, template, listing);
      CopyEntriesOrigin(t, template, listing, ManifestFile);
      assert c.tree.files[ManifestFile] == template.files[ManifestFile];
      assert ReadmeFile in listing && ReadmeFile in template.files ==>
        c.tree.files[ReadmeFile] == template.files[ReadmeFile];
      UpdateRenames(c.tree, opts.projectName.value, false, codec);
    }
  }

  /** The ignore list of createFromTemplate: the default skip list, with
      the converted `.gitignore` lines appended when the `.gitignore` is to
      be read and exists; reading it throws when it is a directory. */
  method IgnoreList(template: Tree, useGitIgnore: bool) returns (r: Result<seq<string>, Error>)
    ensures ReadGitIgnore(template, useGitIgnore).Failure? ==>
      r == Failure(ReadGitIgnore(template, useGitIgnore).error)
    ensures ReadGitIgnore(template, useGitIgnore).Success? ==>
      r == Success(IgnorePatterns(useGitIgnore, ReadGitIgnore(template, useGitIgnore).value))
  {
    var ignorePatterns := DefaultSkipFiles;
    if useGitIgnore && Exists(template, GitIgnoreFile) {
      var text := ReadText(template, GitIgnoreFile);
      if text.Failure? {
        return Failure(text.error);
      }
      ignorePatterns := ignorePatterns + GitIgnoreGlobs(text.value);
    }
    return Success(ignorePatterns);
  }

  // ---------------------------------------------------------------------
  // The target directory, changed in place

  /** The target directory of a create: its files and directories by path
      relative to the target root, and, for the proofs, the files written so
      far in the order they were written. */
  class TargetDir {
    var files: map<string, string>
    var dirs: set<string>
    ghost var writes: seq<string>

    ghost predicate Valid()
      reads this
    {
      WellFormed(Contents())
    }

    function Contents(): Tree
      reads this
    {
      Tree(files, dirs)
    }

    constructor (initial: Tree)
      requires WellFormed(initial)
      ensures Valid() && Contents() == initial && writes == []
    {
      files := initial.files;
      dirs := initial.dirs;
      writes := [];
    }

    /** `fs.ensureDir(p)`: fails where a file stands. */
    method EnsureDir(p: string) returns (out: Outcome<Error>)
      requires Valid()
      modifies this
      ensures Valid() && writes == old(writes) && files == old(files)
      ensures p in old(files) ==> out == Fail(NotADirectory(p)) && dirs == old(dirs)
      ensures p !in old(files) ==> out == Pass && dirs == old(dirs) + {p}
    {
      if p in files {
        return Fail(NotADirectory(p));
      }
      dirs := dirs + {p};
      return Pass;
    }

    /** `fs.writeFile(p, text)` and `fs.copy` of one file: the file at `p` is
      replaced; fails where a directory stands. */
    method WriteFile(p: string, text: string) returns (out: Outcome<Error>)
      requires Valid()
      modifies this
      ensures Valid() && dirs == old(dirs)
      ensures p in old(dirs) ==> out == Fail(IsADirectory(p)) && files == old(files) && writes == old(writes)
      ensures p !in old(dirs) ==> out == Pass && files == old(files)[p := text] && writes == old(writes) + [p]
    {
      if p in dirs {
        return Fail(IsADirectory(p));
      }
      files := files[p := text];
      writes := writes + [p];
      return Pass;
    }

    /** replaceProjectName(p, oldName, newName): read the file, replace every
      occurrence of the old name, write it back. */
    method ReplaceProjectName(p: string, oldName: string, newName: string) returns (out: Outcome<Error>)
      requires Valid()
      requires LiteralPattern(oldName) && PlainReplacement(newName)
      modifies this
      ensures Valid() && dirs == old(dirs)
      ensures p in old(files) ==>
        && out == Pass
        && files == old(files)[p := ReplaceAll(old(files)[p], oldName, newName)]
        && writes == old(writes) + [p]
      ensures p !in old(files) ==>
        && out == Fail(ReadText(old(Contents()), p).error)
        && files == old(files) && writes == old(writes)
    {
      var content := ReadText(Contents(), p);
      if content.Failure? {
        return Fail(content.error);
      }
      out := WriteFile(p, ReplaceAll(content.value, oldName, newName));
    }
  
    /** One file of the replace-all pass: rewritten when its extension is
      allow-listed and its text contains the old name. */
    method ReplaceIfListed(file: string, oldName: string, newName: string) returns (hit: bool)
      requires Valid() && file in files && !Skipped(file)
      requires LiteralPattern(oldName) && PlainReplacement(newName)
      modifies this
      ensures Valid() && dirs == old(dirs)
      ensures hit == Rewrites(file, old(files)[file], oldName)
      ensures files == if hit then old(files)[file := ReplaceAll(old(files)[file], oldName, newName)] else old(files)
      ensures writes == old(writes) + if hit then [file] else []
    {
      hit := Extname(file) in TextFileExtensions && Contains(files[file], oldName);
      if hit {
        var _ := ReplaceProjectName(file, oldName, newName);
      }
    }

    /** The replace-all pass of updateProjectFiles: every file the glob
      lists (all of them but the skipped ones) goes through ReplaceIfListed,
      in an order the model leaves open. */
    method ReplaceEverywhere(oldName: string, newName: string)
      requires Valid()
      requires LiteralPattern(oldName) && PlainReplacement(newName)
      modifies this
      ensures Valid() && dirs == old(dirs)
      ensures files == RewriteAll(old(files), oldName, newName)
      ensures |writes| >= |old(writes)| && writes[..|old(writes)|] == old(writes)
      ensures NoDups(writes[|old(writes)|..])
      ensures Elems(writes[|old(writes)|..]) == ScanSet(old(files), oldName)
    {
      ghost var f0 := files;
      ghost var w0 := writes;
      ghost var hits := ScanSet(f0, oldName);
      var todo := set p | p in files && !Skipped(p);
      ghost var listed := todo;
      ghost var log: seq<string> := [];
      PartialStart(f0, hits, todo, oldName, newName);
      while todo != {}
        invariant Valid() && dirs == old(dirs)
        invariant todo <= listed
        invariant files == PartialRewrite(f0, hits, todo, oldName, newName)
        invariant writes == w0 + log
        invariant NoDups(log) && Elems(log) == hits - todo
        decreases todo
      {
        var file :| file in todo;
        PartialStep(f0, hits, todo, file, oldName, newName);
        assert files[file] == f0[file];
        var hit := ReplaceIfListed(file, oldName, newName);
        assert hit <==> file in hits;
        if hit {
          assert file !in log;
          ElemsSnoc(log, file);
          AppendAssoc(w0, log, [file]);
          log := log + [file];
        }
        DoneStep(hits, todo, file);
        assert Elems(log) == (hits - todo) + (if file in hits then {file} else {});
        todo := todo - {file};
      }
      PartialEnd(f0, oldName, newName);
      assert writes[|w0|..] == log;
    }

    /** updateProjectFiles(targetPath, projectName, isReplaceAll): rename in
      `package.json`, then in `README.md`, then, when asked, in every listed
      text file that contains the old name (in the glob's order, which the
      model leaves open). */
    method UpdateProjectFiles(projectName: string, isReplaceAll: bool, codec: JsonCodec)
      returns (out: Outcome<Error>)
      requires Valid()
      requires ManifestNameLiteral(codec, Contents()) && PlainReplacement(projectName)
      modifies this
      ensures Valid()
      ensures var run := UpdateSpec(old(Contents()), projectName, isReplaceAll, codec);
        Contents() == run.tree && out == run.outcome
      ensures var run := UpdateSpec(old(Contents()), projectName, isReplaceAll, codec);
        var k := |old(writes)| + |run.log|;
        && |writes| >= k && writes[..k] == old(writes) + run.log
        && NoDups(writes[k..])
        && Elems(writes[k..]) == ScanPaths(old(Contents()), projectName, isReplaceAll, codec)
    {
      ghost var t0 := Contents();
      ghost var w0 := writes;
      if !(ManifestFile in files || ManifestFile in dirs) {
        return Pass;
      }
      var read := ReadText(Contents(), ManifestFile);
      if read.Failure? {
        return Fail(read.error);
      }
      var parsed := codec.parse(read.value);
      if parsed.None? {
        return Fail(InvalidJson(ManifestFile));
      }
      var manifest := parsed.value;
      var oldName := manifest.name;
      out := WriteFile(ManifestFile, codec.render(manifest.(name := projectName)));
      if ReadmeFile in files || ReadmeFile in dirs {
        out := ReplaceProjectName(ReadmeFile, oldName, projectName);
        if out.Fail? {
          return;
        }
      }
      assert Contents() == RenameManifest(t0, projectName, codec).tree;
      assert writes == w0 + RenameManifest(t0, projectName, codec).log;
      if !isReplaceAll {
        assert Elems(writes[|writes|..]) == {};
        return;
      }

      assert oldName == OldName(t0, codec);
      ReplaceEverywhere(oldName, projectName);
      out := Pass;
    }

    /** The copy loop of createFromTemplate: each listed entry, in listing
      order, is made a directory when the template holds a directory there
      and is copied when it holds a file; the first entry that throws ends
      the loop. */
    method CopyListing(tpl: Tree, listing: seq<string>) returns (out: Outcome<Error>)
      requires Valid()
      modifies this
      ensures Valid()
      ensures var c := CopyEntries(old(Contents()), tpl, listing);
        Contents() == c.tree && out == c.outcome && writes == old(writes) + c.log
    {
      ghost var t0 := Contents();
      ghost var w0 := writes;
      var i := 0;
      ghost var done: seq<string> := [];
      while i < |listing|
        invariant 0 <= i <= |listing|
        invariant Valid() && writes == w0 + done
        invariant var r := CopyEntries(Contents(), tpl, listing[i..]);
          CopyEntries(t0, tpl, listing) == Run(r.tree, done + r.log, r.outcome)
      {
        var p := listing[i];
        assert listing[i..][0] == p && listing[i..][1..] == listing[i + 1..];
        if p in tpl.dirs {
          out := EnsureDir(p);
          if out.Fail? {
            return;
          }
        } else if p in tpl.files {
          out := WriteFile(p, tpl.files[p]);
          if out.Fail? {
            return;
          }
          assert done + ([p] + CopyEntries(Contents(), tpl, listing[i + 1..]).log)
              == (done + [p]) + CopyEntries(Contents(), tpl, listing[i + 1..]).log;
          done := done + [p];
        } else {
          return Fail(NoSuchFile(p));
        }
        i := i + 1;
      }
      out := Pass;
    }

    /** createFromTemplate(options), into this target directory: the
      template (`None` when its path does not exist) is listed by `glob`
      under the ignore patterns, each listed entry is copied in listing
      order, and a truthy project name is then given to updateProjectFiles
      without `isReplaceAll`. */
    method CreateFromTemplate(opts: CreateOptions, template: Option<Tree>,
                              glob: (Tree, seq<string>) -> seq<string>, codec: JsonCodec)
      returns (out: Outcome<Error>)
      requires Valid() && ManifestNameLiteral(codec, Contents())
      requires template.Some? ==> ManifestNameLiteral(codec, template.value)
      requires opts.projectName.Some? ==> PlainReplacement(opts.projectName.value)
      modifies this
      ensures Valid()
      ensures var run := CreateSpec(old(Contents()), opts, template, glob, codec);
        Contents() == run.tree && out == run.outcome && writes == old(writes) + run.log
    {
      ghost var t0 := Contents();
      ghost var w0 := writes;
      if template.None? {
        return Fail(TemplateNotFound(opts.templatePath));
      }
      var tpl := template.value;

      var ignorePatterns := IgnoreList(tpl, opts.skipGitIgnore.GetOr(true));
      if ignorePatterns.Failure? {
        return Fail(ignorePatterns.error);
      }
      var listing := glob(tpl, ignorePatterns.value);
      out := CopyAndRename(tpl, listing, opts.projectName, codec);
    }

    /** The copy of the listed entries, then the rename step when the copy
      finished and the project name is truthy. */
    method CopyAndRename(tpl: Tree, listing: seq<string>, projectName: Option<string>, codec: JsonCodec)
      returns (out: Outcome<Error>)
      requires Valid() && ManifestNameLiteral(codec, Contents()) && ManifestNameLiteral(codec, tpl)
      requires projectName.Some? ==> PlainReplacement(projectName.value)
      modifies this
      ensures Valid()
      ensures var run := CopyRenameSpec(old(Contents()), tpl, listing, projectName, codec);
        Contents() == run.tree && out == run.outcome && writes == old(writes) + run.log
    {
      ghost var t0 := Contents();
      ghost var w0 := writes;
      out := CopyListing(tpl, listing);
      if out.Fail? {
        return;
      }
      ghost var c := CopyEntries(t0, tpl, listing);
      if projectName.Some? && projectName.value != "" {
        CopyEntriesOrigin(t0, tpl, listing, ManifestFile);
        var name := projectName.value;
        ghost var u := UpdateSpec(c.tree, name, false, codec);
        out := UpdateProjectFiles(name, false, codec);
        ghost var k := |w0| + |c.log| + |u.log|;
        assert writes == writes[..k] + writes[k..];
      } else {
        out := Pass;
      }
    }
  }
}
