/** The template registry of the generated CLI (TemplateManager): an ordered,
    duplicate-free list of search directories and the templates found in
    them. */
module Templates {
  import opened Wrappers
  import opened Strings
  import opened Paths
  import opened Fs
  import opened Seqs

  // ---------------------------------------------------------------------
  // Search directories

  /** `templateDirs.includes(dir)` guards `templateDirs.push(dir)`. */
  function AddDir(dirs: seq<string>, dir: string): (r: seq<string>)
    ensures dir in r && dirs <= r
    ensures dir in dirs ==> r == dirs
    ensures dir !in dirs ==> r == dirs + [dir]
  {
    if dir in dirs then dirs else dirs + [dir]
  }

  /** The list that `addTemplateDir` builds when it is called on each of
      `ds` in turn, from left to right, starting from `dirs`. */
  function AddAll(dirs: seq<string>, ds: seq<string>): seq<string>
    decreases |ds|
  {
    if ds == [] then dirs else AddDir(AddAll(dirs, ds[..|ds| - 1]), ds[|ds| - 1])
  }

  /** One more call. */
  lemma AddAllStep(dirs: seq<string>, ds: seq<string>, i: nat)
    requires i < |ds|
    ensures AddAll(dirs, ds[..i + 1]) == AddDir(AddAll(dirs, ds[..i]), ds[i])
  {
    assert ds[..i + 1][..i] == ds[..i];
  }

  /** Adding a directory keeps a list duplicate-free. */
  lemma AddDirNoDups(dirs: seq<string>, dir: string)
    requires NoDups(dirs)
    ensures NoDups(AddDir(dirs, dir))
  {
  }

  /** The list stays duplicate-free, whatever is added. */
  lemma {:induction false} AddAllNoDups(dirs: seq<string>, ds: seq<string>)
    requires NoDups(dirs)
    ensures NoDups(AddAll(dirs, ds))
    decreases |ds|
  {
    if ds != [] {
      AddAllNoDups(dirs, ds[..|ds| - 1]);
      AddDirNoDups(AddAll(dirs, ds[..|ds| - 1]), ds[|ds| - 1]);
    }
  }

  /** The list holds exactly what it held and what was added. */
  lemma {:induction false} AddAllElems(dirs: seq<string>, ds: seq<string>)
    ensures forall d :: d in AddAll(dirs, ds) <==> d in dirs || d in ds
    decreases |ds|
  {
    if ds != [] {
      var init := ds[..|ds| - 1];
      AddAllElems(dirs, init);
      assert ds == init + [ds[|ds| - 1]];
    }
  }

  /** Nothing already in the list moves or is dropped. */
  lemma {:induction false} AddAllPrefix(dirs: seq<string>, ds: seq<string>)
    ensures dirs <= AddAll(dirs, ds)
    decreases |ds|
  {
    if ds != [] {
      AddAllPrefix(dirs, ds[..|ds| - 1]);
    }
  }

  /** Adding `a` and then `b` is adding `a + b`. */
  lemma {:induction false} AddAllAppend(dirs: seq<string>, a: seq<string>, b: seq<string>)
    ensures AddAll(dirs, a + b) == AddAll(AddAll(dirs, a), b)
    decreases |b|
  {
    if b == [] {
      assert a + b == a;
    } else {
      var init := b[..|b| - 1];
      assert (a + b)[..|a + b| - 1] == a + init;
      assert (a + b)[|a + b| - 1] == b[|b| - 1];
      AddAllAppend(dirs, a, init);
    }
  }

  /** Directories that are all new are appended as they are, in order. */
  lemma {:induction false} AddAllDistinct(dirs: seq<string>, ds: seq<string>)
    requires NoDups(dirs + ds)
    ensures AddAll(dirs, ds) == dirs + ds
    decreases |ds|
  {
    if ds != [] {
      var init := ds[..|ds| - 1];
      var d := ds[|ds| - 1];
      assert dirs + ds == (dirs + init) + [d];
      assert NoDups(dirs + init) by {
        assert forall k :: 0 <= k < |dirs + init| ==> (dirs + init)[k] == (dirs + ds)[k];
      }
      AddAllDistinct(dirs, init);
      assert d !in dirs + init by {
        assert (dirs + ds)[|dirs + ds| - 1] == d;
        assert forall k :: 0 <= k < |dirs + init| ==> (dirs + init)[k] == (dirs + ds)[k];
      }
    }
  }

  /** `process.env.HOME || process.env.USERPROFILE || ''`. */
  function HomeDir(home: Option<string>, userProfile: Option<string>): string {
    if Truthy(home) then home.value
    else if Truthy(userProfile) then userProfile.value
    else ""
  }

  /** The directories the constructor adds, in the order it adds them: the
      built-in directory, `.use-template/templates` under the home
      directory, `templates` under the working directory, then every
      segment of a non-empty `USE_TEMPLATE_DIR`, split at the platform's
      path delimiter, empty segments included. */
  function SeedDirs(builtIn: string, home: Option<string>, userProfile: Option<string>,
                    cwd: string, env: Option<string>, delimiter: char): seq<string> {
    [builtIn,
     JoinPath(HomeDir(home, userProfile), ".use-template/templates"),
     JoinPath(cwd, "templates")]
    + (if Truthy(env) then Split(env.value, [delimiter]) else [])
  }

  /** The seeded list starts with the built-in directory and holds each
      seeded directory once. */
  lemma SeedOrder(builtIn: string, home: Option<string>, userProfile: Option<string>,
                  cwd: string, env: Option<string>, delimiter: char)
    ensures var seeds := SeedDirs(builtIn, home, userProfile, cwd, env, delimiter);
      var dirs := AddAll([], seeds);
      && |dirs| >= 1 && dirs[0] == builtIn
      && NoDups(dirs)
      && forall d :: d in dirs <==> d in seeds
  {
    var seeds := SeedDirs(builtIn, home, userProfile, cwd, env, delimiter);
    assert [builtIn] + seeds[1..] == seeds;
    AddAllAppend([], [builtIn], seeds[1..]);
    assert AddAll([], [builtIn]) == [builtIn] by {
      assert [builtIn][..0] == [];
    }
    AddAllPrefix([builtIn], seeds[1..]);
    AddAllNoDups([], seeds);
    AddAllElems([], seeds);
  }

  // ---------------------------------------------------------------------
  // Listing templates

  /** An entry of `fs.readdir(dir, { withFileTypes: true })`. */
  datatype Dirent = Dirent(name: string, isDirectory: bool)

  /** What stands at a path: a directory with its entries in `readdir`
      order, or a regular file with its text. */
  datatype Node = Directory(entries: seq<Dirent>) | RegularFile(text: string)

  /** The disk, by path. */
  type Disk = map<string, Node>

  /** The Template interface; `source` is the search directory relative to
      the working directory. */
  datatype Template = Template(name: string, path: string, description: string, source: string)

  /** `packageJson.description || ''`. */
  function Describe(m: Manifest): string {
    if Truthy(m.description) then m.description.value else ""
  }

  /** The description of the template at `templatePath`: empty without a
      `package.json`, and `readJson` throws on a directory or on text that
      is not a manifest. */
  function ReadDescription(disk: Disk, templatePath: string, codec: JsonCodec): Result<string, Error> {
    var p := JoinPath(templatePath, "package.json");
    if p !in disk then Success("")
    else match disk[p]
      case Directory(_) => Failure(IsADirectory(p))
      case RegularFile(text) =>
        match codec.parse(text)
        case None => Failure(InvalidJson(p))
        case Some(m) => Success(Describe(m))
  }

  /** What one entry of a search directory contributes: a template for a
      directory entry, nothing for any other entry. */
  function EntryTemplates(disk: Disk, dir: string, e: Dirent, codec: JsonCodec,
                          relative: string -> string): Result<seq<Template>, Error> {
    if !e.isDirectory then Success([])
    else
      var templatePath := JoinPath(dir, e.name);
      match ReadDescription(disk, templatePath, codec)
      case Failure(err) => Failure(err)
      case Success(d) => Success([Template(e.name, templatePath, d, relative(dir))])
  }

  /** The inner loop of getTemplates over the entries of `dir`, in entry
      order; the first entry that throws ends the call. */
  function EntriesTemplates(disk: Disk, dir: string, es: seq<Dirent>, codec: JsonCodec,
                            relative: string -> string): Result<seq<Template>, Error>
    decreases |es|
  {
    if es == [] then Success([])
    else match EntriesTemplates(disk, dir, es[..|es| - 1], codec, relative)
      case Failure(err) => Failure(err)
      case Success(ts) =>
        match EntryTemplates(disk, dir, es[|es| - 1], codec, relative)
        case Failure(err) => Failure(err)
        case Success(t) => Success(ts + t)
  }

  /** One search directory: skipped when it does not exist, and `readdir`
      throws when it is not a directory. */
  function DirTemplates(disk: Disk, dir: string, codec: JsonCodec,
                        relative: string -> string): Result<seq<Template>, Error> {
    if dir !in disk then Success([])
    else match disk[dir]
      case RegularFile(_) => Failure(NotADirectory(dir))
      case Directory(es) => EntriesTemplates(disk, dir, es, codec, relative)
  }

  /** getTemplates over the search directories `dirs`, in order. */
  function ListTemplates(disk: Disk, dirs: seq<string>, codec: JsonCodec,
                         relative: string -> string): Result<seq<Template>, Error>
    decreases |dirs|
  {
    if dirs == [] then Success([])
    else Then(ListTemplates(disk, dirs[..|dirs| - 1], codec, relative),
              DirTemplates(disk, dirs[|dirs| - 1], codec, relative))
  }

  /** The templates of one step after those of the steps before it; the
      first error wins and the later step is then not looked at. */
  function Then(x: Result<seq<Template>, Error>, y: Result<seq<Template>, Error>): Result<seq<Template>, Error> {
    match x
    case Failure(_) => x
    case Success(ts) =>
      match y
      case Failure(_) => y
      case Success(t) => Success(ts + t)
  }

  lemma ThenAssoc(x: Result<seq<Template>, Error>, y: Result<seq<Template>, Error>, z: Result<seq<Template>, Error>)
    ensures Then(Then(x, y), z) == Then(x, Then(y, z))
  {
    if x.Success? && y.Success? && z.Success? {
      assert x.value + y.value + z.value == x.value + (y.value + z.value);
    }
  }

  /** Once an entry throws, the entries after it are not looked at. */
  lemma {:induction false} EntriesFailureStays(disk: Disk, dir: string, es: seq<Dirent>, j: nat,
                                               codec: JsonCodec, relative: string -> string)
    requires j <= |es|
    requires EntriesTemplates(disk, dir, es[..j], codec, relative).Failure?
    ensures EntriesTemplates(disk, dir, es, codec, relative)
            == EntriesTemplates(disk, dir, es[..j], codec, relative)
    decreases |es| - j
  {
    if j < |es| {
      assert es[..j + 1][..j] == es[..j];
      EntriesFailureStays(disk, dir, es, j + 1, codec, relative);
    } else {
      assert es[..j] == es;
    }
  }

  /** One more search directory. */
  lemma ListStep(disk: Disk, dirs: seq<string>, i: nat, codec: JsonCodec, relative: string -> string)
    requires i < |dirs| && ListTemplates(disk, dirs[..i], codec, relative).Success?
    ensures var ts := ListTemplates(disk, dirs[..i], codec, relative).value;
      ListTemplates(disk, dirs[..i + 1], codec, relative)
      == match DirTemplates(disk, dirs[i], codec, relative)
         case Failure(err) => Failure(err)
         case Success(t) => Success(ts + t)
  {
    assert dirs[..i + 1][..i] == dirs[..i];
  }

  /** One more entry. */
  lemma EntriesStep(disk: Disk, dir: string, es: seq<Dirent>, j: nat, codec: JsonCodec, relative: string -> string)
    requires j < |es| && EntriesTemplates(disk, dir, es[..j], codec, relative).Success?
    ensures var ts := EntriesTemplates(disk, dir, es[..j], codec, relative).value;
      EntriesTemplates(disk, dir, es[..j + 1], codec, relative)
      == match EntryTemplates(disk, dir, es[j], codec, relative)
         case Failure(err) => Failure(err)
         case Success(t) => Success(ts + t)
  {
    assert es[..j + 1][..j] == es[..j];
  }

  /** Once a search directory throws, the later ones are not looked at. */
  lemma ListFailureStays(disk: Disk, dirs: seq<string>, i: nat, codec: JsonCodec, relative: string -> string)
    requires i <= |dirs|
    requires ListTemplates(disk, dirs[..i], codec, relative).Failure?
    ensures ListTemplates(disk, dirs, codec, relative) == ListTemplates(disk, dirs[..i], codec, relative)
  {
    ListAppend(disk, dirs[..i], dirs[i..], codec, relative);
    assert dirs[..i] + dirs[i..] == dirs;
  }

  /** The directory entries among `es`, in entry order. */
  function DirEntries(es: seq<Dirent>): (ds: seq<Dirent>)
    ensures |ds| <= |es|
    decreases |es|
  {
    if es == [] then []
    else DirEntries(es[..|es| - 1]) + (if es[|es| - 1].isDirectory then [es[|es| - 1]] else [])
  }

  /** `t` is the template getTemplates makes for the entry `e` of `dir`: the
      entry's name, the directory joined with that name, the manifest's
      description (or `''`) and the directory's relative path. */
  predicate TemplateOf(disk: Disk, dir: string, e: Dirent, t: Template, codec: JsonCodec,
                       relative: string -> string) {
    && t.name == e.name
    && t.path == JoinPath(dir, e.name)
    && ReadDescription(disk, t.path, codec) == Success(t.description)
    && t.source == relative(dir)
  }

  /** The inner loop makes the k-th template from the k-th directory entry:
      one template per directory entry, in entry order, none for a plain
      file. */
  lemma {:induction false} EntriesShape(disk: Disk, dir: string, es: seq<Dirent>,
                                        codec: JsonCodec, relative: string -> string)
    requires EntriesTemplates(disk, dir, es, codec, relative).Success?
    ensures var ts := EntriesTemplates(disk, dir, es, codec, relative).value;
      var ds := DirEntries(es);
      && |ts| == |ds|
      && forall k :: 0 <= k < |ts| ==> TemplateOf(disk, dir, ds[k], ts[k], codec, relative)
    decreases |es|
  {
    if es != [] {
      var init := es[..|es| - 1];
      var e := es[|es| - 1];
      EntriesShape(disk, dir, init, codec, relative);
      var ts := EntriesTemplates(disk, dir, init, codec, relative).value;
      var t := EntryTemplates(disk, dir, e, codec, relative).value;
      var ds := DirEntries(init);
      var d1 := if e.isDirectory then [e] else [];
      assert EntriesTemplates(disk, dir, es, codec, relative).value == ts + t;
      assert DirEntries(es) == ds + d1;
      assert |t| == |d1|;
      if e.isDirectory {
        assert TemplateOf(disk, dir, e, t[0], codec, relative);
      }
      forall k | 0 <= k < |ts + t|
        ensures TemplateOf(disk, dir, (ds + d1)[k], (ts + t)[k], codec, relative)
      {
        if k < |ts| {
          assert (ts + t)[k] == ts[k] && (ds + d1)[k] == ds[k];
        } else {
          assert (ts + t)[k] == t[0] && (ds + d1)[k] == e;
        }
      }
    }
  }

  /** The entries getTemplates turns into templates, each with its search
      directory: the search directories in order, and within an existing
      directory its directory entries in entry order. */
  function Visits(disk: Disk, dirs: seq<string>): seq<(string, Dirent)>
    decreases |dirs|
  {
    if dirs == [] then []
    else Visits(disk, dirs[..|dirs| - 1]) + DirVisits(disk, dirs[|dirs| - 1])
  }

  /** The directory entries of one search directory, paired with it. */
  function DirVisits(disk: Disk, dir: string): seq<(string, Dirent)> {
    if dir in disk && disk[dir].Directory? then
      var ds := DirEntries(disk[dir].entries);
      seq(|ds|, i requires 0 <= i < |ds| => (dir, ds[i]))
    else []
  }

  /** One search directory makes its k-th template from its k-th directory
      entry. */
  lemma DirShape(disk: Disk, dir: string, codec: JsonCodec, relative: string -> string)
    requires DirTemplates(disk, dir, codec, relative).Success?
    ensures var ts := DirTemplates(disk, dir, codec, relative).value;
      var vs := DirVisits(disk, dir);
      && |ts| == |vs|
      && forall k :: 0 <= k < |ts| ==> TemplateOf(disk, vs[k].0, vs[k].1, ts[k], codec, relative)
  {
    if dir in disk && disk[dir].Directory? {
      EntriesShape(disk, dir, disk[dir].entries, codec, relative);
    }
  }

  /** Templates made from their visits, followed by more of the same. */
  lemma VisitsAppend(disk: Disk, vs: seq<(string, Dirent)>, ws: seq<(string, Dirent)>,
                     ts: seq<Template>, us: seq<Template>, codec: JsonCodec, relative: string -> string)
    requires |ts| == |vs| && forall k :: 0 <= k < |ts| ==> TemplateOf(disk, vs[k].0, vs[k].1, ts[k], codec, relative)
    requires |us| == |ws| && forall k :: 0 <= k < |us| ==> TemplateOf(disk, ws[k].0, ws[k].1, us[k], codec, relative)
    ensures var xs := ts + us; var ys := vs + ws;
      && |xs| == |ys|
      && forall k :: 0 <= k < |xs| ==> TemplateOf(disk, ys[k].0, ys[k].1, xs[k], codec, relative)
  {
    var xs := ts + us;
    var ys := vs + ws;
    forall k | 0 <= k < |xs|
      ensures TemplateOf(disk, ys[k].0, ys[k].1, xs[k], codec, relative)
    {
      if k >= |ts| {
        assert xs[k] == us[k - |ts|] && ys[k] == ws[k - |ts|];
      }
    }
  }

  /** A finished getTemplates makes its k-th template from the k-th visited
      entry: one template per directory entry of every existing search
      directory, in search-directory order and then entry order, with no
      deduplication across directories. */
  lemma {:induction false} ListShape(disk: Disk, dirs: seq<string>, codec: JsonCodec, relative: string -> string)
    requires ListTemplates(disk, dirs, codec, relative).Success?
    ensures var ts := ListTemplates(disk, dirs, codec, relative).value;
      var vs := Visits(disk, dirs);
      && |ts| == |vs|
      && forall k :: 0 <= k < |ts| ==> TemplateOf(disk, vs[k].0, vs[k].1, ts[k], codec, relative)
    decreases |dirs|
  {
    if dirs != [] {
      var init := dirs[..|dirs| - 1];
      var d := dirs[|dirs| - 1];
      ListShape(disk, init, codec, relative);
      var ts := ListTemplates(disk, init, codec, relative).value;
      var t := DirTemplates(disk, d, codec, relative).value;
      var vs: seq<(string, Dirent)> := Visits(disk, init);
      var v1: seq<(string, Dirent)> := DirVisits(disk, d);
      assert ListTemplates(disk, dirs, codec, relative).value == ts + t;
      assert Visits(disk, dirs) == vs + v1;
      DirShape(disk, d, codec, relative);
      VisitsAppend(disk, vs, v1, ts, t, codec, relative);
    }
  }

  /** Output order is search-directory order: the templates of `a + b` are
      those of `a` followed by those of `b`, and an error in `a` is the
      result. */
  lemma {:induction false} ListAppend(disk: Disk, a: seq<string>, b: seq<string>,
                                      codec: JsonCodec, relative: string -> string)
    ensures var ra := ListTemplates(disk, a, codec, relative);
      var rb := ListTemplates(disk, b, codec, relative);
      var r := ListTemplates(disk, a + b, codec, relative);
      && (ra.Failure? ==> r == ra)
      && (ra.Success? && rb.Failure? ==> r == rb)
      && (ra.Success? && rb.Success? ==> r == Success(ra.value + rb.value))
  {
    ListAppendThen(disk, a, b, codec, relative);
  }

  lemma {:induction false} ListAppendThen(disk: Disk, a: seq<string>, b: seq<string>,
                                          codec: JsonCodec, relative: string -> string)
    ensures ListTemplates(disk, a + b, codec, relative)
            == Then(ListTemplates(disk, a, codec, relative), ListTemplates(disk, b, codec, relative))
    decreases |b|
  {
    var ra := ListTemplates(disk, a, codec, relative);
    if b == [] {
      assert a + b == a;
      if ra.Success? {
        assert ra.value + [] == ra.value;
      }
    } else {
      var init := b[..|b| - 1];
      var d := b[|b| - 1];
      assert (a + b)[..|a + b| - 1] == a + init;
      assert (a + b)[|a + b| - 1] == d;
      ListAppendThen(disk, a, init, codec, relative);
      ThenAssoc(ra, ListTemplates(disk, init, codec, relative), DirTemplates(disk, d, codec, relative));
    }
  }

  /** The inner loop of getTemplates: the entries of the search directory
      `dir`, in order, each directory entry read as a template. */
  method ScanEntries(disk: Disk, dir: string, entries: seq<Dirent>, codec: JsonCodec,
                     relative: string -> string) returns (r: Result<seq<Template>, Error>)
    ensures r == EntriesTemplates(disk, dir, entries, codec, relative)
  {
    var templates: seq<Template> := [];
    var j := 0;
    while j < |entries|
      invariant 0 <= j <= |entries|
      invariant EntriesTemplates(disk, dir, entries[..j], codec, relative).Success?
      invariant templates == EntriesTemplates(disk, dir, entries[..j], codec, relative).value
    {
      var entry := entries[j];
      EntriesStep(disk, dir, entries, j, codec, relative);
      ghost var prev := EntriesTemplates(disk, dir, entries[..j], codec, relative).value;
      if entry.isDirectory {
        var templatePath := JoinPath(dir, entry.name);
        var packageJsonPath := JoinPath(templatePath, "package.json");
        var description := "";
        if packageJsonPath in disk {
          if disk[packageJsonPath].Directory? {
            r := Failure(IsADirectory(packageJsonPath));
            EntriesFailureStays(disk, dir, entries, j + 1, codec, relative);
            return;
          }
          var parsed := codec.parse(disk[packageJsonPath].text);
          if parsed.None? {
            r := Failure(InvalidJson(packageJsonPath));
            EntriesFailureStays(disk, dir, entries, j + 1, codec, relative);
            return;
          }
          description := Describe(parsed.value);
        }
        assert ReadDescription(disk, templatePath, codec) == Success(description);
        var template := Template(entry.name, templatePath, description, relative(dir));
        templates := templates + [template];
      } else {
        assert templates == prev + [];
      }
      j := j + 1;
    }
    assert entries[..j] == entries;
    return Success(templates);
  }

  // ---------------------------------------------------------------------
  // The registry object

  class TemplateManager {
    var templateDirs: seq<string>

    ghost predicate Valid()
      reads this
    {
      NoDups(templateDirs)
    }

    /** The constructor: the directories of SeedDirs, each added in turn. */
    constructor (builtIn: string, home: Option<string>, userProfile: Option<string>,
                 cwd: string, env: Option<string>, delimiter: char)
      ensures Valid()
      ensures templateDirs == AddAll([], SeedDirs(builtIn, home, userProfile, cwd, env, delimiter))
    {
      templateDirs := [];
      new;
      var userTemplatesDir := JoinPath(HomeDir(home, userProfile), ".use-template/templates");
      var localTemplatesDir := JoinPath(cwd, "templates");
      ghost var first := [builtIn, userTemplatesDir, localTemplatesDir];
      assert first[..0] == [] && first[..3] == first;
      AddAllStep([], first, 0);
      AddTemplateDir(builtIn);
      AddAllStep([], first, 1);
      AddTemplateDir(userTemplatesDir);
      AddAllStep([], first, 2);
      AddTemplateDir(localTemplatesDir);
      var segments: seq<string> := [];
      var envTemplatesDir := env;
      if envTemplatesDir.Some? && envTemplatesDir.value != "" {
        segments := Split(envTemplatesDir.value, [delimiter]);
        AddTemplateDirs(segments);
      }
      AddAllAppend([], first, segments);
      assert SeedDirs(builtIn, home, userProfile, cwd, env, delimiter) == first + segments;
    }

    /** The `forEach` of the constructor over the `USE_TEMPLATE_DIR`
      segments. */
    method AddTemplateDirs(ds: seq<string>)
      requires Valid()
      modifies this
      ensures Valid()
      ensures templateDirs == AddAll(old(templateDirs), ds)
    {
      ghost var start := templateDirs;
      var i := 0;
      while i < |ds|
        invariant 0 <= i <= |ds|
        invariant Valid() && templateDirs == AddAll(start, ds[..i])
      {
        AddAllStep(start, ds, i);
        AddTemplateDir(ds[i]);
        i := i + 1;
      }
      assert ds[..i] == ds;
    }

    /** addTemplateDir(dir): appended unless already present. */
    method AddTemplateDir(dir: string)
      requires Valid()
      modifies this
      ensures Valid()
      ensures templateDirs == AddDir(old(templateDirs), dir)
    {
      if dir !in templateDirs {
        templateDirs := templateDirs + [dir];
      }
    }

    /** getTemplates() over `disk`; `relative` stands for
      `path.relative(process.cwd(), ·)`. */
    method GetTemplates(disk: Disk, codec: JsonCodec, relative: string -> string)
      returns (r: Result<seq<Template>, Error>)
      ensures r == ListTemplates(disk, templateDirs, codec, relative)
    {
      var templates: seq<Template> := [];
      var i := 0;
      while i < |templateDirs|
        invariant 0 <= i <= |templateDirs|
        invariant ListTemplates(disk, templateDirs[..i], codec, relative) == Success(templates)
      {
        var dir := templateDirs[i];
        ListStep(disk, templateDirs, i, codec, relative);
        if dir !in disk {
          assert templates + [] == templates;
          i := i + 1;
          continue;
        }
        if disk[dir].RegularFile? {
          r := Failure(NotADirectory(dir));
          ListFailureStays(disk, templateDirs, i + 1, codec, relative);
          return;
        }
        var found := ScanEntries(disk, dir, disk[dir].entries, codec, relative);
        if found.Failure? {
          r := Failure(found.error);
          ListFailureStays(disk, templateDirs, i + 1, codec, relative);
          return;
        }
        templates := templates + found.value;
        i := i + 1;
      }
      assert templateDirs[..i] == templateDirs;
      return Success(templates);
    }

    /** getTemplateDirs(): the current search directories, each once. */
    function GetTemplateDirs(): (r: seq<string>)
      requires Valid()
      reads this
      ensures NoDups(r)
    {
      templateDirs
    }
  }
}
