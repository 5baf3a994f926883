# use-template, modelled in Dafny

`use-template` is a project scaffolder. It copies a template directory into a
target directory, leaving out what a fixed skip list and the template's
`.gitignore` exclude, and then renames the project. The rename gives
`package.json` the new name, replaces the old name in `README.md`, and can
optionally rewrite every text file that mentions the old name. The generated
CLI keeps a registry of template search directories and lists the templates
found in them. Its `create` command validates the project name and composes
the project directory.

This project models that core and proves properties of it:

- `wrappers.dfy` (`Wrappers`): `Option`, `Result` and `Outcome`, plus JavaScript truthiness of an optional string.
- `strings.dfy` (`Strings`): the JavaScript string operations the code uses.
  - `trim`, with the exact ECMAScript whitespace set.
  - `startsWith`, `endsWith`, `includes` and `split`.
  - `replace` with a global literal pattern (`ReplaceAll`), proved equal to split-then-join.
- `paths.dfy` (`Paths`): `path.join` and `path.extname`.
- `fs.dfy` (`Fs`): the filesystem errors and the manifest, with JSON left as an abstract codec.
- `gitignore.dfy` (`GitIgnore`): `convertGitIgnoreToGlob` and how the ignore list is built.
- `scaffold.dfy` (`Scaffold`): `createFromTemplate`, `updateProjectFiles` and `replaceProjectName`.
  - Pure specification functions: `CopyEntries`, `RenameManifest`, `UpdateSpec` and `CreateSpec`.
  - `class TargetDir`: the target directory, changed in place. Its methods copy and rewrite step by step, and each is proved to match its specification function, including the order in which files are written. The exception is the replace-all pass, whose order is left open (see "## Left out").
- `templates.dfy` (`Templates`): `class TemplateManager`, a duplicate-free sequence of search directories. `GetTemplates` is proved against `ListTemplates`.
- `cli.dfy` (`Cli`): the `validate` closure of the name prompt, and how the `create` action composes the target path and the `createFromTemplate` options.

The filesystem model:

- The target and template trees are a `Tree`: file texts by relative path, plus a set of directory paths.
- A ghost write log records which files were written, in order.
- The template registry reads a `Disk`, which maps a path to a directory (its `readdir` entries, in order) or to a file.
- The glob library, `path.resolve`, `path.relative` and the environment are parameters.

## Behaviour taken from the code where its documentation says otherwise

- `skipGitIgnore` defaults to `true`, and `true` means the `.gitignore` IS read (`Scaffold.UseGitIgnore`).
- `createFromTemplate` never forwards `isReplaceAll` to `updateProjectFiles`. So through `createFromTemplate`, and through the CLI's "replace all" question, the replace-all pass never runs (`Scaffold.CreateIgnoresReplaceAll`, `Cli.CreateRequestEffect`). The model reproduces this.
- Replacing the old name in `README.md` does not always leave the file free of it. A replacement can create a new occurrence: `"abb"` with `"ab"` replaced by `"a"` becomes `"ab"` (`Strings.ReplaceCanLeaveName`). The file is free of the old name when the text contained no occurrence to begin with (`Strings.ReplaceAllAbsent`).
- The replace-all pass leaves out only the root-level `package.json` and `README.md`. Nested copies of them are rewritten like any other file (`Scaffold.NestedManifestListed`).

## Model

| member | source | states |
|---|---|---|
| Strings.Trim | src/index.ts:78 | `trim` gives the empty string exactly when the input is all ECMAScript whitespace; otherwise the result starts and ends with a non-space character |
| Strings.TrimShape | src/index.ts:78 | `trim` returns a contiguous slice of its input, with nothing but whitespace before it and after it |
| Strings.TrimStart | src/index.ts:78 | the result is no longer than the input and starts with a non-space character, if any |
| Strings.TrimEnd | src/index.ts:78 | the result is no longer than the input and ends with a non-space character, if any |
| Strings.TrimStartShape | src/index.ts:78 | what `trimStart` drops is a prefix made only of whitespace, and the rest is kept as it is |
| Strings.TrimEndShape | src/index.ts:78 | what `trimEnd` drops is a suffix made only of whitespace, and the rest is kept as it is |
| Strings.TrimStartAfterSpaces | src/index.ts:78 | leading whitespace is dropped up to the first non-space character |
| Strings.TrimIndented | src/index.ts:78 | indentation before a text with non-space ends is removed by `trim` |
| Strings.Contains | src/index.ts:68 | `includes` holds exactly when the name occurs at some index |
| Strings.Split | src/index.ts:113 | `split` gives at least one piece, and the first piece is a prefix of the input |
| Strings.ReplaceAllIsSplitJoin | src/index.ts:21 | global literal replacement equals splitting at the old name and joining with the new name |
| Strings.ReplaceAll | src/index.ts:21 | `replace(new RegExp(o, 'g'), n)` for a literal `o`, matched left to right without overlap; its meaning is stated by ReplaceAllIsSplitJoin, ReplaceAllSelf, ReplaceAllAbsent and ReplaceCanLeaveName |
| Strings.ReplaceAllSelf | src/index.ts:21 | replacing a name by itself leaves the text unchanged |
| Strings.JoinSplit | src/index.ts:113 | joining the pieces of a split with the separator gives back the input |
| Strings.SplitPartsFree | src/index.ts:113 | no piece of a split contains the separator |
| Strings.ReplaceAllAbsent | src/index.ts:21 | a text that does not contain the old name is left as it is |
| Strings.ReplaceCanLeaveName | src/index.ts:21 | a replacement can create a new occurrence of the old name |
| Paths.JoinPath | src/index.ts:28-29 | `path.join` is the two segments concatenated; a '/' is put between them exactly when both are non-empty and the first does not already end in '/'; so it starts with the first and ends with the second |
| Paths.Basename | src/index.ts:63 | the last segment is a suffix with no '/', preceded by '/' whenever it is shorter than the path |
| Paths.DotSuffix | src/index.ts:63 | empty exactly when there is no '.'; otherwise it starts at the last '.' and is a suffix |
| Paths.Extname | src/index.ts:62-63 | `path.extname` is empty, or is a suffix without '/' that starts with the only '.' it contains; it is non-empty exactly when the last segment has a '.', is not `..`, and is not a dot file such as `.gitignore` |
| Paths.BasenameNoSlash | src/index.ts:63 | a path without '/' is its own last segment |
| Paths.DotSuffixAfterLastDot | src/index.ts:63 | the dot suffix is the text from the last '.' on |
| Paths.ExtnameOfName | src/index.ts:62-63 | the extension of a file name with a non-empty stem is its text from the last '.', case kept |
| Paths.ExtnameIsCaseKept | src/index.ts:59-66 | the extension keeps its case, so `README.MD` gives `.MD`, which is not in the allow-list |
| GitIgnore.ConvertGitIgnoreToGlob | src/index.ts:76-92 | every converted line contains `*`, whatever the input |
| GitIgnore.Unanchored | src/index.ts:78-83 | the line trimmed and stripped of at most one leading '/'; the conversion is stated in terms of it by ConvertCases, and UnanchoredPlain and ConvertAnchored pin it on plain and anchored names |
| GitIgnore.ConvertCases | src/index.ts:78-88 | a directory line gets `**` appended and no prefix; a line without `*` or a trailing '/' gets the `**/` prefix; a line with `*` and no trailing '/' is the trimmed text minus at most one leading '/' |
| GitIgnore.UnanchoredPlain | src/index.ts:78-83 | a line without surrounding whitespace or a leading '/' is unchanged by trimming and unanchoring |
| GitIgnore.ConvertDirectoryLine | src/index.ts:84-86 | `"dist/"` becomes `"dist/**"` |
| GitIgnore.ConvertAnchored | src/index.ts:78-88 | a root-anchored name without `*` or trailing '/' loses its '/' and gets the `**/` prefix |
| GitIgnore.ConvertPlain | src/index.ts:78-88 | a name with non-space ends, no leading or trailing '/' and no `*` gets the `**/` prefix |
| GitIgnore.ConvertAnchoredName | src/index.ts:81-88 | `"/build"` becomes `"**/build"` |
| GitIgnore.ConvertWildcardLine | src/index.ts:87-88 | `"*.log"` is unchanged |
| GitIgnore.ConvertEmptyLine | src/index.ts:84-88 | the empty line becomes `"**/"` |
| GitIgnore.TrimKeeps | src/index.ts:78 | a line that starts and ends with non-space characters is unchanged by `trim` |
| GitIgnore.Keep | src/index.ts:114 | the filter: a line stays when its trim is not empty and its untrimmed first character is not `#`; KeptLinesMembers, KeepIndented, DropComment and DropBlank state what it keeps |
| GitIgnore.KeepIndented | src/index.ts:111-115 | an indented line is kept, even when its text starts with `#`, and converts as its trimmed text |
| GitIgnore.KeepIndentedHash | src/index.ts:111-115 | `"  # x"` is kept and becomes `"**/# x"` |
| GitIgnore.DropComment | src/index.ts:114 | `"# comment"` is dropped |
| GitIgnore.DropBlank | src/index.ts:114 | a whitespace-only line is dropped |
| GitIgnore.KeptLines | src/index.ts:114 | the filter never adds lines |
| GitIgnore.KeptLinesMembers | src/index.ts:114 | the filter keeps exactly the lines with a non-blank trim and no leading `#` |
| GitIgnore.KeptLinesAppend | src/index.ts:113-114 | filtering preserves file order: the filter distributes over concatenation |
| GitIgnore.ConvertAll | src/index.ts:115 | each kept line is converted in place, and the count is preserved |
| GitIgnore.DefaultsHaveWildcard | src/index.ts:17 | each default skip pattern contains `*` |
| GitIgnore.GitIgnoreGlobs | src/index.ts:111-115 | the `.gitignore` text split at `'\n'`, filtered by Keep and converted line by line, in file order; IgnorePatterns and CreateGlobPatterns state it |
| GitIgnore.IgnorePatterns | src/index.ts:107-118 | the three defaults come first, in order; they are the whole list when the `.gitignore` is not read; otherwise the converted kept lines follow in file order; every pattern contains `*` |
| Scaffold.CopyEntry | src/index.ts:135-142 | one pass of the copy loop: a template directory is made, a template file is copied, a path the template lacks throws, and a clash with the target throws; the loop's properties are the CopyEntries lemmas below |
| Scaffold.CopyEntries | src/index.ts:134-143 | the copy loop, stopping at the first entry that throws; CopyEntriesPasses, CopyEntriesTree, CopyEntriesLog, CopyEntriesOrigin and CopyEntriesWellFormed state its result |
| Scaffold.CopyEntriesPasses | src/index.ts:134-143 | the copy loop finishes exactly when every listed entry is in the template and does not clash with the target |
| Scaffold.CopyEntriesTree | src/index.ts:134-143 | a finished copy leaves the target with every listed template file and directory laid over it |
| Scaffold.OverlayDirStep | src/index.ts:138-139 | making the first entry's directory and then laying over the rest gives the overlay of the whole listing |
| Scaffold.OverlayFileStep | src/index.ts:140-141 | copying the first entry's file and then laying over the rest gives the overlay of the whole listing |
| Scaffold.CopyEntriesLog | src/index.ts:134-143 | a finished copy writes exactly the listed template files, in listing order |
| Scaffold.CopyEntriesOrigin | src/index.ts:134-143 | every file after the copy holds either its old text or the template's text |
| Scaffold.CopyEntriesWellFormed | src/index.ts:134-143 | the copy never makes a path both a file and a directory |
| Scaffold.Skipped | src/index.ts:50-55 | the replace-all glob's ignore list: the root-level `node_modules`, `dist` and `.git` and the root-level `package.json` and `README.md`; NestedManifestListed shows nested copies are not in it |
| Scaffold.Rewrites | src/index.ts:61-72 | the pass rewrites a listed file whose extension is allow-listed and whose text contains the old name; UpdateReplaceAll and TargetDir.ReplaceIfListed are stated with it |
| Scaffold.RewriteAll | src/index.ts:50-72 | the files after the pass, every selected file replaced; PartialStart, PartialStep and PartialEnd tie it to the loop, and TargetDir.ReplaceEverywhere is proved against it |
| Scaffold.ReadText | src/index.ts:20 | `readFile` gives a file's text, and throws on a directory or a missing path; TargetDir.ReplaceProjectName states its throws with it, and RenameManifest and ReadGitIgnore read through it |
| Scaffold.RenameManifest | src/index.ts:31-42 | the manifest stage of updateProjectFiles; UpdateWithoutManifest and UpdateRenames state its effect |
| Scaffold.PassRuns | src/index.ts:44-46 | the replace-all pass runs only when it is asked for and the manifest stage finished after reading a manifest; UpdateTouchesOnlyManifestAndReadme and UpdateReplaceAll state what happens on each side |
| Scaffold.OldName | src/index.ts:33 | the old name is the `name` of the manifest read before the write; UpdateRenames states that `README.md` has it replaced |
| Scaffold.UpdateSpec | src/index.ts:25-74 | updateProjectFiles as a function of the tree; UpdateRenames, UpdateTouchesOnlyManifestAndReadme and UpdateReplaceAll state its effect, and TargetDir.UpdateProjectFiles is proved against it |
| Scaffold.NestedManifestListed | src/index.ts:50-55 | a nested `package.json` or `README.md` is not left out of the replace-all pass |
| Scaffold.PartialStart | src/index.ts:61-72 | before the pass visits any selected file, nothing has changed |
| Scaffold.PartialStep | src/index.ts:61-72 | visiting one more file rewrites at most that file, and only when the pass selects it |
| Scaffold.PartialEnd | src/index.ts:61-72 | once every selected file has been visited, the files are the replace-all result |
| Scaffold.UpdateWithoutManifest | src/index.ts:31 | with no `package.json`, nothing is read, written or changed |
| Scaffold.UpdateRenames | src/index.ts:31-42 | the manifest reads back with the new name and its other fields; `README.md` has the old name, read before the write, replaced; the writes are `package.json` then `README.md`; a directory in place of `README.md` throws after the manifest is written |
| Scaffold.UpdateTouchesOnlyManifestAndReadme | src/index.ts:44-46 | without the replace-all pass, directories and every file other than `package.json` and `README.md` are kept |
| Scaffold.UpdateReplaceAll | src/index.ts:50-72 | with the pass, every other file is rewritten exactly when it is not skipped, has an allow-listed extension and contains the old name; the written set is exactly those files |
| Scaffold.UseGitIgnore | src/index.ts:95 | `skipGitIgnore` defaults to true, and true means the `.gitignore` is read; CreateGlobPatterns and Cli.CreateRequestEffect are stated with it |
| Scaffold.ReadGitIgnore | src/index.ts:108-113 | the `.gitignore` text when it is to be read and exists, and a throw when it is a directory; IgnoreList and CreateGlobPatterns state it |
| Scaffold.CreateSpec | src/index.ts:94-149 | createFromTemplate as a function of the trees; the Create lemmas state its effect, and TargetDir.CreateFromTemplate is proved against it |
| Scaffold.CopyRenameSpec | src/index.ts:134-148 | the copy, then the rename step without `isReplaceAll` after a finished copy with a truthy name; TargetDir.CopyAndRename is proved against it |
| Scaffold.CreateWithoutTemplate | src/index.ts:102-104 | a missing template throws before anything is read or written |
| Scaffold.CreateIgnoresReplaceAll | src/index.ts:146-148 | the result of createFromTemplate does not depend on `isReplaceAll` |
| Scaffold.CreateGlobPatterns | src/index.ts:107-118 | the glob gets the default skip list, followed by the converted `.gitignore` lines when the `.gitignore` is read |
| Scaffold.CreateWithoutName | src/index.ts:146-148 | without a truthy project name, createFromTemplate is the copy alone |
| Scaffold.CreateEffect | src/index.ts:134-148 | a finished create leaves the listed directories made and, apart from the root `package.json` and `README.md`, every copied file as the copy left it; the template files are written first, in listing order |
| Scaffold.CreateRenames | src/index.ts:134-148 | after a finished copy of a listed template `package.json` that reads as a manifest, with a truthy name, the target's `package.json` reads back as the template's manifest with the new name; a copied template `README.md` has the template's old name replaced by the new one, the create finishes, and the writes are the copy's followed by `package.json` and `README.md` |
| Scaffold.IgnoreList | src/index.ts:107-118 | the ignore list is assembled as IgnorePatterns states; reading a `.gitignore` that is a directory throws |
| Scaffold.TargetDir.constructor | src/index.ts:99 | the target directory starts as the given tree, well formed, with nothing written |
| Scaffold.TargetDir.EnsureDir | src/index.ts:139 | `ensureDir` adds the directory, or throws where a file stands |
| Scaffold.TargetDir.WriteFile | src/index.ts:141 | a file write replaces the file's text and logs the write, or throws where a directory stands |
| Scaffold.TargetDir.ReplaceProjectName | src/index.ts:19-23 | the file's text becomes its global literal replacement and one write is logged; a missing file or a directory throws with nothing changed |
| Scaffold.TargetDir.ReplaceIfListed | src/index.ts:62-71 | one listed file is rewritten exactly when its extension is allow-listed and its text contains the old name |
| Scaffold.TargetDir.ReplaceEverywhere | src/index.ts:50-72 | the pass leaves the files as RewriteAll does, and writes each selected file exactly once, in some order |
| Scaffold.TargetDir.UpdateProjectFiles | src/index.ts:25-74 | the new tree and the outcome are those of UpdateSpec; the writes are the manifest stage's files in order, followed by each replace-all file exactly once |
| Scaffold.TargetDir.CopyListing | src/index.ts:134-143 | the copy loop leaves the tree, the outcome and the writes of CopyEntries |
| Scaffold.TargetDir.CopyAndRename | src/index.ts:134-148 | the copy and then, after a finished copy with a truthy name, the rename step leave the tree, the outcome and the writes of CopyRenameSpec |
| Scaffold.TargetDir.CreateFromTemplate | src/index.ts:94-149 | the new tree, the outcome and the writes, in order, are those of CreateSpec |
| Templates.AddAll | templates/basic-cli/src/template-manager.ts:15-31 | the list after `addTemplateDir` is called on each directory in turn; the AddAll lemmas state its order, elements and freedom from duplicates |
| Templates.HomeDir | templates/basic-cli/src/template-manager.ts:20 | `HOME`, else `USERPROFILE`, else `''`, with JavaScript truthiness |
| Templates.SeedDirs | templates/basic-cli/src/template-manager.ts:15-31 | the constructor's additions in order: built-in, home, local, then each `USE_TEMPLATE_DIR` segment; SeedOrder states what the seeded list holds |
| Templates.AddDir | templates/basic-cli/src/template-manager.ts:34-38 | after adding, the directory is present and the old list is a prefix; a present directory leaves the list unchanged, and a new one is appended at the end |
| Templates.AddDirNoDups | templates/basic-cli/src/template-manager.ts:34-38 | adding keeps the list duplicate-free |
| Templates.AddAllNoDups | templates/basic-cli/src/template-manager.ts:13-38 | any sequence of additions keeps the list duplicate-free |
| Templates.AddAllElems | templates/basic-cli/src/template-manager.ts:13-38 | after a sequence of additions, the list holds exactly the old directories and the added ones |
| Templates.AddAllPrefix | templates/basic-cli/src/template-manager.ts:34-38 | additions never move or drop a directory already in the list |
| Templates.AddAllAppend | templates/basic-cli/src/template-manager.ts:15-31 | adding `a` and then `b` is the same as adding `a + b` |
| Templates.AddAllDistinct | templates/basic-cli/src/template-manager.ts:34-38 | directories that are all new are appended as they are, in order |
| Templates.SeedOrder | templates/basic-cli/src/template-manager.ts:15-31 | the seeded list starts with the built-in directory, has no duplicates, and holds exactly the seeded directories |
| Templates.Describe | templates/basic-cli/src/template-manager.ts:56 | the manifest's `description` when it is a non-empty string, and `''` otherwise |
| Templates.ReadDescription | templates/basic-cli/src/template-manager.ts:51-57 | `''` without a `package.json`; otherwise its description, and `readJson` throws on a directory or on text that is not a manifest |
| Templates.EntryTemplates | templates/basic-cli/src/template-manager.ts:49-65 | one entry: a directory gives one template, any other entry none; TemplateOf names what the template holds |
| Templates.DirTemplates | templates/basic-cli/src/template-manager.ts:44-48 | one search directory: skipped when missing, `readdir` throws on a file, otherwise the inner loop; DirShape states its result |
| Templates.EntriesTemplates | templates/basic-cli/src/template-manager.ts:48-66 | the inner loop over one directory's entries; EntriesShape and EntriesFailureStays state its result |
| Templates.ListTemplates | templates/basic-cli/src/template-manager.ts:43-67 | the outer loop over the search directories; ListShape, ListAppend and ListFailureStays state its result |
| Templates.EntriesFailureStays | templates/basic-cli/src/template-manager.ts:48-66 | once an entry throws, the later entries are not looked at |
| Templates.ListFailureStays | templates/basic-cli/src/template-manager.ts:43-67 | once a search directory throws, the later ones are not looked at |
| Templates.EntriesShape | templates/basic-cli/src/template-manager.ts:48-64 | the k-th template comes from the k-th directory entry, in entry order, and plain files yield none; each carries the entry name, the directory joined with it, the manifest's description or `''`, and the relative source |
| Templates.ListShape | templates/basic-cli/src/template-manager.ts:43-67 | the k-th template of a finished listing comes from the k-th visited entry: search directories in order, missing ones skipped, and within each its directory entries in order, with no deduplication across directories |
| Templates.DirShape | templates/basic-cli/src/template-manager.ts:44-66 | one search directory yields one template per directory entry, in entry order, and none when it does not exist |
| Templates.ThenAssoc | templates/basic-cli/src/template-manager.ts:43-67 | chaining steps is associative: the first error wins however the steps are grouped |
| Templates.ListAppendThen | templates/basic-cli/src/template-manager.ts:43-67 | the templates of `a + b` are those of `a` chained with those of `b` |
| Templates.ListAppend | templates/basic-cli/src/template-manager.ts:43-67 | templates come in search-directory order: those of `a + b` are those of `a` followed by those of `b`, and the first error wins |
| Templates.ScanEntries | templates/basic-cli/src/template-manager.ts:48-66 | the inner loop's result is EntriesTemplates |
| Templates.TemplateManager.constructor | templates/basic-cli/src/template-manager.ts:15-31 | the seeded list is the additions of built-in, home, local and each `USE_TEMPLATE_DIR` segment, in order, and it is duplicate-free |
| Templates.TemplateManager.AddTemplateDirs | templates/basic-cli/src/template-manager.ts:30 | the `forEach` adds each segment in turn |
| Templates.TemplateManager.AddTemplateDir | templates/basic-cli/src/template-manager.ts:34-38 | `addTemplateDir` performs AddDir on the field and keeps it duplicate-free |
| Templates.TemplateManager.GetTemplates | templates/basic-cli/src/template-manager.ts:40-70 | the nested loops return ListTemplates over the current search directories |
| Templates.TemplateManager.GetTemplateDirs | templates/basic-cli/src/template-manager.ts:72-74 | the returned directories are duplicate-free |
| Cli.Validate | src/cli.ts:80-86 | the verdict is acceptance or one of the two exact messages |
| Cli.MatchesNamePattern | src/cli.ts:82 | `/^[a-z0-9-_]+$/.test`: a non-empty input of lowercase letters, digits, `-` and `_`; ValidateAccepts, ValidateCharset and PatternNotBlank are stated with it |
| Cli.PatternNotBlank | src/cli.ts:81-82 | a name that matches the pattern is never blank |
| Cli.ValidateAccepts | src/cli.ts:80-86 | a name is accepted exactly when the whole untrimmed input matches `^[a-z0-9-_]+$` |
| Cli.ValidateRequired | src/cli.ts:81 | "Project name is required" is given exactly for empty or whitespace-only input, and such input never gets the character-class message |
| Cli.ValidateCharset | src/cli.ts:82-84 | the character-class message is given exactly for non-blank input with a character outside `[a-z0-9-_]` |
| Cli.ValidateLeadingSpace | src/cli.ts:82-84 | `" app"` is rejected with the character-class message |
| Cli.AcceptedNameIsPlain | src/cli.ts:82 | an accepted name is a literal pattern, a `$`-free replacement, and has no '/' |
| Cli.TargetPath | src/cli.ts:103-110 | the project directory ends with the project name and starts with the resolved answer when it is absolute, or else with the answer resolved against the working directory |
| Cli.TargetPathAbsolute | src/cli.ts:104-105 | an absolute answer does not depend on the working directory |
| Cli.TargetPathNamesProject | src/cli.ts:110 | with an accepted name, the last segment of the project directory is the project name |
| Cli.CreateRequest | src/cli.ts:113-119 | the options the `create` action passes; CreateRequestEffect states what they make createFromTemplate do |
| Cli.CreateRequestEffect | src/cli.ts:113-119 | the request carries the template's path and the composed directory; the `.gitignore` is read and the rename runs; the replace-all answer makes no difference to the create |

## Left out

- Glob matching: the `glob` library is a foreign component. The copy's listing is a parameter `glob(template, ignorePatterns)`. The replace-all pass's listing is modelled as every file outside the root-level `node_modules`, `dist` and `.git`, excluding the root-level `package.json` and `README.md`.
- JSON: `readJson` and `writeJson` are an abstract codec (`Fs.JsonCodec`). The 2-space formatting, and any manifest field other than `name` and `description`, stay inside the codec. That the rename keeps those other fields is not proved of every codec. It holds only under the assumption `Fs.RoundTrips` (the written text reads back as what was written), which UpdateRenames and CreateRenames require.
- Templates.Describe: covers only a string `description`, or none. A truthy non-string value, which the source would pass through, is outside the model.
- Regular expressions:
  - `new RegExp(oldName, 'g')` is modelled as literal, global, left-to-right, non-overlapping replacement.
  - The model therefore requires a non-empty old name without pattern characters, and a new name without `$` patterns.
  - Every member that reaches the rename carries these preconditions. Scaffold.TargetDir.ReplaceProjectName, Scaffold.TargetDir.ReplaceIfListed and Scaffold.TargetDir.ReplaceEverywhere ask them of their arguments. Scaffold.TargetDir.UpdateProjectFiles, Scaffold.TargetDir.CreateFromTemplate and Scaffold.TargetDir.CopyAndRename ask for a `$`-free new name.
  - For the old name, which is read from `package.json`, the requirement is `Scaffold.ManifestNameLiteral`: a `package.json` that reads as a manifest has a literal name. It is carried by RenameManifest, UpdateSpec, ScanPaths, CopyRenameSpec and CreateSpec; by UpdateWithoutManifest, UpdateRenames, UpdateTouchesOnlyManifestAndReadme and UpdateReplaceAll; by CreateWithoutTemplate, CreateIgnoresReplaceAll, CreateWithoutName, CreateEffect and CreateRenames; by Cli.CreateRequestEffect; and by Scaffold.TargetDir.UpdateProjectFiles, Scaffold.TargetDir.CreateFromTemplate and Scaffold.TargetDir.CopyAndRename.
  - Scaffold.CreateSpec, Scaffold.CopyRenameSpec, the Create lemmas, Scaffold.TargetDir.CreateFromTemplate and Scaffold.TargetDir.CopyAndRename ask it of the target's `package.json` before the copy as well as of the template's. Only the one the rename reads after the copy matters, but which one that is depends on the listing.
- Scaffold.TargetDir.ReplaceEverywhere: the glob's order of the files is not modelled. The contract fixes the set of files written, each written once, but not their order.
- Paths.JoinPath: no normalisation. `.` and `..` segments and repeated separators are kept, so a target path like `__dirname/../templates` is not resolved. Paths are POSIX paths.
- Strings.JoinSplit, Strings.SplitPartsFree: the split is matched left to right. For a separator that overlaps itself, such as `"aa"`, the contracts do not say which occurrence is cut. Both uses in the source split at a single character.
- Paths.Extname: covers paths without a trailing '/'. Glob output for files has none.
- `path.resolve`, `path.relative(process.cwd(), ·)`, `__dirname`, `process.cwd()`, `process.env` and `path.delimiter` are inputs.
  - The target and template paths are taken as already resolved, so the trees are indexed by relative path.
  - Cli.TargetPath: uses `resolve(join(cwd, answer))` for `path.resolve(cwd, answer)`.
- Directory creation: `fs.copy` and `ensureDir` create missing parent directories. The model does not track parents. A tree is a flat map of files plus a set of directories.
- The filesystem has no symlinks, permissions or binary contents, and file text is a `string`.
- `statSync` on an entry has three outcomes in the model: a template directory, a template file, or missing (which throws).
- The template registry's disk (`Templates.Disk`) is a separate model from the scaffolder's `Tree`. It is needed because `readdir` order matters there.
- Strings are sequences of Dafny characters. UTF-16 surrogate pairs and encodings are not modelled.
- Async/await, `debug` logging and console output are not modelled. Neither is the commander and inquirer prompt flow, including the `list` action and the template choice prompt.
- `scripts/test.ts` and `templates/basic-cli/src/bin.ts` are not part of this model. They are a test driver and an entry point.
