# Template materialisation in `ProjectCommand`

This project is a Dafny model of `ProjectCommand` in `lib/project-command.js`. `ProjectCommand` turns a named template directory into files under a project root. It walks the template depth first and computes each file's destination under the root. When the destination already exists, it asks a six-way question: skip, merge or overwrite, each optionally "for all" remaining conflicts. An "All" answer is remembered in a run context shared by the whole walk. JSON files can be merged key by key, and the merge honours the reserved key `__templateMergeExcludeKeys`.

The modules follow the parts of the source:

- `Common`: the `Option`, `Result` and `Outcome` wrappers. `Error` names every way a call can throw.
- `Paths`: four string operations on paths.
  - `isJSONFileType`.
  - The extension shown in the merge error message.
  - `getDestinationPath`.
  - A `/`-separated `Path.join` and `Path.dirname`.
- `Json`: JSON values and the top-level object (`Document`), plus the cleaning step of `loadJSON` and `mergeJSONStructures`. `MergeStructures` is the loop of the source. It is proved equal to the function `MergeOutcome`, and the lemmas state what that function promises.
- `Menu`: `OVERWRITE_QUESTION`.
- `Files`: the destination filesystem as a map from path to node, and three of the `fs` calls the command makes: read, write or copy, and `mkdir`. The other three are modelled otherwise: `existsSync` as membership in the map (for the root and for a target), and `readdirSync` and `statSync` as the template `Tree`. It also holds the parse-and-clean step of `loadJSON`, which works on text already read.
- `Walker`: the template as a tree of named entries in listing order. `Walk` gives the sequence of callback arguments that `walkFiles` produces.
- `Materialize`: `copyFile`, `mergeFiles` and `initCommand` as functions of a `World`. A `World` holds three things:
  - the destination filesystem;
  - the prompt answers still to come;
  - the run context's memoised action.

  `Run` is the walk's callbacks in sequence, stopping at the first one that throws. The lemmas state the conflict policy and the effect of each action.
- `Command`: the class `ProjectCommand`, with its fields and its methods. The methods are `AwaitUserSelection`, `Write`, `Mkdir`, `MergeFiles`, `CopyFile`, `WalkFiles` (with `VisitEntry`, one iteration of its loop) and `InitCommand`. It also holds the class `RunContext` with its mutable `overwriteAction`, and `NewProjectCommand`, the constructor with its checks. Each method's `ensures` ties its new state to a function:
  - `Write` and `Mkdir` to `Files.WriteFile` and `Files.MkDir`;
  - `AwaitUserSelection` to the front of the answer sequence;
  - `MergeFiles`, `CopyFile`, `VisitEntry`, `WalkFiles` and `InitCommand` to `Materialize.MergeFiles`, `Materialize.CopyFile`, `Materialize.Run` and `Materialize.Init`.

A merge gives the two documents these roles (`lib/project-command.js:102-104` and `59-73`):

- `data1` is the template file, loaded and cleaned.
- `data2` is the existing target, loaded raw.
- Every key of the target is copied over the template's value. The exception is a key that the template also has and that the target's own exclusion list names: that key keeps the template's value.

So in a merge the target wins by default, and the exclusion list protects template values from it. For example, the template `{a:9, b:9, c:9}` merged into the target `{a:1, b:2, __templateMergeExcludeKeys:["b"]}` gives `{a:1, b:9, c:9, __templateMergeExcludeKeys:["b"]}`. `Json.MergeExample` proves that result.

The two write paths treat the reserved key `__templateMergeExcludeKeys` differently:

- Overwriting a `.json` target loads the template with cleaning, so the key is stripped before the write (`lib/project-command.js:147-149`).
- Merging loads the target without cleaning, so the target's exclusion list is copied into the result and written back to disk (`lib/project-command.js:102-106`). `Json.MergeWritesBackExcludeList` states this.

The exclusion value is read as JavaScript reads `data2[key] || []` followed by `indexOf`:

- A falsy value means an empty list.
- An array is searched by strict equality.
- A string is searched for a substring: `"abc"` excludes both `ab` and `b`.
- Any other truthy value has no `indexOf`, so the merge throws at the first key the two documents share.

Inputs the source reads from the outside world are parameters of the model:

- The template directory is a read-only map from path to `Tree`.
- The prompt is a sequence of answers. When the sequence is exhausted, the prompt counts as cancelled. Then `prompts` returns no `action` and `copyFile` throws.
- The existence check for the root is made against the destination map.

## Model

| member | source | states |
|---|---|---|
| Menu.OverwriteQuestion | lib/project-command.js:6-25 | a `select` question named `action` with exactly six choices: Skip, Merge, Overwrite with lower-case actions and `all` false, then the same three in order titled "… All" with `all` true |
| Menu.EveryActionOffered | lib/project-command.js:6-25 | each of `skip`, `merge`, `overwrite` is offered with `all` false and with `all` true |
| Command.CheckArgs | lib/project-command.js:28-43 | construction succeeds iff `config`, `root` and `templatePath` are non-empty and the root exists; otherwise the first failing check, in source order, names the error |
| Command.NewProjectCommand | lib/project-command.js:28-43 | yields an object iff the checks pass, holding the given root, template path and filesystem; otherwise the check's error |
| Command.ProjectCommand.constructor | lib/project-command.js:42 | the object takes its arguments' values |
| Paths.IsJSONFileType | lib/project-command.js:45-47 | `/\.json$/i.test(filePath)`; its meaning is spelled out by the next two rows |
| Paths.IsJSONFileTypeSpelled | lib/project-command.js:45-47 | a path is a JSON file type iff it ends in a dot followed by `json` in any mixture of cases |
| Paths.JSONSuffixes | lib/project-command.js:45-47 | `….json` and `….JSON` pass whatever precedes them; `….jsonc` and `….json5` do not |
| Json.Clean | lib/project-command.js:53-54 | without `skipClean` exactly the reserved key is removed and every other key keeps its value; with `skipClean` the document is unchanged |
| Json.CleanIdempotent | lib/project-command.js:53-54 | cleaning twice equals cleaning once; a document without the reserved key is left alone |
| Files.ParseDocument | lib/project-command.js:49-57 | loading succeeds iff the content is a document, and then yields its cleaned form; otherwise a parse error for that path |
| Files.ReadFile | lib/project-command.js:50 | reading succeeds iff the path is an existing file |
| Json.ExcludesOf | lib/project-command.js:60-65 | as the fallback to `[]` and `indexOf` read it: an absent or falsy exclusion value is the empty list, an array is searched by its items, a non-empty string by substring, and any other value is unsearchable, exactly when it is truthy and neither array nor string |
| Json.MergeOutcome | lib/project-command.js:59-73 | the result of `mergeJSONStructures`: an error when the exclusion value is unsearchable and a key is shared, otherwise `data1` with each key of `data2` written over it unless excluded; its properties are the lemmas below |
| Json.MergeStructures | lib/project-command.js:59-73 | the key loop computes exactly `MergeOutcome`: each key of `data2` is written unless `data1` has it and it is excluded, and it throws when the exclusion value is unsearchable and a key is shared |
| Json.MergeFailsIff | lib/project-command.js:60-65 | the merge throws iff the exclusion value is truthy but neither array nor string and the documents share a key |
| Json.MergeKeysAndValues | lib/project-command.js:59-73 | the result's keys are the union; a key of `data2` takes `data2`'s value unless it is in `data1` and excluded, in which case `data1`'s value stays; keys only in `data1` are untouched |
| Json.MergeWritesBackExcludeList | lib/project-command.js:102-104 | with a cleaned template and a raw target, the target's exclusion list is in the merged document unchanged |
| Json.MergeCleanedWithRaw | lib/project-command.js:49-73 | merging the cleaned form of a document with the raw document gives the raw document back, and throws only for an unsearchable exclusion value alongside another key |
| Json.MergeSelf | lib/project-command.js:59-73 | a document merged with itself is unchanged whenever its exclusion value is searchable |
| Json.MergeExample | lib/project-command.js:59-73 | `{a:9,b:9,c:9}` merged with `{a:1,b:2,excl:["b"]}` gives `{a:1,b:9,c:9,excl:["b"]}` |
| Json.MergeStringExcludes | lib/project-command.js:60-70 | for any documents and any non-empty string exclusion value the merge succeeds; a shared key that is a substring of the string keeps the template's value, and every other key of the target takes the target's value |
| Json.MergeStringExample | lib/project-command.js:60-70 | example: with the exclusion value `"abc"`, the shared keys `ab` and `b` both keep the template's value |
| Walker.Walk | lib/project-command.js:75-89 | the sequence of callback arguments of `walkFiles`, depth first in listing order; its properties are the lemmas below |
| Walker.WalkAppend | lib/project-command.js:75-89 | the walk of a listing is the walk of its first part followed by the walk of the rest, so entries are visited in listing order |
| Walker.WalkSingle | lib/project-command.js:79-87 | a file entry gives one callback with its directory, name and joined path; a directory entry gives the walk of its own listing |
| Walker.WalkSplit | lib/project-command.js:77-88 | the walk of a listing splits around its `i`-th entry |
| Walker.WalkDirectory | lib/project-command.js:82-85 | a subdirectory contributes exactly its own walk, complete, before its next sibling |
| Walker.WalkCount | lib/project-command.js:75-89 | the callback runs once per file at any depth and never for a directory |
| Walker.WalkOnlyDirectories | lib/project-command.js:82-85 | a tree of directories without files gives no callback |
| Walker.WalkBelow | lib/project-command.js:77-87 | for well-named listings (names non-empty, without separator, distinct within each listing), every visited path lies strictly below the walked directory and is its entry's directory joined with a well-formed file name; the entry's directory is the walked one or lies below it |
| Walker.UnderComponent | lib/project-command.js:79 | a path at or below `dir/name` holds `name` as the component right after `dir` |
| Walker.UnderDisjoint | lib/project-command.js:79 | nothing lies at or below two different names joined into the same directory |
| Walker.SeparateAppend | lib/project-command.js:77-88 | two separate runs of callbacks whose paths do not meet stay separate when concatenated |
| Walker.WalkAvoids | lib/project-command.js:77-88 | a listing without the name `n` visits nothing at or below `dir/n` |
| Walker.WalkSeparate | lib/project-command.js:75-89 | for a well-named listing, no file path is visited twice and no visited file path is the directory of a callback |
| Walker.MirrorOfJoin | lib/project-command.js:91-94 | the same relative path under the root commutes with joining a name |
| Walker.MirrorInjective | lib/project-command.js:91-94 | different template paths at or below the source root get different destinations |
| Walker.MirrorBelow | lib/project-command.js:91-94 | a path strictly below the source root lands strictly below the root |
| Walker.EntryTarget | lib/project-command.js:91-94 | a visited file goes to its relative path under the root, the directory made for it (line 145) is its template directory's relative path under the root, and both lie below the root or are the root |
| Walker.WalkTargets | lib/project-command.js:167-170 | for a well-named template under a source root without trailing separator, the destinations of distinct files are distinct, none is the directory made for another, and all lie below the root |
| Walker.DestinationBelow | lib/project-command.js:91-94 | a path below the source root lands at the same relative path under the root |
| Walker.WalkDestinations | lib/project-command.js:167-170 | walking a source root without trailing separator, every file's destination is its relative path under the root: the destination tree mirrors the template |
| Paths.LastIndexOf | lib/project-command.js:108 | the index holds the character and no later index does, or -1 |
| Paths.DropLeadingSuffix | lib/project-command.js:92 | the leading-run `replace` keeps a suffix that does not start with a dropped character, and everything removed is a dropped character |
| Paths.JoinRelative | lib/project-command.js:79 | joining a name that does not start with a separator puts exactly one separator between |
| Paths.DropLeadingPrefix | lib/project-command.js:92 | a run of dropped characters in front of text that does not start with one is removed exactly |
| Paths.Substring | lib/project-command.js:92 | `substring(start)` is what follows the first `start` characters, or empty past the end |
| Paths.Join | lib/project-command.js:79 | `Path.join` of a directory and a relative name |
| Paths.JoinShape | lib/project-command.js:79 | a join is the directory itself, or the directory, one separator and a suffix of the name that does not start with a separator |
| Paths.Dirname | lib/project-command.js:145 | `Path.dirname` |
| Paths.DirnameShape | lib/project-command.js:145 | the directory of a path without separator is `.`; otherwise it is `/` or the part before the last separator, which has no separator after it |
| Paths.DirnameOfJoin | lib/project-command.js:145 | the directory of a name joined into a directory is that directory |
| Paths.ErrorExtension | lib/project-command.js:108 | the text named in the merge error is a suffix of the path |
| Paths.ErrorExtensionMatched | lib/project-command.js:108 | when the pattern matches, the error names the final `.`-extension |
| Paths.ErrorExtensionUnmatched | lib/project-command.js:108 | when the pattern does not match, the error names the whole path |
| Paths.GetDestinationPath | lib/project-command.js:91-94 | `getDestinationPath(sourceRoot, filePath)` under the root |
| Paths.DestinationUnderRoot | lib/project-command.js:91-94 | every destination is the root itself or lies below it, after exactly one separator |
| Paths.DestinationDropsDotsAndBackslashes | lib/project-command.js:91-94 | any run of `.` and `\` right after the source root is dropped before joining under the root |
| Paths.DestinationOfJoin | lib/project-command.js:91-94 | a file joined under the source root gets the same relative path joined under the root |
| Files.MkDir | lib/project-command.js:96-98 | `mkdir` succeeds iff the path is not an existing file |
| Command.ProjectCommand.Mkdir | lib/project-command.js:96-98 | the filesystem becomes `MkDir`'s result, or is unchanged on failure; answers are untouched |
| Files.WriteFile | lib/project-command.js:149-151 | a write succeeds iff the path is not a directory |
| Command.ProjectCommand.Write | lib/project-command.js:149-151 | the filesystem becomes `WriteFile`'s result, or is unchanged on failure |
| Command.ProjectCommand.MergeFiles | lib/project-command.js:100-110 | the filesystem becomes the result of `Materialize.MergeFiles`, and is unchanged when it throws |
| Materialize.MergeFiles | lib/project-command.js:100-110 | `mergeFiles`: the type test, the two loads, the merge and the write, stopping at the first error |
| Materialize.MergeNeedsJSON | lib/project-command.js:101-109 | `merge` of a pair that is not both `.json` throws the unsupported-type error before any write, also under "Merge All" |
| Materialize.MergeWritesMerged | lib/project-command.js:100-110 | `merge` either throws with the filesystem unchanged, or both paths are `.json`, both contents are documents, and exactly the target is replaced by the merge of the cleaned template with the raw target |
| Materialize.MergeIntoIdenticalTarget | lib/project-command.js:100-110 | merging a template into a target that holds the same document leaves everything unchanged |
| Command.ProjectCommand.AwaitUserSelection | lib/project-command.js:156-159 | the next answer is taken from the front, or none when there is none left |
| Materialize.ResolveAction | lib/project-command.js:119-134 | the action for one target: `overwrite` when it is absent, else the memoised action, else the next answer (memoised when its `all` is set), else cancelled |
| Materialize.CopyFile | lib/project-command.js:112-154 | `copyFile`: the resolved action carried out, or the cancellation failure; its properties are the lemmas below |
| Materialize.CopyFileAbsentTarget | lib/project-command.js:131-133 | an absent target is overwritten with no prompt, and the context is neither read nor changed |
| Materialize.CopyFileMemoised | lib/project-command.js:119-122 | an existing target under a memoised action takes that action with no prompt, and the context stays |
| Materialize.CopyFilePrompted | lib/project-command.js:122-130 | an existing target with nothing memoised takes the next answer, and memoises it exactly when its `all` is set |
| Materialize.CopyFileCancelled | lib/project-command.js:125-128 | a prompt with no answer throws before any write |
| Materialize.CopyFileMemo | lib/project-command.js:119-130 | a memoised action is never replaced; a new one is only ever the answer just given with `all` set |
| Materialize.CopyFileAnswers | lib/project-command.js:121-130 | at most one answer is consumed per file, from the front |
| Materialize.Apply | lib/project-command.js:136-153 | the chosen action carried out: `skip`, `merge`, or anything else as `overwrite` |
| Materialize.OverwriteFile | lib/project-command.js:143-153 | `mkdir` of the parent, then the cleaned document or the bytes written, with the directory kept when a later step fails |
| Materialize.SkipWritesNothing | lib/project-command.js:136-137 | `skip` changes nothing |
| Materialize.OverwriteEffect | lib/project-command.js:143-153 | `overwrite` changes no path other than the target and its parent; on success the parent is a directory and the target holds the source's bytes, or for a `.json` source its cleaned document |
| Materialize.OverwriteKeepsExisting | lib/project-command.js:143-153 | overwriting an absent target keeps every existing path as it was |
| Materialize.CopyFileAfterSkipAll | lib/project-command.js:119-137 | under "Skip All" one file shows no prompt and changes no existing path |
| Materialize.MergeAllRejectsOtherTypes | lib/project-command.js:119-142 | under "Merge All" a conflict on a non-`.json` pair still throws, with no prompt and no write |
| Command.ProjectCommand.CopyFile | lib/project-command.js:112-154 | filesystem, answers and run context end exactly as `Materialize.CopyFile` says, with the same outcome |
| Materialize.Run | lib/project-command.js:167-172 | the walk's callbacks in order, each a `copyFile` to its destination, stopping at the first that throws |
| Materialize.RunAppend | lib/project-command.js:167-172 | a run over two parts of a walk is the run over the first, then, unless it threw, the run over the second |
| Materialize.RunSingle | lib/project-command.js:168-171 | the callback of one file is one `copyFile` to its destination |
| Materialize.RunExtend | lib/project-command.js:77-88 | a run that passed, extended by one part, is the run over both; a failure ends the run whatever follows |
| Materialize.WalkStep | lib/project-command.js:77-88 | one iteration of the walk loop: success extends the run by the entry; failure is the result of the whole listing |
| Command.ProjectCommand.VisitEntry | lib/project-command.js:78-87 | one listing entry changes the state exactly as the run over its walk says |
| Command.ProjectCommand.WalkFiles | lib/project-command.js:75-89 | filesystem, answers and context end exactly as the run over the walk of the listing says, with its outcome |
| Materialize.RunMemoPersists | lib/project-command.js:165-171 | once the context holds an action, it holds the same one to the end of the run |
| Materialize.RunMemoOnlyFromAll | lib/project-command.js:122-130 | a run ends with the context it began with, or, starting empty, with one of the answers whose `all` is set |
| Materialize.RunMemoAsksNothing | lib/project-command.js:119-122 | once the context holds an action, the rest of the run consumes no answer |
| Materialize.RunConsumesAnswers | lib/project-command.js:125 | answers are consumed in order: what is left is a suffix of what there was |
| Materialize.RunAfterSkipAll | lib/project-command.js:119-137 | after "Skip All" no prompt is shown and no existing path is changed for the rest of the run |
| Materialize.Init | lib/project-command.js:161-173 | `initCommand`: a fresh context, then the run over the walk of the template directory |
| Command.RunContext.constructor | lib/project-command.js:165 | a fresh context holds no memoised action |
| Materialize.OverwriteAbsent | lib/project-command.js:143-153 | overwriting an absent target whose parent is absent or a directory succeeds and adds exactly the parent directory and the target, holding the bytes or the cleaned document |
| Materialize.FreshTargetsRest | lib/project-command.js:167-172 | after the first file of a run with fresh targets is written, the remaining targets are still fresh |
| Materialize.RunFreshTargets | lib/project-command.js:167-172 | a run whose targets are distinct, absent and not each other's parents passes without a prompt, keeps every existing path, and leaves each target holding what `overwrite` writes |
| Materialize.WalkFreshTargets | lib/project-command.js:161-173 | a well-named template, under a source root without trailing separator, walked into a root that is a directory or absent, with nothing below it, has fresh targets |
| Materialize.InitIntoFreshRoot | lib/project-command.js:161-173 | `initCommand` of a well-named template, whose joined path has no trailing separator and whose `.json` files parse, into a root with nothing below it, passes with no prompt, keeps every existing path and writes every file of the template to its destination, the `.json` ones cleaned |
| Materialize.InitNeedsTemplateDirectory | lib/project-command.js:164-167 | a template path that is missing or is a file makes `initCommand` throw before anything is asked or written |
| Command.ProjectCommand.InitCommand | lib/project-command.js:161-173 | filesystem, answers and outcome are those of `Materialize.Init`: one fresh context, then the run over the walk of the template directory |

## Left out

- `lib/index.js` is not part of this model. It parses the command line, bootstraps the configuration file and dispatches commands.
- Evaluating a file's text as code (`new Function`) and `JSON.stringify` layout are left out. A file holds either a parsed document or uninterpreted bytes. Text that does not evaluate is a `ParseError`. A document is written back as itself.
- JSON numbers are integers. Floating point, `NaN`, `undefined` and other JavaScript values that `new Function` can produce are not modelled. Neither is a top-level value that is not an object.
- JavaScript object details are left out: key order, `__proto__`, and inherited properties at `hasOwnProperty`. A document is a map. `MergeStructures` visits its keys in an unspecified order; the result does not depend on that order.
- `Json.MergeStructures` works on a copy of `data1` and returns it. The source mutates `data1` in place, but only `mergeFiles` uses it, on a fresh load, so no alias is observable.
- `prompts` is replaced by the sequence of answers. That includes the argument-less prompt call at line 162 of `initCommand`. The message printed with the question, and what `prompts` does with a `Question`, are not modelled.
- Console logging and colours are left out.
- `Path.join` is modelled as joining with one `/` and dropping leading `/` from the second part. Normalisation of `..`, `.` and repeated separators is not modelled, nor are Windows separators.
- `Paths.Join` does not drop a trailing `/` of its first part. `Path.join` does, so a template name with a trailing separator (`initCommand({ template: "react/" })`) makes the source root end in `/`. The source then joins `react/.gitignore` (line 79), and line 92 strips the leading dot, so `.gitignore` and `gitignore` both go to `root/gitignore` and the second one prompts. The model joins `react//.gitignore` and keeps the dot. `Walker.WalkDestinations`, `Walker.WalkTargets`, `Materialize.WalkFreshTargets` and `Materialize.InitIntoFreshRoot` therefore require a source root without a trailing separator (`PlainDirectory`), where the model and the source agree.
- `Files.MkDir` creates only the path itself and fails only on a file at that path. `mkdirSync` with `recursive: true` also creates missing ancestors, and fails (ENOTDIR) when an ancestor is a file; neither is modelled.
- `Command.ProjectCommand.Mkdir` inherits this from `Files.MkDir`: only the parent directory itself is created, and a file in the way of an ancestor is not detected.
- `statSync` is replaced by the tree's entry kind. Permissions, symbolic links and I/O failures other than the modelled ones are left out.
- `readdirSync` order is the order of the tree's listing.
- The template tree is separate from the destination filesystem. A template that lies inside the project root, and so would see its own copies, is not modelled.
- `async` and `await` are left out: every call completes before the next starts, as the source awaits each one.
- `walkFiles` takes a general callback in the source. Here it is fixed to the one `initCommand` passes: compute the destination, then `copyFile` with the shared context.
- `Materialize.CopyFileCancelled`: a cancelled prompt is modelled as the failure `PromptCancelled`. In the source, `action` is then undefined and `copyFile` throws a `TypeError` when it reads `overwriteAction.all`.
