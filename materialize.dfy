/** What `copyFile`, `mergeFiles` and `initCommand` do, as functions of the
    state of a run. The methods of `Command.ProjectCommand` are proved to
    change their state exactly as these functions say; the lemmas here state
    the conflict policy and its effects. */
module Materialize {
  import opened Common
  import opened Paths
  import opened Json
  import opened Files
  import opened Menu
  import opened Walker

  /** The state a run reads and changes: the destination filesystem, the
      answers the prompt will give from now on, and the run context's
      memoised `overwriteAction`. */
  datatype World = World(fs: FileSystem, answers: seq<Action>, memo: Option<Action>)

  datatype Step = Step(world: World, outcome: Outcome)

  /** `{ action: 'overwrite' }`, the action for a target that does not exist. */
  const OverwriteNew: Action := Action("overwrite", false)

  /** The question asked on a conflict. */
  const Conflict: Question := OverwriteQuestion("What should I do?")

  datatype Resolution = Resolved(action: Action, world: World) | Cancelled

  /** Lines 119-134 of `copyFile`: choose the action for one target. */
  function ResolveAction(w: World, target: string): Resolution {
    if target !in w.fs then Resolved(OverwriteNew, w)
    else if w.memo.Some? then Resolved(w.memo.value, w)
    else if w.answers == [] then Cancelled
    else
      var a := w.answers[0];
      Resolved(a, w.(answers := w.answers[1..], memo := if a.all then Some(a) else w.memo))
  }

  /** `mergeFiles`: both paths must be `.json`; the cleaned template document
      is merged with the raw target document and the result replaces the
      target. Nothing is written unless every step succeeds. */
  function MergeFiles(fs: FileSystem, e: Entry, target: string): Result<FileSystem> {
    if !(IsJSONFileType(e.filePath) && IsJSONFileType(target)) then
      Err(UnsupportedMergeType(ErrorExtension(e.filePath)))
    else
      var data1 :- ParseDocument(e.content, e.filePath, false);
      var raw :- ReadFile(fs, target);
      var data2 :- ParseDocument(raw, target, true);
      var merged :- MergeOutcome(data1, data2);
      WriteFile(fs, target, Structured(merged))
  }

  /** The filesystem after a call, and whether the call threw. */
  datatype Effect = Effect(fs: FileSystem, outcome: Outcome)

  /** What `copyFile` writes for a `.json` source: its cleaned document. */
  function OverwriteContent(e: Entry): Result<Content> {
    if IsJSONFileType(e.filePath) then
      var data :- ParseDocument(e.content, e.filePath, false);
      Ok(Structured(data))
    else Ok(e.content)
  }

  /** Lines 144-152 of `copyFile`: create the parent directory, then write the
      target. A failure after the directory was made leaves the directory. */
  function OverwriteFile(fs: FileSystem, e: Entry, target: string): Effect {
    match MkDir(fs, Dirname(target))
    case Err(x) => Effect(fs, Fail(x))
    case Ok(fs1) =>
      match OverwriteContent(e)
      case Err(x) => Effect(fs1, Fail(x))
      case Ok(c) =>
        match WriteFile(fs1, target, c)
        case Err(x) => Effect(fs1, Fail(x))
        case Ok(fs2) => Effect(fs2, Pass)
  }

  /** Lines 136-153 of `copyFile`: carry out the chosen action. */
  function Apply(w: World, a: Action, e: Entry, target: string): Step {
    if a.action == "skip" then Step(w, Pass)
    else if a.action == "merge" then
      match MergeFiles(w.fs, e, target)
      case Ok(fs) => Step(w.(fs := fs), Pass)
      case Err(x) => Step(w, Fail(x))
    else
      var eff := OverwriteFile(w.fs, e, target);
      Step(w.(fs := eff.fs), eff.outcome)
  }

  /** `copyFile` for one entry and its target path. */
  function CopyFile(w: World, e: Entry, target: string): Step {
    match ResolveAction(w, target)
    case Cancelled => Step(w, Fail(PromptCancelled))
    case Resolved(a, w1) => Apply(w1, a, e, target)
  }

  /** The callbacks of one walk, each copying its entry to its destination,
      until the first one that throws. */
  function Run(w: World, entries: seq<Entry>, root: string, sourceRoot: string): Step
    decreases |entries|
  {
    if entries == [] then Step(w, Pass)
    else
      var s := CopyFile(w, entries[0], GetDestinationPath(root, sourceRoot, entries[0].filePath));
      if s.outcome.Fail? then s else Run(s.world, entries[1..], root, sourceRoot)
  }

  /** `initCommand({ template })` on a fresh run context. */
  function Init(fs: FileSystem, answers: seq<Action>, sources: map<string, Tree>,
                templatePath: string, template: string, root: string): Step
  {
    var w := World(fs, answers, None);
    var sourceRoot := Join(templatePath, template);
    if sourceRoot !in sources then Step(w, Fail(NotFound(sourceRoot)))
    else match sources[sourceRoot]
      case File(_, _) => Step(w, Fail(NotADirectory(sourceRoot)))
      case Directory(_, children) => Run(w, Walk(sourceRoot, children), root, sourceRoot)
  }

  // ---------------------------------------------------------------------
  // Conflict resolution

  /** An absent target is never a conflict: it is overwritten, no prompt is
      shown and the run context is left alone. */
  lemma CopyFileAbsentTarget(w: World, e: Entry, target: string)
    requires target !in w.fs
    ensures var s := CopyFile(w, e, target);
      && s.world.answers == w.answers
      && s.world.memo == w.memo
      && Effect(s.world.fs, s.outcome) == OverwriteFile(w.fs, e, target)
  {
  }

  /** An existing target under a memoised action: no prompt, the memoised
      action is carried out and stays memoised. */
  lemma CopyFileMemoised(w: World, e: Entry, target: string)
    requires target in w.fs && w.memo.Some?
    ensures CopyFile(w, e, target) == Apply(w, w.memo.value, e, target)
    ensures CopyFile(w, e, target).world.answers == w.answers
    ensures CopyFile(w, e, target).world.memo == w.memo
  {
  }

  /** An existing target with nothing memoised: the next answer is taken and
      carried out, and memoised exactly when its `all` flag is set. */
  lemma CopyFilePrompted(w: World, e: Entry, target: string)
    requires target in w.fs && w.memo.None? && w.answers != []
    ensures var a := w.answers[0];
      CopyFile(w, e, target) ==
        Apply(World(w.fs, w.answers[1..], if a.all then Some(a) else None), a, e, target)
  {
  }

  /** A prompt that gives no answer makes `copyFile` throw before any write. */
  lemma CopyFileCancelled(w: World, e: Entry, target: string)
    requires target in w.fs && w.memo.None? && w.answers == []
    ensures CopyFile(w, e, target) == Step(w, Fail(PromptCancelled))
  {
  }

  /** The run context is set only from an answer whose `all` flag is set, and
      once set it is never replaced. */
  lemma CopyFileMemo(w: World, e: Entry, target: string)
    ensures var s := CopyFile(w, e, target);
      && (w.memo.Some? ==> s.world.memo == w.memo)
      && (s.world.memo != w.memo ==>
            w.memo.None? && w.answers != [] && s.world.memo == Some(w.answers[0]) && w.answers[0].all)
  {
  }

  /** At most one answer is consumed per file, from the front. */
  lemma CopyFileAnswers(w: World, e: Entry, target: string)
    ensures var s := CopyFile(w, e, target);
      s.world.answers == w.answers || (w.answers != [] && s.world.answers == w.answers[1..])
  {
  }

  // ---------------------------------------------------------------------
  // Effects of each action

  /** `skip` writes nothing. */
  lemma SkipWritesNothing(w: World, a: Action, e: Entry, target: string)
    requires a.action == "skip"
    ensures Apply(w, a, e, target) == Step(w, Pass)
  {
  }

  /** `merge` of anything but two `.json` paths throws before any write, also
      when `merge` was memoised by "Merge All". */
  lemma MergeNeedsJSON(w: World, a: Action, e: Entry, target: string)
    requires a.action == "merge"
    requires !IsJSONFileType(e.filePath) || !IsJSONFileType(target)
    ensures Apply(w, a, e, target) == Step(w, Fail(UnsupportedMergeType(ErrorExtension(e.filePath))))
  {
  }

  /** `merge` either leaves the filesystem as it was and throws, or replaces
      the target by a file holding the merged document. */
  lemma MergeWritesMerged(w: World, a: Action, e: Entry, target: string)
    requires a.action == "merge"
    ensures var s := Apply(w, a, e, target);
      && s.world.answers == w.answers && s.world.memo == w.memo
      && (s.outcome.Fail? ==> s.world.fs == w.fs)
      && (s.outcome.Pass? ==>
            && IsJSONFileType(e.filePath) && IsJSONFileType(target)
            && e.content.Structured?
            && target in w.fs && w.fs[target].FileNode? && w.fs[target].content.Structured?
            && var merged := MergeOutcome(Clean(e.content.doc, false), w.fs[target].content.doc);
               merged.Ok? && s.world.fs == w.fs[target := FileNode(Structured(merged.value))])
  {
  }

  /** Merging a template file into a target whose document it already
      matches leaves the target's document unchanged. */
  lemma MergeIntoIdenticalTarget(w: World, a: Action, e: Entry, target: string, d: Document)
    requires a.action == "merge"
    requires IsJSONFileType(e.filePath) && IsJSONFileType(target)
    requires e.content == Structured(d) && target in w.fs && w.fs[target] == FileNode(Structured(d))
    requires !ExcludesOf(d).Unsearchable?
    ensures Apply(w, a, e, target) == Step(w, Pass)
  {
    MergeCleanedWithRaw(d);
    assert w.fs[target := FileNode(Structured(d))] == w.fs;
  }

  /** `overwrite` changes no path but the target and its parent directory. On
      success the parent is a directory and the target holds the source's
      bytes, or for a `.json` source its cleaned document. */
  lemma OverwriteEffect(w: World, a: Action, e: Entry, target: string)
    requires a.action != "skip" && a.action != "merge"
    ensures var s := Apply(w, a, e, target);
      && s.world.answers == w.answers && s.world.memo == w.memo
      && (forall p :: p != target && p != Dirname(target) ==>
            (p in s.world.fs <==> p in w.fs) && (p in w.fs ==> s.world.fs[p] == w.fs[p]))
      && (s.outcome.Pass? ==>
            && Dirname(target) in s.world.fs && s.world.fs[Dirname(target)] == DirectoryNode
            && target in s.world.fs
            && s.world.fs[target] == FileNode(
                 if IsJSONFileType(e.filePath) then Structured(Clean(e.content.doc, false)) else e.content))
  {
  }

  /** `overwrite` of a target that does not exist leaves every existing path as it was. */
  lemma OverwriteKeepsExisting(fs: FileSystem, e: Entry, target: string)
    requires target !in fs
    ensures var fs' := OverwriteFile(fs, e, target).fs;
      forall p :: p in fs ==> p in fs' && fs'[p] == fs[p]
  {
  }

  /** Under "Skip All" one file is skipped if its target exists and written
      otherwise, without a prompt and without touching an existing path. */
  lemma CopyFileAfterSkipAll(w: World, e: Entry, target: string)
    requires w.memo == Some(Action("skip", true))
    ensures var s := CopyFile(w, e, target);
      && s.world.answers == w.answers
      && s.world.memo == w.memo
      && forall p :: p in w.fs ==> p in s.world.fs && s.world.fs[p] == w.fs[p]
  {
    if target !in w.fs {
      OverwriteKeepsExisting(w.fs, e, target);
    }
  }

  // ---------------------------------------------------------------------
  // A whole run

  /** One step of a run. */
  lemma RunStep(w: World, entries: seq<Entry>, root: string, sourceRoot: string)
    requires entries != []
    ensures var s := CopyFile(w, entries[0], GetDestinationPath(root, sourceRoot, entries[0].filePath));
      Run(w, entries, root, sourceRoot) == if s.outcome.Fail? then s else Run(s.world, entries[1..], root, sourceRoot)
  {
  }

  /** A run over two parts of the walk is the run over the first part followed,
      unless it threw, by the run over the second. */
  lemma {:induction false} RunAppend(w: World, a: seq<Entry>, b: seq<Entry>, root: string, sourceRoot: string)
    ensures Run(w, a + b, root, sourceRoot) ==
      var s := Run(w, a, root, sourceRoot);
      if s.outcome.Fail? then s else Run(s.world, b, root, sourceRoot)
    decreases |a|
  {
    if a != [] {
      assert (a + b)[0] == a[0];
      assert (a + b)[1..] == a[1..] + b;
      var s := CopyFile(w, a[0], GetDestinationPath(root, sourceRoot, a[0].filePath));
      if s.outcome.Pass? {
        RunAppend(s.world, a[1..], b, root, sourceRoot);
      }
    } else {
      assert a + b == b;
    }
  }

  /** A run over one entry is one `copyFile`. */
  lemma RunSingle(w: World, e: Entry, root: string, sourceRoot: string)
    ensures Run(w, [e], root, sourceRoot) == CopyFile(w, e, GetDestinationPath(root, sourceRoot, e.filePath))
  {
    RunStep(w, [e], root, sourceRoot);
    var s := CopyFile(w, e, GetDestinationPath(root, sourceRoot, e.filePath));
    assert [e][1..] == [];
    assert Run(s.world, [], root, sourceRoot) == Step(s.world, Pass);
  }

  /** Extending a run that passed over `a` by a run over `b`: a success is
      the run over `a + b`, a failure is the run over `a + b + c` for any
      `c`, since the run stops at the first failure. */
  lemma RunExtend(w0: World, a: seq<Entry>, b: seq<Entry>, c: seq<Entry>, before: World, after: Step,
                  root: string, sourceRoot: string)
    requires Run(w0, a, root, sourceRoot) == Step(before, Pass)
    requires after == Run(before, b, root, sourceRoot)
    ensures after.outcome.Pass? ==> Run(w0, a + b, root, sourceRoot) == after
    ensures after.outcome.Fail? ==> Run(w0, a + b + c, root, sourceRoot) == after
  {
    RunAppend(w0, a, b, root, sourceRoot);
    if after.outcome.Fail? {
      RunAppend(w0, a + b, c, root, sourceRoot);
    }
  }

  /** Extending a run over the walk of `listing[..i]` by the walk of
      `listing[i]`: a success gives the run over `listing[..i + 1]`, a
      failure is the result of the run over the whole of `listing`. */
  lemma WalkStep(w0: World, dir: string, listing: seq<Tree>, i: nat, before: World, after: Step,
                 root: string, sourceRoot: string)
    requires i < |listing|
    requires Run(w0, Walk(dir, listing[..i]), root, sourceRoot) == Step(before, Pass)
    requires after == Run(before, Walk(dir, [listing[i]]), root, sourceRoot)
    ensures after.outcome.Pass? ==> Run(w0, Walk(dir, listing[..i + 1]), root, sourceRoot) == after
    ensures after.outcome.Fail? ==> Run(w0, Walk(dir, listing), root, sourceRoot) == after
  {
    WalkSplit(dir, listing, i);
    RunExtend(w0, Walk(dir, listing[..i]), Walk(dir, [listing[i]]), Walk(dir, listing[i + 1..]),
              before, after, root, sourceRoot);
  }

  /** Once the run context holds an action it holds the same one to the end. */
  lemma {:induction false} RunMemoPersists(w: World, entries: seq<Entry>, root: string, sourceRoot: string)
    requires w.memo.Some?
    ensures Run(w, entries, root, sourceRoot).world.memo == w.memo
    decreases |entries|
  {
    if entries != [] {
      var target := GetDestinationPath(root, sourceRoot, entries[0].filePath);
      CopyFileMemo(w, entries[0], target);
      var s := CopyFile(w, entries[0], target);
      if s.outcome.Pass? {
        RunMemoPersists(s.world, entries[1..], root, sourceRoot);
      }
    }
  }

  /** A run ends with the context it started with, or, if that was empty,
      with an answer whose `all` flag is set. */
  lemma {:induction false} RunMemoOnlyFromAll(w: World, entries: seq<Entry>, root: string, sourceRoot: string)
    ensures var m := Run(w, entries, root, sourceRoot).world.memo;
      m == w.memo || (w.memo.None? && m.Some? && m.value.all && m.value in w.answers)
    decreases |entries|
  {
    if entries != [] {
      var target := GetDestinationPath(root, sourceRoot, entries[0].filePath);
      CopyFileMemo(w, entries[0], target);
      CopyFileAnswers(w, entries[0], target);
      RunStep(w, entries, root, sourceRoot);
      var s := CopyFile(w, entries[0], target);
      if s.outcome.Pass? {
        if s.world.memo.Some? {
          RunMemoPersists(s.world, entries[1..], root, sourceRoot);
        } else {
          RunMemoOnlyFromAll(s.world, entries[1..], root, sourceRoot);
          var m := Run(s.world, entries[1..], root, sourceRoot).world.memo;
          assert m != s.world.memo ==> m.value in w.answers;
        }
      }
    }
  }

  /** Once the run context holds an action no further prompt is shown: the
      rest of the run consumes no answer. */
  lemma {:induction false} RunMemoAsksNothing(w: World, entries: seq<Entry>, root: string, sourceRoot: string)
    requires w.memo.Some?
    ensures Run(w, entries, root, sourceRoot).world.answers == w.answers
    decreases |entries|
  {
    if entries != [] {
      var target := GetDestinationPath(root, sourceRoot, entries[0].filePath);
      if target in w.fs {
        CopyFileMemoised(w, entries[0], target);
      } else {
        CopyFileAbsentTarget(w, entries[0], target);
      }
      RunStep(w, entries, root, sourceRoot);
      var s := CopyFile(w, entries[0], target);
      if s.outcome.Pass? {
        RunMemoAsksNothing(s.world, entries[1..], root, sourceRoot);
      }
    }
  }

  predicate IsSuffix(tail: seq<Action>, s: seq<Action>) {
    |tail| <= |s| && tail == s[|s| - |tail|..]
  }

  lemma SuffixOfRest(tail: seq<Action>, s: seq<Action>)
    requires s != [] && IsSuffix(tail, s[1..])
    ensures IsSuffix(tail, s)
  {
    assert s[1..][|s| - 1 - |tail|..] == s[|s| - |tail|..];
  }

  /** The prompt is answered in order: what is left of the answers at the end
      is a suffix of what was there at the start. */
  lemma {:induction false} RunConsumesAnswers(w: World, entries: seq<Entry>, root: string, sourceRoot: string)
    ensures IsSuffix(Run(w, entries, root, sourceRoot).world.answers, w.answers)
    decreases |entries|
  {
    if entries != [] {
      var target := GetDestinationPath(root, sourceRoot, entries[0].filePath);
      CopyFileAnswers(w, entries[0], target);
      RunStep(w, entries, root, sourceRoot);
      var s := CopyFile(w, entries[0], target);
      if s.outcome.Pass? {
        RunConsumesAnswers(s.world, entries[1..], root, sourceRoot);
        var left := Run(s.world, entries[1..], root, sourceRoot).world.answers;
        if s.world.answers != w.answers {
          SuffixOfRest(left, w.answers);
        }
      } else {
        assert IsSuffix(w.answers, w.answers);
        if s.world.answers != w.answers {
          SuffixOfRest(s.world.answers, w.answers);
        }
      }
    } else {
      assert IsSuffix(w.answers, w.answers);
    }
  }

  /** After "Skip All" no prompt is shown again and no existing file or
      directory is touched: only absent targets are still written. */
  lemma {:induction false} RunAfterSkipAll(w: World, entries: seq<Entry>, root: string, sourceRoot: string)
    requires w.memo == Some(Action("skip", true))
    ensures var s := Run(w, entries, root, sourceRoot);
      && s.world.answers == w.answers
      && s.world.memo == w.memo
      && forall p :: p in w.fs ==> p in s.world.fs && s.world.fs[p] == w.fs[p]
    decreases |entries|
  {
    if entries != [] {
      var target := GetDestinationPath(root, sourceRoot, entries[0].filePath);
      CopyFileAfterSkipAll(w, entries[0], target);
      RunStep(w, entries, root, sourceRoot);
      var s := CopyFile(w, entries[0], target);
      if s.outcome.Pass? {
        RunAfterSkipAll(s.world, entries[1..], root, sourceRoot);
      }
    }
  }

  /** After "Merge All" a conflict on a pair of paths that are not both
      `.json` still throws, without a prompt and before any write. */
  lemma MergeAllRejectsOtherTypes(w: World, e: Entry, target: string)
    requires w.memo == Some(Action("merge", true)) && target in w.fs
    requires !IsJSONFileType(e.filePath) || !IsJSONFileType(target)
    ensures CopyFile(w, e, target) == Step(w, Fail(UnsupportedMergeType(ErrorExtension(e.filePath))))
  {
  }

  /** A missing template, or one that is a file, makes `initCommand` throw
      before anything is written or asked. */
  lemma InitNeedsTemplateDirectory(fs: FileSystem, answers: seq<Action>, sources: map<string, Tree>,
                                   templatePath: string, template: string, root: string)
    requires Join(templatePath, template) !in sources || sources[Join(templatePath, template)].File?
    ensures var s := Init(fs, answers, sources, templatePath, template, root);
      s.outcome.Fail? && s.world == World(fs, answers, None)
  {
  }

  // ---------------------------------------------------------------------
  // A run into a fresh destination

  /** What `overwrite` puts in a target: the source's bytes, or for a
      `.json` source its cleaned document. */
  function Written(e: Entry): Content
    requires IsJSONFileType(e.filePath) ==> e.content.Structured?
  {
    if IsJSONFileType(e.filePath) then Structured(Clean(e.content.doc, false)) else e.content
  }

  /** `overwrite` of an absent target whose parent is a directory or absent
      succeeds, and adds exactly the parent directory and the target. */
  lemma OverwriteAbsent(fs: FileSystem, e: Entry, target: string)
    requires target !in fs && target != Dirname(target)
    requires Dirname(target) in fs ==> fs[Dirname(target)] == DirectoryNode
    requires IsJSONFileType(e.filePath) ==> e.content.Structured?
    ensures OverwriteFile(fs, e, target) ==
      Effect(fs[Dirname(target) := DirectoryNode][target := FileNode(Written(e))], Pass)
  {
    if Dirname(target) in fs {
      assert fs[Dirname(target) := DirectoryNode] == fs;
    }
  }

  /** The targets of `entries` are pairwise distinct, none of them is the
      parent directory of another, none exists yet, every parent that exists
      is a directory, and every `.json` source parses. */
  predicate FreshTargets(fs: FileSystem, entries: seq<Entry>, root: string, sourceRoot: string) {
    && (forall i, j :: 0 <= i < j < |entries| ==>
          GetDestinationPath(root, sourceRoot, entries[i].filePath) != GetDestinationPath(root, sourceRoot, entries[j].filePath))
    && (forall i, j :: 0 <= i < |entries| && 0 <= j < |entries| ==>
          GetDestinationPath(root, sourceRoot, entries[i].filePath) != Dirname(GetDestinationPath(root, sourceRoot, entries[j].filePath)))
    && (forall i :: 0 <= i < |entries| ==> GetDestinationPath(root, sourceRoot, entries[i].filePath) !in fs)
    && (forall i :: 0 <= i < |entries| ==>
          var d := Dirname(GetDestinationPath(root, sourceRoot, entries[i].filePath)); d in fs ==> fs[d] == DirectoryNode)
    && (forall i :: 0 <= i < |entries| ==> IsJSONFileType(entries[i].filePath) ==> entries[i].content.Structured?)
  }

  /** After writing the first entry's target, the remaining targets are
      still fresh. */
  lemma FreshTargetsRest(fs: FileSystem, entries: seq<Entry>, root: string, sourceRoot: string)
    requires entries != [] && FreshTargets(fs, entries, root, sourceRoot)
    ensures var t := GetDestinationPath(root, sourceRoot, entries[0].filePath);
      FreshTargets(fs[Dirname(t) := DirectoryNode][t := FileNode(Written(entries[0]))], entries[1..], root, sourceRoot)
  {
    var t := GetDestinationPath(root, sourceRoot, entries[0].filePath);
    var fs1 := fs[Dirname(t) := DirectoryNode][t := FileNode(Written(entries[0]))];
    var rest := entries[1..];
    forall i | 0 <= i < |rest|
      ensures GetDestinationPath(root, sourceRoot, rest[i].filePath) !in fs1
      ensures var d := Dirname(GetDestinationPath(root, sourceRoot, rest[i].filePath)); d in fs1 ==> fs1[d] == DirectoryNode
    {
      assert rest[i] == entries[i + 1];
    }
  }

  /** A run whose targets are fresh passes without a prompt, keeps every
      existing path, and leaves each target holding what `overwrite` writes
      for its entry. */
  lemma {:induction false} RunFreshTargets(w: World, entries: seq<Entry>, root: string, sourceRoot: string)
    requires FreshTargets(w.fs, entries, root, sourceRoot)
    ensures var s := Run(w, entries, root, sourceRoot);
      && s.outcome == Pass
      && s.world.answers == w.answers && s.world.memo == w.memo
      && (forall p :: p in w.fs ==> p in s.world.fs && s.world.fs[p] == w.fs[p])
      && (forall i :: 0 <= i < |entries| ==>
            var t := GetDestinationPath(root, sourceRoot, entries[i].filePath);
            t in s.world.fs && s.world.fs[t] == FileNode(Written(entries[i])))
    decreases |entries|
  {
    if entries != [] {
      var e := entries[0];
      var t := GetDestinationPath(root, sourceRoot, e.filePath);
      CopyFileAbsentTarget(w, e, t);
      OverwriteAbsent(w.fs, e, t);
      var fs1 := w.fs[Dirname(t) := DirectoryNode][t := FileNode(Written(e))];
      var w1 := w.(fs := fs1);
      assert CopyFile(w, e, t) == Step(w1, Pass);
      FreshTargetsRest(w.fs, entries, root, sourceRoot);
      RunFreshTargets(w1, entries[1..], root, sourceRoot);
      RunStep(w, entries, root, sourceRoot);
      var s := Run(w1, entries[1..], root, sourceRoot);
      forall i | 0 <= i < |entries|
        ensures var ti := GetDestinationPath(root, sourceRoot, entries[i].filePath);
          ti in s.world.fs && s.world.fs[ti] == FileNode(Written(entries[i]))
      {
        if i > 0 {
          assert entries[i] == entries[1..][i - 1];
        }
      }
    }
  }

  /** The walk of a well-named template into a destination root that is a
      directory or absent and has nothing below it has fresh targets. */
  lemma WalkFreshTargets(fs: FileSystem, listing: seq<Tree>, root: string, sourceRoot: string)
    requires PlainDirectory(sourceRoot) && WellNamed(listing)
    requires root != "" && (root in fs ==> fs[root] == DirectoryNode)
    requires forall p :: p in fs ==> !Below(root, p)
    requires forall e :: e in Walk(sourceRoot, listing) && IsJSONFileType(e.filePath) ==> e.content.Structured?
    ensures FreshTargets(fs, Walk(sourceRoot, listing), root, sourceRoot)
  {
    var es := Walk(sourceRoot, listing);
    WalkTargets(root, sourceRoot, listing);
    forall i | 0 <= i < |es|
      ensures IsJSONFileType(es[i].filePath) ==> es[i].content.Structured?
    {
      assert es[i] in es;
    }
  }

  /** `initCommand` of a template directory whose names are well formed into
      a destination root that is a directory or absent and has nothing below
      it: no prompt, every existing path kept, and every file of the
      template written to its destination. */
  lemma InitIntoFreshRoot(fs: FileSystem, answers: seq<Action>, sources: map<string, Tree>,
                          templatePath: string, template: string, root: string)
    requires PlainDirectory(Join(templatePath, template))
    requires Join(templatePath, template) in sources && sources[Join(templatePath, template)].Directory?
    requires WellNamed(sources[Join(templatePath, template)].children)
    requires root != "" && (root in fs ==> fs[root] == DirectoryNode)
    requires forall p :: p in fs ==> !Below(root, p)
    requires var sourceRoot := Join(templatePath, template);
      forall e :: e in Walk(sourceRoot, sources[sourceRoot].children) && IsJSONFileType(e.filePath) ==>
        e.content.Structured?
    ensures var s := Init(fs, answers, sources, templatePath, template, root);
      && s.outcome == Pass
      && s.world.answers == answers && s.world.memo == None
      && (forall p :: p in fs ==> p in s.world.fs && s.world.fs[p] == fs[p])
      && var sourceRoot := Join(templatePath, template);
         forall e :: e in Walk(sourceRoot, sources[sourceRoot].children) ==>
           var t := GetDestinationPath(root, sourceRoot, e.filePath);
           t in s.world.fs && s.world.fs[t] == FileNode(Written(e))
  {
    var sourceRoot := Join(templatePath, template);
    var es := Walk(sourceRoot, sources[sourceRoot].children);
    var w := World(fs, answers, None);
    WalkFreshTargets(fs, sources[sourceRoot].children, root, sourceRoot);
    RunFreshTargets(w, es, root, sourceRoot);
    var s := Run(w, es, root, sourceRoot);
    assert Init(fs, answers, sources, templatePath, template, root) == s;
    forall e | e in es
      ensures var t := GetDestinationPath(root, sourceRoot, e.filePath);
        t in s.world.fs && s.world.fs[t] == FileNode(Written(e))
    {
      var i :| 0 <= i < |es| && es[i] == e;
    }
  }
}
