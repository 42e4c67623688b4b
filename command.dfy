/** `ProjectCommand`: the object that holds the checked arguments, and its
    methods that walk a template and materialise it under the project root.
    Each method is proved to change the state exactly as the matching
    function of `Materialize` says. */
module Command {
  import opened Common
  import opened Paths
  import opened Json
  import opened Files
  import opened Menu
  import opened Walker
  import opened Materialize

  /** The constructor's `_args`; an absent property is `None`. */
  datatype Args = Args(config: Option<string>, root: Option<string>, templatePath: Option<string>)

  /** `!!value` for a property that is a string or absent. */
  predicate Truthy(o: Option<string>) {
    o.Some? && o.value != ""
  }

  /** The constructor's checks, in the order it makes them. The root must
      exist before anything else happens. */
  function CheckArgs(args: Args, fs: FileSystem): (r: Outcome)
    ensures r.Pass? <==>
      Truthy(args.config) && Truthy(args.root) && Truthy(args.templatePath) && args.root.value in fs
    ensures !Truthy(args.config) ==> r == Fail(MissingArgument("config"))
    ensures Truthy(args.config) && !Truthy(args.root) ==> r == Fail(MissingArgument("root"))
    ensures Truthy(args.config) && Truthy(args.root) && !Truthy(args.templatePath) ==>
      r == Fail(MissingArgument("templatePath"))
    ensures Truthy(args.config) && Truthy(args.root) && Truthy(args.templatePath) && args.root.value !in fs ==>
      r == Fail(RootNotFound(args.root.value))
  {
    if !Truthy(args.config) then Fail(MissingArgument("config"))
    else if !Truthy(args.root) then Fail(MissingArgument("root"))
    else if !Truthy(args.templatePath) then Fail(MissingArgument("templatePath"))
    else if args.root.value !in fs then Fail(RootNotFound(args.root.value))
    else Pass
  }

  /** The run context `{}` of one `initCommand` call. */
  class RunContext {
    var overwriteAction: Option<Action>

    constructor ()
      ensures overwriteAction == None
    {
      overwriteAction := None;
    }
  }

  class ProjectCommand {
    const config: string
    const root: string
    const templatePath: string
    /** The template side of the filesystem, read-only during a run: the tree
        found at each path. */
    const sources: map<string, Tree>
    /** The destination side of the filesystem. */
    var fs: FileSystem
    /** What the interactive prompt will answer, in order. */
    var answers: seq<Action>

    /** The constructor, once its checks have passed. */
    constructor (args: Args, fs0: FileSystem, sources0: map<string, Tree>, answers0: seq<Action>)
      requires CheckArgs(args, fs0).Pass?
      ensures config == args.config.value && root == args.root.value && templatePath == args.templatePath.value
      ensures sources == sources0 && fs == fs0 && answers == answers0
    {
      config := args.config.value;
      root := args.root.value;
      templatePath := args.templatePath.value;
      sources := sources0;
      fs := fs0;
      answers := answers0;
    }

    ghost function State(context: RunContext): World
      reads this, context
    {
      World(fs, answers, context.overwriteAction)
    }

    /** `awaitUserSelection(question)`: the next answer, or none when the
        prompt was closed without one. */
    method AwaitUserSelection(question: Question) returns (response: Option<Action>)
      modifies this
      ensures fs == old(fs)
      ensures old(answers) == [] ==> response == None && answers == []
      ensures old(answers) != [] ==> response == Some(old(answers)[0]) && answers == old(answers)[1..]
    {
      if answers == [] {
        response := None;
      } else {
        response := Some(answers[0]);
        answers := answers[1..];
      }
    }

    /** A write through `writeFileSync` or `copyFileSync`. */
    method Write(path: string, content: Content) returns (outcome: Outcome)
      modifies this
      ensures answers == old(answers)
      ensures match Files.WriteFile(old(fs), path, content)
        case Ok(fs') => fs == fs' && outcome == Pass
        case Err(x) => fs == old(fs) && outcome == Fail(x)
    {
      var r := Files.WriteFile(fs, path, content);
      if r.Err? {
        return Fail(r.error);
      }
      fs := r.value;
      outcome := Pass;
    }

    /** `mkdir(path)`. */
    method Mkdir(path: string) returns (outcome: Outcome)
      modifies this
      ensures answers == old(answers)
      ensures match MkDir(old(fs), path)
        case Ok(fs') => fs == fs' && outcome == Pass
        case Err(x) => fs == old(fs) && outcome == Fail(x)
    {
      var r := MkDir(fs, path);
      if r.Err? {
        return Fail(r.error);
      }
      fs := r.value;
      outcome := Pass;
    }

    /** `mergeFiles({ filePath, targetFilePath })`. */
    method MergeFiles(e: Entry, target: string) returns (outcome: Outcome)
      modifies this
      ensures answers == old(answers)
      ensures match Materialize.MergeFiles(old(fs), e, target)
        case Ok(fs') => fs == fs' && outcome == Pass
        case Err(x) => fs == old(fs) && outcome == Fail(x)
    {
      if !(IsJSONFileType(e.filePath) && IsJSONFileType(target)) {
        return Fail(UnsupportedMergeType(ErrorExtension(e.filePath)));
      }
      var data1 := ParseDocument(e.content, e.filePath, false);
      if data1.Err? {
        return Fail(data1.error);
      }
      var raw := ReadFile(fs, target);
      if raw.Err? {
        return Fail(raw.error);
      }
      var data2 := ParseDocument(raw.value, target, true);
      if data2.Err? {
        return Fail(data2.error);
      }
      var merged := MergeStructures(data1.value, data2.value);
      if merged.Err? {
        return Fail(merged.error);
      }
      outcome := Write(target, Structured(merged.value));
    }

    /** `copyFile({ context, filePath, targetFilePath })`. */
    method CopyFile(context: RunContext, e: Entry, target: string) returns (outcome: Outcome)
      modifies this, context
      ensures var s := Materialize.CopyFile(old(State(context)), e, target);
        State(context) == s.world && outcome == s.outcome
    {
      var overwriteAction := context.overwriteAction;
      var action: Action;
      if target in fs {
        if overwriteAction.None? {
          var response := AwaitUserSelection(Conflict);
          if response.None? {
            return Fail(PromptCancelled);
          }
          action := response.value;
          if action.all {
            context.overwriteAction := Some(action);
          }
        } else {
          action := overwriteAction.value;
        }
      } else {
        action := OverwriteNew;
      }

      if action.action == "skip" {
        return Pass;
      }
      if action.action == "merge" {
        outcome := MergeFiles(e, target);
      } else {
        outcome := Mkdir(Dirname(target));
        if outcome.Fail? {
          return;
        }
        if IsJSONFileType(e.filePath) {
          var data := ParseDocument(e.content, e.filePath, false);
          if data.Err? {
            return Fail(data.error);
          }
          outcome := Write(target, Structured(data.value));
        } else {
          outcome := Write(target, e.content);
        }
      }
    }

    /** One entry of a listing as `walkFiles` handles it: a subdirectory is
        walked on the spot, a file is handed to the callback of
        `initCommand`, which copies it to the destination computed against
        `sourceRoot`. */
    method VisitEntry(dir: string, listing: seq<Tree>, i: nat, sourceRoot: string, context: RunContext)
      returns (outcome: Outcome)
      requires i < |listing|
      modifies this, context
      ensures var s := Run(old(State(context)), Walk(dir, [listing[i]]), root, sourceRoot);
        State(context) == s.world && outcome == s.outcome
      decreases listing, 0
    {
      WalkSingle(dir, listing[i]);
      match listing[i] {
        case Directory(name, children) =>
          outcome := WalkFiles(Join(dir, name), children, sourceRoot, context);
        case File(name, content) =>
          var filePath := Join(dir, name);
          var targetFilePath := GetDestinationPath(root, sourceRoot, filePath);
          var e := Entry(dir, name, filePath, content);
          RunSingle(State(context), e, root, sourceRoot);
          outcome := CopyFile(context, e, targetFilePath);
      }
    }

    /** `walkFiles(dir, callback)` with the callback of `initCommand`: every
        file found is copied to its destination under `root`, computed against
        `sourceRoot`, in listing order and depth first. The walk stops at the
        first failure. */
    method WalkFiles(dir: string, listing: seq<Tree>, sourceRoot: string, context: RunContext)
      returns (outcome: Outcome)
      modifies this, context
      ensures var s := Run(old(State(context)), Walk(dir, listing), root, sourceRoot);
        State(context) == s.world && outcome == s.outcome
      decreases listing, 1
    {
      ghost var w0 := State(context);
      var i := 0;
      while i < |listing|
        invariant 0 <= i <= |listing|
        invariant Run(w0, Walk(dir, listing[..i]), root, sourceRoot) == Step(State(context), Pass)
      {
        ghost var before := State(context);
        outcome := VisitEntry(dir, listing, i, sourceRoot, context);
        WalkStep(w0, dir, listing, i, before, Step(State(context), outcome), root, sourceRoot);
        if outcome.Fail? {
          return;
        }
        i := i + 1;
      }
      assert listing[..i] == listing;
      outcome := Pass;
    }

    /** `initCommand({ template })`: one fresh run context for the whole walk
        of the template directory. */
    method InitCommand(template: string) returns (outcome: Outcome)
      modifies this
      ensures var s := Init(old(fs), old(answers), sources, templatePath, template, root);
        fs == s.world.fs && answers == s.world.answers && outcome == s.outcome
    {
      var sourceRoot := Join(templatePath, template);
      var context := new RunContext();
      if sourceRoot !in sources {
        return Fail(NotFound(sourceRoot));
      }
      match sources[sourceRoot] {
        case File(_, _) =>
          return Fail(NotADirectory(sourceRoot));
        case Directory(_, children) =>
          outcome := WalkFiles(sourceRoot, children, sourceRoot, context);
      }
    }
  }

  /** `new ProjectCommand(args)`: the checks, then the object. */
  method NewProjectCommand(args: Args, fs: FileSystem, sources: map<string, Tree>, answers: seq<Action>)
    returns (r: Result<ProjectCommand>)
    ensures r.Ok? <==> CheckArgs(args, fs).Pass?
    ensures r.Err? ==> CheckArgs(args, fs) == Fail(r.error)
    ensures r.Ok? ==>
      && fresh(r.value)
      && r.value.root == args.root.value && r.value.templatePath == args.templatePath.value
      && r.value.fs == fs && r.value.sources == sources && r.value.answers == answers
  {
    var check := CheckArgs(args, fs);
    if check.Fail? {
      return Err(check.error);
    }
    var command := new ProjectCommand(args, fs, sources, answers);
    r := Ok(command);
  }
}
