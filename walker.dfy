/** `walkFiles`: the depth-first walk of a template directory. The template
    is read-only during a run and is given as a tree of named entries in
    directory-listing order. */
module Walker {
  import opened Paths
  import opened Files

  datatype Tree =
    | File(name: string, content: Content)
    | Directory(name: string, children: seq<Tree>)

  /** The argument of the callback: `{ path, fileName, filePath, stat }`,
      with the file's content standing for what `stat` and a read give. */
  datatype Entry = Entry(path: string, fileName: string, filePath: string, content: Content)

  /** The callback invocations, in order, of a walk of directory `dir` whose
      listing is `listing`. */
  function Walk(dir: string, listing: seq<Tree>): seq<Entry>
    decreases listing
  {
    if listing == [] then []
    else
      var first := match listing[0]
        case File(name, content) => [Entry(dir, name, Join(dir, name), content)]
        case Directory(name, children) => Walk(Join(dir, name), children);
      first + Walk(dir, listing[1..])
  }

  function CountFiles(listing: seq<Tree>): nat
    decreases listing
  {
    if listing == [] then 0
    else
      (match listing[0]
        case File(_, _) => 1
        case Directory(_, children) => CountFiles(children))
      + CountFiles(listing[1..])
  }

  /** A single path component: non-empty and free of separators. */
  predicate IsName(name: string) {
    name != "" && forall j :: 0 <= j < |name| ==> name[j] != '/'
  }

  /** Names as `readdirSync` gives them: path components, each listed once. */
  predicate WellNamed(listing: seq<Tree>)
    decreases listing
  {
    listing != [] ==>
      && IsName(listing[0].name)
      && (forall j :: 1 <= j < |listing| ==> listing[j].name != listing[0].name)
      && (listing[0].Directory? ==> WellNamed(listing[0].children))
      && WellNamed(listing[1..])
  }

  /** The walk of a listing is the walk of its first part followed by the
      walk of the rest: entries are visited in listing order, each
      subdirectory completely before its next sibling. */
  lemma {:induction false} WalkAppend(dir: string, a: seq<Tree>, b: seq<Tree>)
    ensures Walk(dir, a + b) == Walk(dir, a) + Walk(dir, b)
    decreases a
  {
    if a == [] {
      assert a + b == b;
    } else {
      assert (a + b)[0] == a[0];
      assert (a + b)[1..] == a[1..] + b;
      WalkAppend(dir, a[1..], b);
    }
  }

  /** The walk of a one-entry listing. */
  lemma WalkSingle(dir: string, t: Tree)
    ensures t.File? ==> Walk(dir, [t]) == [Entry(dir, t.name, Join(dir, t.name), t.content)]
    ensures t.Directory? ==> Walk(dir, [t]) == Walk(Join(dir, t.name), t.children)
  {
    assert [t][1..] == [];
  }

  /** The walk of a listing split around its entry at `i`. */
  lemma WalkSplit(dir: string, listing: seq<Tree>, i: nat)
    requires i < |listing|
    ensures Walk(dir, listing[..i + 1]) == Walk(dir, listing[..i]) + Walk(dir, [listing[i]])
    ensures Walk(dir, listing) == Walk(dir, listing[..i]) + Walk(dir, [listing[i]]) + Walk(dir, listing[i + 1..])
  {
    var front, t, back := listing[..i], listing[i], listing[i + 1..];
    assert listing[..i + 1] == front + [t];
    assert listing == (front + [t]) + back;
    WalkAppend(dir, front, [t]);
    WalkAppend(dir, front + [t], back);
  }

  /** A directory contributes exactly the walk of its own listing, under its path. */
  lemma WalkDirectory(dir: string, before: seq<Tree>, name: string, children: seq<Tree>, after: seq<Tree>)
    ensures Walk(dir, before + [Directory(name, children)] + after)
      == Walk(dir, before) + Walk(Join(dir, name), children) + Walk(dir, after)
  {
    var t := Directory(name, children);
    WalkSingle(dir, t);
    WalkAppend(dir, before + [t], after);
    WalkAppend(dir, before, [t]);
  }

  /** The callback runs once per file, however deep, and never for a directory. */
  lemma {:induction false} WalkCount(dir: string, listing: seq<Tree>)
    ensures |Walk(dir, listing)| == CountFiles(listing)
    decreases listing
  {
    if listing != [] {
      match listing[0] {
        case File(_, _) =>
        case Directory(name, children) => WalkCount(Join(dir, name), children);
      }
      WalkCount(dir, listing[1..]);
    }
  }

  /** A listing made of directories only is walked without a single callback. */
  lemma {:induction false} WalkOnlyDirectories(dir: string, listing: seq<Tree>)
    requires CountFiles(listing) == 0
    ensures Walk(dir, listing) == []
  {
    WalkCount(dir, listing);
  }

  /** `p` lies strictly below directory `dir`. */
  predicate Below(dir: string, p: string) {
    |p| > |dir| + 1 && p[..|dir|] == dir && p[|dir|] == '/' && p[|dir| + 1] != '/'
  }

  lemma BelowTransitive(dir: string, name: string, p: string)
    requires name != "" && name[0] != '/'
    requires Below(dir + "/" + name, p)
    ensures Below(dir, p)
  {
    assert p[..|dir|] == (dir + "/" + name)[..|dir|];
  }

  /** Every visited file path lies below the walked directory, each entry
      names its own directory and file name, and that directory is the walked
      one or lies below it. */
  lemma {:induction false} WalkBelow(dir: string, listing: seq<Tree>)
    requires WellNamed(listing)
    ensures forall e :: e in Walk(dir, listing) ==>
      && Below(dir, e.filePath) && e.filePath == Join(e.path, e.fileName) && IsName(e.fileName)
      && (e.path == dir || Below(dir, e.path))
    decreases listing
  {
    if listing != [] {
      var name := listing[0].name;
      assert DropLeading(name, {'/'}) == name;
      assert Join(dir, name) == dir + "/" + name;
      match listing[0] {
        case File(_, _) =>
        case Directory(_, children) =>
          WalkBelow(Join(dir, name), children);
          forall e | e in Walk(Join(dir, name), children)
            ensures Below(dir, e.filePath) && (e.path == dir || Below(dir, e.path))
          {
            BelowTransitive(dir, name, e.filePath);
            if e.path != Join(dir, name) {
              BelowTransitive(dir, name, e.path);
            }
          }
      }
      WalkBelow(dir, listing[1..]);
    }
  }

  /** `p` is the entry `name` of directory `dir`, or lies below it. */
  predicate Under(dir: string, name: string, p: string) {
    p == dir + "/" + name || Below(dir + "/" + name, p)
  }

  /** Below `dir`, a path under the entry `name` spells `name` as its next
      component, which ends the path or is followed by a separator. */
  lemma UnderComponent(dir: string, name: string, p: string)
    requires Under(dir, name, p)
    ensures var a := |dir| + 1;
      && a + |name| <= |p| && p[a..a + |name|] == name
      && (a + |name| == |p| || p[a + |name|] == '/')
  {
    var a := |dir| + 1;
    assert p[..a + |name|] == dir + "/" + name;
    assert p[..a + |name|][a..] == name;
  }

  /** Two different entries of one directory have nothing below them in common. */
  lemma UnderDisjoint(dir: string, n: string, m: string, p: string)
    requires IsName(n) && IsName(m) && n != m
    requires Under(dir, n, p)
    ensures !Under(dir, m, p)
  {
    UnderComponent(dir, n, p);
    if Under(dir, m, p) {
      UnderComponent(dir, m, p);
    }
  }

  /** No file path of the walk is visited twice, and none is the directory of
      a visited entry. */
  predicate Separate(entries: seq<Entry>) {
    && (forall i, j :: 0 <= i < j < |entries| ==> entries[i].filePath != entries[j].filePath)
    && (forall i, j :: 0 <= i < |entries| && 0 <= j < |entries| ==> entries[i].filePath != entries[j].path)
  }

  lemma SeparateAppend(a: seq<Entry>, b: seq<Entry>)
    requires Separate(a) && Separate(b)
    requires forall e, f :: e in a && f in b ==>
      e.filePath != f.filePath && e.filePath != f.path && f.filePath != e.path
    ensures Separate(a + b)
  {
    var c := a + b;
    forall i, j | 0 <= i < |c| && 0 <= j < |c|
      ensures c[i].filePath != c[j].path
      ensures i < j ==> c[i].filePath != c[j].filePath
    {
      if i < |a| && j >= |a| {
        assert c[i] in a && c[j] in b;
      } else if i >= |a| && j < |a| {
        assert c[j] in a && c[i] in b;
      }
    }
  }

  /** A listing whose names all differ from `n` is walked without touching
      anything under the entry `n`. */
  lemma {:induction false} WalkAvoids(dir: string, listing: seq<Tree>, n: string)
    requires WellNamed(listing) && IsName(n)
    requires forall j :: 0 <= j < |listing| ==> listing[j].name != n
    ensures forall e :: e in Walk(dir, listing) ==>
      !Under(dir, n, e.filePath) && (e.path == dir || !Under(dir, n, e.path))
    decreases listing
  {
    if listing != [] {
      var m := listing[0].name;
      assert Join(dir, m) == dir + "/" + m by {
        assert DropLeading(m, {'/'}) == m;
      }
      WalkSingle(dir, listing[0]);
      forall e | e in Walk(dir, [listing[0]])
        ensures !Under(dir, n, e.filePath) && (e.path == dir || !Under(dir, n, e.path))
      {
        if listing[0].Directory? {
          WalkBelow(Join(dir, m), listing[0].children);
          UnderDisjoint(dir, m, n, e.filePath);
          if e.path != dir {
            UnderDisjoint(dir, m, n, e.path);
          }
        } else {
          UnderDisjoint(dir, m, n, e.filePath);
        }
      }
      WalkAvoids(dir, listing[1..], n);
      assert Walk(dir, listing) == Walk(dir, [listing[0]]) + Walk(dir, listing[1..]);
    }
  }

  /** Names listed once make every file path of the walk distinct, and no
      file path is the directory of another entry. */
  lemma {:induction false} WalkSeparate(dir: string, listing: seq<Tree>)
    requires WellNamed(listing)
    ensures Separate(Walk(dir, listing))
    decreases listing
  {
    if listing != [] {
      var n := listing[0].name;
      var a := Walk(dir, [listing[0]]);
      var b := Walk(dir, listing[1..]);
      assert Walk(dir, listing) == a + b by {
        WalkSingle(dir, listing[0]);
      }
      assert Join(dir, n) == dir + "/" + n by {
        assert DropLeading(n, {'/'}) == n;
      }
      WalkSingle(dir, listing[0]);
      match listing[0] {
        case File(_, _) =>
          assert |a[0].filePath| > |a[0].path|;
        case Directory(_, children) =>
          WalkSeparate(Join(dir, n), children);
          WalkBelow(Join(dir, n), children);
      }
      assert forall e :: e in a ==> Under(dir, n, e.filePath) && (e.path == dir || Under(dir, n, e.path));
      WalkSeparate(dir, listing[1..]);
      WalkAvoids(dir, listing[1..], n);
      WalkBelow(dir, listing);
      forall e, f | e in a && f in b
        ensures e.filePath != f.filePath && e.filePath != f.path && f.filePath != e.path
      {
        assert e in Walk(dir, listing) && f in Walk(dir, listing);
      }
      SeparateAppend(a, b);
    }
  }

  /** The destination of a path below the source root. */
  lemma DestinationBelow(root: string, sourceRoot: string, p: string)
    requires Below(sourceRoot, p)
    ensures GetDestinationPath(root, sourceRoot, p) == root + "/" + p[|sourceRoot| + 1..]
  {
    var rel := p[|sourceRoot| + 1..];
    assert DropLeading(rel, {'/'}) == rel;
    assert p == sourceRoot + "/" + rel;
    DestinationOfJoin(root, sourceRoot, rel);
  }

  /** Walking `sourceRoot`, every file's destination is the same relative path
      under `root`: the destination tree mirrors the template tree. */
  lemma WalkDestinations(root: string, sourceRoot: string, listing: seq<Tree>)
    requires PlainDirectory(sourceRoot) && WellNamed(listing)
    ensures forall e :: e in Walk(sourceRoot, listing) ==>
      && Below(sourceRoot, e.filePath)
      && GetDestinationPath(root, sourceRoot, e.filePath) == root + "/" + e.filePath[|sourceRoot| + 1..]
  {
    WalkBelow(sourceRoot, listing);
    forall e | e in Walk(sourceRoot, listing)
      ensures GetDestinationPath(root, sourceRoot, e.filePath) == root + "/" + e.filePath[|sourceRoot| + 1..]
    {
      DestinationBelow(root, sourceRoot, e.filePath);
    }
  }

  /** The destination of the template path `p`, which is the source root
      itself or lies below it: the same relative path under `root`. */
  function MirrorPath(root: string, sourceRoot: string, p: string): string
    requires p == sourceRoot || Below(sourceRoot, p)
  {
    if p == sourceRoot then root else root + "/" + p[|sourceRoot| + 1..]
  }

  lemma MirrorOfJoin(root: string, sourceRoot: string, q: string, name: string)
    requires q == sourceRoot || Below(sourceRoot, q)
    requires IsName(name)
    ensures Below(sourceRoot, Join(q, name))
    ensures MirrorPath(root, sourceRoot, Join(q, name)) == Join(MirrorPath(root, sourceRoot, q), name)
  {
    JoinRelative(q, name);
    JoinRelative(MirrorPath(root, sourceRoot, q), name);
    var p := q + "/" + name;
    assert p[..|sourceRoot|] == q[..|sourceRoot|];
    if q != sourceRoot {
      assert p[|sourceRoot| + 1..] == q[|sourceRoot| + 1..] + "/" + name;
    } else {
      assert p[|sourceRoot| + 1..] == name;
    }
  }

  /** Different template paths have different destinations. */
  lemma MirrorInjective(root: string, sourceRoot: string, p: string, q: string)
    requires p == sourceRoot || Below(sourceRoot, p)
    requires q == sourceRoot || Below(sourceRoot, q)
    requires p != q
    ensures MirrorPath(root, sourceRoot, p) != MirrorPath(root, sourceRoot, q)
  {
    if p != sourceRoot && q != sourceRoot {
      var tp, tq := p[|sourceRoot| + 1..], q[|sourceRoot| + 1..];
      assert p == sourceRoot + "/" + tp && q == sourceRoot + "/" + tq;
      assert (root + "/" + tp)[|root| + 1..] == tp;
      assert (root + "/" + tq)[|root| + 1..] == tq;
    }
  }

  /** A mirrored path is `root` or lies below it. */
  lemma MirrorBelow(root: string, sourceRoot: string, p: string)
    requires root != "" && (p == sourceRoot || Below(sourceRoot, p))
    ensures var m := MirrorPath(root, sourceRoot, p); m != "" && (m == root || Below(root, m))
    ensures p != sourceRoot ==> Below(root, MirrorPath(root, sourceRoot, p))
  {
    if p != sourceRoot {
      var m := root + "/" + p[|sourceRoot| + 1..];
      assert m[..|root|] == root;
    }
  }

  /** Where one visited file goes, and the directory that is made for it. */
  lemma EntryTarget(root: string, sourceRoot: string, e: Entry)
    requires root != ""
    requires Below(sourceRoot, e.filePath) && e.filePath == Join(e.path, e.fileName) && IsName(e.fileName)
    requires e.path == sourceRoot || Below(sourceRoot, e.path)
    ensures var t := GetDestinationPath(root, sourceRoot, e.filePath);
      && t == MirrorPath(root, sourceRoot, e.filePath)
      && Dirname(t) == MirrorPath(root, sourceRoot, e.path)
      && Below(root, t)
      && (Dirname(t) == root || Below(root, Dirname(t)))
  {
    DestinationBelow(root, sourceRoot, e.filePath);
    MirrorOfJoin(root, sourceRoot, e.path, e.fileName);
    MirrorBelow(root, sourceRoot, e.path);
    MirrorBelow(root, sourceRoot, e.filePath);
    DirnameOfJoin(MirrorPath(root, sourceRoot, e.path), e.fileName);
  }

  /** Walking the source root, distinct files get distinct destinations, no
      destination is the directory made for another file, and all of them
      lie below `root`. */
  lemma WalkTargets(root: string, sourceRoot: string, listing: seq<Tree>)
    requires PlainDirectory(sourceRoot)
    requires root != "" && WellNamed(listing)
    ensures var es := Walk(sourceRoot, listing);
      && (forall i, j :: 0 <= i < j < |es| ==>
            GetDestinationPath(root, sourceRoot, es[i].filePath) != GetDestinationPath(root, sourceRoot, es[j].filePath))
      && (forall i, j :: 0 <= i < |es| && 0 <= j < |es| ==>
            GetDestinationPath(root, sourceRoot, es[i].filePath) != Dirname(GetDestinationPath(root, sourceRoot, es[j].filePath)))
      && (forall i :: 0 <= i < |es| ==> Below(root, GetDestinationPath(root, sourceRoot, es[i].filePath)))
      && (forall i :: 0 <= i < |es| ==>
            var d := Dirname(GetDestinationPath(root, sourceRoot, es[i].filePath)); d == root || Below(root, d))
  {
    var es := Walk(sourceRoot, listing);
    WalkBelow(sourceRoot, listing);
    WalkSeparate(sourceRoot, listing);
    forall i | 0 <= i < |es|
      ensures Below(sourceRoot, es[i].filePath) && (es[i].path == sourceRoot || Below(sourceRoot, es[i].path))
      ensures GetDestinationPath(root, sourceRoot, es[i].filePath) == MirrorPath(root, sourceRoot, es[i].filePath)
      ensures Dirname(GetDestinationPath(root, sourceRoot, es[i].filePath)) == MirrorPath(root, sourceRoot, es[i].path)
      ensures Below(root, GetDestinationPath(root, sourceRoot, es[i].filePath))
      ensures var d := Dirname(GetDestinationPath(root, sourceRoot, es[i].filePath)); d == root || Below(root, d)
    {
      assert es[i] in es;
      EntryTarget(root, sourceRoot, es[i]);
    }
    forall i, j | 0 <= i < |es| && 0 <= j < |es|
      ensures i < j ==>
        GetDestinationPath(root, sourceRoot, es[i].filePath) != GetDestinationPath(root, sourceRoot, es[j].filePath)
      ensures GetDestinationPath(root, sourceRoot, es[i].filePath) != Dirname(GetDestinationPath(root, sourceRoot, es[j].filePath))
    {
      if i < j {
        MirrorInjective(root, sourceRoot, es[i].filePath, es[j].filePath);
      }
      MirrorInjective(root, sourceRoot, es[i].filePath, es[j].path);
    }
  }
}
