/** The string and path operations `ProjectCommand` applies to file paths:
    the `.json` test, the extension shown in the merge error, and the
    computation of a file's destination under the project root. Paths are
    strings with `/` as the separator. */
module Paths {

  /** The case folding of a regular expression with the `i` flag and of
      `toLowerCase` on ASCII text: `A`..`Z` become `a`..`z`. */
  function LowerAscii(c: char): char {
    if 'A' <= c <= 'Z' then (c as int + 32) as char else c
  }

  function Lower(s: string): string {
    seq(|s|, i requires 0 <= i < |s| => LowerAscii(s[i]))
  }

  /** `/\.json$/i.test(filePath)`. */
  predicate IsJSONFileType(filePath: string) {
    |filePath| >= 5 && Lower(filePath[|filePath| - 5..]) == ".json"
  }

  /** The test spelled out character by character: the path ends with a dot
      followed by `json` in any mixture of upper and lower case. */
  lemma IsJSONFileTypeSpelled(p: string)
    ensures IsJSONFileType(p) <==>
      && |p| >= 5
      && p[|p| - 5] == '.'
      && p[|p| - 4] in "jJ"
      && p[|p| - 3] in "sS"
      && p[|p| - 2] in "oO"
      && p[|p| - 1] in "nN"
  {
    if |p| >= 5 {
      var tail := p[|p| - 5..];
      var low := Lower(tail);
      assert |low| == 5;
      assert low == ".json" <==>
        low[0] == '.' && low[1] == 'j' && low[2] == 's' && low[3] == 'o' && low[4] == 'n';
      assert forall i :: 0 <= i < 5 ==> low[i] == LowerAscii(p[|p| - 5 + i]);
    }
  }

  /** Whatever precedes `.json` is irrelevant, in either case. */
  lemma JSONSuffixes(s: string)
    ensures IsJSONFileType(s + ".json") && IsJSONFileType(s + ".JSON")
    ensures !IsJSONFileType(s + ".jsonc") && !IsJSONFileType(s + ".json5")
  {
    IsJSONFileTypeSpelled(s + ".json");
    IsJSONFileTypeSpelled(s + ".JSON");
    IsJSONFileTypeSpelled(s + ".jsonc");
    IsJSONFileTypeSpelled(s + ".json5");
  }

  /** The index of the last occurrence of `c` in `s`, or -1. */
  function LastIndexOf(s: string, c: char): (r: int)
    ensures -1 <= r < |s|
    ensures r >= 0 ==> s[r] == c
    ensures forall j :: r < j < |s| ==> s[j] != c
  {
    if s == [] then -1
    else if s[|s| - 1] == c then |s| - 1
    else LastIndexOf(s[..|s| - 1], c)
  }

  /** `s.replace(/^[<cs>]+/, '')`: the longest prefix drawn from `cs` is removed. */
  function DropLeading(s: string, cs: set<char>): string {
    if s != [] && s[0] in cs then DropLeading(s[1..], cs) else s
  }

  /** What `DropLeading` removes is a prefix made of `cs` only, and what it
      keeps does not start with one of `cs`. */
  lemma {:induction false} DropLeadingSuffix(s: string, cs: set<char>)
    ensures var r := DropLeading(s, cs);
      && |r| <= |s| && r == s[|s| - |r|..]
      && (r == [] || r[0] !in cs)
      && (forall j :: 0 <= j < |s| - |r| ==> s[j] in cs)
    decreases s
  {
    if s != [] && s[0] in cs {
      DropLeadingSuffix(s[1..], cs);
    }
  }

  lemma {:induction false} DropLeadingPrefix(junk: string, rest: string, cs: set<char>)
    requires forall j :: 0 <= j < |junk| ==> junk[j] in cs
    requires rest == [] || rest[0] !in cs
    ensures DropLeading(junk + rest, cs) == rest
  {
    if junk != [] {
      assert (junk + rest)[1..] == junk[1..] + rest;
      DropLeadingPrefix(junk[1..], rest, cs);
    } else {
      assert junk + rest == rest;
    }
  }

  /** `s.substring(start)`: empty when `start` is past the end. */
  function Substring(s: string, start: nat): (r: string)
    ensures start <= |s| ==> s == s[..start] + r
    ensures start >= |s| ==> r == ""
  {
    if start >= |s| then "" else s[start..]
  }

  /** `Path.join(a, b)` for a relative `b`, with separators collapsed at the joint. */
  function Join(a: string, b: string): string {
    var tail := DropLeading(b, {'/'});
    if tail == "" then a else a + "/" + tail
  }

  /** A join is `a` itself, or `a`, one separator, and a suffix of `b` that
      does not start with a separator. */
  lemma JoinShape(a: string, b: string)
    ensures var r := Join(a, b);
      r == a || (
        var tail := r[|a| + 1..];
        && r[..|a| + 1] == a + "/" && tail != "" && tail[0] != '/'
        && |tail| <= |b| && tail == b[|b| - |tail|..])
  {
    DropLeadingSuffix(b, {'/'});
    var tail := DropLeading(b, {'/'});
    assert (a + "/" + tail)[|a| + 1..] == tail;
  }

  /** `Path.dirname(p)`: everything before the last separator. */
  function Dirname(p: string): string {
    var i := LastIndexOf(p, '/');
    if i < 0 then "." else if i == 0 then "/" else p[..i]
  }

  /** A directory name is `.` for a path without separator; otherwise it is
      `/` or the part of the path before its last separator. */
  lemma DirnameShape(p: string)
    ensures '/' !in p ==> Dirname(p) == "."
    ensures var r := Dirname(p);
      r == "." || r == "/" || (0 < |r| < |p| && r == p[..|r|] && p[|r|] == '/' && '/' !in p[|r| + 1..])
  {
    var i := LastIndexOf(p, '/');
    if i > 0 {
      var after := p[i + 1..];
      assert forall k :: 0 <= k < |after| ==> after[k] == p[i + 1 + k];
    }
  }

  /** The directory an entry is joined into is the entry's parent. */
  lemma DirnameOfJoin(dir: string, name: string)
    requires dir != "" && name != ""
    requires forall j :: 0 <= j < |name| ==> name[j] != '/'
    ensures Dirname(Join(dir, name)) == dir
  {
    assert DropLeading(name, {'/'}) == name;
    var p := dir + "/" + name;
    assert p[|dir|] == '/';
    assert forall j :: |dir| < j < |p| ==> p[j] == name[j - |dir| - 1];
    assert LastIndexOf(p, '/') == |dir|;
    assert p[..|dir|] == dir;
  }

  predicate IsExtensionChar(c: char) {
    || 'a' <= c <= 'z' || 'A' <= c <= 'Z' || '0' <= c <= '9' || c == '_' || c == '-'
  }

  /** The characters `.` in a JavaScript regular expression does not match. */
  predicate IsLineTerminator(c: char) {
    c == '\n' || c == '\r' || c == '\U{2028}' || c == '\U{2029}'
  }

  /** `/^.*?(\.[\w-]+)$/` matches with its group starting at index `i`. */
  predicate ExtensionAt(p: string, i: int) {
    && 0 <= i < |p| - 1
    && p[i] == '.'
    && (forall j :: i < j < |p| ==> IsExtensionChar(p[j]))
    && (forall j :: 0 <= j < i ==> !IsLineTerminator(p[j]))
  }

  /** `filePath.replace(/^.*?(\.[\w-]+)$/, '$1')`, the file type named in the
      merge error: the final extension, or the whole path when there is none. */
  function ErrorExtension(p: string): (r: string)
    ensures |r| <= |p| && r == p[|p| - |r|..]
  {
    var i := LastIndexOf(p, '.');
    if i >= 0 && ExtensionAt(p, i) then p[i..] else p
  }

  /** When the pattern matches, the extension is the matched group. */
  lemma ErrorExtensionMatched(p: string, i: int)
    requires ExtensionAt(p, i)
    ensures ErrorExtension(p) == p[i..]
  {
    var k := LastIndexOf(p, '.');
    assert k >= i;
    assert !IsExtensionChar('.');
  }

  /** When the pattern does not match, `replace` leaves the path as it is. */
  lemma ErrorExtensionUnmatched(p: string)
    requires forall i :: !ExtensionAt(p, i)
    ensures ErrorExtension(p) == p
  {
  }

  /** A directory path as `Path.join` yields it for a template name without
      a trailing separator: non-empty, and not ending in `/`. On such a path
      `Join` puts exactly the separator that `Path.join` puts. */
  predicate PlainDirectory(p: string) {
    p != "" && p[|p| - 1] != '/'
  }

  /** `getDestinationPath`: drop the first `|sourceRoot|` characters, then
      any leading run of `.` and `\`, and join the rest under `root`. */
  function GetDestinationPath(root: string, sourceRoot: string, filePath: string): string {
    Join(root, DropLeading(Substring(filePath, |sourceRoot|), {'.', '\\'}))
  }

  /** Every destination is the root itself or a path below it. */
  lemma DestinationUnderRoot(root: string, sourceRoot: string, filePath: string)
    ensures var r := GetDestinationPath(root, sourceRoot, filePath);
      r == root || (|r| > |root| + 1 && r[..|root| + 1] == root + "/" && r[|root| + 1] != '/')
  {
    JoinShape(root, DropLeading(Substring(filePath, |sourceRoot|), {'.', '\\'}));
  }

  /** Whatever run of dots and backslashes follows the source root is dropped. */
  lemma DestinationDropsDotsAndBackslashes(root: string, sourceRoot: string, junk: string, rest: string)
    requires forall j :: 0 <= j < |junk| ==> junk[j] == '.' || junk[j] == '\\'
    requires rest == [] || (rest[0] != '.' && rest[0] != '\\')
    ensures GetDestinationPath(root, sourceRoot, sourceRoot + junk + rest) == Join(root, rest)
  {
    var p := sourceRoot + junk + rest;
    assert p[|sourceRoot|..] == junk + rest;
    DropLeadingPrefix(junk, rest, {'.', '\\'});
  }

  /** The first character of a path is dropped exactly when it is one of `cs`. */
  lemma DropLeadingFirst(s: string, cs: set<char>)
    requires s != []
    ensures DropLeading(s, cs) == if s[0] in cs then DropLeading(s[1..], cs) else s
  {
  }

  /** Joining a name that does not start with a separator puts one separator between. */
  lemma JoinRelative(a: string, b: string)
    requires b != "" && b[0] != '/'
    ensures Join(a, b) == a + "/" + b
  {
    assert DropLeading(b, {'/'}) == b;
  }

  lemma SubstringAfter(a: string, b: string)
    ensures Substring(a + b, |a|) == b
  {
    assert (a + b)[|a|..] == b;
  }

  /** A file joined under the source root lands at the same relative path under `root`. */
  lemma DestinationOfJoin(root: string, sourceRoot: string, rel: string)
    requires rel != "" && rel[0] != '/'
    ensures GetDestinationPath(root, sourceRoot, Join(sourceRoot, rel)) == Join(root, rel)
  {
    var slashed := "/" + rel;
    JoinRelative(sourceRoot, rel);
    JoinRelative(root, rel);
    assert sourceRoot + "/" + rel == sourceRoot + slashed;
    SubstringAfter(sourceRoot, slashed);
    assert slashed[0] == '/' && slashed[1..] == rel;
    DropLeadingFirst(slashed, {'.', '\\'});
    DropLeadingFirst(slashed, {'/'});
    assert DropLeading(rel, {'/'}) == rel;
  }
}
