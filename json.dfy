/** Parsed JSON documents and the two operations `ProjectCommand` performs on
    them: cleaning the reserved key off a loaded document, and the key-by-key
    merge of a template document into a target document. */
module Json {
  import opened Common


  /** A JSON value. Numbers are modelled as integers. */
  datatype Value =
    | Null
    | Bool(b: bool)
    | Number(n: int)
    | Str(s: string)
    | Array(items: seq<Value>)
    | Object(fields: map<string, Value>)

  /** A top-level JSON object. */
  type Document = map<string, Value>

  /** The reserved key holding the merge exclusion list. */
  const ExcludeKeysKey: string := "__templateMergeExcludeKeys"

  /** The values JavaScript treats as false in `a || b`. */
  predicate Falsy(v: Value) {
    v == Null || v == Bool(false) || v == Number(0) || v == Str("")
  }

  /** The cleaning step of `loadJSON`: `delete data['__templateMergeExcludeKeys']`
      unless `skipClean` is `true`. */
  function Clean(data: Document, skipClean: bool): (r: Document)
    ensures skipClean ==> r == data
    ensures !skipClean ==> ExcludeKeysKey !in r
    ensures forall k :: k in r <==> k in data && (skipClean || k != ExcludeKeysKey)
    ensures forall k :: k in r ==> r[k] == data[k]
  {
    if skipClean then data else data - {ExcludeKeysKey}
  }

  /** Cleaning twice is cleaning once, and a document without the reserved key is left alone. */
  lemma CleanIdempotent(data: Document)
    ensures Clean(Clean(data, false), false) == Clean(data, false)
    ensures ExcludeKeysKey !in data ==> Clean(data, false) == data
  {
    assert ExcludeKeysKey !in data ==> data - {ExcludeKeysKey} == data;
  }

  /** What `templateExcludeKeys.indexOf(key)` can search, for the value
      `data2['__templateMergeExcludeKeys'] || []`. */
  datatype Excludes =
    | Listed(items: seq<Value>)     // an array: `indexOf` compares elements with `===`
    | Text(text: string)            // a string: `indexOf` searches for a substring
    | Unsearchable                  // any other truthy value: `indexOf` is not a function

  function ExcludesOf(data: Document): (ex: Excludes)
    ensures ExcludeKeysKey !in data ==> ex == Listed([])
    ensures ExcludeKeysKey in data && Falsy(data[ExcludeKeysKey]) ==> ex == Listed([])
    ensures ExcludeKeysKey in data && data[ExcludeKeysKey].Array? ==> ex == Listed(data[ExcludeKeysKey].items)
    ensures ExcludeKeysKey in data && data[ExcludeKeysKey].Str? && data[ExcludeKeysKey].s != "" ==>
      ex == Text(data[ExcludeKeysKey].s)
    ensures ex.Unsearchable? <==>
      && ExcludeKeysKey in data && !Falsy(data[ExcludeKeysKey])
      && !data[ExcludeKeysKey].Array? && !data[ExcludeKeysKey].Str?
  {
    if ExcludeKeysKey !in data || Falsy(data[ExcludeKeysKey]) then Listed([])
    else match data[ExcludeKeysKey]
      case Array(items) => Listed(items)
      case Str(s) => Text(s)
      case _ => Unsearchable
  }

  /** `k` occurs in `s` starting at index `i`. */
  predicate OccursAt(k: string, s: string, i: int) {
    0 <= i && i + |k| <= |s| && s[i..i + |k|] == k
  }

  /** `s.indexOf(k) >= 0`. */
  predicate IsSubstring(k: string, s: string) {
    exists i | 0 <= i <= |s| - |k| :: OccursAt(k, s, i)
  }

  /** `templateExcludeKeys.indexOf(key) >= 0`. */
  predicate Excluded(ex: Excludes, key: string) {
    match ex
    case Listed(items) => Str(key) in items
    case Text(s) => IsSubstring(key, s)
    case Unsearchable => false
  }

  /** The value `data1` holds once the keys in `done` (keys of `data2`) have
      been processed: each such key takes `data2`'s value unless `data1`
      already had it and it is excluded. */
  function MergedOver(data1: Document, data2: Document, ex: Excludes, done: set<string>): Document
    requires done <= data2.Keys
  {
    map k | k in data1.Keys + done ::
      if k in done && !(k in data1 && Excluded(ex, k)) then data2[k] else data1[k]
  }

  /** The result of `mergeJSONStructures(data1, data2)`. It throws exactly
      when the exclusion value cannot be searched and some key is shared, since
      `hasOwnProperty` is tested before `indexOf` is called. */
  function MergeOutcome(data1: Document, data2: Document): Result<Document> {
    var ex := ExcludesOf(data2);
    if ex.Unsearchable? && data1.Keys * data2.Keys != {} then Err(NotAFunction("indexOf"))
    else Ok(MergedOver(data1, data2, ex, data2.Keys))
  }

  /** `mergeJSONStructures`: visit every key of `data2` and write its value into
      `data1` unless `data1` has the key and `data2`'s exclusion list names it.
      `data1` is the caller's fresh load, so the in-place update is modelled
      on a local copy of it that is returned. */
  method MergeStructures(data1: Document, data2: Document) returns (r: Result<Document>)
    ensures r == MergeOutcome(data1, data2)
  {
    var ex := ExcludesOf(data2);
    var merged := data1;
    var pending := data2.Keys;
    while pending != {}
      invariant pending <= data2.Keys
      invariant merged == MergedOver(data1, data2, ex, data2.Keys - pending)
      invariant ex.Unsearchable? ==> data1.Keys * (data2.Keys - pending) == {}
      decreases pending
    {
      var key :| key in pending;
      pending := pending - {key};
      if key in merged {
        if ex.Unsearchable? {
          assert key in data1.Keys * data2.Keys;
          return Err(NotAFunction("indexOf"));
        }
        if Excluded(ex, key) {
          assert merged == MergedOver(data1, data2, ex, data2.Keys - pending);
          continue;
        }
      }
      merged := merged[key := data2[key]];
    }
    assert data2.Keys - pending == data2.Keys;
    return Ok(merged);
  }

  /** The merge throws exactly when the exclusion value is truthy but neither
      an array nor a string, and the two documents share a key. */
  lemma MergeFailsIff(data1: Document, data2: Document)
    ensures MergeOutcome(data1, data2).Err? <==>
      && ExcludeKeysKey in data2
      && !Falsy(data2[ExcludeKeysKey])
      && !data2[ExcludeKeysKey].Array?
      && !data2[ExcludeKeysKey].Str?
      && (exists k :: k in data1 && k in data2)
  {
    if exists k :: k in data1 && k in data2 {
      var k :| k in data1 && k in data2;
      assert k in data1.Keys * data2.Keys;
    }
  }

  /** Keys and values of a successful merge: the key set is the union; a key
      of `data2` takes `data2`'s value unless `data1` has it and it is excluded,
      in which case `data1`'s value stays; keys only in `data1` are untouched. */
  lemma MergeKeysAndValues(data1: Document, data2: Document)
    requires MergeOutcome(data1, data2).Ok?
    ensures var r := MergeOutcome(data1, data2).value;
      && r.Keys == data1.Keys + data2.Keys
      && (forall k :: k in data2 && !(k in data1 && Excluded(ExcludesOf(data2), k)) ==> r[k] == data2[k])
      && (forall k :: k in data2 && k in data1 && Excluded(ExcludesOf(data2), k) ==> r[k] == data1[k])
      && (forall k :: k in data1 && k !in data2 ==> r[k] == data1[k])
  {
  }

  /** As `mergeFiles` calls it, with a cleaned template and a raw target, the
      target's own exclusion list is copied into the document written back. */
  lemma MergeWritesBackExcludeList(template: Document, target: Document)
    requires ExcludeKeysKey in target
    requires MergeOutcome(Clean(template, false), target).Ok?
    ensures var r := MergeOutcome(Clean(template, false), target).value;
      ExcludeKeysKey in r && r[ExcludeKeysKey] == target[ExcludeKeysKey]
  {
  }

  /** Merging the cleaned form of a document with the raw document gives the
      raw document back, unless its exclusion value is unsearchable and it has
      another key. */
  lemma MergeCleanedWithRaw(d: Document)
    ensures MergeOutcome(Clean(d, false), d) ==
      if ExcludesOf(d).Unsearchable? && d.Keys - {ExcludeKeysKey} != {} then Err(NotAFunction("indexOf"))
      else Ok(d)
  {
    var c := Clean(d, false);
    assert c.Keys * d.Keys == d.Keys - {ExcludeKeysKey};
    var m := MergedOver(c, d, ExcludesOf(d), d.Keys);
    assert m == d;
  }

  /** A document merged with itself is unchanged, whatever its exclusion list,
      unless the merge throws. */
  lemma MergeSelf(d: Document)
    requires !ExcludesOf(d).Unsearchable?
    ensures MergeOutcome(d, d) == Ok(d)
  {
    var m := MergedOver(d, d, ExcludesOf(d), d.Keys);
    assert m == d;
  }

  /** A template `{a: 9, b: 9, c: 9}` merged with a target
      `{a: 1, b: 2, __templateMergeExcludeKeys: ["b"]}`: the target wins on
      `a`, the template keeps `b` because the target excludes it, `c` stays,
      and the target's exclusion list is carried over. */
  lemma MergeExample()
    ensures MergeOutcome(
        map["a" := Number(9), "b" := Number(9), "c" := Number(9)],
        map["a" := Number(1), "b" := Number(2), ExcludeKeysKey := Array([Str("b")])])
      == Ok(map["a" := Number(1), "b" := Number(9), "c" := Number(9), ExcludeKeysKey := Array([Str("b")])])
  {
    var t := map["a" := Number(9), "b" := Number(9), "c" := Number(9)];
    var g := map["a" := Number(1), "b" := Number(2), ExcludeKeysKey := Array([Str("b")])];
    assert ExcludesOf(g) == Listed([Str("b")]);
    assert !Excluded(Listed([Str("b")]), "a");
    assert ExcludeKeysKey != "a" && ExcludeKeysKey != "b" && ExcludeKeysKey != "c";
    var m := MergedOver(t, g, ExcludesOf(g), g.Keys);
    assert m.Keys == {"a", "b", "c", ExcludeKeysKey};
    assert m == map["a" := Number(1), "b" := Number(9), "c" := Number(9), ExcludeKeysKey := Array([Str("b")])];
  }

  /** A non-empty string exclusion value excludes exactly the shared keys
      that occur in it as a substring, as `String.prototype.indexOf` finds
      them: those keep the template's value, every other key of the target
      takes the target's. */
  lemma MergeStringExcludes(data1: Document, data2: Document, s: string)
    requires ExcludeKeysKey in data2 && data2[ExcludeKeysKey] == Str(s) && s != ""
    ensures MergeOutcome(data1, data2).Ok?
    ensures var r := MergeOutcome(data1, data2).value;
      && (forall k :: k in data1 && k in data2 && IsSubstring(k, s) ==> r[k] == data1[k])
      && (forall k :: k in data2 && !(k in data1 && IsSubstring(k, s)) ==> r[k] == data2[k])
  {
    assert ExcludesOf(data2) == Text(s);
  }

  /** With the string `"abc"` as exclusion value, both `ab` and `b` are excluded. */
  lemma MergeStringExample()
    ensures MergeOutcome(
        map["ab" := Number(1), "b" := Number(1)],
        map["ab" := Number(2), "b" := Number(2), ExcludeKeysKey := Str("abc")])
      == Ok(map["ab" := Number(1), "b" := Number(1), ExcludeKeysKey := Str("abc")])
  {
    var t := map["ab" := Number(1), "b" := Number(1)];
    var g := map["ab" := Number(2), "b" := Number(2), ExcludeKeysKey := Str("abc")];
    assert ExcludesOf(g) == Text("abc");
    assert OccursAt("ab", "abc", 0) && OccursAt("b", "abc", 1);
    assert Excluded(Text("abc"), "ab") && Excluded(Text("abc"), "b");
    var m := MergedOver(t, g, ExcludesOf(g), g.Keys);
    assert m.Keys == {"ab", "b", ExcludeKeysKey};
    assert m == map["ab" := Number(1), "b" := Number(1), ExcludeKeysKey := Str("abc")];
  }
}
