/**
 * The rustdoc normaliser: turns the rustdoc JSON tree (sections `index`, `paths`
 * and `root`) into a flat catalog of documented items keyed by their `::`-joined
 * full path, and derives the crate name used for the JSON output file.
 */
module Rustdoc {
  import opened Wrappers
  import opened Json
  import opened Collections

  /** One documented item. `path` is the module path to the item, without its own name. */
  datatype DocItem = DocItem(
    id: string,
    crateName: string,
    name: string,
    path: seq<string>,
    description: Option<string>,
    itemType: string,
    fullPathStr: string)

  /** A crate's catalog, keyed by full path. */
  datatype CrateDocs = CrateDocs(crateName: string, items: map<string, DocItem>)

  /** The four ways the tree can be unusable. */
  datatype ParseError = MissingIndex | MissingPaths | MissingRoot | RootNotInIndex

  const PathSeparator: string := "::"
  const UnknownCrate: string := "unknown_crate"
  const UnknownKind: string := "unknown"
  const ModuleKind: string := "module"

  // ---------------------------------------------------------------------------
  // Crate name of the generated file

  /** `s.replace("-", "_")` */
  function ReplaceHyphens(s: string): string {
    if s == [] then [] else [if s[0] == '-' then '_' else s[0]] + ReplaceHyphens(s[1..])
  }

  /** Every hyphen becomes an underscore and every other character stays where it was. */
  lemma {:induction false} ReplaceHyphensPointwise(s: string)
    ensures var r := ReplaceHyphens(s);
      && |r| == |s| && '-' !in r
      && forall i :: 0 <= i < |s| ==> r[i] == if s[i] == '-' then '_' else s[i]
  {
    if s != [] {
      ReplaceHyphensPointwise(s[1..]);
      var r := ReplaceHyphens(s);
      assert r == [if s[0] == '-' then '_' else s[0]] + ReplaceHyphens(s[1..]);
      forall i | 0 <= i < |s| ensures r[i] == if s[i] == '-' then '_' else s[i] {
        if i > 0 { assert r[i] == ReplaceHyphens(s[1..])[i - 1]; }
      }
    }
  }

  /** The manifest's `package.name` when it is a string, else the directory name (empty when the path has none). */
  function RawCrateName(manifest: Value, dirName: Option<string>): string {
    AsStr(GetIn(Get(manifest, "package"), "name")).GetOr(dirName.GetOr(""))
  }

  /** The crate name `generate_rustdoc_json` settles on. */
  function DetermineCrateName(manifest: Value, dirName: Option<string>): (r: string)
    ensures '-' !in r
    ensures var raw := RawCrateName(manifest, dirName);
      |r| == |raw| && forall i :: 0 <= i < |raw| ==> (r[i] == raw[i] || (raw[i] == '-' && r[i] == '_'))
  {
    ReplaceHyphensPointwise(RawCrateName(manifest, dirName));
    ReplaceHyphens(RawCrateName(manifest, dirName))
  }

  /** `format!("{}.json", determined_crate_name)` */
  function OutputFileName(manifest: Value, dirName: Option<string>): (r: string)
    ensures |r| >= 5 && r[|r| - 5..] == ".json"
    ensures r[..|r| - 5] == DetermineCrateName(manifest, dirName) && '-' !in r[..|r| - 5]
  {
    DetermineCrateName(manifest, dirName) + ".json"
  }

  /** Replacing hyphens twice is replacing them once. */
  lemma {:induction false} ReplaceHyphensIdempotent(s: string)
    ensures ReplaceHyphens(ReplaceHyphens(s)) == ReplaceHyphens(s)
  {
    var r := ReplaceHyphens(s);
    var rr := ReplaceHyphens(r);
    ReplaceHyphensPointwise(s);
    ReplaceHyphensPointwise(r);
    forall i | 0 <= i < |r| ensures rr[i] == r[i] {
      assert r[i] != '-' by { assert r[i] in r; }
    }
  }

  // ---------------------------------------------------------------------------
  // Full paths

  /** `parts.join(sep)` */
  function Join(sep: string, parts: seq<string>): string {
    if |parts| == 0 then ""
    else if |parts| == 1 then parts[0]
    else parts[0] + sep + Join(sep, parts[1..])
  }

  lemma {:induction false} JoinSnoc(sep: string, parts: seq<string>, x: string)
    requires |parts| > 0
    ensures Join(sep, parts + [x]) == Join(sep, parts) + sep + x
  {
    if |parts| == 1 {
      assert parts + [x] == [parts[0], x];
      assert (parts + [x])[1..] == [x];
    } else {
      assert (parts + [x])[1..] == parts[1..] + [x];
      JoinSnoc(sep, parts[1..], x);
    }
  }

  lemma {:induction false} JoinStartsWithFirst(sep: string, parts: seq<string>)
    requires |parts| > 0
    ensures var j := Join(sep, parts); |parts[0]| <= |j| && j[..|parts[0]|] == parts[0]
  {
    if |parts| > 1 {
      var j := Join(sep, parts);
      assert j == parts[0] + (sep + Join(sep, parts[1..]));
    }
  }

  lemma {:induction false} JoinEndsWithLast(sep: string, parts: seq<string>)
    requires |parts| > 0
    ensures var j, l := Join(sep, parts), parts[|parts| - 1]; |l| <= |j| && j[|j| - |l|..] == l
  {
    if |parts| > 1 {
      JoinEndsWithLast(sep, parts[1..]);
      assert parts[1..][|parts| - 2] == parts[|parts| - 1];
    }
  }

  /** `path_array.last().map_or(false, |last| last == name)` */
  predicate LastSegmentIs(path: seq<string>, name: string) {
    |path| > 0 && path[|path| - 1] == name
  }

  /** The item's own name is appended unless it is a module whose path already ends in that name. */
  predicate AppendsName(kind: string, path: seq<string>, name: string) {
    kind != ModuleKind || !LastSegmentIs(path, name)
  }

  /** `full_path_parts`: the crate, the module path, then the name unless a module already carries it. */
  function FullPathParts(crateName: string, path: seq<string>, name: string, kind: string): seq<string> {
    [crateName] + path + (if AppendsName(kind, path, name) then [name] else [])
  }

  function FullPathStr(crateName: string, path: seq<string>, name: string, kind: string): string {
    Join(PathSeparator, FullPathParts(crateName, path, name, kind))
  }

  /** The full path is `crate::path::name`, or `crate::path` for a module whose path ends in its name. */
  lemma FullPathShape(crateName: string, path: seq<string>, name: string, kind: string)
    ensures AppendsName(kind, path, name) ==>
      FullPathStr(crateName, path, name, kind) == Join(PathSeparator, [crateName] + path) + PathSeparator + name
    ensures !AppendsName(kind, path, name) ==>
      FullPathStr(crateName, path, name, kind) == Join(PathSeparator, [crateName] + path)
  {
    if AppendsName(kind, path, name) {
      JoinSnoc(PathSeparator, [crateName] + path, name);
    } else {
      assert FullPathParts(crateName, path, name, kind) == [crateName] + path;
    }
  }

  /** Every full path starts with the crate name and ends with the item's own name. */
  lemma FullPathEnds(crateName: string, path: seq<string>, name: string, kind: string)
    ensures var fp := FullPathStr(crateName, path, name, kind);
      && |crateName| <= |fp| && fp[..|crateName|] == crateName
      && |name| <= |fp| && fp[|fp| - |name|..] == name
  {
    var parts := FullPathParts(crateName, path, name, kind);
    JoinStartsWithFirst(PathSeparator, parts);
    JoinEndsWithLast(PathSeparator, parts);
    if !AppendsName(kind, path, name) {
      assert parts[|parts| - 1] == path[|path| - 1];
    }
  }

  /** `k`, path `[a, b]`, function `c` gives `k::a::b::c`; a module `m` under path `[m]` gives `k::m`. */
  lemma FullPathExamples()
    ensures FullPathStr("k", ["a", "b"], "c", "function") == "k::a::b::c"
    ensures FullPathStr("k", ["m"], "m", "module") == "k::m"
    ensures FullPathStr("k", ["a"], "m", "module") == "k::a::m"
  {
    assert FullPathParts("k", ["a", "b"], "c", "function") == ["k", "a", "b", "c"];
    assert FullPathParts("k", ["m"], "m", "module") == ["k", "m"];
    assert FullPathParts("k", ["a"], "m", "module") == ["k", "a", "m"];
  }

  // ---------------------------------------------------------------------------
  // One record of `index`

  /** `arr.iter().filter_map(|v| v.as_str().map(String::from)).collect()` */
  function Strings(arr: seq<Value>): (r: seq<string>)
    ensures |r| <= |arr|
    ensures forall s :: s in r <==> Str(s) in arr
    ensures (forall i :: 0 <= i < |arr| ==> arr[i].Str?) ==>
      |r| == |arr| && forall i :: 0 <= i < |arr| ==> r[i] == arr[i].s
  {
    if arr == [] then []
    else
      assert forall v :: v in arr <==> v == arr[0] || v in arr[1..];
      (if arr[0].Str? then [arr[0].s] else []) + Strings(arr[1..])
  }

  /** `filter_map` keeps the order: the strings of a concatenation are the strings of each part in turn. */
  lemma {:induction false} StringsAppend(a: seq<Value>, b: seq<Value>)
    ensures Strings(a + b) == Strings(a) + Strings(b)
  {
    if a != [] {
      assert (a + b)[1..] == a[1..] + b;
      StringsAppend(a[1..], b);
    } else {
      assert a + b == b;
    }
  }

  /** The module path of an item: the strings of `paths[id].path`, empty when any step is missing. */
  function PathOf(paths: map<string, Value>, id: string): (r: seq<string>)
    ensures r != [] ==> id in paths && AsArray(Get(paths[id], "path")).Some?
    ensures id in paths && AsArray(Get(paths[id], "path")).Some? ==>
      forall s :: s in r <==> Str(s) in AsArray(Get(paths[id], "path")).value
    ensures id in paths && AsArray(Get(paths[id], "path")).Some? ==>
      var arr := AsArray(Get(paths[id], "path")).value;
      (forall i :: 0 <= i < |arr| ==> arr[i].Str?) ==>
        |r| == |arr| && forall i :: 0 <= i < |arr| ==> r[i] == arr[i].s
  {
    if id in paths then
      match AsArray(Get(paths[id], "path"))
      case Some(arr) => Strings(arr)
      case None => []
    else []
  }

  /** The catalog entry a record yields: nothing without a string `name`. */
  function ItemOf(crateName: string, id: string, record: Value, paths: map<string, Value>): Option<DocItem> {
    match AsStr(Get(record, "name"))
    case None => None
    case Some(name) =>
      var path := PathOf(paths, id);
      var kind := AsStr(Get(record, "kind")).GetOr(UnknownKind);
      Some(DocItem(id, crateName, name, path, AsStr(Get(record, "docs")), kind,
                   FullPathStr(crateName, path, name, kind)))
  }

  /** Only `name`, `docs` and `kind` of a record matter: in particular `inner.is_stripped` does not. */
  lemma ItemOfReadsOnlyNameDocsKind(crateName: string, id: string, r1: Value, r2: Value, paths: map<string, Value>)
    requires Get(r1, "name") == Get(r2, "name")
    requires Get(r1, "docs") == Get(r2, "docs")
    requires Get(r1, "kind") == Get(r2, "kind")
    ensures ItemOf(crateName, id, r1, paths) == ItemOf(crateName, id, r2, paths)
  {
  }

  /** The record with `inner.is_stripped` set to `b`. */
  function WithStripped(record: Value, b: bool): Value {
    if record.Object? then
      var inner := if "inner" in record.fields && record.fields["inner"].Object?
                   then record.fields["inner"].fields else map[];
      Object(record.fields["inner" := Object(inner["is_stripped" := Bool(b)])])
    else record
  }

  /** Stripped items are kept: marking a record stripped changes nothing in its entry. */
  lemma StrippedItemsKept(crateName: string, id: string, record: Value, paths: map<string, Value>, b: bool)
    ensures AsBool(GetIn(Get(WithStripped(record, b), "inner"), "is_stripped")) == (if record.Object? then Some(b) else None)
    ensures ItemOf(crateName, id, WithStripped(record, b), paths) == ItemOf(crateName, id, record, paths)
  {
    ItemOfReadsOnlyNameDocsKind(crateName, id, WithStripped(record, b), record, paths);
  }

  /** What the entry of a named record holds: the name, the docs string, the kind or `unknown`, the module path. */
  lemma ItemOfFields(crateName: string, id: string, record: Value, paths: map<string, Value>)
    ensures ItemOf(crateName, id, record, paths).Some? <==> AsStr(Get(record, "name")).Some?
    ensures ItemOf(crateName, id, record, paths).Some? ==>
      var item := ItemOf(crateName, id, record, paths).value;
      && item.id == id && item.crateName == crateName
      && Some(item.name) == AsStr(Get(record, "name"))
      && item.description == AsStr(Get(record, "docs"))
      && item.itemType == AsStr(Get(record, "kind")).GetOr(UnknownKind)
      && item.path == PathOf(paths, id)
      && (id !in paths ==> item.path == [])
      && item.fullPathStr == FullPathStr(crateName, item.path, item.name, item.itemType)
  {
  }

  // ---------------------------------------------------------------------------
  // The whole tree

  /** The crate name recorded by the parser: the root record's `name`, else `unknown_crate`. */
  function CrateNameOf(index: map<string, Value>, rootId: string): string
    requires rootId in index
  {
    AsStr(Get(index[rootId], "name")).GetOr(UnknownCrate)
  }

  /**
   * `items` is a catalog of `index`: every entry sits under its own full path and is the entry of
   * some record, and every named record's full path is present (which record wins a shared full
   * path depends on iteration order and is left open).
   */
  ghost predicate IsCatalogOf(crateName: string, index: map<string, Value>, paths: map<string, Value>,
                              items: map<string, DocItem>)
  {
    && (forall k :: k in items ==>
          items[k].fullPathStr == k
          && exists id :: id in index && ItemOf(crateName, id, index[id], paths) == Some(items[k]))
    && (forall id :: id in index && ItemOf(crateName, id, index[id], paths).Some? ==>
          ItemOf(crateName, id, index[id], paths).value.fullPathStr in items)
  }

  /** Records without a string name never reach the catalog; every entry has a name and the crate name. */
  lemma UnnamedRecordsDropped(crateName: string, index: map<string, Value>, paths: map<string, Value>,
                              items: map<string, DocItem>, k: string)
    requires IsCatalogOf(crateName, index, paths, items)
    requires k in items
    ensures exists id :: id in index && AsStr(Get(index[id], "name")) == Some(items[k].name)
    ensures items[k].crateName == crateName
  {
    var id :| id in index && ItemOf(crateName, id, index[id], paths) == Some(items[k]);
    ItemOfFields(crateName, id, index[id], paths);
  }

  /** The body of the loop over `index`: the entry one record yields, built as the Rust code builds it. */
  method NormaliseRecord(crateName: string, itemId: string, itemJson: Value, paths: map<string, Value>)
    returns (entry: Option<DocItem>)
    ensures entry == ItemOf(crateName, itemId, itemJson, paths)
  {
    var name := AsStr(Get(itemJson, "name"));
    var docs := AsStr(Get(itemJson, "docs"));
    var kind := AsStr(Get(itemJson, "kind")).GetOr(UnknownKind);
    var pathArray := PathOf(paths, itemId);

    var fullPathParts := [crateName] + pathArray;
    if name.Some? && AppendsName(kind, pathArray, name.value) {
      fullPathParts := fullPathParts + [name.value];
    }
    var fullPathStr := Join(PathSeparator, fullPathParts);

    if name.Some? {
      assert fullPathParts == FullPathParts(crateName, pathArray, name.value, kind);
      entry := Some(DocItem(itemId, crateName, name.value, pathArray, docs, kind, fullPathStr));
    } else {
      entry := None;
    }
  }

  /** The entry every record of `index` yields, by record id. */
  ghost function Entries(crateName: string, index: map<string, Value>, paths: map<string, Value>)
    : (m: map<string, Option<DocItem>>)
    ensures m.Keys == index.Keys
    ensures forall id :: id in m ==> m[id] == ItemOf(crateName, id, index[id], paths)
  {
    map id | id in index :: ItemOf(crateName, id, index[id], paths)
  }

  /**
   * The loop invariant of `CollectItems`, with `todo` the records still to visit: every entry
   * comes from a visited record (`source` names the record behind it) and sits under its full
   * path, and every named visited record has its full path present.
   */
  ghost predicate CatalogSoFar(entries: map<string, Option<DocItem>>, todo: set<string>,
                               items: map<string, DocItem>, source: map<string, string>)
  {
    && todo <= entries.Keys
    && |items| + |todo| <= |entries|
    && (forall k :: k in items ==>
          && items[k].fullPathStr == k
          && k in source && source[k] in entries && source[k] !in todo
          && entries[source[k]] == Some(items[k]))
    && (forall id :: id in entries && id !in todo && entries[id].Some? ==> entries[id].value.fullPathStr in items)
  }

  /** One `insert` keeps the invariant with one record fewer to visit. */
  lemma CatalogInsertStep(entries: map<string, Option<DocItem>>, todo: set<string>,
                          items: map<string, DocItem>, source: map<string, string>, id: string)
    requires CatalogSoFar(entries, todo, items, source)
    requires id in todo && entries[id].Some?
    ensures CatalogSoFar(entries, todo - {id},
                         items[entries[id].value.fullPathStr := entries[id].value],
                         source[entries[id].value.fullPathStr := id])
  {
    UpdateSize(items, entries[id].value.fullPathStr, entries[id].value);
    assert |todo - {id}| == |todo| - 1;
  }

  /** Skipping a record without an entry keeps the invariant with one record fewer to visit. */
  lemma CatalogSkipStep(entries: map<string, Option<DocItem>>, todo: set<string>,
                        items: map<string, DocItem>, source: map<string, string>, id: string)
    requires CatalogSoFar(entries, todo, items, source)
    requires id in todo && entries[id].None?
    ensures CatalogSoFar(entries, todo - {id}, items, source)
  {
    assert |todo - {id}| == |todo| - 1;
  }

  /** Once every record is done, the invariant is the catalog property. */
  lemma CatalogDone(crateName: string, index: map<string, Value>, paths: map<string, Value>,
                    items: map<string, DocItem>, source: map<string, string>)
    requires CatalogSoFar(Entries(crateName, index, paths), {}, items, source)
    ensures IsCatalogOf(crateName, index, paths, items)
    ensures |items| <= |index|
  {
    var entries := Entries(crateName, index, paths);
    forall k | k in items
      ensures exists id :: id in index && ItemOf(crateName, id, index[id], paths) == Some(items[k])
    {
      assert entries[source[k]] == Some(items[k]);
    }
    forall id | id in index && ItemOf(crateName, id, index[id], paths).Some?
      ensures ItemOf(crateName, id, index[id], paths).value.fullPathStr in items
    {
      assert entries[id] == ItemOf(crateName, id, index[id], paths);
    }
  }

  /** The loop over `index` that fills `items_map`, one `insert` per named record. */
  method CollectItems(crateName: string, index: map<string, Value>, paths: map<string, Value>)
    returns (items: map<string, DocItem>)
    ensures IsCatalogOf(crateName, index, paths, items)
    ensures |items| <= |index|
  {
    ghost var entries := Entries(crateName, index, paths);
    items := map[];
    var todo := index.Keys;
    ghost var source: map<string, string> := map[];  // which record each entry came from
    while todo != {}
      invariant CatalogSoFar(entries, todo, items, source)
      decreases todo
    {
      var itemId :| itemId in todo;
      var entry := NormaliseRecord(crateName, itemId, index[itemId], paths);
      assert entry == entries[itemId];
      if entry.Some? {
        CatalogInsertStep(entries, todo, items, source, itemId);
        items := items[entry.value.fullPathStr := entry.value];
        source := source[entry.value.fullPathStr := itemId];
      } else {
        CatalogSkipStep(entries, todo, items, source, itemId);
      }
      todo := todo - {itemId};
    }
    CatalogDone(crateName, index, paths, items, source);
  }

  /** The checks at the head of `parse_rustdoc_json_file`, in order: the first that fails, if any. */
  function ParseCheck(root: Value): (r: Option<ParseError>)
    ensures r.None? <==>
      && AsObject(Get(root, "index")).Some? && AsObject(Get(root, "paths")).Some? && AsStr(Get(root, "root")).Some?
      && AsStr(Get(root, "root")).value in AsObject(Get(root, "index")).value
    ensures r == Some(RootNotInIndex) ==> AsObject(Get(root, "index")).Some? && AsObject(Get(root, "paths")).Some?
  {
    if AsObject(Get(root, "index")).None? then Some(MissingIndex)
    else if AsObject(Get(root, "paths")).None? then Some(MissingPaths)
    else if AsStr(Get(root, "root")).None? then Some(MissingRoot)
    else if AsStr(Get(root, "root")).value !in AsObject(Get(root, "index")).value then Some(RootNotInIndex)
    else None
  }

  /** `docs` is a normalisation of the well-formed tree `root`. */
  ghost predicate IsDocsOf(root: Value, docs: CrateDocs) {
    && ParseCheck(root).None?
    && var index, paths, rootId := AsObject(Get(root, "index")).value, AsObject(Get(root, "paths")).value,
                                   AsStr(Get(root, "root")).value;
       && docs.crateName == CrateNameOf(index, rootId)
       && IsCatalogOf(docs.crateName, index, paths, docs.items)
       && |docs.items| <= |index|
  }

  /** `parse_rustdoc_json_file` on the parsed tree. */
  method ParseRustdocJson(root: Value) returns (r: Result<CrateDocs, ParseError>)
    ensures r.Err? <==> ParseCheck(root).Some?
    ensures r.Err? ==> r.error == ParseCheck(root).value
    ensures r.Ok? ==> IsDocsOf(root, r.value)
    ensures AsObject(Get(root, "index")).None? ==> r == Err(MissingIndex)
    ensures AsObject(Get(root, "index")).Some? && AsObject(Get(root, "paths")).None? ==> r == Err(MissingPaths)
    ensures AsObject(Get(root, "index")).Some? && AsObject(Get(root, "paths")).Some? && AsStr(Get(root, "root")).None?
      ==> r == Err(MissingRoot)
    ensures AsObject(Get(root, "index")).Some? && AsObject(Get(root, "paths")).Some? && AsStr(Get(root, "root")).Some?
      ==> var index, paths, rootId := AsObject(Get(root, "index")).value, AsObject(Get(root, "paths")).value,
                                     AsStr(Get(root, "root")).value;
          && (rootId !in index ==> r == Err(RootNotInIndex))
          && (rootId in index ==>
                && r.Ok?
                && r.value.crateName == CrateNameOf(index, rootId)
                && IsCatalogOf(r.value.crateName, index, paths, r.value.items)
                && |r.value.items| <= |index|)
  {
    var indexOpt := AsObject(Get(root, "index"));
    if indexOpt.None? { return Err(MissingIndex); }
    var pathsOpt := AsObject(Get(root, "paths"));
    if pathsOpt.None? { return Err(MissingPaths); }
    var rootOpt := AsStr(Get(root, "root"));
    if rootOpt.None? { return Err(MissingRoot); }
    var index, paths, crateId := indexOpt.value, pathsOpt.value, rootOpt.value;
    if crateId !in index { return Err(RootNotInIndex); }
    var crateName := AsStr(Get(index[crateId], "name")).GetOr(UnknownCrate);
    var items := CollectItems(crateName, index, paths);
    return Ok(CrateDocs(crateName, items));
  }
}
