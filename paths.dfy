/** The manager subtool's subscription paths
    (internal/codegen/manager/paths.go): every field of the root struct and,
    recursively, of the nested structs of this package it holds, as a dotted
    path with the names, accessor and zero value the templates need. */
module Paths {
  import opened CodegenTypes
  import LayerBroker
  import MergeGen

  /** One subscribable path. */
  datatype PathInfo = PathInfo(
    Path: string,
    PathConst: string,
    Segments: seq<string>,
    FieldName: string,
    FieldType: string,
    IsPointer: bool,
    IsSlice: bool,
    IsMap: bool,
    IsLocalStruct: bool,
    ParentIsPtr: bool,
    NilCheckPath: string,
    AccessorExpr: string,
    ZeroValue: string,
    ParentTypeName: string,
    NeedsTimeImport: bool,
    SkipTransactionSet: bool)

  // ---------------------------------------------------------------------
  // strings.ReplaceAll(s, ".", "") and strings.Split(s, ".")
  // ---------------------------------------------------------------------

  /** s with every '.' removed. */
  function RemoveDots(s: string): (r: string)
    ensures '.' !in r && |r| <= |s|
    ensures '.' !in s ==> r == s
  {
    if s == [] then []
    else
      assert s == [s[0]] + s[1..];
      (if s[0] == '.' then [] else [s[0]]) + RemoveDots(s[1..])
  }

  lemma {:induction false} RemoveDotsAppend(a: string, b: string)
    ensures RemoveDots(a + b) == RemoveDots(a) + RemoveDots(b)
  {
    if a == [] {
      assert a + b == b;
    } else {
      var h := if a[0] == '.' then [] else [a[0]];
      assert (a + b)[0] == a[0];
      calc {
        RemoveDots(a + b);
        h + RemoveDots((a + b)[1..]);
        { assert (a + b)[1..] == a[1..] + b; }
        h + RemoveDots(a[1..] + b);
        { RemoveDotsAppend(a[1..], b); }
        h + (RemoveDots(a[1..]) + RemoveDots(b));
        (h + RemoveDots(a[1..])) + RemoveDots(b);
        RemoveDots(a) + RemoveDots(b);
      }
    }
  }

  /** Removing the dots from a dotted path concatenates its parts. */
  lemma RemoveDotsJoin(prefix: string, name: string)
    requires '.' !in name
    ensures RemoveDots(prefix + "." + name) == RemoveDots(prefix) + name
  {
    var tail := "." + name;
    assert tail[0] == '.' && tail[1..] == name;
    assert RemoveDots(tail) == name;
    RemoveDotsAppend(prefix, tail);
    assert prefix + "." + name == prefix + tail;
  }

  /** The index of the last '.' in s, or -1 when there is none. */
  function LastDot(s: string): (k: int)
    ensures -1 <= k < |s|
    ensures k == -1 <==> '.' !in s
    ensures k != -1 ==> s[k] == '.' && '.' !in s[k + 1..]
  {
    if s == [] then -1
    else if s[|s| - 1] == '.' then |s| - 1
    else
      var k := LastDot(s[..|s| - 1]);
      assert s == s[..|s| - 1] + [s[|s| - 1]];
      if k == -1 then -1
      else
        assert s[k + 1..] == s[..|s| - 1][k + 1..] + [s[|s| - 1]];
        k
  }

  /** strings.Split(s, "."): the pieces between the dots, at least one. */
  function Split(s: string): (r: seq<string>)
    ensures |r| >= 1
    ensures forall i :: 0 <= i < |r| ==> '.' !in r[i]
    decreases |s|
  {
    var k := LastDot(s);
    if k == -1 then [s] else Split(s[..k]) + [s[k + 1..]]
  }

  /** strings.Join(segs, "."). */
  function Join(segs: seq<string>): string
    requires |segs| >= 1
  {
    if |segs| == 1 then segs[0] else Join(segs[..|segs| - 1]) + "." + segs[|segs| - 1]
  }

  /** Splitting and joining again gives back the path. */
  lemma {:induction false} JoinSplit(s: string)
    ensures Join(Split(s)) == s
    decreases |s|
  {
    var k := LastDot(s);
    if k != -1 {
      JoinSplit(s[..k]);
      var r := Split(s[..k]) + [s[k + 1..]];
      assert r[..|r| - 1] == Split(s[..k]);
      assert s == s[..k] + "." + s[k + 1..];
    }
  }

  /** Joining dot-free segments and splitting again gives back the segments. */
  lemma {:induction false} SplitJoin(segs: seq<string>)
    requires |segs| >= 1 && forall i :: 0 <= i < |segs| ==> '.' !in segs[i]
    ensures Split(Join(segs)) == segs
    decreases |segs|
  {
    if |segs| > 1 {
      var init := segs[..|segs| - 1];
      SplitJoin(init);
      SplitAppend(Join(init), segs[|segs| - 1]);
    }
  }

  /** Appending a dot-free name to a path appends one segment. */
  lemma SplitAppend(prefix: string, name: string)
    requires '.' !in name
    ensures Split(prefix + "." + name) == Split(prefix) + [name]
  {
    var s := prefix + "." + name;
    assert s[|prefix|] == '.';
    assert s[|prefix| + 1..] == name;
    assert s[..|prefix|] == prefix;
  }

  // ---------------------------------------------------------------------
  // fieldTypeString and zeroValueFor
  // ---------------------------------------------------------------------

  /** fieldTypeString: the field's Go type, package-qualified. */
  function FieldTypeString(f: FieldInfo): (r: string)
    ensures f.IsPointer ==> r == "*" + MergeGen.QualifiedType(f)
    ensures !f.IsPointer && (f.IsSlice || f.IsMap) ==> r == f.TypeName
    ensures !f.IsPointer && !f.IsSlice && !f.IsMap ==> r == MergeGen.QualifiedType(f)
  {
    if f.IsPointer then
      if f.TypePkg != "" then "*" + f.TypePkg + "." + f.TypeName else "*" + f.TypeName
    else if f.IsSlice then f.TypeName
    else if f.IsMap then f.TypeName
    else if f.TypePkg != "" then f.TypePkg + "." + f.TypeName
    else f.TypeName
  }

  /** A field that is not a struct of this package has as its partial type
      a pointer to its own type, unless it is a slice or map held by value. */
  lemma PartialTypeIsPointerToFieldType(f: FieldInfo)
    requires !(f.IsStruct && f.TypePkg == "")
    ensures f.IsPointer ==> MergeGen.PointerTypeName(f) == FieldTypeString(f)
    ensures !f.IsPointer && !f.IsSlice && !f.IsMap ==> MergeGen.PointerTypeName(f) == "*" + FieldTypeString(f)
    ensures !f.IsPointer && (f.IsSlice || f.IsMap) ==> MergeGen.PointerTypeName(f) == FieldTypeString(f)
  {
  }

  const NumericTypes: set<string> := {
    "int", "int8", "int16", "int32", "int64",
    "uint", "uint8", "uint16", "uint32", "uint64",
    "float32", "float64", "byte", "rune" }

  /** zeroValueFor: the zero value of the field's type, written in Go. */
  function ZeroValueFor(f: FieldInfo): (r: string)
    ensures r == "nil" <==> f.IsPointer || f.IsSlice || f.IsMap
    ensures !f.IsPointer && !f.IsSlice && !f.IsMap && !f.IsStruct ==>
              (r == "\"\"" <==> f.TypeName == "string")
              && (r == "false" <==> f.TypeName == "bool")
              && (r == "0" <==> f.TypeName in NumericTypes)
    ensures !f.IsPointer && !f.IsSlice && !f.IsMap && f.IsStruct ==> r == FieldTypeString(f) + "{}"
  {
    if f.IsPointer || f.IsSlice || f.IsMap then "nil"
    else if f.IsStruct then
      var r := if f.TypePkg != "" then f.TypePkg + "." + f.TypeName + "{}" else f.TypeName + "{}";
      assert r[|r| - 1] == '}';
      r
    else if f.TypeName == "string" then "\"\""
    else if f.TypeName == "bool" then "false"
    else if f.TypeName in NumericTypes then "0"
    else if f.TypePkg == "time" && f.TypeName == "Time" then "time.Time{}"
    else
      var r := f.TypeName + "{}";
      assert r[|r| - 1] == '}';
      r
  }

  // ---------------------------------------------------------------------
  // buildPathsRecursive
  // ---------------------------------------------------------------------

  /** The path of a field under `prefix`. */
  function Prefixed(prefix: string, name: string): string
  {
    if prefix == "" then name else prefix + "." + name
  }

  /** The entry of one field, built as buildPathsRecursive builds it. */
  function Entry(f: FieldInfo, prefix: string, accessorPrefix: string, parentTypeName: string, parentIsPtr: bool): PathInfo
  {
    var path := Prefixed(prefix, f.Name);
    var isLocalStruct := LayerBroker.IsLocalStruct(f);
    PathInfo(path, RemoveDots(path), Split(path), f.Name, FieldTypeString(f),
             f.IsPointer, f.IsSlice, f.IsMap, isLocalStruct, parentIsPtr,
             if parentIsPtr then accessorPrefix else "",
             accessorPrefix + "." + f.Name, ZeroValueFor(f), parentTypeName,
             f.TypePkg == "time", f.IsPointer && isLocalStruct)
  }

  /** buildPathsRecursive descends into a local struct held by value or
      pointer whose type is in the nested table. */
  predicate Recurses(f: FieldInfo, nestedMap: map<string, StructInfo>)
  {
    LayerBroker.IsLocalStruct(f) && f.TypeName in nestedMap
  }

  /** Every struct the fields descend into ranks below d. */
  ghost predicate Below(fields: seq<FieldInfo>, nestedMap: map<string, StructInfo>, rank: map<string, nat>, d: nat)
  {
    forall i :: 0 <= i < |fields| && Recurses(fields[i], nestedMap) ==>
      fields[i].TypeName in rank && rank[fields[i].TypeName] < d
  }

  /** The descent meets no cycle: each ranked struct descends only into
      structs of lower rank, and Below puts every struct the descent
      enters into the ranking. A struct the descent never enters (one
      reached only through a slice or map) needs no rank, whatever its own
      fields are. Without it buildPathsRecursive does not return, since it
      keeps no set of visited structs. */
  ghost predicate Ranked(nestedMap: map<string, StructInfo>, rank: map<string, nat>)
  {
    forall n :: n in nestedMap && n in rank ==> Below(nestedMap[n].Fields, nestedMap, rank, rank[n])
  }

  lemma BelowSuffix(fields: seq<FieldInfo>, nestedMap: map<string, StructInfo>, rank: map<string, nat>, d: nat, i: nat)
    requires Below(fields, nestedMap, rank, d) && i <= |fields|
    ensures Below(fields[i..], nestedMap, rank, d)
  {
    assert forall k :: 0 <= k < |fields[i..]| ==> fields[i..][k] == fields[i + k];
  }

  /** The entries buildPathsRecursive appends for `fields`, in order: each
      field's entry, followed by the entries of the struct it descends into. */
  ghost function PathsOf(fields: seq<FieldInfo>, nestedMap: map<string, StructInfo>, rank: map<string, nat>, d: nat,
                         prefix: string, accessorPrefix: string, parentTypeName: string, parentIsPtr: bool): seq<PathInfo>
    requires Ranked(nestedMap, rank) && Below(fields, nestedMap, rank, d)
    decreases d, |fields|
  {
    if fields == [] then []
    else
      var f := fields[0];
      var pi := Entry(f, prefix, accessorPrefix, parentTypeName, parentIsPtr);
      BelowSuffix(fields, nestedMap, rank, d, 1);
      var sub := if Recurses(f, nestedMap)
                 then PathsOf(nestedMap[f.TypeName].Fields, nestedMap, rank, rank[f.TypeName],
                              pi.Path, pi.AccessorExpr, f.TypeName, f.IsPointer || parentIsPtr)
                 else [];
      [pi] + sub + PathsOf(fields[1..], nestedMap, rank, d, prefix, accessorPrefix, parentTypeName, parentIsPtr)
  }

  /** The shared `*[]PathInfo` that buildPathsRecursive appends to. */
  class PathList {
    var paths: seq<PathInfo>

    constructor ()
      ensures paths == []
    {
      paths := [];
    }
  }

  /** One step of PathsOf: the first field's entry, the entries of the
      struct it descends into, then the entries of the other fields. */
  lemma {:induction false} PathsOfCons(fields: seq<FieldInfo>, nestedMap: map<string, StructInfo>, rank: map<string, nat>, d: nat,
                    prefix: string, accessorPrefix: string, parentTypeName: string, parentIsPtr: bool)
    requires Ranked(nestedMap, rank) && Below(fields, nestedMap, rank, d) && fields != []
    ensures Below(fields[1..], nestedMap, rank, d)
    ensures var f := fields[0];
            var pi := Entry(f, prefix, accessorPrefix, parentTypeName, parentIsPtr);
            PathsOf(fields, nestedMap, rank, d, prefix, accessorPrefix, parentTypeName, parentIsPtr)
            == [pi]
               + (if Recurses(f, nestedMap)
                  then PathsOf(nestedMap[f.TypeName].Fields, nestedMap, rank, rank[f.TypeName],
                               pi.Path, pi.AccessorExpr, f.TypeName, f.IsPointer || parentIsPtr)
                  else [])
               + PathsOf(fields[1..], nestedMap, rank, d, prefix, accessorPrefix, parentTypeName, parentIsPtr)
  {
    BelowSuffix(fields, nestedMap, rank, d, 1);
  }

  lemma AppendRegroup(before: seq<PathInfo>, pi: PathInfo, sub: seq<PathInfo>, rest: seq<PathInfo>)
    ensures before + ([pi] + sub + rest) == (before + [pi] + sub) + rest
  {
  }

  /** The entry the loop body of buildPathsRecursive builds for a field. */
  method NewPathInfo(field: FieldInfo, prefix: string, accessorPrefix: string, parentTypeName: string, parentIsPtr: bool)
    returns (pi: PathInfo)
    ensures pi == Entry(field, prefix, accessorPrefix, parentTypeName, parentIsPtr)
  {
    var path := field.Name;
    if prefix != "" {
      path := prefix + "." + field.Name;
    }
    var accessor := accessorPrefix + "." + field.Name;
    var pathConst := RemoveDots(path);
    var nilCheckPath := "";
    if parentIsPtr {
      nilCheckPath := accessorPrefix;
    }
    var isLocalStruct := field.IsStruct && field.TypePkg == "" && !field.IsSlice && !field.IsMap;
    pi := PathInfo(path, pathConst, Split(path), field.Name, FieldTypeString(field),
                   field.IsPointer, field.IsSlice, field.IsMap, isLocalStruct, parentIsPtr,
                   nilCheckPath, accessor, ZeroValueFor(field), parentTypeName,
                   field.TypePkg == "time", field.IsPointer && isLocalStruct);
  }

  /** buildPathsRecursive. The ghost rank and bound d witness that the
      descent ends. */
  method BuildPathsRecursive(info: StructInfo, nestedMap: map<string, StructInfo>, ghost rank: map<string, nat>, ghost d: nat,
                             prefix: string, accessorPrefix: string, parentTypeName: string, parentIsPtr: bool,
                             paths: PathList)
    requires Ranked(nestedMap, rank) && Below(info.Fields, nestedMap, rank, d)
    modifies paths
    ensures paths.paths == old(paths.paths) + PathsOf(info.Fields, nestedMap, rank, d, prefix, accessorPrefix, parentTypeName, parentIsPtr)
    decreases d
  {
    ghost var start := paths.paths;
    ghost var all := PathsOf(info.Fields, nestedMap, rank, d, prefix, accessorPrefix, parentTypeName, parentIsPtr);
    for i := 0 to |info.Fields|
      invariant Below(info.Fields[i..], nestedMap, rank, d)
      invariant start + all == paths.paths + PathsOf(info.Fields[i..], nestedMap, rank, d, prefix, accessorPrefix, parentTypeName, parentIsPtr)
    {
      ghost var before := paths.paths;
      ghost var fields := info.Fields[i..];
      var field := info.Fields[i];
      assert fields[0] == field && fields[1..] == info.Fields[i + 1..];
      PathsOfCons(fields, nestedMap, rank, d, prefix, accessorPrefix, parentTypeName, parentIsPtr);
      var pi := NewPathInfo(field, prefix, accessorPrefix, parentTypeName, parentIsPtr);
      ghost var sub := if Recurses(field, nestedMap)
                       then PathsOf(nestedMap[field.TypeName].Fields, nestedMap, rank, rank[field.TypeName],
                                    pi.Path, pi.AccessorExpr, field.TypeName, field.IsPointer || parentIsPtr)
                       else [];
      ghost var rest := PathsOf(info.Fields[i + 1..], nestedMap, rank, d, prefix, accessorPrefix, parentTypeName, parentIsPtr);
      assert start + all == before + ([pi] + sub + rest);
      paths.paths := paths.paths + [pi];
      if field.IsStruct && field.TypePkg == "" && !field.IsSlice && !field.IsMap {
        var structName := field.TypeName;
        if structName in nestedMap {
          var nestedInfo := nestedMap[structName];
          assert Recurses(field, nestedMap);
          BuildPathsRecursive(nestedInfo, nestedMap, rank, rank[structName], pi.Path, pi.AccessorExpr, structName,
                              field.IsPointer || parentIsPtr, paths);
          assert paths.paths == before + [pi] + sub;
        } else {
          assert paths.paths == before + [pi] + sub;
        }
      } else {
        assert paths.paths == before + [pi] + sub;
      }
      AppendRegroup(before, pi, sub, rest);
    }
  }

  /** The nested table: each struct under its name, the later one winning. */
  function NestedMapOf(nested: seq<StructInfo>): (m: map<string, StructInfo>)
    ensures forall n :: n in m ==> m[n].Name == n && m[n] in nested
    ensures forall i :: 0 <= i < |nested| ==> nested[i].Name in m
  {
    if nested == [] then map[]
    else
      var init := nested[..|nested| - 1];
      var last := nested[|nested| - 1];
      assert forall i :: 0 <= i < |init| ==> init[i] == nested[i];
      NestedMapOf(init)[last.Name := last]
  }

  /** BuildPaths: the paths of the root struct, under accessor "m.config". */
  method BuildPaths(info: StructInfo, nested: seq<StructInfo>, ghost rank: map<string, nat>, ghost d: nat)
    returns (paths: seq<PathInfo>)
    requires Ranked(NestedMapOf(nested), rank) && Below(info.Fields, NestedMapOf(nested), rank, d)
    ensures paths == PathsOf(info.Fields, NestedMapOf(nested), rank, d, "", "m.config", "", false)
    ensures Shaped(paths) && Placed(paths, NestedMapOf(nested), "", "", false)
    ensures NamedFields(info.Fields) && NamedTable(NestedMapOf(nested)) ==> Accessible(paths)
  {
    var nestedMap := map[];
    for i := 0 to |nested|
      invariant nestedMap == NestedMapOf(nested[..i])
    {
      assert nested[..i + 1][..i] == nested[..i];
      nestedMap := nestedMap[nested[i].Name := nested[i]];
    }
    assert nested[..|nested|] == nested;
    var list := new PathList();
    BuildPathsRecursive(info, nestedMap, rank, d, "", "m.config", "", false, list);
    paths := list.paths;
    PathsHaveShape(info.Fields, nestedMap, rank, d, "", "m.config", "", false);
    PathsPreOrder(info.Fields, nestedMap, rank, d, "", "m.config", "", false);
    if NamedFields(info.Fields) && NamedTable(nestedMap) {
      PathsAccessor(info.Fields, nestedMap, rank, d, "", "", false);
    }
  }

  // ---------------------------------------------------------------------
  // What every emitted path satisfies
  // ---------------------------------------------------------------------

  /** The facts each entry carries about itself. */
  ghost predicate EntryShape(p: PathInfo)
  {
    p.PathConst == RemoveDots(p.Path)
    && p.Segments == Split(p.Path)
    && (p.NilCheckPath != "" <==> p.ParentIsPtr)
    && p.SkipTransactionSet == (p.IsPointer && p.IsLocalStruct)
  }

  ghost predicate Shaped(r: seq<PathInfo>)
  {
    forall j :: 0 <= j < |r| ==> EntryShape(r[j])
  }

  lemma ShapedAppend(a: seq<PathInfo>, b: seq<PathInfo>)
    requires Shaped(a) && Shaped(b)
    ensures Shaped(a + b)
  {
    forall j | 0 <= j < |a + b| ensures EntryShape((a + b)[j]) {
      if j < |a| {
        assert (a + b)[j] == a[j];
      } else {
        assert (a + b)[j] == b[j - |a|];
      }
    }
  }

  lemma {:induction false} ShapedConcat(pi: PathInfo, sub: seq<PathInfo>, rest: seq<PathInfo>)
    requires EntryShape(pi) && Shaped(sub) && Shaped(rest)
    ensures Shaped([pi] + sub + rest)
  {
    assert [pi][0] == pi;
    ShapedAppend([pi], sub);
    ShapedAppend([pi] + sub, rest);
  }

  lemma {:induction false} EntryHasShape(f: FieldInfo, prefix: string, accessorPrefix: string, parentTypeName: string, parentIsPtr: bool)
    requires accessorPrefix != ""
    ensures EntryShape(Entry(f, prefix, accessorPrefix, parentTypeName, parentIsPtr))
  {
  }

  /** Every entry is well formed: PathConst is the path without dots,
      Segments splits the path and ends with the field name, and a nil
      check is emitted exactly under a pointer. */
  lemma {:induction false} PathsHaveShape(fields: seq<FieldInfo>, nestedMap: map<string, StructInfo>, rank: map<string, nat>, d: nat,
                                          prefix: string, accessorPrefix: string, parentTypeName: string, parentIsPtr: bool)
    requires Ranked(nestedMap, rank) && Below(fields, nestedMap, rank, d)
    requires accessorPrefix != ""
    ensures Shaped(PathsOf(fields, nestedMap, rank, d, prefix, accessorPrefix, parentTypeName, parentIsPtr))
    decreases d, |fields|
  {
    if fields != [] {
      var f := fields[0];
      var pi := Entry(f, prefix, accessorPrefix, parentTypeName, parentIsPtr);
      EntryHasShape(f, prefix, accessorPrefix, parentTypeName, parentIsPtr);
      BelowSuffix(fields, nestedMap, rank, d, 1);
      var sub := if Recurses(f, nestedMap)
                 then PathsOf(nestedMap[f.TypeName].Fields, nestedMap, rank, rank[f.TypeName],
                              pi.Path, pi.AccessorExpr, f.TypeName, f.IsPointer || parentIsPtr)
                 else [];
      var rest := PathsOf(fields[1..], nestedMap, rank, d, prefix, accessorPrefix, parentTypeName, parentIsPtr);
      var r := PathsOf(fields, nestedMap, rank, d, prefix, accessorPrefix, parentTypeName, parentIsPtr);
      assert r == [pi] + sub + rest;
      if Recurses(f, nestedMap) {
        PathsHaveShape(nestedMap[f.TypeName].Fields, nestedMap, rank, rank[f.TypeName],
                       pi.Path, pi.AccessorExpr, f.TypeName, f.IsPointer || parentIsPtr);
      }
      PathsHaveShape(fields[1..], nestedMap, rank, d, prefix, accessorPrefix, parentTypeName, parentIsPtr);
      ShapedConcat(pi, sub, rest);
    }
  }

  /** Every field has a name (parseStructFields keeps only exported ones). */
  ghost predicate NamedFields(fields: seq<FieldInfo>)
  {
    forall i :: 0 <= i < |fields| ==> fields[i].Name != ""
  }

  ghost predicate NamedTable(nestedMap: map<string, StructInfo>)
  {
    forall n :: n in nestedMap ==> NamedFields(nestedMap[n].Fields)
  }

  /** The accessor of the struct at `prefix`. */
  function AccessorOf(prefix: string): string
  {
    if prefix == "" then "m.config" else "m.config." + prefix
  }

  /** Each accessor is "m.config." + the entry's path. */
  ghost predicate Accessible(r: seq<PathInfo>)
  {
    forall j :: 0 <= j < |r| ==> r[j].AccessorExpr == "m.config." + r[j].Path
  }

  lemma {:induction false} AccessibleConcat(pi: PathInfo, sub: seq<PathInfo>, rest: seq<PathInfo>)
    requires pi.AccessorExpr == "m.config." + pi.Path && Accessible(sub) && Accessible(rest)
    ensures Accessible([pi] + sub + rest)
  {
    var r := [pi] + sub + rest;
    forall j | 0 <= j < |r| ensures r[j].AccessorExpr == "m.config." + r[j].Path {
      if j == 0 {
        assert r[j] == pi;
      } else if j < 1 + |sub| {
        assert r[j] == sub[j - 1];
      } else {
        assert r[j] == rest[j - 1 - |sub|];
      }
    }
  }

  /** When every field has a name, each accessor is "m.config." + path. */
  lemma {:induction false} PathsAccessor(fields: seq<FieldInfo>, nestedMap: map<string, StructInfo>, rank: map<string, nat>, d: nat,
                                         prefix: string, parentTypeName: string, parentIsPtr: bool)
    requires Ranked(nestedMap, rank) && Below(fields, nestedMap, rank, d)
    requires NamedFields(fields) && NamedTable(nestedMap)
    ensures Accessible(PathsOf(fields, nestedMap, rank, d, prefix, AccessorOf(prefix), parentTypeName, parentIsPtr))
    decreases d, |fields|
  {
    if fields != [] {
      var f := fields[0];
      var pi := Entry(f, prefix, AccessorOf(prefix), parentTypeName, parentIsPtr);
      assert pi.AccessorExpr == "m.config." + pi.Path;
      BelowSuffix(fields, nestedMap, rank, d, 1);
      var sub := if Recurses(f, nestedMap)
                 then PathsOf(nestedMap[f.TypeName].Fields, nestedMap, rank, rank[f.TypeName],
                              pi.Path, pi.AccessorExpr, f.TypeName, f.IsPointer || parentIsPtr)
                 else [];
      var rest := PathsOf(fields[1..], nestedMap, rank, d, prefix, AccessorOf(prefix), parentTypeName, parentIsPtr);
      assert PathsOf(fields, nestedMap, rank, d, prefix, AccessorOf(prefix), parentTypeName, parentIsPtr) == [pi] + sub + rest;
      if Recurses(f, nestedMap) {
        assert pi.Path != "";
        assert AccessorOf(pi.Path) == pi.AccessorExpr;
        PathsAccessor(nestedMap[f.TypeName].Fields, nestedMap, rank, rank[f.TypeName],
                      pi.Path, f.TypeName, f.IsPointer || parentIsPtr);
      }
      assert NamedFields(fields[1..]) by {
        assert forall k :: 0 <= k < |fields[1..]| ==> fields[1..][k] == fields[k + 1];
      }
      PathsAccessor(fields[1..], nestedMap, rank, d, prefix, parentTypeName, parentIsPtr);
      AccessibleConcat(pi, sub, rest);
    }
  }

  /** An entry of a field of the struct at `prefix`. */
  ghost predicate Direct(p: PathInfo, prefix: string, parentTypeName: string, parentIsPtr: bool)
  {
    p.Path == Prefixed(prefix, p.FieldName) && p.ParentTypeName == parentTypeName && p.ParentIsPtr == parentIsPtr
  }

  /** p is c's parent: a local struct field c was reached through; c is
      under a pointer exactly when p is a pointer or is itself under one. */
  ghost predicate Parent(p: PathInfo, c: PathInfo, nestedMap: map<string, StructInfo>)
  {
    c.Path == Prefixed(p.Path, c.FieldName) && p.IsLocalStruct
    && c.ParentTypeName in nestedMap
    && c.ParentIsPtr == (p.IsPointer || p.ParentIsPtr)
  }

  /** Where each entry sits in the tree: it is a field of the struct at
      `prefix`, or an earlier entry is its parent. */
  ghost predicate Placed(r: seq<PathInfo>, nestedMap: map<string, StructInfo>,
                         prefix: string, parentTypeName: string, parentIsPtr: bool)
  {
    forall j :: 0 <= j < |r| ==> PlacedAt(r, j, nestedMap, prefix, parentTypeName, parentIsPtr)
  }

  /** The predicate Placed asks of entry j of r. */
  ghost predicate PlacedAt(r: seq<PathInfo>, j: int, nestedMap: map<string, StructInfo>,
                           prefix: string, parentTypeName: string, parentIsPtr: bool)
    requires 0 <= j < |r|
  {
    Direct(r[j], prefix, parentTypeName, parentIsPtr) || exists i :: 0 <= i < j && Parent(r[i], r[j], nestedMap)
  }

  lemma PlacedInSub(pi: PathInfo, sub: seq<PathInfo>, rest: seq<PathInfo>, nestedMap: map<string, StructInfo>,
                    prefix: string, parentTypeName: string, parentIsPtr: bool, typeName: string, j: int)
    requires Direct(pi, prefix, parentTypeName, parentIsPtr)
    requires pi.IsLocalStruct && typeName in nestedMap
    requires Placed(sub, nestedMap, pi.Path, typeName, pi.IsPointer || parentIsPtr)
    requires 1 <= j < 1 + |sub|
    ensures PlacedAt([pi] + sub + rest, j, nestedMap, prefix, parentTypeName, parentIsPtr)
  {
    var r := [pi] + sub + rest;
    assert r[j] == sub[j - 1];
    assert PlacedAt(sub, j - 1, nestedMap, pi.Path, typeName, pi.IsPointer || parentIsPtr);
    if Direct(sub[j - 1], pi.Path, typeName, pi.IsPointer || parentIsPtr) {
      assert r[0] == pi;
      assert Parent(r[0], r[j], nestedMap);
    } else {
      var i :| 0 <= i < j - 1 && Parent(sub[i], sub[j - 1], nestedMap);
      assert r[i + 1] == sub[i];
      assert Parent(r[i + 1], r[j], nestedMap);
    }
  }

  lemma PlacedInRest(pi: PathInfo, sub: seq<PathInfo>, rest: seq<PathInfo>, nestedMap: map<string, StructInfo>,
                     prefix: string, parentTypeName: string, parentIsPtr: bool, j: int)
    requires Placed(rest, nestedMap, prefix, parentTypeName, parentIsPtr)
    requires 1 + |sub| <= j < 1 + |sub| + |rest|
    ensures PlacedAt([pi] + sub + rest, j, nestedMap, prefix, parentTypeName, parentIsPtr)
  {
    var r := [pi] + sub + rest;
    var k := j - 1 - |sub|;
    assert r[j] == rest[k];
    assert PlacedAt(rest, k, nestedMap, prefix, parentTypeName, parentIsPtr);
    if !Direct(rest[k], prefix, parentTypeName, parentIsPtr) {
      var i :| 0 <= i < k && Parent(rest[i], rest[k], nestedMap);
      assert r[i + 1 + |sub|] == rest[i];
      assert Parent(r[i + 1 + |sub|], r[j], nestedMap);
    }
  }

  lemma PlacedConcat(pi: PathInfo, sub: seq<PathInfo>, rest: seq<PathInfo>, nestedMap: map<string, StructInfo>,
                     prefix: string, parentTypeName: string, parentIsPtr: bool, typeName: string)
    requires Direct(pi, prefix, parentTypeName, parentIsPtr)
    requires sub != [] ==> pi.IsLocalStruct && typeName in nestedMap
    requires Placed(sub, nestedMap, pi.Path, typeName, pi.IsPointer || parentIsPtr)
    requires Placed(rest, nestedMap, prefix, parentTypeName, parentIsPtr)
    ensures Placed([pi] + sub + rest, nestedMap, prefix, parentTypeName, parentIsPtr)
  {
    var r := [pi] + sub + rest;
    forall j | 0 <= j < |r| ensures PlacedAt(r, j, nestedMap, prefix, parentTypeName, parentIsPtr) {
      if j == 0 {
        assert r[j] == pi;
      } else if j < 1 + |sub| {
        PlacedInSub(pi, sub, rest, nestedMap, prefix, parentTypeName, parentIsPtr, typeName, j);
      } else {
        PlacedInRest(pi, sub, rest, nestedMap, prefix, parentTypeName, parentIsPtr, j);
      }
    }
  }

  /** Emission is pre-order: every entry of a nested struct comes after
      the entry of the field that holds it, and inherits its pointer-ness. */
  lemma {:induction false} PathsPreOrder(fields: seq<FieldInfo>, nestedMap: map<string, StructInfo>, rank: map<string, nat>, d: nat,
                                         prefix: string, accessorPrefix: string, parentTypeName: string, parentIsPtr: bool)
    requires Ranked(nestedMap, rank) && Below(fields, nestedMap, rank, d)
    ensures Placed(PathsOf(fields, nestedMap, rank, d, prefix, accessorPrefix, parentTypeName, parentIsPtr),
                   nestedMap, prefix, parentTypeName, parentIsPtr)
    decreases d, |fields|
  {
    if fields != [] {
      var f := fields[0];
      var pi := Entry(f, prefix, accessorPrefix, parentTypeName, parentIsPtr);
      BelowSuffix(fields, nestedMap, rank, d, 1);
      var sub := if Recurses(f, nestedMap)
                 then PathsOf(nestedMap[f.TypeName].Fields, nestedMap, rank, rank[f.TypeName],
                              pi.Path, pi.AccessorExpr, f.TypeName, f.IsPointer || parentIsPtr)
                 else [];
      var rest := PathsOf(fields[1..], nestedMap, rank, d, prefix, accessorPrefix, parentTypeName, parentIsPtr);
      assert PathsOf(fields, nestedMap, rank, d, prefix, accessorPrefix, parentTypeName, parentIsPtr) == [pi] + sub + rest;
      if Recurses(f, nestedMap) {
        PathsPreOrder(nestedMap[f.TypeName].Fields, nestedMap, rank, rank[f.TypeName],
                      pi.Path, pi.AccessorExpr, f.TypeName, f.IsPointer || parentIsPtr);
      }
      PathsPreOrder(fields[1..], nestedMap, rank, d, prefix, accessorPrefix, parentTypeName, parentIsPtr);
      PlacedConcat(pi, sub, rest, nestedMap, prefix, parentTypeName, parentIsPtr, f.TypeName);
    }
  }

  /** A nested entry extends its parent's path by one segment, and its
      constant name by the field name. */
  lemma ChildSegments(p: PathInfo, c: PathInfo, nestedMap: map<string, StructInfo>)
    requires EntryShape(p) && EntryShape(c) && Parent(p, c, nestedMap)
    requires p.Path != "" && '.' !in c.FieldName
    ensures c.Segments == p.Segments + [c.FieldName]
    ensures c.Segments[|c.Segments| - 1] == c.FieldName
    ensures c.PathConst == p.PathConst + c.FieldName
  {
    assert c.Path == p.Path + "." + c.FieldName;
    SplitAppend(p.Path, c.FieldName);
    RemoveDotsJoin(p.Path, c.FieldName);
  }

  /** A field of the root has its name as path, constant name and only
      segment. */
  lemma TopSegments(c: PathInfo)
    requires EntryShape(c) && Direct(c, "", "", false) && '.' !in c.FieldName
    ensures c.Path == c.PathConst == c.FieldName && c.Segments == [c.FieldName]
    ensures !c.ParentIsPtr && c.NilCheckPath == "" && c.ParentTypeName == ""
  {
  }

  /** Every path is the join of its segments. */
  lemma SegmentsJoin(r: seq<PathInfo>)
    requires Shaped(r)
    ensures forall j :: 0 <= j < |r| ==> Join(r[j].Segments) == r[j].Path
  {
    forall j | 0 <= j < |r| ensures Join(r[j].Segments) == r[j].Path {
      assert EntryShape(r[j]);
      JoinSplit(r[j].Path);
    }
  }

  /** A root whose fields descend into no struct of the table can always be
      ranked, whatever cycles the table holds: for Root{Items []Node} with
      Node{Next *Node}, the descent stops at the slice and the Next cycle is
      never entered. */
  lemma UnenteredCycleRanked(info: StructInfo, nested: seq<StructInfo>)
    requires forall i :: 0 <= i < |info.Fields| ==> !Recurses(info.Fields[i], NestedMapOf(nested))
    ensures Ranked(NestedMapOf(nested), map[]) && Below(info.Fields, NestedMapOf(nested), map[], 0)
  {
  }

  /** Root{Items []Node} with Node{Next *Node}: BuildPaths may be called on
      it with the empty ranking, while no ranking that includes Node exists. */
  lemma SliceCycleRanked(rank: map<string, nat>)
    requires "Node" in rank
    ensures var node := StructInfo("Node", [EmptyField.(Name := "Next", Type := "*Node", TypeName := "Node",
                                                        IsPointer := true, IsStruct := true)], [], "", "");
            var root := StructInfo("Root", [EmptyField.(Name := "Items", Type := "[]Node", TypeName := "Node",
                                                        IsSlice := true, IsStruct := true)], [], "", "");
            Ranked(NestedMapOf([node]), map[]) && Below(root.Fields, NestedMapOf([node]), map[], 0)
            && !Ranked(NestedMapOf([node]), rank)
  {
    var node := StructInfo("Node", [EmptyField.(Name := "Next", Type := "*Node", TypeName := "Node",
                                                IsPointer := true, IsStruct := true)], [], "", "");
    var root := StructInfo("Root", [EmptyField.(Name := "Items", Type := "[]Node", TypeName := "Node",
                                                IsSlice := true, IsStruct := true)], [], "", "");
    var m := NestedMapOf([node]);
    assert m == map["Node" := node];
    assert Recurses(node.Fields[0], m);
    SelfReferenceUnranked(node, m, rank);
    UnenteredCycleRanked(root, [node]);
  }

  /** A struct that holds a pointer to itself admits no rank, so once the
      descent enters it, the descent does not end. */
  lemma SelfReferenceUnranked(node: StructInfo, nestedMap: map<string, StructInfo>, rank: map<string, nat>)
    requires node.Name in nestedMap && nestedMap[node.Name] == node && node.Name in rank
    requires exists i :: 0 <= i < |node.Fields| && Recurses(node.Fields[i], nestedMap) && node.Fields[i].TypeName == node.Name
    ensures !Ranked(nestedMap, rank)
  {
  }
}
