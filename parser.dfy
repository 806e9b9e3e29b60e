/** The struct analysis shared by the generators (internal/codegen/parser.go):
    classifying a field's type, printing type expressions, turning a struct
    declaration into its field list, collecting imports, finding the local
    struct types a struct refers to, and choosing the imports generated code
    needs.

    Parsing Go source is not modelled: a declaration arrives as `FieldDecl`
    and `ImportSpec` values, and FindStructInPackage is a lookup map from a
    type name to the struct parsed for it. */
module Parser {
  import opened CodegenTypes

  // ---------------------------------------------------------------------
  // isBasicType, exprToString, parseFieldType
  // ---------------------------------------------------------------------

  /** The predeclared type names isBasicType recognises ("any" and "error" included). */
  const BasicTypes: set<string> := {
    "bool", "string",
    "int", "int8", "int16", "int32", "int64",
    "uint", "uint8", "uint16", "uint32", "uint64", "uintptr",
    "byte", "rune", "any", "error",
    "float32", "float64",
    "complex64", "complex128"}

  predicate IsBasicType(name: string)
  {
    name in BasicTypes
  }

  /** exprToString: the Go spelling of a type expression. An interface
      without methods prints as "any"; anything the switch does not know is
      printed by go/types, which is the text it carries here. */
  function ExprToString(e: Expr): string
  {
    match e
    case Ident(name) => name
    case Star(x) => "*" + ExprToString(x)
    case Array(elt) => "[]" + ExprToString(elt)
    case Map(k, v) => "map[" + ExprToString(k) + "]" + ExprToString(v)
    case Selector(x, sel) => ExprToString(x) + "." + sel
    case Interface(n) => if n == 0 then "any" else "interface{}"
    case StructType(text) => text
    case Other(text) => text
  }

  /** The type name of a classified field with its package prefix, as
      parseFieldType spells slice elements and map keys and values. */
  function QualifiedName(fi: FieldInfo): string
  {
    if fi.TypePkg != "" then fi.TypePkg + "." + fi.TypeName else fi.TypeName
  }

  /** parseFieldType: the classification of a field's type. Beyond the
      case analysis itself, the contract states the invariants every
      classification keeps: a slice's or map's TypeName is spelled from
      its element, key and value names; only pointers, slices and maps need
      a deep copy; a struct type name is never a basic type; a package
      prefix only comes with a struct. */
  function ParseFieldType(e: Expr): (r: FieldInfo)
    ensures r.Name == "" && r.Type == "" && r.TypeExpr == None && r.Tag == ""
    ensures r.IsPointer <==> e.Star?
    ensures !(r.IsSlice && r.IsMap)
    ensures r.IsSlice ==> r.TypeName == "[]" + r.SliceType
    ensures r.IsMap ==> r.TypeName == "map[" + r.MapKeyType + "]" + r.MapValType
    ensures r.NeedsDeep ==> r.IsPointer || r.IsSlice || r.IsMap
    ensures r.StructTypeName != "" ==> !IsBasicType(r.StructTypeName)
    ensures r.TypePkg != "" ==> r.IsStruct && !r.IsSlice && !r.IsMap
    ensures r.SliceElemIsPtr ==> r.IsSlice
    ensures e.Ident? ==> r.TypeName == e.Name && (r.IsStruct <==> !IsBasicType(e.Name))
                         && r.StructTypeName == (if r.IsStruct then e.Name else "")
  {
    match e
    case Ident(name) =>
      var isStruct := !IsBasicType(name);
      EmptyField.(TypeName := name, IsStruct := isStruct,
                  StructTypeName := if isStruct then name else "")
    case Selector(x, sel) =>
      if x.Ident? then EmptyField.(TypePkg := x.Name, TypeName := sel, IsStruct := true)
      else EmptyField
    case Star(x) =>
      var fi := ParseFieldType(x);
      fi.(IsPointer := true, NeedsDeep := fi.IsStruct || fi.IsSlice || fi.IsMap)
    case Array(elt) =>
      var el := ParseFieldType(elt);
      var sliceType := QualifiedName(el);
      var local := !IsBasicType(el.TypeName) && el.TypePkg == "";
      var elemIsPtr := el.IsPointer && el.IsStruct;
      EmptyField.(IsSlice := true, SliceType := sliceType, TypeName := "[]" + sliceType,
                  StructTypeName := if local then el.TypeName else "",
                  SliceElemIsPtr := elemIsPtr,
                  NeedsDeep := local || elemIsPtr)
    case Map(k, v) =>
      var key := ParseFieldType(k);
      var val := ParseFieldType(v);
      var keyType := QualifiedName(key);
      var valType := QualifiedName(val);
      var anyVal := valType == "any" || valType == "interface{}";
      var local := !anyVal && !IsBasicType(val.TypeName) && val.TypePkg == "";
      EmptyField.(IsMap := true, MapKeyType := keyType, MapValType := valType,
                  TypeName := "map[" + keyType + "]" + valType,
                  StructTypeName := if local then val.TypeName else "",
                  NeedsDeep := anyVal || local)
    case Interface(_) =>
      EmptyField.(TypeName := "any")
    case StructType(_) => EmptyField
    case Other(_) => EmptyField
  }

  /** A pointer keeps the classification of what it points to, and needs
      a deep copy exactly when that is a struct, slice or map. */
  lemma ParseStar(x: Expr)
    ensures var r := ParseFieldType(Star(x)); var inner := ParseFieldType(x);
            r.IsPointer && r.IsStruct == inner.IsStruct && r.IsSlice == inner.IsSlice
            && r.IsMap == inner.IsMap && r.TypeName == inner.TypeName && r.TypePkg == inner.TypePkg
            && r.StructTypeName == inner.StructTypeName
            && r.NeedsDeep == (inner.IsStruct || inner.IsSlice || inner.IsMap)
  {
  }

  /** A slice needs a deep copy exactly when its element is a local
      non-basic type or a pointer to a struct. */
  lemma ParseArray(elt: Expr)
    ensures var r := ParseFieldType(Array(elt)); var el := ParseFieldType(elt);
            r.IsSlice && r.TypeName == "[]" + QualifiedName(el)
            && r.NeedsDeep == ((!IsBasicType(el.TypeName) && el.TypePkg == "") || (el.IsPointer && el.IsStruct))
  {
  }

  /** A map needs a deep copy exactly when its value type is any or a local
      non-basic type. */
  lemma ParseMap(k: Expr, v: Expr)
    ensures var r := ParseFieldType(Map(k, v)); var val := ParseFieldType(v);
            r.IsMap && r.TypeName == "map[" + QualifiedName(ParseFieldType(k)) + "]" + QualifiedName(val)
            && r.NeedsDeep == (QualifiedName(val) in {"any", "interface{}"} || (!IsBasicType(val.TypeName) && val.TypePkg == ""))
  {
  }

  /** A named type: an identifier, or a package-qualified identifier. */
  predicate NamedType(e: Expr)
  {
    e.Ident? || (e.Selector? && e.X.Ident? && e.X.Name != "")
  }

  /** For a named type, parseFieldType's qualified name is what
      exprToString prints. */
  lemma QualifiedNameIsPrinted(e: Expr)
    requires NamedType(e)
    ensures QualifiedName(ParseFieldType(e)) == ExprToString(e)
  {
  }

  /** A slice of named types, or a map from named types to named types, is
      classified under the very name exprToString prints for it. */
  lemma CollectionTypeNameIsPrinted(e: Expr)
    requires (e.Array? && NamedType(e.Elt)) || (e.Map? && NamedType(e.Key) && NamedType(e.Value))
    ensures ParseFieldType(e).TypeName == ExprToString(e)
  {
    if e.Array? {
      QualifiedNameIsPrinted(e.Elt);
    } else {
      QualifiedNameIsPrinted(e.Key);
      QualifiedNameIsPrinted(e.Value);
    }
  }

  /** `[]*T` for a local struct T: the classification spells the element
      "T", dropping the '*' that exprToString prints; only SliceElemIsPtr
      records it. */
  lemma SlicePointerDropped(t: string)
    requires IsIdentifier(t) && !IsBasicType(t)
    ensures var r := ParseFieldType(Array(Star(Ident(t))));
            r.SliceType == t && r.TypeName == "[]" + t && r.SliceElemIsPtr && r.NeedsDeep
            && ExprToString(Array(Star(Ident(t)))) == "[]*" + t
            && r.TypeName != ExprToString(Array(Star(Ident(t))))
  {
    var id := ParseFieldType(Ident(t));
    assert id.TypePkg == EmptyField.TypePkg == "";
    var el := ParseFieldType(Star(Ident(t)));
    assert el.TypeName == t && el.TypePkg == "" && el.IsPointer && el.IsStruct;
    assert QualifiedName(el) == t;
    assert ExprToString(Star(Ident(t))) == "*" + t;
  }

  /** `map[K]*T` for a local struct T: the value is spelled "T" and no flag
      records the dropped '*'. */
  lemma MapPointerValueDropped(k: string, t: string)
    requires IsIdentifier(t) && !IsBasicType(t)
    ensures var r := ParseFieldType(Map(Ident(k), Star(Ident(t))));
            r.MapValType == t && r.StructTypeName == t && r.NeedsDeep && !r.SliceElemIsPtr
            && r.TypeName != ExprToString(Map(Ident(k), Star(Ident(t))))
  {
    var id := ParseFieldType(Ident(t));
    assert id.TypePkg == EmptyField.TypePkg == "";
    assert ParseFieldType(Ident(k)).TypePkg == "";
    var val := ParseFieldType(Star(Ident(t)));
    assert val.TypeName == t && val.TypePkg == "" && val.IsStruct;
    assert QualifiedName(val) == t;
    assert QualifiedName(ParseFieldType(Ident(k))) == k;
    assert t != "interface{}" by {
      assert '{' !in t;
    }
    assert ExprToString(Star(Ident(t))) == "*" + t;
    assert |ExprToString(Map(Ident(k), Star(Ident(t))))| == |k| + |t| + 6;
  }

  // ---------------------------------------------------------------------
  // parseStructFields
  // ---------------------------------------------------------------------

  /** ast.IsExported on an ASCII identifier: it starts with an upper-case letter. */
  predicate IsExportedIdent(name: string)
  {
    |name| > 0 && 'A' <= name[0] <= 'Z'
  }

  /** The FieldInfo parseStructFields builds for one name of a declaration. */
  function FieldEntry(name: string, d: FieldDecl): FieldInfo
  {
    ParseFieldType(d.Type).(Name := name, TypeExpr := Some(d.Type), Type := ExprToString(d.Type),
                            Tag := if d.Tag.Some? then d.Tag.value else "")
  }

  /** The entries for the names of one declaration, unexported names skipped. */
  function NameEntries(names: seq<string>, d: FieldDecl): (r: seq<FieldInfo>)
    ensures |r| <= |names|
    ensures forall i :: 0 <= i < |r| ==> IsExportedIdent(r[i].Name) && r[i].Name in names && r[i] == FieldEntry(r[i].Name, d)
  {
    if names == [] then []
    else
      var rest := NameEntries(names[..|names| - 1], d);
      var n := names[|names| - 1];
      if IsExportedIdent(n) then rest + [FieldEntry(n, d)] else rest
  }

  /** The entries of a declaration: none for an embedded field. */
  function DeclEntries(d: FieldDecl): seq<FieldInfo>
  {
    if |d.Names| == 0 then [] else NameEntries(d.Names, d)
  }

  /** The field list parseStructFields returns for a struct's declarations. */
  function ParsedFields(decls: seq<FieldDecl>): (r: seq<FieldInfo>)
    ensures forall i :: 0 <= i < |r| ==> IsExportedIdent(r[i].Name)
  {
    if decls == [] then []
    else ParsedFields(decls[..|decls| - 1]) + DeclEntries(decls[|decls| - 1])
  }

  /** Declaration order is kept: the fields of two runs of declarations
      are the fields of the first followed by those of the second. */
  lemma {:induction false} ParsedFieldsAppend(a: seq<FieldDecl>, b: seq<FieldDecl>)
    ensures ParsedFields(a + b) == ParsedFields(a) + ParsedFields(b)
    decreases |b|
  {
    if b == [] {
      assert a + b == a;
    } else {
      var b' := b[..|b| - 1];
      assert (a + b)[..|a + b| - 1] == a + b';
      assert (a + b)[|a + b| - 1] == b[|b| - 1];
      ParsedFieldsAppend(a, b');
    }
  }

  /** Every exported name of the declaration gets its entry. */
  lemma {:induction false} NameEntriesComplete(names: seq<string>, d: FieldDecl, n: string)
    requires n in names && IsExportedIdent(n)
    ensures FieldEntry(n, d) in NameEntries(names, d)
    decreases |names|
  {
    if names[|names| - 1] != n {
      assert n in names[..|names| - 1];
      NameEntriesComplete(names[..|names| - 1], d, n);
    }
  }

  /** Every exported name of every non-embedded declaration gets its
      entry, and every entry is the classification of one such name. */
  lemma {:induction false} ParsedFieldsExactly(decls: seq<FieldDecl>)
    ensures forall j, n :: 0 <= j < |decls| && n in decls[j].Names && IsExportedIdent(n)
              ==> FieldEntry(n, decls[j]) in ParsedFields(decls)
    ensures forall f :: f in ParsedFields(decls)
              ==> exists j :: 0 <= j < |decls| && f.Name in decls[j].Names && f == FieldEntry(f.Name, decls[j])
    decreases |decls|
  {
    if decls != [] {
      var init := decls[..|decls| - 1];
      var last := decls[|decls| - 1];
      ParsedFieldsExactly(init);
      forall j, n | 0 <= j < |decls| && n in decls[j].Names && IsExportedIdent(n)
        ensures FieldEntry(n, decls[j]) in ParsedFields(decls)
      {
        if j == |decls| - 1 {
          NameEntriesComplete(last.Names, last, n);
        } else {
          assert decls[j] == init[j];
        }
      }
      forall f | f in ParsedFields(decls)
        ensures exists j :: 0 <= j < |decls| && f.Name in decls[j].Names && f == FieldEntry(f.Name, decls[j])
      {
        if f in ParsedFields(init) {
          var j :| 0 <= j < |init| && f.Name in init[j].Names && f == FieldEntry(f.Name, init[j]);
          assert decls[j] == init[j];
        } else {
          assert f in DeclEntries(last);
          assert decls[|decls| - 1] == last;
        }
      }
    }
  }

  /** The inner loop of parseStructFields: one entry per exported name of
      a declaration, appended to fields. */
  method AppendNameEntries(fields: seq<FieldInfo>, d: FieldDecl) returns (r: seq<FieldInfo>)
    ensures r == fields + NameEntries(d.Names, d)
  {
    r := fields;
    for j := 0 to |d.Names|
      invariant r == fields + NameEntries(d.Names[..j], d)
    {
      var name := d.Names[j];
      assert d.Names[..j + 1][..j] == d.Names[..j];
      if !IsExportedIdent(name) {
        continue;
      }
      r := r + [FieldEntry(name, d)];
    }
    assert d.Names[..|d.Names|] == d.Names;
  }

  /** parseStructFields: one entry per exported name, in declaration order. */
  method ParseStructFields(decls: seq<FieldDecl>) returns (fields: seq<FieldInfo>)
    ensures fields == ParsedFields(decls)
  {
    fields := [];
    for i := 0 to |decls|
      invariant fields == ParsedFields(decls[..i])
    {
      var d := decls[i];
      assert decls[..i + 1][..i] == decls[..i];
      if |d.Names| == 0 {
        continue;
      }
      fields := AppendNameEntries(fields, d);
    }
    assert decls[..|decls|] == decls;
  }

  // ---------------------------------------------------------------------
  // collectImports
  // ---------------------------------------------------------------------

  /** s without its leading '"' characters. */
  function TrimLeftQuotes(s: string): string
  {
    if |s| > 0 && s[0] == '"' then TrimLeftQuotes(s[1..]) else s
  }

  /** TrimLeftQuotes removes a run of quotes from the front, and no more. */
  lemma {:induction false} TrimLeftQuotesSpec(s: string)
    ensures var r := TrimLeftQuotes(s);
            |r| <= |s| && r == s[|s| - |r|..] && (r == [] || r[0] != '"')
            && forall i :: 0 <= i < |s| - |r| ==> s[i] == '"'
  {
    if |s| > 0 && s[0] == '"' {
      var r := TrimLeftQuotes(s);
      TrimLeftQuotesSpec(s[1..]);
      assert s[1..][|s| - 1 - |r|..] == s[|s| - |r|..];
      forall i | 0 < i < |s| - |r| ensures s[i] == '"' {
        assert s[i] == s[1..][i - 1];
      }
    }
  }

  /** s without its trailing '"' characters. */
  function TrimRightQuotes(s: string): string
  {
    if |s| > 0 && s[|s| - 1] == '"' then TrimRightQuotes(s[..|s| - 1]) else s
  }

  /** TrimRightQuotes removes a run of quotes from the back, and no more. */
  lemma {:induction false} TrimRightQuotesSpec(s: string)
    ensures var r := TrimRightQuotes(s);
            |r| <= |s| && r == s[..|r|] && (r == [] || r[|r| - 1] != '"')
            && forall i :: |r| <= i < |s| ==> s[i] == '"'
  {
    if |s| > 0 && s[|s| - 1] == '"' {
      var r := TrimRightQuotes(s);
      TrimRightQuotesSpec(s[..|s| - 1]);
      assert s[..|s| - 1][..|r|] == s[..|r|];
      forall i | |r| <= i < |s| - 1 ensures s[i] == '"' {
        assert s[i] == s[..|s| - 1][i];
      }
    }
  }

  /** strings.Trim(s, `"`). */
  function TrimQuotes(s: string): string
  {
    TrimRightQuotes(TrimLeftQuotes(s))
  }

  /** strings.Trim(s, `"`) is the part of s between a leading and a
      trailing run of quotes, and neither starts nor ends with a quote. */
  lemma TrimQuotesSpec(s: string)
    ensures var r := TrimQuotes(s);
            var a := |s| - |TrimLeftQuotes(s)|;
            (r == [] || (r[0] != '"' && r[|r| - 1] != '"'))
            && 0 <= a && a + |r| <= |s| && r == s[a..a + |r|]
            && (forall i :: 0 <= i < a ==> s[i] == '"')
            && (forall i :: a + |r| <= i < |s| ==> s[i] == '"')
  {
    var l := TrimLeftQuotes(s);
    var r := TrimQuotes(s);
    TrimLeftQuotesSpec(s);
    TrimRightQuotesSpec(l);
    var a := |s| - |l|;
    assert r == s[a..a + |r|] by {
      assert l[..|r|] == s[a..][..|r|] == s[a..a + |r|];
    }
    forall i | a + |r| <= i < |s| ensures s[i] == '"' {
      assert s[i] == l[i - a];
    }
    if r != [] {
      assert r[0] == l[0];
    }
  }

  /** An import path literal is unquoted back to the path it spells. */
  lemma {:induction false} TrimQuotedPath(p: string)
    requires p == [] || (p[0] != '"' && p[|p| - 1] != '"')
    ensures TrimQuotes("\"" + p + "\"") == p
  {
    var s := "\"" + p + "\"";
    assert s[1..] == p + "\"";
    if p == [] {
      assert TrimLeftQuotes(s[1..]) == [];
    } else {
      assert TrimLeftQuotes(p + "\"") == p + "\"";
      assert (p + "\"")[..|p|] == p;
      assert TrimRightQuotes(p + "\"") == TrimRightQuotes(p) == p;
    }
  }

  function ImportOf(spec: ImportSpec): ImportInfo
  {
    ImportInfo(TrimQuotes(spec.PathLit), if spec.Name.Some? then spec.Name.value else "")
  }

  /** The imports of a list of import lines. */
  function ImportsOf(specs: seq<ImportSpec>): seq<ImportInfo>
  {
    if specs == [] then [] else ImportsOf(specs[..|specs| - 1]) + [ImportOf(specs[|specs| - 1])]
  }

  /** One ImportInfo per import line, in order. */
  lemma {:induction false} ImportsOfLines(specs: seq<ImportSpec>)
    ensures |ImportsOf(specs)| == |specs|
    ensures forall i :: 0 <= i < |specs| ==> ImportsOf(specs)[i] == ImportOf(specs[i])
  {
    if specs != [] {
      var init := specs[..|specs| - 1];
      ImportsOfLines(init);
      forall i | 0 <= i < |init| ensures ImportsOf(specs)[i] == ImportOf(specs[i]) {
        assert specs[i] == init[i];
      }
    }
  }

  /** collectImports. */
  method CollectImports(specs: seq<ImportSpec>) returns (imports: seq<ImportInfo>)
    ensures imports == ImportsOf(specs)
  {
    imports := [];
    for i := 0 to |specs|
      invariant imports == ImportsOf(specs[..i])
    {
      var imp := ImportSpecInfo(specs[i]);
      assert specs[..i + 1][..i] == specs[..i];
      imports := imports + [imp];
    }
    assert specs[..|specs|] == specs;
  }

  /** The body of collectImports' loop: the unquoted path and the alias,
      "" when the line has none. */
  method ImportSpecInfo(spec: ImportSpec) returns (imp: ImportInfo)
    ensures imp == ImportOf(spec)
  {
    var path := TrimQuotes(spec.PathLit);
    var alias := "";
    if spec.Name.Some? {
      alias := spec.Name.value;
    }
    imp := ImportInfo(path, alias);
  }

  // ---------------------------------------------------------------------
  // FindNestedStructs
  // ---------------------------------------------------------------------

  /** FindStructInPackage as a lookup: the struct the package declares
      under each type name, named after that type. */
  ghost predicate WellFormedLookup(lookup: map<string, StructInfo>)
  {
    forall k :: k in lookup ==> lookup[k].Name == k
  }

  /** The state of FindNestedStructs' loop: the structs found so far and
      the names in `seen`. */
  datatype NestedState = NestedState(nested: seq<StructInfo>, seen: set<string>)

  /** Whether the search follows a field: its struct type is local, not
      seen yet, and declared in the package. */
  predicate Follows(f: FieldInfo, seen: set<string>, lookup: map<string, StructInfo>)
  {
    f.StructTypeName != "" && f.TypePkg == "" && f.StructTypeName !in seen && f.StructTypeName in lookup
  }

  /** The loop over a recursive call's results: each one not seen yet is
      marked seen and appended. */
  function AddUnseen(subs: seq<StructInfo>, st: NestedState): NestedState
  {
    if subs == [] then st
    else
      var s := subs[0];
      var st' := if s.Name in st.seen then st else NestedState(st.nested + [s], st.seen + {s.Name});
      AddUnseen(subs[1..], st')
  }

  /** FindNestedStructs as written, given a budget of `fuel` nested calls:
      None when the recursion would go deeper. Every recursive call starts
      over with a `seen` set holding only its own struct's name. */
  function NestedFuel(info: StructInfo, lookup: map<string, StructInfo>, fuel: nat): Option<seq<StructInfo>>
    decreases fuel, 0
  {
    if fuel == 0 then None
    else
      var r := NestedFieldsFuel(info.Fields, lookup, fuel - 1, NestedState([], {info.Name}));
      if r.Some? then Some(r.value.nested) else None
  }

  /** The loop of FindNestedStructs over the remaining fields. */
  function NestedFieldsFuel(fields: seq<FieldInfo>, lookup: map<string, StructInfo>, fuel: nat, st: NestedState): Option<NestedState>
    decreases fuel, 1, |fields|
  {
    if fields == [] then Some(st)
    else if !Follows(fields[0], st.seen, lookup) then NestedFieldsFuel(fields[1..], lookup, fuel, st)
    else
      var tn := fields[0].StructTypeName;
      var sub := NestedFuel(lookup[tn], lookup, fuel);
      if sub.None? then None
      else NestedFieldsFuel(fields[1..], lookup, fuel,
                            AddUnseen(sub.value, NestedState(st.nested + [lookup[tn]], st.seen + {tn})))
  }

  /** The inner loop of FindNestedStructs over a recursive call's results. */
  method AddUnseenLoop(subs: seq<StructInfo>, nested0: seq<StructInfo>, seen0: set<string>)
    returns (nested: seq<StructInfo>, seen: set<string>)
    ensures NestedState(nested, seen) == AddUnseen(subs, NestedState(nested0, seen0))
  {
    nested, seen := nested0, seen0;
    for j := 0 to |subs|
      invariant AddUnseen(subs[j..], NestedState(nested, seen)) == AddUnseen(subs, NestedState(nested0, seen0))
    {
      var sub := subs[j];
      assert subs[j..][1..] == subs[j + 1..];
      if sub.Name !in seen {
        seen := seen + {sub.Name};
        nested := nested + [sub];
      }
    }
  }

  /** FindNestedStructs. Go runs it with no bound and it does not return
      when the recursion never ends; the ghost `fuel` is any budget within
      which it does return, and the result is the one computed within it. */
  method FindNestedStructs(info: StructInfo, lookup: map<string, StructInfo>, ghost fuel: nat)
    returns (nested: seq<StructInfo>)
    requires NestedFuel(info, lookup, fuel).Some?
    ensures nested == NestedFuel(info, lookup, fuel).value
    decreases fuel
  {
    ghost var start := NestedState([], {info.Name});
    nested := [];
    var seen := {info.Name};
    for i := 0 to |info.Fields|
      invariant NestedFieldsFuel(info.Fields[i..], lookup, fuel - 1, NestedState(nested, seen))
             == NestedFieldsFuel(info.Fields, lookup, fuel - 1, start)
    {
      var field := info.Fields[i];
      var typeName := field.StructTypeName;
      assert info.Fields[i..][1..] == info.Fields[i + 1..];
      if typeName == "" || field.TypePkg != "" || typeName in seen {
        continue;
      }
      if typeName !in lookup {
        continue;
      }
      var nestedInfo := lookup[typeName];
      seen := seen + {typeName};
      nested := nested + [nestedInfo];
      var subNested := FindNestedStructs(nestedInfo, lookup, fuel - 1);
      nested, seen := AddUnseenLoop(subNested, nested, seen);
    }
    assert info.Fields[|info.Fields|..] == [];
  }

  /** What the search keeps true: the root and every found struct are in
      `seen`; the found structs have distinct names, none is the root, and
      each is the package's struct of its name. */
  ghost predicate Found(st: NestedState, root: string, lookup: map<string, StructInfo>)
  {
    root in st.seen
    && (forall i :: 0 <= i < |st.nested| ==>
          st.nested[i].Name in st.seen && st.nested[i].Name != root
          && st.nested[i].Name in lookup && lookup[st.nested[i].Name] == st.nested[i])
    && (forall i, j :: 0 <= i < j < |st.nested| ==> st.nested[i].Name != st.nested[j].Name)
  }

  ghost predicate FromLookup(subs: seq<StructInfo>, lookup: map<string, StructInfo>)
  {
    forall i :: 0 <= i < |subs| ==> subs[i].Name in lookup && lookup[subs[i].Name] == subs[i]
  }

  lemma {:induction false} AddUnseenFound(subs: seq<StructInfo>, st: NestedState, root: string, lookup: map<string, StructInfo>)
    requires Found(st, root, lookup) && FromLookup(subs, lookup)
    ensures Found(AddUnseen(subs, st), root, lookup)
    decreases |subs|
  {
    if subs != [] {
      var s := subs[0];
      var st' := if s.Name in st.seen then st else NestedState(st.nested + [s], st.seen + {s.Name});
      assert FromLookup(subs[1..], lookup) by {
        forall i | 0 <= i < |subs[1..]| ensures subs[1..][i] == subs[i + 1] { }
      }
      AddUnseenFound(subs[1..], st', root, lookup);
    }
  }

  /** When FindNestedStructs returns, its result names distinct structs
      of the package, and never the root. */
  lemma {:induction false} NestedFuelFound(info: StructInfo, lookup: map<string, StructInfo>, fuel: nat)
    requires WellFormedLookup(lookup)
    requires NestedFuel(info, lookup, fuel).Some?
    ensures var r := NestedFuel(info, lookup, fuel).value;
            FromLookup(r, lookup)
            && (forall i :: 0 <= i < |r| ==> r[i].Name != info.Name)
            && (forall i, j :: 0 <= i < j < |r| ==> r[i].Name != r[j].Name)
    decreases fuel, 0
  {
    NestedFieldsFuelFound(info.Fields, lookup, fuel - 1, NestedState([], {info.Name}), info.Name);
  }

  lemma {:induction false} NestedFieldsFuelFound(fields: seq<FieldInfo>, lookup: map<string, StructInfo>, fuel: nat, st: NestedState, root: string)
    requires WellFormedLookup(lookup) && Found(st, root, lookup)
    requires NestedFieldsFuel(fields, lookup, fuel, st).Some?
    ensures Found(NestedFieldsFuel(fields, lookup, fuel, st).value, root, lookup)
    decreases fuel, 1, |fields|
  {
    if fields != [] {
      if !Follows(fields[0], st.seen, lookup) {
        NestedFieldsFuelFound(fields[1..], lookup, fuel, st, root);
      } else {
        var tn := fields[0].StructTypeName;
        var st1 := NestedState(st.nested + [lookup[tn]], st.seen + {tn});
        assert Found(st1, root, lookup);
        NestedFuelFound(lookup[tn], lookup, fuel);
        var sub := NestedFuel(lookup[tn], lookup, fuel).value;
        AddUnseenFound(sub, st1, root, lookup);
        NestedFieldsFuelFound(fields[1..], lookup, fuel, AddUnseen(sub, st1), root);
      }
    }
  }

  // ---------------------------------------------------------------------
  // Two structs that refer to each other
  // ---------------------------------------------------------------------

  /** `type A struct { Peer *B }` and `type B struct { Peer *A }`. */
  function PeerField(target: string): FieldInfo
  {
    FieldEntry("Peer", FieldDecl(["Peer"], Star(Ident(target)), None))
  }

  const CycleA: StructInfo := StructInfo("A", [PeerField("B")], [], "cycle.go", "")
  const CycleB: StructInfo := StructInfo("B", [PeerField("A")], [], "cycle.go", "")
  const CycleLookup: map<string, StructInfo> := map["A" := CycleA, "B" := CycleB]

  lemma PeerFieldType(target: string)
    requires target in {"A", "B"}
    ensures PeerField(target).StructTypeName == target && PeerField(target).TypePkg == ""
  {
    assert target !in BasicTypes;
  }

  lemma PeerFieldFollowed(target: string, seen: set<string>)
    requires target in {"A", "B"} && target !in seen
    ensures Follows(PeerField(target), seen, CycleLookup)
  {
    PeerFieldType(target);
  }

  /** As written, FindNestedStructs on A never returns, however deep the
      recursion is allowed to go: A's call follows B, whose fresh `seen`
      lets it follow A again. */
  lemma {:induction false} MutualReferenceNeverReturns(fuel: nat)
    ensures NestedFuel(CycleA, CycleLookup, fuel).None?
    ensures NestedFuel(CycleB, CycleLookup, fuel).None?
  {
    if fuel > 0 {
      MutualReferenceNeverReturns(fuel - 1);
      PeerFieldFollowed("B", {"A"});
      PeerFieldFollowed("A", {"B"});
    }
  }

  /** FindNestedStructs with one `seen` set shared by the whole search:
      the recursive call continues the caller's search instead of starting
      a new one, so every struct is visited once and the search ends on
      every package. */
  function SharedNested(fields: seq<FieldInfo>, lookup: map<string, StructInfo>, st: NestedState): (r: NestedState)
    ensures st.seen <= r.seen
    decreases |lookup.Keys - st.seen|, |fields|
  {
    if fields == [] then st
    else if !Follows(fields[0], st.seen, lookup) then SharedNested(fields[1..], lookup, st)
    else
      var tn := fields[0].StructTypeName;
      var st1 := NestedState(st.nested + [lookup[tn]], st.seen + {tn});
      assert lookup.Keys - st1.seen < lookup.Keys - st.seen by {
        assert tn in lookup.Keys - st.seen;
      }
      SubsetCard(lookup.Keys - st1.seen, lookup.Keys - st.seen);
      var st2 := SharedNested(lookup[tn].Fields, lookup, st1);
      SubsetCard(lookup.Keys - st2.seen, lookup.Keys - st1.seen);
      SharedNested(fields[1..], lookup, st2)
  }

  lemma SubsetCard<T>(a: set<T>, b: set<T>)
    requires a <= b
    ensures |a| <= |b|
    ensures a < b ==> |a| < |b|
  {
    assert b == a + (b - a);
  }

  /** The nested structs of a struct, searched with a shared `seen` set. */
  function FindNestedStructsShared(info: StructInfo, lookup: map<string, StructInfo>): seq<StructInfo>
  {
    SharedNested(info.Fields, lookup, NestedState([], {info.Name})).nested
  }

  lemma {:induction false} SharedNestedFound(fields: seq<FieldInfo>, lookup: map<string, StructInfo>, st: NestedState, root: string)
    requires WellFormedLookup(lookup) && Found(st, root, lookup)
    ensures Found(SharedNested(fields, lookup, st), root, lookup)
    decreases |lookup.Keys - st.seen|, |fields|
  {
    if fields != [] {
      if !Follows(fields[0], st.seen, lookup) {
        SharedNestedFound(fields[1..], lookup, st, root);
      } else {
        var tn := fields[0].StructTypeName;
        var st1 := NestedState(st.nested + [lookup[tn]], st.seen + {tn});
        assert lookup.Keys - st1.seen < lookup.Keys - st.seen by {
          assert tn in lookup.Keys - st.seen;
        }
        SubsetCard(lookup.Keys - st1.seen, lookup.Keys - st.seen);
        assert Found(st1, root, lookup);
        SharedNestedFound(lookup[tn].Fields, lookup, st1, root);
        var st2 := SharedNested(lookup[tn].Fields, lookup, st1);
        SubsetCard(lookup.Keys - st2.seen, lookup.Keys - st1.seen);
        SharedNestedFound(fields[1..], lookup, st2, root);
      }
    }
  }

  /** On every package, the shared search returns distinct structs of the
      package, never the root. */
  lemma FindNestedStructsSharedFound(info: StructInfo, lookup: map<string, StructInfo>)
    requires WellFormedLookup(lookup)
    ensures var r := FindNestedStructsShared(info, lookup);
            FromLookup(r, lookup)
            && (forall i :: 0 <= i < |r| ==> r[i].Name != info.Name)
            && (forall i, j :: 0 <= i < j < |r| ==> r[i].Name != r[j].Name)
  {
    SharedNestedFound(info.Fields, lookup, NestedState([], {info.Name}), info.Name);
  }

  /** On the two structs that refer to each other, the shared search
      returns B for A. */
  lemma MutualReferenceShared()
    ensures FindNestedStructsShared(CycleA, CycleLookup) == [CycleB]
  {
    PeerFieldFollowed("B", {"A"});
    PeerFieldType("A");
    var st0 := NestedState([], {"A"});
    var st1 := NestedState([CycleB], {"A", "B"});
    assert CycleLookup["B"] == CycleB;
    assert NestedState(st0.nested + [CycleLookup["B"]], st0.seen + {"B"}) == st1;
    assert !Follows(PeerField("A"), st1.seen, CycleLookup);
    assert SharedNested([PeerField("A")], CycleLookup, st1) == SharedNested([], CycleLookup, st1);
    assert SharedNested(CycleB.Fields, CycleLookup, st1) == st1;
    assert SharedNested([PeerField("B")], CycleLookup, st0) == SharedNested([], CycleLookup, st1);
  }

  // ---------------------------------------------------------------------
  // CollectRequiredImports
  // ---------------------------------------------------------------------

  /** The packages a type expression names through a selector `pkg.Name`,
      looking through pointers, slices and map keys and values. */
  function SelectorPkgs(e: Expr): set<string>
  {
    match e
    case Selector(x, _) => if x.Ident? then {x.Name} else {}
    case Star(x) => SelectorPkgs(x)
    case Array(elt) => SelectorPkgs(elt)
    case Map(k, v) => SelectorPkgs(k) + SelectorPkgs(v)
    case _ => {}
  }

  /** The packages the fields' types name. */
  function FieldPkgs(fields: seq<FieldInfo>): set<string>
  {
    if fields == [] then {}
    else
      var f := fields[|fields| - 1];
      FieldPkgs(fields[..|fields| - 1]) + (if f.TypeExpr.Some? then SelectorPkgs(f.TypeExpr.value) else {})
  }

  /** The package name an import with this path and alias is used by. */
  function ImportedName(path: string, alias: string): string
  {
    PackageName(ImportInfo(path, alias))
  }

  /** Some import of the map is used under the package name `pkg`. */
  ghost predicate Provides(imports: map<string, string>, pkg: string)
  {
    exists p :: p in imports && ImportedName(p, imports[p]) == pkg
  }

  /** Every import of `needed` is one of the file's, with the same alias. */
  ghost predicate FromFile(needed: map<string, string>, importMap: map<string, string>)
  {
    forall p :: p in needed ==> p in importMap && needed[p] == importMap[p]
  }

  /** The file's imports keyed by path; when a path is imported twice the
      later alias wins. */
  function ImportMapOf(imps: seq<ImportInfo>): (m: map<string, string>)
    ensures m.Keys == set j | 0 <= j < |imps| :: imps[j].Path
  {
    if imps == [] then map[]
    else
      var init := imps[..|imps| - 1];
      var last := imps[|imps| - 1];
      assert (set j | 0 <= j < |imps| :: imps[j].Path) == (set j | 0 <= j < |init| :: init[j].Path) + {last.Path};
      ImportMapOf(init)[last.Path := last.Alias]
  }

  /** Each path maps to the alias of its last import. */
  lemma {:induction false} ImportMapLastWins(imps: seq<ImportInfo>, j: nat)
    requires j < |imps|
    requires forall k :: j < k < |imps| ==> imps[k].Path != imps[j].Path
    ensures imps[j].Path in ImportMapOf(imps) && ImportMapOf(imps)[imps[j].Path] == imps[j].Alias
    decreases |imps|
  {
    if j < |imps| - 1 {
      var init := imps[..|imps| - 1];
      assert init[j] == imps[j];
      ImportMapLastWins(init, j);
    }
  }

  /** The first loop of CollectRequiredImports. */
  method BuildImportMap(fileImports: seq<ImportInfo>) returns (importMap: map<string, string>)
    ensures importMap == ImportMapOf(fileImports)
  {
    importMap := map[];
    for i := 0 to |fileImports|
      invariant importMap == ImportMapOf(fileImports[..i])
    {
      var imp := fileImports[i];
      assert fileImports[..i + 1][..i] == fileImports[..i];
      importMap := importMap[imp.Path := imp.Alias];
    }
    assert fileImports[..|fileImports|] == fileImports;
  }

  lemma {:induction false} ProvidesGrows(needed: map<string, string>, r: map<string, string>, importMap: map<string, string>, pkg: string)
    requires FromFile(needed, importMap) && FromFile(r, importMap) && needed.Keys <= r.Keys
    requires Provides(needed, pkg)
    ensures Provides(r, pkg)
  {
    var p :| p in needed && ImportedName(p, needed[p]) == pkg;
    assert p in r && r[p] == needed[p];
  }

  /** collectImportsFromExpr: for each selector `pkg.Name` in the type,
      an import used under the name `pkg` is added to `needed` (when several
      are, Go's map order picks one). Imports already needed stay. */
  method CollectImportsFromExpr(e: Expr, importMap: map<string, string>, needed: map<string, string>)
    returns (r: map<string, string>)
    requires FromFile(needed, importMap)
    ensures FromFile(r, importMap) && needed.Keys <= r.Keys
    ensures forall p :: p in r && p !in needed ==> ImportedName(p, r[p]) in SelectorPkgs(e)
    ensures forall pkg :: pkg in SelectorPkgs(e) && Provides(importMap, pkg) ==> Provides(r, pkg)
    decreases e
  {
    match e
    case Selector(x, _) =>
      r := needed;
      if !x.Ident? {
        return;
      }
      var todo := importMap.Keys;
      while todo != {}
        invariant todo <= importMap.Keys
        invariant forall p :: p in importMap.Keys - todo ==> ImportedName(p, importMap[p]) != x.Name
        decreases todo
      {
        var path :| path in todo;
        var alias := importMap[path];
        var pkgName := alias;
        if pkgName == "" {
          pkgName := PathBase(path);
        }
        if pkgName == x.Name {
          r := needed[path := alias];
          assert ImportedName(path, r[path]) == x.Name;
          return;
        }
        todo := todo - {path};
      }
    case Star(x) =>
      r := CollectImportsFromExpr(x, importMap, needed);
    case Array(elt) =>
      r := CollectImportsFromExpr(elt, importMap, needed);
    case Map(k, v) =>
      var r1 := CollectImportsFromExpr(k, importMap, needed);
      r := CollectImportsFromExpr(v, importMap, r1);
      forall pkg | pkg in SelectorPkgs(k) && Provides(importMap, pkg)
        ensures Provides(r, pkg)
      {
        ProvidesGrows(r1, r, importMap, pkg);
      }
    case _ =>
      r := needed;
  }

  /** The imports of a map, in the map's iteration order: each path once,
      with its alias. */
  method ImportList(needed: map<string, string>) returns (imports: seq<ImportInfo>)
    ensures forall i, j :: 0 <= i < j < |imports| ==> imports[i].Path != imports[j].Path
    ensures forall i :: 0 <= i < |imports| ==> imports[i].Path in needed && needed[imports[i].Path] == imports[i].Alias
    ensures forall p :: p in needed ==> exists i :: 0 <= i < |imports| && imports[i].Path == p
  {
    imports := [];
    var todo := needed.Keys;
    while todo != {}
      invariant todo <= needed.Keys
      invariant forall i :: 0 <= i < |imports| ==>
                  imports[i].Path in needed.Keys - todo && needed[imports[i].Path] == imports[i].Alias
      invariant forall i, j :: 0 <= i < j < |imports| ==> imports[i].Path != imports[j].Path
      invariant forall p :: p in needed.Keys - todo ==> exists i :: 0 <= i < |imports| && imports[i].Path == p
      decreases todo
    {
      var path :| path in todo;
      ghost var prev := imports;
      imports := imports + [ImportInfo(path, needed[path])];
      forall p | p in needed.Keys - (todo - {path})
        ensures exists i :: 0 <= i < |imports| && imports[i].Path == p
      {
        if p == path {
          assert imports[|prev|].Path == p;
        } else {
          assert p in needed.Keys - todo;
          var i :| 0 <= i < |prev| && prev[i].Path == p;
          assert imports[i].Path == p;
        }
      }
      todo := todo - {path};
    }
    assert needed.Keys - todo == needed.Keys;
  }

  /** The loop of CollectRequiredImports over the fields. */
  method CollectFieldImports(fields: seq<FieldInfo>, importMap: map<string, string>) returns (needed: map<string, string>)
    ensures FromFile(needed, importMap)
    ensures forall p :: p in needed ==> ImportedName(p, needed[p]) in FieldPkgs(fields)
    ensures forall pkg :: pkg in FieldPkgs(fields) && Provides(importMap, pkg) ==> Provides(needed, pkg)
  {
    needed := map[];
    for i := 0 to |fields|
      invariant FromFile(needed, importMap)
      invariant forall p :: p in needed ==> ImportedName(p, needed[p]) in FieldPkgs(fields[..i])
      invariant forall pkg :: pkg in FieldPkgs(fields[..i]) && Provides(importMap, pkg) ==> Provides(needed, pkg)
    {
      var f := fields[i];
      assert fields[..i + 1][..i] == fields[..i];
      if f.TypeExpr.Some? {
        var n := CollectImportsFromExpr(f.TypeExpr.value, importMap, needed);
        forall pkg | pkg in FieldPkgs(fields[..i]) && Provides(importMap, pkg)
          ensures Provides(n, pkg)
        {
          ProvidesGrows(needed, n, importMap, pkg);
        }
        needed := n;
      }
    }
    assert fields[..|fields|] == fields;
  }

  /** CollectRequiredImports: the imports of the file that the fields'
      types use, each path once and with the file's alias for it. Every
      import returned is used by some field's type, and every package a
      field's type names that the file imports is imported. */
  method CollectRequiredImports(fields: seq<FieldInfo>, fileImports: seq<ImportInfo>) returns (imports: seq<ImportInfo>)
    ensures forall i, j :: 0 <= i < j < |imports| ==> imports[i].Path != imports[j].Path
    ensures forall i :: 0 <= i < |imports| ==>
              var m := ImportMapOf(fileImports);
              imports[i].Path in m && m[imports[i].Path] == imports[i].Alias
    ensures forall i :: 0 <= i < |imports| ==> PackageName(imports[i]) in FieldPkgs(fields)
    ensures forall pkg :: pkg in FieldPkgs(fields) && Provides(ImportMapOf(fileImports), pkg) ==>
              exists i :: 0 <= i < |imports| && PackageName(imports[i]) == pkg
  {
    var importMap := BuildImportMap(fileImports);
    var needed := CollectFieldImports(fields, importMap);
    imports := ImportList(needed);
    forall pkg | pkg in FieldPkgs(fields) && Provides(importMap, pkg)
      ensures exists i :: 0 <= i < |imports| && PackageName(imports[i]) == pkg
    {
      var p :| p in needed && ImportedName(p, needed[p]) == pkg;
      var i :| 0 <= i < |imports| && imports[i].Path == p;
      assert PackageName(imports[i]) == pkg;
    }
  }
}
