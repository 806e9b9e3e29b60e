/** The copy subtool's analysis (internal/codegen/copy/copy.go): how it
    classifies a struct's fields, which imports the generated file needs,
    and how it walks the nested struct types, building each one once.

    go/parser's output is given as values (see CodegenTypes); the struct
    types of the package, which findStruct locates with ast.Inspect, are a
    map from type name to the struct's field declarations and the imports
    of the file that declares it. */
module CopyGen {
  import opened CodegenTypes
  import Parser

  // ---------------------------------------------------------------------
  // isBasicType, needsDeepCopy, exprToString
  // ---------------------------------------------------------------------

  /** copy's isBasicType: the parser's list without "error". */
  const CopyBasicTypes: set<string> := {
    "bool", "string",
    "int", "int8", "int16", "int32", "int64",
    "uint", "uint8", "uint16", "uint32", "uint64", "uintptr",
    "float32", "float64",
    "complex64", "complex128",
    "byte", "rune", "any"}

  predicate IsBasicCopy(name: string)
  {
    name in CopyBasicTypes
  }

  /** The two isBasicType lists differ in "error" alone. */
  lemma BasicTypesDiffer()
    ensures Parser.BasicTypes == CopyBasicTypes + {"error"}
    ensures "error" !in CopyBasicTypes
  {
  }

  /** needsDeepCopy: composite type expressions. */
  function NeedsDeepCopy(e: Expr): bool
  {
    e.StructType? || e.Array? || e.Map? || e.Star?
  }

  /** needsDeepCopy holds exactly for an inline struct and for the types
      the parser classifies as a pointer, a slice or a map. */
  lemma NeedsDeepCopyComposite(e: Expr)
    ensures NeedsDeepCopy(e) <==>
              (var p := Parser.ParseFieldType(e); p.IsPointer || p.IsSlice || p.IsMap || e.StructType?)
  {
  }

  /** copy's exprToString: like the parser's, but an expression the switch
      does not know (an inline struct, a func, a chan) prints as "". */
  function CopyExprToString(e: Expr): string
  {
    match e
    case Ident(name) => name
    case Star(x) => "*" + CopyExprToString(x)
    case Array(elt) => "[]" + CopyExprToString(elt)
    case Map(k, v) => "map[" + CopyExprToString(k) + "]" + CopyExprToString(v)
    case Selector(x, sel) => CopyExprToString(x) + "." + sel
    case Interface(n) => if n == 0 then "any" else "interface{}"
    case StructType(_) => ""
    case Other(_) => ""
  }

  /** An expression with no inline struct and no type outside the switch. */
  predicate Printable(e: Expr)
  {
    match e
    case Star(x) => Printable(x)
    case Array(elt) => Printable(elt)
    case Map(k, v) => Printable(k) && Printable(v)
    case Selector(x, _) => Printable(x)
    case StructType(_) => false
    case Other(_) => false
    case _ => true
  }

  /** The two exprToString functions agree on every expression both
      switches know. */
  lemma {:induction false} PrintersAgree(e: Expr)
    requires Printable(e)
    ensures CopyExprToString(e) == Parser.ExprToString(e)
  {
    match e
    case Star(x) => PrintersAgree(x);
    case Array(elt) => PrintersAgree(elt);
    case Map(k, v) => PrintersAgree(k); PrintersAgree(v);
    case Selector(x, _) => PrintersAgree(x);
    case _ =>
  }

  // ---------------------------------------------------------------------
  // analyzeType, analyzeFields
  // ---------------------------------------------------------------------

  /** copy's fieldInfo. */
  datatype CopyField = CopyField(
    Name: string,
    Type: string,
    TypeExpr: Expr,
    IsPointer: bool,
    IsSlice: bool,
    IsMap: bool,
    IsStruct: bool,
    ElemType: string,
    KeyType: string,
    ValueType: string,
    NeedsDeep: bool,
    StructTypeName: string,
    SliceElemIsPtr: bool)

  /** `fieldInfo{Name: name, Type: exprToString(e), TypeExpr: e}`. */
  function NewCopyField(name: string, e: Expr): CopyField
  {
    CopyField(name, CopyExprToString(e), e, false, false, false, false, "", "", "", false, "", false)
  }

  predicate EndsWith(s: string, suffix: string)
  {
    |suffix| <= |s| && s[|s| - |suffix|..] == suffix
  }

  /** analyzeType: the updates it makes through *fi. The contract states
      what every analysis keeps: the name and type are untouched, and the
      shape flags only ever turn on, each for its own kind of expression.
      The lemmas below state the rest. */
  function AnalyzeType(e: Expr, fi: CopyField): (r: CopyField)
    ensures r.Name == fi.Name && r.Type == fi.Type && r.TypeExpr == fi.TypeExpr
    ensures r.IsPointer == (fi.IsPointer || e.Star?)
    ensures r.IsSlice == (fi.IsSlice || e.Array?)
    ensures r.IsMap == (fi.IsMap || e.Map?)
  {
    match e
    case Star(x) =>
      var fi1 := fi.(IsPointer := true, ElemType := CopyExprToString(x));
      if x.Ident? && !IsBasicCopy(x.Name) then fi1.(StructTypeName := x.Name, NeedsDeep := true)
      else fi1.(NeedsDeep := NeedsDeepCopy(x))
    case Array(elt) =>
      var fi1 := fi.(IsSlice := true, ElemType := CopyExprToString(elt));
      if elt.Ident? then
        if !IsBasicCopy(elt.Name) then fi1.(StructTypeName := elt.Name, NeedsDeep := true) else fi1
      else if elt.Star? then
        if elt.X.Ident? && !IsBasicCopy(elt.X.Name) then
          fi1.(StructTypeName := elt.X.Name, SliceElemIsPtr := true, NeedsDeep := true)
        else fi1
      else fi1.(NeedsDeep := NeedsDeepCopy(elt))
    case Map(k, v) =>
      var fi1 := fi.(IsMap := true, KeyType := CopyExprToString(k), ValueType := CopyExprToString(v));
      if fi1.ValueType == "any" || fi1.ValueType == "interface{}" then fi1.(NeedsDeep := true)
      else if v.Ident? then
        if !IsBasicCopy(v.Name) then fi1.(StructTypeName := v.Name, NeedsDeep := true) else fi1
      else if v.Star? then
        if v.X.Ident? && !IsBasicCopy(v.X.Name) then fi1.(StructTypeName := v.X.Name, NeedsDeep := true)
        else fi1
      else fi1.(NeedsDeep := NeedsDeepCopy(v))
    case StructType(_) => fi.(IsStruct := true)
    case Ident(name) =>
      if !IsBasicCopy(name) then fi.(IsStruct := true, StructTypeName := name) else fi
    case Selector(x, sel) =>
      if !x.Ident? then fi.(IsStruct := true)
      else if x.Name == "time" && sel == "Time" then fi
      else fi.(IsStruct := true)
    case Interface(_) => fi
    case Other(_) => fi
  }

  /** A deep copy is only asked for composite types. */
  lemma AnalyzeTypeDeep(e: Expr, fi: CopyField)
    ensures AnalyzeType(e, fi).NeedsDeep ==> fi.NeedsDeep || NeedsDeepCopy(e)
  {
    match e
    case Star(_) =>
    case Array(_) =>
    case Map(_, _) =>
    case _ =>
  }

  /** A struct is only recorded for named types and inline structs. */
  lemma AnalyzeTypeStruct(e: Expr, fi: CopyField)
    ensures var r := AnalyzeType(e, fi);
            r.IsStruct != fi.IsStruct ==> r.IsStruct && (e.StructType? || e.Ident? || e.Selector?)
  {
    match e
    case Star(_) =>
    case Array(_) =>
    case Map(_, _) =>
    case _ =>
  }

  /** A pointer element is only recorded for a slice of pointers. */
  lemma AnalyzeTypeSliceOfPointers(e: Expr, fi: CopyField)
    ensures AnalyzeType(e, fi).SliceElemIsPtr ==> fi.SliceElemIsPtr || (e.Array? && e.Elt.Star?)
  {
    match e
    case Star(_) =>
    case Array(_) =>
    case Map(_, _) =>
    case _ =>
  }

  /** The struct type name analyzeType records is never a basic type, and
      is the name the printed type ends with: `T`, `*T`, `[]T`, `[]*T`,
      `map[K]T` or `map[K]*T`. */
  lemma StructTypeNameIsPrinted(e: Expr, fi: CopyField)
    requires AnalyzeType(e, fi).StructTypeName != fi.StructTypeName
    ensures var t := AnalyzeType(e, fi).StructTypeName;
            !IsBasicCopy(t) && EndsWith(CopyExprToString(e), t)
  {
    match e
    case Ident(n) =>
      EndsWithSelf(n);
    case Star(x) =>
      StarNamePrinted(x, fi);
    case Array(elt) =>
      ArrayNamePrinted(elt, fi);
    case Map(k, v) =>
      MapNamePrinted(k, v, fi);
  }

  /** A name `T` is printed at the end of `*T`. */
  lemma PointerEndsWith(t: string)
    ensures EndsWith("*" + t, t)
  {
    EndsWithSelf(t);
    EndsWithConcat("*", t, t);
  }

  lemma StarNamePrinted(x: Expr, fi: CopyField)
    requires AnalyzeType(Star(x), fi).StructTypeName != fi.StructTypeName
    ensures var t := AnalyzeType(Star(x), fi).StructTypeName;
            !IsBasicCopy(t) && EndsWith(CopyExprToString(Star(x)), t)
  {
    PointerEndsWith(x.Name);
  }

  lemma ArrayNamePrinted(elt: Expr, fi: CopyField)
    requires AnalyzeType(Array(elt), fi).StructTypeName != fi.StructTypeName
    ensures var t := AnalyzeType(Array(elt), fi).StructTypeName;
            !IsBasicCopy(t) && EndsWith(CopyExprToString(Array(elt)), t)
  {
    var r := AnalyzeType(Array(elt), fi);
    if elt.Star? {
      assert elt.X.Ident? && r.StructTypeName == elt.X.Name;
      var t := elt.X.Name;
      assert CopyExprToString(elt) == "*" + CopyExprToString(elt.X) == "*" + t;
      assert CopyExprToString(Array(elt)) == "[]" + ("*" + t);
      PointerEndsWith(t);
      EndsWithConcat("[]", "*" + t, t);
    } else {
      assert elt.Ident? && r.StructTypeName == elt.Name;
      EndsWithSelf(elt.Name);
      EndsWithConcat("[]", elt.Name, elt.Name);
    }
  }

  lemma MapNamePrinted(k: Expr, v: Expr, fi: CopyField)
    requires AnalyzeType(Map(k, v), fi).StructTypeName != fi.StructTypeName
    ensures var t := AnalyzeType(Map(k, v), fi).StructTypeName;
            !IsBasicCopy(t) && EndsWith(CopyExprToString(Map(k, v)), t)
  {
    var prefix := "map[" + CopyExprToString(k) + "]";
    assert CopyExprToString(Map(k, v)) == prefix + CopyExprToString(v);
    var r := AnalyzeType(Map(k, v), fi);
    if v.Star? {
      assert v.X.Ident? && r.StructTypeName == v.X.Name;
      var t := v.X.Name;
      assert CopyExprToString(v) == "*" + t;
      PointerEndsWith(t);
      EndsWithConcat(prefix, "*" + t, t);
    } else {
      assert v.Ident? && r.StructTypeName == v.Name;
      EndsWithSelf(v.Name);
      EndsWithConcat(prefix, v.Name, v.Name);
    }
  }

  lemma EndsWithSelf(t: string)
    ensures EndsWith(t, t)
  {
    assert t[0..] == t;
  }

  lemma EndsWithConcat(a: string, b: string, t: string)
    requires EndsWith(b, t)
    ensures EndsWith(a + b, t)
  {
    assert (a + b)[|a + b| - |t|..] == b[|b| - |t|..];
  }

  /** A pointer to a non-basic identifier records the identifier and asks
      for a deep copy. */
  lemma AnalyzePointerToNamed(x: string, fi: CopyField)
    requires !IsBasicCopy(x)
    ensures var r := AnalyzeType(Star(Ident(x)), fi);
            r.StructTypeName == x && r.NeedsDeep && r.ElemType == x
  {
  }

  /** A map with an `any` value is copied deeply, and its value type is
      not looked at further. */
  lemma AnalyzeMapOfAny(k: Expr, v: Expr, fi: CopyField)
    requires CopyExprToString(v) in {"any", "interface{}"}
    ensures var r := AnalyzeType(Map(k, v), fi);
            r.NeedsDeep && r.StructTypeName == fi.StructTypeName && r.ValueType == CopyExprToString(v)
            && r.KeyType == CopyExprToString(k)
  {
  }

  /** Of the selectors, time.Time alone is not a struct. */
  lemma AnalyzeSelector(x: Expr, sel: string, fi: CopyField)
    ensures AnalyzeType(Selector(x, sel), fi).IsStruct <==> fi.IsStruct || !(x == Ident("time") && sel == "Time")
  {
  }

  /** The field analyzeFields records for one name of a declaration. */
  function AnalyzedEntry(name: string, t: Expr): CopyField
  {
    AnalyzeType(t, NewCopyField(name, t))
  }

  /** time.Time is copied by assignment; any other package's named type is
      taken for a struct. The parser, by contrast, takes both for structs. */
  lemma SelectorsClassified(pkg: string, sel: string)
    requires pkg != "" && pkg != "time"
    ensures !AnalyzedEntry("At", Selector(Ident("time"), "Time")).IsStruct
    ensures AnalyzedEntry("ID", Selector(Ident(pkg), sel)).IsStruct
    ensures Parser.ParseFieldType(Selector(Ident("time"), "Time")).IsStruct
  {
  }

  /** A field of type `error` is a struct named "error" to the copy
      subtool, while the parser takes it for a basic type. */
  lemma ErrorFieldDiffers()
    ensures var f := AnalyzedEntry("Err", Ident("error"));
            f.IsStruct && f.StructTypeName == "error"
    ensures !Parser.ParseFieldType(Ident("error")).IsStruct
  {
    assert "error" in Parser.BasicTypes;
  }

  /** The entries for the names of one declaration, unexported names skipped. */
  function CopyNameEntries(names: seq<string>, d: FieldDecl): seq<CopyField>
  {
    if names == [] then []
    else
      var rest := CopyNameEntries(names[..|names| - 1], d);
      var n := names[|names| - 1];
      if Parser.IsExportedIdent(n) then rest + [AnalyzedEntry(n, d.Type)] else rest
  }

  /** The field list analyzeFields returns for a struct's declarations. */
  function AnalyzedFields(decls: seq<FieldDecl>): seq<CopyField>
  {
    if decls == [] then []
    else
      var d := decls[|decls| - 1];
      AnalyzedFields(decls[..|decls| - 1]) + (if |d.Names| == 0 then [] else CopyNameEntries(d.Names, d))
  }

  /** Both subtools see the same fields: name for name and type for type,
      analyzeFields lists exactly the fields parseStructFields does. */
  predicate SameFields(a: seq<CopyField>, p: seq<FieldInfo>)
  {
    |a| == |p| && forall i :: 0 <= i < |a| ==> a[i].Name == p[i].Name && p[i].TypeExpr == Some(a[i].TypeExpr)
  }

  lemma {:induction false} SameFieldsAppend(a: seq<CopyField>, p: seq<FieldInfo>, a': seq<CopyField>, p': seq<FieldInfo>)
    requires SameFields(a, p) && SameFields(a', p')
    ensures SameFields(a + a', p + p')
  {
    forall i | 0 <= i < |a + a'|
      ensures (a + a')[i].Name == (p + p')[i].Name && (p + p')[i].TypeExpr == Some((a + a')[i].TypeExpr)
    {
      if i >= |a| {
        assert (a + a')[i] == a'[i - |a|] && (p + p')[i] == p'[i - |a|];
      }
    }
  }

  lemma {:induction false} NameEntriesAgree(names: seq<string>, d: FieldDecl)
    ensures SameFields(CopyNameEntries(names, d), Parser.NameEntries(names, d))
    decreases |names|
  {
    if names != [] {
      var n := names[|names| - 1];
      NameEntriesAgree(names[..|names| - 1], d);
      if Parser.IsExportedIdent(n) {
        SameFieldsAppend(CopyNameEntries(names[..|names| - 1], d), Parser.NameEntries(names[..|names| - 1], d),
                         [AnalyzedEntry(n, d.Type)], [Parser.FieldEntry(n, d)]);
      }
    }
  }

  lemma {:induction false} AnalyzedFieldsAgree(decls: seq<FieldDecl>)
    ensures SameFields(AnalyzedFields(decls), Parser.ParsedFields(decls))
    decreases |decls|
  {
    if decls != [] {
      var d := decls[|decls| - 1];
      AnalyzedFieldsAgree(decls[..|decls| - 1]);
      if |d.Names| != 0 {
        NameEntriesAgree(d.Names, d);
      }
      var mine := if |d.Names| == 0 then [] else CopyNameEntries(d.Names, d);
      assert SameFields(mine, Parser.DeclEntries(d));
      SameFieldsAppend(AnalyzedFields(decls[..|decls| - 1]), Parser.ParsedFields(decls[..|decls| - 1]),
                       mine, Parser.DeclEntries(d));
      assert AnalyzedFields(decls) == AnalyzedFields(decls[..|decls| - 1]) + mine;
      assert Parser.ParsedFields(decls) == Parser.ParsedFields(decls[..|decls| - 1]) + Parser.DeclEntries(d);
    }
  }

  /** analyzeFields. */
  method AnalyzeFields(decls: seq<FieldDecl>) returns (fields: seq<CopyField>)
    ensures fields == AnalyzedFields(decls)
  {
    fields := [];
    for i := 0 to |decls|
      invariant fields == AnalyzedFields(decls[..i])
    {
      var d := decls[i];
      assert decls[..i + 1][..i] == decls[..i];
      if |d.Names| == 0 {
        continue;
      }
      ghost var before := fields;
      for j := 0 to |d.Names|
        invariant fields == before + CopyNameEntries(d.Names[..j], d)
      {
        var name := d.Names[j];
        assert d.Names[..j + 1][..j] == d.Names[..j];
        if !Parser.IsExportedIdent(name) {
          continue;
        }
        var fi := NewCopyField(name, d.Type);
        fi := AnalyzeType(d.Type, fi);
        fields := fields + [fi];
      }
      assert d.Names[..|d.Names|] == d.Names;
    }
    assert decls[..|decls|] == decls;
  }

  // ---------------------------------------------------------------------
  // The generator: imports, nested types
  // ---------------------------------------------------------------------

  /** Run's default: the method is called "Copy" unless named. */
  function MethodNameOrDefault(name: string): (r: string)
    ensures r != ""
    ensures name != "" ==> r == name
  {
    if name == "" then "Copy" else name
  }

  /** A struct type of the package: its field declarations, and the imports
      of the file that declares it. */
  datatype StructDecl = StructDecl(Fields: seq<FieldDecl>, FileImports: seq<ImportInfo>)

  datatype TemplateData = TemplateData(
    Package: string,
    TypeName: string,
    MethodName: string,
    Fields: seq<CopyField>,
    Imports: seq<ImportInfo>,
    NestedTypes: seq<TemplateData>,
    IsNestedType: bool)

  function TypeNames(ds: seq<TemplateData>): seq<string>
  {
    if ds == [] then [] else [ds[0].TypeName] + TypeNames(ds[1..])
  }

  lemma {:induction false} TypeNamesAppend(a: seq<TemplateData>, b: seq<TemplateData>)
    ensures TypeNames(a + b) == TypeNames(a) + TypeNames(b)
    decreases |a|
  {
    if a == [] {
      assert a + b == b;
    } else {
      assert (a + b)[1..] == a[1..] + b;
      TypeNamesAppend(a[1..], b);
    }
  }

  predicate Distinct(s: seq<string>)
  {
    forall i, j :: 0 <= i < j < |s| ==> s[i] != s[j]
  }

  /** The list collectNestedTypes returns is flat, yet every entry still
      carries its own nested types, which follow it in the list: setting
      `data.NestedTypes = nil` after the append changes only the local
      copy. */
  ghost predicate Flattened(ds: seq<TemplateData>)
  {
    forall k :: 0 <= k < |ds| ==> ds[k].NestedTypes <= ds[k + 1..]
  }

  lemma {:induction false} FlattenedAppend(a: seq<TemplateData>, data: TemplateData)
    requires Flattened(a) && Flattened(data.NestedTypes)
    ensures Flattened(a + [data] + data.NestedTypes)
  {
    var r := a + [data] + data.NestedTypes;
    forall k | 0 <= k < |r|
      ensures r[k].NestedTypes <= r[k + 1..]
    {
      if k < |a| {
        assert r[k + 1..] == a[k + 1..] + [data] + data.NestedTypes;
      } else if k == |a| {
        assert r[k + 1..] == data.NestedTypes;
      } else {
        assert r[k] == data.NestedTypes[k - |a| - 1];
        assert r[k + 1..] == data.NestedTypes[k - |a|..];
      }
    }
  }

  /** Appending a nested type and its own nested types keeps the list
      flat and its names in order. */
  lemma NestedAppend(nested: seq<TemplateData>, data: TemplateData, structs: map<string, StructDecl>)
    requires Flattened(nested) && Flattened(data.NestedTypes)
    requires forall k :: 0 <= k < |nested| ==> nested[k].IsNestedType && nested[k].TypeName in structs
    requires data.IsNestedType && data.TypeName in structs
    requires forall k :: 0 <= k < |data.NestedTypes| ==>
               data.NestedTypes[k].IsNestedType && data.NestedTypes[k].TypeName in structs
    ensures var r := nested + [data] + data.NestedTypes;
            Flattened(r)
            && TypeNames(r) == TypeNames(nested) + [data.TypeName] + TypeNames(data.NestedTypes)
            && forall k :: 0 <= k < |r| ==> r[k].IsNestedType && r[k].TypeName in structs
  {
    FlattenedAppend(nested, data);
    TypeNamesAppend(nested + [data], data.NestedTypes);
    TypeNamesAppend(nested, [data]);
    assert TypeNames([data]) == [data.TypeName];
  }

  /** The packages named by the types of slice and map fields. */
  function SliceMapPkgs(fields: seq<CopyField>): set<string>
  {
    if fields == [] then {}
    else
      var f := fields[|fields| - 1];
      SliceMapPkgs(fields[..|fields| - 1]) + (if f.IsSlice || f.IsMap then Parser.SelectorPkgs(f.TypeExpr) else {})
  }

  /** Some map field is copied with maps.Clone. */
  predicate NeedsMapsPkg(fields: seq<CopyField>)
  {
    exists i :: 0 <= i < |fields| && fields[i].IsMap && !fields[i].NeedsDeep
  }

  /** Every import collectRequiredImports lists is "maps" or one of the
      recorded imports that a slice or map field's type names. */
  lemma {:induction false} RequiredImportsSound(fields: seq<CopyField>, imports: map<string, string>, fromTypes: map<string, string>,
                             needed: map<string, string>, imps: seq<ImportInfo>)
    requires Parser.FromFile(fromTypes, imports)
    requires forall p :: p in fromTypes ==> Parser.ImportedName(p, fromTypes[p]) in SliceMapPkgs(fields)
    requires needed == if NeedsMapsPkg(fields) then fromTypes["maps" := ""] else fromTypes
    requires forall i :: 0 <= i < |imps| ==> imps[i].Path in needed && needed[imps[i].Path] == imps[i].Alias
    ensures forall i :: 0 <= i < |imps| ==>
              (imps[i] == ImportInfo("maps", "") && NeedsMapsPkg(fields))
              || (imps[i].Path in imports && imports[imps[i].Path] == imps[i].Alias
                  && PackageName(imps[i]) in SliceMapPkgs(fields))
  {
    forall i | 0 <= i < |imps| && !(imps[i] == ImportInfo("maps", "") && NeedsMapsPkg(fields))
      ensures imps[i].Path in imports && imports[imps[i].Path] == imps[i].Alias
              && PackageName(imps[i]) in SliceMapPkgs(fields)
    {
      var p := imps[i].Path;
      assert p in fromTypes && fromTypes[p] == imps[i].Alias;
      assert PackageName(imps[i]) == Parser.ImportedName(p, fromTypes[p]);
    }
  }

  /** "maps" is listed whenever a map field is copied with maps.Clone. */
  lemma MapsImportListed(fields: seq<CopyField>, fromTypes: map<string, string>,
                         needed: map<string, string>, imps: seq<ImportInfo>)
    requires needed == if NeedsMapsPkg(fields) then fromTypes["maps" := ""] else fromTypes
    requires forall i :: 0 <= i < |imps| ==> imps[i].Path in needed && needed[imps[i].Path] == imps[i].Alias
    requires forall p :: p in needed ==> exists i :: 0 <= i < |imps| && imps[i].Path == p
    ensures NeedsMapsPkg(fields) ==> exists i :: 0 <= i < |imps| && imps[i] == ImportInfo("maps", "")
  {
    if NeedsMapsPkg(fields) {
      assert "maps" in needed;
      var i :| 0 <= i < |imps| && imps[i].Path == "maps";
      assert imps[i] == ImportInfo("maps", "");
    }
  }

  /** Every package a slice or map field's type names, and the recorded
      imports provide, is imported (when no recorded import has the path
      "maps", which the "maps" entry would overwrite). */
  lemma RequiredImportsComplete(fields: seq<CopyField>, imports: map<string, string>, fromTypes: map<string, string>,
                                needed: map<string, string>, imps: seq<ImportInfo>)
    requires "maps" !in imports
    requires Parser.FromFile(fromTypes, imports)
    requires forall pkg :: pkg in SliceMapPkgs(fields) && Parser.Provides(imports, pkg) ==> Parser.Provides(fromTypes, pkg)
    requires needed == if NeedsMapsPkg(fields) then fromTypes["maps" := ""] else fromTypes
    requires forall p :: p in needed ==> exists i :: 0 <= i < |imps| && imps[i].Path == p
    requires forall i :: 0 <= i < |imps| ==> imps[i].Path in needed && needed[imps[i].Path] == imps[i].Alias
    ensures forall pkg :: pkg in SliceMapPkgs(fields) && Parser.Provides(imports, pkg) ==>
              exists i :: 0 <= i < |imps| && PackageName(imps[i]) == pkg
  {
    forall pkg | pkg in SliceMapPkgs(fields) && Parser.Provides(imports, pkg)
      ensures exists i :: 0 <= i < |imps| && PackageName(imps[i]) == pkg
    {
      assert Parser.Provides(fromTypes, pkg);
      var p :| p in fromTypes && Parser.ImportedName(p, fromTypes[p]) == pkg;
      assert p != "maps" && p in needed && needed[p] == fromTypes[p];
      var i :| 0 <= i < |imps| && imps[i].Path == p;
      assert PackageName(imps[i]) == pkg;
    }
  }

  /** What collectRequiredImports promises of its list, given the recorded
      imports: each path once; each entry is "maps" (no alias), listed
      exactly when a map field is copied with maps.Clone, or a recorded
      import with its alias that a slice or map field's type names; and
      every package such a type names that the recorded imports provide is
      listed (when no recorded import has the path "maps"). */
  ghost predicate RequiredImports(imps: seq<ImportInfo>, fields: seq<CopyField>, imports: map<string, string>)
  {
    (forall i, j :: 0 <= i < j < |imps| ==> imps[i].Path != imps[j].Path)
    && (forall i :: 0 <= i < |imps| ==>
          (imps[i] == ImportInfo("maps", "") && NeedsMapsPkg(fields))
          || (imps[i].Path in imports && imports[imps[i].Path] == imps[i].Alias
              && PackageName(imps[i]) in SliceMapPkgs(fields)))
    && (NeedsMapsPkg(fields) ==> exists i :: 0 <= i < |imps| && imps[i] == ImportInfo("maps", ""))
    && ("maps" !in imports ==>
          forall pkg :: pkg in SliceMapPkgs(fields) && Parser.Provides(imports, pkg) ==>
            exists i :: 0 <= i < |imps| && PackageName(imps[i]) == pkg)
  }

  /** The recorded imports after findStruct has visited the files of the
      types ts, in order, starting from imports. */
  function ImportsAfter(imports: map<string, string>, structs: map<string, StructDecl>, ts: seq<string>): map<string, string>
  {
    if ts == [] then imports
    else
      var t := ts[|ts| - 1];
      ImportsAfter(imports, structs, ts[..|ts| - 1])
        + (if t in structs then Parser.ImportMapOf(structs[t].FileImports) else map[])
  }

  lemma {:induction false} ImportsAfterAppend(imports: map<string, string>, structs: map<string, StructDecl>,
                                              a: seq<string>, b: seq<string>)
    ensures ImportsAfter(imports, structs, a + b) == ImportsAfter(ImportsAfter(imports, structs, a), structs, b)
    decreases |b|
  {
    if b == [] {
      assert a + b == a;
    } else {
      assert (a + b)[..|a + b| - 1] == a + b[..|b| - 1];
      ImportsAfterAppend(imports, structs, a, b[..|b| - 1]);
    }
  }

  /** One nested type built: its file's imports, then those of its own
      nested types. */
  lemma ImportsAfterNested(imports: map<string, string>, structs: map<string, StructDecl>,
                           ns: seq<string>, t: string, ds: seq<string>)
    requires t in structs
    ensures ImportsAfter(ImportsAfter(imports, structs, ns) + Parser.ImportMapOf(structs[t].FileImports), structs, ds)
         == ImportsAfter(imports, structs, ns + [t] + ds)
  {
    assert (ns + [t])[..|ns + [t]| - 1] == ns;
    ImportsAfterAppend(imports, structs, ns + [t], ds);
  }

  lemma SeqAssoc<T>(a: seq<T>, b: seq<T>, c: seq<T>, d: seq<T>)
    ensures a + b + c + d == a + (b + c + d)
  {
  }

  function NameSet(s: seq<string>): set<string>
  {
    set x | x in s
  }

  lemma NameSetNested(a: seq<string>, t: string, b: seq<string>)
    ensures NameSet(a + [t] + b) == NameSet(a) + {t} + NameSet(b)
  {
    assert forall x :: x in a + [t] + b <==> x in a || x == t || x in b;
  }

  /** One nested type appended to collectNestedTypes' list, after its
      file's imports were recorded and its data built: the list stays in
      step with built, processed and imports. */
  lemma NestedCollected(structs: map<string, StructDecl>, nested: seq<TemplateData>, data: TemplateData,
                        base: seq<string>, baseProcessed: set<string>, baseImports: map<string, string>,
                        built: seq<string>, processed: set<string>, imports: map<string, string>)
    requires Flattened(nested) && Flattened(data.NestedTypes)
    requires forall k :: 0 <= k < |nested| ==> nested[k].IsNestedType && nested[k].TypeName in structs
    requires data.IsNestedType && data.TypeName in structs
    requires forall k :: 0 <= k < |data.NestedTypes| ==>
               data.NestedTypes[k].IsNestedType && data.NestedTypes[k].TypeName in structs
    requires built == base + TypeNames(nested) + [data.TypeName] + TypeNames(data.NestedTypes)
    requires processed == baseProcessed + NameSet(TypeNames(nested)) + {data.TypeName} + NameSet(TypeNames(data.NestedTypes))
    requires imports == ImportsAfter(ImportsAfter(baseImports, structs, TypeNames(nested))
                                       + Parser.ImportMapOf(structs[data.TypeName].FileImports),
                                     structs, TypeNames(data.NestedTypes))
    ensures var r := nested + [data] + data.NestedTypes;
            Flattened(r)
            && (forall k :: 0 <= k < |r| ==> r[k].IsNestedType && r[k].TypeName in structs)
            && built == base + TypeNames(r)
            && processed == baseProcessed + NameSet(TypeNames(r))
            && imports == ImportsAfter(baseImports, structs, TypeNames(r))
  {
    var ns, t, dn := TypeNames(nested), data.TypeName, TypeNames(data.NestedTypes);
    NestedAppend(nested, data, structs);
    ImportsAfterNested(baseImports, structs, ns, t, dn);
    NameSetNested(ns, t, dn);
    SeqAssoc(base, ns, [t], dn);
  }

  class Generator {
    const methodName: string
    const pkgName: string
    /** The package's struct types, as findStruct finds them. */
    const structs: map<string, StructDecl>
    /** The imports of the files findStruct has visited, path to alias. */
    var imports: map<string, string>
    /** The struct types whose template data has been built. */
    var processed: set<string>
    /** Every type buildTemplateData ran for, in order. */
    ghost var built: seq<string>

    /** No type is built twice, and each one built is marked processed. */
    ghost predicate Valid()
      reads this
    {
      Distinct(built) && forall i :: 0 <= i < |built| ==> built[i] in processed
    }

    constructor (methodName: string, pkgName: string, structs: map<string, StructDecl>)
      ensures this.methodName == methodName && this.pkgName == pkgName && this.structs == structs
      ensures imports == map[] && processed == {} && built == []
      ensures Valid()
    {
      this.methodName := methodName;
      this.pkgName := pkgName;
      this.structs := structs;
      imports := map[];
      processed := {};
      built := [];
    }

    /** collectFileImports: the file's imports are added, a later import of
        a path replacing an earlier one. */
    method CollectFileImports(fileImports: seq<ImportInfo>)
      modifies this`imports
      ensures imports == old(imports) + Parser.ImportMapOf(fileImports)
    {
      for i := 0 to |fileImports|
        invariant imports == old(imports) + Parser.ImportMapOf(fileImports[..i])
      {
        var imp := fileImports[i];
        assert fileImports[..i + 1][..i] == fileImports[..i];
        ghost var m := Parser.ImportMapOf(fileImports[..i]);
        assert (old(imports) + m)[imp.Path := imp.Alias] == old(imports) + m[imp.Path := imp.Alias];
        imports := imports[imp.Path := imp.Alias];
      }
      assert fileImports[..|fileImports|] == fileImports;
    }

    /** findStruct: the struct's declarations, the imports of its file
        recorded on the way; None ("not found or is not a struct") when
        the package declares no struct of that name. */
    method FindStruct(typeName: string) returns (st: Option<seq<FieldDecl>>)
      modifies this`imports
      ensures typeName in structs ==>
                st == Some(structs[typeName].Fields)
                && imports == old(imports) + Parser.ImportMapOf(structs[typeName].FileImports)
      ensures typeName !in structs ==> st.None? && imports == old(imports)
    {
      if typeName !in structs {
        return None;
      }
      CollectFileImports(structs[typeName].FileImports);
      return Some(structs[typeName].Fields);
    }

    /** The first loop of collectRequiredImports: the imports named by the
        types of slice and map fields. */
    method CollectSliceMapImports(fields: seq<CopyField>) returns (needed: map<string, string>)
      ensures Parser.FromFile(needed, imports)
      ensures forall p :: p in needed ==> Parser.ImportedName(p, needed[p]) in SliceMapPkgs(fields)
      ensures forall pkg :: pkg in SliceMapPkgs(fields) && Parser.Provides(imports, pkg) ==> Parser.Provides(needed, pkg)
    {
      needed := map[];
      for i := 0 to |fields|
        invariant Parser.FromFile(needed, imports)
        invariant forall p :: p in needed ==> Parser.ImportedName(p, needed[p]) in SliceMapPkgs(fields[..i])
        invariant forall pkg :: pkg in SliceMapPkgs(fields[..i]) && Parser.Provides(imports, pkg) ==> Parser.Provides(needed, pkg)
      {
        var f := fields[i];
        assert fields[..i + 1][..i] == fields[..i];
        if f.IsSlice || f.IsMap {
          var n := Parser.CollectImportsFromExpr(f.TypeExpr, imports, needed);
          forall pkg | pkg in SliceMapPkgs(fields[..i]) && Parser.Provides(imports, pkg)
            ensures Parser.Provides(n, pkg)
          {
            Parser.ProvidesGrows(needed, n, imports, pkg);
          }
          needed := n;
        }
      }
      assert fields[..|fields|] == fields;
    }

    /** The second loop of collectRequiredImports: "maps" (no alias) is
        needed when some map field is copied with maps.Clone. */
    static method AddMapsImport(fields: seq<CopyField>, needed: map<string, string>) returns (r: map<string, string>)
      ensures r == if NeedsMapsPkg(fields) then needed["maps" := ""] else needed
    {
      r := needed;
      for i := 0 to |fields|
        invariant forall k :: 0 <= k < i ==> !(fields[k].IsMap && !fields[k].NeedsDeep)
      {
        if fields[i].IsMap && !fields[i].NeedsDeep {
          return needed["maps" := ""];
        }
      }
    }

    /** collectRequiredImports: the recorded imports that slice and map
        field types name, each path once with its alias, and "maps" when a
        map field is copied with maps.Clone. */
    method CollectRequiredImports(fields: seq<CopyField>) returns (imps: seq<ImportInfo>)
      ensures forall i, j :: 0 <= i < j < |imps| ==> imps[i].Path != imps[j].Path
      ensures forall i :: 0 <= i < |imps| ==>
                (imps[i] == ImportInfo("maps", "") && NeedsMapsPkg(fields))
                || (imps[i].Path in imports && imports[imps[i].Path] == imps[i].Alias
                    && PackageName(imps[i]) in SliceMapPkgs(fields))
      ensures NeedsMapsPkg(fields) ==> exists i :: 0 <= i < |imps| && imps[i] == ImportInfo("maps", "")
      ensures "maps" !in imports ==>
                forall pkg :: pkg in SliceMapPkgs(fields) && Parser.Provides(imports, pkg) ==>
                  exists i :: 0 <= i < |imps| && PackageName(imps[i]) == pkg
    {
      var needed := CollectSliceMapImports(fields);
      ghost var fromTypes := needed;
      needed := AddMapsImport(fields, needed);
      imps := Parser.ImportList(needed);
      RequiredImportsSound(fields, imports, fromTypes, needed, imps);
      MapsImportListed(fields, fromTypes, needed, imps);
      if "maps" !in imports {
        RequiredImportsComplete(fields, imports, fromTypes, needed, imps);
      }
    }

    /** buildTemplateData: the type is marked processed before its nested
        types are collected, so no type is built twice. Its imports are
        computed from the imports recorded on entry; collecting the nested
        types then records the files of each of them. */
    method BuildTemplateData(typeName: string, st: seq<FieldDecl>) returns (data: TemplateData)
      requires Valid() && typeName in structs && typeName !in processed
      modifies this`imports, this`processed, this`built
      ensures Valid()
      ensures processed == old(processed) + {typeName} + NameSet(TypeNames(data.NestedTypes))
      ensures imports == ImportsAfter(old(imports), structs, TypeNames(data.NestedTypes))
      ensures built == old(built) + [typeName] + TypeNames(data.NestedTypes)
      ensures data.TypeName == typeName && data.MethodName == methodName && data.Package == pkgName
      ensures data.Fields == AnalyzedFields(st) && !data.IsNestedType
      ensures RequiredImports(data.Imports, data.Fields, old(imports))
      ensures Flattened(data.NestedTypes)
      ensures forall k :: 0 <= k < |data.NestedTypes| ==>
                data.NestedTypes[k].IsNestedType && data.NestedTypes[k].TypeName in structs
      decreases |structs.Keys - processed|, 0
    {
      assert structs.Keys - (processed + {typeName}) < structs.Keys - processed by {
        assert typeName in structs.Keys - processed;
      }
      Parser.SubsetCard(structs.Keys - (processed + {typeName}), structs.Keys - processed);
      processed := processed + {typeName};
      built := built + [typeName];
      var fields := AnalyzeFields(st);
      var imps := CollectRequiredImports(fields);
      var nestedTypes := CollectNestedTypes(fields);
      data := TemplateData(pkgName, typeName, methodName, fields, imps, nestedTypes, false);
    }

    /** The state of collectNestedTypes after building the types of
        nested, starting from built, processed and imports as given:
        exactly those types are newly built and processed, in order, and
        the imports of their files recorded. */
    ghost predicate Collecting(nested: seq<TemplateData>, base: seq<string>,
                               baseProcessed: set<string>, baseImports: map<string, string>)
      reads this
    {
      Valid() && built == base + TypeNames(nested) && Flattened(nested)
      && (forall k :: 0 <= k < |nested| ==> nested[k].IsNestedType && nested[k].TypeName in structs)
      && processed == baseProcessed + NameSet(TypeNames(nested))
      && imports == ImportsAfter(baseImports, structs, TypeNames(nested))
    }

    /** collectNestedTypes: every struct type a field names that is neither
        processed nor seen in this call, and that the package declares, is
        built and appended, followed by its own nested types. */
    method CollectNestedTypes(fields: seq<CopyField>) returns (nested: seq<TemplateData>)
      requires Valid()
      modifies this`imports, this`processed, this`built
      ensures Valid()
      ensures processed == old(processed) + NameSet(TypeNames(nested))
      ensures imports == ImportsAfter(old(imports), structs, TypeNames(nested))
      ensures built == old(built) + TypeNames(nested)
      ensures Flattened(nested)
      ensures forall k :: 0 <= k < |nested| ==> nested[k].IsNestedType && nested[k].TypeName in structs
      ensures forall i :: 0 <= i < |fields| && fields[i].StructTypeName != "" && fields[i].StructTypeName in structs ==>
                fields[i].StructTypeName in processed
      decreases |structs.Keys - processed|, 2
    {
      nested := [];
      var seen: set<string> := {};
      assert NameSet(TypeNames(nested)) == {};
      for i := 0 to |fields|
        invariant Collecting(nested, old(built), old(processed), old(imports))
        invariant forall t :: t in seen && t in structs ==> t in processed
        invariant forall k :: 0 <= k < i && fields[k].StructTypeName != "" && fields[k].StructTypeName in structs ==>
                    fields[k].StructTypeName in processed
      {
        Parser.SubsetCard(structs.Keys - processed, structs.Keys - old(processed));
        seen, nested := CollectNestedType(fields[i], seen, nested, old(built), old(processed), old(imports));
      }
    }

    /** One turn of collectNestedTypes' loop, for the field f. */
    method CollectNestedType(f: CopyField, seen: set<string>, nested: seq<TemplateData>, ghost base: seq<string>,
                             ghost baseProcessed: set<string>, ghost baseImports: map<string, string>)
      returns (seen': set<string>, nested': seq<TemplateData>)
      requires Collecting(nested, base, baseProcessed, baseImports)
      requires forall t :: t in seen && t in structs ==> t in processed
      modifies this`imports, this`processed, this`built
      ensures Collecting(nested', base, baseProcessed, baseImports) && old(processed) <= processed
      ensures forall t :: t in seen' && t in structs ==> t in processed
      ensures f.StructTypeName != "" && f.StructTypeName in structs ==> f.StructTypeName in processed
      decreases |structs.Keys - processed|, 1
    {
      seen', nested' := seen, nested;
      if f.StructTypeName == "" || f.StructTypeName in seen || f.StructTypeName in processed {
        return;
      }
      seen' := seen + {f.StructTypeName};
      var st := FindStruct(f.StructTypeName);
      if st.None? {
        return;
      }
      var data := BuildTemplateData(f.StructTypeName, st.value);
      data := data.(IsNestedType := true);
      NestedCollected(structs, nested, data, base, baseProcessed, baseImports, built, processed, imports);
      nested' := nested + [data] + data.NestedTypes;
      data := data.(NestedTypes := []);
    }
  }

  /** Subtool.Run and generateForType on a fresh generator: None when the
      package declares no struct of that name; otherwise the type's data,
      whose imports are drawn from the type's own file and whose flattened
      nested types name every struct at most once. */
  method Run(methodName: string, pkgName: string, structs: map<string, StructDecl>, typeName: string)
    returns (r: Option<TemplateData>)
    ensures r.None? <==> typeName !in structs
    ensures r.Some? ==>
              r.value.TypeName == typeName && r.value.MethodName == MethodNameOrDefault(methodName)
              && r.value.Fields == AnalyzedFields(structs[typeName].Fields)
              && RequiredImports(r.value.Imports, r.value.Fields, Parser.ImportMapOf(structs[typeName].FileImports))
              && Distinct([typeName] + TypeNames(r.value.NestedTypes))
              && Flattened(r.value.NestedTypes)
  {
    var g := new Generator(MethodNameOrDefault(methodName), pkgName, structs);
    var st := g.FindStruct(typeName);
    if st.None? {
      return None;
    }
    var data := g.BuildTemplateData(typeName, st.value);
    assert g.built == [typeName] + TypeNames(data.NestedTypes);
    assert map[] + Parser.ImportMapOf(structs[typeName].FileImports) == Parser.ImportMapOf(structs[typeName].FileImports);
    return Some(data);
  }
}
