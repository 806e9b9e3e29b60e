/** The layerbroker subtool's own logic
    (internal/codegen/layerbroker/layerbroker.go): the names it gives the
    generated broker types, which external imports the generated file
    needs, and the data it hands to its two templates. The templates, and
    the concurrent broker they produce, are not part of this model. */
module LayerBroker {
  import opened CodegenTypes

  // ---------------------------------------------------------------------
  // Names
  // ---------------------------------------------------------------------

  /** isExported: the first byte is an upper-case ASCII letter. */
  predicate IsExported(name: string)
  {
    |name| != 0 && 'A' <= name[0] <= 'Z'
  }

  /** brokerTypeName. Both branches of the source append the same suffix. */
  function BrokerTypeName(typeName: string): (r: string)
    ensures r == typeName + "LayerBroker"
  {
    if IsExported(typeName) then typeName + "LayerBroker" else typeName + "LayerBroker"
  }

  /** layerTypeName. Both branches of the source append the same suffix. */
  function LayerTypeName(typeName: string): (r: string)
    ensures r == typeName + "Layer"
  {
    if IsExported(typeName) then typeName + "Layer" else typeName + "Layer"
  }

  /** strings.ToUpper on one ASCII byte. */
  function UpperByte(c: char): char
  {
    if 'a' <= c <= 'z' then (c as int - 32) as char else c
  }

  /** newBrokerName. An unexported name has its first byte upper-cased
      after "new"; the empty name would make `typeName[:1]` panic. */
  function NewBrokerName(typeName: string): (r: string)
    requires typeName != ""
    ensures IsExported(typeName) ==> r == "New" + BrokerTypeName(typeName)
    ensures !IsExported(typeName) ==> r == "new" + BrokerTypeName([UpperByte(typeName[0])] + typeName[1..])
  {
    if IsExported(typeName) then "New" + typeName + "LayerBroker"
    else "new" + [UpperByte(typeName[0])] + typeName[1..] + "LayerBroker"
  }

  /** A type whose name starts with a lower-case letter gets a constructor
      named after its exported spelling: "new" + its upper-cased name's
      broker type, which is an exported name itself after the prefix. */
  lemma NewBrokerNameOfLowerCase(typeName: string)
    requires typeName != "" && 'a' <= typeName[0] <= 'z'
    ensures var up := [UpperByte(typeName[0])] + typeName[1..];
            IsExported(up) && |up| == |typeName| && up[1..] == typeName[1..]
            && NewBrokerName(typeName) == "new" + BrokerTypeName(up)
            && NewBrokerName(up) == "New" + BrokerTypeName(up)
  {
  }

  /** isLocalStruct: a struct of this package, held by value or pointer. */
  predicate IsLocalStruct(f: FieldInfo)
  {
    f.IsStruct && f.TypePkg == "" && !f.IsSlice && !f.IsMap
  }

  // ---------------------------------------------------------------------
  // collectExternalImports
  // ---------------------------------------------------------------------

  /** The struct's imports keyed by package name; when two imports share a
      package name the later one wins. */
  function ImportsByName(imps: seq<ImportInfo>): (m: map<string, ImportInfo>)
    ensures forall pkg :: pkg in m ==> PackageName(m[pkg]) == pkg && m[pkg] in imps
    ensures forall i :: 0 <= i < |imps| ==> PackageName(imps[i]) in m
  {
    if imps == [] then map[]
    else
      var init := imps[..|imps| - 1];
      var last := imps[|imps| - 1];
      assert forall i :: 0 <= i < |init| ==> init[i] == imps[i];
      ImportsByName(init)[PackageName(last) := last]
  }

  /** Each package name maps to its last import. */
  lemma {:induction false} ImportsByNameLastWins(imps: seq<ImportInfo>, j: nat)
    requires j < |imps|
    requires forall k :: j < k < |imps| ==> PackageName(imps[k]) != PackageName(imps[j])
    ensures ImportsByName(imps)[PackageName(imps[j])] == imps[j]
    decreases |imps|
  {
    if j < |imps| - 1 {
      var init := imps[..|imps| - 1];
      assert init[j] == imps[j];
      ImportsByNameLastWins(init, j);
    }
  }

  /** The packages other than "time" that the fields' types come from. */
  function UsedPkgs(fields: seq<FieldInfo>): set<string>
  {
    set i | 0 <= i < |fields| && fields[i].TypePkg != "" && fields[i].TypePkg != "time" :: fields[i].TypePkg
  }

  /** The first loop of collectExternalImports. */
  method BuildImportsByName(imps: seq<ImportInfo>) returns (importMap: map<string, ImportInfo>)
    ensures importMap == ImportsByName(imps)
  {
    importMap := map[];
    for i := 0 to |imps|
      invariant importMap == ImportsByName(imps[..i])
    {
      var imp := imps[i];
      var pkgName := imp.Alias;
      if pkgName == "" {
        pkgName := PathBase(imp.Path);
      }
      assert imps[..i + 1][..i] == imps[..i];
      importMap := importMap[pkgName := imp];
    }
    assert imps[..|imps|] == imps;
  }

  /** The second loop of collectExternalImports. */
  method CollectUsedPkgs(fields: seq<FieldInfo>) returns (usedPkgs: set<string>)
    ensures usedPkgs == UsedPkgs(fields)
  {
    usedPkgs := {};
    for i := 0 to |fields|
      invariant usedPkgs == UsedPkgs(fields[..i])
    {
      var f := fields[i];
      assert forall k :: 0 <= k < i ==> fields[..i + 1][k] == fields[..i][k];
      if f.TypePkg != "" && f.TypePkg != "time" {
        usedPkgs := usedPkgs + {f.TypePkg};
      }
    }
    assert fields[..|fields|] == fields;
  }

  /** The package names of a list of imports. */
  function PkgNames(imps: seq<ImportInfo>): set<string>
  {
    if imps == [] then {} else PkgNames(imps[..|imps| - 1]) + {PackageName(imps[|imps| - 1])}
  }

  lemma {:induction false} PkgNamesListed(imps: seq<ImportInfo>, pkg: string)
    requires pkg in PkgNames(imps)
    ensures exists i :: 0 <= i < |imps| && PackageName(imps[i]) == pkg
  {
    var init := imps[..|imps| - 1];
    if PackageName(imps[|imps| - 1]) != pkg {
      PkgNamesListed(init, pkg);
      var i :| 0 <= i < |init| && PackageName(init[i]) == pkg;
      assert imps[i] == init[i];
    }
  }

  /** collectExternalImports: for each package other than "time" that a
      field's type comes from, the struct's import of that package name
      (the last one, when several share it), each once, in the map's
      iteration order; a package with no import is dropped. */
  method CollectExternalImports(info: StructInfo) returns (imports: seq<ImportInfo>)
    ensures forall i :: 0 <= i < |imports| ==>
              imports[i] in info.Imports && PackageName(imports[i]) in UsedPkgs(info.Fields)
              && imports[i] == ImportsByName(info.Imports)[PackageName(imports[i])]
    ensures forall i, j :: 0 <= i < j < |imports| ==> PackageName(imports[i]) != PackageName(imports[j])
    ensures forall pkg :: pkg in UsedPkgs(info.Fields) && pkg in ImportsByName(info.Imports) ==>
              exists i :: 0 <= i < |imports| && PackageName(imports[i]) == pkg
  {
    var importMap := BuildImportsByName(info.Imports);
    var usedPkgs := CollectUsedPkgs(info.Fields);
    imports := [];
    var todo := usedPkgs;
    while todo != {}
      invariant todo <= usedPkgs
      invariant forall i :: 0 <= i < |imports| ==>
                  PackageName(imports[i]) in usedPkgs - todo && PackageName(imports[i]) in importMap
                  && imports[i] == importMap[PackageName(imports[i])]
      invariant forall i, j :: 0 <= i < j < |imports| ==> PackageName(imports[i]) != PackageName(imports[j])
      invariant forall pkg :: pkg in usedPkgs - todo && pkg in importMap ==> pkg in PkgNames(imports)
      decreases todo
    {
      var pkgName :| pkgName in todo;
      if pkgName in importMap {
        assert (imports + [importMap[pkgName]])[..|imports|] == imports;
        imports := imports + [importMap[pkgName]];
      }
      todo := todo - {pkgName};
    }
    forall pkg | pkg in UsedPkgs(info.Fields) && pkg in ImportsByName(info.Imports)
      ensures exists i :: 0 <= i < |imports| && PackageName(imports[i]) == pkg
    {
      assert pkg in usedPkgs - todo;
      PkgNamesListed(imports, pkg);
    }
  }

  // ---------------------------------------------------------------------
  // Template data
  // ---------------------------------------------------------------------

  /** Some field's type comes from package "time". */
  predicate UsesTime(fields: seq<FieldInfo>)
  {
    exists i :: 0 <= i < |fields| && fields[i].TypePkg == "time"
  }

  /** The needsTime loop of generateLayerBrokerFile: it runs to the end. */
  method FieldsNeedTime(fields: seq<FieldInfo>) returns (needsTime: bool)
    ensures needsTime <==> UsesTime(fields)
  {
    needsTime := false;
    for i := 0 to |fields|
      invariant needsTime <==> exists k :: 0 <= k < i && fields[k].TypePkg == "time"
    {
      if fields[i].TypePkg == "time" {
        needsTime := true;
      }
    }
  }

  /** The needsTime loop of generateLayerBrokerTestFile: it stops at the
      first time field. */
  method FieldsNeedTimeBreak(fields: seq<FieldInfo>) returns (needsTime: bool)
    ensures needsTime <==> UsesTime(fields)
  {
    needsTime := false;
    for i := 0 to |fields|
      invariant !needsTime && forall k :: 0 <= k < i ==> fields[k].TypePkg != "time"
    {
      if fields[i].TypePkg == "time" {
        needsTime := true;
        break;
      }
    }
  }

  /** A string field held by value. */
  predicate PlainString(f: FieldInfo)
  {
    f.TypeName == "string" && !f.IsPointer && !f.IsSlice && !f.IsMap
  }

  /** An int, int32 or int64 field held by value. */
  predicate PlainInt(f: FieldInfo)
  {
    (f.TypeName == "int" || f.TypeName == "int32" || f.TypeName == "int64") && !f.IsPointer && !f.IsSlice && !f.IsMap
  }

  /** The name of the first string field held by value that has a name,
      or "" when there is none. */
  function FirstPlainString(fields: seq<FieldInfo>): (r: string)
    ensures r == "" <==> forall i :: 0 <= i < |fields| && PlainString(fields[i]) ==> fields[i].Name == ""
    ensures r != "" ==> exists i :: 0 <= i < |fields| && PlainString(fields[i]) && fields[i].Name == r
                          && forall k :: 0 <= k < i && PlainString(fields[k]) ==> fields[k].Name == ""
  {
    if fields == [] then ""
    else if PlainString(fields[0]) && fields[0].Name != "" then fields[0].Name
    else
      var r := FirstPlainString(fields[1..]);
      assert forall i :: 0 < i < |fields| ==> fields[1..][i - 1] == fields[i];
      if r != "" then
        var i :| 0 <= i < |fields[1..]| && PlainString(fields[1..][i]) && fields[1..][i].Name == r
                 && forall k :: 0 <= k < i && PlainString(fields[1..][k]) ==> fields[1..][k].Name == "";
        assert PlainString(fields[i + 1]) && fields[i + 1].Name == r;
        r
      else r
  }

  /** The name of the first int field held by value that has a name, or ""
      when there is none. */
  function FirstPlainInt(fields: seq<FieldInfo>): (r: string)
    ensures r == "" <==> forall i :: 0 <= i < |fields| && PlainInt(fields[i]) ==> fields[i].Name == ""
    ensures r != "" ==> exists i :: 0 <= i < |fields| && PlainInt(fields[i]) && fields[i].Name == r
                          && forall k :: 0 <= k < i && PlainInt(fields[k]) ==> fields[k].Name == ""
  {
    if fields == [] then ""
    else if PlainInt(fields[0]) && fields[0].Name != "" then fields[0].Name
    else
      var r := FirstPlainInt(fields[1..]);
      assert forall i :: 0 < i < |fields| ==> fields[1..][i - 1] == fields[i];
      if r != "" then
        var i :| 0 <= i < |fields[1..]| && PlainInt(fields[1..][i]) && fields[1..][i].Name == r
                 && forall k :: 0 <= k < i && PlainInt(fields[1..][k]) ==> fields[1..][k].Name == "";
        assert PlainInt(fields[i + 1]) && fields[i + 1].Name == r;
        r
      else r
  }

  /** One step of the search, from position i. */
  lemma FirstPlainStep(fields: seq<FieldInfo>, i: nat)
    requires i < |fields|
    ensures var f := fields[i];
            FirstPlainString(fields[i..])
            == (if PlainString(f) && f.Name != "" then f.Name else FirstPlainString(fields[i + 1..]))
    ensures var f := fields[i];
            FirstPlainInt(fields[i..])
            == (if PlainInt(f) && f.Name != "" then f.Name else FirstPlainInt(fields[i + 1..]))
  {
    assert fields[i..][0] == fields[i] && fields[i..][1..] == fields[i + 1..];
  }

  /** The test file's choice of example fields: one loop that fills each
      of stringField and intField once. */
  method SelectTestFields(fields: seq<FieldInfo>) returns (stringField: string, intField: string)
    ensures stringField == FirstPlainString(fields)
    ensures intField == FirstPlainInt(fields)
  {
    stringField, intField := "", "";
    for i := 0 to |fields|
      invariant FirstPlainString(fields) == if stringField != "" then stringField else FirstPlainString(fields[i..])
      invariant FirstPlainInt(fields) == if intField != "" then intField else FirstPlainInt(fields[i..])
    {
      var f := fields[i];
      FirstPlainStep(fields, i);
      if stringField == "" && f.TypeName == "string" && !f.IsPointer && !f.IsSlice && !f.IsMap {
        stringField := f.Name;
      }
      if intField == "" && (f.TypeName == "int" || f.TypeName == "int32" || f.TypeName == "int64")
         && !f.IsPointer && !f.IsSlice && !f.IsMap {
        intField := f.Name;
      }
    }
  }

  datatype BrokerTemplateData = BrokerTemplateData(
    Package: string,
    TypeName: string,
    Fields: seq<FieldInfo>,
    NeedsTimeImport: bool,
    NeedsReflectImport: bool,
    GenerateJSON: bool,
    ExternalImports: seq<ImportInfo>)

  datatype TestTemplateData = TestTemplateData(
    Package: string,
    TypeName: string,
    StringField: string,
    IntField: string,
    Fields: seq<FieldInfo>,
    GenerateJSON: bool,
    NeedsTime: bool)

  /** The data generateLayerBrokerFile gives its template. */
  method BrokerData(cfg: GeneratorConfig, info: StructInfo) returns (data: BrokerTemplateData)
    ensures data.Package == cfg.OutputPkg && data.TypeName == info.Name && data.Fields == info.Fields
    ensures data.NeedsTimeImport <==> UsesTime(info.Fields)
    ensures !data.NeedsReflectImport && data.GenerateJSON == cfg.GenerateJSON
    ensures forall i :: 0 <= i < |data.ExternalImports| ==>
              data.ExternalImports[i] in info.Imports && PackageName(data.ExternalImports[i]) != "time"
    ensures forall i :: 0 <= i < |data.ExternalImports| ==>
              PackageName(data.ExternalImports[i]) in UsedPkgs(info.Fields)
              && data.ExternalImports[i] == ImportsByName(info.Imports)[PackageName(data.ExternalImports[i])]
    ensures forall i, j :: 0 <= i < j < |data.ExternalImports| ==>
              PackageName(data.ExternalImports[i]) != PackageName(data.ExternalImports[j])
    ensures forall pkg :: pkg in UsedPkgs(info.Fields) && pkg in ImportsByName(info.Imports) ==>
              exists i :: 0 <= i < |data.ExternalImports| && PackageName(data.ExternalImports[i]) == pkg
  {
    var externalImports := CollectExternalImports(info);
    var needsTime := FieldsNeedTime(info.Fields);
    data := BrokerTemplateData(cfg.OutputPkg, info.Name, info.Fields, needsTime, false, cfg.GenerateJSON, externalImports);
  }

  /** The data generateLayerBrokerTestFile gives its template. */
  method TestData(cfg: GeneratorConfig, info: StructInfo) returns (data: TestTemplateData)
    ensures data.Package == cfg.OutputPkg && data.TypeName == info.Name && data.Fields == info.Fields
    ensures data.StringField == FirstPlainString(info.Fields) && data.IntField == FirstPlainInt(info.Fields)
    ensures data.NeedsTime <==> UsesTime(info.Fields)
    ensures data.GenerateJSON == cfg.GenerateJSON
  {
    var stringField, intField := SelectTestFields(info.Fields);
    var needsTime := FieldsNeedTimeBreak(info.Fields);
    data := TestTemplateData(cfg.OutputPkg, info.Name, stringField, intField, info.Fields, cfg.GenerateJSON, needsTime);
  }
}
