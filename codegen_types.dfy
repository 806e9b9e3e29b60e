/** The records the code generator works on (internal/codegen/types.go),
    and the Go type expressions it analyses.

    The generator reads struct declarations with go/parser; here the parsed
    declarations are given as values: a type expression is an `Expr`, a
    field declaration a `FieldDecl`, an import a `ImportSpec`. */
module CodegenTypes {

  datatype Option<+T> = None | Some(value: T)

  /** A Go type expression, as far as the generator distinguishes them. */
  datatype Expr =
    | Ident(Name: string)                // string, Config, any, ...
    | Star(X: Expr)                      // *X
    | Array(Elt: Expr)                   // []Elt (and [N]Elt: the length is never looked at)
    | Map(Key: Expr, Value: Expr)        // map[Key]Value
    | Selector(X: Expr, Sel: string)     // X.Sel, e.g. time.Time
    | Interface(MethodCount: nat)        // interface{...} with that many methods
    | StructType(Text: string)           // an inline struct{...}; Text is how go/types prints it
    | Other(Text: string)                // any other type (func, chan, ...), with its printed form

  /** One field line of a struct declaration: no names for an embedded
      field, several for `A, B int`; Tag is the raw tag literal. */
  datatype FieldDecl = FieldDecl(Names: seq<string>, Type: Expr, Tag: Option<string>)

  /** One import line: the quoted path literal and the optional alias. */
  datatype ImportSpec = ImportSpec(PathLit: string, Name: Option<string>)

  datatype ImportInfo = ImportInfo(Path: string, Alias: string)

  /** codegen.FieldInfo. TypeExpr is None for Go's nil ast.Expr. */
  datatype FieldInfo = FieldInfo(
    Name: string,
    Type: string,
    TypeExpr: Option<Expr>,
    TypeName: string,
    TypePkg: string,
    IsPointer: bool,
    IsSlice: bool,
    IsMap: bool,
    IsStruct: bool,
    MapKeyType: string,
    MapValType: string,
    SliceType: string,
    Tag: string,
    NeedsDeep: bool,
    StructTypeName: string,
    SliceElemIsPtr: bool)

  /** `FieldInfo{}`. */
  const EmptyField: FieldInfo := FieldInfo(
    "", "", None, "", "", false, false, false, false, "", "", "", "", false, "", false)

  /** codegen.StructInfo, with the SourceFile and Package fields that
      FindStructInPackage and the generators set. */
  datatype StructInfo = StructInfo(
    Name: string,
    Fields: seq<FieldInfo>,
    Imports: seq<ImportInfo>,
    SourceFile: string,
    Package: string)

  /** codegen.GeneratorConfig, with the GenerateTest and GenerateJSON
      switches that the subtools read. */
  datatype GeneratorConfig = GeneratorConfig(
    TypeName: string,
    SourceFile: string,
    SourceDir: string,
    SourcePkg: string,
    OutputDir: string,
    OutputPkg: string,
    GenerateTest: bool,
    GenerateJSON: bool)

  /** A Go identifier over ASCII: a letter or '_' followed by letters,
      digits and '_'. */
  predicate IsIdentifier(s: string)
  {
    |s| > 0 && !('0' <= s[0] <= '9')
    && forall i :: 0 <= i < |s| ==> ('a' <= s[i] <= 'z' || 'A' <= s[i] <= 'Z' || '0' <= s[i] <= '9' || s[i] == '_')
  }

  // ---------------------------------------------------------------------
  // String helpers of the Go standard library used by the generator
  // ---------------------------------------------------------------------

  /** s without its trailing '/' characters. */
  function TrimTrailingSlashes(s: string): (r: string)
    ensures r <= s
    ensures r == [] || r[|r| - 1] != '/'
    ensures forall i :: |r| <= i < |s| ==> s[i] == '/'
  {
    if |s| > 0 && s[|s| - 1] == '/' then TrimTrailingSlashes(s[..|s| - 1]) else s
  }

  /** The part of s after its last '/', all of s when it has none. */
  function AfterLastSlash(s: string): (r: string)
    ensures '/' !in r
    ensures |r| <= |s| && r == s[|s| - |r|..]
    ensures |r| < |s| ==> s[|s| - |r| - 1] == '/'
  {
    if |s| == 0 then s
    else if s[|s| - 1] == '/' then ""
    else AfterLastSlash(s[..|s| - 1]) + [s[|s| - 1]]
  }

  /** filepath.Base on a slash-separated path: the last element after
      trailing slashes are removed; "." for "" and "/" for a path of slashes. */
  function PathBase(path: string): string
  {
    if path == "" then "."
    else
      var trimmed := TrimTrailingSlashes(path);
      if trimmed == "" then "/" else AfterLastSlash(trimmed)
  }

  /** filepath.Base never returns "": it is ".", "/" or a non-empty
      element without '/'; a path with no '/' is its own base, and an
      element followed by slashes is that element. */
  lemma PathBaseSpec(path: string)
    ensures var r := PathBase(path);
            r != "" && (r == "." || r == "/" || '/' !in r)
    ensures path != "" && '/' !in path ==> PathBase(path) == path
    ensures path != "" && '/' !in path ==> PathBase(path + "/") == path
  {
    if path != "" && '/' !in path {
      assert TrimTrailingSlashes(path) == path;
      assert (path + "/")[..|path|] == path;
      assert TrimTrailingSlashes(path + "/") == path;
      assert AfterLastSlash(path) == path;
    }
  }

  /** The package name an import is referred to by: its alias, or else the
      base of its path. */
  function PackageName(imp: ImportInfo): string
  {
    if imp.Alias == "" then PathBase(imp.Path) else imp.Alias
  }
}
