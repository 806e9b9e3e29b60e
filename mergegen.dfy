/** The merge subtool's own logic (internal/codegen/merge/merge.go): the
    template helpers that name a struct's partial type and the type of a
    field in it, and the list of structs the templates are given. The
    templates themselves are not part of this model. */
module MergeGen {
  import opened CodegenTypes
  import Parser
  import LayerBroker

  /** partialTypeName. */
  function PartialTypeName(name: string): (r: string)
    ensures |r| == |name| + 7 && r[..|name|] == name && r[|name|..] == "Partial"
  {
    name + "Partial"
  }

  /** The type a field of this package's struct has written out in Go, as
      seen from a partial type: package-qualified when it comes from
      another package. */
  function QualifiedType(f: FieldInfo): string
  {
    if f.TypePkg != "" then f.TypePkg + "." + f.TypeName else f.TypeName
  }

  /** pointerTypeName: the type of a field in a partial struct. A struct of
      this package becomes a pointer to its partial type; a slice or map
      held by value keeps its type (nil already means "not set"); anything
      else becomes a pointer to its own type. */
  function PointerTypeName(f: FieldInfo): (r: string)
    ensures !f.IsPointer && (f.IsSlice || f.IsMap) ==> r == f.TypeName
    ensures f.IsStruct && f.TypePkg == "" && (f.IsPointer || !(f.IsSlice || f.IsMap)) ==>
              r == "*" + PartialTypeName(f.TypeName)
    ensures !(f.IsStruct && f.TypePkg == "") && (f.IsPointer || !(f.IsSlice || f.IsMap)) ==>
              r == "*" + QualifiedType(f)
  {
    if f.IsPointer then
      if f.IsStruct && f.TypePkg == "" then "*" + f.TypeName + "Partial"
      else if f.TypePkg != "" then "*" + f.TypePkg + "." + f.TypeName
      else "*" + f.TypeName
    else if f.IsSlice || f.IsMap then f.TypeName
    else if f.IsStruct && f.TypePkg == "" then "*" + f.TypeName + "Partial"
    else if f.TypePkg != "" then "*" + f.TypePkg + "." + f.TypeName
    else "*" + f.TypeName
  }

  /** Whether a field is a pointer or held by value does not change its
      partial type, except for a slice or map: a `*[]T` field becomes a
      pointer to it, a `[]T` field stays as it is. */
  lemma PointerIrrelevant(f: FieldInfo)
    ensures !(f.IsSlice || f.IsMap) ==>
              PointerTypeName(f.(IsPointer := true)) == PointerTypeName(f.(IsPointer := false))
    ensures (f.IsSlice || f.IsMap) && !(f.IsStruct && f.TypePkg == "") ==>
              PointerTypeName(f.(IsPointer := true)) == "*" + QualifiedType(f)
              && PointerTypeName(f.(IsPointer := false)) == f.TypeName
  {
  }

  /** Every partial field type except a by-value slice or map is a pointer
      type, so a nil value in the partial means "leave this field alone". */
  lemma PartialFieldsNullable(f: FieldInfo)
    ensures var r := PointerTypeName(f);
            (|r| > 0 && r[0] == '*') || (!f.IsPointer && (f.IsSlice || f.IsMap))
  {
  }

  /** needsConversion. */
  predicate NeedsConversion(f: FieldInfo)
  {
    f.IsStruct && f.TypePkg == "" && !f.IsSlice && !f.IsMap
  }

  /** needsConversion is the layerbroker's isLocalStruct, and exactly the
      fields whose partial type is a partial struct's. */
  lemma NeedsConversionIsLocalStruct(f: FieldInfo)
    ensures NeedsConversion(f) <==> LayerBroker.IsLocalStruct(f)
    ensures NeedsConversion(f) ==> PointerTypeName(f) == "*" + PartialTypeName(f.TypeName)
  {
  }

  /** The list of structs Run gives the templates: the root first, then
      the nested structs in the order FindNestedStructs returns them. The
      ghost `fuel` is a budget within which FindNestedStructs returns. */
  method AllStructs(info: StructInfo, lookup: map<string, StructInfo>, ghost fuel: nat) returns (all: seq<StructInfo>)
    requires Parser.NestedFuel(info, lookup, fuel).Some?
    ensures all == [info] + Parser.NestedFuel(info, lookup, fuel).value
    ensures Parser.WellFormedLookup(lookup) ==>
              forall i, j :: 0 <= i < j < |all| ==> all[i].Name != all[j].Name
  {
    var nested := Parser.FindNestedStructs(info, lookup, fuel);
    all := [info] + nested;
    if Parser.WellFormedLookup(lookup) {
      Parser.NestedFuelFound(info, lookup, fuel);
      forall i, j | 0 <= i < j < |all| ensures all[i].Name != all[j].Name {
        assert all[j] == nested[j - 1];
        if i > 0 {
          assert all[i] == nested[i - 1];
        }
      }
    }
  }
}
