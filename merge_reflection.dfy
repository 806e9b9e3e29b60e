/** The non-reflective parts of playgrounds/merge-objects/merge_reflection.go:
    the straight-line overlay merge `mergeInputToConfig`, `MergeReflection`
    built on it, and the JSON-tag helpers the reflective merge uses to match
    fields by name. */
module ReflectionMerge {
  import opened GoValues
  import opened PlaygroundConfig
  import opened ManualMerge

  // ---------------------------------------------------------------------
  // mergeInputToConfig and MergeReflection
  // ---------------------------------------------------------------------

  /** mergeInputDatabaseToDatabase: each set field overwrites dst's. */
  method MergeInputDatabaseToDatabase(dst: DatabaseConfig, src: InputDatabaseConfig)
    modifies dst
    ensures dst.Value() == ApplyDatabase(old(dst.Value()), src)
  {
    if src.Host.Some? {
      dst.Host := src.Host.value;
    }
    if src.Port.Some? {
      dst.Port := src.Port.value;
    }
    if src.Username.Some? {
      dst.Username := src.Username.value;
    }
    if src.Password.Some? {
      dst.Password := src.Password.value;
    }
    if src.SSLMode.Some? {
      dst.SSLMode := src.SSLMode.value;
    }
  }

  /** The nested structs of mergeInputToConfig: Database merged in place,
      DatabasePtr allocated as DatabaseConfig{} when nil and then merged. */
  method MergeNested(dst: Config, src: InputConfig)
    requires dst.Valid()
    modifies dst`DatabasePtr, dst.Database, dst.DatabasePtr
    ensures dst.Valid()
    ensures dst.Database.Value() == MergeDatabase(src.Database, old(dst.Database.Value()))
    ensures PtrValue(dst.DatabasePtr) == MergeDatabasePtr(src.DatabasePtr, old(PtrValue(dst.DatabasePtr)))
    ensures if old(dst.DatabasePtr) != null then dst.DatabasePtr == old(dst.DatabasePtr)
            else dst.DatabasePtr == null || fresh(dst.DatabasePtr)
  {
    if src.Database.Some? {
      MergeInputDatabaseToDatabase(dst.Database, src.Database.value);
    }
    if src.DatabasePtr.Some? {
      if dst.DatabasePtr == null {
        dst.DatabasePtr := new DatabaseConfig(ZeroDatabase);
      }
      MergeInputDatabaseToDatabase(dst.DatabasePtr, src.DatabasePtr.value);
    }
  }

  /** The maps and nested structs of mergeInputToConfig, merged in place. */
  method MergeMapsAndNested(dst: Config, src: InputConfig)
    requires dst.Valid()
    modifies dst`Labels, dst`Metadata, dst`DatabasePtr, dst.Labels, dst.Metadata, dst.Database, dst.DatabasePtr
    ensures dst.Valid()
    ensures Entries(dst.Labels) == MergeOpt(src.Labels, old(Entries(dst.Labels)))
    ensures Entries(dst.Metadata) == MergeOpt(src.Metadata, old(Entries(dst.Metadata)))
    ensures dst.Database.Value() == MergeDatabase(src.Database, old(dst.Database.Value()))
    ensures PtrValue(dst.DatabasePtr) == MergeDatabasePtr(src.DatabasePtr, old(PtrValue(dst.DatabasePtr)))
    ensures if old(dst.Labels) != null then dst.Labels == old(dst.Labels) else dst.Labels == null || fresh(dst.Labels)
    ensures if old(dst.Metadata) != null then dst.Metadata == old(dst.Metadata) else dst.Metadata == null || fresh(dst.Metadata)
    ensures if old(dst.DatabasePtr) != null then dst.DatabasePtr == old(dst.DatabasePtr)
            else dst.DatabasePtr == null || fresh(dst.DatabasePtr)
  {
    MergeMaps(dst, src);
    MergeNested(dst, src);
  }

  /** mergeInputToConfig: a nil src changes nothing; otherwise dst takes the
      value `Apply` prescribes, exactly as with applyInputManual. Its
      scalar, pointer, slice and map fields are handled by the same steps as
      applyInputManual's. */
  method MergeInputToConfig(dst: Config, src: Option<InputConfig>)
    requires dst.Valid()
    modifies dst, dst.Labels, dst.Metadata, dst.Database, dst.DatabasePtr
    ensures dst.Valid()
    ensures dst.Value() == ApplyOpt(old(dst.Value()), src)
    ensures dst.Database == old(dst.Database)
    ensures if old(dst.Labels) != null then dst.Labels == old(dst.Labels) else dst.Labels == null || fresh(dst.Labels)
    ensures if old(dst.Metadata) != null then dst.Metadata == old(dst.Metadata) else dst.Metadata == null || fresh(dst.Metadata)
    ensures if old(dst.DatabasePtr) != null then dst.DatabasePtr == old(dst.DatabasePtr)
            else dst.DatabasePtr == null || fresh(dst.DatabasePtr)
  {
    if src.None? {
      return;
    }
    ApplyOwnFields(dst, src.value);
    MergeMapsAndNested(dst, src.value);
  }

  /** MergeReflection: input1 then input2 merged into Config{}; its result
      is the one MergeManual computes. */
  method MergeReflection(input1: Option<InputConfig>, input2: Option<InputConfig>) returns (result: Config)
    ensures fresh(result) && fresh(result.Database)
    ensures result.Valid()
    ensures result.Value() == MergeSpec(input1, input2)
  {
    ApplyAllTwo(ZeroConfig, input1, input2);
    result := new Config();
    MergeInputToConfig(result, input1);
    MergeInputToConfig(result, input2);
  }

  // ---------------------------------------------------------------------
  // JSON-tag helpers of the reflective merge
  // ---------------------------------------------------------------------

  /** A struct field as the reflective merge sees it: its Go name and the
      value of its `json` struct tag ("" when there is none). */
  datatype StructField = StructField(Name: string, JSONTag: string)

  /** The byte index of the first ',' in s, or -1 when s has none. */
  function CommaIndex(s: string): (r: int)
    ensures -1 <= r < |s|
    ensures r == -1 <==> ',' !in s
    ensures r != -1 ==> s[r] == ',' && ',' !in s[..r]
  {
    if |s| == 0 then -1
    else if s[0] == ',' then 0
    else
      var t := CommaIndex(s[1..]);
      assert s == [s[0]] + s[1..];
      if t == -1 then -1
      else
        assert s[..t + 1] == [s[0]] + s[1..][..t];
        t + 1
  }

  /** findCommaIndex: a left-to-right search that stops at the first ','. */
  method FindCommaIndex(s: string) returns (r: int)
    ensures r == CommaIndex(s)
  {
    var i := 0;
    while i < |s|
      invariant 0 <= i <= |s|
      invariant ',' !in s[..i]
    {
      if s[i] == ',' {
        return i;
      }
      assert s[..i + 1] == s[..i] + [s[i]];
      i := i + 1;
    }
    assert s[..i] == s;
    return -1;
  }

  /** The name a field is matched by: its json tag, or its Go name when the
      tag is empty, cut at the first ',' (",omitempty" and the like). The
      result is the longest comma-free prefix of that string. */
  function NormalizeTag(f: StructField): (r: string)
    ensures var t := if f.JSONTag == "" then f.Name else f.JSONTag;
            r <= t && ',' !in r && (|r| < |t| ==> t[|r|] == ',')
    ensures f.JSONTag != "" && ',' !in f.JSONTag ==> r == f.JSONTag
    ensures f.JSONTag == "" && ',' !in f.Name ==> r == f.Name
  {
    var t := if f.JSONTag == "" then f.Name else f.JSONTag;
    var i := CommaIndex(t);
    if i == -1 then t else t[..i]
  }

  /** The field-name computation done inline by findFieldByJSONTag and
      mergeStructByReflection. */
  method NormalizeFieldTag(f: StructField) returns (tag: string)
    ensures tag == NormalizeTag(f)
  {
    tag := f.JSONTag;
    if tag == "" {
      tag := f.Name;
    }
    var idx := FindCommaIndex(tag);
    if idx != -1 {
      tag := tag[..idx];
    }
  }

  /** findFieldByJSONTag: the index of the first field whose normalised tag
      is `tag`, or None (Go's invalid reflect.Value) when there is none. */
  method FindFieldByJSONTag(fields: seq<StructField>, tag: string) returns (r: Option<nat>)
    ensures r.Some? ==> r.value < |fields| && NormalizeTag(fields[r.value]) == tag
    ensures r.Some? ==> forall j :: 0 <= j < r.value ==> NormalizeTag(fields[j]) != tag
    ensures r.None? <==> forall j :: 0 <= j < |fields| ==> NormalizeTag(fields[j]) != tag
  {
    var i := 0;
    while i < |fields|
      invariant 0 <= i <= |fields|
      invariant forall j :: 0 <= j < i ==> NormalizeTag(fields[j]) != tag
    {
      var jsonTag := NormalizeFieldTag(fields[i]);
      if jsonTag == tag {
        return Some(i);
      }
      i := i + 1;
    }
    return None;
  }
}
