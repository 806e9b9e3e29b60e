/** The hand-written deep copy of playgrounds/copy-objects/copy.go:
    `Config.CopyManual` and the `deepCopyAny` it uses for map[string]any
    values. The copy holds the same value as the original, and every map
    and pointed-to struct it holds is newly allocated, so that writing
    through the copy cannot reach the original. */
module ObjectCopy {
  import opened GoValues
  import opened PlaygroundConfig
  import opened ManualMerge

  /** deepCopyAny: maps and []any are rebuilt element by element,
      []string and []int are copied, anything else is returned as it is.
      The copy is structurally equal to v. */
  method DeepCopyAny(v: Any) returns (r: Any)
    ensures r == v
    decreases v
  {
    if v.Nil? {
      return Nil;
    }
    match v
    case Object(val) =>
      var m: map<string, Any> := map[];
      var todo := val.Keys;
      while todo != {}
        invariant todo <= val.Keys
        invariant m == map k | k in val.Keys - todo :: val[k]
        decreases todo
      {
        var k :| k in todo;
        var c := DeepCopyAny(val[k]);
        m := m[k := c];
        todo := todo - {k};
      }
      assert val.Keys - todo == val.Keys;
      return Object(m);
    case List(val) =>
      var s := new Any[|val|];
      for i := 0 to |val|
        invariant s[..i] == val[..i]
      {
        s[i] := DeepCopyAny(val[i]);
      }
      assert s[..] == val[..|val|];
      return List(s[..]);
    case Strings(val) =>
      var s := CopySlice(val);
      return Strings(s);
    case Ints(val) =>
      var s := CopySlice(val);
      return Ints(s);
    case _ =>
      return v;
  }

  /** `make(map[string]any, len(src))` filled with deepCopyAny of each value. */
  method CopyMetadata(src: map<string, Any>) returns (r: GoMap<Any>)
    ensures fresh(r) && r.entries == src
  {
    r := new GoMap(map[]);
    var todo := src.Keys;
    while todo != {}
      invariant todo <= src.Keys
      invariant r.entries == map k | k in src.Keys - todo :: src[k]
      decreases todo
    {
      var k :| k in todo;
      var c := DeepCopyAny(src[k]);
      r.entries := r.entries[k := c];
      todo := todo - {k};
    }
    assert src.Keys - todo == src.Keys;
  }

  /** The fields of CopyManual that hold mutable storage: each non-nil
      map gets a new map with the same entries (Labels by maps.Copy,
      Metadata with deepCopyAny of each value), a non-nil DatabasePtr gets
      a new DatabaseConfig holding the same value; nil stays nil. */
  method CopyStorage(dst: Config, c: Config)
    requires dst != c
    modifies dst`Labels, dst`Metadata, dst`DatabasePtr
    ensures Entries(dst.Labels) == Entries(c.Labels) && Entries(dst.Metadata) == Entries(c.Metadata)
    ensures PtrValue(dst.DatabasePtr) == PtrValue(c.DatabasePtr)
    ensures dst.Labels == null || fresh(dst.Labels)
    ensures dst.Metadata == null || fresh(dst.Metadata)
    ensures dst.DatabasePtr == null || fresh(dst.DatabasePtr)
  {
    dst.Labels, dst.Metadata, dst.DatabasePtr := null, null, null;
    if c.DatabasePtr != null {
      dst.DatabasePtr := new DatabaseConfig(c.DatabasePtr.Value());
    }
    if c.Labels != null {
      var m := new GoMap(map[]);
      PutAll(m, c.Labels.entries);
      assert m.entries == c.Labels.entries;
      dst.Labels := m;
    }
    if c.Metadata != null {
      dst.Metadata := CopyMetadata(c.Metadata.entries);
    }
  }

  /** CopyManual: nil for a nil receiver; otherwise a new Config with the
      same value whose Database, maps and DatabasePtr are all newly
      allocated, so that it shares no mutable storage with c. The value
      fields, slices and pointers to plain values are values here, so
      copying them is assigning them. */
  method CopyManual(c: Config?) returns (dst: Config?)
    ensures c == null <==> dst == null
    ensures c != null ==> fresh(dst) && fresh(dst.Database) && dst.Valid()
    ensures c != null ==> dst.Value() == c.Value()
    ensures c != null ==> (dst.Labels == null || fresh(dst.Labels)) && (dst.Metadata == null || fresh(dst.Metadata))
    ensures c != null ==> dst.DatabasePtr == null || fresh(dst.DatabasePtr)
  {
    if c == null {
      return null;
    }
    var d := new Config.ShallowCopy(c);
    CopyStorage(d, c);
    return d;
  }
}
