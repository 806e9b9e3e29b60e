/** deepMergeMap of playgrounds/merge-objects/merge_json.go: a JSON-like tree
    (map[string]any) merged into another in place. A value of src replaces
    dst's, except that two nested maps merge key by key, recursively.

    The top-level dst map is a `GoMap` object updated in place. Nested maps
    are `Any.Object` values: a nested merge works on a `GoMap` holding the
    nested map and stores the merged map back under its key. */
module JsonMerge {
  import opened GoValues
  import opened PlaygroundConfig

  /** The map src's value s leaves under its key, given what dst held
      there (None when dst lacks the key). */
  function MergeValue(d: Option<Any>, s: Any): Any
    decreases s, 1
  {
    if !s.Object? then s
    else if d.Some? && d.value.Object? then Object(DeepMerge(d.value.fields, s.fields))
    else Object(DeepMerge(map[], s.fields))
  }

  /** The value of dst after deepMergeMap(dst, src): its keys are those of
      both maps, keys of dst that src lacks are left untouched, and a
      non-map value of src replaces whatever dst held. */
  function DeepMerge(dst: map<string, Any>, src: map<string, Any>): (r: map<string, Any>)
    decreases Object(src), 0
    ensures r.Keys == dst.Keys + src.Keys
    ensures forall k :: k in dst && k !in src ==> r[k] == dst[k]
    ensures forall k :: k in src && !src[k].Object? ==> r[k] == src[k]
  {
    map k | k in dst.Keys + src.Keys ::
      if k in src then MergeValue(Lookup(dst, k), src[k]) else dst[k]
  }

  function Lookup(m: map<string, Any>, k: string): Option<Any>
  {
    if k in m then Some(m[k]) else None
  }

  // ---------------------------------------------------------------------
  // The merge key by key
  // ---------------------------------------------------------------------

  /** Two nested maps merge recursively: the inner keys of dst that src's
      inner map lacks survive with their values. */
  lemma {:induction false} NestedMapsMerge(dst: map<string, Any>, src: map<string, Any>, k: string, inner: string)
    requires k in dst && k in src && dst[k].Object? && src[k].Object?
    requires inner in dst[k].fields && inner !in src[k].fields
    ensures k in DeepMerge(dst, src) && DeepMerge(dst, src)[k].Object?
    ensures inner in DeepMerge(dst, src)[k].fields
    ensures DeepMerge(dst, src)[k].fields[inner] == dst[k].fields[inner]
  {
  }

  /** A nested map of src under a key where dst holds no map becomes a
      newly built map equal to src's. */
  lemma NewMapEqualsSource(dst: map<string, Any>, src: map<string, Any>, k: string)
    requires k in src && src[k].Object?
    requires k !in dst || !dst[k].Object?
    ensures k in DeepMerge(dst, src) && DeepMerge(dst, src)[k] == src[k]
  {
    MergeIntoEmpty(src[k].fields);
  }

  /** deepMergeMap into an empty map rebuilds src exactly. */
  lemma {:induction false} MergeIntoEmpty(src: map<string, Any>)
    ensures DeepMerge(map[], src) == src
    decreases Object(src)
  {
    forall k | k in src
      ensures DeepMerge(map[], src)[k] == src[k]
    {
      if src[k].Object? {
        MergeIntoEmpty(src[k].fields);
      }
    }
  }

  /** Merging a tree into itself changes nothing. */
  lemma {:induction false} MergeSelf(m: map<string, Any>)
    ensures DeepMerge(m, m) == m
    decreases Object(m)
  {
    forall k | k in m
      ensures DeepMerge(m, m)[k] == m[k]
    {
      if m[k].Object? {
        MergeSelf(m[k].fields);
      }
    }
  }

  /** Applying the same layer twice is applying it once. */
  lemma {:induction false} MergeTwice(dst: map<string, Any>, src: map<string, Any>)
    ensures DeepMerge(DeepMerge(dst, src), src) == DeepMerge(dst, src)
    decreases Object(src)
  {
    var once := DeepMerge(dst, src);
    forall k | k in once
      ensures DeepMerge(once, src)[k] == once[k]
    {
      if k in src && src[k].Object? {
        var inner := if k in dst && dst[k].Object? then dst[k].fields else map[];
        assert once[k] == Object(DeepMerge(inner, src[k].fields));
        MergeTwice(inner, src[k].fields);
        assert Lookup(once, k) == Some(once[k]);
      }
    }
  }

  // ---------------------------------------------------------------------
  // deepMergeMap, in place
  // ---------------------------------------------------------------------

  /** The keys of src that the loop has handled: src without `todo`. */
  function Done(src: map<string, Any>, todo: set<string>): map<string, Any>
  {
    map k | k in src && k !in todo :: src[k]
  }

  /** One iteration of deepMergeMap's loop: handling key k of src. */
  lemma {:induction false} MergeStep(dst: map<string, Any>, src: map<string, Any>, todo: set<string>, k: string)
    requires k in todo && k in src
    ensures DeepMerge(dst, Done(src, todo - {k}))
         == DeepMerge(dst, Done(src, todo))[k := MergeValue(Lookup(dst, k), src[k])]
  {
  }

  /** deepMergeMap(dst, src): every key of src is handled once, in the
      arbitrary order of Go's map iteration. */
  method DeepMergeMap(dst: GoMap<Any>, src: map<string, Any>)
    modifies dst
    ensures dst.entries == DeepMerge(old(dst.entries), src)
    decreases Object(src)
  {
    ghost var d0 := dst.entries;
    var todo := src.Keys;
    assert DeepMerge(d0, Done(src, todo)) == d0;
    while todo != {}
      invariant todo <= src.Keys
      invariant dst.entries == DeepMerge(d0, Done(src, todo))
      decreases todo
    {
      var key :| key in todo;
      var srcVal := src[key];
      assert Lookup(dst.entries, key) == Lookup(d0, key);
      if srcVal.Object? {
        if key in dst.entries && dst.entries[key].Object? {
          var dstMap := new GoMap(dst.entries[key].fields);
          DeepMergeMap(dstMap, srcVal.fields);
          dst.entries := dst.entries[key := Object(dstMap.entries)];
        } else {
          var newMap := new GoMap(map[]);
          DeepMergeMap(newMap, srcVal.fields);
          dst.entries := dst.entries[key := Object(newMap.entries)];
        }
      } else {
        dst.entries := dst.entries[key := srcVal];
      }
      MergeStep(d0, src, todo, key);
      todo := todo - {key};
    }
    assert Done(src, todo) == src;
  }
}
