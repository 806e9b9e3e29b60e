/** The hand-written overlay merge of playgrounds/merge-objects/merge_manual.go.

    `Apply` is the meaning of one `applyInputManual` call on the value of a
    Config; `ApplyAll` folds a sequence of overlays from a base. The methods
    below are the Go functions, working in place on `Config` objects, and are
    proved against `Apply`. The lemmas state the precedence law: after a
    fold, every field holds what the LAST overlay that set it says, and the
    base value where no overlay set it; maps merge key by key under the same
    law. */
module ManualMerge {
  import opened GoValues
  import opened PlaygroundConfig

  // ---------------------------------------------------------------------
  // Specification of one overlay application
  // ---------------------------------------------------------------------

  /** `if p != nil { x = *p }` */
  function Override<T>(p: Option<T>, x: T): T
  {
    if p.Some? then p.value else x
  }

  /** The key-by-key map merge: `if dst == nil { dst = make(...) }` then
      `dst[k] = v` for every entry of src. */
  function MergeEntries<V>(dst: Option<map<string, V>>, src: map<string, V>): (r: map<string, V>)
    ensures r.Keys == (if dst.Some? then dst.value.Keys else {}) + src.Keys
    ensures forall k | k in src :: r[k] == src[k]
    ensures forall k | dst.Some? && k in dst.value && k !in src :: r[k] == dst.value[k]
  {
    (if dst.Some? then dst.value else map[]) + src
  }

  /** applyInputDatabaseManual on the value of a DatabaseConfig. */
  function ApplyDatabase(db: DatabaseValue, src: InputDatabaseConfig): DatabaseValue
  {
    DatabaseValue(
      Override(src.Host, db.Host),
      Override(src.Port, db.Port),
      Override(src.Username, db.Username),
      Override(src.Password, db.Password),
      Override(src.SSLMode, db.SSLMode))
  }

  /** convertInputTag: an unset Key or Value becomes "". */
  function ConvertInputTag(t: InputTag): (r: Tag)
    ensures r.Key == (if t.Key.Some? then t.Key.value else "")
    ensures r.Value == (if t.Value.Some? then t.Value.value else "")
  {
    Tag(Override(t.Key, ""), Override(t.Value, ""))
  }

  /** The Tags slice that replaces dst.Tags, converted element by element. */
  function ConvertTags(ts: seq<InputTag>): (r: seq<Tag>)
    ensures |r| == |ts|
    ensures forall i | 0 <= i < |ts| :: r[i] == ConvertInputTag(ts[i])
  {
    seq(|ts|, i requires 0 <= i < |ts| => ConvertInputTag(ts[i]))
  }

  /** A pointer or slice field: replaced when src sets it, kept otherwise. */
  function Replace<T>(p: Option<T>, x: Option<T>): Option<T>
  {
    if p.Some? then p else x
  }

  /** dst.Tags: replaced by the converted overlay Tags when src sets them. */
  function ReplaceTags(p: Option<seq<InputTag>>, x: Option<seq<Tag>>): Option<seq<Tag>>
  {
    if p.Some? then Some(ConvertTags(p.value)) else x
  }

  /** A map field: a set overlay map is merged into it key by key. */
  function MergeOpt<V>(p: Option<map<string, V>>, x: Option<map<string, V>>): Option<map<string, V>>
  {
    if p.Some? then Some(MergeEntries(x, p.value)) else x
  }

  /** dst.Database: merged field by field when src sets Database. */
  function MergeDatabase(p: Option<InputDatabaseConfig>, x: DatabaseValue): DatabaseValue
  {
    if p.Some? then ApplyDatabase(x, p.value) else x
  }

  /** dst.DatabasePtr: when src sets DatabasePtr, a nil pointer first gets
      a DatabaseConfig{}, which is then merged field by field. */
  function MergeDatabasePtr(p: Option<InputDatabaseConfig>, x: Option<DatabaseValue>): Option<DatabaseValue>
  {
    if p.Some? then Some(ApplyDatabase(PtrOrZero(x), p.value)) else x
  }

  /** The value of dst after applyInputManual(dst, src). */
  function Apply(c: ConfigValue, src: InputConfig): ConfigValue
  {
    ConfigValue(
      Override(src.Name, c.Name),
      Override(src.Port, c.Port),
      Override(src.MaxRetries, c.MaxRetries),
      Override(src.Timeout, c.Timeout),
      Override(src.Rate, c.Rate),
      Override(src.Enabled, c.Enabled),
      Replace(src.EnabledPtr, c.EnabledPtr),
      Replace(src.Description, c.Description),
      Replace(src.Hosts, c.Hosts),
      Replace(src.Ports, c.Ports),
      ReplaceTags(src.Tags, c.Tags),
      MergeOpt(src.Labels, c.Labels),
      MergeOpt(src.Metadata, c.Metadata),
      MergeDatabase(src.Database, c.Database),
      MergeDatabasePtr(src.DatabasePtr, c.DatabasePtr),
      Override(src.CreatedAt, c.CreatedAt),
      Replace(src.UpdatedAt, c.UpdatedAt))
  }

  /** `if input != nil { applyInputManual(&result, input) }` */
  function ApplyOpt(c: ConfigValue, src: Option<InputConfig>): ConfigValue
  {
    if src.Some? then Apply(c, src.value) else c
  }

  /** The overlays applied in order, starting from base. */
  function ApplyAll(base: ConfigValue, inputs: seq<Option<InputConfig>>): ConfigValue
    decreases |inputs|
  {
    if inputs == [] then base
    else ApplyOpt(ApplyAll(base, inputs[..|inputs| - 1]), inputs[|inputs| - 1])
  }

  /** Two overlays: the first applied, then the second. */
  lemma ApplyAllTwo(base: ConfigValue, input1: Option<InputConfig>, input2: Option<InputConfig>)
    ensures ApplyAll(base, [input1, input2]) == ApplyOpt(ApplyOpt(base, input1), input2)
  {
    assert [input1, input2][..1] == [input1];
    assert [input1][..0] == [];
    assert ApplyAll(base, [input1]) == ApplyOpt(ApplyAll(base, []), input1);
  }

  /** The value of the defaults after MergeManualWithDefaults returned a
      Config of value r: the maps and DatabasePtr the defaults had are shared
      with the result, so they now hold the result's; the rest is untouched. */
  function WrittenThrough(d: ConfigValue, r: ConfigValue): ConfigValue
  {
    d.(Labels := if d.Labels.Some? then r.Labels else d.Labels,
       Metadata := if d.Metadata.Some? then r.Metadata else d.Metadata,
       DatabasePtr := if d.DatabasePtr.Some? then r.DatabasePtr else d.DatabasePtr)
  }

  /** The value of MergeManual(input1, input2). */
  function MergeSpec(input1: Option<InputConfig>, input2: Option<InputConfig>): ConfigValue
  {
    ApplyAll(ZeroConfig, [input1, input2])
  }

  // ---------------------------------------------------------------------
  // Laws of one application
  // ---------------------------------------------------------------------

  /** An overlay that sets nothing leaves every field as it was. */
  lemma {:induction false} ApplyEmptyIsIdentity(c: ConfigValue)
    ensures Apply(c, EmptyInput) == c
  {
  }

  /** Applying the same overlay twice changes nothing the second time. */
  lemma ApplyIdempotent(c: ConfigValue, src: InputConfig)
    ensures Apply(Apply(c, src), src) == Apply(c, src)
  {
    var once := Apply(c, src);
    if src.Labels.Some? {
      assert MergeEntries(once.Labels, src.Labels.value) == once.Labels.value;
    }
    if src.Metadata.Some? {
      assert MergeEntries(once.Metadata, src.Metadata.value) == once.Metadata.value;
    }
  }

  // ---------------------------------------------------------------------
  // The precedence law of a fold
  // ---------------------------------------------------------------------

  /** The value of the field `sel` picks out of the LAST overlay that sets it. */
  function LastSet<T>(inputs: seq<Option<InputConfig>>, sel: InputConfig -> Option<T>): (r: Option<T>)
    ensures r.Some? ==> exists j :: 0 <= j < |inputs| && inputs[j].Some? && sel(inputs[j].value) == r
    ensures r.None? ==> forall j | 0 <= j < |inputs| && inputs[j].Some? :: sel(inputs[j].value).None?
    decreases |inputs|
  {
    if inputs == [] then None
    else
      var last := inputs[|inputs| - 1];
      if last.Some? && sel(last.value).Some? then sel(last.value)
      else
        var r := LastSet(inputs[..|inputs| - 1], sel);
        assert r.Some? ==> inputs[..|inputs| - 1] <= inputs;
        r
  }

  /** For a field `get` of the result that one application overrides exactly
      when `sel` of the overlay is set, the fold leaves in it the value of the
      last overlay that sets it, or the base's. */
  lemma {:induction false} FoldOverride<T>(
    get: ConfigValue -> T, sel: InputConfig -> Option<T>,
    base: ConfigValue, inputs: seq<Option<InputConfig>>)
    requires forall c, src :: get(Apply(c, src)) == Override(sel(src), get(c))
    ensures get(ApplyAll(base, inputs)) == Override(LastSet(inputs, sel), get(base))
    decreases |inputs|
  {
    if inputs != [] {
      FoldOverride(get, sel, base, inputs[..|inputs| - 1]);
    }
  }

  function Present<T>(p: Option<T>): Option<Option<T>>
  {
    if p.Some? then Some(p) else None
  }

  function NameOf(src: InputConfig): Option<string> { src.Name }
  function PortOf(src: InputConfig): Option<int> { src.Port }
  function MaxRetriesOf(src: InputConfig): Option<int> { src.MaxRetries }
  function TimeoutOf(src: InputConfig): Option<int> { src.Timeout }
  function RateOf(src: InputConfig): Option<Float64> { src.Rate }
  function EnabledOf(src: InputConfig): Option<bool> { src.Enabled }
  function CreatedAtOf(src: InputConfig): Option<Time> { src.CreatedAt }
  function EnabledPtrOf(src: InputConfig): Option<Option<bool>> { Present(src.EnabledPtr) }
  function DescriptionOf(src: InputConfig): Option<Option<string>> { Present(src.Description) }
  function UpdatedAtOf(src: InputConfig): Option<Option<Time>> { Present(src.UpdatedAt) }
  function HostsOf(src: InputConfig): Option<Option<seq<string>>> { Present(src.Hosts) }
  function PortsOf(src: InputConfig): Option<Option<seq<int>>> { Present(src.Ports) }

  function TagsOf(src: InputConfig): Option<Option<seq<Tag>>>
  {
    if src.Tags.Some? then Some(Some(ConvertTags(src.Tags.value))) else None
  }

  /** Scalar fields: the last overlay that sets one wins. */
  lemma {:induction false} PrecedenceScalars(base: ConfigValue, inputs: seq<Option<InputConfig>>)
    ensures ApplyAll(base, inputs).Name == Override(LastSet(inputs, NameOf), base.Name)
    ensures ApplyAll(base, inputs).Port == Override(LastSet(inputs, PortOf), base.Port)
    ensures ApplyAll(base, inputs).MaxRetries == Override(LastSet(inputs, MaxRetriesOf), base.MaxRetries)
    ensures ApplyAll(base, inputs).Timeout == Override(LastSet(inputs, TimeoutOf), base.Timeout)
    ensures ApplyAll(base, inputs).Rate == Override(LastSet(inputs, RateOf), base.Rate)
    ensures ApplyAll(base, inputs).Enabled == Override(LastSet(inputs, EnabledOf), base.Enabled)
    ensures ApplyAll(base, inputs).CreatedAt == Override(LastSet(inputs, CreatedAtOf), base.CreatedAt)
  {
    FoldOverride((c: ConfigValue) => c.Name, NameOf, base, inputs);
    FoldOverride((c: ConfigValue) => c.Port, PortOf, base, inputs);
    FoldOverride((c: ConfigValue) => c.MaxRetries, MaxRetriesOf, base, inputs);
    FoldOverride((c: ConfigValue) => c.Timeout, TimeoutOf, base, inputs);
    FoldOverride((c: ConfigValue) => c.Rate, RateOf, base, inputs);
    FoldOverride((c: ConfigValue) => c.Enabled, EnabledOf, base, inputs);
    FoldOverride((c: ConfigValue) => c.CreatedAt, CreatedAtOf, base, inputs);
  }

  /** Pointer fields: the last overlay that sets one replaces it with a
      pointer to a copy of its value; none set leaves the base's. */
  lemma {:induction false} PrecedencePointers(base: ConfigValue, inputs: seq<Option<InputConfig>>)
    ensures ApplyAll(base, inputs).EnabledPtr == Override(LastSet(inputs, EnabledPtrOf), base.EnabledPtr)
    ensures ApplyAll(base, inputs).Description == Override(LastSet(inputs, DescriptionOf), base.Description)
    ensures ApplyAll(base, inputs).UpdatedAt == Override(LastSet(inputs, UpdatedAtOf), base.UpdatedAt)
  {
    FoldOverride((c: ConfigValue) => c.EnabledPtr, EnabledPtrOf, base, inputs);
    FoldOverride((c: ConfigValue) => c.Description, DescriptionOf, base, inputs);
    FoldOverride((c: ConfigValue) => c.UpdatedAt, UpdatedAtOf, base, inputs);
  }

  /** Slices: the last overlay that sets one replaces it wholesale (Tags
      converted element by element); none set leaves the base's. */
  lemma {:induction false} PrecedenceSlices(base: ConfigValue, inputs: seq<Option<InputConfig>>)
    ensures ApplyAll(base, inputs).Hosts == Override(LastSet(inputs, HostsOf), base.Hosts)
    ensures ApplyAll(base, inputs).Ports == Override(LastSet(inputs, PortsOf), base.Ports)
    ensures ApplyAll(base, inputs).Tags == Override(LastSet(inputs, TagsOf), base.Tags)
  {
    FoldOverride((c: ConfigValue) => c.Hosts, HostsOf, base, inputs);
    FoldOverride((c: ConfigValue) => c.Ports, PortsOf, base, inputs);
    FoldOverride((c: ConfigValue) => c.Tags, TagsOf, base, inputs);
  }

  function LabelAt(c: ConfigValue, k: string): Option<string>
  {
    if c.Labels.Some? && k in c.Labels.value then Some(c.Labels.value[k]) else None
  }

  function MetadataAt(c: ConfigValue, k: string): Option<Any>
  {
    if c.Metadata.Some? && k in c.Metadata.value then Some(c.Metadata.value[k]) else None
  }

  function LabelOf(k: string): InputConfig -> Option<Option<string>>
  {
    (src: InputConfig) => if src.Labels.Some? && k in src.Labels.value then Some(Some(src.Labels.value[k])) else None
  }

  function MetadataOf(k: string): InputConfig -> Option<Option<Any>>
  {
    (src: InputConfig) => if src.Metadata.Some? && k in src.Metadata.value then Some(Some(src.Metadata.value[k])) else None
  }

  function HasLabels(src: InputConfig): Option<bool> { if src.Labels.Some? then Some(true) else None }
  function HasMetadata(src: InputConfig): Option<bool> { if src.Metadata.Some? then Some(true) else None }

  /** Labels merge key by key: the map is present once the base or any
      overlay has one, and each key holds the value of the last overlay that
      has the key, or the base's. */
  lemma {:induction false} PrecedenceLabels(base: ConfigValue, inputs: seq<Option<InputConfig>>, k: string)
    ensures ApplyAll(base, inputs).Labels.Some? == Override(LastSet(inputs, HasLabels), base.Labels.Some?)
    ensures LabelAt(ApplyAll(base, inputs), k) == Override(LastSet(inputs, LabelOf(k)), LabelAt(base, k))
  {
    FoldOverride((c: ConfigValue) => c.Labels.Some?, HasLabels, base, inputs);
    forall c, src ensures LabelAt(Apply(c, src), k) == Override(LabelOf(k)(src), LabelAt(c, k)) {
      LabelStep(c, src, k);
    }
    FoldOverride((c: ConfigValue) => LabelAt(c, k), LabelOf(k), base, inputs);
  }

  lemma LabelStep(c: ConfigValue, src: InputConfig, k: string)
    ensures LabelAt(Apply(c, src), k) == Override(LabelOf(k)(src), LabelAt(c, k))
  {
    if src.Labels.Some? {
      assert Apply(c, src).Labels == Some(MergeEntries(c.Labels, src.Labels.value));
    }
  }

  lemma MetadataStep(c: ConfigValue, src: InputConfig, k: string)
    ensures MetadataAt(Apply(c, src), k) == Override(MetadataOf(k)(src), MetadataAt(c, k))
  {
    if src.Metadata.Some? {
      assert Apply(c, src).Metadata == Some(MergeEntries(c.Metadata, src.Metadata.value));
    }
  }

  /** Metadata merges key by key under the same law as Labels (values are
      replaced, not merged recursively). */
  lemma {:induction false} PrecedenceMetadata(base: ConfigValue, inputs: seq<Option<InputConfig>>, k: string)
    ensures ApplyAll(base, inputs).Metadata.Some? == Override(LastSet(inputs, HasMetadata), base.Metadata.Some?)
    ensures MetadataAt(ApplyAll(base, inputs), k) == Override(LastSet(inputs, MetadataOf(k)), MetadataAt(base, k))
  {
    FoldOverride((c: ConfigValue) => c.Metadata.Some?, HasMetadata, base, inputs);
    forall c, src ensures MetadataAt(Apply(c, src), k) == Override(MetadataOf(k)(src), MetadataAt(c, k)) {
      MetadataStep(c, src, k);
    }
    FoldOverride((c: ConfigValue) => MetadataAt(c, k), MetadataOf(k), base, inputs);
  }

  function HostIn(d: Option<InputDatabaseConfig>): Option<string> { if d.Some? then d.value.Host else None }
  function PortIn(d: Option<InputDatabaseConfig>): Option<int> { if d.Some? then d.value.Port else None }
  function UsernameIn(d: Option<InputDatabaseConfig>): Option<string> { if d.Some? then d.value.Username else None }
  function PasswordIn(d: Option<InputDatabaseConfig>): Option<string> { if d.Some? then d.value.Password else None }
  function SSLModeIn(d: Option<InputDatabaseConfig>): Option<string> { if d.Some? then d.value.SSLMode else None }
  function HasDatabasePtr(src: InputConfig): Option<bool> { if src.DatabasePtr.Some? then Some(true) else None }

  lemma DatabaseStep(c: ConfigValue, src: InputConfig)
    ensures Apply(c, src).Database
         == if src.Database.Some? then ApplyDatabase(c.Database, src.Database.value) else c.Database
  {
  }

  /** The embedded Database merges field by field across overlays. */
  lemma {:induction false} PrecedenceDatabase(base: ConfigValue, inputs: seq<Option<InputConfig>>)
    ensures ApplyAll(base, inputs).Database.Host == Override(LastSet(inputs, (src: InputConfig) => HostIn(src.Database)), base.Database.Host)
    ensures ApplyAll(base, inputs).Database.Port == Override(LastSet(inputs, (src: InputConfig) => PortIn(src.Database)), base.Database.Port)
    ensures ApplyAll(base, inputs).Database.Username == Override(LastSet(inputs, (src: InputConfig) => UsernameIn(src.Database)), base.Database.Username)
    ensures ApplyAll(base, inputs).Database.Password == Override(LastSet(inputs, (src: InputConfig) => PasswordIn(src.Database)), base.Database.Password)
    ensures ApplyAll(base, inputs).Database.SSLMode == Override(LastSet(inputs, (src: InputConfig) => SSLModeIn(src.Database)), base.Database.SSLMode)
  {
    forall c, src ensures Apply(c, src).Database
         == if src.Database.Some? then ApplyDatabase(c.Database, src.Database.value) else c.Database {
      DatabaseStep(c, src);
    }
    FoldOverride((c: ConfigValue) => c.Database.Host, (src: InputConfig) => HostIn(src.Database), base, inputs);
    FoldOverride((c: ConfigValue) => c.Database.Port, (src: InputConfig) => PortIn(src.Database), base, inputs);
    FoldOverride((c: ConfigValue) => c.Database.Username, (src: InputConfig) => UsernameIn(src.Database), base, inputs);
    FoldOverride((c: ConfigValue) => c.Database.Password, (src: InputConfig) => PasswordIn(src.Database), base, inputs);
    FoldOverride((c: ConfigValue) => c.Database.SSLMode, (src: InputConfig) => SSLModeIn(src.Database), base, inputs);
  }

  lemma PtrDatabaseStep(c: ConfigValue, src: InputConfig)
    ensures PtrOrZero(Apply(c, src).DatabasePtr)
         == if src.DatabasePtr.Some? then ApplyDatabase(PtrOrZero(c.DatabasePtr), src.DatabasePtr.value) else PtrOrZero(c.DatabasePtr)
  {
  }

  /** DatabasePtr exists once the base or an overlay has one, and merges
      field by field the same way, starting from DatabaseConfig{} when the
      base has none. */
  lemma {:induction false} PrecedenceDatabasePtr(base: ConfigValue, inputs: seq<Option<InputConfig>>)
    ensures ApplyAll(base, inputs).DatabasePtr.Some? == Override(LastSet(inputs, HasDatabasePtr), base.DatabasePtr.Some?)
    ensures PtrOrZero(ApplyAll(base, inputs).DatabasePtr).Host == Override(LastSet(inputs, (src: InputConfig) => HostIn(src.DatabasePtr)), PtrOrZero(base.DatabasePtr).Host)
    ensures PtrOrZero(ApplyAll(base, inputs).DatabasePtr).Port == Override(LastSet(inputs, (src: InputConfig) => PortIn(src.DatabasePtr)), PtrOrZero(base.DatabasePtr).Port)
    ensures PtrOrZero(ApplyAll(base, inputs).DatabasePtr).Username == Override(LastSet(inputs, (src: InputConfig) => UsernameIn(src.DatabasePtr)), PtrOrZero(base.DatabasePtr).Username)
    ensures PtrOrZero(ApplyAll(base, inputs).DatabasePtr).Password == Override(LastSet(inputs, (src: InputConfig) => PasswordIn(src.DatabasePtr)), PtrOrZero(base.DatabasePtr).Password)
    ensures PtrOrZero(ApplyAll(base, inputs).DatabasePtr).SSLMode == Override(LastSet(inputs, (src: InputConfig) => SSLModeIn(src.DatabasePtr)), PtrOrZero(base.DatabasePtr).SSLMode)
  {
    FoldOverride((c: ConfigValue) => c.DatabasePtr.Some?, HasDatabasePtr, base, inputs);
    forall c, src ensures PtrOrZero(Apply(c, src).DatabasePtr)
         == if src.DatabasePtr.Some? then ApplyDatabase(PtrOrZero(c.DatabasePtr), src.DatabasePtr.value) else PtrOrZero(c.DatabasePtr) {
      PtrDatabaseStep(c, src);
    }
    FoldOverride((c: ConfigValue) => PtrOrZero(c.DatabasePtr).Host, (src: InputConfig) => HostIn(src.DatabasePtr), base, inputs);
    FoldOverride((c: ConfigValue) => PtrOrZero(c.DatabasePtr).Port, (src: InputConfig) => PortIn(src.DatabasePtr), base, inputs);
    FoldOverride((c: ConfigValue) => PtrOrZero(c.DatabasePtr).Username, (src: InputConfig) => UsernameIn(src.DatabasePtr), base, inputs);
    FoldOverride((c: ConfigValue) => PtrOrZero(c.DatabasePtr).Password, (src: InputConfig) => PasswordIn(src.DatabasePtr), base, inputs);
    FoldOverride((c: ConfigValue) => PtrOrZero(c.DatabasePtr).SSLMode, (src: InputConfig) => SSLModeIn(src.DatabasePtr), base, inputs);
  }

  // ---------------------------------------------------------------------
  // The Go functions, in place on Config objects
  // ---------------------------------------------------------------------

  /** `for k, v := range src { dst[k] = v }` */
  method PutAll<V>(dst: GoMap<V>, src: map<string, V>)
    modifies dst
    ensures dst.entries == old(dst.entries) + src
  {
    var todo := src.Keys;
    while todo != {}
      invariant todo <= src.Keys
      invariant dst.entries == old(dst.entries) + map k | k in src.Keys - todo :: src[k]
      decreases todo
    {
      var k :| k in todo;
      dst.entries := dst.entries[k := src[k]];
      todo := todo - {k};
    }
    assert src.Keys - todo == src.Keys;
    assert (map k | k in src.Keys :: src[k]) == src;
  }

  /** `make([]T, len(src))` followed by `copy(dst, src)`: the new slice
      holds exactly the elements of src. */
  method CopySlice<T(0)>(src: seq<T>) returns (r: seq<T>)
    ensures r == src
  {
    var a := new T[|src|];
    for i := 0 to |src|
      invariant a[..i] == src[..i]
    {
      a[i] := src[i];
    }
    r := a[..];
  }

  /** `make([]Tag, len(src))`, filled by index with convertInputTag. */
  method ConvertTagSlice(src: seq<InputTag>) returns (r: seq<Tag>)
    ensures r == ConvertTags(src)
  {
    var a := new Tag[|src|];
    for i := 0 to |src|
      invariant forall j | 0 <= j < i :: a[j] == ConvertInputTag(src[j])
    {
      a[i] := ConvertInputTag(src[i]);
    }
    r := a[..];
  }

  /** A map field of applyInputManual: for a set overlay map, a nil dst map
      is made first and every entry of the overlay is then put into it. */
  method MergeMap<V>(cur: GoMap?<V>, p: Option<map<string, V>>) returns (r: GoMap?<V>)
    modifies cur
    ensures Entries(r) == MergeOpt(p, old(Entries(cur)))
    ensures if cur != null then r == cur else r == null || fresh(r)
  {
    r := cur;
    if p.Some? {
      if r == null {
        r := new GoMap(map[]);
      }
      PutAll(r, p.value);
    }
  }

  /** applyInputDatabaseManual: each set field overwrites dst's. */
  method ApplyInputDatabaseManual(dst: DatabaseConfig, src: InputDatabaseConfig)
    modifies dst
    ensures dst.Value() == ApplyDatabase(old(dst.Value()), src)
  {
    if src.Host.Some? {
      dst.Host := src.Host.value;
    }
    if src.Port.Some? {
      dst.Port := src.Port.value;
    }
    if src.Username.Some? {
      dst.Username := src.Username.value;
    }
    if src.Password.Some? {
      dst.Password := src.Password.value;
    }
    if src.SSLMode.Some? {
      dst.SSLMode := src.SSLMode.value;
    }
  }

  /** The DatabasePtr field of applyInputManual: for a set overlay, a nil
      dst pointer gets a fresh DatabaseConfig{}, which is then merged in
      place; a non-nil one is merged in place. */
  method MergeDatabasePtrManual(cur: DatabaseConfig?, p: Option<InputDatabaseConfig>) returns (r: DatabaseConfig?)
    modifies cur
    ensures PtrValue(r) == MergeDatabasePtr(p, old(PtrValue(cur)))
    ensures if cur != null then r == cur else r == null || fresh(r)
  {
    r := cur;
    if p.Some? {
      if r == null {
        r := new DatabaseConfig(ZeroDatabase);
      }
      ApplyInputDatabaseManual(r, p.value);
    }
  }

  /** The scalar and time fields of applyInputManual: `if src.F != nil { dst.F = *src.F }`. */
  method ApplyScalars(dst: Config, src: InputConfig)
    modifies dst`Name, dst`Port, dst`MaxRetries, dst`Timeout, dst`Rate, dst`Enabled, dst`CreatedAt
    ensures dst.Name == Override(src.Name, old(dst.Name))
    ensures dst.Port == Override(src.Port, old(dst.Port))
    ensures dst.MaxRetries == Override(src.MaxRetries, old(dst.MaxRetries))
    ensures dst.Timeout == Override(src.Timeout, old(dst.Timeout))
    ensures dst.Rate == Override(src.Rate, old(dst.Rate))
    ensures dst.Enabled == Override(src.Enabled, old(dst.Enabled))
    ensures dst.CreatedAt == Override(src.CreatedAt, old(dst.CreatedAt))
  {
    dst.Name := Override(src.Name, dst.Name);
    dst.Port := Override(src.Port, dst.Port);
    dst.MaxRetries := Override(src.MaxRetries, dst.MaxRetries);
    dst.Timeout := Override(src.Timeout, dst.Timeout);
    dst.Rate := Override(src.Rate, dst.Rate);
    dst.Enabled := Override(src.Enabled, dst.Enabled);
    dst.CreatedAt := Override(src.CreatedAt, dst.CreatedAt);
  }

  /** The pointer and slice fields of applyInputManual: a set overlay
      field replaces dst's with a copy of its value (Tags converted). */
  method ReplaceFields(dst: Config, src: InputConfig)
    modifies dst`EnabledPtr, dst`Description, dst`UpdatedAt, dst`Hosts, dst`Ports, dst`Tags
    ensures dst.EnabledPtr == Replace(src.EnabledPtr, old(dst.EnabledPtr))
    ensures dst.Description == Replace(src.Description, old(dst.Description))
    ensures dst.Hosts == Replace(src.Hosts, old(dst.Hosts))
    ensures dst.Ports == Replace(src.Ports, old(dst.Ports))
    ensures dst.Tags == ReplaceTags(src.Tags, old(dst.Tags))
    ensures dst.UpdatedAt == Replace(src.UpdatedAt, old(dst.UpdatedAt))
  {
    dst.EnabledPtr := Replace(src.EnabledPtr, dst.EnabledPtr);
    dst.Description := Replace(src.Description, dst.Description);
    if src.Hosts.Some? {
      var hosts := CopySlice(src.Hosts.value);
      dst.Hosts := Some(hosts);
    }
    if src.Ports.Some? {
      var ports := CopySlice(src.Ports.value);
      dst.Ports := Some(ports);
    }
    if src.Tags.Some? {
      var tags := ConvertTagSlice(src.Tags.value);
      dst.Tags := Some(tags);
    }
    dst.UpdatedAt := Replace(src.UpdatedAt, dst.UpdatedAt);
  }

  /** The fields applyInputManual writes in dst itself. */
  method ApplyOwnFields(dst: Config, src: InputConfig)
    modifies dst`Name, dst`Port, dst`MaxRetries, dst`Timeout, dst`Rate, dst`Enabled, dst`CreatedAt
    modifies dst`EnabledPtr, dst`Description, dst`UpdatedAt, dst`Hosts, dst`Ports, dst`Tags
    ensures dst.Name == Override(src.Name, old(dst.Name))
    ensures dst.Port == Override(src.Port, old(dst.Port))
    ensures dst.MaxRetries == Override(src.MaxRetries, old(dst.MaxRetries))
    ensures dst.Timeout == Override(src.Timeout, old(dst.Timeout))
    ensures dst.Rate == Override(src.Rate, old(dst.Rate))
    ensures dst.Enabled == Override(src.Enabled, old(dst.Enabled))
    ensures dst.CreatedAt == Override(src.CreatedAt, old(dst.CreatedAt))
    ensures dst.EnabledPtr == Replace(src.EnabledPtr, old(dst.EnabledPtr))
    ensures dst.Description == Replace(src.Description, old(dst.Description))
    ensures dst.Hosts == Replace(src.Hosts, old(dst.Hosts))
    ensures dst.Ports == Replace(src.Ports, old(dst.Ports))
    ensures dst.Tags == ReplaceTags(src.Tags, old(dst.Tags))
    ensures dst.UpdatedAt == Replace(src.UpdatedAt, old(dst.UpdatedAt))
  {
    ApplyScalars(dst, src);
    ReplaceFields(dst, src);
  }

  /** The two maps of applyInputManual, merged key by key: dst's maps are
      kept when non-nil (and so stay shared with whoever else holds them)
      and freshly made otherwise. */
  method MergeMaps(dst: Config, src: InputConfig)
    modifies dst`Labels, dst`Metadata, dst.Labels, dst.Metadata
    ensures Entries(dst.Labels) == MergeOpt(src.Labels, old(Entries(dst.Labels)))
    ensures Entries(dst.Metadata) == MergeOpt(src.Metadata, old(Entries(dst.Metadata)))
    ensures if old(dst.Labels) != null then dst.Labels == old(dst.Labels) else dst.Labels == null || fresh(dst.Labels)
    ensures if old(dst.Metadata) != null then dst.Metadata == old(dst.Metadata) else dst.Metadata == null || fresh(dst.Metadata)
  {
    dst.Labels := MergeMap(dst.Labels, src.Labels);
    dst.Metadata := MergeMap(dst.Metadata, src.Metadata);
  }

  /** The nested structs of applyInputManual, merged in place: the embedded
      Database, and DatabasePtr, which is kept when non-nil and freshly
      allocated otherwise. */
  method MergeDatabases(dst: Config, src: InputConfig)
    requires dst.Valid()
    modifies dst`DatabasePtr, dst.Database, dst.DatabasePtr
    ensures dst.Valid()
    ensures dst.Database.Value() == MergeDatabase(src.Database, old(dst.Database.Value()))
    ensures PtrValue(dst.DatabasePtr) == MergeDatabasePtr(src.DatabasePtr, old(PtrValue(dst.DatabasePtr)))
    ensures if old(dst.DatabasePtr) != null then dst.DatabasePtr == old(dst.DatabasePtr)
            else dst.DatabasePtr == null || fresh(dst.DatabasePtr)
  {
    if src.Database.Some? {
      ApplyInputDatabaseManual(dst.Database, src.Database.value);
    }
    dst.DatabasePtr := MergeDatabasePtrManual(dst.DatabasePtr, src.DatabasePtr);
  }

  /** The maps and nested structs of applyInputManual, merged in place. */
  method ApplyShared(dst: Config, src: InputConfig)
    requires dst.Valid()
    modifies dst`Labels, dst`Metadata, dst`DatabasePtr, dst.Labels, dst.Metadata, dst.Database, dst.DatabasePtr
    ensures dst.Valid()
    ensures Entries(dst.Labels) == MergeOpt(src.Labels, old(Entries(dst.Labels)))
    ensures Entries(dst.Metadata) == MergeOpt(src.Metadata, old(Entries(dst.Metadata)))
    ensures dst.Database.Value() == MergeDatabase(src.Database, old(dst.Database.Value()))
    ensures PtrValue(dst.DatabasePtr) == MergeDatabasePtr(src.DatabasePtr, old(PtrValue(dst.DatabasePtr)))
    ensures if old(dst.Labels) != null then dst.Labels == old(dst.Labels) else dst.Labels == null || fresh(dst.Labels)
    ensures if old(dst.Metadata) != null then dst.Metadata == old(dst.Metadata) else dst.Metadata == null || fresh(dst.Metadata)
    ensures if old(dst.DatabasePtr) != null then dst.DatabasePtr == old(dst.DatabasePtr)
            else dst.DatabasePtr == null || fresh(dst.DatabasePtr)
  {
    MergeMaps(dst, src);
    MergeDatabases(dst, src);
  }

  /** applyInputManual: dst takes the value Apply prescribes. Its maps and
      DatabasePtr are updated in place when dst already has them, and
      freshly allocated otherwise; the embedded Database stays dst's own. */
  method ApplyInputManual(dst: Config, src: InputConfig)
    requires dst.Valid()
    modifies dst, dst.Labels, dst.Metadata, dst.Database, dst.DatabasePtr
    ensures dst.Valid()
    ensures dst.Value() == Apply(old(dst.Value()), src)
    ensures dst.Database == old(dst.Database)
    ensures if old(dst.Labels) != null then dst.Labels == old(dst.Labels) else dst.Labels == null || fresh(dst.Labels)
    ensures if old(dst.Metadata) != null then dst.Metadata == old(dst.Metadata) else dst.Metadata == null || fresh(dst.Metadata)
    ensures if old(dst.DatabasePtr) != null then dst.DatabasePtr == old(dst.DatabasePtr)
            else dst.DatabasePtr == null || fresh(dst.DatabasePtr)
  {
    ApplyOwnFields(dst, src);
    ApplyShared(dst, src);
  }

  /** `if input1 != nil { applyInputManual(&result, input1) }`, then the
      same for input2. */
  method ApplyInputs(dst: Config, input1: Option<InputConfig>, input2: Option<InputConfig>)
    requires dst.Valid()
    modifies dst, dst.Labels, dst.Metadata, dst.Database, dst.DatabasePtr
    ensures dst.Valid()
    ensures dst.Value() == ApplyAll(old(dst.Value()), [input1, input2])
    ensures dst.Database == old(dst.Database)
    ensures if old(dst.Labels) != null then dst.Labels == old(dst.Labels) else dst.Labels == null || fresh(dst.Labels)
    ensures if old(dst.Metadata) != null then dst.Metadata == old(dst.Metadata) else dst.Metadata == null || fresh(dst.Metadata)
    ensures if old(dst.DatabasePtr) != null then dst.DatabasePtr == old(dst.DatabasePtr)
            else dst.DatabasePtr == null || fresh(dst.DatabasePtr)
  {
    ApplyAllTwo(dst.Value(), input1, input2);
    if input1.Some? {
      ApplyInputManual(dst, input1.value);
    }
    if input2.Some? {
      ApplyInputManual(dst, input2.value);
    }
  }

  /** MergeManual: input1 then input2 applied to Config{}; a nil input is skipped. */
  method MergeManual(input1: Option<InputConfig>, input2: Option<InputConfig>) returns (result: Config)
    ensures fresh(result) && fresh(result.Database)
    ensures result.Valid()
    ensures result.Value() == MergeSpec(input1, input2)
  {
    result := new Config();
    ApplyInputs(result, input1, input2);
  }

  /** MergeManualWithDefaults: input1 then input2 applied to a shallow copy
      of the defaults (to Config{} when there are none). The copy shares the
      defaults' maps and DatabasePtr, so the merge writes through to them. */
  method MergeManualWithDefaults(defaults: Config?, input1: Option<InputConfig>, input2: Option<InputConfig>)
    returns (result: Config)
    requires defaults != null ==> defaults.Valid()
    modifies if defaults != null then {defaults.Labels as object?, defaults.Metadata, defaults.DatabasePtr} else {}
    ensures fresh(result) && fresh(result.Database)
    ensures result.Valid()
    ensures defaults == null ==> result.Value() == MergeSpec(input1, input2)
    ensures defaults != null ==> result.Value() == ApplyAll(old(defaults.Value()), [input1, input2])
    ensures defaults != null ==> defaults.Value() == WrittenThrough(old(defaults.Value()), result.Value())
    ensures defaults != null && old(defaults.Labels) != null ==> result.Labels == defaults.Labels
    ensures defaults != null && old(defaults.Metadata) != null ==> result.Metadata == defaults.Metadata
    ensures defaults != null && old(defaults.DatabasePtr) != null ==> result.DatabasePtr == defaults.DatabasePtr
  {
    if defaults != null {
      result := new Config.ShallowCopy(defaults);
    } else {
      result := new Config();
    }
    ApplyInputs(result, input1, input2);
  }
}
