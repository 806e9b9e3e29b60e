/** The record shapes of the merge and copy playgrounds: the concrete
    `Config` that merges produce and copies duplicate, and the overlay
    `InputConfig` whose pointer fields distinguish "not set" from a zero value.

    `Config` is a class: Go code updates it in place through `*Config`.
    The fields that the merges and copies update IN PLACE are references
    here too, so that sharing through them is visible: the two maps are
    `GoMap` objects and DatabasePtr is a `DatabaseConfig` object (null is
    nil). The embedded `Database` struct is an object that each `Config`
    owns alone. Slices and pointers to plain values are only ever replaced
    as a whole, never written through, so they are `Option` values (None is
    nil). The overlays are only read, so they are values with `Option`
    fields. int32 and int64 fields are only assigned, never computed on, so
    they are `int`. */
module PlaygroundConfig {
  import opened GoValues

  datatype Tag = Tag(Key: string, Value: string)

  datatype InputTag = InputTag(Key: Option<string>, Value: Option<string>)

  datatype DatabaseValue = DatabaseValue(
    Host: string, Port: int, Username: string, Password: string, SSLMode: string)

  const ZeroDatabase: DatabaseValue := DatabaseValue("", 0, "", "", "")

  datatype InputDatabaseConfig = InputDatabaseConfig(
    Host: Option<string>, Port: Option<int>, Username: Option<string>,
    Password: Option<string>, SSLMode: Option<string>)

  /** The overlay: every field is optional (a nil pointer, slice or map is None). */
  datatype InputConfig = InputConfig(
    Name: Option<string>,
    Port: Option<int>,
    MaxRetries: Option<int>,
    Timeout: Option<int>,
    Rate: Option<Float64>,
    Enabled: Option<bool>,
    EnabledPtr: Option<bool>,
    Description: Option<string>,
    Hosts: Option<seq<string>>,
    Ports: Option<seq<int>>,
    Tags: Option<seq<InputTag>>,
    Labels: Option<map<string, string>>,
    Metadata: Option<map<string, Any>>,
    Database: Option<InputDatabaseConfig>,
    DatabasePtr: Option<InputDatabaseConfig>,
    CreatedAt: Option<Time>,
    UpdatedAt: Option<Time>)

  /** The overlay that sets nothing. */
  const EmptyInput: InputConfig := InputConfig(
    None, None, None, None, None, None, None, None, None, None, None,
    None, None, None, None, None, None)

  /** The value held by a `Config` object and everything it points to;
      None stands for a nil pointer, slice or map. */
  datatype ConfigValue = ConfigValue(
    Name: string,
    Port: int,
    MaxRetries: int,
    Timeout: int,
    Rate: Float64,
    Enabled: bool,
    EnabledPtr: Option<bool>,
    Description: Option<string>,
    Hosts: Option<seq<string>>,
    Ports: Option<seq<int>>,
    Tags: Option<seq<Tag>>,
    Labels: Option<map<string, string>>,
    Metadata: Option<map<string, Any>>,
    Database: DatabaseValue,
    DatabasePtr: Option<DatabaseValue>,
    CreatedAt: Time,
    UpdatedAt: Option<Time>)

  /** The value of `Config{}`. */
  const ZeroConfig: ConfigValue := ConfigValue(
    "", 0, 0, 0, ZeroFloat, false, None, None, None, None, None, None, None,
    ZeroDatabase, None, ZeroTime, None)

  /** A Go map with string keys (map[string]string, map[string]any). */
  class GoMap<V> {
    var entries: map<string, V>

    constructor (m: map<string, V>)
      ensures entries == m
    {
      entries := m;
    }
  }

  /** The entries of a Go map, None for the nil map. */
  function Entries<V>(m: GoMap?<V>): Option<map<string, V>>
    reads m
  {
    if m == null then None else Some(m.entries)
  }

  /** The value behind a *DatabaseConfig, None for nil. */
  function PtrValue(p: DatabaseConfig?): Option<DatabaseValue>
    reads p
  {
    if p == null then None else Some(p.Value())
  }

  /** The value behind DatabasePtr, or the DatabaseConfig{} a merge allocates. */
  function PtrOrZero(p: Option<DatabaseValue>): DatabaseValue
  {
    if p.Some? then p.value else ZeroDatabase
  }

  class DatabaseConfig {
    var Host: string
    var Port: int
    var Username: string
    var Password: string
    var SSLMode: string

    function Value(): DatabaseValue
      reads this
    {
      DatabaseValue(Host, Port, Username, Password, SSLMode)
    }

    /** `DatabaseConfig{}` when v is ZeroDatabase, and a by-value copy of v otherwise. */
    constructor (v: DatabaseValue)
      ensures Value() == v
    {
      Host, Port, Username, Password, SSLMode := v.Host, v.Port, v.Username, v.Password, v.SSLMode;
    }
  }

  class Config {
    var Name: string
    var Port: int
    var MaxRetries: int
    var Timeout: int
    var Rate: Float64
    var Enabled: bool
    var EnabledPtr: Option<bool>
    var Description: Option<string>
    var Hosts: Option<seq<string>>
    var Ports: Option<seq<int>>
    var Tags: Option<seq<Tag>>
    var Labels: GoMap?<string>
    var Metadata: GoMap?<Any>
    var Database: DatabaseConfig
    var DatabasePtr: DatabaseConfig?
    var CreatedAt: Time
    var UpdatedAt: Option<Time>

    /** The embedded Database is this Config's own storage, so no pointer
        field designates it. */
    ghost predicate Valid()
      reads this
    {
      Database != DatabasePtr
    }

    function Value(): ConfigValue
      reads this, Labels, Metadata, Database, DatabasePtr
    {
      ConfigValue(
        Name, Port, MaxRetries, Timeout, Rate, Enabled,
        EnabledPtr, Description, Hosts, Ports, Tags,
        Entries(Labels), Entries(Metadata),
        Database.Value(), PtrValue(DatabasePtr),
        CreatedAt,
        UpdatedAt)
    }

    /** `Config{}`: zero scalars, nil pointers, slices and maps. */
    constructor ()
      ensures Valid() && fresh(Database)
      ensures Value() == ZeroConfig
    {
      Name, Port, MaxRetries, Timeout, Rate, Enabled := "", 0, 0, 0, ZeroFloat, false;
      EnabledPtr, Description := None, None;
      Hosts, Ports, Tags := None, None, None;
      Labels, Metadata := null, null;
      Database := new DatabaseConfig(ZeroDatabase);
      DatabasePtr := null;
      CreatedAt, UpdatedAt := ZeroTime, None;
    }

    /** `*d`: a shallow copy. Every value field and the embedded Database
        are copied; the maps and DatabasePtr are shared with d. */
    constructor ShallowCopy(d: Config)
      ensures Valid() && fresh(Database)
      ensures Value() == d.Value()
      ensures Labels == d.Labels && Metadata == d.Metadata && DatabasePtr == d.DatabasePtr
    {
      Name, Port, MaxRetries, Timeout, Rate, Enabled := d.Name, d.Port, d.MaxRetries, d.Timeout, d.Rate, d.Enabled;
      EnabledPtr, Description := d.EnabledPtr, d.Description;
      Hosts, Ports, Tags := d.Hosts, d.Ports, d.Tags;
      Labels, Metadata := d.Labels, d.Metadata;
      Database := new DatabaseConfig(d.Database.Value());
      DatabasePtr := d.DatabasePtr;
      CreatedAt, UpdatedAt := d.CreatedAt, d.UpdatedAt;
    }
  }
}
