/** The merge scenarios of playgrounds/merge-objects/merge_test.go, stated
    about the specification of MergeManual. */
module ManualMergeExamples {
  import opened GoValues
  import opened PlaygroundConfig
  import opened ManualMerge

  /** 1.5 as a float64 bit pattern. */
  const OnePointFive: Float64 := Float64(0x3FF8_0000_0000_0000)

  /** time.Date(2024, 1, 1, 0, 0, 0, 0, time.UTC), opaque. */
  const NewYear2024: Time := Time(0, 63839664000, 0)

  const Input1: InputConfig := EmptyInput.(
    Name := Some("service-a"),
    Port := Some(8080),
    MaxRetries := Some(3),
    Enabled := Some(true),
    Hosts := Some(["host1.example.com", "host2.example.com"]),
    Labels := Some(map["env" := "production", "version" := "1.0"]),
    Database := Some(InputDatabaseConfig(Some("db1.example.com"), Some(5432), Some("admin"), None, None)),
    CreatedAt := Some(NewYear2024))

  const Input2: InputConfig := EmptyInput.(
    Port := Some(9090),
    Rate := Some(OnePointFive),
    Description := Some("Updated service description"),
    Labels := Some(map["version" := "2.0", "team" := "platform"]),
    Database := Some(InputDatabaseConfig(None, None, None, Some("secret123"), Some("require"))),
    Tags := Some([InputTag(Some("priority"), Some("high"))]))

  /** TestMergeImplementations, plain fields: input1's values survive where
      input2 is silent, and input2's win where both set one. */
  lemma MergeScenarioFields()
    ensures MergeSpec(Some(Input1), Some(Input2)).Name == "service-a"
    ensures MergeSpec(Some(Input1), Some(Input2)).MaxRetries == 3
    ensures MergeSpec(Some(Input1), Some(Input2)).Enabled
    ensures MergeSpec(Some(Input1), Some(Input2)).Port == 9090
    ensures MergeSpec(Some(Input1), Some(Input2)).Rate == OnePointFive
    ensures MergeSpec(Some(Input1), Some(Input2)).Description == Some("Updated service description")
  {
    ApplyAllTwo(ZeroConfig, Some(Input1), Some(Input2));
  }

  /** TestMergeImplementations, Labels: the two maps merge key by key and
      input2's "version" wins. */
  lemma MergeScenarioLabels()
    ensures MergeSpec(Some(Input1), Some(Input2)).Labels
         == Some(map["env" := "production", "version" := "2.0", "team" := "platform"])
  {
    ApplyAllTwo(ZeroConfig, Some(Input1), Some(Input2));
    LabelsOfScenario();
    assert Apply(ZeroConfig, Input1).Labels == Some(Input1.Labels.value);
  }

  lemma LabelsOfScenario()
    ensures MergeEntries(None, Input1.Labels.value) == Input1.Labels.value
    ensures MergeEntries(Some(Input1.Labels.value), Input2.Labels.value)
         == map["env" := "production", "version" := "2.0", "team" := "platform"]
  {
    var merged := MergeEntries(Some(Input1.Labels.value), Input2.Labels.value);
    assert merged.Keys == {"env", "version", "team"};
  }

  /** TestMergeImplementations, nested values: the embedded Database merges
      field by field and input2's Tags replace the (absent) earlier ones. */
  lemma MergeScenarioNested()
    ensures MergeSpec(Some(Input1), Some(Input2)).Database
         == DatabaseValue("db1.example.com", 5432, "admin", "secret123", "require")
    ensures MergeSpec(Some(Input1), Some(Input2)).Tags == Some([Tag("priority", "high")])
  {
    ApplyAllTwo(ZeroConfig, Some(Input1), Some(Input2));
    assert ConvertTags([InputTag(Some("priority"), Some("high"))]) == [Tag("priority", "high")];
  }

  const NameOnly: InputConfig := EmptyInput.(Name := Some("test-service"), Port := Some(8080))

  /** TestMergeWithNilInputs: a nil input on either side is skipped, and
      two nil inputs give Config{}. */
  lemma MergeNilInputs()
    ensures MergeSpec(None, Some(NameOnly)).Name == "test-service"
    ensures MergeSpec(Some(NameOnly), None).Name == "test-service"
    ensures MergeSpec(None, None) == ZeroConfig
  {
    ApplyAllTwo(ZeroConfig, None, Some(NameOnly));
    ApplyAllTwo(ZeroConfig, Some(NameOnly), None);
    ApplyAllTwo(ZeroConfig, None, None);
  }
}
