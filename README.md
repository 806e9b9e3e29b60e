# sudo-gen core, modelled in Dafny

This project models the sequential core of sudo-gen, a Go code generator for
layered configuration. Its subtools write partial types, overlay merges,
deep copies and a layer broker for a configuration struct. The model covers
four groups.

1. **Overlay merge.**
   - The hand-written merge of the playground `Config`: `applyInputManual`,
     `MergeManual` and `MergeManualWithDefaults`.
   - The non-reflective part of the reflection playground:
     `mergeInputToConfig`, `MergeReflection`, `findCommaIndex`, tag
     normalisation and `findFieldByJSONTag`.
   - `deepMergeMap`, the merge of JSON-like trees.

   One overlay application is a function `Apply` on the value of a `Config`.
   `ApplyAll` folds a sequence of overlays. The Go functions are methods that
   work in place on `Config` objects and are proved against these functions.
   Maps and `DatabasePtr` are heap objects, so a shallow copy shares them
   with the defaults.

2. **Deep copy.** `CopyManual` and `deepCopyAny` of the copy playground.
   Each returns an equal value whose maps and nested struct pointer are fresh.

3. **The generator's static analysis.** It runs over an abstract type
   expression (`Ident | Star | Array | Map | Selector | Interface | Other`)
   and abstract declaration lists.
   - The parser: `parseFieldType`, `exprToString`, `parseStructFields`,
     `collectImports`, `FindNestedStructs` and `CollectRequiredImports`.
   - The copy generator: its `generator` object, with the `imports`,
     `processed` and `built` state; `analyzeType`, `analyzeFields`,
     `collectNestedTypes`, `buildTemplateData` and `collectRequiredImports`.
   - The layer-broker and merge naming helpers.
   - The layer broker's import and test-field selection.
   - The dotted subscription paths of the manager (`BuildPaths`,
     `buildPathsRecursive`).

4. **Unit conversion.** `Timestamp.ToDuration`, with Go's int64 wrap-around
   written out.

Go's `nil` is `None` (or `null` for heap objects). A value held in an `any` is never a typed nil here; see ObjectCopy.DeepCopyAny under "## Left out". Strings are `seq<char>`
holding ASCII. Map iteration order is left open: a loop over a map picks its
next key with `:|`.

## Model

| member | source | states |
|---|---|---|
| ManualMerge.MergeEntries | playgrounds/merge-objects/merge_manual.go:68-83 | The merged keys are the old keys plus the input's keys. Input values win. Old keys the input lacks keep their values. A nil map counts as empty. |
| ManualMerge.Apply | playgrounds/merge-objects/merge_manual.go:22-104 | applyInputManual on values, field by field: set scalars, pointers and slices replace, maps merge key by key, Database and DatabasePtr merge field by field. The Precedence and Step lemmas state its laws. |
| ManualMerge.ApplyAll | playgrounds/merge-objects/merge_manual.go:6-20 | The fold of applyInputManual over the overlays in order, skipping nil ones. ApplyAllTwo and FoldOverride are about it. |
| ManualMerge.ConvertInputTag | playgrounds/merge-objects/merge_manual.go:124-133 | An unset Key or Value becomes "". A set one is copied. |
| ManualMerge.ConvertTags | playgrounds/merge-objects/merge_manual.go:60-65 | The new Tags slice has the input's length, and each element is the converted input tag. |
| ManualMerge.ApplyAllTwo | playgrounds/merge-objects/merge_manual.go:6-20 | Folding two overlays means applying input1, then input2. |
| ManualMerge.ApplyEmptyIsIdentity | playgrounds/merge-objects/merge_manual.go:22-104 | An overlay with every field nil leaves the Config unchanged. |
| ManualMerge.ApplyIdempotent | playgrounds/merge-objects/merge_manual.go:22-104 | Applying the same overlay twice equals applying it once. |
| ManualMerge.LastSet | playgrounds/merge-objects/merge_manual.go:14-17 | Picks the value of the last overlay that sets a field. When it returns nothing, no overlay sets the field. |
| ManualMerge.FoldOverride | playgrounds/merge-objects/merge_manual.go:6-20 | A field that one application overrides exactly when the overlay sets it ends the fold holding the last set value, or the base value. |
| ManualMerge.PrecedenceScalars | playgrounds/merge-objects/merge_manual.go:24-41 | Name, Port, MaxRetries, Timeout, Rate, Enabled and CreatedAt hold the last overlay's value that sets them, or the base value. |
| ManualMerge.PrecedencePointers | playgrounds/merge-objects/merge_manual.go:42-49 | EnabledPtr, Description and UpdatedAt take the last set overlay's value, or keep the base value. |
| ManualMerge.PrecedenceSlices | playgrounds/merge-objects/merge_manual.go:52-65 | Hosts, Ports and Tags are replaced wholesale by the last overlay that sets them. Tags are converted element by element. |
| ManualMerge.LabelStep | playgrounds/merge-objects/merge_manual.go:68-75 | One application leaves at each key the overlay's value when its Labels has the key, and the old value otherwise. |
| ManualMerge.MetadataStep | playgrounds/merge-objects/merge_manual.go:76-83 | One application does the same for Metadata. |
| ManualMerge.PrecedenceLabels | playgrounds/merge-objects/merge_manual.go:68-75 | After a fold, Labels exists once the base or any overlay had it. Each key holds the last overlay's value for it, or the base value. |
| ManualMerge.PrecedenceMetadata | playgrounds/merge-objects/merge_manual.go:76-83 | Metadata follows the same key-by-key law. |
| ManualMerge.DatabaseStep | playgrounds/merge-objects/merge_manual.go:86-88 | One application merges the embedded Database field by field. |
| ManualMerge.PrecedenceDatabase | playgrounds/merge-objects/merge_manual.go:106-122 | Each Database field holds the last overlay's value that sets it. |
| ManualMerge.PtrDatabaseStep | playgrounds/merge-objects/merge_manual.go:89-94 | One application merges into DatabasePtr. A missing one starts as DatabaseConfig{}. |
| ManualMerge.PrecedenceDatabasePtr | playgrounds/merge-objects/merge_manual.go:89-94 | DatabasePtr exists once the base or an overlay set it. Each of its fields holds the last set value, or the zero value. |
| ManualMerge.PutAll | playgrounds/merge-objects/merge_manual.go:72-74 | The range loop leaves the map as old entries overridden by src. |
| ManualMerge.CopySlice | playgrounds/merge-objects/merge_manual.go:52-59 | make plus copy gives a slice equal to the source. |
| ManualMerge.ConvertTagSlice | playgrounds/merge-objects/merge_manual.go:60-65 | The indexed fill gives the element-wise conversion. |
| ManualMerge.MergeMap | playgrounds/merge-objects/merge_manual.go:68-83 | A nil map is created when the overlay sets one. The entries become the merge. An existing map object is kept. |
| ManualMerge.ApplyInputDatabaseManual | playgrounds/merge-objects/merge_manual.go:106-122 | Each set field overwrites dst's. Nothing else changes. |
| ManualMerge.MergeDatabasePtrManual | playgrounds/merge-objects/merge_manual.go:89-94 | A nil DatabasePtr is allocated zeroed, then merged. An existing one is merged in place. |
| ManualMerge.ApplyScalars | playgrounds/merge-objects/merge_manual.go:24-41 | Each scalar field is overridden when set and kept when nil. |
| ManualMerge.ReplaceFields | playgrounds/merge-objects/merge_manual.go:42-65 | The pointer and slice fields are replaced when set. |
| ManualMerge.ApplyOwnFields | playgrounds/merge-objects/merge_manual.go:24-65 | The fields stored in dst itself take the value Apply prescribes. |
| ManualMerge.MergeMaps | playgrounds/merge-objects/merge_manual.go:68-83 | Both maps merge key by key in place. |
| ManualMerge.MergeDatabases | playgrounds/merge-objects/merge_manual.go:86-94 | Database and DatabasePtr merge in place. |
| ManualMerge.ApplyShared | playgrounds/merge-objects/merge_manual.go:68-94 | The maps and nested structs merge in place, and existing objects are kept. |
| ManualMerge.ApplyInputManual | playgrounds/merge-objects/merge_manual.go:22-104 | dst's new value is Apply(old value, src). Existing maps and DatabasePtr objects are written through, not replaced. |
| ManualMerge.ApplyInputs | playgrounds/merge-objects/merge_manual.go:144-150 | Non-nil inputs are applied in order, and nil inputs are skipped. |
| ManualMerge.MergeManual | playgrounds/merge-objects/merge_manual.go:6-20 | The result is a fresh Config whose value is input1 then input2 folded from Config{}. |
| ManualMerge.MergeManualWithDefaults | playgrounds/merge-objects/merge_manual.go:136-153 | With nil defaults this equals MergeManual. Otherwise the inputs fold onto the defaults' value. The defaults' maps and DatabasePtr now hold the result's. |
| ManualMergeExamples.MergeScenarioFields | playgrounds/merge-objects/merge_test.go:62-81 | The test's scalars: input1's fields survive where input2 is nil, and input2 wins where both are set. |
| ManualMergeExamples.MergeScenarioLabels | playgrounds/merge-objects/merge_test.go:84-92 | The test's Labels merge to env=production, version=2.0 and team=platform. |
| ManualMergeExamples.LabelsOfScenario | playgrounds/merge-objects/merge_manual.go:68-75 | The two merge steps on the test's Labels. |
| ManualMergeExamples.MergeScenarioNested | playgrounds/merge-objects/merge_test.go:95-104 | The test's Database host and password, and its single Tag "priority". |
| ManualMergeExamples.MergeNilInputs | playgrounds/merge-objects/merge_test.go:113-135 | A nil input on either side is skipped, and two nil inputs give Config{}. |
| ReflectionMerge.MergeInputDatabaseToDatabase | playgrounds/merge-objects/merge_reflection.go:116-132 | Each set field overwrites dst's. |
| ReflectionMerge.MergeNested | playgrounds/merge-objects/merge_reflection.go:96-105 | Database merges in place. DatabasePtr is allocated zeroed when nil and then merged. |
| ReflectionMerge.MergeMapsAndNested | playgrounds/merge-objects/merge_reflection.go:78-105 | The maps merge key by key and the nested structs field by field, in place. |
| ReflectionMerge.MergeInputToConfig | playgrounds/merge-objects/merge_reflection.go:24-114 | A nil src changes nothing. Otherwise dst takes the same value as under applyInputManual. |
| ReflectionMerge.MergeReflection | playgrounds/merge-objects/merge_reflection.go:10-22 | The result equals MergeManual's for the same inputs. |
| ReflectionMerge.CommaIndex | playgrounds/merge-objects/merge_reflection.go:202-209 | Returns -1 exactly when s has no ','. Otherwise s[r] is ',' and no ',' comes before it. |
| ReflectionMerge.FindCommaIndex | playgrounds/merge-objects/merge_reflection.go:202-209 | The early-return loop returns CommaIndex(s). |
| ReflectionMerge.NormalizeTag | playgrounds/merge-objects/merge_reflection.go:158-165 | The json tag, or the field name when the tag is empty, cut before its first ','. The result has no ','. |
| ReflectionMerge.NormalizeFieldTag | playgrounds/merge-objects/merge_reflection.go:214-221 | The inline computation equals NormalizeTag. |
| ReflectionMerge.FindFieldByJSONTag | playgrounds/merge-objects/merge_reflection.go:211-227 | Returns the index of the first field whose normalised tag matches, or None exactly when no field matches. |
| JsonMerge.DeepMerge | playgrounds/merge-objects/merge_json.go:72-93 | The result's keys are dst's plus src's. Keys only in dst are untouched. A non-map src value replaces dst's. |
| JsonMerge.NestedMapsMerge | playgrounds/merge-objects/merge_json.go:74-81 | When both values are maps they merge recursively, so inner keys src lacks survive. |
| JsonMerge.NewMapEqualsSource | playgrounds/merge-objects/merge_json.go:82-87 | When dst lacks the key or holds a non-map there, dst[key] becomes a map equal to src's. |
| JsonMerge.MergeIntoEmpty | playgrounds/merge-objects/merge_json.go:84-86 | Merging into an empty map rebuilds src exactly. |
| JsonMerge.MergeSelf | playgrounds/merge-objects/merge_json.go:72-93 | Merging a tree into itself changes nothing. |
| JsonMerge.MergeTwice | playgrounds/merge-objects/merge_json.go:72-93 | Merging the same src twice equals merging it once. |
| JsonMerge.MergeStep | playgrounds/merge-objects/merge_json.go:73-91 | Handling one more key of src extends the merge of the keys handled so far. |
| JsonMerge.DeepMergeMap | playgrounds/merge-objects/merge_json.go:72-93 | The map object's entries become DeepMerge(old entries, src). |
| ObjectCopy.DeepCopyAny | playgrounds/copy-objects/copy.go:81-111 | The copy is structurally equal to its input. The nil interface stays nil, maps and []any are rebuilt element by element, and []string and []int are copied. |
| ObjectCopy.CopyMetadata | playgrounds/copy-objects/copy.go:70-75 | A fresh map holding src's keys, each with the deep copy of its value. |
| ObjectCopy.CopyStorage | playgrounds/copy-objects/copy.go:42-75 | Each non-nil map and DatabasePtr gets a fresh object with equal contents. Nil stays nil. |
| ObjectCopy.CopyManual | playgrounds/copy-objects/copy.go:14-78 | Nil gives nil. Otherwise the result is a fresh Config of equal value, and its maps and DatabasePtr are fresh. |
| PlaygroundConfig.Config.constructor | playgrounds/copy-objects/types.go:8-38 | Config{} has zero scalars and nil pointers, slices and maps. |
| PlaygroundConfig.DatabaseConfig.constructor | playgrounds/copy-objects/types.go:40-47 | A DatabaseConfig holds exactly the given five field values. |
| PlaygroundConfig.Config.ShallowCopy | playgrounds/merge-objects/merge_manual.go:141 | `*defaults` has an equal value and shares the maps and DatabasePtr. |
| CodegenTypes.TrimTrailingSlashes | internal/codegen/layerbroker/layerbroker.go:86 | A prefix of s without a trailing '/'. Only slashes were removed. |
| CodegenTypes.AfterLastSlash | internal/codegen/layerbroker/layerbroker.go:86 | The suffix of s after its last '/', with no '/' in it. |
| CodegenTypes.PathBaseSpec | internal/codegen/layerbroker/layerbroker.go:86 | filepath.Base is never "". It is ".", "/" or one element without '/'. A slash-free path is its own base, also with a trailing slash. |
| Parser.ParseFieldType | internal/codegen/parser.go:92-153 | IsPointer holds exactly for a pointer. A slice is spelled "[]"+SliceType and a map "map[K]V". NeedsDeep implies a pointer, slice or map. For an identifier, IsStruct is !isBasicType. |
| Parser.IsBasicType | internal/codegen/parser.go:155-166 | isBasicType: membership in the predeclared names listed there, "error" included. |
| Parser.ExprToString | internal/codegen/parser.go:168-188 | exprToString, case by case: `*`, `[]`, `map[K]V` and `pkg.Name` spelt out, a method-less interface as "any", anything else by its own text. QualifiedNameIsPrinted and CollectionTypeNameIsPrinted tie it to the classification. |
| Parser.ParseStar | internal/codegen/parser.go:107-110 | A pointer keeps the inner classification. NeedsDeep is the inner IsStruct, IsSlice or IsMap. |
| Parser.ParseArray | internal/codegen/parser.go:111-127 | A slice needs a deep copy exactly for a local non-basic element or a pointer to a struct. |
| Parser.ParseMap | internal/codegen/parser.go:128-148 | A map needs a deep copy exactly when its value is any or interface{}, or a local non-basic type. |
| Parser.QualifiedNameIsPrinted | internal/codegen/parser.go:95-106 | For a named type, the package-qualified type name is exprToString's output. |
| Parser.CollectionTypeNameIsPrinted | internal/codegen/parser.go:111-142 | A slice or map of named types has TypeName equal to exprToString's output. |
| Parser.SlicePointerDropped | internal/codegen/parser.go:111-127 | For `[]*T`, SliceType is "T" without the '*'. Only SliceElemIsPtr records the pointer. |
| Parser.MapPointerValueDropped | internal/codegen/parser.go:128-148 | For `map[K]*T`, the value is spelled "T" and no flag records the pointer. |
| Parser.NameEntries | internal/codegen/parser.go:75-87 | Each entry is for an exported name of the declaration and is built from it. |
| Parser.ParsedFields | internal/codegen/parser.go:69-90 | Every entry has an exported name. |
| Parser.ParsedFieldsAppend | internal/codegen/parser.go:71 | Declaration order is kept: the fields of a+b are a's, then b's. |
| Parser.NameEntriesComplete | internal/codegen/parser.go:75-87 | Every exported name gets its entry. |
| Parser.ParsedFieldsExactly | internal/codegen/parser.go:69-90 | The entries are exactly those for the exported names of non-embedded declarations. |
| Parser.AppendNameEntries | internal/codegen/parser.go:75-87 | The inner loop appends NameEntries. |
| Parser.ParseStructFields | internal/codegen/parser.go:69-90 | The loop returns ParsedFields(decls). |
| Parser.TrimLeftQuotesSpec | internal/codegen/parser.go:38 | Only a leading run of quotes is removed. The rest is kept and does not start with a quote. |
| Parser.TrimRightQuotesSpec | internal/codegen/parser.go:38 | Only a trailing run of quotes is removed. The rest is kept and does not end with a quote. |
| Parser.TrimQuotesSpec | internal/codegen/parser.go:38 | strings.Trim(s, `"`) is the middle slice of s between two runs of quotes, and has no quote at either end. |
| Parser.TrimQuotedPath | internal/codegen/parser.go:38 | A quoted path literal is unquoted back to its path. |
| Parser.ImportsOfLines | internal/codegen/parser.go:35-46 | One ImportInfo per import line, in order, with the unquoted path and the alias or "". |
| Parser.CollectImports | internal/codegen/parser.go:35-46 | The loop returns ImportsOf(specs). |
| Parser.ImportSpecInfo | internal/codegen/parser.go:38-43 | The loop body builds ImportOf(spec). |
| Parser.AddUnseenLoop | internal/codegen/parser.go:267-272 | The inner loop adds each unseen result once, marking it seen. |
| Parser.FindNestedStructs | internal/codegen/parser.go:250-276 | The loop returns the as-written search, when that search returns. |
| Parser.NestedFuel | internal/codegen/parser.go:250-276 | The search as written, with a budget of nested calls. Each call starts with `seen` holding only its own name. NestedFuelFound and MutualReferenceNeverReturns are about it. |
| Parser.AddUnseenFound | internal/codegen/parser.go:267-272 | The inner loop keeps the search invariant: entries are distinct, from the lookup, seen, and not the root. |
| Parser.NestedFuelFound | internal/codegen/parser.go:250-276 | When the search returns, its structs have distinct names, come from the lookup and exclude the root. |
| Parser.NestedFieldsFuelFound | internal/codegen/parser.go:254-274 | The field loop keeps the search invariant. |
| Parser.PeerFieldType | internal/codegen/parser.go:95-110 | A field of type *A or *B names that local struct. |
| Parser.PeerFieldFollowed | internal/codegen/parser.go:256-259 | Such a field is followed while its type is unseen. |
| Parser.MutualReferenceNeverReturns | internal/codegen/parser.go:250-276 | With A{Peer *B} and B{Peer *A}, the search as written never returns. |
| Parser.SharedNested | internal/codegen/parser.go:254-274 | The corrected search only grows `seen`. |
| Parser.FindNestedStructsShared | internal/codegen/parser.go:250-276 | The corrected search, one `seen` set shared by every call. FindNestedStructsSharedFound and MutualReferenceShared are about it. |
| Parser.SharedNestedFound | internal/codegen/parser.go:254-274 | The corrected search keeps the invariant. |
| Parser.FindNestedStructsSharedFound | internal/codegen/parser.go:250-276 | The corrected search always returns distinct structs from the lookup, never the root. |
| Parser.MutualReferenceShared | internal/codegen/parser.go:250-276 | The corrected search on A returns [B]. |
| Parser.ImportMapOf | internal/codegen/parser.go:322-325 | The keys are the file's import paths. |
| Parser.ImportMapLastWins | internal/codegen/parser.go:323-325 | Each path maps to the alias of its last import. |
| Parser.BuildImportMap | internal/codegen/parser.go:322-325 | The loop builds ImportMapOf. |
| Parser.ProvidesGrows | internal/codegen/parser.go:336-361 | An import that provides a package stays provided as `needed` grows. |
| Parser.CollectImportsFromExpr | internal/codegen/parser.go:336-361 | Only file imports are added, with their aliases. Each added import is named by a selector of the type. Every selector package the file provides becomes provided. |
| Parser.ImportList | internal/codegen/parser.go:329-333 | The list holds each path of the map once, with its alias. |
| Parser.CollectFieldImports | internal/codegen/parser.go:326-328 | The same facts over all fields' types. |
| Parser.CollectRequiredImports | internal/codegen/parser.go:320-334 | Each import is a file import with its alias, named by a field's type, once per path. Every package the fields name that the file provides is listed. |
| CopyGen.BasicTypesDiffer | internal/codegen/copy/copy.go:354-365 | copy's isBasicType is the parser's without "error". |
| CopyGen.IsBasicCopy | internal/codegen/copy/copy.go:354-365 | copy's isBasicType: the predeclared names listed there. BasicTypesDiffer relates it to the parser's list. |
| CopyGen.NeedsDeepCopy | internal/codegen/copy/copy.go:367-373 | needsDeepCopy: inline struct, array, map or pointer. NeedsDeepCopyComposite characterises it. |
| CopyGen.CopyExprToString | internal/codegen/copy/copy.go:375-395 | copy's exprToString: an inline struct or an unknown expression prints as "". PrintersAgree relates it to the parser's. |
| CopyGen.NeedsDeepCopyComposite | internal/codegen/copy/copy.go:367-373 | needsDeepCopy holds exactly for struct, array, map and pointer expressions. |
| CopyGen.PrintersAgree | internal/codegen/copy/copy.go:375-395 | copy's exprToString equals the parser's wherever both define it. |
| CopyGen.AnalyzeType | internal/codegen/copy/copy.go:165-234 | Name, Type and TypeExpr are untouched. IsPointer, IsSlice and IsMap are set exactly for a pointer, array or map. |
| CopyGen.AnalyzeTypeDeep | internal/codegen/copy/copy.go:165-234 | A deep copy is only requested for composite types. |
| CopyGen.AnalyzeTypeStruct | internal/codegen/copy/copy.go:165-234 | A struct is only recorded for named types and inline structs. |
| CopyGen.AnalyzeTypeSliceOfPointers | internal/codegen/copy/copy.go:185-191 | SliceElemIsPtr is only set for a slice of pointers. |
| CopyGen.StructTypeNameIsPrinted | internal/codegen/copy/copy.go:165-234 | A recorded StructTypeName is not basic and ends the printed type. |
| CopyGen.StarNamePrinted | internal/codegen/copy/copy.go:167-175 | The same, for a pointer. |
| CopyGen.ArrayNamePrinted | internal/codegen/copy/copy.go:176-193 | The same, for a slice. |
| CopyGen.MapNamePrinted | internal/codegen/copy/copy.go:194-215 | The same, for a map. |
| CopyGen.AnalyzePointerToNamed | internal/codegen/copy/copy.go:167-172 | A pointer to a non-basic identifier sets StructTypeName and NeedsDeep. |
| CopyGen.AnalyzeMapOfAny | internal/codegen/copy/copy.go:198-201 | A map with an any value is NeedsDeep, and its value is not analysed further. |
| CopyGen.AnalyzeSelector | internal/codegen/copy/copy.go:223-232 | time.Time alone among selectors is not a struct. |
| CopyGen.SelectorsClassified | internal/codegen/copy/copy.go:223-232 | time.Time is not a struct to copy but is one to the parser. Any other package's type is a struct. |
| CopyGen.ErrorFieldDiffers | internal/codegen/copy/copy.go:218-222 | A field of type error is a struct to the copy generator but basic to the parser. |
| CopyGen.SameFieldsAppend | internal/codegen/copy/copy.go:143-163 | Field-list agreement composes over concatenation. |
| CopyGen.NameEntriesAgree | internal/codegen/copy/copy.go:149-160 | For one declaration, analyzeFields and parseStructFields give the same names and types. |
| CopyGen.AnalyzedFieldsAgree | internal/codegen/copy/copy.go:143-163 | analyzeFields and parseStructFields see the same fields, in the same order. |
| CopyGen.AnalyzeFields | internal/codegen/copy/copy.go:143-163 | The loop returns AnalyzedFields(decls). |
| CopyGen.MethodNameOrDefault | internal/codegen/copy/copy.go:31-34 | An empty method name becomes "Copy". A given name is kept. |
| CopyGen.TypeNamesAppend | internal/codegen/copy/copy.go:253-255 | Type names distribute over concatenation. |
| CopyGen.FlattenedAppend | internal/codegen/copy/copy.go:252-256 | Appending data and then its nested types keeps the list flattened. Each entry's own NestedTypes, which the clear at 256 does not remove, sit right after it. |
| CopyGen.NestedAppend | internal/codegen/copy/copy.go:252-256 | The appended list stays flattened, nested-only and drawn from the package. |
| CopyGen.NestedCollected | internal/codegen/copy/copy.go:247-255 | Recording a nested type's file, building it and appending it with its own nested types keeps the list in step with built, processed and imports. |
| CopyGen.ImportsAfter | internal/codegen/copy/copy.go:114-123 | The recorded imports after findStruct has visited the files of the given types in order. A later file's import of a path replaces an earlier one. |
| CopyGen.RequiredImportsSound | internal/codegen/copy/copy.go:261-279 | Every listed import is "maps", listed only when some map field is copied with maps.Clone, or a recorded import with its alias that a slice or map field names. |
| CopyGen.MapsImportListed | internal/codegen/copy/copy.go:268-273 | "maps" is listed when some map field is not NeedsDeep. |
| CopyGen.RequiredImportsComplete | internal/codegen/copy/copy.go:261-306 | Every provided package a slice or map field names is listed. |
| CopyGen.Generator.constructor | internal/codegen/copy/copy.go:35-41 | A new generator has no imports and nothing processed. |
| CopyGen.Generator.CollectFileImports | internal/codegen/copy/copy.go:114-123 | The file's imports are added, and a later import of a path wins. |
| CopyGen.Generator.FindStruct | internal/codegen/copy/copy.go:90-112 | Finds the package's struct and records its file's imports. A missing type gives None and leaves imports unchanged. |
| CopyGen.Generator.CollectSliceMapImports | internal/codegen/copy/copy.go:263-267 | The recorded imports named by slice and map fields, with their aliases. |
| CopyGen.Generator.AddMapsImport | internal/codegen/copy/copy.go:268-273 | The loop with early exit adds "maps" without an alias exactly when some map field is not NeedsDeep, and otherwise leaves the set unchanged. |
| CopyGen.Generator.CollectRequiredImports | internal/codegen/copy/copy.go:261-279 | Distinct paths. "maps" appears exactly when some map field is not NeedsDeep. Every other entry is a recorded import, with its alias, named by a slice or map field. Every package such a field names that the recorded imports provide is listed. |
| CopyGen.Generator.BuildTemplateData | internal/codegen/copy/copy.go:125-141 | The type is marked processed before its nested types are built, and is built exactly once. processed gains exactly the type and its nested types. imports gains the files of the nested types, in build order. The data holds the analysed fields, a flattened nested list, and the imports collectRequiredImports promises for the imports recorded on entry. |
| CopyGen.Generator.CollectNestedTypes | internal/codegen/copy/copy.go:236-259 | Each struct type a field names is processed afterwards. Only types not yet processed or seen are built. processed gains exactly the built types, and imports gains their files' imports, in build order. The list is flat and marked nested. |
| CopyGen.Generator.CollectNestedType | internal/codegen/copy/copy.go:240-256 | One loop turn keeps the list in step with built, processed and imports: exactly the listed types are newly built and processed, and their files' imports recorded in order. |
| CopyGen.Run | internal/codegen/copy/copy.go:30-43 | None exactly for a missing type. Otherwise the root's data with the defaulted method name. Its imports meet collectRequiredImports' promise for the imports of the type's own file, and its nested types name distinct structs. |
| LayerBroker.BrokerTypeName | internal/codegen/layerbroker/layerbroker.go:137-142 | Appends "LayerBroker" whether or not the name is exported. |
| LayerBroker.LayerTypeName | internal/codegen/layerbroker/layerbroker.go:144-149 | Appends "Layer" whether or not the name is exported. |
| LayerBroker.NewBrokerName | internal/codegen/layerbroker/layerbroker.go:151-157 | "New"+broker type for an exported name. Otherwise "new"+broker type of the name with its first byte upper-cased. |
| LayerBroker.NewBrokerNameOfLowerCase | internal/codegen/layerbroker/layerbroker.go:155-156 | For a lower-case initial, the name is "new" + the capitalised name + "LayerBroker". |
| LayerBroker.IsExported | internal/codegen/layerbroker/layerbroker.go:130-135 | isExported: non-empty with an upper-case ASCII first byte. |
| LayerBroker.IsLocalStruct | internal/codegen/layerbroker/layerbroker.go:159-161 | isLocalStruct: a struct of this package that is not a slice or map. MergeGen.NeedsConversionIsLocalStruct relates it to needsConversion. |
| LayerBroker.ImportsByName | internal/codegen/layerbroker/layerbroker.go:82-89 | Keys are package names (alias, else path base). Each maps to an import of that name, and every import's name is a key. |
| LayerBroker.ImportsByNameLastWins | internal/codegen/layerbroker/layerbroker.go:83-89 | A package name maps to its last import. |
| LayerBroker.BuildImportsByName | internal/codegen/layerbroker/layerbroker.go:82-89 | The loop builds ImportsByName. |
| LayerBroker.CollectUsedPkgs | internal/codegen/layerbroker/layerbroker.go:92-97 | The loop builds the set of field packages other than "" and "time". |
| LayerBroker.PkgNamesListed | internal/codegen/layerbroker/layerbroker.go:99-104 | A package name collected is that of some listed import. |
| LayerBroker.CollectExternalImports | internal/codegen/layerbroker/layerbroker.go:80-106 | Each import is a struct import whose package name a non-time field uses, and is the last import of that name. Names are distinct. Every used package that has an import is listed. |
| LayerBroker.FieldsNeedTime | internal/codegen/layerbroker/layerbroker.go:58-65 | needsTime exactly when some field's package is "time". |
| LayerBroker.FieldsNeedTimeBreak | internal/codegen/layerbroker/layerbroker.go:179-185 | The loop with break gives the same answer. |
| LayerBroker.FirstPlainString | internal/codegen/layerbroker/layerbroker.go:167-176 | "" exactly when no plain string field has a name. Otherwise the name of such a field. |
| LayerBroker.FirstPlainInt | internal/codegen/layerbroker/layerbroker.go:167-176 | The same for plain int, int32 and int64 fields. |
| LayerBroker.FirstPlainStep | internal/codegen/layerbroker/layerbroker.go:169-176 | The first match from i is field i when it matches, else the first match from i+1. |
| LayerBroker.SelectTestFields | internal/codegen/layerbroker/layerbroker.go:167-176 | The single loop picks the first plain string field and the first plain int field. |
| LayerBroker.BrokerData | internal/codegen/layerbroker/layerbroker.go:55-74 | The template data: time import exactly when a field uses time, and no reflect. ExternalImports holds, once per package name, the last struct import of each name a field uses (other than time), and every used package that has an import is listed. |
| LayerBroker.TestData | internal/codegen/layerbroker/layerbroker.go:163-195 | The test template data with the selected fields and needsTime. |
| MergeGen.PartialTypeName | internal/codegen/merge/merge.go:101-103 | The name followed by "Partial". |
| MergeGen.PointerTypeName | internal/codegen/merge/merge.go:105-125 | A non-pointer slice or map keeps its type. A local struct becomes "*"+partial type. Anything else becomes "*"+its qualified type. |
| MergeGen.PointerIrrelevant | internal/codegen/merge/merge.go:105-125 | Pointer-ness only matters for slices and maps. |
| MergeGen.PartialFieldsNullable | internal/codegen/merge/merge.go:105-125 | Every partial field type is a pointer, except a by-value slice or map. |
| MergeGen.NeedsConversion | internal/codegen/merge/merge.go:127-129 | needsConversion: a struct of this package that is not a slice or map. |
| MergeGen.NeedsConversionIsLocalStruct | internal/codegen/merge/merge.go:127-129 | needsConversion is isLocalStruct, and such a field's partial type is the partial struct's. |
| MergeGen.AllStructs | internal/codegen/merge/merge.go:30-34 | The root first, then the nested structs in order. The names are distinct when the lookup is well formed. |
| Paths.RemoveDots | internal/codegen/manager/paths.go:48 | The result has no '.', and a dot-free string is unchanged. |
| Paths.RemoveDotsAppend | internal/codegen/manager/paths.go:48 | Removing dots distributes over concatenation. |
| Paths.RemoveDotsJoin | internal/codegen/manager/paths.go:44-48 | The constant of prefix.name is prefix's constant + name. |
| Paths.LastDot | internal/codegen/manager/paths.go:57 | -1 exactly when there is no '.'. Otherwise a '.' with none after it. |
| Paths.Split | internal/codegen/manager/paths.go:57 | At least one segment, and none contains '.'. |
| Paths.JoinSplit | internal/codegen/manager/paths.go:57 | Joining the split path gives the path back. |
| Paths.SplitJoin | internal/codegen/manager/paths.go:57 | Splitting joined dot-free segments gives the segments back. |
| Paths.SplitAppend | internal/codegen/manager/paths.go:44-57 | Appending ".name" appends one segment. |
| Paths.FieldTypeString | internal/codegen/manager/paths.go:83-100 | A pointer is "*"+qualified type. A slice or map keeps TypeName. Otherwise the qualified type. |
| Paths.PartialTypeIsPointerToFieldType | internal/codegen/manager/paths.go:83-100 | For a non-local-struct field, the partial type is the field type, as a pointer where needed. |
| Paths.ZeroValueFor | internal/codegen/manager/paths.go:102-127 | "nil" exactly for pointer, slice or map. `""`, "false" and "0" for string, bool and numeric types. T{} for structs. |
| Paths.BelowSuffix | internal/codegen/manager/paths.go:42 | The rank bound holds for the remaining fields. |
| Paths.PathList.constructor | internal/codegen/manager/paths.go:36 | The paths slice starts empty. |
| Paths.PathsOfCons | internal/codegen/manager/paths.go:42-80 | The entries are the first field's entry, its nested entries, then the rest. |
| Paths.NewPathInfo | internal/codegen/manager/paths.go:43-71 | The loop body builds the field's entry. |
| Paths.Entry | internal/codegen/manager/paths.go:43-71 | The entry buildPathsRecursive builds for one field. EntryHasShape, ChildSegments and TopSegments state its laws. |
| Paths.PathsOf | internal/codegen/manager/paths.go:41-81 | The entries buildPathsRecursive appends: each field's entry, then the entries of the struct it descends into. PathsHaveShape, PathsAccessor and PathsPreOrder are about it. |
| Paths.BuildPathsRecursive | internal/codegen/manager/paths.go:41-81 | Appends exactly PathsOf to the shared slice. |
| Paths.NestedMapOf | internal/codegen/manager/paths.go:32-35 | Each struct is under its own name, and every nested struct is present. |
| Paths.BuildPaths | internal/codegen/manager/paths.go:31-39 | The paths under "m.config": well formed and placed in pre-order. Each accessor is "m.config."+path. |
| Paths.ShapedConcat | internal/codegen/manager/paths.go:72-79 | Well-formedness composes. |
| Paths.EntryHasShape | internal/codegen/manager/paths.go:43-71 | The entry's fields are consistent. |
| Paths.PathsHaveShape | internal/codegen/manager/paths.go:41-81 | Every entry has PathConst = path without dots and Segments = split path. NilCheckPath is non-empty iff ParentIsPtr, and SkipTransactionSet is pointer and local struct. |
| Paths.AccessibleConcat | internal/codegen/manager/paths.go:47 | The accessor law composes. |
| Paths.PathsAccessor | internal/codegen/manager/paths.go:37-47 | Every AccessorExpr is "m.config." + Path. |
| Paths.PlacedInSub | internal/codegen/manager/paths.go:74-79 | A nested entry is placed under its parent. |
| Paths.PlacedInRest | internal/codegen/manager/paths.go:42 | A later sibling's placement is kept. |
| Paths.PlacedConcat | internal/codegen/manager/paths.go:72-79 | Placement composes. |
| Paths.PathsPreOrder | internal/codegen/manager/paths.go:41-81 | Each entry is a direct field of the current struct, or comes after its parent: a local struct field with ParentIsPtr propagated. |
| Paths.ChildSegments | internal/codegen/manager/paths.go:45-58 | A nested path adds one segment, the field name. PathConst adds the name. |
| Paths.TopSegments | internal/codegen/manager/paths.go:43-52 | A top-level entry's path, constant and only segment are the field name, with no nil check. |
| Paths.SegmentsJoin | internal/codegen/manager/paths.go:57 | Every path is the join of its segments. |
| Paths.SelfReferenceUnranked | internal/codegen/manager/paths.go:74-79 | A struct with a pointer to itself admits no rank once the descent enters it. |
| Paths.UnenteredCycleRanked | internal/codegen/manager/paths.go:74-79 | A root whose fields descend into no struct of the table is ranked, whatever cycles the table holds. |
| Paths.SliceCycleRanked | internal/codegen/manager/paths.go:74-79 | Root{Items []Node} with Node{Next *Node} meets the precondition, since the slice stops the descent, yet no rank that includes Node exists. |
| Duration.Wrap | examples/nested/duration/duration.go:35-38 | Int64 wrap-around: congruent modulo 2^64, and exact in range. |
| Duration.ToDuration | examples/nested/duration/duration.go:34-40 | The three wrapping steps give the exact nanosecond count wrapped to int64. |
| Duration.ZeroIsZero | examples/nested/duration/duration.go:34-40 | An all-zero Timestamp converts to 0. |
| Duration.ExactInRange | examples/nested/duration/duration.go:35-38 | In range, the result is Minutes·60·10⁹ + Hours·3600·10⁹ + Days·86400·10⁹. |
| Duration.DayIsTwentyFourHours | examples/nested/duration/duration.go:37-38 | One more day equals 24 more hours. |
| Duration.ComponentsAdd | examples/nested/duration/duration.go:35-39 | The result is the wrapping sum of each component converted alone. |
| Duration.DaysOverflow | examples/nested/duration/duration.go:38 | 106752 days exceeds int64 and wraps to a negative duration. |

## Left out

- The concurrent broker runtime is not modelled. It lives in a template and is about locks and channels.
- Subtool.Run of the merge and layer-broker subtools, the template files, generatePartialFile, generateMergeFile, writeOutput and the output file names are not modelled. They are template execution and file output.
- internal/codegen/generator.go and cmd/sudo-gen/main.go are not part of this model. They are gofmt, file writes and command-line handling.
- Go source parsing is not modelled (parser.ParseFile, parser.ParseDir, ast.Inspect, FindTypeAfterGenerateDirective, FindTypeAfterLine, findStructType). The parsed result is an abstract expression datatype and declaration list. FindStructInPackage is a lookup map.
- The reflection-driven merge and copy are not modelled (MergeReflectionGeneric, mergeStructByReflection, setFieldValue, setSliceField, setMapField, convertStructByReflection, CopyReflect). They depend on runtime reflection.
- The JSON and gob round trips are not modelled (MergeJSON, MergeJSONWithMap, MergeJSONStrict, CopyJSON, CopyGob), nor copy_libs.go. They wrap encoding libraries.
- Duration's MarshalJSON and UnmarshalJSON are not modelled. They wrap time.ParseDuration and Duration.String.
- internal/codegen/equals/equals.go is not part of this model. It is a template subtool whose struct list and isLocalStruct are the ones modelled as MergeGen.AllStructs and LayerBroker.IsLocalStruct.
- playgrounds/merge-objects/types.go is not part of this model. The merge playground's Config, DatabaseConfig, Tag and their Input counterparts take the shapes of playgrounds/copy-objects/types.go, with every Input field optional.
- float64 and time.Time values are opaque. They are only assigned or copied.
- Strings are ASCII: one char per byte, and IsExported and the upper-casing in newBrokerName act on ASCII letters.
- ReflectionMerge.MergeInputToConfig: the pointer sharing `dst.EnabledPtr = src.EnabledPtr` (also Description and UpdatedAt) is not modelled. Those fields are values here, so the result equals the manual merge.
- ManualMerge.ApplyInputManual: slices and pointer-to-value fields are values, so the aliasing of Hosts, Ports, Tags, EnabledPtr, Description and UpdatedAt is not modelled. Only maps and DatabasePtr are heap objects, since only they are written through.
- ObjectCopy.CopyManual: freshness is stated for maps and DatabasePtr. Slices and pointer-to-value fields are values, so their freshness has no counterpart. "Equal value" also inherits the DeepCopyAny gap for typed nils inside Metadata.
- ObjectCopy.DeepCopyAny: values are a datatype, so the freshness of nested containers inside an `any` is not expressed, only structural equality.
- ObjectCopy.DeepCopyAny: `any` values never hold a typed nil (`[]string(nil)`, `[]int(nil)`, `[]any(nil)`, `map[string]any(nil)`). In Go such a value is not `== nil`, so deepCopyAny's `make` turns it into a non-nil empty container. The model's `r == v` is stated only for values without typed nils, and the nil-to-empty change is not modelled.
- ObjectCopy.CopyMetadata: inherits the DeepCopyAny gap. A Metadata value that is a typed nil, anywhere in the tree, would become an empty container in Go, and the model's "equal entries" does not capture that.
- ObjectCopy.CopyStorage: inherits the same gap for Metadata's values. Labels and DatabasePtr are copied exactly.
- JsonMerge.DeepMergeMap: a nested dst map is a value, so the sharing of `dst[key]`'s inner map with other holders is not modelled.
- Parser.FindNestedStructs: a ghost fuel bound stands for termination. The method is proved only for inputs on which the as-written search returns.
- MergeGen.AllStructs: inherits the same fuel precondition from FindNestedStructs.
- Paths.BuildPaths: a ghost rank map requires that the descent from the root meets no cycle. Only structs the descent enters need a rank, so a cycle behind a slice or map is allowed (Paths.SliceCycleRanked). The Go code does not return once the descent enters a self-referential pointer struct, as Paths.SelfReferenceUnranked shows.
- ManualMerge.ApplyInputManual: every in-place merge method (ApplyInputManual, MergeManualWithDefaults, ReflectionMerge.MergeInputToConfig and their helpers) requires Config.Valid(), that DatabasePtr does not point at the Config's own embedded Database. Go accepts `c.DatabasePtr = &c.Database`, and on such a Config merge_manual.go:86-94 would write the same storage twice. That aliasing is excluded.
- LayerBroker.NewBrokerName: requires a non-empty type name. On "" the Go code indexes `typeName[:1]` of an empty string and panics (layerbroker.go:156). The panic is not modelled.
- CopyGen.Generator.CollectRequiredImports: completeness is stated only when the recorded imports have no "maps" path. A user import of "maps" with an alias can be replaced by the unaliased one.
- CopyGen.Generator.BuildTemplateData: the error results of buildTemplateData and collectNestedTypes are never produced (their only error source is each other), so the model returns no error.
- CopyGen.Generator.FindStruct: the scan over package files is a lookup. Which file's imports are recorded is that lookup's.

## Findings

| source | as written | input that shows it | evidently intended | confidence | as-written member | corrected member |
|---|---|---|---|---|---|---|
| internal/codegen/parser.go:252-275 | Each recursive FindNestedStructs call starts a fresh `seen` set holding only its own struct's name. | `type A struct { Peer *B }` and `type B struct { Peer *A }`: the search from A goes to B, then to A again, forever. | One `seen` set shared by the whole search, so a struct already found is not searched again. | not executed | Parser.MutualReferenceNeverReturns | Parser.FindNestedStructsSharedFound |
