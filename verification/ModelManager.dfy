/**
 * The embedder's AI model registry: validation of the two-list
 * configuration, dispatch on the backend tag of every model identifier,
 * the index from storage table to embedding adapter, idempotent
 * provisioning of the vector tables, and the process-wide instance built
 * from two environment variables.
 */
module ModelManager {
  import opened Wrappers

  /** A configuration value: what JSON.parse yields, plus JavaScript's
      `undefined` for a field that was never set. The registry never looks
      at a number, so numbers are kept as integers. */
  datatype Value =
    | Undefined
    | Null
    | Bool(b: bool)
    | Num(n: int)
    | Str(s: string)
    | Arr(items: seq<Value>)
    | Obj(fields: map<string, Value>)

  /** The errors thrown while the registry is built or loaded. */
  datatype ConfigError =
    | EmbeddingModelsNotArray
    | GenerationModelsNotArray
    | ModelNotString
    | UrlNotString
    | ConfigIsNullish                            // `.model` read on null throws a TypeError
    | UnsupportedEmbeddingModel(modelType: string)
    | UnsupportedGenerationModel(modelType: string)
    | InvalidEmbeddingJson                       // names AI_EMBEDDING_MODELS
    | InvalidGenerationJson                      // names AI_GENERATION_MODELS
  {
    /** Thrown by the validation pass, before any adapter exists. */
    predicate IsValidationError() {
      EmbeddingModelsNotArray? || GenerationModelsNotArray? || ModelNotString? || UrlNotString? || ConfigIsNullish?
    }
  }

  /** The constructor's argument; a missing list is `Undefined`. */
  datatype Config = Config(embeddingModels: Value, generationModels: Value)

  const EmbeddingsModelType := "text-embeddings-inference"
  const GenerationModelType := "text-generation-inference"

  /** Property access `v.name` on a value that is not null or undefined. */
  function Field(v: Value, name: string): Value
    requires !v.Undefined? && !v.Null?
  {
    if v.Obj? && name in v.fields then v.fields[name] else Undefined
  }

  /** isValidModelConfig: None when the entry is accepted, otherwise the
      error it throws. */
  function ModelConfigError(v: Value): (r: Option<ConfigError>)
    ensures r.None? <==>
      && v.Obj? && "model" in v.fields && v.fields["model"].Str?
      && ("url" in v.fields ==> v.fields["url"].Undefined? || v.fields["url"].Str?)
    ensures r == Some(ConfigIsNullish) <==> v.Undefined? || v.Null?
    ensures r == Some(ModelNotString) <==>
      !v.Undefined? && !v.Null? && !(v.Obj? && "model" in v.fields && v.fields["model"].Str?)
    ensures r == Some(UrlNotString) <==>
      && v.Obj? && "model" in v.fields && v.fields["model"].Str?
      && "url" in v.fields && !v.fields["url"].Undefined? && !v.fields["url"].Str?
  {
    if v.Undefined? || v.Null? then Some(ConfigIsNullish)
    else if !Field(v, "model").Str? then Some(ModelNotString)
    else if !Field(v, "url").Undefined? && !Field(v, "url").Str? then Some(UrlNotString)
    else None
  }

  predicate ValidModelConfig(v: Value) {
    ModelConfigError(v).None?
  }

  predicate AllValid(items: seq<Value>) {
    forall i :: 0 <= i < |items| ==> ValidModelConfig(items[i])
  }

  /** The `forEach` over a list of entries: the error of the first entry
      that fails, if any. */
  function FirstConfigError(items: seq<Value>): (r: Option<ConfigError>)
    ensures r.None? <==> AllValid(items)
    ensures r.Some? ==>
      exists i :: 0 <= i < |items| && ModelConfigError(items[i]) == r &&
        forall j :: 0 <= j < i ==> ValidModelConfig(items[j])
  {
    if items == [] then None
    else if ModelConfigError(items[0]).Some? then ModelConfigError(items[0])
    else
      var r := FirstConfigError(items[1..]);
      assert forall i :: 0 <= i < |items[1..]| ==> items[1..][i] == items[i + 1];
      r
  }

  /** isValidConfig: both lists are arrays, then every embedding entry and
      then every generation entry is valid. */
  function ValidateConfig(config: Config): (r: Option<ConfigError>)
    ensures r.None? <==>
      && config.embeddingModels.Arr? && config.generationModels.Arr?
      && AllValid(config.embeddingModels.items) && AllValid(config.generationModels.items)
    ensures r.Some? ==> r.value.IsValidationError()
    ensures !config.embeddingModels.Arr? ==> r == Some(EmbeddingModelsNotArray)
    ensures config.embeddingModels.Arr? && !config.generationModels.Arr? ==> r == Some(GenerationModelsNotArray)
    ensures config.embeddingModels.Arr? && config.generationModels.Arr? && !AllValid(config.embeddingModels.items) ==>
      r == FirstConfigError(config.embeddingModels.items)
    ensures config.embeddingModels.Arr? && config.generationModels.Arr? && AllValid(config.embeddingModels.items) ==>
      r == FirstConfigError(config.generationModels.items)
  {
    if !config.embeddingModels.Arr? then Some(EmbeddingModelsNotArray)
    else if !config.generationModels.Arr? then Some(GenerationModelsNotArray)
    else if FirstConfigError(config.embeddingModels.items).Some? then FirstConfigError(config.embeddingModels.items)
    else FirstConfigError(config.generationModels.items)
  }

  /** The backend tag: `model.split(':')[0]`, the text before the first
      colon, or the whole string when it has none. */
  function ModelType(model: string): (tag: string)
    ensures tag <= model
    ensures ':' !in tag
    ensures |tag| < |model| ==> model[|tag|] == ':'
  {
    if model == [] || model[0] == ':' then [] else [model[0]] + ModelType(model[1..])
  }

  /** A composite key `<backendType>:<modelName>` yields its backend type. */
  lemma ModelTypeOfKey(backendType: string, modelName: string)
    requires ':' !in backendType
    ensures ModelType(backendType + ":" + modelName) == backendType
  {
    var key := backendType + ":" + modelName;
    var tag := ModelType(key);
    assert key[|backendType|] == ':';
    assert forall k :: 0 <= k < |backendType| ==> key[k] == backendType[k];
    assert tag == key[..|tag|];
    assert |tag| == |backendType|;
  }

  /** The model identifier of an accepted entry. */
  function ModelId(v: Value): string
    requires ValidModelConfig(v)
  {
    v.fields["model"].s
  }

  function Url(v: Value): Option<string>
    requires ValidModelConfig(v)
  {
    if "url" in v.fields && v.fields["url"].Str? then Some(v.fields["url"].s) else None
  }

  /** What an embedding backend declares at construction: its storage table
      and the width of its vectors. */
  datatype TableSpec = TableSpec(tableName: string, embeddingDimensions: nat)

  /** An embedding adapter (TextEmbeddingsInference) as the registry sees it. */
  datatype EmbeddingAdapter = EmbeddingAdapter(model: string, url: Option<string>, tableName: string, embeddingDimensions: nat)

  /** A generation adapter (TextGenerationInference) as the registry sees it. */
  datatype GenerationAdapter = GenerationAdapter(model: string, url: Option<string>)

  function NewEmbeddingAdapter(v: Value, describe: Value -> TableSpec): EmbeddingAdapter
    requires ValidModelConfig(v)
  {
    EmbeddingAdapter(ModelId(v), Url(v), describe(v).tableName, describe(v).embeddingDimensions)
  }

  function NewGenerationAdapter(v: Value): GenerationAdapter
    requires ValidModelConfig(v)
  {
    GenerationAdapter(ModelId(v), Url(v))
  }

  predicate IsEmbeddingConfig(v: Value)
    requires ValidModelConfig(v)
  {
    ModelType(ModelId(v)) == EmbeddingsModelType
  }

  predicate IsGenerationConfig(v: Value)
    requires ValidModelConfig(v)
  {
    ModelType(ModelId(v)) == GenerationModelType
  }

  /** The `map` over the embedding entries: one adapter per entry, in order,
      or the error for the first entry whose tag is not supported. */
  function EmbeddingModels(configs: seq<Value>, describe: Value -> TableSpec): (r: Result<seq<EmbeddingAdapter>, ConfigError>)
    requires AllValid(configs)
    ensures r.Success? <==> forall i :: 0 <= i < |configs| ==> IsEmbeddingConfig(configs[i])
    ensures r.Success? ==>
      |r.value| == |configs| &&
      forall i :: 0 <= i < |configs| ==> r.value[i] == NewEmbeddingAdapter(configs[i], describe)
    ensures r.Failure? ==>
      exists i :: 0 <= i < |configs| && !IsEmbeddingConfig(configs[i]) &&
        r.error == UnsupportedEmbeddingModel(ModelType(ModelId(configs[i]))) &&
        forall j :: 0 <= j < i ==> IsEmbeddingConfig(configs[j])
    decreases |configs|
  {
    if configs == [] then Success([])
    else
      var init, last := configs[..|configs| - 1], configs[|configs| - 1];
      assert forall i :: 0 <= i < |init| ==> init[i] == configs[i];
      match EmbeddingModels(init, describe)
      case Failure(e) => Failure(e)
      case Success(models) =>
        if IsEmbeddingConfig(last) then
          var r := models + [NewEmbeddingAdapter(last, describe)];
          assert forall i :: 0 <= i < |init| ==> r[i] == models[i];
          Success(r)
        else Failure(UnsupportedEmbeddingModel(ModelType(ModelId(last))))
  }

  /** The `map` over the generation entries, with the same shape. */
  function GenerationModels(configs: seq<Value>): (r: Result<seq<GenerationAdapter>, ConfigError>)
    requires AllValid(configs)
    ensures r.Success? <==> forall i :: 0 <= i < |configs| ==> IsGenerationConfig(configs[i])
    ensures r.Success? ==>
      |r.value| == |configs| &&
      forall i :: 0 <= i < |configs| ==> r.value[i] == NewGenerationAdapter(configs[i])
    ensures r.Failure? ==>
      exists i :: 0 <= i < |configs| && !IsGenerationConfig(configs[i]) &&
        r.error == UnsupportedGenerationModel(ModelType(ModelId(configs[i]))) &&
        forall j :: 0 <= j < i ==> IsGenerationConfig(configs[j])
    decreases |configs|
  {
    if configs == [] then Success([])
    else
      var init, last := configs[..|configs| - 1], configs[|configs| - 1];
      assert forall i :: 0 <= i < |init| ==> init[i] == configs[i];
      match GenerationModels(init)
      case Failure(e) => Failure(e)
      case Success(models) =>
        if IsGenerationConfig(last) then
          var r := models + [NewGenerationAdapter(last)];
          assert forall i :: 0 <= i < |init| ==> r[i] == models[i];
          Success(r)
        else Failure(UnsupportedGenerationModel(ModelType(ModelId(last))))
  }

  /** One more entry extends the embedding `map` by one step. */
  lemma EmbeddingModelsStep(configs: seq<Value>, i: nat, describe: Value -> TableSpec)
    requires i < |configs| && AllValid(configs)
    ensures AllValid(configs[..i]) && AllValid(configs[..i + 1])
    ensures EmbeddingModels(configs[..i + 1], describe) ==
      match EmbeddingModels(configs[..i], describe)
      case Failure(e) => Failure(e)
      case Success(models) =>
        if IsEmbeddingConfig(configs[i]) then Success(models + [NewEmbeddingAdapter(configs[i], describe)])
        else Failure(UnsupportedEmbeddingModel(ModelType(ModelId(configs[i]))))
  {
    var prefix := configs[..i + 1];
    assert prefix[..|prefix| - 1] == configs[..i];
  }

  /** One more entry extends the generation `map` by one step. */
  lemma GenerationModelsStep(configs: seq<Value>, j: nat)
    requires j < |configs| && AllValid(configs)
    ensures AllValid(configs[..j]) && AllValid(configs[..j + 1])
    ensures GenerationModels(configs[..j + 1]) ==
      match GenerationModels(configs[..j])
      case Failure(e) => Failure(e)
      case Success(models) =>
        if IsGenerationConfig(configs[j]) then Success(models + [NewGenerationAdapter(configs[j])])
        else Failure(UnsupportedGenerationModel(ModelType(ModelId(configs[j]))))
  {
    var prefix := configs[..j + 1];
    assert prefix[..|prefix| - 1] == configs[..j];
  }

  /** The table index built while the embedding adapters are created: each
      adapter is stored under its table name, a later one overwriting an
      earlier one with the same name. */
  function TableMap(models: seq<EmbeddingAdapter>): (r: map<string, EmbeddingAdapter>)
    ensures r.Keys == set m | m in models :: m.tableName
    ensures forall t :: t in r ==> r[t].tableName == t && r[t] in models
    decreases |models|
  {
    if models == [] then map[]
    else TableMap(models[..|models| - 1])[models[|models| - 1].tableName := models[|models| - 1]]
  }

  /** Registering one more adapter is one map update. */
  lemma TableMapStep(models: seq<EmbeddingAdapter>, model: EmbeddingAdapter)
    ensures TableMap(models + [model]) == TableMap(models)[model.tableName := model]
  {
    var grown := models + [model];
    assert grown[..|grown| - 1] == models;
  }

  /** The keys of the index are exactly the adapters' table names, read
      position by position; it follows from the contract of TableMap. */
  lemma TableMapKeys(models: seq<EmbeddingAdapter>, t: string)
    ensures t in TableMap(models) <==> exists i :: 0 <= i < |models| && models[i].tableName == t
  {
  }

  /** A key maps to the LAST adapter that declares that table name. */
  lemma {:induction false} TableMapLastWins(models: seq<EmbeddingAdapter>, i: nat)
    requires i < |models|
    requires forall j :: i < j < |models| ==> models[j].tableName != models[i].tableName
    ensures models[i].tableName in TableMap(models)
    ensures TableMap(models)[models[i].tableName] == models[i]
    decreases |models|
  {
    var init := models[..|models| - 1];
    if i < |models| - 1 {
      TableMapLastWins(init, i);
    }
  }

  /** With distinct table names the index has one entry per adapter. */
  lemma {:induction false} TableMapSize(models: seq<EmbeddingAdapter>)
    requires forall i, j :: 0 <= i < j < |models| ==> models[i].tableName != models[j].tableName
    ensures |TableMap(models)| == |models|
    decreases |models|
  {
    if models != [] {
      var init, last := models[..|models| - 1], models[|models| - 1];
      TableMapSize(init);
      TableMapKeys(init, last.tableName);
      assert last.tableName !in TableMap(init);
    }
  }

  /** The registry the constructor builds. */
  datatype Registry = Registry(
    embeddingModels: seq<EmbeddingAdapter>,
    generationModels: seq<GenerationAdapter>,
    embeddingModelsMapByTable: map<string, EmbeddingAdapter>)

  /** Every list is an array, every entry is valid and carries the tag its
      list accepts. */
  predicate Acceptable(config: Config) {
    && config.embeddingModels.Arr? && config.generationModels.Arr?
    && (forall i :: 0 <= i < |config.embeddingModels.items| ==>
          ValidModelConfig(config.embeddingModels.items[i]) && IsEmbeddingConfig(config.embeddingModels.items[i]))
    && (forall i :: 0 <= i < |config.generationModels.items| ==>
          ValidModelConfig(config.generationModels.items[i]) && IsGenerationConfig(config.generationModels.items[i]))
  }

  /** The constructor of ModelManager as a function: validate everything,
      then build the embedding adapters and their index, then the
      generation adapters; the first error aborts the whole construction. */
  function Construct(config: Config, describe: Value -> TableSpec): (r: Result<Registry, ConfigError>)
    ensures ValidateConfig(config).Some? ==> r == Failure(ValidateConfig(config).value)
    ensures ValidateConfig(config).None? && r.Failure? ==>
      r.error.UnsupportedEmbeddingModel? || r.error.UnsupportedGenerationModel?
    ensures r.Success? <==> Acceptable(config)
    ensures r.Success? ==>
      && |r.value.embeddingModels| == |config.embeddingModels.items|
      && (forall i :: 0 <= i < |config.embeddingModels.items| ==>
            r.value.embeddingModels[i] == NewEmbeddingAdapter(config.embeddingModels.items[i], describe))
      && |r.value.generationModels| == |config.generationModels.items|
      && (forall i :: 0 <= i < |config.generationModels.items| ==>
            r.value.generationModels[i] == NewGenerationAdapter(config.generationModels.items[i]))
      && r.value.embeddingModelsMapByTable == TableMap(r.value.embeddingModels)
  {
    match ValidateConfig(config)
    case Some(e) => Failure(e)
    case None =>
      match EmbeddingModels(config.embeddingModels.items, describe)
      case Failure(e) => Failure(e)
      case Success(embeddingModels) =>
        match GenerationModels(config.generationModels.items)
        case Failure(e) => Failure(e)
        case Success(generationModels) =>
          Success(Registry(embeddingModels, generationModels, TableMap(embeddingModels)))
  }

  /** An unsupported embedding tag is reported even when a generation entry
      is also unsupported: the embedding list is dispatched first. */
  lemma EmbeddingDispatchFirst(config: Config, describe: Value -> TableSpec, i: nat)
    requires ValidateConfig(config).None?
    requires i < |config.embeddingModels.items|
    requires !IsEmbeddingConfig(config.embeddingModels.items[i])
    requires forall j :: 0 <= j < i ==> IsEmbeddingConfig(config.embeddingModels.items[j])
    ensures Construct(config, describe) ==
      Failure(UnsupportedEmbeddingModel(ModelType(ModelId(config.embeddingModels.items[i]))))
  {
    var items := config.embeddingModels.items;
    var r := EmbeddingModels(items, describe);
    assert r.Failure?;
    var k :| 0 <= k < |items| && !IsEmbeddingConfig(items[k]) &&
      r.error == UnsupportedEmbeddingModel(ModelType(ModelId(items[k]))) &&
      forall j :: 0 <= j < k ==> IsEmbeddingConfig(items[j]);
    assert k == i;
  }

  /** With every embedding entry supported, the first unsupported generation
      entry decides the error. */
  lemma GenerationDispatchFirst(config: Config, describe: Value -> TableSpec, i: nat)
    requires ValidateConfig(config).None?
    requires forall j :: 0 <= j < |config.embeddingModels.items| ==> IsEmbeddingConfig(config.embeddingModels.items[j])
    requires i < |config.generationModels.items|
    requires !IsGenerationConfig(config.generationModels.items[i])
    requires forall j :: 0 <= j < i ==> IsGenerationConfig(config.generationModels.items[j])
    ensures Construct(config, describe) ==
      Failure(UnsupportedGenerationModel(ModelType(ModelId(config.generationModels.items[i]))))
  {
    var items := config.generationModels.items;
    var r := GenerationModels(items);
    assert r.Failure?;
    var k :| 0 <= k < |items| && !IsGenerationConfig(items[k]) &&
      r.error == UnsupportedGenerationModel(ModelType(ModelId(items[k]))) &&
      forall j :: 0 <= j < k ==> IsGenerationConfig(items[j]);
    assert k == i;
  }

  /** The storage catalog of the database: table name to vector width. */
  class Catalog {
    var tables: map<string, nat>

    constructor (tables: map<string, nat>)
      ensures this.tables == tables
    {
      this.tables := tables;
    }
  }

  /** The catalog after provisioning the adapters one after the other: a
      table is created, with the adapter's width, only when it is absent. */
  function Provision(tables: map<string, nat>, models: seq<EmbeddingAdapter>): (r: map<string, nat>)
    ensures forall t :: t in tables ==> t in r && r[t] == tables[t]
    decreases |models|
  {
    if models == [] then tables
    else
      var before, last := Provision(tables, models[..|models| - 1]), models[|models| - 1];
      if last.tableName in before then before else before[last.tableName := last.embeddingDimensions]
  }

  /** The create statements issued by that provisioning, in order. */
  function CreatedTables(tables: map<string, nat>, models: seq<EmbeddingAdapter>): (r: seq<TableSpec>)
    ensures |r| <= |models|
    ensures |tables| + |r| == |Provision(tables, models)|
    decreases |models|
  {
    if models == [] then []
    else
      var init, last := models[..|models| - 1], models[|models| - 1];
      if last.tableName in Provision(tables, init) then CreatedTables(tables, init)
      else CreatedTables(tables, init) + [TableSpec(last.tableName, last.embeddingDimensions)]
  }

  /** A table that is missing and that no adapter declares stays missing. */
  lemma {:induction false} ProvisionAbsent(tables: map<string, nat>, models: seq<EmbeddingAdapter>, t: string)
    requires t !in tables
    requires forall j :: 0 <= j < |models| ==> models[j].tableName != t
    ensures t !in Provision(tables, models)
    decreases |models|
  {
    if models != [] {
      ProvisionAbsent(tables, models[..|models| - 1], t);
    }
  }

  /** A missing table is created with the width of the FIRST adapter that
      declares it; later adapters on the same table change nothing. */
  lemma {:induction false} ProvisionFirstWins(tables: map<string, nat>, models: seq<EmbeddingAdapter>, i: nat)
    requires i < |models| && models[i].tableName !in tables
    requires forall j :: 0 <= j < i ==> models[j].tableName != models[i].tableName
    ensures models[i].tableName in Provision(tables, models)
    ensures Provision(tables, models)[models[i].tableName] == models[i].embeddingDimensions
    decreases |models|
  {
    var init := models[..|models| - 1];
    if i < |models| - 1 {
      ProvisionFirstWins(tables, init, i);
    } else {
      ProvisionAbsent(tables, init, models[i].tableName);
    }
  }

  /** After provisioning every adapter's table exists. */
  lemma {:induction false} ProvisionCovers(tables: map<string, nat>, models: seq<EmbeddingAdapter>)
    ensures forall i :: 0 <= i < |models| ==> models[i].tableName in Provision(tables, models)
    decreases |models|
  {
    if models != [] {
      var init := models[..|models| - 1];
      ProvisionCovers(tables, init);
      assert forall i :: 0 <= i < |init| ==> models[i] == init[i];
    }
  }

  /** Provisioning adds only tables that some adapter declares. */
  lemma {:induction false} ProvisionOnlyAdds(tables: map<string, nat>, models: seq<EmbeddingAdapter>, t: string)
    requires t in Provision(tables, models)
    ensures t in tables || exists i :: 0 <= i < |models| && models[i].tableName == t
    decreases |models|
  {
    if models != [] {
      var init := models[..|models| - 1];
      if t in Provision(tables, init) {
        ProvisionOnlyAdds(tables, init, t);
        if t !in tables {
          var i :| 0 <= i < |init| && init[i].tableName == t;
          assert models[i].tableName == t;
        }
      } else {
        assert models[|models| - 1].tableName == t;
      }
    }
  }

  /** A create statement is issued only for a table missing from the
      catalog, and the table it creates has the adapter's width. */
  lemma {:induction false} CreatedWereAbsent(tables: map<string, nat>, models: seq<EmbeddingAdapter>)
    ensures forall k :: 0 <= k < |CreatedTables(tables, models)| ==>
      && CreatedTables(tables, models)[k].tableName !in tables
      && CreatedTables(tables, models)[k].tableName in Provision(tables, models)
      && Provision(tables, models)[CreatedTables(tables, models)[k].tableName]
           == CreatedTables(tables, models)[k].embeddingDimensions
    decreases |models|
  {
    if models != [] {
      var init, last := models[..|models| - 1], models[|models| - 1];
      CreatedWereAbsent(tables, init);
    }
  }

  /** When every adapter's table already exists provisioning is a no-op. */
  lemma {:induction false} ProvisionNoOp(tables: map<string, nat>, models: seq<EmbeddingAdapter>)
    requires forall i :: 0 <= i < |models| ==> models[i].tableName in tables
    ensures Provision(tables, models) == tables
    ensures CreatedTables(tables, models) == []
    decreases |models|
  {
    if models != [] {
      var init := models[..|models| - 1];
      assert forall i :: 0 <= i < |init| ==> init[i] == models[i];
      ProvisionNoOp(tables, init);
    }
  }

  /** A second provisioning run changes nothing and creates nothing. */
  lemma ProvisionIdempotent(tables: map<string, nat>, models: seq<EmbeddingAdapter>)
    ensures Provision(Provision(tables, models), models) == Provision(tables, models)
    ensures CreatedTables(Provision(tables, models), models) == []
  {
    ProvisionCovers(tables, models);
    ProvisionNoOp(Provision(tables, models), models);
  }

  /** The registry object. Its fields are set once by `New`; the table
      index always agrees with the embedding adapters. */
  class ModelManager {
    var embeddingModels: seq<EmbeddingAdapter>
    var embeddingModelsMapByTable: map<string, EmbeddingAdapter>
    var generationModels: seq<GenerationAdapter>

    ghost predicate Valid()
      reads this
    {
      embeddingModelsMapByTable == TableMap(embeddingModels)
    }

    function Snapshot(): Registry
      reads this
    {
      Registry(embeddingModels, generationModels, embeddingModelsMapByTable)
    }

    constructor Empty()
      ensures Valid()
      ensures embeddingModels == [] && generationModels == [] && embeddingModelsMapByTable == map[]
    {
      embeddingModels := [];
      generationModels := [];
      embeddingModelsMapByTable := map[];
    }

    /** `new ModelManager(config)`: the registry that Construct describes, or
        its error. */
    static method New(config: Config, describe: Value -> TableSpec) returns (r: Result<ModelManager, ConfigError>)
      ensures Construct(config, describe).Failure? ==> r == Failure(Construct(config, describe).error)
      ensures Construct(config, describe).Success? ==>
        r.Success? && fresh(r.value) && r.value.Valid() && r.value.Snapshot() == Construct(config, describe).value
    {
      var invalid := ValidateConfig(config);
      if invalid.Some? {
        return Failure(invalid.value);
      }
      var m := new ModelManager.Empty();
      var embeddingModels := m.AddEmbeddingModels(config.embeddingModels.items, describe);
      if embeddingModels.Failure? {
        return Failure(embeddingModels.error);
      }
      var generationModels := BuildGenerationModels(config.generationModels.items);
      if generationModels.Failure? {
        return Failure(generationModels.error);
      }
      m.embeddingModels := embeddingModels.value;
      m.generationModels := generationModels.value;
      return Success(m);
    }

    /** The constructor's embedding `map`: create each adapter in order and
        register it in the table index as it is created. */
    method AddEmbeddingModels(configs: seq<Value>, describe: Value -> TableSpec)
      returns (r: Result<seq<EmbeddingAdapter>, ConfigError>)
      requires AllValid(configs)
      requires embeddingModelsMapByTable == map[]
      modifies this`embeddingModelsMapByTable
      ensures r == EmbeddingModels(configs, describe)
      ensures r.Success? ==> embeddingModelsMapByTable == TableMap(r.value)
    {
      var models: seq<EmbeddingAdapter> := [];
      var i := 0;
      while i < |configs|
        invariant 0 <= i <= |configs|
        invariant EmbeddingModels(configs[..i], describe) == Success(models)
        invariant embeddingModelsMapByTable == TableMap(models)
      {
        EmbeddingModelsStep(configs, i, describe);
        var modelType := ModelType(ModelId(configs[i]));
        if modelType != EmbeddingsModelType {
          EmbeddingModelsFailurePersists(configs, i + 1, describe);
          return Failure(UnsupportedEmbeddingModel(modelType));
        }
        var model := NewEmbeddingAdapter(configs[i], describe);
        TableMapStep(models, model);
        embeddingModelsMapByTable := embeddingModelsMapByTable[model.tableName := model];
        models := models + [model];
        i := i + 1;
      }
      assert configs[..i] == configs;
      return Success(models);
    }

    /** The constructor's generation `map`. */
    static method BuildGenerationModels(configs: seq<Value>) returns (r: Result<seq<GenerationAdapter>, ConfigError>)
      requires AllValid(configs)
      ensures r == GenerationModels(configs)
    {
      var generators: seq<GenerationAdapter> := [];
      var j := 0;
      while j < |configs|
        invariant 0 <= j <= |configs|
        invariant GenerationModels(configs[..j]) == Success(generators)
      {
        GenerationModelsStep(configs, j);
        var modelType := ModelType(ModelId(configs[j]));
        if modelType != GenerationModelType {
          GenerationModelsFailurePersists(configs, j + 1);
          return Failure(UnsupportedGenerationModel(modelType));
        }
        generators := generators + [NewGenerationAdapter(configs[j])];
        j := j + 1;
      }
      assert configs[..j] == configs;
      return Success(generators);
    }

    /** Routing a stored vector back to its model: the adapter registered
        under a table name, or None when no adapter declares it. */
    function Lookup(tableName: string): (r: Option<EmbeddingAdapter>)
      reads this
      requires Valid()
      ensures r.None? <==> forall i :: 0 <= i < |embeddingModels| ==> embeddingModels[i].tableName != tableName
      ensures r.Some? ==> r.value.tableName == tableName && r.value in embeddingModels
    {
      TableMapKeys(embeddingModels, tableName);
      if tableName in embeddingModelsMapByTable then
        Some(embeddingModelsMapByTable[tableName])
      else None
    }

    /** maybeCreateTables, run sequentially: check the catalog for each
        adapter's table and create it only when absent. Returns the create
        statements issued. */
    method MaybeCreateTables(pg: Catalog) returns (created: seq<TableSpec>)
      modifies pg
      ensures pg.tables == Provision(old(pg.tables), embeddingModels)
      ensures created == CreatedTables(old(pg.tables), embeddingModels)
    {
      created := [];
      var i := 0;
      while i < |embeddingModels|
        invariant 0 <= i <= |embeddingModels|
        invariant pg.tables == Provision(old(pg.tables), embeddingModels[..i])
        invariant created == CreatedTables(old(pg.tables), embeddingModels[..i])
      {
        assert embeddingModels[..i + 1][..i] == embeddingModels[..i];
        var model := embeddingModels[i];
        var hasTable := model.tableName in pg.tables;
        if !hasTable {
          pg.tables := pg.tables[model.tableName := model.embeddingDimensions];
          created := created + [TableSpec(model.tableName, model.embeddingDimensions)];
        }
        i := i + 1;
      }
      assert embeddingModels[..i] == embeddingModels;
    }
  }

  /** Once a prefix of the entries fails, the whole list fails the same way. */
  lemma {:induction false} EmbeddingModelsFailurePersists(configs: seq<Value>, n: nat, describe: Value -> TableSpec)
    requires n <= |configs| && AllValid(configs)
    requires EmbeddingModels(configs[..n], describe).Failure?
    ensures EmbeddingModels(configs, describe) == EmbeddingModels(configs[..n], describe)
    decreases |configs|
  {
    if n < |configs| {
      var init := configs[..|configs| - 1];
      assert init[..n] == configs[..n];
      assert forall i :: 0 <= i < |init| ==> init[i] == configs[i];
      EmbeddingModelsFailurePersists(init, n, describe);
    } else {
      assert configs[..n] == configs;
    }
  }

  lemma {:induction false} GenerationModelsFailurePersists(configs: seq<Value>, n: nat)
    requires n <= |configs| && AllValid(configs)
    requires GenerationModels(configs[..n]).Failure?
    ensures GenerationModels(configs) == GenerationModels(configs[..n])
    decreases |configs|
  {
    if n < |configs| {
      var init := configs[..|configs| - 1];
      assert init[..n] == configs[..n];
      assert forall i :: 0 <= i < |init| ==> init[i] == configs[i];
      GenerationModelsFailurePersists(init, n);
    } else {
      assert configs[..n] == configs;
    }
  }

  /** One of the two environment variables: unset, or its text together
      with what JSON.parse makes of it (None when it throws). */
  datatype EnvValue = Unset | EnvText(text: string, parsed: Option<Value>)

  /** `VAR && JSON.parse(VAR)`: unset gives undefined, the empty string is
      falsy and is kept as it is, any other text is parsed (None: parse
      error). */
  function EnvJson(e: EnvValue): (r: Option<Value>)
    ensures r.None? <==> e.EnvText? && e.text != "" && e.parsed.None?
    ensures e.EnvText? && e.text != "" ==> r == e.parsed
    ensures e.Unset? || (e.EnvText? && e.text == "") ==> r.Some? && !r.value.Arr?
  {
    match e
    case Unset => Some(Undefined)
    case EnvText(text, parsed) => if text == "" then Some(Str("")) else parsed
  }

  /** The configuration read from AI_EMBEDDING_MODELS and
      AI_GENERATION_MODELS, the embedding variable first. */
  function ConfigFromEnv(embedding: EnvValue, generation: EnvValue): (r: Result<Config, ConfigError>)
    ensures EnvJson(embedding).None? ==> r == Failure(InvalidEmbeddingJson)
    ensures EnvJson(embedding).Some? && EnvJson(generation).None? ==> r == Failure(InvalidGenerationJson)
    ensures r.Success? <==> EnvJson(embedding).Some? && EnvJson(generation).Some?
    ensures r.Success? ==> r.value == Config(EnvJson(embedding).value, EnvJson(generation).value)
  {
    match EnvJson(embedding)
    case None => Failure(InvalidEmbeddingJson)
    case Some(emb) =>
      match EnvJson(generation)
      case None => Failure(InvalidGenerationJson)
      case Some(gen) => Success(Config(emb, gen))
  }

  /** What getModelManager builds on its first call. */
  function Startup(embedding: EnvValue, generation: EnvValue, describe: Value -> TableSpec): (r: Result<Registry, ConfigError>)
    ensures (embedding.Unset? || (embedding.EnvText? && embedding.text == "")) && EnvJson(generation).Some? ==>
      r == Failure(EmbeddingModelsNotArray)
    ensures EnvJson(embedding).None? ==> r == Failure(InvalidEmbeddingJson)
    ensures EnvJson(embedding).Some? && EnvJson(embedding).value.Arr? &&
            (generation.Unset? || (generation.EnvText? && generation.text == "")) ==>
      r == Failure(GenerationModelsNotArray)
    ensures r.Success? <==>
      EnvJson(embedding).Some? && EnvJson(generation).Some? &&
      Acceptable(Config(EnvJson(embedding).value, EnvJson(generation).value))
    ensures ConfigFromEnv(embedding, generation).Success? ==>
      r == Construct(ConfigFromEnv(embedding, generation).value, describe)
  {
    match ConfigFromEnv(embedding, generation)
    case Failure(e) => Failure(e)
    case Success(config) => Construct(config, describe)
  }

  /** The module scope holding the lazily built registry. */
  class Process {
    var modelManager: ModelManager?

    ghost predicate Valid()
      reads this, modelManager
    {
      modelManager != null ==> modelManager.Valid()
    }

    constructor ()
      ensures Valid() && modelManager == null
    {
      modelManager := null;
    }

    /** getModelManager: the cached instance when there is one; otherwise
        build it from the environment and cache it. A failure caches
        nothing. */
    method GetModelManager(embedding: EnvValue, generation: EnvValue, describe: Value -> TableSpec)
      returns (r: Result<ModelManager, ConfigError>)
      requires Valid()
      modifies this
      ensures Valid()
      ensures old(modelManager) != null ==> r == Success(old(modelManager)) && modelManager == old(modelManager)
      ensures old(modelManager) == null && Startup(embedding, generation, describe).Failure? ==>
        r == Failure(Startup(embedding, generation, describe).error) && modelManager == null
      ensures old(modelManager) == null && Startup(embedding, generation, describe).Success? ==>
        && r.Success? && r.value == modelManager && fresh(modelManager)
        && modelManager.Snapshot() == Startup(embedding, generation, describe).value
    {
      if modelManager != null {
        return Success(modelManager);
      }
      var config := ConfigFromEnv(embedding, generation);
      if config.Failure? {
        return Failure(config.error);
      }
      var built := ModelManager.New(config.value, describe);
      if built.Failure? {
        return Failure(built.error);
      }
      modelManager := built.value;
      return built;
    }
  }
}
