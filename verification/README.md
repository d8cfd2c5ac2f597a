# Parabol: model registry, seat bookkeeping and kanban sub-columns in Dafny

This project models three pieces of the Parabol code base and proves properties of them.

- **Model registry** (`ModelManager.dfy`, from `packages/embedder/ai_models/ModelManager.ts`).
  The embedder reads two JSON arrays of model configs from the environment.
  It validates them and builds one adapter per entry, dispatching on the backend tag before the first `:` of the model id.
  Embedding adapters are registered by table name.
  Missing vector tables are then created in the catalog.
  Configs are a JSON-like `Value` datatype. Thrown errors are `Failure` values of a `ConfigError` datatype.
  The `ModelManager` class keeps the source's three fields, and `Process` holds the cached singleton.
- **Seat bookkeeping** (`AdjustUserCount.dfy`, from `packages/server/billing/helpers/adjustUserCount.ts`).
  An invoice item type selects one of three operations:
  - add a user to organizations (upserting organization-user rows and reconsidering each organization's active domain);
  - pause or unpause a user;
  - remove a user.
  Then one audit entry is written.
  The three tables and the audit log are fields of a `Database` class. The methods change those fields.
- **Kanban sub-columns** (`SubColumns.dfy`, from `packages/client/hooks/useSubColumns.ts`).
  This covers:
  - the hook's sub-column count;
  - its expand/collapse toggle;
  - the initial count computed from the phase width and the column height;
  - the round-robin assignment of reflection groups to sub-columns in the local store.

`Wrappers.dfy` holds the shared `Option` and `Result` types.

## Model

| member | source | states |
|---|---|---|
| ModelManager.ModelConfigError | packages/embedder/ai_models/ModelManager.ts:47-56 | an entry passes iff it is an object whose `model` is a string and whose `url` is absent or a string; a null/undefined entry is a TypeError, a non-string model is reported before a bad url, and the url error is raised exactly for a string model with a url present that is neither undefined nor a string |
| ModelManager.FirstConfigError | packages/embedder/ai_models/ModelManager.ts:36-42 | no error iff every entry is valid; otherwise the error of the first invalid entry, all earlier entries being valid |
| ModelManager.ValidateConfig | packages/embedder/ai_models/ModelManager.ts:26-45 | passes iff both lists are arrays of valid entries; the embedding-list check comes first, then the generation-list check; with two arrays, the first invalid embedding entry decides the error, and the generation entries are reached only when every embedding entry is valid; every error it returns is a validation error |
| ModelManager.ModelType | packages/embedder/ai_models/ModelManager.ts:65 | the backend tag is a colon-free prefix of the model id, ending exactly at the first colon when there is one |
| ModelManager.ModelTypeOfKey | packages/embedder/ai_models/ModelManager.ts:65-68 | the tag of `backend:name` is `backend` for any colon-free backend, so a `text-embeddings-inference:…` id dispatches to the embeddings adapter |
| ModelManager.EmbeddingModels | packages/embedder/ai_models/ModelManager.ts:64-75 | succeeds iff every tag is the embeddings backend, giving one adapter per entry in order with the entry's model, url, table and dimensions; otherwise fails with the tag of the first unsupported entry |
| ModelManager.GenerationModels | packages/embedder/ai_models/ModelManager.ts:78-88 | succeeds iff every tag is the generation backend, one adapter per entry in order; otherwise fails with the first unsupported tag |
| ModelManager.EmbeddingModelsFailurePersists | packages/embedder/ai_models/ModelManager.ts:64-75 | once a prefix of the embedding list fails, the whole list fails with that same error (the map aborts) |
| ModelManager.GenerationModelsFailurePersists | packages/embedder/ai_models/ModelManager.ts:78-88 | once a prefix of the generation list fails, the whole list fails with that same error |
| ModelManager.TableMap | packages/embedder/ai_models/ModelManager.ts:63-71 | the keys are exactly the adapters' table names, and each key holds an adapter of the list that declares that table |
| ModelManager.TableMapKeys | packages/embedder/ai_models/ModelManager.ts:63-71 | a table name is registered iff some embedding adapter declares it |
| ModelManager.TableMapLastWins | packages/embedder/ai_models/ModelManager.ts:70 | an adapter with no later adapter on the same table is the one registered under its table name |
| ModelManager.TableMapSize | packages/embedder/ai_models/ModelManager.ts:63-75 | with distinct table names the map has exactly one entry per adapter |
| ModelManager.Construct | packages/embedder/ai_models/ModelManager.ts:58-89 | validation errors come first; after validation only unsupported-backend errors occur; construction succeeds iff the config is valid and every tag is supported, and then gives both adapter lists and the table map built from the embedding list |
| ModelManager.EmbeddingDispatchFirst | packages/embedder/ai_models/ModelManager.ts:60-88 | for a valid config, the first unsupported embedding entry decides the error even when generation entries are also unsupported |
| ModelManager.GenerationDispatchFirst | packages/embedder/ai_models/ModelManager.ts:78-88 | for a valid config whose embedding entries are all supported, the first unsupported generation entry decides the error, with its tag |
| ModelManager.ModelManager.New | packages/embedder/ai_models/ModelManager.ts:58-89 | `new ModelManager(config)` either fails with the error of `Construct` or yields a fresh manager whose fields are the registry `Construct` describes, its map consistent with its list |
| ModelManager.ModelManager.AddEmbeddingModels | packages/embedder/ai_models/ModelManager.ts:63-75 | the loop that fills the table map in place ends with the embedding adapters of `EmbeddingModels` and the map of those adapters |
| ModelManager.ModelManager.BuildGenerationModels | packages/embedder/ai_models/ModelManager.ts:78-88 | the generation loop computes `GenerationModels` |
| ModelManager.ModelManager.Lookup | packages/embedder/ai_models/ModelManager.ts:23 | looking a table up finds nothing iff no embedding adapter declares it, else an embedding adapter declaring that table |
| ModelManager.ModelManager.MaybeCreateTables | packages/embedder/ai_models/ModelManager.ts:91-124 | the catalog afterwards is `Provision` of the old catalog, and the tables created are exactly `CreatedTables` |
| ModelManager.ProvisionCovers | packages/embedder/ai_models/ModelManager.ts:91-122 | after provisioning every adapter's table exists |
| ModelManager.Provision | packages/embedder/ai_models/ModelManager.ts:91-122 | a table that already exists is left exactly as it was |
| ModelManager.CreatedTables | packages/embedder/ai_models/ModelManager.ts:91-122 | at most one create per adapter, and one create per table added to the catalog |
| ModelManager.ProvisionAbsent | packages/embedder/ai_models/ModelManager.ts:91-122 | a missing table that no adapter declares stays missing |
| ModelManager.ProvisionFirstWins | packages/embedder/ai_models/ModelManager.ts:94-109 | a missing table is created with the width of the first adapter that declares it |
| ModelManager.ProvisionOnlyAdds | packages/embedder/ai_models/ModelManager.ts:91-122 | every table afterwards existed before or belongs to an adapter |
| ModelManager.CreatedWereAbsent | packages/embedder/ai_models/ModelManager.ts:94-109 | each created table was absent before and gets the adapter's embedding dimensions |
| ModelManager.ProvisionNoOp | packages/embedder/ai_models/ModelManager.ts:94-100 | when every table exists, nothing is created and the catalog is unchanged |
| ModelManager.ProvisionIdempotent | packages/embedder/ai_models/ModelManager.ts:91-124 | provisioning twice equals provisioning once, and the second run creates nothing |
| ModelManager.EnvJson | packages/embedder/ai_models/ModelManager.ts:135-144 | reading a variable fails iff it holds non-empty text that does not parse; non-empty text gives its parse; an unset or empty variable gives a falsy non-array value |
| ModelManager.ConfigFromEnv | packages/embedder/ai_models/ModelManager.ts:130-144 | malformed JSON in a variable fails with the error naming that variable, the embedding variable first; the config is read iff both variables parse, and then holds the two parsed values |
| ModelManager.Startup | packages/embedder/ai_models/ModelManager.ts:128-146 | an unset or empty embedding variable, when the generation variable parses, is reported as a missing embedding list; an embedding array with an unset generation variable is a missing generation list; startup succeeds iff both variables parse to an acceptable config; once both parse, the result is exactly `Construct` of the parsed config, registry or error |
| ModelManager.Process.GetModelManager | packages/embedder/ai_models/ModelManager.ts:127-149 | a cached manager is returned as is; otherwise a failure caches nothing, and a success caches a fresh manager whose registry is the one `Startup` gives |
| SubColumns.SubColumnIndexes | packages/client/hooks/useSubColumns.ts:19-21 | the indexes are exactly 0, 1, …, count−1 |
| SubColumns.CeilDiv | packages/client/hooks/useSubColumns.ts:40-42 | the ceiling quotient is the least multiple count covering the dividend |
| SubColumns.MaxSubColumnCount | packages/client/hooks/useSubColumns.ts:37-44 | at least 2; 2 without a column element or when the usable height is negative; otherwise the least count, not below 2, whose usable heights cover the scroll height |
| SubColumns.FloorDivDiv | packages/client/hooks/useSubColumns.ts:55-56 | two successive floor divisions by b then c give the greatest n with n·b·c not above the dividend |
| SubColumns.SubColumnsPerColumn | packages/client/hooks/useSubColumns.ts:55-56 | the greatest number of sub-columns per prompt column that fits in the phase width |
| SubColumns.InitialSubColumnCount | packages/client/hooks/useSubColumns.ts:54-59 | the minimum of the maximum count and the count that fits: below both, and equal to one of them |
| SubColumns.InitialSubColumnCountFits | packages/client/hooks/useSubColumns.ts:54-59 | the initial sub-columns of all prompt columns fit in the phase width, and one more would not fit unless the height cap was reached |
| SubColumns.NextSubColumnIdx | packages/client/hooks/useSubColumns.ts:31-32 | from an index in range the counter steps to the next index modulo the count, staying in range |
| SubColumns.Slot | packages/client/hooks/useSubColumns.ts:26-32 | with at least one sub-column, every index handed out is in range |
| SubColumns.SlotIsRoundRobin | packages/client/hooks/useSubColumns.ts:26-32 | after k groups found in the store the next index is k mod max, always in range |
| SubColumns.SortedRecords | packages/client/hooks/useSubColumns.ts:24-35 | sorting changes no record identities in the store |
| SubColumns.SortedRecordsUntouched | packages/client/hooks/useSubColumns.ts:27-29 | a record not among the column's groups is unchanged |
| SubColumns.SortedRecordsAssigns | packages/client/hooks/useSubColumns.ts:27-32 | a group's record gets the round-robin slot of the number of groups found in the store before its last occurrence |
| SubColumns.SortedRecordsRecordFields | packages/client/hooks/useSubColumns.ts:30 | only `subColumnIdx` is written; every other field is kept |
| SubColumns.SortedRecordsInRange | packages/client/hooks/useSubColumns.ts:24-35 | every sorted group's index is a valid sub-column |
| SubColumns.SortSubColumns | packages/client/hooks/useSubColumns.ts:24-35 | the store update loop leaves the store equal to `SortedRecords` of the old store |
| SubColumns.ToggledCount | packages/client/hooks/useSubColumns.ts:48-51 | the new count is 1 or the maximum; with a maximum of at least 2 the column ends expanded iff it started at one sub-column |
| SubColumns.ToggleFlipsExpanded | packages/client/hooks/useSubColumns.ts:46-52 | from any count of at least one, toggling flips whether the column is expanded, and toggling twice from one sub-column comes back to one |
| SubColumns.ZeroSubColumnsReachable | packages/client/hooks/useSubColumns.ts:54-64 | the initial count can be 0 (a 500-wide phase, two prompts, 320-wide columns); no sub-column index is then rendered, and a toggle goes to one, so the column is collapsed before and after |
| SubColumns.SubColumnsHook.constructor | packages/client/hooks/useSubColumns.ts:17 | the hook starts with one sub-column |
| SubColumns.SubColumnsHook.ToggleWidth | packages/client/hooks/useSubColumns.ts:46-52 | from one sub-column the count becomes the maximum and the store is re-sorted for it; from any other count it becomes one and the store is left alone |
| SubColumns.SubColumnsHook.LayoutEffect | packages/client/hooks/useSubColumns.ts:61-68 | without a (non-zero) phase width nothing changes, whatever the other inputs; otherwise the count becomes the initial count and the store is sorted iff that count exceeds 1 |
| SubColumns.ExpandedIffSeveralIndexes | packages/client/hooks/useSubColumns.ts:70 | the hook reports expanded iff it renders more than one sub-column index |
| AdjustUserCount.DbActionFor | packages/server/billing/helpers/adjustUserCount.ts:131-137 | the three pause item types are exactly the ones that change the pause flag, and only unpausing clears it |
| AdjustUserCount.AuditEventFor | packages/server/billing/helpers/adjustUserCount.ts:139-145 | each event names its item types: added for adding, inactivated for both pause kinds, activated for unpausing, removed for removing |
| AdjustUserCount.AuditMatchesAction | packages/server/billing/helpers/adjustUserCount.ts:131-145 | the audit event always names the database action that ran: added/add, inactivated/pause, activated/unpause, removed/delete |
| AdjustUserCount.OrgIds | packages/server/billing/helpers/adjustUserCount.ts:157 | a single organization id becomes a one-element list, a list is kept |
| AdjustUserCount.ActiveDomainUpdate | packages/server/billing/helpers/adjustUserCount.ts:26-40 | no update when the domain was set by hand, the user's domain is the current one or not a company domain, or the guess is missing, empty or the current domain; an update iff none of these holds, and then it writes the non-empty guess, which differs from the old domain |
| AdjustUserCount.WithActiveDomain | packages/server/billing/helpers/adjustUserCount.ts:19-49 | only the active domain can change; the organization changes iff `ActiveDomainUpdate` fires, and then takes its domain |
| AdjustUserCount.WithActiveDomainIdempotent | packages/server/billing/helpers/adjustUserCount.ts:19-49 | running the update twice equals running it once |
| AdjustUserCount.OldOrganizationUser | packages/server/billing/helpers/adjustUserCount.ts:79-94 | the row found is the user's row for that organization with the latest grace date (undated rows last), and none is found iff there is no such row |
| AdjustUserCount.NewUserUntil | packages/server/billing/helpers/adjustUserCount.ts:97-100 | an old dated row's date is continued; the date is always that date, the period end or now, and now when neither of the others exists |
| AdjustUserCount.NewOrganizationUser | packages/server/billing/helpers/adjustUserCount.ts:91-107 | the new row belongs to the user and organization, on the organization's tier, active, not removed and dated |
| AdjustUserCount.NewOrganizationUserId | packages/server/billing/helpers/adjustUserCount.ts:92-102 | a re-added user's row reuses the id of their row for that organization with the latest grace date (the first row of the descending order); only with no such row is a new id used |
| AdjustUserCount.GracePeriodContinues | packages/server/billing/helpers/adjustUserCount.ts:96-100 | the new grace date is the latest date among the user's old rows for the organization; with no dated row it is the invoice period end, else now |
| AdjustUserCount.NewDocs | packages/server/billing/helpers/adjustUserCount.ts:91-108 | one doc per organization id, in order, each the user's active, not removed row on that organization's tier |
| AdjustUserCount.Upsert | packages/server/billing/helpers/adjustUserCount.ts:110 | the doc is stored; the table grows by one row iff no row carries the doc's id, and otherwise keeps its length |
| AdjustUserCount.UpsertAll | packages/server/billing/helpers/adjustUserCount.ts:110 | inserting the docs never shrinks the table and adds at most one row per doc |
| AdjustUserCount.UpsertEffect | packages/server/billing/helpers/adjustUserCount.ts:110 | an insert with conflict replace keeps ids unique, keeps every row with another id, and adds nothing but the doc |
| AdjustUserCount.UpsertAllUnique | packages/server/billing/helpers/adjustUserCount.ts:110 | inserting all docs keeps row ids unique |
| AdjustUserCount.UpsertAllStores | packages/server/billing/helpers/adjustUserCount.ts:110 | each doc's id ends up held by one of the docs |
| AdjustUserCount.UpsertAllKeeps | packages/server/billing/helpers/adjustUserCount.ts:110 | rows whose id no doc carries are kept |
| AdjustUserCount.UpsertAllOnly | packages/server/billing/helpers/adjustUserCount.ts:110 | afterwards the table holds only old rows and docs |
| AdjustUserCount.DocsSameIdSameOrg | packages/server/billing/helpers/adjustUserCount.ts:91-107 | two of addUser's docs with the same id are for the same organization |
| AdjustUserCount.AddUserGivesMembership | packages/server/billing/helpers/adjustUserCount.ts:91-110 | after addUser's insert the user has an active, not removed row in every organization it was added to |
| AdjustUserCount.PausedRow | packages/server/billing/helpers/adjustUserCount.ts:67-71 | only the `inactive` flag can change; it ends as requested iff the row is the user's and not removed, or already had that value |
| AdjustUserCount.RemovedRow | packages/server/billing/helpers/adjustUserCount.ts:121-127 | only `removedAt` can change; it ends as now iff the row is the user's in a listed organization, or already was now; every other row is returned as it was |
| AdjustUserCount.Database.ChangePause | packages/server/billing/helpers/adjustUserCount.ts:51-74 | the user's flag and the flag of each of the user's rows that are not removed become `inactive` in every organization, whatever ids were passed; nothing else changes |
| AdjustUserCount.Database.DeleteUser | packages/server/billing/helpers/adjustUserCount.ts:118-129 | exactly the user's rows in the given organizations get `removedAt = now`; nothing else changes |
| AdjustUserCount.Database.MaybeUpdateOrganizationActiveDomain | packages/server/billing/helpers/adjustUserCount.ts:19-49 | only that organization changes, to the outcome of `ActiveDomainUpdate` |
| AdjustUserCount.Database.BuildDocs | packages/server/billing/helpers/adjustUserCount.ts:91-108 | the docs are built iff every organization exists, one per id in order |
| AdjustUserCount.Database.UpsertDocs | packages/server/billing/helpers/adjustUserCount.ts:110 | the row table becomes the docs upserted in order, ids still unique |
| AdjustUserCount.Database.UpdateActiveDomains | packages/server/billing/helpers/adjustUserCount.ts:111-115 | each listed organization gets its active-domain update once, even when listed twice; the others are unchanged |
| AdjustUserCount.Database.AddUser | packages/server/billing/helpers/adjustUserCount.ts:76-116 | fails with nothing written iff an organization is missing; otherwise upserts the docs and updates the listed organizations' active domains, users and audit log untouched |
| AdjustUserCount.Database.AdjustUserCount | packages/server/billing/helpers/adjustUserCount.ts:150-165 | fails with nothing written iff the user is missing (or, when adding, an organization is missing); otherwise runs the action of the item type and appends one audit entry for all the organization ids with the matching event |

## Left out

- Adapter internals (the embeddings and generation inference clients, their network calls, and how an adapter derives its table name and dimensions) are not part of this model. A `describe` function parameter supplies the table name and dimensions of an embedding config.
- `JSON.parse` is not modelled: an environment variable is unset, or text together with its parse result.
- The exact error message texts are left out; each thrown error is one `ConfigError` case.
- ModelManager.ModelManager.MaybeCreateTables does not model the SQL text or the `pg_catalog` query. It models the table list as a name-to-dimensions map.
- ModelManager.ModelManager.MaybeCreateTables runs the adapters one after the other. The source launches them concurrently and does not await them. With two adapters of equal width on the same missing table, the source issues two guarded creates where the model issues one; the final catalog is the same. Storage errors are not modelled.
- ModelManager.ProvisionFirstWins: with two adapters of different widths on the same missing table, the source's table gets the width of whichever concurrent create runs first, which the model does not capture; the model always uses the first adapter's width. The table map routes that table to the last adapter (ModelManager.TableMapLastWins), so the width created and the adapter used can disagree.
- Console logging, analytics calls and the Stripe quantity handlers (`adjustUserCount.ts:167-174`, selecting paid organizations) are not part of this model.
- The audit insert is recorded as one call with its ids, user and event type. How it writes rows is not part of this model.
- getDomainFromEmail, the isCompanyDomain loader and getActiveDomainForOrgId are function parameters.
- Dates are integers, and `new Date()` is a `now` parameter.
- The OrganizationUser class is not part of this model. Its constructor is taken to generate an id when none is given, and to default `inactive` to false and `removedAt` to null.
- Generated ids are a parameter. AdjustUserCount.Database.AdjustUserCount and AdjustUserCount.Database.AddUser require them to be distinct and different from every existing row id, which is what the generator promises.
- Concurrent `Promise.all` branches in changePause and addUser run in sequence. They touch different records, except a repeated organization id, whose second update is shown to change nothing.
- The database's own ordering of rows with equal grace dates is not known: AdjustUserCount.OldOrganizationUser takes the earliest such row.
- React machinery is left out: `useState`, `useMemo`, the dependency list of `useLayoutEffect`, and the Relay `commitLocalUpdate` transaction, which becomes a direct update of the store's records. The `useSortNewReflectionGroup` hook (`useSubColumns.ts:22`) is not part of this model.
- DOM measurements and the element-size constants are parameters (`ColumnBody`, `Layout`). Sizes are natural numbers, not floating point.
- SubColumns.MaxSubColumnCount: requires the client height to differ from the card height. A zero denominator gives `Infinity`/`NaN` in JavaScript, which the model does not represent.
- SubColumns.InitialSubColumnCount: requires a positive prompt count and column width, for the same reason (division by zero).
- SubColumns.SubColumnsHook.LayoutEffect: when the phase width is present and non-zero, requires the same, for the same reason; with no phase width it returns before any division and requires nothing. It uses an `Option` for the nullable phase width.
- SubColumns.SubColumnsHook.ToggleWidth: requires the client height to differ from the card height when expanding from one sub-column. It computes the maximum only on that branch; the source computes it first and discards it when collapsing, so a zero denominator there has no effect.
