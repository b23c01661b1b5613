# IBGE geography import, modelled in Dafny

This project models the core of a Django application's `ibge` app. The app
loads Brazil's territorial division from the IBGE geography API into a
relational schema.

- Regions (`Regiao`) contain federative units (`Uf`).
- A unit contains mesoregions and intermediate regions.
- A mesoregion contains microregions. An intermediate region contains
  immediate regions.
- Municipalities (`Municipio`) optionally reference a microregion and an
  immediate region.
- Districts (`Distrito`) carry their municipality's whole ancestry chain.
- States (`Estado`) are a separate table that references a region.

The modelled code lives in `ibge/services.py` and `ibge/models.py`.

- **API cache** (`IBGEAPIService.get_data`). The cache key is derived from
  the URL. The read-through cache is modelled as a `Cache` class whose entry
  map is updated in place. The HTTP answer and the clock are parameters.
- **Validation and extraction** (`DataValidationService`). The two record
  validators are functions. `extract_hierarchy_data` is modelled twice:
  - as a function (`Validation.Extract`);
  - as the step-by-step method (`Validation.ExtractHierarchy`) proved equal
    to that function.
- **Imports.** Each of the three import services is modelled twice.
  - A pure specification function from the old store and the API records
    to the new store and the report: `MunicipioImport.ImportMunicipios`,
    `DistritoImport.ImportDistritos` and `EstadoImport.ImportEstados`. Its
    properties are proved as lemmas: validity, what is created, and
    idempotence.
  - An imperative `Persistence.Store` class with one map field per table.
    Its methods follow the source's loops, early exits, batches and
    `transaction.atomic` rollbacks. Each method is proved to return that
    function's report and leave its new state, or the old state after a
    rollback, and to preserve the store invariant whenever it held before.
    The imports run on any store the database accepts: the district
    invariant is the import's own, and an edit through the admin can
    break it.
- **Schema.** The schema is datatypes plus predicates:
  - primary keys that name their row and fit the column;
  - foreign keys that resolve;
  - the import's own invariant that every district's seven references are
    its municipality's chain.

  `ON DELETE CASCADE` is modelled as `Schema.CascadeDelete`. It is proved
  both sound (no reference dangles) and minimal (a row goes only when
  something it references goes).

Python behaviours the model keeps:

- **Validators.**
  - Truthiness tests run before `int()`.
  - `"0"` is a truthy id that becomes `0`.
  - A name made only of whitespace is truthy and is stored empty.
  - `int()` on a string id ignores whitespace around the digits.
  - A non-dict record raises AttributeError.
- **Hierarchy extraction.** `extract_hierarchy_data` swallows only
  KeyError and TypeError. A truthy non-dict value at one of the guarded
  levels raises AttributeError, and that propagates out of
  `import_municipios`: the `except (KeyError, TypeError)` at the end of
  `extract_hierarchy_data` does not catch it.
- **Imediatas import.** `_bulk_create_regioes_imediatas` inserts a row
  whose `regiao_intermediaria_id` is None when the record has no
  intermediate region. That column is NOT NULL, so the whole municipality
  transaction fails.
- **Duplicate ids.** Two records with the same new id, in the municipality,
  state or district input, make `bulk_create` fail, so nothing is written.
- **Last record wins.** It wins in the level dicts of
  `_create_hierarchy_objects` and in the regions gathered by
  `import_estados`.
- **District ids.**
  - A string id never equals a stored integer id, so the
    already-stored test never skips it.
  - A district whose municipality has a microregion but no immediate
    region is queued, and then fails the NOT NULL column at
    `bulk_create`. The whole district transaction rolls back.
- **Cache.**
  - A cached JSON `null` counts as a miss.
  - Distinct URLs can share a cache key (`a/b`, `a:b`, `a_b`).
  - The `len(data)` in the log lines raises TypeError on data without a
    length. On a miss this happens after the data has been cached.

Files:

| file | module | contents |
|---|---|---|
| `wrappers.dfy` | `Wrappers` | `Option`, `Result`, and `Kept`, the loop over results that stops at the first failure |
| `pyjson.dfy` | `PyJson` | decoded JSON, Python exceptions, `.get`, `[]`, truthiness, `int()`, `str.strip` |
| `schema.dfy` | `Schema` | row types, the store, integrity constraints, cascade delete |
| `validation.dfy` | `Validation` | validators, hierarchy extraction |
| `writer.dfy` | `Writer` | `bulk_create` and the `_bulk_create_*` pattern |
| `merge.dfy` | `Merging` | the level dicts of `_create_hierarchy_objects` |
| `municipios.dfy` | `MunicipioImport` | `import_municipios` as a function, with its theorems |
| `distritos.dfy` | `DistritoImport` | `import_distritos` and `_load_municipios_map`, with their theorems |
| `estados.dfy` | `EstadoImport` | `import_estados`, with its theorems |
| `store.dfy` | `Persistence` | the `Store` class and the imperative loops |
| `apicache.dfy` | `ApiCache` | cache key and `get_data` |

## Model

| member | source | states |
|---|---|---|
| PyJson.Get | ibge/services.py:102-105 | `x.get(k)`: the value, or None when the key is absent, and AttributeError on a non-dict; a definition, whose use in the extraction guard is stated by `Validation.Extract` |
| PyJson.Index | ibge/services.py:398 | `x[k]`: KeyError on a dict without the key, TypeError on a non-dict; a definition, whose consequences are stated by `DistritoImport.ClassifyErr` and `EstadoImport.ImportEstadosNoRegiao` |
| PyJson.PyInt | ibge/services.py:71 | `int(data['id'])` on a decoded value, a string allowed whitespace around its digits; a definition, stated through `Validation.ValidateRecord` and `Validation.StringZeroIdPasses` |
| PyJson.IntKey | ibge/services.py:398 | the int a value stands for as a set member or dict key, TypeError for an unhashable one; a definition, stated through `DistritoImport.StringIdNeverStored` and `DistritoImport.QueueOk` |
| PyJson.Strip | ibge/services.py:72 | `str.strip()`, the right strip of the left strip; its properties are `PyJson.StripBounds`, `PyJson.StripSlice`, `PyJson.StripEnds` and `PyJson.StripTwice` |
| PyJson.LeadingSpaces | ibge/services.py:72 | `lstrip` drops the longest prefix made only of whitespace: everything before the count is whitespace and the next character is not |
| PyJson.TrailingStart | ibge/services.py:72 | `rstrip` drops the longest suffix made only of whitespace: everything from the position on is whitespace and the character before it is not |
| PyJson.StripBounds | ibge/services.py:72 | the result of `strip()` is the slice between two positions of the input, with only whitespace before and after them and no whitespace at either end of the slice |
| PyJson.StripSlice | ibge/services.py:72 | `strip()` returns a contiguous slice of its input with only whitespace removed at both ends |
| PyJson.StripEnds | ibge/services.py:72 | the result of `strip()` neither starts nor ends with whitespace |
| PyJson.StripTwice | ibge/services.py:72 | stripping twice is stripping once |
| Validation.ValidateMunicipio | ibge/services.py:61-73 | `validate_municipio_data`: the shared validator with the municipality messages; its contract is `Validation.ValidateRecord` |
| Validation.ValidateDistrito | ibge/services.py:75-87 | `validate_distrito_data`: the shared validator with the district messages; its contract is `Validation.ValidateRecord` |
| Validation.ValidateRecord | ibge/services.py:61-87 | success exactly when the record is a dict with truthy `id` and `nome`, `int(id)` succeeds and `nome` is a string; a falsy id gives "sem ID", a truthy id with a falsy name gives "sem nome"; a non-dict raises AttributeError; the result is `int(id)` and the stripped name, never 0 for an integer id |
| Validation.BlankNamePassesAsEmpty | ibge/services.py:61-87 | for every accepted id and every non-empty name made only of whitespace, either validator accepts the record and its name becomes the empty string |
| Validation.StringZeroIdPasses | ibge/services.py:77-85 | the string id `"0"` is truthy, passes, and yields id 0 |
| Validation.ChainGuard | ibge/services.py:102-105 | the guard of the `try`, outside the `except`: AttributeError when a truthy level is not a dict; how it decides extraction is stated by `Validation.Extract` |
| Validation.Fill | ibge/services.py:107-157 | the body of the `try` past the guard; its contract is `Validation.FillLevels` |
| Validation.FillImediata | ibge/services.py:137-152 | the immediate and intermediate levels of the `try` body; its contract is `Validation.FillImediataLevels` |
| Validation.Extract | ibge/services.py:89-157 | it fails exactly when the guard raises, and then with AttributeError; a falsy guard leaves every level None; past a truthy guard the levels fill in order (region, UF, mesoregion, microregion, immediate region when its node is truthy, intermediate region when its node is truthy), each present exactly when the level before it is and its own read succeeds, and equal to the row that read builds from its node, so a KeyError or TypeError keeps the levels filled before it; the parent links of the fragment agree |
| Validation.FillLevels | ibge/services.py:107-152 | the levels of the `try` body, each present exactly when the one before it is and its own read succeeds, and built by that read |
| Validation.FillImediataLevels | ibge/services.py:137-152 | the immediate region is read from its node when that is truthy, and the intermediate region from its own node after it; the levels filled before are not touched |
| Validation.ExtractHierarchy | ibge/services.py:89-157 | the imperative extraction, which fills the fields in order and keeps them when a KeyError or TypeError is raised, returns `Extract` |
| Writer.InsertRows | ibge/services.py:374 | a failing `bulk_create` fails with a database error |
| Writer.KeysLast | ibge/services.py:374 | the insert conditions split at the last row: the prefix is fresh and distinct, and the last key is new, fits and is not repeated |
| Writer.InsertRowsOk | ibge/services.py:374 | `bulk_create` succeeds exactly when every key is not stored, fits its column and occurs once; it adds exactly those keys |
| Writer.InsertRowsContents | ibge/services.py:374 | a successful insert keeps every stored row, stores each given row under its key and grows the table by the number of rows |
| Writer.InsertRowsSplit | ibge/services.py:426-428 | inserting `a + b` is inserting `a` and then `b` into the result, failing when either fails |
| Writer.InsertRowsNew | ibge/services.py:374 | each key the insert added comes from one of the rows, holds that row and fits the column |
| Writer.CreateMissing | ibge/services.py:247-350 | a `_bulk_create_*` helper succeeds exactly when every new candidate's id fits the column; afterwards the keys are the stored ones plus the candidates', stored rows are unchanged and new ones are the candidates; a failure is a database error |
| Writer.CreateMissingEmpty | ibge/services.py:249-250 | an empty candidate list changes nothing |
| Writer.CreateMissingIdempotent | ibge/services.py:252-258 | a second run with the same candidates inserts nothing |
| Writer.CreateMissingImediatas | ibge/services.py:298-317 | success exactly when every new fragment has an intermediate region and a fitting id; the stored rows are kept and each new one is built from its fragment |
| Writer.CreateMissingImediatasIdempotent | ibge/services.py:303-312 | a second run with the same fragments inserts nothing |
| Merging.MergeLevel | ibge/services.py:213-238 | one level dict of `_create_hierarchy_objects`; its contract is `Merging.MergeLevelSpec` and `Merging.MergeStep` |
| Merging.Merge | ibge/services.py:204-238 | the six level dicts; their properties are `Merging.MergeSound` and `Persistence.MergeFragments` |
| Merging.MergeLevelSpec | ibge/services.py:213-238 | a level dict holds exactly the ids of the fragments present at that level, each under its own id, and the value is the fragment of the last item carrying that id |
| Merging.MergeStep | ibge/services.py:213-238 | merging one more item folds its fragment into the previous dicts |
| Merging.AddFragmentConsistent | ibge/services.py:213-238 | folding in a consistent fragment keeps every candidate's parent among the candidates and covers the fragment |
| Merging.AddFragmentKeepsCover | ibge/services.py:213-238 | folding in a fragment keeps the earlier fragments covered |
| Merging.MergeSound | ibge/services.py:204-238 | the merged dicts of consistent fragments are consistent, keyed by their own ids, and cover every level of every item |
| MunicipioImport.Record | ibge/services.py:176-185 | one pass of the record loop; its contract is `MunicipioImport.RecordAdmits` and `MunicipioImport.CollectIsKept` |
| MunicipioImport.Collect | ibge/services.py:174-185 | the number of kept records is at most the number of raw records |
| MunicipioImport.CollectOk | ibge/services.py:174-185 | the loop completes exactly when no record raises anything other than ValidationError |
| MunicipioImport.CollectIsKept | ibge/services.py:174-185 | the loop is the fold, record by record, of each record's pass: skipped, one item kept, or an exception that ends it |
| MunicipioImport.RecordAdmits | ibge/services.py:176-183 | a pass that keeps an item keeps the record's validated fields and its hierarchy; a record the validator accepts is kept unless its pass raises |
| MunicipioImport.StringIdKept | ibge/services.py:176-183 | a municipality record whose id is the string `"0"` passes the loop as id 0 with an empty hierarchy |
| MunicipioImport.NullIdSkipped | ibge/services.py:176-184 | a municipality record with a null id is skipped with a ValidationError, whatever its name |
| MunicipioImport.CollectStops | ibge/services.py:174-185 | the first exception ends the loop with that exception |
| MunicipioImport.CollectConsistent | ibge/services.py:176-183 | every kept hierarchy is consistent |
| MunicipioImport.CollectSound | ibge/services.py:176-183 | each kept item comes from a record the validator accepted, with that record's hierarchy |
| MunicipioImport.CollectComplete | ibge/services.py:176-183 | every accepted record gives a kept item |
| MunicipioImport.PutRegioes | ibge/services.py:247-262 | `_bulk_create_regioes` on the region table; what it writes is `Writer.CreateMissing`, and that it keeps the store valid is `MunicipioImport.PutRegioesValid` |
| MunicipioImport.PutUfs | ibge/services.py:264-279 | `_bulk_create_ufs`; stated by `Writer.CreateMissing` and `MunicipioImport.PutUfsValid` |
| MunicipioImport.PutIntermediarias | ibge/services.py:281-296 | `_bulk_create_regioes_intermediarias`; stated by `Writer.CreateMissing` and `MunicipioImport.PutIntermediariasValid` |
| MunicipioImport.PutImediatas | ibge/services.py:298-317 | `_bulk_create_regioes_imediatas`; stated by `Writer.CreateMissingImediatas` and `MunicipioImport.PutImediatasValid` |
| MunicipioImport.PutMesorregioes | ibge/services.py:319-334 | `_bulk_create_mesorregioes`; stated by `Writer.CreateMissing` and `MunicipioImport.PutMesorregioesValid` |
| MunicipioImport.PutMicrorregioes | ibge/services.py:336-351 | `_bulk_create_microrregioes`; stated by `Writer.CreateMissing` and `MunicipioImport.PutMicrorregioesValid` |
| MunicipioImport.WriteHierarchy | ibge/services.py:240-245 | the six writes parents first; its properties are `MunicipioImport.WriteHierarchyValid`, `MunicipioImport.WriteHierarchyExtends` and `MunicipioImport.WriteHierarchyPresent` |
| MunicipioImport.PutRegioesValid | ibge/services.py:247-262 | writing regions into a valid store keeps it valid |
| MunicipioImport.PutUfsValid | ibge/services.py:264-279 | writing UFs whose regions are stored keeps the store valid |
| MunicipioImport.PutIntermediariasValid | ibge/services.py:281-296 | writing intermediate regions whose UFs are stored keeps the store valid |
| MunicipioImport.PutImediatasValid | ibge/services.py:298-317 | writing immediate regions whose intermediate regions are stored keeps the store valid |
| MunicipioImport.PutMesorregioesValid | ibge/services.py:319-334 | writing mesoregions whose UFs are stored keeps the store valid |
| MunicipioImport.PutMicrorregioesValid | ibge/services.py:336-351 | writing microregions whose mesoregions are stored keeps the store valid |
| MunicipioImport.FromMesorregioesValid | ibge/services.py:244-245 | the last two levels keep the store valid |
| MunicipioImport.FromImediatasValid | ibge/services.py:243-245 | the last three levels keep the store valid |
| MunicipioImport.FromIntermediariasValid | ibge/services.py:242-245 | the last four levels keep the store valid |
| MunicipioImport.FromUfsValid | ibge/services.py:241-245 | the last five levels keep the store valid |
| MunicipioImport.WriteHierarchyValid | ibge/services.py:240-245 | writing consistent levels parents first keeps a valid store valid |
| MunicipioImport.WriteHierarchyExtends | ibge/services.py:240-245 | the hierarchy write stores every candidate, keeps every stored row and leaves states, municipalities and districts alone |
| MunicipioImport.CreateMissingPresent | ibge/services.py:252-258 | candidates that are all stored leave the table unchanged |
| MunicipioImport.CreateMissingImediatasPresent | ibge/services.py:303-312 | immediate regions that are all stored leave the table unchanged |
| MunicipioImport.WriteHierarchyPresent | ibge/services.py:240-245 | a store that already holds every candidate is left as it is |
| MunicipioImport.MunicipioRow | ibge/services.py:363-371 | the `Municipio(...)` built for one item; how the queue uses it is `MunicipioImport.QueuedFromItems` and `MunicipioImport.NewItemsQueued` |
| MunicipioImport.MunicipiosToCreate | ibge/services.py:353-371 | no more rows are queued than there are items |
| MunicipioImport.QueuedAreNew | ibge/services.py:362 | only municipalities whose id is not stored are queued |
| MunicipioImport.QueuedFromItems | ibge/services.py:358-371 | each queued row is the row built from one item, with its references taken from the fragment or None |
| MunicipioImport.NewItemsQueued | ibge/services.py:358-371 | every item whose id is not stored is queued |
| MunicipioImport.NothingQueued | ibge/services.py:362 | nothing is queued when every item's id is stored |
| MunicipioImport.QueuedRefsStored | ibge/services.py:187-189 | after the hierarchy write, every queued row references stored parents |
| MunicipioImport.NewMunicipiosValid | ibge/services.py:187-189 | inserting the queued rows keeps the store valid |
| MunicipioImport.NewMunicipioRow | ibge/services.py:187-189 | each municipality row after the insert is keyed by its id, fits the column and references stored parents |
| MunicipioImport.SaveMunicipios | ibge/services.py:187-189 | the `transaction.atomic` block: the hierarchy write, then the municipality insert; stated by `MunicipioImport.ImportedItems` and `Persistence.Store.SaveMunicipios` |
| MunicipioImport.ImportMunicipios | ibge/services.py:168-202 | `import_municipios` over the store and the API's records; its properties are `MunicipioImport.ImportMunicipiosValid`, `MunicipioImport.ImportMunicipiosCreates` and `MunicipioImport.ImportMunicipiosIdempotent` |
| MunicipioImport.ImportedItems | ibge/services.py:174-189 | a successful import collected its items and saved them |
| MunicipioImport.ImportMunicipiosValid | ibge/services.py:168-202 | a successful import keeps the store valid and every district matched, keeps every stored row and touches neither states nor districts |
| MunicipioImport.ImportMunicipiosCreates | ibge/services.py:187-198 | `created` is the number of rows the municipality table grew by; every accepted record's municipality is stored afterwards, a new one as the row built from its item |
| MunicipioImport.ImportMunicipiosIdempotent | ibge/services.py:168-202 | a second run on the same records creates nothing and changes nothing |
| DistritoImport.MunicipioRef | ibge/services.py:403-404 | `distrito_data['municipio']['id']` as a key of the municipality map; its failures only skip the record, as `DistritoImport.ClassifyErr` states |
| DistritoImport.Ancestry | ibge/services.py:405-417 | the `Distrito(...)` built from the municipality `_load_municipios_map` loads; its contract is `DistritoImport.AncestrySpec` |
| DistritoImport.Classify | ibge/services.py:397-421 | one pass of the district loop; its contract is `DistritoImport.ClassifyErr`, `DistritoImport.StoredIdSkipped`, `DistritoImport.ClassifyQueued` and `DistritoImport.ClassifyComplete` |
| DistritoImport.Queue | ibge/services.py:396-421 | `distritos_to_create`; its contract is `DistritoImport.QueueOk`, `DistritoImport.QueueSound` and `DistritoImport.QueueComplete` |
| DistritoImport.InsertDistritos | ibge/services.py:428 | `Distrito.objects.bulk_create`; its contract is `DistritoImport.InsertDistritosContents` and `DistritoImport.NullImediataFails` |
| DistritoImport.ImportDistritos | ibge/services.py:387-442 | `import_distritos` over the store and the API's records; its properties are `DistritoImport.ImportDistritosValid`, `DistritoImport.ImportDistritosCreates`, `DistritoImport.ImportDistritosComplete` and `DistritoImport.ImportDistritosIdempotent` |
| DistritoImport.QueueStops | ibge/services.py:397-421 | the first exception of the id test ends the loop |
| DistritoImport.Rows | ibge/services.py:405-417 | one stored row per queued district, in order |
| DistritoImport.AncestrySpec | ibge/services.py:405-417 | the queued district's references are the chain of its municipality as `_load_municipios_map` loads it; the two through the immediate region are None exactly when the municipality has none |
| DistritoImport.PendingRowMatches | ibge/services.py:405-417 | once both references through the immediate region are set, the stored row matches the chain |
| DistritoImport.ClassifyErr | ibge/services.py:398 | only a record without an id, or with an unhashable one, stops the import |
| DistritoImport.StoredIdSkipped | ibge/services.py:398-399 | a record whose id is stored is skipped before validation |
| DistritoImport.StringIdNeverStored | ibge/services.py:398 | a string id never matches a stored integer id |
| DistritoImport.ClassifyQueued | ibge/services.py:397-421 | a queued district has a new id and was accepted by the validator; its municipality is stored with a microregion, and its chain is copied |
| DistritoImport.ClassifyComplete | ibge/services.py:397-421 | every record that passes every test is queued |
| DistritoImport.QueueOk | ibge/services.py:397-421 | the loop completes exactly when every record has a hashable id |
| DistritoImport.QueueIsKept | ibge/services.py:397-421 | the loop is the fold, record by record, of what each record classifies as |
| DistritoImport.QueueSound | ibge/services.py:397-421 | each queued district is what one record classified as (the order is stated by `DistritoImport.QueueIsKept`) |
| DistritoImport.QueueComplete | ibge/services.py:397-421 | each record that classifies as a district is queued |
| DistritoImport.QueueEmpty | ibge/services.py:397-421 | nothing is queued when every record is skipped |
| DistritoImport.RowsSplit | ibge/services.py:426-427 | the rows of a concatenated queue are the concatenated rows |
| DistritoImport.InsertDistritosSplit | ibge/services.py:425-429 | inserting in consecutive batches inside one transaction is inserting the queue at once |
| DistritoImport.NullSplit | ibge/services.py:415-429 | a null reference in either batch fails the first batch or, after it succeeds, the second |
| DistritoImport.NextBatch | ibge/services.py:426-429 | the saved prefix after one more batch is the previous prefix followed by that batch |
| DistritoImport.BatchFails | ibge/services.py:426-429 | a failing prefix fails the whole queue |
| DistritoImport.InsertDistritosContents | ibge/services.py:428 | a successful insert had no null reference, kept every stored row and stored each district |
| DistritoImport.NullImediataFails | ibge/services.py:415-416 | a district without an immediate region makes `bulk_create` fail |
| DistritoImport.QueueMatches | ibge/services.py:405-417 | every queued district carries its municipality's chain |
| DistritoImport.NewDistritosValid | ibge/services.py:425-429 | writing districts that carry their chains keeps the store valid and every district matched |
| DistritoImport.NewDistritoRow | ibge/services.py:425-429 | each district row after the write is keyed by its id, fits 64 bits, matches its municipality's chain and references stored rows |
| DistritoImport.ImportDistritosValid | ibge/services.py:387-442 | a successful import keeps the store valid and every district matched, keeps every stored row and writes only districts |
| DistritoImport.ImportDistritosCreates | ibge/services.py:423-438 | `created` is the number of queued districts and the number the table grew by; each is stored under its id as the row built from its chain |
| DistritoImport.ImportDistritosNullImediata | ibge/services.py:415-429 | a queued district whose municipality has no immediate region fails the import |
| DistritoImport.SkippedStaysSkipped | ibge/services.py:397-421 | a skipped record stays skipped once more districts are stored |
| DistritoImport.RerunSkips | ibge/services.py:397-421 | against a store that kept the old rows, changed only districts and holds every queued id, every record is skipped |
| DistritoImport.ImportDistritosIdempotent | ibge/services.py:387-442 | with integer ids, a second run queues nothing and changes nothing |
| DistritoImport.ImportDistritosComplete | ibge/services.py:387-442 | after a successful import, a record that passes every test is stored as the row carrying its municipality's chain |
| DistritoImport.RepeatedIdFails | ibge/services.py:428 | two queued districts with the same id fail `bulk_create` |
| EstadoImport.RegiaoOf | ibge/services.py:474-475 | the region read from a record is `estado['regiao']`, and its id is `['id']` |
| EstadoImport.Gather | ibge/services.py:473-476 | each gathered record is a typed dict stored under its own id |
| EstadoImport.GatherStops | ibge/services.py:473-476 | the first exception ends the loop |
| EstadoImport.GatherOk | ibge/services.py:473-476 | the loop completes exactly when every record names a region with an id |
| EstadoImport.GatherStep | ibge/services.py:473-476 | one more record stores its region under the id it names, over the dict of the records before it |
| EstadoImport.NamesOneId | ibge/services.py:475 | a record names one region id |
| EstadoImport.GatherKeysSound | ibge/services.py:473-476 | each gathered id is named by some record |
| EstadoImport.GatherKeysComplete | ibge/services.py:473-476 | each id a record names is gathered |
| EstadoImport.GatherKeys | ibge/services.py:473-476 | the gathered ids are exactly the ids the records name |
| EstadoImport.LastNamerExtend | ibge/services.py:475 | a record naming another region does not change which record is last for an id |
| EstadoImport.GatherLastWins | ibge/services.py:473-476 | the region kept for an id is the one from the last record naming it |
| EstadoImport.NewRegioes | ibge/services.py:479-484 | `new_regioes`; its contract is `EstadoImport.NewRegioesSpec` |
| EstadoImport.NewEstados | ibge/services.py:491-501 | `new_estados`; its contract is `EstadoImport.NewEstadosSound` and `EstadoImport.NewEstadosComplete` |
| EstadoImport.SaveEstados | ibge/services.py:478-505 | the writes of the transaction; stated by `EstadoImport.ImportEstadosParts` and `Persistence.Store.SaveEstados` |
| EstadoImport.ImportEstados | ibge/services.py:463-516 | `import_estados` over the store and the API's records; its properties are `EstadoImport.ImportEstadosValid`, `EstadoImport.ImportEstadosRegioes`, `EstadoImport.ImportEstadosEstados` and `EstadoImport.ImportEstadosIdempotent` |
| EstadoImport.NewRegioesSpec | ibge/services.py:479-484 | the regions to create are exactly the gathered ids not stored, each built from its record; a missing `sigla` or `nome` on one of them raises |
| EstadoImport.NewEstadosSound | ibge/services.py:491-501 | every state row to create comes from one record and has an id that is not stored |
| EstadoImport.NewEstadosComplete | ibge/services.py:491-501 | every record whose id is not stored gives a state row with that id |
| EstadoImport.NewEstadosNone | ibge/services.py:491-501 | nothing is created when every id is stored |
| EstadoImport.NewEstadosIds | ibge/services.py:491-501 | every record read has an integer id |
| EstadoImport.ImportEstadosParts | ibge/services.py:469-505 | a successful import gathered, built and inserted its regions and states |
| EstadoImport.RowFromLast | ibge/services.py:480-484 | a region row created from the last record naming it is built from that record |
| EstadoImport.NewRegioesBuilt | ibge/services.py:479-484 | each region row the import adds fits the column and is built from the last record naming it |
| EstadoImport.RegioesWritten | ibge/services.py:479-488 | the region table keeps its rows, gains exactly the named ids, and each new region fits and is built from the last record naming it |
| EstadoImport.EstadosWritten | ibge/services.py:491-505 | the state table keeps its rows, holds every new record's id, and each new state fits and comes from a record |
| EstadoImport.ImportEstadosRegioes | ibge/services.py:469-488 | after the import, the regions are the old ones plus every named one, each new one built from the last record naming it |
| EstadoImport.ImportEstadosEstados | ibge/services.py:469-505 | after the import, the states are the old ones plus one per record with a new id, each built from a record |
| EstadoImport.YieldsNames | ibge/services.py:494-498 | a state row references the region its record names |
| EstadoImport.ImportEstadosValid | ibge/services.py:463-516 | the import keeps the store valid and every district matched, keeps every stored row and writes only regions and states |
| EstadoImport.TwoTablesValid | ibge/services.py:469-505 | new regions and states that are keyed right, fit, and reference stored regions keep the store valid |
| EstadoImport.NewRegioesNone | ibge/services.py:479-484 | no region is created when every gathered id is stored |
| EstadoImport.ImportEstadosIdempotent | ibge/services.py:463-512 | a second run right after success writes nothing and reports zero created |
| EstadoImport.ImportEstadosNoRegiao | ibge/services.py:474-475 | a record without a region, or a region without an id, aborts the import |
| EstadoImport.ImportEstadosRepeatedId | ibge/services.py:491-504 | two new records with the same id make `bulk_create` fail |
| EstadoImport.NewEstadosTwice | ibge/services.py:491-501 | two records with the same new id give two rows with that id |
| Schema.EmptyDbValid | ibge/models.py:5-217 | the empty database meets every constraint and the district invariant |
| Schema.ExtendsKeepsDenormalized | ibge/models.py:179-210 | adding rows elsewhere keeps every district matching its municipality's chain |
| Schema.ExtendsKeepsMunicipioRefs | ibge/models.py:163-164 | adding rows never breaks a municipality's references |
| Schema.ExtendsKeepsDistritoRefs | ibge/models.py:204-210 | adding rows never breaks a district's references |
| Schema.ExtendsKeepsRefs | ibge/models.py:40-210 | adding rows and changing none keeps every foreign key of each unchanged table resolving |
| Schema.CascadeDelete | ibge/models.py:40-210 | the result is contained in the store and none of the deleted keys remain |
| Schema.OrphansGone | ibge/models.py:40 | removing every orphan leaves no child pointing at a removed parent |
| Schema.CascadeKeys | ibge/models.py:16-202 | after a cascade, the keys still name their rows and fit their columns |
| Schema.CascadeHierarchyRefs | ibge/models.py:40-138 | after a cascade, no hierarchy reference dangles |
| Schema.CascadeMunicipioRefs | ibge/models.py:163-164 | after a cascade, no municipality reference dangles |
| Schema.CascadeDistritoRefs | ibge/models.py:204-210 | after a cascade, no district reference dangles |
| Schema.CascadeDeleteKeepsValid | ibge/models.py:5-217 | cascade delete keeps every integrity constraint |
| Schema.CascadeDeleteKeepsDenormalized | ibge/models.py:179-210 | surviving districts still match their chains |
| Schema.SurvivesIff | ibge/models.py:40 | a child survives exactly when it is not a seed and its parent survives |
| Schema.MinimalUfs | ibge/models.py:40 | a UF survives exactly when it was not deleted and its region survives |
| Schema.MinimalEstados | ibge/models.py:138 | a state survives exactly when it was not deleted and its region survives |
| Schema.MinimalIntermediarias | ibge/models.py:59 | an intermediate region survives exactly when it was not deleted and its UF survives |
| Schema.MinimalImediatas | ibge/models.py:78 | an immediate region survives exactly when it was not deleted and its intermediate region survives |
| Schema.MinimalMesorregioes | ibge/models.py:97 | a mesoregion survives exactly when it was not deleted and its UF survives |
| Schema.MinimalMicrorregioes | ibge/models.py:116 | a microregion survives exactly when it was not deleted and its mesoregion survives |
| Schema.MinimalMunicipios | ibge/models.py:163-164 | a municipality survives exactly when it was not deleted and its non-null references survive |
| Schema.MinimalDistritos | ibge/models.py:204-210 | a district survives exactly when it was not deleted and all seven references survive |
| Schema.DistritoSurvives | ibge/models.py:204-210 | one district survives a cascade exactly when it was not deleted and its seven references survive |
| Schema.CascadeDeleteMinimal | ibge/models.py:5-217 | the cascade removes a row exactly when it was deleted or something it references was removed, on every table |
| Persistence.MergeFragments | ibge/services.py:213-238 | the loop's six dicts are the merged levels |
| Persistence.CollectRecords | ibge/services.py:174-185 | the loop returns `Collect` and stops at the first exception that is not a ValidationError |
| Persistence.QueueRecords | ibge/services.py:396-421 | the loop returns `Queue` |
| Persistence.GatherRegioes | ibge/services.py:470-476 | the loop returns `Gather` |
| Persistence.Store.constructor | ibge/models.py:5-217 | the store holds the given tables |
| Persistence.Store.Restore | ibge/services.py:187 | a rollback puts back every table |
| Persistence.Store.BulkCreateRegioes | ibge/services.py:247-262 | success exactly when the region write succeeds; the new tables on success, unchanged tables and a database error on failure |
| Persistence.Store.BulkCreateUfs | ibge/services.py:264-279 | as for regions, on the UF table |
| Persistence.Store.BulkCreateIntermediarias | ibge/services.py:281-296 | as for regions, on the intermediate-region table |
| Persistence.Store.BulkCreateImediatas | ibge/services.py:298-317 | as for regions, on the immediate-region table |
| Persistence.Store.BulkCreateMesorregioes | ibge/services.py:319-334 | as for regions, on the mesoregion table |
| Persistence.Store.BulkCreateMicrorregioes | ibge/services.py:336-351 | as for regions, on the microregion table |
| Persistence.Store.CreateHierarchyObjects | ibge/services.py:204-245 | succeeds exactly when the hierarchy write of the merged levels succeeds, and then leaves its tables; a failure is a database error |
| Persistence.Store.WriteLevels | ibge/services.py:240-245 | the six helpers in order succeed exactly when the hierarchy write does, and then leave its tables; a failure is a database error |
| Persistence.Store.CreateMunicipios | ibge/services.py:353-376 | succeeds exactly when inserting the queued rows succeeds, returns their number and stores them; a failure changes nothing |
| Persistence.Store.SaveMunicipios | ibge/services.py:187-189 | the atomic block returns the count and leaves the new tables, or rolls back to the old ones |
| Persistence.Store.ImportMunicipios | ibge/services.py:168-202 | on any store, returns the report of `ImportMunicipios` and leaves its tables, or the old tables after an exception; a store that met the constraints and the district invariant still meets both |
| Persistence.Store.InsertBatch | ibge/services.py:427-428 | one batch's `bulk_create` extends the saved prefix of the queue by that batch; when it fails, the whole queue fails and nothing is written |
| Persistence.Store.SaveBatches | ibge/services.py:423-429 | the batch loop succeeds exactly when inserting the queue at once does, counts the queue, and rolls back on failure |
| Persistence.Store.ImportDistritos | ibge/services.py:387-442 | on a store that meets the schema's constraints, returns the report of `ImportDistritos` and leaves its tables, or the old tables after an exception; a store that also met the district invariant still meets both |
| Persistence.Store.SaveEstados | ibge/services.py:478-505 | the region and state writes return the report and leave the new tables, or roll back |
| Persistence.Store.ImportEstados | ibge/services.py:463-516 | on any store, returns the report of `ImportEstados` and leaves its tables, or the old tables after an exception; a store that met the constraints still does, and one that also met the district invariant still meets it |
| ApiCache.Url | ibge/services.py:23 | `f"{BASE_URL}/{endpoint}"`; a definition used by `ApiCache.Cache.GetData` |
| ApiCache.Replace | ibge/services.py:24 | `str.replace` of one character; its contract is `ApiCache.ReplaceSpec` |
| ApiCache.CacheKey | ibge/services.py:24 | the cache key; its contract is `ApiCache.CacheKeySpec` and `ApiCache.SameKey` |
| ApiCache.Lookup | ibge/services.py:25-27 | `cache.get(key)` compared with None; its contract is `ApiCache.StoredIsHit` and `ApiCache.StoreIsLocal` |
| ApiCache.Logged | ibge/services.py:33-38 | the `len(data)` of the log lines; how `get_data` uses it is `ApiCache.Cache.GetData` |
| ApiCache.ReplaceSpec | ibge/services.py:24 | `replace` keeps the length and rewrites exactly the occurrences of the character |
| ApiCache.CacheKeySpec | ibge/services.py:23-24 | the key is `api_data_` followed by the URL with every `/` and `:` turned into `_`, so neither character appears after the prefix |
| ApiCache.SameKey | ibge/services.py:23-24 | two URLs share a key exactly when they have the same length and agree once `/` and `:` are read as `_` |
| ApiCache.CollidingUrls | ibge/services.py:24 | `a/b`, `a:b` and `a_b` share one key |
| ApiCache.StoredIsHit | ibge/services.py:18-32 | a stored non-null value is a hit until its timeout |
| ApiCache.StoreIsLocal | ibge/services.py:32 | storing under one key leaves every other key's answer unchanged |
| ApiCache.Cache.constructor | ibge/services.py:25 | the cache starts empty |
| ApiCache.Cache.GetData | ibge/services.py:21-40 | the API is called exactly on a miss; a hit returns the cached data and leaves the cache unchanged; a miss returns the API's answer and caches it for `CACHE_TIMEOUT` seconds; an API exception propagates and caches nothing; data without a length raises TypeError |

## Left out

- The HTTP request, `raise_for_status` and JSON decoding are a parameter of `GetData`: the API's answer, or the exception it raises.
- The cache's back end is a map, and the clock is a parameter. There is no eviction other than expiry.
- Logging is left out. Only the `len(data)` of `get_data`'s log lines is modelled, because it can raise.
- Floats in JSON are not modelled.
- `int()` on a string accepts whitespace around an optional sign and ASCII digits. Unicode digits, `_` digit separators, and `int()` on floats or bytes are left out. `str.strip` removes exactly the characters `str.isspace` accepts, listed in `PyJson.IsSpace`.
- The typing preconditions (`MunicipioTyped`, `EstadoTyped`, `LeafTypes` and district records read through `Get`/`Index`) assume the JSON leaves have the API's types. An id is an integer and a name or a `sigla` is a string inside the nested levels that the hierarchy extraction reads and in the state records. The municipality record's own `id` and `nome` are not typed, so a string id such as `"0"` or `" 12 "`, or a null id, reaches the municipality import through the validator. Records with other leaf types are outside the model.
- The database's own foreign-key check is not modelled. Instead, the imports are proved never to write a dangling reference, so it would never fire.
- Dict and queryset order is not modelled. The level dicts and `_load_municipios_map` are maps, and `bulk_create` of a list of rows fails as a whole, so the order of rows within one statement does not affect the outcome.
- Django's `bulk_create(batch_size=...)` splitting of one statement into several is not modelled. Inside a transaction it has the same outcome as one statement.
- The `'new_estados' in locals()` tests in the report of `import_estados` always hold once the transaction completed, so the counts are the list lengths.
- `Persistence.Store.CreateHierarchyObjects`: does not state the partially written tables it leaves on failure; the enclosing `Persistence.Store.SaveMunicipios` restores the old tables, and that is what is proved.
- `Persistence.Store.WriteLevels`: does not state the partially written tables it leaves on failure either, for the same reason.
- The model assumes a database back end that enforces column ranges. A primary key outside the signed 32-bit range of an `IntegerField`, or the 64-bit range of the district's `BigIntegerField`, makes `bulk_create` fail (PostgreSQL raises DataError). SQLite would store such a key, and that behaviour is not modelled.
- `Writer.InsertRows`: its own contract says only that a failure is a database error; when it succeeds and what it stores are the lemmas `Writer.InsertRowsOk` and `Writer.InsertRowsContents`.
- The `get_municipios`, `get_distritos` and `get_estados` wrappers only fix the endpoint name, and are not modelled separately.
- The views, admin, URL configuration, management commands and the `empresas` and `custom_auth` apps are not part of this model.
