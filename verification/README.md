# VectorStoreService SQL command builder, in Dafny

VectorStoreService is a small FastAPI backend over PostgreSQL with the
pgvector extension. Its HTTP endpoints take JSON request bodies and build SQL
text by string interpolation, then hand that text and a tuple of parameters
to a psycopg2 cursor. This project models the part that decides which
SQL command each endpoint executes, or which Python exception it raises
before executing anything:

- `create_collection`: the type table, the column-definition loop and the
  `CREATE TABLE IF NOT EXISTS` text (module `Schema`);
- `delete_collection`: `DROP TABLE IF EXISTS` (module `Schema`);
- `search`: the metric table, the defaults `limit` 10 and `metricType`
  "cosine", and the similarity query with the query vector as its only bound
  parameter (module `Search`);
- `insert_data`: one `INSERT` per item with one `%s` per key (module
  `Records`). The top-level copy first stores `embedding =
  embed(description)` in each item, changing the item in place; the copy in
  the package uses each item as it comes;
- `delete_data`: one `k = %s` clause per condition key, joined by `AND`
  (module `Records`);
- `get_resources`: a single lookup by id and address when both query
  parameters are truthy, the whole `resources` table otherwise (module
  `Resources`).

The repository holds two copies of the API:
`vector_store_backend/vector_api.py` (the top-level copy) and
`vector_store_backend/vector_store_backend/vector_api.py` (the package copy).
Their endpoints are textually the same except `insert_data`, so each builder
is modelled once, and the table below cites the top-level copy. The same
statement sits in the package copy a fixed number of lines earlier within
each endpoint: 1 line for `get_resources`; 2 lines for `create_collection` up
to its `fields` lookup and 1 line from `field_definitions = []` on; 2 for
`delete_collection`; 3 for `search`; 3 for `insert_data` up to its loop header
and 7 for its INSERT lines; 8 for `delete_data`. The two `insert_data` loops are one loop,
`Records.InsertLoop`, run with a different per-item step (`Records.Step`):
with an embedding model (`Some(embed)`) for the top-level copy and without
one (`None`) for the package copy.

Request bodies are Python values (`PyValues.Value`). Dicts are lists of
entries in insertion order. The model spells out the Python behaviour the
builders rely on:

- `str()` through f-strings;
- truthiness;
- `for x in v` over a list, a dict or a string;
- `d[k]` with its `KeyError`, and `TypeError` for a list or dict used as a key;
- `.get` on a non-dict, which raises `AttributeError`;
- `d[k] = v`, which keeps an existing key in place and appends a new one.

Names, collection names, limits and vector fields are written into the SQL
as they come. The model does not add any checks the code lacks. Commands
(`Sql.Command`) carry the text and the parameters. `Sql.Placeholders` counts
slots as psycopg2 scans them: `%%` is an escaped percent sign and `%s` is a
slot. `Sql.WellBound` says that there is one parameter per slot.

Behaviour of the code that the model makes explicit:

- A vector field, collection name or column key containing `%s` opens a
  slot with no parameter (`Search.VectorFieldOpensSlot`).
- The web client nests `isPrimary` and `dimension` under `properties`, but the
  loop reads them at the top level of a field. The client's `id` column gets
  no `PRIMARY KEY` and its `embedding` column gets `VECTOR(128)`, not 384
  (`Schema.ClientIdLosesPrimaryKey`, `Schema.ClientEmbeddingLosesDimension`).
- The metrics `jaccard` and `hamming` offered by the web client are not in the
  table and raise `KeyError` (`Search.ClientOnlyMetricsFail`).
- An empty conditions dict gives `DELETE FROM c WHERE ` with nothing after
  `WHERE` (`Records.EmptyConditions`).
- When an item fails in `insert_data`, the `INSERT`s of the items before it
  have already been executed on the shared connection, and the request ends
  before its own `commit`. The connection is one module-level object used by
  every request (vector_api.py:13-14), so those INSERTs stay pending and the
  next `commit` of any later request (vector_api.py:71, 81, 132, 145) makes
  them durable. In the top-level copy those items have also been changed in
  place (`Records.InsertRunFacts`).

## Model

| member | source | states |
|---|---|---|
| PyValues.Lookup | vector_store_backend/vector_api.py:48-51 | `body[k]` raises `KeyError(k)` exactly when `k` is missing, and otherwise gives the value stored under `k` |
| PyValues.Set | vector_store_backend/vector_api.py:124 | `item["embedding"] = v` stores `v` under the key and leaves every other key's value unchanged. An existing key keeps its position; a new key comes last. Keys stay unique |
| PyValues.Iterate | vector_store_backend/vector_api.py:54 | `for x in v` visits a list's items, a dict's keys in order (the i-th visit is the i-th key) or a string's characters in order (the i-th visit is the one-character string of the i-th character), and raises `TypeError` for anything else |
| Sql.Repeat | vector_store_backend/vector_api.py:128 | `["%s"] * n` is `n` copies of `%s` |
| Sql.PlaceholdersJoinSlots | vector_store_backend/vector_api.py:128-129 | joining `n` parts that each end in one `%s`, with a separator that has no percent sign, gives `n` slots |
| Schema.ParseFieldType | vector_store_backend/vector_api.py:55-62 | exactly the six type names are in the table, and each entry is found under its own name |
| Schema.ParseTypeName | vector_store_backend/vector_api.py:55-62 | every field type is found again under its name |
| Schema.PhysicalTypeInjective | vector_store_backend/vector_api.py:55-62 | different field types never give the same column type; two vector types are equal only with the same dimension |
| Schema.ColumnType | vector_store_backend/vector_api.py:55-62 | the lookup succeeds exactly for a known type name and gives its column type. It raises `TypeError` for a list or dict and `KeyError(type)` for any other unknown value |
| Schema.FieldDefinition | vector_store_backend/vector_api.py:54-67 | a field yields a definition exactly when it is a dict with a known `type` and a `name`. A field that is not a dict raises `AttributeError`, because `field.get` runs first |
| Schema.DefinitionParts | vector_store_backend/vector_api.py:64-67 | a definition starts with the name and the column type, and ends in `PRIMARY KEY` exactly when the field's top-level `isPrimary` is truthy |
| Schema.VectorDefaultsTo128 | vector_store_backend/vector_api.py:60 | a Vector field without a top-level `dimension` becomes `VECTOR(128)` |
| Schema.ClientIdLosesPrimaryKey | vector_store_backend/vector_api.py:64 | the web client's `id` field, with `isPrimary` under `properties`, becomes `id INTEGER` with no primary key |
| Schema.ClientEmbeddingLosesDimension | vector_store_backend/vector_api.py:60 | the web client's `embedding` field, with dimension 384 under `properties`, becomes `embedding VECTOR(128)` |
| Schema.Collect | vector_store_backend/vector_api.py:53-67 | the definition loop gives one definition per field |
| Schema.CollectFacts | vector_store_backend/vector_api.py:53-67 | the loop succeeds exactly when every field passes, and then the i-th definition is the i-th field's |
| Schema.CollectFirstError | vector_store_backend/vector_api.py:53-62 | the loop raises the exception of its first failing field |
| Schema.CollectSnoc | vector_store_backend/vector_api.py:65-67 | one more passing field appends its definition |
| Schema.FieldDefinitions | vector_store_backend/vector_api.py:53-67 | the column-definition loop succeeds exactly when every field is declared; the i-th definition is the i-th field's |
| Schema.FieldDefinitionsFirstError | vector_store_backend/vector_api.py:53-62 | the column-definition loop raises the exception of its first bad field |
| Schema.CollectLoop | vector_store_backend/vector_api.py:52-67 | the appending `for` loop computes exactly what the definition loop specifies, including the first failure |
| Schema.CreateCommandSucceeds | vector_store_backend/vector_api.py:46-70 | a create request succeeds exactly when `id`, `pc`, `name` and `fields` are present, `fields` is iterable and every field is declared. The command then lists one definition per field, in order, and binds no parameters |
| Schema.UnknownTypeFails | vector_store_backend/vector_api.py:62 | an unknown type name fails the request, with `KeyError(type)` when it is the first bad field |
| Schema.CreateCollection | vector_store_backend/vector_api.py:46-70 | the endpoint's steps give the specified command or exception |
| Schema.DropCommand | vector_store_backend/vector_api.py:79 | the drop fails exactly when `name` is missing; otherwise it is `DROP TABLE IF EXISTS` with the name, and no parameters |
| Schema.ApplyCreate | vector_store_backend/vector_api.py:69-71 | a successful create adds the table only if no table of that name exists, and touches no other table; a failed one changes nothing |
| Schema.ApplyDrop | vector_store_backend/vector_api.py:79-81 | a drop removes the named table if it exists and nothing else |
| Schema.CreateIdempotent | vector_store_backend/vector_api.py:69 | creating twice is creating once |
| Schema.DropIdempotent | vector_store_backend/vector_api.py:79 | dropping twice is dropping once |
| Schema.DropUndoesCreate | vector_store_backend/vector_api.py:79 | a drop after a create of the same table gives what the drop alone gives |
| Search.ParseMetric | vector_store_backend/vector_api.py:97-101 | exactly `l2`, `ip` and `cosine` are in the metric table, and each entry is found under its own name |
| Search.ParseMetricName | vector_store_backend/vector_api.py:97-101 | every metric is found again under its name |
| Search.MetricOperator | vector_store_backend/vector_api.py:97-101 | the operator lookup succeeds exactly for the three names. It raises `TypeError` for a list or dict and `KeyError` for any other value |
| Search.ClientOnlyMetricsFail | vector_store_backend/vector_api.py:101 | `jaccard` and `hamming` raise `KeyError` |
| Search.Options | vector_store_backend/vector_api.py:94-95 | `options` defaults to an empty dict, and options that are not a dict raise `AttributeError` |
| Search.SearchRequest | vector_store_backend/vector_api.py:89-95 | the request succeeds exactly when `id`, `pc`, `collection`, `vectorField` and `embeddings` are present and the options are a dict. It carries those values, and `limit` and `metricType` are each the options' value under that key or its default (10, `cosine`) |
| Search.DefaultOptions | vector_store_backend/vector_api.py:94-95 | each option defaults on its own: options without `limit` give 10, options without `metricType` give `cosine`, and a body without options reads as empty options |
| Search.GivenOptions | vector_store_backend/vector_api.py:94-95 | an option that is present is used as sent |
| Search.SearchTextShape | vector_store_backend/vector_api.py:103-108 | the query computes `1 - (field op %s)` as similarity, reads `FROM` the collection, and ends ordering by similarity, best first, with the limit |
| Search.SearchTextOneSlot | vector_store_backend/vector_api.py:103-109 | without percent signs in the interpolated parts, the query has exactly one slot |
| Search.SearchCommand | vector_store_backend/vector_api.py:87-109 | the search succeeds exactly when the request can be read and the metric is known. The only parameter is the embeddings |
| Search.SearchCommandText | vector_store_backend/vector_api.py:103-108 | the executed text is the query template filled with the request's vector field, the requested metric's operator, the request's collection and its limit: it starts with `SELECT *, 1 - (field op %s) AS similarity`, reads `FROM` the collection, and ends with `ORDER BY similarity DESC` and `LIMIT` followed by the limit |
| Search.SearchDefaults | vector_store_backend/vector_api.py:94-108 | without options, the query uses the cosine operator `<=>` and `LIMIT 10` |
| Search.SearchOneSlot | vector_store_backend/vector_api.py:103-109 | without percent signs in the vector field, collection and limit, the one parameter fills the one slot |
| Search.VectorFieldOpensSlot | vector_store_backend/vector_api.py:104 | a vector field containing `%s` gives two slots for one parameter |
| Records.Prepare | vector_store_backend/vector_api.py:121-124 | without an embedding model, an item is used as it is, and `AttributeError` is raised when it is not a dict. With a model, preparation succeeds exactly for a dict with a `description` |
| Records.EnrichFacts | vector_store_backend/vector_api.py:122-124 | a non-dict item raises `TypeError`, and one without `description` raises `KeyError`. Otherwise `embedding` holds `embed(description)` and every other key is unchanged; the key keeps its place or comes last |
| Records.InsertCommandAligned | vector_store_backend/vector_api.py:126-130 | the INSERT has one parameter per key, and the i-th parameter is the value of the i-th column |
| Records.InsertCommandSlots | vector_store_backend/vector_api.py:126-130 | without percent signs in the collection and the keys, the INSERT has one slot per parameter |
| Records.InsertRun | vector_store_backend/vector_api.py:121-130 | the loop leaves one entry per item |
| Records.InsertRunFacts | vector_store_backend/vector_api.py:121-132 | the loop issues INSERTs in item order until the first item that cannot be prepared. That item's exception ends the loop. Earlier items are replaced by their prepared form and later items are untouched |
| Records.InsertRunStops | vector_store_backend/vector_api.py:121-130 | an item that cannot be prepared stops the loop at or before it |
| Records.PlainRunKeepsItems | vector_store_backend/vector_store_backend/vector_api.py:118-123 | the package copy leaves the items unchanged |
| Records.EnrichedRunItems | vector_store_backend/vector_api.py:121-130 | in the top-level copy every inserted item carries `embedding = embed(description)` and its other keys unchanged, and its INSERT is built from the enriched item |
| Records.InsertRequest | vector_store_backend/vector_api.py:118-121 | the request succeeds exactly when `collection` and `data` are present and `data` is iterable |
| Records.InsertLoop | vector_store_backend/vector_api.py:121-130 | the in-place loop over the item list produces the specified list, commands and exception |
| Records.InsertData | vector_store_backend/vector_api.py:116-133 | `insert_data` issues what the request and the loop specify, and nothing when the request cannot be read |
| Records.Clauses | vector_store_backend/vector_api.py:142 | one clause per condition key |
| Records.DeleteCommand | vector_store_backend/vector_api.py:139-144 | the delete succeeds exactly when `collection` is present and `conditions` is a dict; conditions that are not a dict raise `AttributeError` |
| Records.DeleteCommandText | vector_store_backend/vector_api.py:142-144 | the executed text is `DELETE FROM`, the collection, `WHERE` and the clauses `key = %s` for the condition keys in dict order joined by `AND`; the i-th parameter is the i-th condition's value |
| Records.DeleteCommandAligned | vector_store_backend/vector_api.py:142-144 | the i-th clause is `key = %s` for the i-th condition key, and the i-th parameter is that key's value |
| Records.DeleteCommandSlots | vector_store_backend/vector_api.py:142-144 | without percent signs in the collection and the keys, the DELETE has one slot per parameter |
| Records.EmptyConditions | vector_store_backend/vector_api.py:142-143 | an empty conditions dict leaves nothing after `WHERE` |
| Resources.ResourcesCommand | vector_store_backend/vector_api.py:34-40 | exactly when id and address are both truthy the text is the lookup by id and address, binding both; otherwise it is the listing of the whole table, binding nothing |
| Resources.ResourcesCommandWellBound | vector_store_backend/vector_api.py:35-40 | both texts have one slot per parameter |
| Resources.PlaceholdersLookup | vector_store_backend/vector_api.py:35 | the lookup text has two slots |
| Resources.FirstMatch | vector_store_backend/vector_api.py:37 | the fetched row matches both id and address, and there is none exactly when no row matches |
| Resources.GetResources | vector_store_backend/vector_api.py:34-42 | the reply is a single lookup exactly when id and address are truthy: a matching row, or None when no row matches. Otherwise it is every row |
| Resources.ZeroIdListsAll | vector_store_backend/vector_api.py:34 | id 0 lists the whole table |
| Resources.EmptyAddressListsAll | vector_store_backend/vector_api.py:34 | the empty address lists the whole table, whatever the id |

## Left out

- `get_details` is left out. It reads files from disk and is not part of the SQL builder.
- Executing, committing and fetching are not modelled. The database is a value:
  - the table catalog in `Schema.ApplyCreate` and `Schema.ApplyDrop`;
  - the rows of `resources` in `Resources.GetResources`.
- The model does not say what happens when the database runs a command. It does not model SQL syntax errors, name case folding or type checks, and the catalog keys tables by the exact interpolated text.
- The sentence-transformer model is left out. The top-level `insert_data` takes it as a function parameter `embed`.
- Response messages and HTTP status codes are left out.
- `Render` writes strings inside lists and dicts between single quotes. It does not reproduce Python's `repr` escaping or its choice of double quotes.
- Floats are carried as their `repr` text.
- `Placeholders` counts only `%s` and `%%`. Other psycopg2 conversions (`%(name)s`, a lone `%` followed by anything else) are not modelled; they are an error in the driver.
- The failed `insert_data` request leaves pending INSERTs on the shared connection, which a later request's `commit` makes durable. The model reports them in `Run.issued` but does not model the connection's transaction state across requests.
- Records.Prepare: the embedding model `embed` is a total function parameter. The model assumes it never raises, so an exception from `model.encode` (vector_api.py:123) is not modelled.
- Dicts are lists of entries, and the model allows a key to appear twice, which no Python dict can. Such inputs are outside what the model describes. `PyValues.Set` keeps keys unique. `Records.InsertCommandAligned` and `Records.DeleteCommandAligned` require unique keys, because their statements need them.
- Resources.FirstMatch: returns the first matching row in table order. `fetchone` returns whichever row the database yields first, so only "a matching row, or None when there is none" is promised.
- Records.InsertLoop: the list of items is an array whose elements are replaced. Aliasing between an item and other references to the same dict is not modelled.
