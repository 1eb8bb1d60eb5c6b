# Titanic ETL and vector upload — a Dafny model

This project models the two pieces of the Titanic pipeline that turn data into
data:

- `transform` in `etl_titanic.py`. It drops the passengers without a
  positive fare. It fills missing ages with the median of their
  (class, sex) group and missing ports of embarkation with the mode of
  their class group. It replaces the cabin number by a one-letter deck
  (or `Unknown`) and adds the `Family Size` and `Cabin Missing` columns.
- The upload in `save_embeddings.py`. Every cleaned row becomes a
  `passenger_<id>` vector id, a five-field text (`row_to_text`) and a
  metadata record. The texts are embedded and the count is checked. The
  index is created when its name is not listed and described otherwise.
  The `(id, vector, metadata)` triples are then upserted in batches of
  `BATCH_SIZE`. The `chunks` generator is modelled alongside.

Modules:

- `Wrappers`: `Option` (a pandas NaN) and `Result` (a raised exception).
- `Stats`: pandas' `median` and `mode()[0]`, with what makes them a median
  and a mode.
- `Text`: Python's `str(int)` and `sep.join`, with their inverses.
- `Titanic`: the raw and cleaned rows, each cleaning rule, and the
  `Transform` method.
- `Embeddings`: `row_to_text`, `chunks`, the projection loop, the batch
  loop and the whole upload, which returns the calls made on the index
  client, in order.

A table is a `seq` of row records. `transform` rebinds `df` once, to the
fare-filtered frame (etl_titanic.py:32). After that it assigns columns in
place (lines 35, 38, 50, 53, 63 and 66) and drops `Cabin` with
`inplace=True` (line 56). Nothing else refers to the filtered frame, so
`Transform` renders each of these updates as rebinding a local variable
to the updated table. Each rule is a
function, specified by what it keeps, fills or derives. The index client
is a record of its answers: the listed names and the hosts returned by
create and describe. The upload returns the list of `Call`s it made, and
the running totals it reports.

Four behaviours of the code are easy to misread:

- A missing age is not always filled (etl_titanic.py:35). When no one in
  a (class, sex) group has a known age, the median is NaN and the age
  stays missing (`CleanPassenger.age` is an `Option`).
- `row_to_text` renders a missing age as `nan`, not as an empty string
  (save_embeddings.py:25). `row.get`'s default applies only to an absent
  column, and every column is present.
- The port fill raises instead of leaving the port missing
  (etl_titanic.py:38). `mode()[0]` raises when a class group has no known
  port at all, so `Transform` returns `Failure(EmptyEmbarkedMode)`.
- An empty cabin string gets deck `Unknown`, as a missing one does,
  because `.str[0]` of `""` is NaN (etl_titanic.py:50).

## Model

| member | source | states |
|---|---|---|
| Titanic.Transform | etl_titanic.py:27-68 | Fails exactly when some class group of the fare-filtered table has no known port. Otherwise there is one cleaned row per passenger with a positive fare, in order. Each cleaned row keeps the original columns and the fare. It keeps a known age, or gets the group median, and stays missing only when the group has no known age. It keeps a known port, or gets the class mode. Its deck is the cabin's first letter or `Unknown`, its family size is `SibSp + Parch + 1`, and `Cabin Missing` is 1 exactly when the deck is unknown. |
| Titanic.KeepPositiveFare | etl_titanic.py:31-32 | Keeps as many rows as there are rows with a known fare above 0, and every kept row has one. |
| Titanic.KeepPositiveFareAppend | etl_titanic.py:31-32 | The filter works row by row: filtering a concatenation is concatenating the filtered parts, so the row order is kept. |
| Titanic.KeepPositiveFareMembers | etl_titanic.py:31-32 | A row is kept if and only if it is in the table and has a positive fare. |
| Titanic.GroupAges | etl_titanic.py:35 | A group's known ages are empty exactly when every row of that (class, sex) group has a missing age. |
| Titanic.GroupAgesCount | etl_titanic.py:35 | Each age occurs among the group's known ages exactly as often as rows of that (class, sex) group have that age. |
| Titanic.FillAges | etl_titanic.py:35 | Changes only the age column. A known age is kept, and a missing age becomes the median of its group's known ages. A row's age is missing afterwards if and only if it was missing and its group has no known age. |
| Titanic.GroupPorts | etl_titanic.py:38 | A class group's known ports are empty exactly when every row of that class has a missing port. |
| Titanic.GroupPortsCount | etl_titanic.py:38 | Each port occurs among the class group's known ports exactly as often as rows of that class have that port. |
| Titanic.FillEmbarked | etl_titanic.py:38 | Fails if and only if some class group has no known port. Otherwise it changes only the port column, keeps every known port, and gives a missing port the mode of its class group. |
| Titanic.PortFillFailsIff | etl_titanic.py:35-38 | The age fill touches no class and no port, so the port fill fails after it exactly when it would fail on the fare-filtered table. |
| Titanic.CabinMissingIffNoCabin | etl_titanic.py:50-66 | `Cabin Missing` is 1 if and only if the cabin is missing or empty. |
| Titanic.DeriveColumns | etl_titanic.py:50-66 | Computes the deck column (first letter, NaN filled with `Unknown`), the family size and the missing-cabin flag, drops `Cabin`, and yields one row per input row. |
| Titanic.FilledRowIsClean | etl_titanic.py:35-66 | A row that went through both fills and the derived columns is the cleaned form of the fare-filtered row it came from. |
| Stats.SortReals | etl_titanic.py:35 | The result is sorted and a permutation of the input. |
| Stats.InsertSorted | etl_titanic.py:35 | Inserting into a sorted sequence keeps it sorted. |
| Stats.CountIfSorted | etl_titanic.py:35 | Sorting changes no count. |
| Stats.Median | etl_titanic.py:35 | The median is missing exactly when there are no known values. |
| Stats.MedianSplitsInHalves | etl_titanic.py:35 | At most half of the values lie strictly below the median, and at most half strictly above it. |
| Stats.MedianOfOddCountIsAValue | etl_titanic.py:35 | The median of an odd number of values is one of them. |
| Stats.Best | etl_titanic.py:38 | The chosen candidate is one of the candidates and beats every other one. |
| Stats.Mode | etl_titanic.py:38 | `mode()[0]` is missing exactly when there are no known values. Otherwise it is a most frequent value, the smallest in Python's string order among those. |
| Stats.ModeIsUnique | etl_titanic.py:38 | Exactly one value meets that description, so the fill is deterministic. |
| Stats.StrLeTotal | etl_titanic.py:38 | Python's string order compares every pair of strings. |
| Stats.StrLeTransitive | etl_titanic.py:38 | Python's string order is transitive. |
| Stats.StrLeAntisymmetric | etl_titanic.py:38 | Two strings that are each no greater than the other are equal. |
| Text.IntToStringRoundTrip | save_embeddings.py:50 | `int(str(n)) == n` for every integer. |
| Text.SplitJoin | save_embeddings.py:29 | Splitting `sep.join(parts)` at `sep` gives the parts back when none contains the separator's first character. |
| Embeddings.RowToTextHasFiveSegments | save_embeddings.py:19-29 | Provided that neither `Sex` nor `Embarked` contains a `;` and no rendered number does, the text is exactly five `Label: value` segments: Pclass, Sex, Age, Fare and Embarked, in that order, with a missing age shown as `nan`. |
| Embeddings.ChunkList | save_embeddings.py:31-34 | The generator's loop yields exactly the chunks `Chunks` describes. |
| Embeddings.ChunksFlatten | save_embeddings.py:31-34 | Concatenated, the chunks are the list: nothing is lost, repeated or reordered. |
| Embeddings.ChunkCount | save_embeddings.py:31-34 | There are `ceil(len / n)` chunks. |
| Embeddings.ChunkAt | save_embeddings.py:33-34 | Chunk `k` is `lst[k*n : k*n + n]`, cut short at the end of the list. |
| Embeddings.ChunkSizes | save_embeddings.py:31-34 | No chunk is empty or longer than `n`, and all but the last have exactly `n` elements. |
| Embeddings.DefaultConfig | save_embeddings.py:15-17 | With no index name set in the environment, the index is `titanic-index`, the namespace is the given one, and the batch size is positive. |
| Embeddings.IdRoundTrip | save_embeddings.py:50 | The passenger id can be read back out of the vector id. |
| Embeddings.IdsAreDistinct | save_embeddings.py:50 | Different passengers get different vector ids. |
| Embeddings.ProjectRows | save_embeddings.py:48-55 | One id, one text and one metadata record per row, in row order. Each id is `passenger_` followed by the metadata's passenger id. |
| Embeddings.UpsertBatches | save_embeddings.py:83-91 | Makes one upsert per batch of the aligned `(id, vector, metadata)` triples, in order, in the configured namespace, and records the running total after each. |
| Embeddings.ProgressReachesTotal | save_embeddings.py:84-91 | There is one progress report per batch, and the reports strictly increase. The last one reports every record. |
| Embeddings.BatchesCoverRecords | save_embeddings.py:84-89 | The batches cover the triples exactly once, in order, and there are `ceil(total / BATCH_SIZE)` of them. Element `j` of batch `k` is the triple at `k*BATCH_SIZE + j`, so ids, vectors and metadata stay aligned. |
| Embeddings.IndexCreatedIffMissing | save_embeddings.py:62-79 | The index is created exactly when its name is not listed, and described exactly when it is. |
| Embeddings.IndexSetUpBeforeUpserts | save_embeddings.py:62-81 | Every setup call comes before every upsert. A create happens only as the second call, with the configured name, cosine metric, aws and us-east-1, and the first vector's length. The client is opened only as the third call, on the host that create or describe answered. |
| Embeddings.UpsertsCarryEveryRecord | save_embeddings.py:81-91 | After the three setup calls come `ceil(total / BATCH_SIZE)` upserts. Each one is in the configured namespace and carries 1 to `BATCH_SIZE` records. Together they carry every record once, in order. |
| Embeddings.EmbedAndUpsert | save_embeddings.py:41-93 | A count mismatch fails before any client call. A missing index with no vector to take a dimension from fails after the listing. Otherwise the run makes exactly the calls `RunCalls` lists and reports the running totals of its batches. |

## Left out

- `extract`, `load_to_sql`, the script's entry point and the module-level configuration (`load_dotenv`, environment lookups) are not part of this model. `INDEX_NAME`, `NAMESPACE` and `BATCH_SIZE` are the fields of `Config`. `DefaultConfig` builds it from the defaults `titanic-index` and 100.
- `get_local_embeddings` (a sentence-transformer model) is the function parameter `embed`. Its vectors are taken as given.
- `json.dumps(row.fillna("").to_dict())` is the function parameter `rawOf`. The JSON format is not modelled.
- Float formatting in the f-strings is the function parameter `showReal`. Ages and fares are `real`, and floating-point rounding is not modelled.
- The vector-index client is reduced to its answers (`IndexService`) and the calls made on it. Its construction, the API key, network failures and upsert errors are not modelled.
- The `print` calls are not modelled as output. The progress values are the returned `progress` sequence.
- Embeddings.EmbedAndUpsert: `row.get("PassengerId", idx)` falls back to the row index only when the column is absent. The cleaned table always has it, so the fallback is not modelled; nor is `int()` of a non-integral id.
- `Passenger` types `PassengerId`, `Survived`, `Pclass`, `Name`, `Sex`, `SibSp`, `Parch` and `Ticket` as never missing, so NaN in any of them is not modelled. In particular, a NaN `PassengerId` makes `int(pid)` raise (save_embeddings.py:50), and a NaN class or sex is a group key that pandas drops from the groups.
- A `Cabin` column with no value at all is read as floats, and `.str` then raises (etl_titanic.py:50). `Passenger.cabin` is always an optional string, so this failure is not modelled.
- Pandas' chained-assignment warnings do not change the result and are not modelled.
- Embeddings.ChunkList: requires `n > 0`. With `n == 0`, `range` raises. With a negative `n`, `range(0, len, n)` is empty and `chunks` yields nothing; the type `nat` excludes that case, so it is not modelled. Nothing in the source calls `chunks`. The upload loop slices the lists itself, and the model relates the two through `Chunks`.
- Embeddings.EmbedAndUpsert: requires a positive batch size, as `BATCH_SIZE` is the constant 100.
