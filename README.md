# Ingestion pipelines and the missing-count column test

This project models two pieces of the OpenMetadata catalog in Dafny and
proves properties of the models.

**The ingestion-pipeline repository** (`IngestionPipelines.dfy`, with
`JsonObjects.dfy` and `FullyQualifiedName.dfy`). This is the per-kind plug-in
of the generic entity store, for ingestion pipelines.

- **Pipeline.** The entity is a `class` whose fields the repository sets in
  place.
- **Repository state.** `IngestionPipelineRepository` is a class over four
  things:
  - a map of persisted bodies;
  - a set of relationship edges;
  - the pipeline service client;
  - a ghost log of the deploy and delete calls made to that client.
- **Prepare.** Resolves the service and owner references and derives the
  fully qualified name (FQN) from the service.
- **Store.** Persists a body with its relationship-derived fields stripped.
  It writes a CONTAINS edge from the service and an OWNS edge from the owner.
- **Read.** Rebuilds the service and the owner from those edges.
- **Post-mutation hooks.** They deploy only when `forceDeploy` is true, and
  always delete by name.
- **Updater.** `IngestionPipelineUpdater` compares an original and an
  updated pipeline field by field. It appends change records in a fixed
  order: source, airflowConfig, openMetadataServerConnection, loggerLevel.
  The specification of that comparison is the function `Diff`. The lemmas
  about `Diff` say:
  - each record is faithful;
  - a field is recorded exactly when it differs;
  - the order is fixed;
  - identical pipelines give no records;
  - member order inside the JSON configuration does not matter.

**The `columnValuesMissingCountToBeEqual` data-quality test**
(`MissingCount.dfy`, with `PyBuiltins.dfy`). It is a pure function of:

- the test case;
- the table's column names;
- the outcomes of the NULL-count and count-in-set queries.

It follows the Python code branch by branch:

- it extracts the column name from the entity link;
- it aborts when the column is missing or a query fails;
- it lets a missing `missingCountValue` parameter escape as `StopIteration`;
- it adds the in-set count when `missingValueMatch` is truthy, and aborts with
  Python's `TypeError` text when either count is None;
- it builds the Success or Failed verdict with the exact message and result
  value.

`PyBuiltins.dfy` models the Python built-ins the test relies on:

- `str.split`, with its leftmost, non-overlapping matches;
- `str.replace(c, "")`;
- `str()` of ints, None and lists of strings;
- truthiness.

Each comes with the lemmas the column-name and reported-count properties need.

`Wrappers.dfy` holds `Option`, `Result` and `Outcome`.

## Model

| member | source | states |
|---|---|---|
| FullyQualifiedName.Add | catalog-rest-service/src/main/java/org/openmetadata/catalog/jdbi3/IngestionPipelineRepository.java:58 | The FQN is the parent FQN, one separator, then the name, at fixed positions. |
| FullyQualifiedName.AddIsInjective | catalog-rest-service/src/main/java/org/openmetadata/catalog/jdbi3/IngestionPipelineRepository.java:58 | Two names under the same parent give the same FQN only if they are equal. |
| IngestionPipelines.GetFqn | catalog-rest-service/src/main/java/org/openmetadata/catalog/jdbi3/IngestionPipelineRepository.java:56-60 | Absent exactly when there is no pipeline or it has no service. Otherwise the service FQN, the separator, then the pipeline name. |
| IngestionPipelines.IngestionPipelineEntityInterface.GetFullyQualifiedName | catalog-rest-service/src/main/java/org/openmetadata/catalog/jdbi3/IngestionPipelineRepository.java:180-184 | The stored FQN when present, else the derived one. Absent only when there is neither a stored FQN nor a service. |
| IngestionPipelines.IngestionPipelineEntityInterface.SetChangeDescription | catalog-rest-service/src/main/java/org/openmetadata/catalog/jdbi3/IngestionPipelineRepository.java:248-251 | Sets the version and the change description on the entity. No other field changes. |
| IngestionPipelines.FieldName | catalog-rest-service/src/main/java/org/openmetadata/catalog/jdbi3/IngestionPipelineRepository.java:296-317 | Every tracked field is recorded under one of the four names "source", "airflowConfig", "openMetadataServerConnection" and "loggerLevel". |
| IngestionPipelines.FieldNameIsInjective | catalog-rest-service/src/main/java/org/openmetadata/catalog/jdbi3/IngestionPipelineRepository.java:296-317 | Distinct fields are recorded under distinct names. |
| IngestionPipelines.Rank | catalog-rest-service/src/main/java/org/openmetadata/catalog/jdbi3/IngestionPipelineRepository.java:279-283 | Gives each field its position in the order the updater compares fields. |
| IngestionPipelines.SourceChanged | catalog-rest-service/src/main/java/org/openmetadata/catalog/jdbi3/IngestionPipelineRepository.java:293-295 | Identical sources never count as changed, and sources with different service names always do. |
| IngestionPipelines.Diff | catalog-rest-service/src/main/java/org/openmetadata/catalog/jdbi3/IngestionPipelineRepository.java:276-284 | One update records at most one change per tracked field, so at most four records. |
| IngestionPipelines.NullableCheckAsWritten | catalog-rest-service/src/main/java/org/openmetadata/catalog/jdbi3/IngestionPipelineRepository.java:307-319 | The connection and log-level checks as written. They throw exactly when the original is null and the update is not. They report a change exactly when both are present and unequal. |
| IngestionPipelines.NullOriginalThrowsAsWritten | catalog-rest-service/src/main/java/org/openmetadata/catalog/jdbi3/IngestionPipelineRepository.java:310 | A null original with a present update throws as written, where a change is intended. |
| IngestionPipelines.NullableChangedAgreesAsWritten | catalog-rest-service/src/main/java/org/openmetadata/catalog/jdbi3/IngestionPipelineRepository.java:315-319 | Wherever the as-written check does not throw, it agrees with the corrected check. |
| IngestionPipelines.NullableChanged | catalog-rest-service/src/main/java/org/openmetadata/catalog/jdbi3/IngestionPipelineRepository.java:307-319 | The intended comparison for the connection and the log level. A change is reported only for a present update. It is always reported when the original is null and the update is present. It is never reported for equal values, and for two present values it is reported exactly when they differ. |
| IngestionPipelines.DiffIsSound | catalog-rest-service/src/main/java/org/openmetadata/catalog/jdbi3/IngestionPipelineRepository.java:276-319 | Every change record names a field that differs and carries that field's original and updated values. |
| IngestionPipelines.DiffIsComplete | catalog-rest-service/src/main/java/org/openmetadata/catalog/jdbi3/IngestionPipelineRepository.java:286-319 | A field appears among the records if and only if it differs. Source is compared by service name and JSON similarity, airflowConfig by inequality, and the other two only when the update is present. |
| IngestionPipelines.DiffIsOrdered | catalog-rest-service/src/main/java/org/openmetadata/catalog/jdbi3/IngestionPipelineRepository.java:276-284 | Records appear in the order source, airflowConfig, openMetadataServerConnection, loggerLevel. |
| IngestionPipelines.DiffNamesAreDistinct | catalog-rest-service/src/main/java/org/openmetadata/catalog/jdbi3/IngestionPipelineRepository.java:276-284 | No field name is recorded twice by one update. |
| IngestionPipelines.DiffOfIdenticalIsEmpty | catalog-rest-service/src/main/java/org/openmetadata/catalog/jdbi3/IngestionPipelineRepository.java:276-319 | An update identical to the original records nothing. |
| IngestionPipelines.DiffIgnoresMemberOrder | catalog-rest-service/src/main/java/org/openmetadata/catalog/jdbi3/IngestionPipelineRepository.java:286-298 | Re-serialising the source configuration and connection in another member order records no "source" change. |
| IngestionPipelines.DiffOfLogLevelOnly | catalog-rest-service/src/main/java/org/openmetadata/catalog/jdbi3/IngestionPipelineRepository.java:315-319 | Changing only the log level records exactly one "loggerLevel" change, from the old level to the new one. |
| IngestionPipelines.DiffIgnoresAbsentUpdates | catalog-rest-service/src/main/java/org/openmetadata/catalog/jdbi3/IngestionPipelineRepository.java:307-319 | An absent updated connection or log level is never recorded. |
| IngestionPipelines.IngestionPipelineUpdater.constructor | catalog-rest-service/src/main/java/org/openmetadata/catalog/jdbi3/IngestionPipelineRepository.java:271-273 | An updater starts with the given pipelines and no change records. |
| IngestionPipelines.IngestionPipelineUpdater.RecordChange | catalog-rest-service/src/main/java/org/openmetadata/catalog/jdbi3/IngestionPipelineRepository.java:296 | Appends exactly one record with the field and its two values. |
| IngestionPipelines.IngestionPipelineUpdater.EntitySpecificUpdate | catalog-rest-service/src/main/java/org/openmetadata/catalog/jdbi3/IngestionPipelineRepository.java:276-284 | Appends exactly the records `Diff` prescribes, in order. The lemmas about `Diff` give their meaning. |
| IngestionPipelines.IngestionPipelineUpdater.UpdateSource | catalog-rest-service/src/main/java/org/openmetadata/catalog/jdbi3/IngestionPipelineRepository.java:286-298 | Appends one "source" record, with the old and new source, if and only if the service name differs or either JSON object is not similar. Otherwise it appends nothing. |
| IngestionPipelines.IngestionPipelineUpdater.UpdateAirflowConfig | catalog-rest-service/src/main/java/org/openmetadata/catalog/jdbi3/IngestionPipelineRepository.java:300-305 | Appends one "airflowConfig" record if and only if the configurations are unequal. |
| IngestionPipelines.IngestionPipelineUpdater.UpdateOpenMetadataServerConnection | catalog-rest-service/src/main/java/org/openmetadata/catalog/jdbi3/IngestionPipelineRepository.java:307-313 | Appends one "openMetadataServerConnection" record if and only if the update is present and differs from the original. |
| IngestionPipelines.IngestionPipelineUpdater.UpdateLogLevel | catalog-rest-service/src/main/java/org/openmetadata/catalog/jdbi3/IngestionPipelineRepository.java:315-319 | Appends one "loggerLevel" record if and only if the update is present and differs from the original. |
| IngestionPipelines.ResolveReference | catalog-rest-service/src/main/java/org/openmetadata/catalog/jdbi3/IngestionPipelineRepository.java:76-79 | A null reference stays null. A reference resolves exactly when its id is known with that entity type, and then to the directory's entry. Otherwise it fails with EntityNotFound. |
| IngestionPipelines.Related | catalog-rest-service/src/main/java/org/openmetadata/catalog/jdbi3/IngestionPipelineRepository.java:115-117 | No matching incoming edge gives nothing. Two or more give the multiple-relationships error. Exactly one gives the directory entry of its far end, or a dangling-relationship error when that entity is unknown. |
| IngestionPipelines.StoredRelationshipsReadBack | catalog-rest-service/src/main/java/org/openmetadata/catalog/jdbi3/IngestionPipelineRepository.java:98-107 | When the pipeline's existing CONTAINS and OWNS edges are at most the ones being written (a first store, or a re-store on update), reading the edges back finds the directory's entries for that service id and owner id. |
| IngestionPipelines.IngestionPipelineRepository.constructor | catalog-rest-service/src/main/java/org/openmetadata/catalog/jdbi3/IngestionPipelineRepository.java:44-54 | A new repository has no bodies, no edges, no client and no client calls. |
| IngestionPipelines.IngestionPipelineRepository.Store | catalog-rest-service/src/main/java/org/openmetadata/catalog/jdbi3/IngestionPipelineRepository.java:91 | Writes the body under the pipeline's id, replacing any earlier body. No other body changes. |
| IngestionPipelines.IngestionPipelineRepository.AddRelationship | catalog-rest-service/src/main/java/org/openmetadata/catalog/jdbi3/IngestionPipelineRepository.java:100-105 | Adds exactly the given edge to the set of edges. Adding an edge that exists changes nothing. |
| IngestionPipelines.IngestionPipelineRepository.FindRelated | catalog-rest-service/src/main/java/org/openmetadata/catalog/jdbi3/IngestionPipelineRepository.java:115-117 | Finds the entity at the far end of the only matching edge. Gives nothing when there is no edge, and an error when there are several edges or the far end is gone. |
| IngestionPipelines.IngestionPipelineRepository.SetFields | catalog-rest-service/src/main/java/org/openmetadata/catalog/jdbi3/IngestionPipelineRepository.java:63-67 | The service always comes from the CONTAINS edge. The owner comes from the OWNS edge when "owner" is requested and is cleared otherwise. Lookup errors are reported, and no other field changes. |
| IngestionPipelines.IngestionPipelineRepository.Prepare | catalog-rest-service/src/main/java/org/openmetadata/catalog/jdbi3/IngestionPipelineRepository.java:75-80 | Resolves the service, then sets the FQN derived from the resolved service, then resolves the owner. It stops at the first reference that does not resolve, and no other field changes. |
| IngestionPipelines.IngestionPipelineRepository.StoreEntity | catalog-rest-service/src/main/java/org/openmetadata/catalog/jdbi3/IngestionPipelineRepository.java:83-95 | The stored body is the pipeline with owner, service and href cleared. The object gets its owner and service back, and href stays cleared. No other field or body changes, and the stored bodies stay stripped. |
| IngestionPipelines.IngestionPipelineRepository.StoreRelationships | catalog-rest-service/src/main/java/org/openmetadata/catalog/jdbi3/IngestionPipelineRepository.java:98-107 | Adds exactly the CONTAINS edge from the service to the pipeline, plus the OWNS edge when there is an owner. |
| IngestionPipelines.IngestionPipelineRepository.StoreOwner | catalog-rest-service/src/main/java/org/openmetadata/catalog/jdbi3/IngestionPipelineRepository.java:106 | Adds the OWNS edge of a present owner, and nothing for an absent one. |
| IngestionPipelines.IngestionPipelineRepository.SetPipelineServiceClient | catalog-rest-service/src/main/java/org/openmetadata/catalog/jdbi3/IngestionPipelineRepository.java:134-136 | Installs the client. |
| IngestionPipelines.IngestionPipelineRepository.Deploy | catalog-rest-service/src/main/java/org/openmetadata/catalog/jdbi3/IngestionPipelineRepository.java:138-142 | Makes exactly one deploy call with the pipeline if forceDeploy is true. When it is false or absent, it makes none. |
| IngestionPipelines.IngestionPipelineRepository.PostCreate | catalog-rest-service/src/main/java/org/openmetadata/catalog/jdbi3/IngestionPipelineRepository.java:124-127 | After a create, deploys exactly when forceDeploy is true. |
| IngestionPipelines.IngestionPipelineRepository.PostUpdate | catalog-rest-service/src/main/java/org/openmetadata/catalog/jdbi3/IngestionPipelineRepository.java:119-122 | After an update, deploys exactly when forceDeploy is true. |
| IngestionPipelines.IngestionPipelineRepository.PostDelete | catalog-rest-service/src/main/java/org/openmetadata/catalog/jdbi3/IngestionPipelineRepository.java:129-132 | After a delete, always makes exactly one delete call with the pipeline's name. |
| IngestionPipelines.ShouldDeploy | catalog-rest-service/src/main/java/org/openmetadata/catalog/jdbi3/IngestionPipelineRepository.java:139 | A pipeline is deployed only when its airflow configuration's forceDeploy is true. False and absent both mean no deploy. |
| JsonObjects.Get | catalog-rest-service/src/main/java/org/openmetadata/catalog/jdbi3/IngestionPipelineRepository.java:287-291 | A key's value is found exactly when the key is a member, and it is that member's value. |
| JsonObjects.Similar | catalog-rest-service/src/main/java/org/openmetadata/catalog/jdbi3/IngestionPipelineRepository.java:294-295 | Two objects are similar when they have the same keys and each key finds the same value in both. |
| JsonObjects.SimilarIgnoresOrder | catalog-rest-service/src/main/java/org/openmetadata/catalog/jdbi3/IngestionPipelineRepository.java:294-295 | Two objects with distinct keys and the same members in any order are similar. |
| JsonObjects.SimilarIsEquivalence | catalog-rest-service/src/main/java/org/openmetadata/catalog/jdbi3/IngestionPipelineRepository.java:294-295 | Similarity is reflexive, symmetric and transitive. |
| ColumnValuesMissingCount.ColumnName | ingestion/src/metadata/test_suite/validations/column/column_values_missing_count_to_be_equal.py:53 | The extracted column name never contains '>'. |
| ColumnValuesMissingCount.ColumnNameOfLink | ingestion/src/metadata/test_suite/validations/column/column_values_missing_count_to_be_equal.py:53 | A link `prefix + "::" + column + ">"` gives exactly that column, provided the prefix is empty or does not end in ':' and the column contains neither ':' nor '>'. Without those conditions the last "::" can fall elsewhere, so the result is a different string. |
| ColumnValuesMissingCount.FirstParam | ingestion/src/metadata/test_suite/validations/column/column_values_missing_count_to_be_equal.py:80-94 | Absent exactly when no parameter has the name. Otherwise it is the value of the first parameter with that name. |
| ColumnValuesMissingCount.ErrorMessage | ingestion/src/metadata/test_suite/validations/column/column_values_missing_count_to_be_equal.py:69-71 | An abort message starts with "Error computing " and ends with the text of the underlying error. The same format is used at line 109. |
| ColumnValuesMissingCount.MatchingEnabled | ingestion/src/metadata/test_suite/validations/column/column_values_missing_count_to_be_equal.py:80-96 | Markers are configured exactly when some parameter is the first one named "missingValueMatch" and its value is truthy. |
| ColumnValuesMissingCount.Abort | ingestion/src/metadata/test_suite/validations/column/column_values_missing_count_to_be_equal.py:73-78 | An aborted result carries the execution date and the message. Its only result value is "nullCount" with no value. |
| ColumnValuesMissingCount.AddCounts | ingestion/src/metadata/test_suite/validations/column/column_values_missing_count_to_be_equal.py:106 | The sum when both counts are present, and a TypeError when either is None. |
| ColumnValuesMissingCount.Verdict | ingestion/src/metadata/test_suite/validations/column/column_values_missing_count_to_be_equal.py:119-133 | Success exactly when the count equals the expected value, else Failed. The message is "Found missingCount=X. It should be Y.", and the one result value is "missingCount" = str(X). |
| ColumnValuesMissingCount.MissingCount | ingestion/src/metadata/test_suite/validations/column/column_values_missing_count_to_be_equal.py:96-106 | Without markers, the count compared is the NULL count. With markers, it is the NULL count plus the in-set count, and there is none when either is NULL or the in-set query fails. |
| ColumnValuesMissingCount.ColumnValuesMissingCountToBeEqual | ingestion/src/metadata/test_suite/validations/column/column_values_missing_count_to_be_equal.py:37-133 | It escapes with StopIteration exactly when the column and the NULL count are fine but `missingCountValue` is missing. It aborts, with "nullCount" = None, exactly when the column is unknown, the NULL-count query fails, or with markers configured the in-set query fails or either count is None. Otherwise it passes exactly when the missing count equals the expected value, its message is "Found missingCount=X. It should be Y.", and its one result value is "missingCount" = str(X). The timestamp is the execution date. |
| ColumnValuesMissingCount.ReportedMissingCount | ingestion/src/metadata/test_suite/validations/column/column_values_missing_count_to_be_equal.py:96-133 | When both queries give numbers, the reported missing count reads back as the NULL count, plus the in-set count when markers are configured. The test passes exactly when that number is the expected value, and the message is "Found missingCount=N. It should be E." with that number. |
| ColumnValuesMissingCount.NullCountWithoutMarkers | ingestion/src/metadata/test_suite/validations/column/column_values_missing_count_to_be_equal.py:119-133 | Without markers, a NULL count is reported as "missingCount=None", not as an error. The test passes exactly when the expected value is None. |
| PyBuiltins.JoinSplit | ingestion/src/metadata/test_suite/validations/column/column_values_missing_count_to_be_equal.py:53 | Joining the parts of `split(sep)` with `sep` gives back the string. |
| PyBuiltins.Split | ingestion/src/metadata/test_suite/validations/column/column_values_missing_count_to_be_equal.py:53 | `split(sep)` always gives at least one part, even for the empty string. `JoinSplit` shows that the parts rebuild the string. |
| PyBuiltins.SplitWithoutSeparator | ingestion/src/metadata/test_suite/validations/column/column_values_missing_count_to_be_equal.py:53 | A string in which the separator does not occur anywhere splits into one part, the string itself. |
| PyBuiltins.FirstCharAbsent | ingestion/src/metadata/test_suite/validations/column/column_values_missing_count_to_be_equal.py:53 | A separator whose first character is absent from a string does not occur in it. |
| PyBuiltins.SplitAtDoubleColon | ingestion/src/metadata/test_suite/validations/column/column_values_missing_count_to_be_equal.py:53 | Splitting at a "::" that no ':' precedes gives the parts of each side, concatenated. |
| PyBuiltins.RemoveAll | ingestion/src/metadata/test_suite/validations/column/column_values_missing_count_to_be_equal.py:53 | The result contains no occurrence of the removed character. A string without that character is unchanged. |
| PyBuiltins.RemoveAllKeepsOthers | ingestion/src/metadata/test_suite/validations/column/column_values_missing_count_to_be_equal.py:53 | Every other character is kept, as often as it occurs. |
| PyBuiltins.RemoveAllAppend | ingestion/src/metadata/test_suite/validations/column/column_values_missing_count_to_be_equal.py:53 | Removal distributes over concatenation. |
| PyBuiltins.NatToStringRoundTrip | ingestion/src/metadata/test_suite/validations/column/column_values_missing_count_to_be_equal.py:131 | The decimal digits of a natural number denote that number. |
| PyBuiltins.IntToStringRoundTrip | ingestion/src/metadata/test_suite/validations/column/column_values_missing_count_to_be_equal.py:131 | `str(i)` of an int parses back to `i`, negative numbers included. |
| PyBuiltins.FromCount | ingestion/src/metadata/test_suite/validations/column/column_values_missing_count_to_be_equal.py:121 | A NULL count becomes None, and a present count becomes that int. |
| PyBuiltins.IntToString | ingestion/src/metadata/test_suite/validations/column/column_values_missing_count_to_be_equal.py:131 | `str(i)` starts with '-' exactly when i is negative, and the rest is decimal digits. `IntToStringRoundTrip` shows that it parses back to i. |
| PyBuiltins.Str | ingestion/src/metadata/test_suite/validations/column/column_values_missing_count_to_be_equal.py:124 | `str(v)` and f-string formatting: "None" exactly for None, an int's text parses back to that int, and a list is written between '[' and ']'. |
| PyBuiltins.Truthy | ingestion/src/metadata/test_suite/validations/column/column_values_missing_count_to_be_equal.py:96 | Python truthiness: exactly None, 0 and the empty list are false. |

## Left out

- The base entity repository is not part of this model. That covers storage
  through the DAO, the version bump, update timestamps, the generic PATCH and
  PUT flow, and `applyTags`. Storing is a map write, adding a relationship is
  a set insert, and `recordChange` appends to a sequence. Versions are natural
  numbers that `SetChangeDescription` installs as given.
- `Entity.getEntityReference` and `getContainer`/`getOwner` are stood in for
  by `ResolveReference` (a lookup in a directory of entities) and `Related`
  (the unique incoming edge of a kind). Their real database queries are not
  modelled.
- `FullyQualifiedName.add` is modelled as plain joining with '.'. The quoting
  of names that contain '.' is not modelled.
- `JSONObject.similar` is modelled on flat JSON objects with scalar members.
  Nested objects and arrays are not modelled. POJO `equals` is Dafny's
  structural equality on the datatypes.
- The JSON serialisation of the source configuration, and null source
  configurations, are not modelled. A null source configuration would make
  `updateSource` throw.
- IngestionPipelines.IngestionPipelineRepository.StoreRelationships: requires a
  service. With a null service the source throws a NullPointerException
  before writing anything, and the model does not represent that.
- IngestionPipelines.IngestionPipelineRepository.Deploy: requires a client
  when a deploy is due. A missing static client makes the source throw, and
  the model does not represent that. The same holds for `PostCreate` and
  `PostUpdate`, and for `PostDelete`, which always needs the client. The
  airflow configuration is never null in the model, so the
  NullPointerException that `deploy` raises on a pipeline without one is not
  represented.
- IngestionPipelines.IngestionPipelineUpdater.UpdateAirflowConfig: the airflow
  configuration is never null in the model. A null original configuration,
  on which the source throws, is not represented. A null updated
  configuration, which the source records as a change to null, cannot
  arise.
- IngestionPipelines.IngestionPipelineUpdater.UpdateSource: the source and its
  service name are never null in the model. A null source on either side, or
  a null original service name, makes the source throw a
  NullPointerException. A null updated service name is recorded as a "source"
  change, because `equals(null)` is false. The model represents neither case.
- IngestionPipelines.GetFqn: the service reference's FQN and the pipeline's
  name are never null in the model. The text Java would build from a null
  there is not represented.
- The calls to the pipeline service client are recorded in a ghost log, and
  their network behaviour is not modelled. `SetPipelineServiceClient` sets a
  field of the repository rather than a static shared by all repositories.
- IngestionPipelines.IngestionPipelineRepository.Store: the `update` flag is
  passed along as in the source, but the model does not distinguish an insert
  from an update. Both write the body under the id.
- The delegating getters and setters of the entity interface are not
  modelled, because each only reads or writes one field. That covers the id,
  description, display name, name, deleted flag, owner, href and
  update details.
- Python's `literal_eval` is not modelled. Parameter values arrive already
  evaluated as None, an int or a list of strings.
- SQLAlchemy's `inspect` is modelled as a list of column names. The NULL-count
  and count-in-set queries are modelled as their outcomes: an error message,
  or a first-row value that may be NULL. The in-set query's dependence on the
  marker values is not modelled.
- Logging is not modelled.
- `str()` of a list is given for lists of strings, each written between
  single quotes as it stands. Python's `repr` of the items is not modelled:
  its choice of quote character, and its escaping of quotes, backslashes and
  non-printable characters.

## Findings

| source | as written | input that shows it | evidently intended | confidence | as-written member | corrected member |
|---|---|---|---|---|---|---|
| catalog-rest-service/src/main/java/org/openmetadata/catalog/jdbi3/IngestionPipelineRepository.java:307-319 | `updateOpenMetadataServerConnection` and `updateLogLevel` call `equals` on the original value after checking only the updated value for null. | An original pipeline with no server connection (or no logger level), updated to one that has it: the check throws a NullPointerException instead of recording the change. | The change is recorded, with null as the old value. | medium, not executed | IngestionPipelines.NullableCheckAsWritten | IngestionPipelines.NullableChangedAgreesAsWritten |

The corrected comparison `IngestionPipelines.NullableChanged` is the one
`Diff` and the updater use. `IngestionPipelines.NullOriginalThrowsAsWritten`
exhibits the input. `IngestionPipelines.DiffIsComplete` proves that the
corrected check records such a change.
