# Job tracker collections, modelled in Dafny

The job tracker is a small HTTP service. It keeps two record collections, jobs
and target companies, each as a JSON array in its own data file. Every
request handler runs one load, change, save step over one collection:

- list the collection;
- replace it whole;
- append one record built from the request with defaults;
- delete the records that have a given id;
- shallow-merge a patch over the first record that has a given id.

The two collections share the same code shape. They differ only in their seed
record and their table of add defaults. The model writes that shape once and
selects the collection with `Kind` (`Jobs` or `Targets`).

Files:

- `wrappers.dfy`: `Option`, used for the id parsed from the request path.
  A path id that does not parse (`NaN`) is `None`.
- `sequences.dfy`: slicing and concatenation facts for any element type.
- `json.dfy`: JSON values, records (`map<string, Value>`) and JavaScript
  truthiness.
- `collection.dfy`: the pure operations, written as functions with lemmas.
  They cover the seed records, the add-defaults tables, building the added
  record (`body.f || default`), `findIndex`, `filter` and the spread merge.
- `store.dfy`: class `Store`. Its field `file` holds the data file, either
  the stored records or `None` when the file is missing or does not parse.
  Its methods are the read and write functions and the five handlers.
  `JobLifecycle` runs one job through add, list, update and delete.

Each handler gets an `Env`. It holds the clock when the file is read (used as
the target seed's id), the clock when add builds its record, today's date,
whether the read succeeds, whether the seeding write succeeds and whether the
handler's own write succeeds. A failed read is any read error, including one
on a present, valid file.

Two behaviours of the code that are easy to miss:

- Add replaces every falsy request value, not only a missing one. A request
  value of `""`, `0`, `false` or `null` also gets the default.
- Reading never fails outward. When the file is missing, does not parse or
  cannot be read, the read returns the seed record even if the seeding write
  fails, so list never answers 500. If that write fails the file stays as
  it was, and only the returned value is the seed.
- A read error on a present file is treated like a missing file. If the
  seeding write succeeds, it overwrites the stored records with the seed.
  Add, delete and update then work on the seed alone and save the result.

## Model

| member | source | states |
|---|---|---|
| Collection.Seed | server.js:71-86 | The seed record has an id. It is 1 for jobs (lines 32-41) and the read-time clock for targets. Its status is present and truthy. |
| Json.Truthy | server.js:151-157 | A value is falsy exactly when it is `null`, `false`, `0` or `""`. Arrays and objects are truthy. |
| Collection.AddDefaults | server.js:149-158 | The defaults table has no `id`. For jobs, status is `applied`, position `New Position` and appliedDate today's date. For targets (lines 267-277), priority is `medium` and status `researching`. |
| Collection.FieldOr | server.js:151-157 | `body.f \|\| default`: a present, truthy request value is kept. A missing or falsy one gives the default. |
| Collection.Matches | server.js:181 | A record has the id exactly when it has a numeric `id` equal to the parsed id. A path id that did not parse (`NaN`) matches no record, and neither does a record without a numeric `id`. |
| Collection.NewRecord | server.js:149-158 | The added record has exactly the table's fields plus `id`. Its `id` is the clock value. A table field takes the request's value when that value is truthy and the table default otherwise (lines 267-277 for targets). |
| Collection.NewRecordIdempotent | server.js:265-278 | Adding a record that add itself built, at the same clock value, gives back the same record. |
| Collection.NewRecordIgnoresOtherFields | server.js:149-158 | Two requests that agree on the table's fields build the same record. Other request fields, a client-chosen `id` among them, are dropped. |
| Collection.FindIndex | server.js:205 | The result is -1 exactly when no record has the id. Otherwise it is an index whose record has the id, and no earlier record has it. |
| Collection.RemoveById | server.js:181 | The filter result is no longer than the input, and no surviving record has the id. That survivors come from the input with their multiplicities is RemoveByIdCounts. |
| Collection.RemoveByIdAppend | server.js:300 | Filtering distributes over concatenation, so survivors keep their relative order. |
| Collection.RemoveByIdNoMatch | server.js:181-185 | Filtering for an id that no record has returns the collection unchanged. |
| Collection.RemoveByIdCounts | server.js:181 | Each record without the id survives as many times as it occurred. No record with the id survives. |
| Collection.RemoveByIdUnchangedIff | server.js:183-185 | The filter keeps the length exactly when `findIndex` gives -1, and then the collection is unchanged. This covers a path id that did not parse. |
| Collection.RemoveByIdUniqueRemovesOne | server.js:300-310 | With unique ids, deleting an id that is present removes exactly the record `findIndex` locates. The length drops by one. |
| Collection.NoneMatchIsIdAbsent | server.js:181 | For a parsed id, no record matching it under `===` is the same as its numeric value being absent from every record's `id`. |
| Collection.RemoveByIdKeepsIdsUnique | server.js:300 | Deleting keeps ids unique. |
| Collection.AddKeepsIdsUnique | server.js:265-279 | If no record has the clock value as its id yet, appending the new record keeps ids unique. A later lookup of that id finds the appended record. |
| Collection.Merge | server.js:212 | The merged record has the keys of both inputs. Patch keys take the patch's values. Every other key keeps its old value. |
| Collection.UpdateAtIndex | server.js:331 | Replacing index i with the merge keeps the length and every other index. Patch fields win, and the record's other fields are kept. |
| Collection.UpdateKeepsIds | server.js:324-331 | A patch without an `id` keeps ids unique. The updated record is still the first one with that id. |
| Collection.MergeIdempotent | server.js:331 | Applying the same patch twice gives the same record as applying it once. |
| FileStore.Loaded | server.js:24-45 | A successful read of a present file returns the stored records. A missing file or any read error gives exactly the one seed record. |
| FileStore.AfterLoad | server.js:29-43 | A successful read leaves the file as it was. After a missing file or a read error, the file holds the seed if the seeding write succeeded, even over stored records, and stays as it was otherwise. A file the read changed holds exactly what the read returned. |
| FileStore.Store.Write | server.js:49-59 | The write reports the file system's answer. On success the file is exactly the given records; on failure it is unchanged. |
| FileStore.Store.Load | server.js:63-90 | The read returns the stored records, or the seed when the file is missing or cannot be read. A seed whose write succeeded is also stored, replacing whatever the file held. |
| FileStore.Store.List | server.js:111-121 | GET returns what the read returns, and the file changes only by the seeding write. |
| FileStore.Store.ReplaceAll | server.js:125-140 | The file becomes exactly the supplied records, without a read. The reply is the count on success and 500 on a failed write, which leaves the file unchanged. |
| FileStore.Store.Add | server.js:144-171 | The file becomes the read records plus the new record at the end, and the reply is that record. A failed write gives 500. |
| FileStore.Store.Delete | server.js:175-198 | If no record has the id, the reply is 404 and nothing is written after the read. Otherwise the id parsed, the file becomes the filtered records and the reply echoes the id. A failed write gives 500. |
| FileStore.Store.Update | server.js:201-223 | If no record has the id, the reply is 404 and nothing is written after the read. Otherwise only the first matching index is replaced by the merge, and the reply is that stored record. A failed write gives 500. |

The target handlers (server.js:229-342) are the same methods on a `Store`
whose `kind` is `Targets`.

## Left out

- HTTP routing, middleware, static files, `res.status`/`res.json`, and
  server start-up (server.js:5-20, 344-360). These are framework plumbing.
  A reply is the `Reply` datatype.
- Real file I/O and JSON parsing and printing, including the indented
  format. The data file is the abstract `file` field. A write's success is
  an input.
- FileStore.Store.Write: a failed write is modelled as leaving the file
  unchanged. A real interrupted `fs.writeFile` may leave it truncated.
- `Date.now()` and `new Date().toISOString()`. They are the `Env` fields
  `readClock`, `clock` and `today`.
- Console logging.
- Interleaving of concurrent requests between a handler's read and its
  write. Each handler is one sequential step.
- `parseInt` itself. Its result is an `Option<int>`.
- Data files that hold valid JSON that is not an array, such as `{}` or
  `null`. The read returns such a value as it is (server.js:28). Add, delete
  and update then answer 500 when `push`, `filter` or `findIndex` throws.
  The `file` field holds either records or nothing, so it cannot hold such
  a value.
- Stored arrays whose elements are not objects. In the source a `null`
  element makes `filter`/`findIndex` throw, which gives 500. Here every
  element is a record.
- Request bodies that are not JSON objects, and a missing body (where
  `req.body.f` throws). A replace-all body is taken to be an array of
  records.
- The order of keys in a record, which only affects the printed JSON.
