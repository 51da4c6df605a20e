# Synthea FHIR loader, modelled in Dafny

This project models `load_data` in `backend/load_synthea_data.py`. The routine:

1. Takes the `.json` files of a Synthea output directory.
2. Flattens each FHIR bundle into at most one simplified patient document: `_id`, `name`, `gender`, `birthDate`, `conditions`, `medications`, `reports_text`.
3. If at least one document was built, clears the MongoDB `patients` collection and bulk-inserts the documents.

The modules follow the steps of the routine:

- `Fhir` (fhir.dfy): a typed stand-in for the parsed JSON.
  - Each key read with `dict.get` is an `Option`.
  - A nested object read through `.get(key, {})` is an `Option` whose `None` is the `{}` default.
  - Python's truthiness test on a text (`if condition_text:`) is `Truthy`, which rejects both `None` and `""`.
- `Names` (names.dfy): the name string, `' '.join(given) + ' ' + family`. It comes with Python's `split` as the inverse of `join`.
- `Bundle` (bundle.dfy): the entry loop.
  - `Step` is one iteration: the dispatch on `resourceType`.
  - `Run` is the loop over a prefix of the entries.
  - `Simplify` is the "keep only if a Patient was seen" rule.
  - `Texts` (the non-empty texts of one kind, in entry order) and the index of the last Patient entry are independent descriptions of the result. The lemmas connect the two.
- `Files` (files.dfy): the `.json` filter, and the list of records in file order, `SimplifyAll`.
- `Sink` (sink.dfy): the collection as a class with a `docs` sequence. It has `DeleteMany` and an ordered `InsertMany`, which stops at the first document whose `_id` is already present; that is MongoDB's bulk write error.
- `Loader` (loader.dfy): the imperative code.
  - `SimplifyBundle` and `CollectRecords` are the two loops, each proved equal to its specification function.
  - `LoadData` is the whole routine, proved to end in the state that the function `Load` describes.
  - Lemmas about `Load` state the write policy.

Inputs that stand for I/O:

- `connected`: the MongoDB `ismaster` check succeeded.
- `dirExists`: the Synthea directory exists.
- `listing`: the directory listing in `os.listdir` order. Each item pairs a file name with its parsed `entry` list, or `None` when the bundle has no `entry` key.

What the loader does, and does not do:

- Records are not merged across files by patient id.
- `urn:uuid:` references are not stripped.
- Report payloads are not base64-decoded.
- Conditions, medications and report `div` texts go to the single record of the bundle they appear in.
- A Patient without an `id` is kept, with a null `_id`.
- When there are no records, nothing is cleared.
- The record list follows file order. Only its multiset is independent of that order (`Files.SimplifyAllPermutation`).
- `name` is a list: the code takes `name[0]`.

## Model

| member | source | states |
|---|---|---|
| Files.JsonFiles | backend/load_synthea_data.py:41 | the filtered listing holds exactly the listing items whose name ends in `.json`, and is no longer than the listing |
| Files.JsonFilesConcat | backend/load_synthea_data.py:41 | the filter keeps listing order: filtering a concatenation concatenates the filtered parts |
| Loader.NoJsonNoWrite | backend/load_synthea_data.py:35-47 | with no `.json` name, a connected run ends with NoJsonFiles (or DirectoryMissing) and leaves the collection as it was |
| Loader.SimplifyBundle | backend/load_synthea_data.py:61-102 | the loop over a bundle's entries returns exactly the bundle's specified record, or none |
| Bundle.SimplifyKeptIff | backend/load_synthea_data.py:73-102 | a bundle yields a record exactly when one of its entries has `resourceType` Patient, whatever that entry's `id` |
| Bundle.SimplifyLastPatient | backend/load_synthea_data.py:73-99 | the record of a bundle whose last Patient entry is k carries entry k's id, name, gender and birthDate, and the condition, medication and report texts of the whole bundle |
| Bundle.RunLastPatient | backend/load_synthea_data.py:73-79 | after the loop, the demographic keys are those of the last Patient entry (last writer wins) |
| Bundle.RunNoPatient | backend/load_synthea_data.py:73-79 | without a Patient entry the demographic keys are never set |
| Bundle.RunList | backend/load_synthea_data.py:82-99 | each of the three lists grows by exactly the non-empty texts of its resource type, in entry order |
| Bundle.SimplifyLists | backend/load_synthea_data.py:82-99 | a kept record's `conditions`, `medications` and `reports_text` are exactly the texts of its kind in entry order, and no condition is "" |
| Bundle.TextsNonEmpty | backend/load_synthea_data.py:84-96 | missing or empty texts are never appended |
| Bundle.IgnoredEntry | backend/load_synthea_data.py:69-94 | inserting an entry with no `resource`, or of any other `resourceType`, anywhere in a bundle does not change its record |
| Bundle.JaneDoeBundle | backend/load_synthea_data.py:61-102 | a Patient `p1` with `name: [{given: ["Jane"], family: "Doe"}]`, gender female and birth date 1980-01-01, followed by a Condition `Hypertension`, gives the one record `{_id: "p1", name: "Jane Doe", gender: "female", birthDate: "1980-01-01", conditions: ["Hypertension"], medications: [], reports_text: []}` |
| Names.PatientNameIsJoin | backend/load_synthea_data.py:75-77 | the stored name is the first `name` entry's given names (or one empty field) and family name, joined by single spaces |
| Names.PatientNameFields | backend/load_synthea_data.py:75-77 | splitting the stored name on spaces gives back the given names and the family name when none contains a space |
| Names.SplitJoin | backend/load_synthea_data.py:77 | `split` inverts `' '.join` on parts without the separator |
| Names.MissingNameIsOneSpace | backend/load_synthea_data.py:75-77 | a Patient without `name` is stored under the name " " |
| Names.JaneDoe | backend/load_synthea_data.py:77 | given ["Jane"] and family "Doe" give "Jane Doe" |
| Loader.CollectRecords | backend/load_synthea_data.py:50-102 | the loop over the files returns exactly the specified record list |
| Files.SimplifyAllConcat | backend/load_synthea_data.py:50-102 | records of earlier files precede those of later files, and files do not affect one another |
| Files.OnePerFile | backend/load_synthea_data.py:57-102 | one file contributes at most one record, and one exactly when it has an `entry` list with a Patient entry |
| Files.NoEntrySkipped | backend/load_synthea_data.py:57-58 | a file without `entry` contributes nothing and leaves the other files' records unchanged |
| Files.SimplifyAllBound | backend/load_synthea_data.py:50-102 | there are never more records than files |
| Files.SimplifyAllMembers | backend/load_synthea_data.py:50-102 | a record is in the list exactly when some file's bundle flattens to it |
| Files.SimplifyAllPermutation | backend/load_synthea_data.py:51-102 | files processed in another order give the same multiset of records |
| Sink.Collection.DeleteMany | backend/load_synthea_data.py:109 | the collection is empty afterwards, and the count removed is its old size |
| Sink.Collection.InsertMany | backend/load_synthea_data.py:113 | the collection becomes its old contents followed by the longest prefix of the documents whose `_id`s are new |
| Sink.AcceptedPrefix | backend/load_synthea_data.py:113-116 | the written prefix has new, pairwise distinct `_id`s, and the first unwritten document repeats an `_id` already present |
| Sink.DistinctIdsPermutation | backend/load_synthea_data.py:113 | whether the documents' `_id`s are pairwise distinct does not depend on their order |
| Sink.AcceptedAllIff | backend/load_synthea_data.py:113-116 | into an empty collection, all documents are written exactly when their `_id`s are pairwise distinct |
| Loader.LoadData | backend/load_synthea_data.py:24-116 | the routine ends with the outcome and collection contents that the function `Load` gives for the inputs and the old contents |
| Loader.UntouchedUnlessRecords | backend/load_synthea_data.py:24-113 | the collection is cleared only when the run is connected, the directory exists and at least one record was built; otherwise it is unchanged |
| Loader.ReplacesWithRecords | backend/load_synthea_data.py:105-116 | when records were built, the collection afterwards equals the records exactly when their `_id`s are distinct; otherwise it holds the records before the first repeated `_id` and the outcome is a bulk write failure |
| Loader.Idempotent | backend/load_synthea_data.py:105-113 | running again on the same files gives the same collection and outcome |
| Loader.OrderIndependent | backend/load_synthea_data.py:51-116 | when one order of the `.json` files gives records with distinct `_id`s, any other order stores the same multiset of documents and ends with the same outcome |

## Left out

- The MongoDB client, its `ismaster` ping and `client.close()` are I/O. They are reduced to the boolean `connected`.
- `os.path.exists` is reduced to the boolean `dirExists`. `os.listdir`, `open` and `json.load` are replaced by the already parsed `listing`. A file that is not valid JSON, whose exception would end the run, is not modelled.
- JSON values of other types than the ones the code expects are not modelled, for example a null where an object or a text is expected, or a string `given`. Some of them raise (a `resource` or `code` that is null). Others produce a different `name`: a null `family` gives a name ending in `None`, and a string `given` such as `"Jane"` is joined letter by letter into `"J a n e"`.
- Bundle.AllIndexable: a Patient whose `name` is an empty list makes `[0]` raise and ends the whole run. The model makes this a precondition instead of an outcome. It applies only to `.json` files, and only when the run is connected and the directory exists, because otherwise no file is read.
- `asyncio` and `await` are only non-blocking I/O. The model is sequential.
- The console output is not modelled. This includes the printed details of `BulkWriteError` and the generic `except Exception` path, which covers failures other than a duplicate `_id` (for example a lost connection).
- Sink.Collection.InsertMany: the only write failure modelled is a duplicate `_id` under the driver's default ordered insert.
- backend/main.py (the HTTP endpoints and the summarisation model), backend/db.py (the global client) and the frontend are not part of this model.
