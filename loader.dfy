/**
 * `load_data`: filter the listing to `.json` files, flatten each bundle
 * into at most one simplified patient record, and, when at least one record
 * was built, clear the collection and bulk-insert the records.
 *
 * The MongoDB connection check and the directory check are the booleans
 * `connected` and `dirExists`; the listing holds the already parsed
 * bundles. `Load` states the whole run as a function of its inputs and the
 * collection's previous contents; `LoadData` is the loop-based procedure,
 * proved to end in the state `Load` describes.
 */
module Loader {
  import opened Fhir
  import opened Bundle
  import opened Files
  import opened Sink

  /** How a run ends: the early returns, nothing to insert, or the bulk insert's result. */
  datatype Outcome =
    | ConnectionFailed
    | DirectoryMissing
    | NoJsonFiles
    | NoRecords
    | Inserted(count: nat)
    | BulkWriteFailed(inserted: nat)

  datatype RunResult = RunResult(outcome: Outcome, docs: seq<Record>)

  /** A whole run, from the collection's contents `docs` before it. */
  function Load(connected: bool, dirExists: bool, listing: seq<FileItem>, docs: seq<Record>): RunResult
    requires connected && dirExists ==> FilesIndexable(JsonFiles(listing))
  {
    if !connected then RunResult(ConnectionFailed, docs)
    else if !dirExists then RunResult(DirectoryMissing, docs)
    else if JsonFiles(listing) == [] then RunResult(NoJsonFiles, docs)
    else
      var records := SimplifyAll(JsonFiles(listing));
      if records == [] then RunResult(NoRecords, docs)
      else
        var n := Accepted({}, records);
        RunResult(if n == |records| then Inserted(n) else BulkWriteFailed(n), records[..n])
  }

  /** The entry loop over one bundle, and the `'_id' in simplified_patient` test. */
  method SimplifyBundle(entries: seq<Entry>) returns (rec: Option<Record>)
    requires AllIndexable(entries)
    ensures rec == Simplify(entries)
  {
    var simplified := EmptyDraft;
    for i := 0 to |entries|
      invariant simplified == Run(EmptyDraft, entries[..i])
    {
      assert entries[..i + 1][..i] == entries[..i];
      var resource := ResourceOf(entries[i]);
      var resourceType := resource.resourceType;
      if resourceType == Some("Patient") {
        simplified := simplified.(patient := Some(PatientOf(resource)));
      } else if resourceType == Some("Condition") {
        var conditionText := ConditionText(resource);
        if Truthy(conditionText) {
          simplified := simplified.(conditions := simplified.conditions + [conditionText.value]);
        }
      } else if resourceType == Some("MedicationRequest") {
        var medText := MedicationText(resource);
        if Truthy(medText) {
          simplified := simplified.(medications := simplified.medications + [medText.value]);
        }
      } else if resourceType == Some("DiagnosticReport") {
        var reportText := ReportText(resource);
        if Truthy(reportText) {
          simplified := simplified.(reportsText := simplified.reportsText + [reportText.value]);
        }
      }
    }
    assert entries[..|entries|] == entries;
    rec := Finish(simplified);
  }

  /** The file loop: `all_simplified_patients`, in file order. */
  method CollectRecords(files: seq<FileItem>) returns (all: seq<Record>)
    requires FilesIndexable(files)
    ensures all == SimplifyAll(files)
  {
    all := [];
    for i := 0 to |files|
      invariant all == SimplifyAll(files[..i])
    {
      assert files[..i + 1][..i] == files[..i];
      assert FileIndexable(files[i]);
      var entries := files[i].entries;
      if entries.None? {
        continue;
      }
      var rec := SimplifyBundle(entries.value);
      if rec.Some? {
        all := all + [rec.value];
      }
    }
    assert files[..|files|] == files;
  }

  method LoadData(connected: bool, dirExists: bool, listing: seq<FileItem>, collection: Collection)
    returns (outcome: Outcome)
    requires connected && dirExists ==> FilesIndexable(JsonFiles(listing))
    modifies collection
    ensures RunResult(outcome, collection.docs) == Load(connected, dirExists, listing, old(collection.docs))
  {
    if !connected {
      return ConnectionFailed;
    }
    if !dirExists {
      return DirectoryMissing;
    }
    var jsonFiles := JsonFiles(listing);
    if jsonFiles == [] {
      return NoJsonFiles;
    }
    var records := CollectRecords(jsonFiles);
    if records == [] {
      return NoRecords;
    }
    var _ := collection.DeleteMany();
    assert Ids(collection.docs) == {};
    var inserted := collection.InsertMany(records);
    outcome := if inserted == |records| then Inserted(inserted) else BulkWriteFailed(inserted);
  }

  // ---------------------------------------------------------------------
  // Properties of a run.

  /** Without a `.json` name in the listing, the run stops before touching the collection. */
  lemma NoJsonNoWrite(dirExists: bool, listing: seq<FileItem>, docs: seq<Record>)
    requires forall i :: 0 <= i < |listing| ==> !IsJson(listing[i].name)
    ensures JsonFiles(listing) == [] && FilesIndexable(JsonFiles(listing))
    ensures Load(true, dirExists, listing, docs) == RunResult(if dirExists then NoJsonFiles else DirectoryMissing, docs)
  {
  }

  /** The collection changes only in a run that built at least one record. */
  lemma UntouchedUnlessRecords(connected: bool, dirExists: bool, listing: seq<FileItem>, docs: seq<Record>)
    requires connected && dirExists ==> FilesIndexable(JsonFiles(listing))
    ensures var r := Load(connected, dirExists, listing, docs);
            !(connected && dirExists && SimplifyAll(JsonFiles(listing)) != []) <==>
              r.outcome in {ConnectionFailed, DirectoryMissing, NoJsonFiles, NoRecords}
    ensures var r := Load(connected, dirExists, listing, docs);
            r.outcome in {ConnectionFailed, DirectoryMissing, NoJsonFiles, NoRecords} ==> r.docs == docs
  {
    if JsonFiles(listing) == [] {
      assert SimplifyAll(JsonFiles(listing)) == [];
    }
  }

  /**
   * When records were built, the old contents are gone and the collection
   * holds exactly the records, in file order, if and only if their `_id`s
   * are pairwise distinct; otherwise it holds the records before the first
   * repeated `_id`.
   */
  lemma ReplacesWithRecords(listing: seq<FileItem>, docs: seq<Record>)
    requires FilesIndexable(JsonFiles(listing))
    requires SimplifyAll(JsonFiles(listing)) != []
    ensures var records := SimplifyAll(JsonFiles(listing));
            var r := Load(true, true, listing, docs);
            && (r.outcome == Inserted(|records|) <==> DistinctIds(records))
            && (DistinctIds(records) ==> r.docs == records)
            && (!DistinctIds(records) ==>
                  exists n :: 0 <= n < |records| && r.outcome == BulkWriteFailed(n) && r.docs == records[..n]
                              && records[n].id in Ids(records[..n]) && DistinctIds(records[..n]))
  {
    var records := SimplifyAll(JsonFiles(listing));
    assert JsonFiles(listing) != [];
    AcceptedAllIff(records);
    AcceptedPrefix({}, records);
    if DistinctIds(records) {
      assert records[..|records|] == records;
    }
  }

  /** Running the loader again on the same files leaves the same collection and reports the same outcome. */
  lemma Idempotent(connected: bool, dirExists: bool, listing: seq<FileItem>, docs: seq<Record>)
    requires connected && dirExists ==> FilesIndexable(JsonFiles(listing))
    ensures Load(connected, dirExists, listing, Load(connected, dirExists, listing, docs).docs)
            == Load(connected, dirExists, listing, docs)
  {
  }

  /**
   * With distinct `_id`s, the order in which the directory lists the files
   * changes only the order of the documents, not which documents are stored
   * nor how the run ends.
   */
  lemma OrderIndependent(l1: seq<FileItem>, l2: seq<FileItem>, docs: seq<Record>)
    requires FilesIndexable(JsonFiles(l1)) && FilesIndexable(JsonFiles(l2))
    requires multiset(JsonFiles(l1)) == multiset(JsonFiles(l2))
    requires DistinctIds(SimplifyAll(JsonFiles(l1)))
    ensures multiset(Load(true, true, l1, docs).docs) == multiset(Load(true, true, l2, docs).docs)
    ensures Load(true, true, l1, docs).outcome == Load(true, true, l2, docs).outcome
  {
    var r1, r2 := SimplifyAll(JsonFiles(l1)), SimplifyAll(JsonFiles(l2));
    SimplifyAllPermutation(JsonFiles(l1), JsonFiles(l2));
    DistinctIdsPermutation(r1, r2);
    assert |r1| == |multiset(r1)| == |multiset(r2)| == |r2|;
    assert |JsonFiles(l1)| == |multiset(JsonFiles(l1))| == |multiset(JsonFiles(l2))| == |JsonFiles(l2)|;
    if r1 != [] {
      ReplacesWithRecords(l1, docs);
      ReplacesWithRecords(l2, docs);
    }
  }
}
