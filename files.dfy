/**
 * The file level of the loader: the `.json` filter over the directory
 * listing, and the list of simplified records built from the parsed
 * bundles in the order the files are processed.
 */
module Files {
  import opened Fhir
  import opened Bundle

  /** `f.endswith('.json')` */
  predicate IsJson(name: string) {
    |name| >= 5 && name[|name| - 5..] == ".json"
  }

  /** `[f for f in os.listdir(dir) if f.endswith('.json')]` */
  function JsonFiles(listing: seq<FileItem>): (r: seq<FileItem>)
    ensures |r| <= |listing|
    ensures forall f :: f in r <==> f in listing && IsJson(f.name)
    decreases |listing|
  {
    if listing == [] then []
    else (if IsJson(listing[0].name) then [listing[0]] else []) + JsonFiles(listing[1..])
  }

  /** The filter keeps the listing's order. */
  lemma {:induction false} JsonFilesConcat(a: seq<FileItem>, b: seq<FileItem>)
    ensures JsonFiles(a + b) == JsonFiles(a) + JsonFiles(b)
    decreases |a|
  {
    if a == [] {
      assert a + b == b;
    } else {
      assert (a + b)[1..] == a[1..] + b;
      JsonFilesConcat(a[1..], b);
    }
  }

  /** The file's bundle, if it has one, can be flattened without an indexing failure. */
  predicate FileIndexable(f: FileItem) {
    f.entries.Some? ==> AllIndexable(f.entries.value)
  }

  /** Every bundle that will be read can be flattened without an indexing failure. */
  predicate FilesIndexable(fs: seq<FileItem>) {
    forall i :: 0 <= i < |fs| ==> FileIndexable(fs[i])
  }

  /** What one file adds to `all_simplified_patients`. */
  function Emit(f: FileItem): seq<Record>
    requires FileIndexable(f)
  {
    match f.entries
    case None => []
    case Some(es) =>
      match Simplify(es)
      case None => []
      case Some(rec) => [rec]
  }

  /** `all_simplified_patients` after processing `fs` in order. */
  function SimplifyAll(fs: seq<FileItem>): seq<Record>
    requires FilesIndexable(fs)
    decreases |fs|
  {
    if fs == [] then [] else SimplifyAll(fs[..|fs| - 1]) + Emit(fs[|fs| - 1])
  }

  lemma FilesIndexableConcat(a: seq<FileItem>, b: seq<FileItem>)
    ensures FilesIndexable(a + b) <==> FilesIndexable(a) && FilesIndexable(b)
  {
    if FilesIndexable(a + b) {
      forall i | 0 <= i < |b| ensures FileIndexable(b[i]) {
        assert b[i] == (a + b)[|a| + i];
      }
      forall i | 0 <= i < |a| ensures FileIndexable(a[i]) {
        assert a[i] == (a + b)[i];
      }
    }
    if FilesIndexable(a) && FilesIndexable(b) {
      forall i | 0 <= i < |a + b| ensures FileIndexable((a + b)[i]) {
        if i >= |a| { assert (a + b)[i] == b[i - |a|]; }
      }
    }
  }

  /** Records of earlier files come before those of later files, and files do not interact. */
  lemma {:induction false} SimplifyAllConcat(a: seq<FileItem>, b: seq<FileItem>)
    requires FilesIndexable(a) && FilesIndexable(b)
    ensures FilesIndexable(a + b)
    ensures SimplifyAll(a + b) == SimplifyAll(a) + SimplifyAll(b)
    decreases |b|
  {
    FilesIndexableConcat(a, b);
    if b == [] {
      assert a + b == a;
    } else {
      var n := |b| - 1;
      assert (a + b)[..|a + b| - 1] == a + b[..n];
      FilesIndexableConcat(b[..n], [b[n]]);
      assert b[..n] + [b[n]] == b;
      SimplifyAllConcat(a, b[..n]);
    }
  }

  lemma SimplifyAllSingle(f: FileItem)
    requires FileIndexable(f)
    ensures FilesIndexable([f])
    ensures SimplifyAll([f]) == Emit(f)
  {
    assert [f][0] == f;
    assert [f][..0] == [];
  }

  /**
   * One file contributes at most one record, and one exactly when it has an
   * `entry` list holding a Patient entry.
   */
  lemma OnePerFile(f: FileItem)
    requires FileIndexable(f)
    ensures FilesIndexable([f])
    ensures |SimplifyAll([f])| <= 1
    ensures |SimplifyAll([f])| == 1 <==>
              f.entries.Some? && exists i :: 0 <= i < |f.entries.value| && IsPatient(f.entries.value[i])
  {
    SimplifyAllSingle(f);
    if f.entries.Some? {
      SimplifyKeptIff(f.entries.value);
    }
  }

  /** A file without an `entry` key is skipped and leaves the others' records as they are. */
  lemma NoEntrySkipped(a: seq<FileItem>, f: FileItem, b: seq<FileItem>)
    requires FilesIndexable(a) && FilesIndexable(b)
    requires f.entries.None?
    ensures FilesIndexable(a + [f] + b) && FilesIndexable(a + b)
    ensures SimplifyAll(a + [f] + b) == SimplifyAll(a) + SimplifyAll(b)
  {
    SimplifyAllSingle(f);
    assert SimplifyAll([f]) == [];
    SimplifyAllConcat(a, [f]);
    assert SimplifyAll(a + [f]) == SimplifyAll(a);
    SimplifyAllConcat(a + [f], b);
    SimplifyAllConcat(a, b);
  }

  lemma {:induction false} SimplifyAllBound(fs: seq<FileItem>)
    requires FilesIndexable(fs)
    ensures |SimplifyAll(fs)| <= |fs|
    decreases |fs|
  {
    if fs != [] {
      SimplifyAllBound(fs[..|fs| - 1]);
    }
  }

  /** A record is in the list exactly when some file's bundle flattens to it. */
  lemma {:induction false} SimplifyAllMembers(fs: seq<FileItem>, r: Record)
    requires FilesIndexable(fs)
    ensures r in SimplifyAll(fs) <==>
              exists i :: 0 <= i < |fs| && fs[i].entries.Some? && Simplify(fs[i].entries.value) == Some(r)
    decreases |fs|
  {
    if fs != [] {
      var n := |fs| - 1;
      var init := fs[..n];
      assert FilesIndexable(init);
      SimplifyAllMembers(init, r);
      assert r in SimplifyAll(fs) <==> r in SimplifyAll(init) || r in Emit(fs[n]);
      forall i | 0 <= i < n ensures init[i] == fs[i] { }
    }
  }

  /** Taking one file out of the middle takes its record out of the list. */
  lemma SimplifyAllExtract(a: seq<FileItem>, x: FileItem, b: seq<FileItem>)
    requires FilesIndexable(a) && FileIndexable(x) && FilesIndexable(b)
    ensures FilesIndexable(a + [x] + b) && FilesIndexable(a + b)
    ensures multiset(SimplifyAll(a + [x] + b)) == multiset(SimplifyAll(a + b)) + multiset(Emit(x))
  {
    SimplifyAllSingle(x);
    SimplifyAllConcat(a, [x]);
    SimplifyAllConcat(a + [x], b);
    SimplifyAllConcat(a, b);
  }

  lemma MultisetRemove(fs: seq<FileItem>, x: FileItem, gs: seq<FileItem>, j: nat)
    requires multiset(fs + [x]) == multiset(gs)
    requires j < |gs| && gs[j] == x
    ensures gs == gs[..j] + [x] + gs[j + 1..]
    ensures multiset(fs) == multiset(gs[..j] + gs[j + 1..])
  {
    var a, b := gs[..j], gs[j + 1..];
    assert gs == a + [x] + b;
    assert multiset(gs) == multiset(a) + multiset{x} + multiset(b);
    assert multiset(a + b) == multiset(a) + multiset(b);
    assert multiset(fs + [x]) == multiset(fs) + multiset{x};
    calc {
      multiset(fs);
      multiset(fs + [x]) - multiset{x};
      multiset(gs) - multiset{x};
      (multiset(a) + multiset(b) + multiset{x}) - multiset{x};
      multiset(a) + multiset(b);
    }
  }

  /** Reordering the files only reorders the records: the same multiset comes out. */
  lemma {:induction false} SimplifyAllPermutation(fs: seq<FileItem>, gs: seq<FileItem>)
    requires FilesIndexable(fs) && FilesIndexable(gs)
    requires multiset(fs) == multiset(gs)
    ensures multiset(SimplifyAll(fs)) == multiset(SimplifyAll(gs))
    decreases |fs|
  {
    if fs == [] {
      assert |gs| == |multiset(gs)| == 0;
    } else {
      var n := |fs| - 1;
      var x := fs[n];
      assert fs == fs[..n] + [x];
      assert x in multiset(gs);
      var j :| 0 <= j < |gs| && gs[j] == x;
      MultisetRemove(fs[..n], x, gs, j);
      var a, b := gs[..j], gs[j + 1..];
      FilesIndexableConcat(a + [x], b);
      FilesIndexableConcat(a, [x]);
      assert FileIndexable(x);
      SimplifyAllPermutation(fs[..n], a + b);
      SimplifyAllExtract(a, x, b);
    }
  }
}
