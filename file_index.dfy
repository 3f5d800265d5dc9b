/** The file index: one entry per walked directory that directly holds files,
    built from the steps of a directory walk, and the (directory, filename)
    records a search scans. */
module FileIndex {

  /** One `(root, files)` pair of the index: a directory and the plain names
      of the files directly inside it, in enumeration order. */
  datatype Entry = Entry(directory: string, files: seq<string>)

  /** One `(root, dirs, files)` triple produced by the directory walk. The walk
      itself is file-system I/O and is an input here. */
  datatype WalkStep = WalkStep(root: string, dirs: seq<string>, files: seq<string>)

  /** One (directory, filename) pair considered by a search. */
  datatype Record = Record(directory: string, file: string)

  /** The comprehension `[(root, files) for root, dirs, files in walk if files]`. */
  function BuildIndex(walk: seq<WalkStep>): (idx: seq<Entry>)
    ensures |idx| <= |walk|
    ensures forall e :: e in idx ==> e.files != []
  {
    if walk == [] then []
    else
      var w := walk[0];
      (if w.files != [] then [Entry(w.root, w.files)] else []) + BuildIndex(walk[1..])
  }

  /** An entry is in the built index exactly when some walk step has that root
      and that non-empty file list. */
  lemma {:induction false} BuildIndexMembers(walk: seq<WalkStep>, e: Entry)
    ensures e in BuildIndex(walk) <==>
      exists k :: 0 <= k < |walk| && walk[k].files != [] && Entry(walk[k].root, walk[k].files) == e
  {
    if walk != [] {
      BuildIndexMembers(walk[1..], e);
      if e in BuildIndex(walk[1..]) {
        var k :| 0 <= k < |walk[1..]| && walk[1..][k].files != [] && Entry(walk[1..][k].root, walk[1..][k].files) == e;
        assert walk[k + 1] == walk[1..][k];
      }
      forall k | 0 < k < |walk| && walk[k].files != [] && Entry(walk[k].root, walk[k].files) == e
        ensures e in BuildIndex(walk[1..])
      {
        assert walk[1..][k - 1] == walk[k];
      }
    }
  }

  /** The built index keeps walk order: building over two consecutive parts of
      a walk gives the two indexes one after the other. */
  lemma {:induction false} BuildIndexAppend(a: seq<WalkStep>, b: seq<WalkStep>)
    ensures BuildIndex(a + b) == BuildIndex(a) + BuildIndex(b)
  {
    if a != [] {
      assert (a + b)[1..] == a[1..] + b;
      BuildIndexAppend(a[1..], b);
    } else {
      assert a + b == b;
    }
  }

  /** The records of one entry: its directory paired with each file, in order.
      There is one record per file, and a record belongs to the entry exactly
      when it pairs the entry's directory with one of its files. */
  function EntryRecords(e: Entry): (rs: seq<Record>)
    ensures |rs| == |e.files|
    ensures forall r :: r in rs <==> r.directory == e.directory && r.file in e.files
  {
    var rs := seq(|e.files|, k requires 0 <= k < |e.files| => Record(e.directory, e.files[k]));
    assert forall k :: 0 <= k < |e.files| ==> rs[k] == Record(e.directory, e.files[k]);
    rs
  }

  /** Taking one more file of an entry adds one record at the end. */
  lemma EntryRecordsExtend(directory: string, files: seq<string>, j: nat)
    requires j < |files|
    ensures EntryRecords(Entry(directory, files[..j + 1]))
      == EntryRecords(Entry(directory, files[..j])) + [Record(directory, files[j])]
  {
  }

  /** All records of an index, entry by entry, in scan order: one record per
      filename. */
  function Records(idx: seq<Entry>): (rs: seq<Record>)
    ensures |rs| == TotalRecords(idx)
  {
    if idx == [] then [] else EntryRecords(idx[0]) + Records(idx[1..])
  }

  /** The total number of filenames across all entries of an index: every
      entry's files are counted. */
  function TotalRecords(idx: seq<Entry>): (n: nat)
    ensures forall k :: 0 <= k < |idx| ==> |idx[k].files| <= n
  {
    if idx == [] then 0
    else
      assert forall k :: 1 <= k < |idx| ==> idx[k] == idx[1..][k - 1];
      |idx[0].files| + TotalRecords(idx[1..])
  }

  /** A search scans no record exactly when no entry of the index has a file;
      in particular, an empty index gives zero records. */
  lemma {:induction false} NoRecordsIffNoFiles(idx: seq<Entry>)
    ensures TotalRecords(idx) == 0 <==> forall k :: 0 <= k < |idx| ==> idx[k].files == []
  {
    if idx != [] {
      NoRecordsIffNoFiles(idx[1..]);
      assert forall k :: 1 <= k < |idx| ==> idx[k] == idx[1..][k - 1];
    }
  }

  lemma {:induction false} RecordsAppend(a: seq<Entry>, b: seq<Entry>)
    ensures Records(a + b) == Records(a) + Records(b)
  {
    if a != [] {
      assert (a + b)[1..] == a[1..] + b;
      RecordsAppend(a[1..], b);
    } else {
      assert a + b == b;
    }
  }

  /** Taking one more entry of an index adds that entry's records at the end. */
  lemma RecordsExtend(idx: seq<Entry>, i: nat)
    requires i < |idx|
    ensures Records(idx[..i + 1]) == Records(idx[..i]) + EntryRecords(idx[i])
  {
    assert idx[..i + 1] == idx[..i] + [idx[i]];
    RecordsAppend(idx[..i], [idx[i]]);
    assert Records([idx[i]]) == EntryRecords(idx[i]);
  }

  /** All (root, file) pairs of a walk, empty directories included. */
  function WalkRecords(walk: seq<WalkStep>): seq<Record>
  {
    if walk == [] then []
    else EntryRecords(Entry(walk[0].root, walk[0].files)) + WalkRecords(walk[1..])
  }

  /** Dropping the directories without files loses no file: the built index
      yields every walked file exactly once, in walk order. */
  lemma {:induction false} BuildIndexKeepsEveryFile(walk: seq<WalkStep>)
    ensures Records(BuildIndex(walk)) == WalkRecords(walk)
  {
    if walk != [] {
      var w := walk[0];
      var head := if w.files != [] then [Entry(w.root, w.files)] else [];
      RecordsAppend(head, BuildIndex(walk[1..]));
      BuildIndexKeepsEveryFile(walk[1..]);
      assert Records(head) == EntryRecords(Entry(w.root, w.files));
    }
  }
}
