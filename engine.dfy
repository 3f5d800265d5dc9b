/** The search engine: a case-insensitive linear scan of the file index that
    collects the normalised paths of matching files and counts the records
    scanned and the matches found. */
module Engine {
  import opened Text
  import opened FileIndex

  /** The values a search reads from the form: the term and the three radio
      flags. The flags are independent booleans, as in the source; nothing in
      the type stops none or several of them from being set. */
  datatype Query = Query(term: string, contains: bool, startsWith: bool, endsWith: bool)

  /** The match condition: `contains and t in f or startsWith and
      f.startswith(t) or endsWith and f.endswith(t)`, on lower-cased `t`
      and `f`. Nothing matches unless some flag is set, and with "contains"
      set the empty term matches every file. */
  predicate IsMatch(q: Query, file: string)
    ensures IsMatch(q, file) ==> q.contains || q.startsWith || q.endsWith
    ensures q.contains && q.term == [] ==> IsMatch(q, file)
  {
    var t, f := Lower(q.term), Lower(file);
    (q.contains && IsSubstring(t, f)) || (q.startsWith && IsPrefix(t, f)) || (q.endsWith && IsSuffix(t, f))
  }

  /** `path.replace('\\', '/') + '/' + file`: the directory with every
      backslash turned into a slash, then one slash, then the file name
      unchanged; the directory part holds no backslash. */
  function ResultPath(r: Record): (p: string)
    ensures |p| == |r.directory| + 1 + |r.file|
    ensures p[..|r.directory|] == ReplaceBackslashes(r.directory)
    ensures '\\' !in p[..|r.directory|]
    ensures p[|r.directory|] == '/'
    ensures p[|r.directory| + 1..] == r.file
  {
    ReplaceBackslashes(r.directory) + "/" + r.file
  }

  /** The paths of the matching records, in scan order. There are never more
      results than records scanned. */
  function Scan(rs: seq<Record>, q: Query): (r: seq<string>)
    ensures |r| <= |rs|
  {
    if rs == [] then []
    else (if IsMatch(q, rs[0].file) then [ResultPath(rs[0])] else []) + Scan(rs[1..], q)
  }

  /** Each flag on its own means what its name says; a query with no flag set
      matches nothing. */
  lemma MatchMeaning(q: Query, file: string)
    ensures q.contains && !q.startsWith && !q.endsWith ==>
      (IsMatch(q, file) <==> exists i :: OccursAt(Lower(q.term), Lower(file), i))
    ensures !q.contains && q.startsWith && !q.endsWith ==>
      (IsMatch(q, file) <==> IsPrefix(Lower(q.term), Lower(file)))
    ensures !q.contains && !q.startsWith && q.endsWith ==>
      (IsMatch(q, file) <==> IsSuffix(Lower(q.term), Lower(file)))
    ensures !q.contains && !q.startsWith && !q.endsWith ==> !IsMatch(q, file)
  {
    SubstringIffOccurs(Lower(q.term), Lower(file));
    if q.contains && !q.startsWith && !q.endsWith {
      assert IsMatch(q, file) == IsSubstring(Lower(q.term), Lower(file));
    }
  }

  /** Scanning two runs of records one after the other gives the two result
      lists one after the other. */
  lemma {:induction false} ScanAppend(a: seq<Record>, b: seq<Record>, q: Query)
    ensures Scan(a + b, q) == Scan(a, q) + Scan(b, q)
  {
    if a != [] {
      assert (a + b)[1..] == a[1..] + b;
      ScanAppend(a[1..], b, q);
    } else {
      assert a + b == b;
    }
  }

  /** Every matching record contributes its path, placed right after the
      results of the records scanned before it. */
  lemma ScanPlacesEveryMatch(rs: seq<Record>, q: Query, k: nat)
    requires k < |rs| && IsMatch(q, rs[k].file)
    ensures |Scan(rs[..k], q)| < |Scan(rs, q)|
    ensures Scan(rs, q)[|Scan(rs[..k], q)|] == ResultPath(rs[k])
  {
    assert rs == rs[..k] + rs[k..];
    ScanAppend(rs[..k], rs[k..], q);
    assert rs[k..][0] == rs[k];
  }

  /** Every result is the path of some matching record. */
  lemma {:induction false} ScanOnlyMatches(rs: seq<Record>, q: Query, x: string)
    requires x in Scan(rs, q)
    ensures exists k :: 0 <= k < |rs| && IsMatch(q, rs[k].file) && x == ResultPath(rs[k])
  {
    if IsMatch(q, rs[0].file) && x == ResultPath(rs[0]) {
      assert 0 < |rs|;
    } else {
      ScanOnlyMatches(rs[1..], q, x);
      var k :| 0 <= k < |rs[1..]| && IsMatch(q, rs[1..][k].file) && x == ResultPath(rs[1..][k]);
      assert rs[k + 1] == rs[1..][k];
    }
  }

  /** With the contains flag set and an empty term every file matches, so
      there is one result per record. */
  lemma {:induction false} EmptyTermMatchesAll(rs: seq<Record>, q: Query)
    requires q.contains && q.term == []
    ensures |Scan(rs, q)| == |rs|
    ensures forall k :: 0 <= k < |rs| ==> Scan(rs, q)[k] == ResultPath(rs[k])
  {
    if rs != [] {
      EmptyTermMatchesAll(rs[1..], q);
    }
  }

  /** With no flag set nothing matches. */
  lemma {:induction false} NoFlagNoResults(rs: seq<Record>, q: Query)
    requires !q.contains && !q.startsWith && !q.endsWith
    ensures Scan(rs, q) == []
  {
    if rs != [] {
      NoFlagNoResults(rs[1..], q);
    }
  }

  /** Matching is case-insensitive: two terms that agree after lower-casing
      (for instance `term` and `Lower(term)`) give identical results. */
  lemma {:induction false} ScanIgnoresCase(rs: seq<Record>, q: Query, term: string)
    requires Lower(term) == Lower(q.term)
    ensures Scan(rs, q.(term := term)) == Scan(rs, q)
  {
    if rs != [] {
      ScanIgnoresCase(rs[1..], q, term);
    }
  }

  /** Lower-casing the term never changes the results. */
  lemma LowerTermSameResults(rs: seq<Record>, q: Query)
    ensures Scan(rs, q.(term := Lower(q.term))) == Scan(rs, q)
  {
    LowerIdempotent(q.term);
    ScanIgnoresCase(rs, q, Lower(q.term));
  }

  /** One step of the inner loop of a search: scanning one more file of an
      entry adds that file's path to the results exactly when it matches. */
  lemma ScanNextFile(done: seq<Record>, directory: string, files: seq<string>, j: nat, q: Query)
    requires j < |files|
    ensures Scan(done + EntryRecords(Entry(directory, files[..j + 1])), q)
      == Scan(done + EntryRecords(Entry(directory, files[..j])), q)
         + if IsMatch(q, files[j]) then [ResultPath(Record(directory, files[j]))] else []
  {
    var r := Record(directory, files[j]);
    var before := done + EntryRecords(Entry(directory, files[..j]));
    EntryRecordsExtend(directory, files, j);
    assert done + EntryRecords(Entry(directory, files[..j + 1])) == before + [r];
    ScanAppend(before, [r], q);
    assert Scan([r], q) == if IsMatch(q, files[j]) then [ResultPath(r)] else [];
  }

  /** The outcome of reading the stored index: the index that was read, or
      `None` for any failure. */
  datatype Option<T> = None | Some(value: T)

  /** The search engine's state: the loaded index, and the results and
      counters of the last search. */
  class FileSearchEngine {
    var fileIdx: seq<Entry>
    var results: seq<string>
    var matches: nat
    var records: nat

    /** A new engine has an empty index and no results. */
    constructor ()
      ensures fileIdx == [] && results == [] && matches == 0 && records == 0
    {
      fileIdx := [];
      results := [];
      matches := 0;
      records := 0;
    }

    /** Re-indexing replaces the index with the one built from `walk`; the
        previous index plays no part. Saving the index to disk is left out. */
    method CreateNewIdx(walk: seq<WalkStep>)
      modifies this`fileIdx
      ensures fileIdx == BuildIndex(walk)
    {
      fileIdx := BuildIndex(walk);
    }

    /** Loading takes the stored index when it could be read and the empty
        index on any failure (`None`). */
    method LoadExistingIdx(read: Option<seq<Entry>>)
      modifies this`fileIdx
      ensures read.Some? ==> fileIdx == read.value
      ensures read.None? ==> fileIdx == []
    {
      match read {
        case Some(idx) => fileIdx := idx;
        case None => fileIdx := [];
      }
    }

    /** Scans every filename of the index once. Afterwards the results are the
        paths of the matching records in scan order, `records` is the number
        of filenames in the index and `matches` the number of results. The
        previous results and counters play no part, and the index is not
        changed. Writing `results.txt` is left out. */
    method Search(q: Query)
      modifies this`results, this`matches, this`records
      ensures fileIdx == old(fileIdx)
      ensures results == Scan(Records(fileIdx), q)
      ensures records == TotalRecords(fileIdx)
      ensures matches == |results|
    {
      results := [];
      matches := 0;
      records := 0;
      ghost var done: seq<Record> := [];
      var i := 0;
      while i < |fileIdx|
        invariant 0 <= i <= |fileIdx|
        invariant done == Records(fileIdx[..i])
        invariant results == Scan(done, q)
        invariant records == |done|
        invariant matches == |results|
      {
        var path, files := fileIdx[i].directory, fileIdx[i].files;
        var j := 0;
        assert done + EntryRecords(Entry(path, files[..0])) == done;
        while j < |files|
          invariant 0 <= j <= |files|
          invariant results == Scan(done + EntryRecords(Entry(path, files[..j])), q)
          invariant records == |done| + j
          invariant matches == |results|
        {
          var file := files[j];
          records := records + 1;
          ScanNextFile(done, path, files, j, q);
          if IsMatch(q, file) {
            results := results + [ResultPath(Record(path, file))];
            matches := matches + 1;
          }
          j := j + 1;
        }
        assert files[..j] == files;
        RecordsExtend(fileIdx, i);
        done := done + EntryRecords(fileIdx[i]);
        i := i + 1;
      }
      assert fileIdx[..i] == fileIdx;
    }
  }

  /** Two searches in a row on one engine: the second search's outcome depends
      only on the index and the second query, never on the first search. */
  method RepeatedSearch(idx: seq<Entry>, first: Query, second: Query)
    returns (results: seq<string>, matches: nat, records: nat)
    ensures results == Scan(Records(idx), second)
    ensures matches == |results| && records == TotalRecords(idx)
  {
    var engine := new FileSearchEngine();
    engine.LoadExistingIdx(Some(idx));
    engine.Search(first);
    engine.Search(second);
    results, matches, records := engine.results, engine.matches, engine.records;
  }

  /** Re-indexing then searching finds every walked file, including none from
      an earlier index: the records scanned are all (root, file) pairs of the
      latest walk, in walk order. */
  method ReindexThenSearch(earlier: seq<WalkStep>, walk: seq<WalkStep>, q: Query)
    returns (results: seq<string>, records: nat)
    ensures results == Scan(WalkRecords(walk), q)
    ensures records == |WalkRecords(walk)|
  {
    var engine := new FileSearchEngine();
    engine.CreateNewIdx(earlier);
    engine.CreateNewIdx(walk);
    engine.Search(q);
    BuildIndexKeepsEveryFile(walk);
    results, records := engine.results, engine.records;
  }
}
