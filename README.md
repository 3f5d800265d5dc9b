# File search engine: index and query core

This project models the core of a small desktop file search tool. The tool
walks a directory tree and keeps an index of `(directory, filenames)` pairs,
one pair per directory that holds files. A search then scans every filename
of the index once. It tests each filename against the search term,
case-insensitively, with "contains", "starts with" or "ends with". For each
hit it collects the path `directory` (backslashes turned into slashes) + `/` +
`filename`. It also counts the records scanned and the matches found.

Modules:

- `Text` (`text.dfy`): ASCII lower-casing, the prefix, suffix and substring
  tests behind Python's `startswith`, `endswith` and `in`, and the
  backslash-to-slash replacement.
- `FileIndex` (`file_index.dfy`): index entries, the steps of a directory
  walk, the filter that builds the index from a walk, and the records a search
  scans.
- `Engine` (`engine.dfy`): the query, the match condition, the scan that
  specifies a search, the `FileSearchEngine` class with its index-building,
  loading and searching methods, and the lemmas about searches.

The class `FileSearchEngine` keeps the source's fields (`fileIdx`, `results`,
`matches`, `records`). `Search` resets the results and counters and fills them
in two nested loops, as the source does. Its contract ties the new state to
the function `Scan` over the index's records. The lemmas about `Scan` then
state scan order, the counts, the path shape, case-insensitivity and the
meaning of each flag.

The three search flags stay three independent booleans, as in the source's
`A and p or B and q or C and r` condition (main.py:65-67). The form's radio
group sets exactly one flag (main.py:21-23), but the match condition does not
rely on that, so the model accepts any combination: with no flag set nothing
matches, and with several set a file matches when any of the set tests holds.

An index built by a walk has only entries with a non-empty file list
(`BuildIndex`). An index read back from the store is not checked, and a
search handles an entry without files like any other entry.

## Model

| member | source | states |
|---|---|---|
| Text.Lower | main.py:65-67 | `s.lower()` keeps the length and lower-cases each character on its own (ASCII letters only) |
| Text.LowerIdempotent | main.py:65-67 | lower-casing a lower-cased string changes nothing |
| Text.SubstringIffOccurs | main.py:65 | `t in s` holds exactly when `t` occurs in `s` at some position |
| Text.IsPrefix | main.py:66 | `f.startswith(t)` holds exactly when `f` is `t` followed by some rest |
| Text.IsSuffix | main.py:67 | `f.endswith(t)` holds exactly when `f` is some rest followed by `t` |
| Text.IsSubstring | main.py:65 | `t in f` is never true of a `t` longer than `f`, and holds whenever `t` is a prefix or a suffix of `f` |
| Text.ReplaceBackslashes | main.py:69 | `replace('\\', '/')` keeps the length, turns each backslash into a slash, keeps every other character, and leaves no backslash |
| FileIndex.BuildIndex | main.py:43 | the index built from a walk has at most one entry per walk step, and every entry has a non-empty file list |
| FileIndex.BuildIndexMembers | main.py:43 | an entry is in the built index exactly when some walk step has that root and that non-empty file list |
| FileIndex.BuildIndexAppend | main.py:43 | the index keeps walk order: building over two consecutive parts of a walk gives the two indexes one after the other |
| FileIndex.BuildIndexKeepsEveryFile | main.py:43 | dropping directories without files loses no file: the built index's records are all (root, file) pairs of the walk, in walk order |
| FileIndex.EntryRecords | main.py:62-64 | one entry's records: one per file, and a record belongs to them exactly when it pairs the entry's directory with one of its files |
| FileIndex.Records | main.py:62-64 | the records a search scans are the (directory, filename) pairs entry by entry, one per filename, so there are as many as the index has filenames |
| FileIndex.TotalRecords | main.py:58-64 | the `records` total counts every entry's files: no entry has more files than the total |
| FileIndex.NoRecordsIffNoFiles | main.py:58-64 | a search scans zero records exactly when no entry has a file; an empty index gives zero records |
| FileIndex.RecordsExtend | main.py:62-64 | the outer loop's step: one more entry adds that entry's records at the end |
| FileIndex.RecordsAppend | main.py:62-63 | records come entry by entry: the records of two index parts are those of the first part, then those of the second |
| Engine.IsMatch | main.py:65-67 | the match condition on the lower-cased term and filename: nothing matches unless a flag is set, and with "contains" set the empty term matches every file |
| Engine.ResultPath | main.py:69 | a result path is the directory with backslashes replaced, then `/`, then the file name unchanged; its directory part has no backslash |
| Engine.Scan | main.py:62-71 | the specification of a search: the paths of the matching records in scan order, never more of them than records scanned |
| Engine.MatchMeaning | main.py:65-67 | with only "contains" set a file matches when the lower-cased term occurs in the lower-cased name; with only "starts with" or "ends with" set, when it is a prefix or a suffix of it; with no flag set nothing matches |
| Engine.ScanAppend | main.py:62-70 | results keep scan order: the results of earlier records all come before those of later records |
| Engine.ScanPlacesEveryMatch | main.py:62-70 | every matching record's path is in the results, right after the results of the records scanned before it |
| Engine.ScanOnlyMatches | main.py:65-70 | every result is the path of some matching record |
| Engine.EmptyTermMatchesAll | main.py:65 | with "contains" set and an empty term, every record matches, so there is one result per record, in order |
| Engine.NoFlagNoResults | main.py:65-67 | with no flag set a search finds nothing |
| Engine.ScanIgnoresCase | main.py:65-67 | two terms that agree after lower-casing give identical results |
| Engine.LowerTermSameResults | main.py:65-67 | searching for a term or for its lower-cased form gives identical results |
| Engine.ScanNextFile | main.py:63-71 | scanning one more file of an entry adds its path to the results exactly when it matches |
| Engine.FileSearchEngine.constructor | main.py:35-39 | a new engine has an empty index, no results and zero counters |
| Engine.FileSearchEngine.CreateNewIdx | main.py:41-43 | re-indexing replaces the index with the one built from the walk, whatever the previous index was |
| Engine.FileSearchEngine.LoadExistingIdx | main.py:48-53 | loading keeps the stored index when it could be read, and gives the empty index on any failure |
| Engine.FileSearchEngine.Search | main.py:55-71 | after a search the results are the scan of the index's records, `records` is the number of filenames in the index, `matches` is the number of results, and the index is unchanged |
| Engine.RepeatedSearch | main.py:55-58 | a second search on the same engine depends only on the index and the second query, not on the first search's results or counters |
| Engine.ReindexThenSearch | main.py:41-64 | a search after a re-index scans exactly the files of the latest walk, in walk order; an earlier index contributes nothing |

## Left out

- The GUI class and the event loop that reads the form and prints results: presentation only. The form's values reach the model as a `Query` (term and three flags) and as the walk passed to `CreateNewIdx`.
- The directory walk itself: file-system I/O. Its output is an input sequence of `(root, dirs, files)` steps.
- Saving the index with `pickle.dump` and reading it with `pickle.load`: foreign serialisation and file I/O. The outcome of a read is an input `Option`; `None` stands for any exception, which yields the empty index.
- Writing `results.txt` after a search: file I/O.
- Unicode lower-casing: `str.lower()` lower-cases every cased Unicode character and may change the length of a string; `Text.Lower` lower-cases only the ASCII letters A-Z and keeps the length.
