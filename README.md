# LZProduction core, modelled in Dafny

This project models three pieces of the LZ simulation-production service and
proves properties about them.

- **The git tag macro service** (`GitTagMacros.index`). For an application
  and a tag of the macro repository, it checks the tag out and lists, as a
  rendered page, the `.mac` macro files under the application's macro
  directory. Results are kept in a 50-entry least-recently-used cache keyed
  by `app::tag`. For no tag it lists all tags in descending natural order.
  The LRU cache is written out as a map plus a recency list (`Lru`). The
  natural order is its own module (`NatSort`). The working tree is a class
  whose `Checkout` changes the checked-out ref (`Git`).
- **The request daemon** (`scripts/ganga-daemon.py`):
  - the task lookup `getGangaRequest`;
  - one reconciliation pass of `monitor_requests`: filter out New and
    Completed requests, split the rest into Approved, Paused and Running
    buckets, and copy the capitalised ganga task status onto each request
    under the rules of its bucket;
  - the clean-up wrapper `auto_cleanup_request`;
  - the split of a request's `selected_macros` text into four columns
    (`MacroSpec`).

  The request table is a class holding the row order and a status map. The
  pass is proved equal to a pure fold (`Reconcile`), and the lemmas are
  stated about that fold.
- **`temporary_macro`**: a fresh temporary `.mac` file holding the macro
  file's bytes at a tag, followed by a trailer. The trailer is built with
  `string.Template.safe_substitute`, which is modelled in full
  (`StringTemplate`), so the exact trailer text is a lemma.

Python 2 `str` values are byte strings; here they are Dafny strings with one
character per byte. `split()`, `splitlines()`, `int()`, `str()` and
`capitalize()` are modelled on ASCII, as Python 2 applies them to `str`
(`Text`). `os.path.join`, `basename` and `splitext` are modelled in `Paths`.

Where the code does something other than what its names, messages and
unfinished parts suggest was intended, the model follows the code:

- **Macro selection split.** The four names unpacked at
  scripts/ganga-daemon.py:55 suggest each line holds exactly four fields.
  The code transposes the rows with `zip`, which yields as many tuples as
  the shortest line has fields. The split therefore fails exactly when the
  shortest line does not have four fields. When it does, fields after the
  fourth on longer lines are silently dropped
  (`MacroSpec.ExtraFieldDropped`, `MacroSpec.LongLinesFail`).
- **Running request with an unexpected task status.** The message "This
  should not happen" (scripts/ganga-daemon.py:76) marks the case as a
  fault of that one request. The code raises, and the raise ends the whole pass. Running
  requests after it are not processed
  (`GangaDaemon.ReconcileRunningFailed`).
- **Rollback on failure.** The dangling `session.begin_nested()` and
  `auto_cleanup_request` at scripts/ganga-daemon.py:87-88 point to
  per-request sub-transactions that undo a failed request. No such
  transaction surrounds the updates at lines 41-84. The table model is the
  session's in-memory state when the raise happens: updates made before
  the raise are still in it. Whether `db_session` then commits or rolls
  them back is not part of this model.

How the unparseable parts of `scripts/ganga-daemon.py` are read:

- Line 41 has no colon, and lines 43-46 are not indented under it. It is
  read as `if ganga_request is not None:` guarding only the update at
  lines 43-45; the `continue` at line 46 runs for every Approved request.
  So an Approved request without a task never reaches line 47 and keeps
  its status.
- Line 30 has `Request` where `Requests` is meant; it is read as `Requests`.
- A Running request with no task fails at `ganga_request.status` (line 75).
  The model reports this as the error `NoTask`.

## Model

| member | source | states |
|---|---|---|
| TagMacros.KnownApps | src/python/services/GitTagMacros.py:12-13 | exactly LUXSim and BACCARAT have a macro directory: BackgroundMacros and BaccValidationMacros |
| TagMacros.OmittedAppIsLuxSim | src/python/services/GitTagMacros.py:35 | omitting the application gives the same cache key and the same macro directory as naming LUXSim |
| TagMacros.TagText | src/python/services/GitTagMacros.py:38 | `str(tagid)`: the printed tag is "None" exactly when there is no tag or the tag is the text "None" |
| TagMacros.CacheKey | src/python/services/GitTagMacros.py:38 | the key starts with the application and "::", and the rest of it is the printed tag |
| TagMacros.CacheKeySharedExactly | src/python/services/GitTagMacros.py:38 | for one application, two lookups share a key if and only if their tags print the same, so no tag and the tag "None" collide |
| TagMacros.GitTagMacros.constructor | src/python/services/GitTagMacros.py:24-32 | the service starts with an empty, valid cache of capacity 50 |
| TagMacros.GitTagMacros.Index | src/python/services/GitTagMacros.py:34-59 | a hit returns the stored text, marks the key most recently used, and checks nothing out; no tag gives the rendered tag list in descending natural order and leaves cache and tree alone; an unknown application gives "" and leaves both alone; otherwise exactly one checkout of the tag happens, and on success the rendered macro list is returned and stored under the key with LRU eviction; a failed checkout stores nothing |
| TagMacros.RepeatedIndexIsCached | src/python/services/GitTagMacros.py:38-40 | asking twice for the same known application and existing tag gives the same text twice with at most one checkout |
| TagMacros.MacrosInDir | src/python/services/GitTagMacros.py:51-54 | the macros of one directory are exactly its files ending in ".mac", named without the extension, with their path joined to the directory |
| TagMacros.ListMacros | src/python/services/GitTagMacros.py:51-54 | the listed macros are exactly the ".mac" files of the walked directories at or below the application's directory |
| TagMacros.MacroPathShape | src/python/services/GitTagMacros.py:51-54 | a ".mac" file of a directory at or below the application's directory, joined to that directory, is a ".mac" path under the application's directory whose base name is the file name |
| TagMacros.ListedMacroShape | src/python/services/GitTagMacros.py:51-54 | every listed macro's path ends in ".mac" and starts with the application's directory and "/"; its name is the path's base name without the extension |
| TagMacros.MacrosInDirSingle | src/python/services/GitTagMacros.py:51-54 | a directory holding one ".mac" file lists exactly that macro |
| TagMacros.MacroOfMacFile | src/python/services/GitTagMacros.py:51-54 | in any directory, a file "stem.mac" is listed as the macro "stem" at the directory, "/", and the file name |
| TagMacros.MacroNamedByStem | src/python/services/GitTagMacros.py:51-52 | a file "stem.mac" in BackgroundMacros is listed as the macro "stem" at "BackgroundMacros/stem.mac" |
| Lru.SizeMatchesOrder | src/python/services/GitTagMacros.py:31 | a well-formed cache stores as many entries as its recency list names |
| Lru.Touch | src/python/services/GitTagMacros.py:40 | using a key moves it to the most recent end and keeps the other keys in their order, with no duplicates |
| Lru.TouchWellFormed | src/python/services/GitTagMacros.py:40 | using a stored key keeps the cache well formed |
| Lru.Insert | src/python/services/GitTagMacros.py:58 | after storing, the key holds the new value and is the most recently used |
| Lru.InsertWellFormed | src/python/services/GitTagMacros.py:58 | storing keeps the cache well formed and never above its capacity |
| Lru.InsertEvictsLeastRecent | src/python/services/GitTagMacros.py:58 | storing a new key in a full cache evicts exactly the least recently used key; every other entry keeps its value and the size stays the same |
| Lru.InsertKeepsOthers | src/python/services/GitTagMacros.py:58 | storing into a cache with room, or storing over a stored key, loses no entry and changes no other value |
| Lru.InsertOrder | src/python/services/GitTagMacros.py:58 | the whole recency order after a store: a stored key moves to the most recent end, and a new key is appended after the least recently used key is dropped from a full cache |
| Lru.TouchedKeySurvivesEviction | src/python/services/GitTagMacros.py:39-58 | a key just used is not the one evicted by the next store of a new key, when the capacity is at least two |
| Lru.LruCache.constructor | src/python/services/GitTagMacros.py:31 | a new cache is empty and valid, with the given capacity |
| Lru.LruCache.Get | src/python/services/GitTagMacros.py:40 | reading a stored key returns its value, leaves the stored values as they were, and makes the key the most recently used |
| Lru.LruCache.Put | src/python/services/GitTagMacros.py:58 | storing updates the cache in place as `Insert` describes, keeping it valid |
| NatSort.Chunks | src/python/services/GitTagMacros.py:43 | the natural-order key of a name has at most one chunk per character and is empty only for the empty name; ChunksOfFourRuns and ChunksOfV1 give its value on version names |
| NatSort.NatLe | src/python/services/GitTagMacros.py:43 | the order `natsorted` sorts by, compared chunk by chunk; NatLeTotal and NatLeTransitive prove it a total preorder |
| NatSort.StrLessIrreflexive | src/python/services/GitTagMacros.py:43 | no text run sorts before itself |
| NatSort.StrLessTrichotomy | src/python/services/GitTagMacros.py:43 | any two different text runs are ordered one way or the other |
| NatSort.StrLessTransitive | src/python/services/GitTagMacros.py:43 | the text-run order is transitive |
| NatSort.ChunkLessIrreflexive | src/python/services/GitTagMacros.py:43 | no chunk sorts before itself |
| NatSort.ChunkTrichotomy | src/python/services/GitTagMacros.py:43 | any two chunks are equal or ordered one way or the other |
| NatSort.ChunkLessTransitive | src/python/services/GitTagMacros.py:43 | the chunk order is transitive |
| NatSort.ChunksLeTotal | src/python/services/GitTagMacros.py:43 | any two keys are comparable |
| NatSort.ChunksLeTransitive | src/python/services/GitTagMacros.py:43 | the key order is transitive |
| NatSort.NatLeTotal | src/python/services/GitTagMacros.py:43 | any two names are comparable in natural order |
| NatSort.NatLeTransitive | src/python/services/GitTagMacros.py:43 | natural order is transitive |
| NatSort.InsertDescending | src/python/services/GitTagMacros.py:43 | inserting a name into a descending list keeps it descending, and the result holds the old names plus the new one |
| NatSort.SortDescending | src/python/services/GitTagMacros.py:43 | the sorted tags are in descending natural order and hold every input tag exactly as often as the input |
| NatSort.ChunksOfFourRuns | src/python/services/GitTagMacros.py:43 | a name made of a text run, a digit run, a text run and a digit run has those four runs as its key, the digit runs by value |
| NatSort.ChunksOfV1 | src/python/services/GitTagMacros.py:43 | the key of "v1." followed by digits is "v", 1, ".", and the value of the digits |
| NatSort.V1KeysOrder | src/python/services/GitTagMacros.py:43 | two such keys are ordered as their last numbers are |
| NatSort.V1NamesOrder | src/python/services/GitTagMacros.py:43 | "v1." followed by digits d comes no later than "v1." followed by digits e exactly when d's value is at most e's |
| NatSort.SortThree | src/python/services/GitTagMacros.py:43 | sorting three names descending, when the second is the largest and the third the smallest, puts the second first |
| NatSort.VersionTenAfterTwo | src/python/services/GitTagMacros.py:43 | "v1.10" comes after "v1.2" in natural order, not before it |
| NatSort.VersionTwoAfterOne | src/python/services/GitTagMacros.py:43 | "v1.2" comes after "v1.1" in natural order, not before it |
| NatSort.VersionTenAfterOne | src/python/services/GitTagMacros.py:43 | "v1.10" comes after "v1.1" in natural order, not before it |
| NatSort.VersionTagsSorted | src/python/services/GitTagMacros.py:43 | the tags "v1.2", "v1.10", "v1.1" are listed as "v1.10", "v1.2", "v1.1" |
| Git.FindInDir | src/python/tempfile_utils.py:34 | a directory has a file at a path if and only if one of its files, joined to the directory, is that path; the content returned is that file's |
| Git.ReadFile | src/python/tempfile_utils.py:34 | the tree has a regular file at a path if and only if some walked directory holds a file whose joined path is that path, and the content returned is that file's content |
| Git.WorkingTree.Checkout | src/python/services/GitTagMacros.py:50 | a checkout succeeds exactly for a ref the repository has; then the tree holds that ref, otherwise it is unchanged; every checkout is recorded |
| Paths.Join | src/python/services/GitTagMacros.py:52 | `os.path.join`: BasenameOfJoin proves that the last component of a joined relative name is that name |
| Paths.Basename | src/python/tempfile_utils.py:37 | the base name holds no separator, is a suffix of the path, and is either the whole path or preceded by a separator, so it is the whole last component |
| Paths.BasenameOfJoin | src/python/services/GitTagMacros.py:52 | the base name of a directory joined with a plain file name is that file name |
| Paths.StripExt | src/python/services/GitTagMacros.py:51 | `os.path.splitext(p)[0]` is a prefix of `p`; StripMacSuffix and DotMacHasNoExtension give its value on macro names |
| Paths.StripMacSuffix | src/python/services/GitTagMacros.py:51 | a plain name ending in ".mac", whose stem is not all dots, loses exactly ".mac" |
| Paths.DotMacHasNoExtension | src/python/services/GitTagMacros.py:51 | a file named ".mac" keeps its whole name, as `splitext` treats a leading dot as part of the name |
| GangaDaemon.FindTask | scripts/ganga-daemon.py:18-23 | the result is the first task, in list order, serving the request; it is None exactly when no task does |
| GangaDaemon.GetGangaRequest | scripts/ganga-daemon.py:18-23 | the linear search with early return finds what `FindTask` describes |
| GangaDaemon.IsMonitored | scripts/ganga-daemon.py:29-30 | the statuses of the three buckets are monitored, and Completed and New are not |
| GangaDaemon.Monitored | scripts/ganga-daemon.py:27-31 | the monitored requests are exactly those whose status is neither Completed nor New, without duplicates |
| GangaDaemon.WithStatus | scripts/ganga-daemon.py:33-38 | a bucket holds exactly the given requests with its status, without duplicates |
| GangaDaemon.BucketOf | scripts/ganga-daemon.py:33-38 | a bucket holds exactly the monitored requests with the bucket's status |
| GangaDaemon.BucketsPartitionMonitored | scripts/ganga-daemon.py:33-38 | the Approved, Paused and Running buckets are pairwise disjoint and each lies within the monitored requests |
| GangaDaemon.Rule | scripts/ganga-daemon.py:41-84 | only the Running loop raises, exactly for a request with no task or with a task neither paused nor completed; every status it writes is the task's status capitalised |
| GangaDaemon.Apply | scripts/ganga-daemon.py:40-84 | one loop over a bucket keeps the table's keys; ApplyRaises, ApplyRow and ApplyUntouched give its error and its effect on every request |
| GangaDaemon.FirstRaise | scripts/ganga-daemon.py:74-76 | the index found is that of the first request in the bucket whose rule raises, or the bucket's length when none does |
| GangaDaemon.ApplyRaises | scripts/ganga-daemon.py:74-76 | working through a bucket raises exactly when some request's rule does, with the error of the first such request |
| GangaDaemon.ApplyUntouched | scripts/ganga-daemon.py:40-84 | working through a bucket leaves every request outside it as it was |
| GangaDaemon.ApplyRow | scripts/ganga-daemon.py:40-84 | working through a bucket gives a request before the first raising one the status its rule sets, and leaves that one and later ones as they were |
| GangaDaemon.ApplyEffect | scripts/ganga-daemon.py:40-84 | working through a bucket updates the requests before the first raising one as their rules say, changes nothing else, and raises exactly when some rule does, with that request's error |
| GangaDaemon.ApplyNeverRaises | scripts/ganga-daemon.py:40-72 | the Approved and Paused loops never raise |
| GangaDaemon.Reconcile | scripts/ganga-daemon.py:26-84 | a whole pass keeps the table's keys; ReconcileSettled, ReconcileRunningClean and ReconcileRunningFailed give its effect on every request, with and without a raise |
| GangaDaemon.ReconcileStages | scripts/ganga-daemon.py:40-84 | a pass is the Running loop worked through from the statuses the Approved and Paused loops leave, which keep the table's keys |
| GangaDaemon.SettledRow | scripts/ganga-daemon.py:40-72 | after the Approved and Paused loops, an Approved request with a task carries the task's capitalised status, and so does a Paused request whose task is not paused; every other request, Running ones included, is as it was |
| GangaDaemon.ReconcileSettled | scripts/ganga-daemon.py:40-72 | a pass updates an Approved request with a task, and a Paused request whose task is not "paused", to the capitalised task status; it never updates a non-running request of any other status |
| GangaDaemon.RunningRow | scripts/ganga-daemon.py:74-84 | a Running request before the first raising one ends the pass with its task's status, paused or completed, capitalised; that one and later ones keep their status |
| GangaDaemon.RunningRaises | scripts/ganga-daemon.py:74-76 | a pass raises exactly when some Running request's rule raises, and then with the first such request's error |
| GangaDaemon.ReconcileRunningClean | scripts/ganga-daemon.py:74-84 | after a pass that does not raise, every Running request has a task that is paused or completed, and carries its status capitalised |
| GangaDaemon.ReconcileRunningFailed | scripts/ganga-daemon.py:74-76 | a pass that raises does so at the first Running request whose task is missing or neither paused nor completed; earlier Running requests are updated, and that one and all later ones are not |
| GangaDaemon.CapitalizedStatuses | scripts/ganga-daemon.py:84 | "paused" and "completed" are written as "Paused" and "Completed" |
| GangaDaemon.CleanPassMirrorsTasks | scripts/ganga-daemon.py:40-84 | after a pass that does not raise, every Approved, Paused or Running request with a task carries that task's status, capitalised |
| GangaDaemon.RequestsTable.UpdateStatus | scripts/ganga-daemon.py:43-45 | the update sets the status of the one row with that id, and of no other |
| GangaDaemon.SyncApproved | scripts/ganga-daemon.py:40-46 | the Approved loop leaves the table as the Approved bucket's fold says |
| GangaDaemon.SyncPaused | scripts/ganga-daemon.py:68-72 | the Paused loop leaves the table as the Paused bucket's fold says |
| GangaDaemon.SyncRunning | scripts/ganga-daemon.py:74-84 | the Running loop leaves the table, and raises, as the Running bucket's fold says |
| GangaDaemon.MonitorRequests | scripts/ganga-daemon.py:26-84 | one pass leaves the table's rows alone and its statuses, with the error that ends it early, exactly as `Reconcile` describes |
| GangaDaemon.AutoCleanupRequest | scripts/ganga-daemon.py:9-16 | the body's outcome is passed on unchanged; if the body fails, the created request is removed again, and otherwise it stays as the body left it |
| MacroSpec.Rows | scripts/ganga-daemon.py:55 | there is one row per line, and each row is that line split on whitespace |
| MacroSpec.Width | scripts/ganga-daemon.py:55 | `zip` yields as many tuples as the shortest row has fields, and none for no rows |
| MacroSpec.WidthFour | scripts/ganga-daemon.py:55 | `zip` yields four tuples exactly when there is a line, no line has fewer than four fields, and some line has exactly four |
| MacroSpec.Column | scripts/ganga-daemon.py:55 | tuple k holds field k of every line, in line order |
| MacroSpec.ParseInts | scripts/ganga-daemon.py:58-60 | converting a column succeeds exactly when every field is an integer, and gives their values in order; otherwise it fails at the first field that is not |
| MacroSpec.Columns | scripts/ganga-daemon.py:55-60 | the four columns succeed exactly when the second to fourth fields of every line are integers; then each column has one entry per line, in line order |
| MacroSpec.ParseColumn | scripts/ganga-daemon.py:55-60 | a column converts exactly when every field of it is an integer, and then to those integers in line order |
| MacroSpec.IntegerFieldsByColumn | scripts/ganga-daemon.py:55-60 | the second to fourth fields of every line are integers exactly when each of those three columns is |
| MacroSpec.ColumnsAre | scripts/ganga-daemon.py:55-60 | lines whose first field is the macro and whose next three are the given numbers split into exactly those columns |
| MacroSpec.ParseSpec | scripts/ganga-daemon.py:55-60 | the split fails with the field count exactly when `zip` does not yield four tuples; otherwise it is the four columns |
| MacroSpec.ShortLineFails | scripts/ganga-daemon.py:55 | a line with fewer than four fields, a blank one included, makes the split fail |
| MacroSpec.LongLinesFail | scripts/ganga-daemon.py:55 | when every line has more than four fields, the split fails |
| MacroSpec.ExtraFieldDropped | scripts/ganga-daemon.py:55 | when another line has exactly four fields, a fifth field on one line is dropped rather than rejected |
| MacroSpec.TwoRowsColumns | scripts/ganga-daemon.py:55-60 | two lines, one with a fifth field and one with four, give `zip` four tuples and split into the first four fields of each |
| MacroSpec.RowsOfFormat | scripts/ganga-daemon.py:55 | the rows of a written selection are its lines' four fields |
| MacroSpec.ColumnsOfLineFields | scripts/ganga-daemon.py:56-60 | the columns of those rows are the selection's columns |
| MacroSpec.FormatParseRoundTrip | scripts/ganga-daemon.py:55-60 | writing a well-formed selection one line per macro and splitting it again gives it back |
| MacroSpec.RowsOfWordLines | scripts/ganga-daemon.py:55 | lines written as space-joined non-empty words split back into those words, line by line |
| Text.Fields | scripts/ganga-daemon.py:55 | every field of `split()` is non-empty and holds no whitespace |
| Text.FieldsJoinWords | scripts/ganga-daemon.py:55 | splitting words joined by spaces gives back the words, when each is non-empty and free of whitespace |
| Text.FieldsWordThenSpace | scripts/ganga-daemon.py:55 | a word followed by a space splits off as the first field |
| Text.FieldsOneWord | scripts/ganga-daemon.py:55 | a single word splits into itself |
| Text.SplitLines | scripts/ganga-daemon.py:55 | no line of `splitlines()` holds a line break, and there are no lines exactly for empty text |
| Text.SplitJoinLines | scripts/ganga-daemon.py:55 | splitting lines joined by newlines gives back the lines, when none holds a break and the last is not empty |
| Text.ParseInt | scripts/ganga-daemon.py:58-60 | `int()` on a field; IntToStringRoundTrip proves it reads back every integer's decimal text |
| Text.IntToStringRoundTrip | scripts/ganga-daemon.py:58-60 | `int(str(i)) == i` for every integer |
| Text.NatToStringValue | scripts/ganga-daemon.py:58-60 | the decimal digits `str` writes for a natural number read back as that number |
| Text.Capitalize | scripts/ganga-daemon.py:45 | `str.capitalize` keeps the length; CapitalizeKeepsLowerTail and CapitalizeIdempotent give its value |
| Text.CapitalizeKeepsLowerTail | scripts/ganga-daemon.py:45 | capitalising a word with no upper-case letter after the first upper-cases the first letter and keeps the rest |
| Text.CapitalizeIdempotent | scripts/ganga-daemon.py:45 | capitalising twice is capitalising once |
| TempfileUtils.AppAlias | src/python/tempfile_utils.py:21 | the command prefix is "Bacc" for BACCARAT and the application's own name for any other |
| TempfileUtils.TrailerShapeText | src/python/tempfile_utils.py:22-27 | pieces of the trailer's shape spell text, "$a", text, "$a", text, "$n", text, and fill to the same texts around the values of a and n |
| TempfileUtils.TrailerShapeUnambiguous | src/python/tempfile_utils.py:22-27 | such pieces are unambiguous when the texts hold no "$", the texts after placeholders cannot continue a name, and the names are identifiers |
| TempfileUtils.TrailerTextsPlain | src/python/tempfile_utils.py:22-27 | the trailer's texts hold no "$", and each text after a placeholder starts with a character that cannot continue a name |
| TempfileUtils.TrailerPiecesSpellTemplate | src/python/tempfile_utils.py:22-27 | the trailer template is "$app", "$app" and "$nevents" placed between its texts, and is unambiguous |
| TempfileUtils.MacroExtrasText | src/python/tempfile_utils.py:22-27 | the trailer is exactly "\n/control/getEnv SEED\n/" + prefix + "/randomSeed {SEED}\n/" + prefix + "/beamOn " + str(nevents) + "\nexit\n", with `{SEED}` left literal |
| TempfileUtils.MacroExtras | src/python/tempfile_utils.py:22-27 | the substituted trailer; MacroExtrasText proves it is exactly the trailer text with the application alias and the event count |
| TempfileUtils.TempName | src/python/tempfile_utils.py:37-38 | the temporary file's path; TempNameShape proves its base name starts with the macro's stem and "_" and ends in ".mac" |
| TempfileUtils.TempFileNameShape | src/python/tempfile_utils.py:37-38 | a separator-free stem, "_", a separator-free random part and ".mac", joined to the temporary directory, has a base name starting with the stem and "_" and ending in ".mac" |
| TempfileUtils.TempNameShape | src/python/tempfile_utils.py:37-38 | the temporary file's base name starts with the macro's base name without extension and "_", and ends in ".mac" |
| TempfileUtils.StemHasNoSeparator | src/python/tempfile_utils.py:37-38 | the macro's base name without its extension holds no "/" |
| TempfileUtils.TempFile.Write | src/python/tempfile_utils.py:40-41 | a write appends its data to the file's contents |
| TempfileUtils.TemporaryMacro | src/python/tempfile_utils.py:20-43 | the tag is checked out once; an unknown tag or a missing macro file fails with no file made; otherwise a fresh file, named as `TempName` says, holds the macro file's bytes followed by the trailer |
| StringTemplate.SafeSubstitute | src/python/tempfile_utils.py:41 | `Template.safe_substitute`; SubstitutePlain, SubstituteNamed, SubstituteEscaped, SubstituteBraced and SubstitutePieces characterise it |
| StringTemplate.SubstitutePlain | src/python/tempfile_utils.py:41 | text without "$" is copied unchanged by `safe_substitute` |
| StringTemplate.SubstituteNamed | src/python/tempfile_utils.py:41 | "$name" becomes the value of `name` when it has one, and stays as it is otherwise, when what follows cannot continue the name |
| StringTemplate.SubstituteEscaped | src/python/tempfile_utils.py:41 | "$$" becomes one "$" |
| StringTemplate.SubstituteBraced | src/python/tempfile_utils.py:41 | "${name}" becomes the value of `name` when it has one, and stays as it is otherwise |
| StringTemplate.RenderCons | src/python/tempfile_utils.py:41 | a template of pieces spells, and fills to, its first piece followed by the rest |
| StringTemplate.RenderStartsWithLiteral | src/python/tempfile_utils.py:41 | pieces that start with non-empty literal text spell text starting with that text's first character |
| StringTemplate.SubstitutePieces | src/python/tempfile_utils.py:41 | `safe_substitute` on an unambiguous template whose placeholders all have values replaces each placeholder by its value and copies the literal text |

## Left out

- The checkout lock (src/python/services/GitTagMacros.py:30, 49) is not modelled, because the model runs one call at a time.
- Cloning and fetching the repository (src/python/services/GitTagMacros.py:26-28, src/python/tempfile_utils.py:32) are not modelled. The repository is given as its tag list and, for each ref `git checkout` accepts, the tree that ref leaves on disk. Checkout fails exactly for a ref not in that map.
- The `print` at src/python/services/GitTagMacros.py:37 is not modelled.
- Jinja: loading the page template is not modelled. Rendering is a function given to the service, applied to the tag list or to the macro list.
- `os.walk` is given as a list of directories with their files, in walk order. Its order, symbolic links and errors are not modelled.
- TempfileUtils.TemporaryMacro: a macro path is matched as text against the joined paths of the tree. Relative paths that `os.path.isfile` accepts but that are not in normal form, such as `BackgroundMacros//x.mac`, `./BackgroundMacros/x.mac` or `a/../BackgroundMacros/x.mac`, give `MacroMissing` in the model.
- `os.path.relpath` is not computed. Walked directories are already relative to the top of the working tree, as are macro paths in `temporary_macro`. An absolute macro path, which `os.path.join` would let replace the repository directory, is not modelled.
- NatSort.SortDescending: `natsorted` is simplified. Names are cut into digit runs and other runs, compared by value and by character code, and a digit run sorts before text. Signed numbers, floats and locale handling are not modelled. The contract states order and permutation but not the stable order of names with equal keys.
- GangaDaemon.Reconcile: the three buckets are taken from the statuses as the query returned them. In the source they are lazy generators over session objects. If SQLAlchemy synchronises those objects on `update`, a request updated by an earlier loop could appear in a later loop's bucket. That is not modelled.
- The task creation for an Approved request without a task (scripts/ganga-daemon.py:47-66) is not modelled, apart from the split of the macro selection at lines 55-60. That code cannot run as written: it uses an undefined `t` and sits after an unconditional `continue`. In the model such a request keeps its status.
- The feedback for a completed task (scripts/ganga-daemon.py:79-81) is a `pass` in the source and has no effect in the model.
- The dangling block at scripts/ganga-daemon.py:87-89 is not modelled.
- The daemon start-up at scripts/ganga-daemon.py:92-111 is not modelled.
- The SQL session is not modelled. The calls `.update(status=...)` at scripts/ganga-daemon.py:45, 72 and 84 are read as setting the status of the one row the filter selects; that this call form works depends on the query class of `sqlalchemy_utils`, which is not part of this model. Also not modelled: commit, rollback, `begin_nested`, and other columns of a request. The table is its row order plus a status per request id.
- The ganga API is not modelled. Tasks are given as (request id, status) pairs. `LZRequest()` becomes a task handed to `auto_cleanup_request`. `remove(remove_jobs=True)` becomes removing that task from the registry, and the removal of its jobs on the grid is not modelled.
- Text.Fields and Text.SplitLines follow Python 2 byte-string `split()` and `splitlines()`. If the database returns `selected_macros` as `unicode`, these also break at `\v`, `\f`, `\x1c`-`\x1e`, `\x85`, `\u2028` and `\u2029`; that is not modelled.
- Python's `int()` also accepts surrounding whitespace and non-ASCII digits. Fields from `split()` carry no whitespace, and non-ASCII digits are not modelled.
- `textwrap.dedent` is not modelled. The trailer template is given in its dedented form, with the whitespace-only last line reduced to an empty one.
- `temporary_runscript` (src/python/tempfile_utils.py:9-16) is not modelled, because it only renders a Jinja template into a temporary file.
- Deleting the temporary file when the `with` block ends (src/python/tempfile_utils.py:37, 43) is not modelled. The temporary directory and the random part of the name are parameters.
- TempfileUtils.TemporaryMacro: the event count is an integer written with `str`. Values of other types are not modelled.
- scripts/start-webserver.py and src/python/suds_utils.py are not part of this model.
