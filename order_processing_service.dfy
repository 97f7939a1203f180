/**
 * The ingest service (services/OrderProcessingService.js): the global user
 * store, the per-line update, the line and file loops with their hash
 * deduplication, the hand-over of new hashes to the hash store, and the
 * query filter.
 *
 * The `Users` object becomes the class `UserStore`; the service's hash
 * manager and its SHA-256 digest are parameters of each operation.
 */
module OrderProcessingService {
  import opened Wrappers
  import opened Strings
  import opened Numbers
  import opened LegacyRecord
  import opened Orders
  import opened Aggregate
  import opened Dedup
  import opened Hashes
  import opened Filter

  /**
   * The `Users` object: each user-id key maps to its ledger object.
   * `keys` lists the keys in the order they were first added; `value` is
   * what the store holds, as a value, and `emitted` logs each
   * "orderUpdated" event with the order it carried.
   */
  class UserStore {
    var users: map<string, OrderProcessor>
    var keys: seq<string>
    ghost var value: Store
    ghost var emitted: seq<Order>

    constructor ()
      ensures users == map[] && keys == [] && value == EmptyStore && emitted == []
      ensures Valid()
    {
      users := map[];
      keys := [];
      value := EmptyStore;
      emitted := [];
    }

    /**
     * `value` mirrors the objects: the same keys in the same order, each
     * key's ledger holding that key's user; and each key has its own
     * ledger object.
     */
    ghost predicate Valid()
      reads this, users.Values
    {
      && value.keys == keys
      && (forall k :: k in users <==> k in value.users)
      && (forall k :: k in users ==> users[k].View() == value.users[k])
      && (forall k1, k2 :: k1 in users && k2 in users && k1 != k2 ==> users[k1] != users[k2])
    }

    /**
     * `value` mirrors the objects except at `key`, whose ledger has been
     * looked up or created with `name` and not yet updated.
     */
    ghost predicate Prepared(key: string, name: string)
      reads this, users.Values
    {
      && key in users
      && keys == (if key in value.users then value.keys else value.keys + [key])
      && (forall k :: k in users <==> k in value.users || k == key)
      && users[key].View() == (if key in value.users then value.users[key] else NewUser(key, name))
      && (forall k :: k in users && k != key ==> users[k] != users[key] && users[k].View() == value.users[k])
      && (forall k1, k2 :: k1 in users && k2 in users && k1 != k2 ==> users[k1] != users[k2])
    }

    /**
     * `updateOrCreateOrder(userId, userName, orderId, prodId, value, date)`:
     * find or create the user, find or create the order, push the product,
     * bump and re-round the total, and emit "orderUpdated" with the order.
     */
    method UpdateOrCreateOrder(userId: string, userName: string, orderId: Num, prodId: Num, value: Money, date: string)
      requires Valid()
      modifies this, users.Values
      ensures Valid()
      ensures this.value == Apply(old(this.value), Record(userId, userName, orderId, prodId, value, date)).store
      ensures emitted == old(emitted) + [Apply(old(this.value), Record(userId, userName, orderId, prodId, value, date)).order]
      ensures userId in users && users == old(users)[userId := users[userId]] && Extends(old(users), users)
      ensures userId in old(users) ==> users[userId] == old(users[userId])
      ensures userId !in old(users) ==> fresh(users[userId])
    {
      var user := LedgerFor(userId, userName);
      Post(Record(userId, userName, orderId, prodId, value, date));
    }

    /** The first step of `updateOrCreateOrder`: the ledger under `userId`, created with the given name when the key is new. */
    method LedgerFor(userId: string, userName: string) returns (user: OrderProcessor)
      requires Valid()
      modifies this
      ensures Prepared(userId, userName) && user == users[userId]
      ensures users == old(users)[userId := user] && Extends(old(users), users) && value == old(value) && emitted == old(emitted)
      ensures userId in old(users) ==> user == old(users[userId])
      ensures userId !in old(users) ==> fresh(user)
    {
      if userId !in users {
        user := new OrderProcessor(userId, userName);
        users := users[userId := user];
        keys := keys + [userId];
      } else {
        user := users[userId];
      }
    }

    /**
     * The rest of `updateOrCreateOrder` once the user's ledger is ready: the
     * ledger is updated in place, the value follows, and the event is logged.
     */
    method Post(r: Record)
      requires Prepared(r.userKey, r.userName)
      modifies this, users[r.userKey]
      ensures Valid()
      ensures value == Apply(old(value), r).store && emitted == old(emitted) + [Apply(old(value), r).order]
      ensures users == old(users)
    {
      ghost var s := value;
      var order := UpdateLedger(users[r.userKey], r);
      emitted, value := emitted + [order], Apply(s, r).store;
    }

    /**
     * `parseLegacyData(data, newLineHashes)`: the text is split at line
     * feeds; each line with content whose hash is neither stored nor already
     * in the batch has its hash added to the batch, is extracted and is
     * applied, and the ledger of its user is collected. The batch set is
     * returned as it ends up.
     */
    method ParseLegacyData(hm: HashManager, data: string, newLineHashes: set<string>, hash: string -> string)
      returns (results: seq<OrderProcessor>, lineHashes: set<string>)
      requires Valid()
      modifies this, users.Values
      ensures Valid() && Extends(old(users), users)
      ensures forall k :: k in users && k !in old(users) ==> fresh(users[k])
      ensures value == ApplyAll(old(value), Ingested(data, hash, hm.lineHashes + newLineHashes)).store
      ensures emitted == old(emitted) + ApplyAll(old(value), Ingested(data, hash, hm.lineHashes + newLineHashes)).events
      ensures Ledgers(results, Ingested(data, hash, hm.lineHashes + newLineHashes), users)
      ensures lineHashes == newLineHashes + (Keys(Split(data, '\n'), HasContent, hash) - hm.lineHashes)
    {
      var lines := Split(data, '\n');
      ghost var users0 := users;
      ghost var run := LineRun(lines, hash, hm.lineHashes, newLineHashes, value, emitted);
      ghost var rs: seq<Record> := [];
      results, lineHashes := [], newLineHashes;
      LinesStart(run, users);
      var i := 0;
      while i < |lines|
        invariant Valid() && Extends(users0, users)
        invariant forall k :: k in users && k !in users0 ==> fresh(users[k])
        invariant LinesDone(run, i, lineHashes, rs, value, emitted, results, users)
        invariant hm.lineHashes == run.stored
      {
        var ledgers, lineHashes' := IngestTurn(hm, lines, i, lineHashes, hash, run, rs, results);
        rs := rs + LineRecords(lines[i], hash, hm.lineHashes + lineHashes);
        results, lineHashes := results + ledgers, lineHashes';
        i := i + 1;
      }
      assert lines[..i] == lines;
    }

    /**
     * `processUploadedFiles(files, newFileHashes, newLineHashes)`: each file
     * that reads to non-empty content whose hash is neither stored nor
     * already in the batch has its hash added to the batch and its lines
     * parsed against the growing line batch; the ledgers of all files are
     * concatenated in file order, and each such file is unlinked when
     * DELETE_FILES is "true" or unset. Returns the ledgers, both batch sets
     * as they end up, and the paths unlinked.
     */
    method ProcessUploadedFiles(hm: HashManager, files: seq<UploadedFile>, newFileHashes: set<string>,
                                newLineHashes: set<string>, hash: string -> string, deleteFiles: Option<string>)
      returns (allUsers: seq<OrderProcessor>, fileHashes: set<string>, lineHashes: set<string>, unlinked: seq<string>)
      requires Valid()
      modifies this, users.Values
      ensures Valid() && Extends(old(users), users)
      ensures forall k :: k in users && k !in old(users) ==> fresh(users[k])
      ensures var rs := Uploaded(files, hash, hm.fileHashes + newFileHashes, hm.lineHashes + newLineHashes);
        && value == ApplyAll(old(value), rs).store
        && emitted == old(emitted) + ApplyAll(old(value), rs).events
        && Ledgers(allUsers, rs, users)
      ensures fileHashes == newFileHashes + (Keys(files, Readable, FileKey(hash)) - hm.fileHashes)
      ensures var taken := TakenFiles(files, hash, hm.fileHashes + newFileHashes);
        && lineHashes == newLineHashes + (Keys(AllLines(taken), HasContent, hash) - hm.lineHashes)
        && unlinked == (if ShouldDelete(deleteFiles) then Paths(taken) else [])
    {
      ghost var s0, e0, users0 := value, emitted, users;
      ghost var fileStored, lineStored := hm.fileHashes, hm.lineHashes;
      var remove := ShouldDelete(deleteFiles);
      allUsers, fileHashes, lineHashes, unlinked := [], newFileHashes, newLineHashes, [];
      FilesStart(files, hash, hm.fileHashes, newFileHashes, hm.lineHashes, newLineHashes, remove, s0, e0, users);
      var i := 0;
      while i < |files|
        invariant Valid() && Extends(users0, users)
        invariant forall k :: k in users && k !in users0 ==> fresh(users[k])
        invariant FilesDone(files, i, hash, hm.fileHashes, newFileHashes, fileHashes, hm.lineHashes, newLineHashes, lineHashes,
                            remove, s0, e0, value, emitted, allUsers, users, unlinked)
        invariant hm.fileHashes == fileStored && hm.lineHashes == lineStored
      {
        allUsers, fileHashes, lineHashes, unlinked :=
          FileTurn(hm, files, i, hash, newFileHashes, newLineHashes, remove, s0, e0, allUsers, fileHashes, lineHashes, unlinked);
        i := i + 1;
      }
      assert files[..i] == files;
    }

    /** One turn of the file loop, which keeps its progress invariant. */
    method FileTurn(hm: HashManager, files: seq<UploadedFile>, i: nat, hash: string -> string,
                    newFileHashes: set<string>, newLineHashes: set<string>, remove: bool, ghost s0: Store, ghost e0: seq<Order>,
                    allUsers: seq<OrderProcessor>, fileHashes: set<string>, lineHashes: set<string>, unlinked: seq<string>)
      returns (allUsers': seq<OrderProcessor>, fileHashes': set<string>, lineHashes': set<string>, unlinked': seq<string>)
      requires Valid() && i < |files|
      requires FilesDone(files, i, hash, hm.fileHashes, newFileHashes, fileHashes, hm.lineHashes, newLineHashes, lineHashes,
                         remove, s0, e0, value, emitted, allUsers, users, unlinked)
      modifies this, users.Values
      ensures Valid() && Extends(old(users), users)
      ensures forall k :: k in users && k !in old(users) ==> fresh(users[k])
      ensures FilesDone(files, i + 1, hash, hm.fileHashes, newFileHashes, fileHashes', hm.lineHashes, newLineHashes, lineHashes',
                        remove, s0, e0, value, emitted, allUsers', users, unlinked')
    {
      ghost var before, v, e := users, value, emitted;
      var fromData, removed;
      fromData, fileHashes', lineHashes', removed := ProcessFile(hm, files[i], fileHashes, lineHashes, hash, remove);
      FileStep(files, i, hash, hm.fileHashes, newFileHashes, fileHashes, fileHashes', hm.lineHashes, newLineHashes,
               lineHashes, lineHashes', remove, s0, e0, v, e, value, emitted, allUsers, fromData, before, users, unlinked, removed);
      allUsers', unlinked' := allUsers + fromData, unlinked + removed;
    }

    /**
     * The body of the file loop for one file: a file that reads to
     * non-empty content whose hash is neither stored nor in the batch is
     * hashed into the batch, its lines are parsed, and its path is
     * unlinked when `remove` holds; any other file changes nothing.
     */
    method ProcessFile(hm: HashManager, file: UploadedFile, fileHashes: set<string>, lineHashes: set<string>,
                       hash: string -> string, remove: bool)
      returns (fromData: seq<OrderProcessor>, fileHashes': set<string>, lineHashes': set<string>, removed: seq<string>)
      requires Valid()
      modifies this, users.Values
      ensures Valid() && Extends(old(users), users)
      ensures forall k :: k in users && k !in old(users) ==> fresh(users[k])
      ensures TakesFile(file, hash, hm.fileHashes + fileHashes) ==>
        var rs := Ingested(Content(file), hash, hm.lineHashes + lineHashes);
        && value == ApplyAll(old(value), rs).store
        && emitted == old(emitted) + ApplyAll(old(value), rs).events
        && Ledgers(fromData, rs, users)
        && lineHashes' == lineHashes + (Keys(Split(Content(file), '\n'), HasContent, hash) - hm.lineHashes)
        && removed == (if remove then [file.path] else [])
        && fileHashes' == fileHashes + {hash(Content(file))}
      ensures !TakesFile(file, hash, hm.fileHashes + fileHashes) ==>
        && value == old(value) && emitted == old(emitted) && users == old(users)
        && fromData == [] && lineHashes' == lineHashes && removed == [] && fileHashes' == fileHashes
    {
      fromData, fileHashes', lineHashes', removed := [], fileHashes, lineHashes, [];
      if Readable(file) {
        var data := file.content.value;
        assert Content(file) == data;
        var fileHash := hash(data);
        if !hm.HasFileHash(fileHash) && !(fileHash in fileHashes) {
          assert TakesFile(file, hash, hm.fileHashes + fileHashes);
          fileHashes' := fileHashes + {fileHash};
          fromData, lineHashes' := ParseLegacyData(hm, data, lineHashes, hash);
          if remove {
            removed := [file.path];
          }
        }
      }
    }

    /** One turn of the line loop, which keeps its progress invariant. */
    method IngestTurn(hm: HashManager, lines: seq<string>, i: nat, lineHashes: set<string>, hash: string -> string,
                      ghost run: LineRun, ghost rs: seq<Record>, results: seq<OrderProcessor>)
      returns (ledgers: seq<OrderProcessor>, lineHashes': set<string>)
      requires Valid() && i < |lines|
      requires run.lines == lines && run.hash == hash && run.stored == hm.lineHashes
      requires LinesDone(run, i, lineHashes, rs, value, emitted, results, users)
      modifies this, users.Values
      ensures Valid() && Extends(old(users), users)
      ensures forall k :: k in users && k !in old(users) ==> fresh(users[k])
      ensures LinesDone(run, i + 1, lineHashes', rs + LineRecords(lines[i], hash, hm.lineHashes + lineHashes),
                        value, emitted, results + ledgers, users)
    {
      ghost var before, v, e := users, value, emitted;
      ledgers, lineHashes' := IngestLine(hm, lines[i], lineHashes, hash);
      LineStep(run, i, lineHashes, lineHashes', rs, v, e, value, emitted, results, ledgers, before, users);
    }

    /**
     * One step of the `reduce` in `parseLegacyData`: a line with content
     * whose hash is neither stored nor in the batch is hashed into the
     * batch, extracted and applied, and its user's ledger is collected; any
     * other line changes nothing.
     */
    method IngestLine(hm: HashManager, line: string, lineHashes: set<string>, hash: string -> string)
      returns (ledgers: seq<OrderProcessor>, lineHashes': set<string>)
      requires Valid()
      modifies this, users.Values
      ensures Valid() && Extends(old(users), users)
      ensures forall k :: k in users && k !in old(users) ==> fresh(users[k])
      ensures TakesLine(line, hash, hm.lineHashes + lineHashes) ==>
        && value == Apply(old(value), ExtractData(line)).store
        && emitted == old(emitted) + [Apply(old(value), ExtractData(line)).order]
        && ExtractData(line).userKey in users && ledgers == [users[ExtractData(line).userKey]]
        && lineHashes' == lineHashes + {hash(line)}
      ensures !TakesLine(line, hash, hm.lineHashes + lineHashes) ==>
        && value == old(value) && emitted == old(emitted) && users == old(users) && ledgers == []
        && lineHashes' == lineHashes
    {
      ledgers, lineHashes' := [], lineHashes;
      if HasContent(line) {
        var lineHash := hash(line);
        if !hm.HasLineHash(lineHash) && !(lineHash in lineHashes) {
          lineHashes' := lineHashes + {lineHash};
          var r := ExtractData(line);
          UpdateOrCreateOrder(r.userKey, r.userName, r.orderId, r.productId, r.value, r.rawDate);
          ledgers := [users[r.userKey]];
        }
      }
    }

    /**
     * `filterOrders(criteria)`: the ledgers, in the store's order, of the
     * users that have an order meeting every criterion in force.
     */
    function FilterOrders(c: Criteria, time: string -> Option<int>): (r: seq<OrderProcessor>)
      reads this, users.Values
      requires Valid()
      ensures var ks := Matching(value, c, time);
        |r| == |ks| && forall i :: 0 <= i < |r| ==> ks[i] in users && r[i] == users[ks[i]]
    {
      Select(keys, c, time)
    }

    /** The ledgers of the users listed in `ks` that pass the filter, in order. */
    function Select(ks: seq<string>, c: Criteria, time: string -> Option<int>): (r: seq<OrderProcessor>)
      reads this, users.Values
      requires Valid()
      ensures var fs := FilterKeys(ks, value.users, c, time);
        |r| == |fs| && forall i :: 0 <= i < |r| ==> fs[i] in users && r[i] == users[fs[i]]
    {
      if ks == [] then []
      else (if ks[0] in users && LedgerMatches(users[ks[0]], c, time) then [users[ks[0]]] else []) + Select(ks[1..], c, time)
    }
  }

  /** A ledger passes the filter when the user it holds does. */
  predicate LedgerMatches(p: OrderProcessor, c: Criteria, time: string -> Option<int>)
    reads p
  {
    UserMatches(p.View(), c, time)
  }

  /**
   * The ledger half of `updateOrCreateOrder`: the order `findOrder` returns,
   * or else the one `addOrder` appends, receives the product, and its total
   * is bumped and re-rounded in place.
   */
  method UpdateLedger(user: OrderProcessor, r: Record) returns (order: Order)
    modifies user
    ensures Updated(user.View(), order) == UpdateUser(old(user.View()), r)
  {
    ghost var u := user.View();
    var i: nat;
    match FindOrderIndex(user.orders, r.orderId) {
      case Some(j) =>
        i := j;
      case None =>
        var _ := user.AddOrder(r.orderId, r.rawDate);
        i := |user.orders| - 1;
    }
    assert user.orders == FindOrCreate(u.orders, r.orderId, r.rawDate).orders;
    order := user.orders[i];
    order := order.(products := order.products + [Product(r.productId, ToFixed(r.value))]);
    order := order.(total := Add(order.total, r.value));
    var rounded := RoundToCents(order.total);
    order := order.(total := rounded);
    user.orders := user.orders[i := order];
  }

  /**
   * The service's hash manager, built from STORAGE_FILE_HASHES and
   * STORAGE_LINE_HASHES: a variable that is set names its set's file; an
   * unset one is passed as `undefined` and takes the constructor's default,
   * which for the line set is STORAGE_FILE_HASHES when that is truthy. With
   * only STORAGE_FILE_HASHES set, both sets share one file.
   */
  method ServiceHashManager(env: Env) returns (hm: HashManager)
    ensures fresh(hm) && hm.fileHashes == {} && hm.lineHashes == {}
    ensures hm.fileHashesPath == (if env.storageFileHashes.Some? then env.storageFileHashes.value else FileHashesFallback)
    ensures hm.lineHashesPath == (if env.storageLineHashes.Some? then env.storageLineHashes.value
                                  else OrElse(env.storageFileHashes, LineHashesFallback))
    ensures env.storageLineHashes.None? && Given(env.storageFileHashes) ==> hm.lineHashesPath == hm.fileHashesPath
  {
    hm := new HashManager(env.storageFileHashes, env.storageLineHashes, env);
  }

  /**
   * `saveHashes(newFileHashes, newLineHashes)`: hands both batch sets to the
   * hash store, which adds them to its sets and writes both files; a failed
   * write is only logged.
   */
  method SaveHashes(hm: HashManager, newFileHashes: set<string>, newLineHashes: set<string>,
                    disk: Disk, fileOk: bool, lineOk: bool) returns (disk': Disk)
    modifies hm
    ensures hm.fileHashes == old(hm.fileHashes) + newFileHashes
    ensures hm.lineHashes == old(hm.lineHashes) + newLineHashes
    ensures disk' == Saved(disk, hm.fileHashesPath, hm.lineHashesPath, hm.fileHashes, hm.lineHashes, fileOk, lineOk)
  {
    disk' := hm.AddHashes(newFileHashes, newLineHashes, disk, fileOk, lineOk);
  }

  // ---------------------------------------------------------------------------
  // The line and file rules

  /**
   * `line.trim()` is truthy: the line has a character other than white
   * space (`HasContentIffTrimmed` ties this to `Trim`).
   */
  predicate HasContent(line: string) {
    |line| > 0 && (!IsSpace(line[0]) || HasContent(line[1..]))
  }

  /** A line is applied when it has content and its hash is not yet seen. */
  predicate TakesLine(line: string, hash: string -> string, seen: set<string>) {
    HasContent(line) && hash(line) !in seen
  }

  /** The record one line contributes: its extraction when the line is taken, else nothing. */
  function LineRecords(line: string, hash: string -> string, seen: set<string>): seq<Record> {
    if TakesLine(line, hash, seen) then [ExtractData(line)] else []
  }

  /** `extractData` on each line, in order. */
  function ExtractAll(lines: seq<string>): (rs: seq<Record>)
    ensures |rs| == |lines|
  {
    if lines == [] then [] else ExtractAll(lines[..|lines| - 1]) + [ExtractData(lines[|lines| - 1])]
  }

  /**
   * The records `parseLegacyData` applies to the store, in order: those of
   * the lines with content whose hash is not in `seen` and not on an earlier
   * line.
   */
  function Ingested(data: string, hash: string -> string, seen: set<string>): seq<Record> {
    ExtractAll(Fresh(Split(data, '\n'), HasContent, hash, seen))
  }

  /** Every key of `before` still maps to the same ledger object in `after`. */
  predicate Extends(before: map<string, OrderProcessor>, after: map<string, OrderProcessor>) {
    forall k :: k in before ==> k in after && after[k] == before[k]
  }

  /** Each ledger in `results` is the object stored under the key of the record at the same position. */
  predicate Ledgers(results: seq<OrderProcessor>, rs: seq<Record>, users: map<string, OrderProcessor>) {
    |results| == |rs| && forall j :: 0 <= j < |rs| ==> rs[j].userKey in users && results[j] == users[rs[j].userKey]
  }

  /** An uploaded file: where it lies and what reading it gives (None when the read fails). */
  datatype UploadedFile = UploadedFile(path: string, content: Option<string>)

  /** What was read from a file, or nothing. */
  function Content(file: UploadedFile): string {
    file.content.GetOr([])
  }

  /** `data` is truthy: the file was read and is not empty. */
  predicate Readable(file: UploadedFile) {
    file.content.Some? && file.content.value != []
  }

  /** The file hash of `processUploadedFiles`: the digest of the file's content. */
  function FileKey(hash: string -> string): UploadedFile -> string {
    file => hash(Content(file))
  }

  /** A file is processed when it reads to content and its hash is not yet seen. */
  predicate TakesFile(file: UploadedFile, hash: string -> string, seen: set<string>) {
    Readable(file) && hash(Content(file)) !in seen
  }

  /** The files `processUploadedFiles` processes, in order. */
  function TakenFiles(files: seq<UploadedFile>, hash: string -> string, seen: set<string>): seq<UploadedFile> {
    Fresh(files, Readable, FileKey(hash), seen)
  }

  /** The lines of the files, file after file. */
  function AllLines(files: seq<UploadedFile>): seq<string> {
    if files == [] then [] else AllLines(files[..|files| - 1]) + Split(Content(files[|files| - 1]), '\n')
  }

  /** The paths of the files, in order. */
  function Paths(files: seq<UploadedFile>): (ps: seq<string>)
    ensures |ps| == |files| && forall i :: 0 <= i < |files| ==> ps[i] == files[i].path
  {
    if files == [] then [] else Paths(files[..|files| - 1]) + [files[|files| - 1].path]
  }

  /** `(DELETE_FILES || "true") === "true"`. */
  predicate ShouldDelete(deleteFiles: Option<string>) {
    OrElse(deleteFiles, "true") == "true"
  }

  /**
   * The records `processUploadedFiles` applies, in order: those of the fresh
   * lines of the processed files, read as one run of lines, since each file's
   * new line hashes are in the batch when the next file is parsed.
   */
  function Uploaded(files: seq<UploadedFile>, hash: string -> string, fileSeen: set<string>, lineSeen: set<string>): seq<Record> {
    ExtractAll(Fresh(AllLines(TakenFiles(files, hash, fileSeen)), HasContent, hash, lineSeen))
  }

  /**
   * The file loop's progress after the first `i` files: the store `v` and
   * event log `e` are the application of the records of the files taken so
   * far, each collected ledger is its record's user's, the two batch sets
   * hold the new file and line hashes, and the unlinked paths are those of
   * the taken files when `remove` holds.
   */
  predicate FilesDone(files: seq<UploadedFile>, i: nat, hash: string -> string,
                      fileStored: set<string>, fileStart: set<string>, fileBatch: set<string>,
                      lineStored: set<string>, lineStart: set<string>, lineBatch: set<string>, remove: bool,
                      s0: Store, e0: seq<Order>, v: Store, e: seq<Order>,
                      results: seq<OrderProcessor>, users: map<string, OrderProcessor>, unlinked: seq<string>)
  {
    && i <= |files|
    && var taken := TakenFiles(files[..i], hash, fileStored + fileStart);
      var rs := Uploaded(files[..i], hash, fileStored + fileStart, lineStored + lineStart);
      && v == ApplyAll(s0, rs).store && e == e0 + ApplyAll(s0, rs).events
      && Ledgers(results, rs, users)
      && fileBatch == fileStart + (Keys(files[..i], Readable, FileKey(hash)) - fileStored)
      && lineBatch == lineStart + (Keys(AllLines(taken), HasContent, hash) - lineStored)
      && unlinked == (if remove then Paths(taken) else [])
  }

  // ---------------------------------------------------------------------------
  // Lemmas

  lemma ExtractAllSnoc(a: seq<string>, x: string)
    ensures ExtractAll(a + [x]) == ExtractAll(a) + [ExtractData(x)]
  {
    assert (a + [x])[..|a|] == a;
  }

  lemma {:induction false} ExtractAllAppend(a: seq<string>, b: seq<string>)
    ensures ExtractAll(a + b) == ExtractAll(a) + ExtractAll(b)
  {
    if b == [] {
      assert a + b == a;
    } else {
      var b', x := b[..|b| - 1], b[|b| - 1];
      assert a + b == (a + b') + [x];
      ExtractAllAppend(a, b');
      ExtractAllSnoc(a + b', x);
      ExtractAllSnoc(b', x);
      AppendAssoc(ExtractAll(a), ExtractAll(b'), [ExtractData(x)]);
    }
  }

  /** What the line loop runs over: the lines, the digest, the stored and starting batch hashes, and the initial store and event log. */
  datatype LineRun = LineRun(lines: seq<string>, hash: string -> string, stored: set<string>, start: set<string>,
                             s0: Store, e0: seq<Order>)

  /**
   * The line loop's progress after the first `i` lines: the records applied
   * so far are those of the fresh lines, the store `v` and the event log `e`
   * are their application to `s0` and `e0`, each collected ledger is its
   * record's user's, and the batch set holds the new line hashes of the
   * prefix.
   */
  predicate LinesDone(run: LineRun, i: nat, batch: set<string>, rs: seq<Record>, v: Store, e: seq<Order>,
                      results: seq<OrderProcessor>, users: map<string, OrderProcessor>)
  {
    match run
    case LineRun(lines, hash, stored, start, s0, e0) =>
      && i <= |lines|
      && rs == ExtractAll(Fresh(lines[..i], HasContent, hash, stored + start))
      && v == ApplyAll(s0, rs).store && e == e0 + ApplyAll(s0, rs).events
      && Ledgers(results, rs, users)
      && batch == start + (Keys(lines[..i], HasContent, hash) - stored)
  }

  /** Before the first line, nothing is done. */
  lemma LinesStart(run: LineRun, users: map<string, OrderProcessor>)
    ensures LinesDone(run, 0, run.start, [], run.s0, run.e0, [], users)
  {
    assert run.lines[..0] == [];
    assert run.e0 + [] == run.e0;
  }

  /**
   * One turn of the line loop keeps its invariant: the records applied so
   * far are those of the fresh lines of the prefix, the store and the event
   * log are their application, each collected ledger is its record's user's,
   * and the batch set holds the prefix's new line hashes.
   */
  lemma LineStep(run: LineRun, i: nat, batch: set<string>, batch': set<string>, rs: seq<Record>,
                 v: Store, e: seq<Order>, v': Store, e': seq<Order>,
                 results: seq<OrderProcessor>, ledgers: seq<OrderProcessor>,
                 before: map<string, OrderProcessor>, after: map<string, OrderProcessor>)
    requires i < |run.lines|
    requires LinesDone(run, i, batch, rs, v, e, results, before)
    requires Extends(before, after)
    requires TakesLine(run.lines[i], run.hash, run.stored + batch) ==>
      && v' == Apply(v, ExtractData(run.lines[i])).store
      && e' == e + [Apply(v, ExtractData(run.lines[i])).order]
      && ExtractData(run.lines[i]).userKey in after && ledgers == [after[ExtractData(run.lines[i]).userKey]]
      && batch' == batch + {run.hash(run.lines[i])}
    requires !TakesLine(run.lines[i], run.hash, run.stored + batch) ==> v' == v && e' == e && ledgers == [] && batch' == batch
    ensures LinesDone(run, i + 1, batch', rs + LineRecords(run.lines[i], run.hash, run.stored + batch), v', e', results + ledgers, after)
  {
    var LineRun(lines, hash, stored, start, s0, e0) := run;
    var seen := stored + start;
    FreshStep(lines, i, HasContent, hash, seen);
    BatchStep(lines, i, HasContent, hash, stored, start, batch, batch');
    LedgersKept(results, rs, before, after);
    if TakesLine(lines[i], hash, stored + batch) {
      var r := ExtractData(lines[i]);
      ExtractAllSnoc(Fresh(lines[..i], HasContent, hash, seen), lines[i]);
      ApplyAllSnoc(s0, rs, r);
      AppendAssoc(e0, ApplyAll(s0, rs).events, [Apply(ApplyAll(s0, rs).store, r).order]);
      LedgersSnoc(results, rs, r, after);
    } else {
      var f := Fresh(lines[..i], HasContent, hash, seen);
      assert f + [] == f && rs + [] == rs && results + [] == results;
    }
  }

  /** The batch set after one more line, in terms of all the line keys so far. */
  lemma BatchGrows(batch: set<string>, start: set<string>, keys: set<string>, more: set<string>, stored: set<string>)
    requires batch == start + (keys - stored)
    ensures batch + (more - stored) == start + ((keys + more) - stored)
  {
  }

  /** A line has content exactly when trimming it leaves something. */
  lemma {:induction false} HasContentIffTrimmed(line: string)
    ensures HasContent(line) <==> Trim(line) != []
  {
    HasContentIffNotBlank(line);
    TrimEmptyIffBlank(line);
  }

  lemma {:induction false} HasContentIffNotBlank(line: string)
    ensures HasContent(line) <==> !AllSpace(line)
  {
    if |line| > 0 {
      HasContentIffNotBlank(line[1..]);
      if AllSpace(line[1..]) && IsSpace(line[0]) {
        forall i | 0 < i < |line| ensures IsSpace(line[i]) {
          assert line[i] == line[1..][i - 1];
        }
      }
    }
  }

  /** Collecting the ledger of one more record's user keeps the ledgers matched to their records. */
  lemma LedgersSnoc(results: seq<OrderProcessor>, rs: seq<Record>, r: Record, users: map<string, OrderProcessor>)
    requires Ledgers(results, rs, users) && r.userKey in users
    ensures Ledgers(results + [users[r.userKey]], rs + [r], users)
  {
  }

  /** Ledgers collected earlier stay valid while the store only gains keys. */
  lemma LedgersKept(results: seq<OrderProcessor>, rs: seq<Record>, before: map<string, OrderProcessor>, after: map<string, OrderProcessor>)
    requires Ledgers(results, rs, before) && Extends(before, after)
    ensures Ledgers(results, rs, after)
  {
  }

  /** Before the first file, nothing is done. */
  lemma FilesStart(files: seq<UploadedFile>, hash: string -> string, fileStored: set<string>, fileStart: set<string>,
                   lineStored: set<string>, lineStart: set<string>, remove: bool, s0: Store, e0: seq<Order>,
                   users: map<string, OrderProcessor>)
    ensures FilesDone(files, 0, hash, fileStored, fileStart, fileStart, lineStored, lineStart, lineStart,
                      remove, s0, e0, s0, e0, [], users, [])
  {
    assert files[..0] == [];
    assert e0 + [] == e0;
  }

  /** One turn of the file loop keeps its invariant. */
  lemma FileStep(files: seq<UploadedFile>, i: nat, hash: string -> string,
                 fileStored: set<string>, fileStart: set<string>, fileBatch: set<string>, fileBatch': set<string>,
                 lineStored: set<string>, lineStart: set<string>, lineBatch: set<string>, lineBatch': set<string>,
                 remove: bool, s0: Store, e0: seq<Order>, v: Store, e: seq<Order>, v': Store, e': seq<Order>,
                 results: seq<OrderProcessor>, fromData: seq<OrderProcessor>,
                 before: map<string, OrderProcessor>, after: map<string, OrderProcessor>,
                 unlinked: seq<string>, removed: seq<string>)
    requires i < |files|
    requires FilesDone(files, i, hash, fileStored, fileStart, fileBatch, lineStored, lineStart, lineBatch,
                       remove, s0, e0, v, e, results, before, unlinked)
    requires Extends(before, after)
    requires TakesFile(files[i], hash, fileStored + fileBatch) ==>
      var rs := Ingested(Content(files[i]), hash, lineStored + lineBatch);
      && v' == ApplyAll(v, rs).store && e' == e + ApplyAll(v, rs).events
      && Ledgers(fromData, rs, after)
      && lineBatch' == lineBatch + (Keys(Split(Content(files[i]), '\n'), HasContent, hash) - lineStored)
      && removed == (if remove then [files[i].path] else [])
      && fileBatch' == fileBatch + {hash(Content(files[i]))}
    requires !TakesFile(files[i], hash, fileStored + fileBatch) ==>
      v' == v && e' == e && fromData == [] && lineBatch' == lineBatch && removed == [] && fileBatch' == fileBatch
    ensures FilesDone(files, i + 1, hash, fileStored, fileStart, fileBatch', lineStored, lineStart, lineBatch',
                      remove, s0, e0, v', e', results + fromData, after, unlinked + removed)
  {
    if TakesFile(files[i], hash, fileStored + fileBatch) {
      FileTakenStep(files, i, hash, fileStored, fileStart, fileBatch, fileBatch', lineStored, lineStart, lineBatch, lineBatch',
                    remove, s0, e0, v, e, v', e', results, fromData, before, after, unlinked, removed);
    } else {
      FileSkippedStep(files, i, hash, fileStored, fileStart, fileBatch, lineStored, lineStart, lineBatch,
                      remove, s0, e0, v, e, results, before, after, unlinked);
    }
  }

  /** A file that is processed adds its records, its ledgers, its hashes and (when removing) its path. */
  lemma FileTakenStep(files: seq<UploadedFile>, i: nat, hash: string -> string,
                 fileStored: set<string>, fileStart: set<string>, fileBatch: set<string>, fileBatch': set<string>,
                 lineStored: set<string>, lineStart: set<string>, lineBatch: set<string>, lineBatch': set<string>,
                 remove: bool, s0: Store, e0: seq<Order>, v: Store, e: seq<Order>, v': Store, e': seq<Order>,
                 results: seq<OrderProcessor>, fromData: seq<OrderProcessor>,
                 before: map<string, OrderProcessor>, after: map<string, OrderProcessor>,
                 unlinked: seq<string>, removed: seq<string>)
    requires i < |files|
    requires FilesDone(files, i, hash, fileStored, fileStart, fileBatch, lineStored, lineStart, lineBatch,
                       remove, s0, e0, v, e, results, before, unlinked)
    requires Extends(before, after)
    requires TakesFile(files[i], hash, fileStored + fileBatch)
    requires var rs := Ingested(Content(files[i]), hash, lineStored + lineBatch);
      && v' == ApplyAll(v, rs).store && e' == e + ApplyAll(v, rs).events
      && Ledgers(fromData, rs, after)
      && lineBatch' == lineBatch + (Keys(Split(Content(files[i]), '\n'), HasContent, hash) - lineStored)
      && removed == (if remove then [files[i].path] else [])
      && fileBatch' == fileBatch + {hash(Content(files[i]))}
    ensures FilesDone(files, i + 1, hash, fileStored, fileStart, fileBatch', lineStored, lineStart, lineBatch',
                      remove, s0, e0, v', e', results + fromData, after, unlinked + removed)
  {
    var fseen, lseen := fileStored + fileStart, lineStored + lineStart;
    var f := files[i];
    var taken := TakenFiles(files[..i], hash, fseen);
    var rs := Uploaded(files[..i], hash, fseen, lseen);
    var more := Ingested(Content(f), hash, lineStored + lineBatch);
    TakenFileRecords(files, i, hash, fileStored, fileStart, fileBatch, fileBatch', lineStored, lineStart, lineBatch, lineBatch');
    LedgersKept(results, rs, before, after);
    ApplyAllAppend(s0, rs, more);
    AppendAssoc(e0, ApplyAll(s0, rs).events, ApplyAll(v, more).events);
    LedgersAppend(results, rs, fromData, more, after);
    PathsSnoc(taken, f);
  }

  /** A processed file joins the taken files, its fresh lines' records follow theirs, and both batches grow. */
  lemma TakenFileRecords(files: seq<UploadedFile>, i: nat, hash: string -> string,
                         fileStored: set<string>, fileStart: set<string>, fileBatch: set<string>, fileBatch': set<string>,
                         lineStored: set<string>, lineStart: set<string>, lineBatch: set<string>, lineBatch': set<string>)
    requires i < |files|
    requires fileBatch == fileStart + (Keys(files[..i], Readable, FileKey(hash)) - fileStored)
    requires lineBatch == lineStart + (Keys(AllLines(TakenFiles(files[..i], hash, fileStored + fileStart)), HasContent, hash) - lineStored)
    requires TakesFile(files[i], hash, fileStored + fileBatch)
    requires fileBatch' == fileBatch + {hash(Content(files[i]))}
    requires lineBatch' == lineBatch + (Keys(Split(Content(files[i]), '\n'), HasContent, hash) - lineStored)
    ensures TakenFiles(files[..i + 1], hash, fileStored + fileStart) == TakenFiles(files[..i], hash, fileStored + fileStart) + [files[i]]
    ensures Uploaded(files[..i + 1], hash, fileStored + fileStart, lineStored + lineStart)
         == Uploaded(files[..i], hash, fileStored + fileStart, lineStored + lineStart) + Ingested(Content(files[i]), hash, lineStored + lineBatch)
    ensures fileBatch' == fileStart + (Keys(files[..i + 1], Readable, FileKey(hash)) - fileStored)
    ensures lineBatch' == lineStart + (Keys(AllLines(TakenFiles(files[..i + 1], hash, fileStored + fileStart)), HasContent, hash) - lineStored)
  {
    var fseen := fileStored + fileStart;
    FreshStep(files, i, Readable, FileKey(hash), fseen);
    BatchStep(files, i, Readable, FileKey(hash), fileStored, fileStart, fileBatch, fileBatch');
    FileLines(TakenFiles(files[..i], hash, fseen), files[i], hash, lineStored, lineStart, lineBatch, lineBatch');
  }

  /** A file that is skipped changes nothing but the store's keys. */
  lemma FileSkippedStep(files: seq<UploadedFile>, i: nat, hash: string -> string,
                        fileStored: set<string>, fileStart: set<string>, fileBatch: set<string>,
                        lineStored: set<string>, lineStart: set<string>, lineBatch: set<string>,
                        remove: bool, s0: Store, e0: seq<Order>, v: Store, e: seq<Order>,
                        results: seq<OrderProcessor>, before: map<string, OrderProcessor>,
                        after: map<string, OrderProcessor>, unlinked: seq<string>)
    requires i < |files|
    requires FilesDone(files, i, hash, fileStored, fileStart, fileBatch, lineStored, lineStart, lineBatch,
                       remove, s0, e0, v, e, results, before, unlinked)
    requires Extends(before, after)
    requires !TakesFile(files[i], hash, fileStored + fileBatch)
    ensures FilesDone(files, i + 1, hash, fileStored, fileStart, fileBatch, lineStored, lineStart, lineBatch,
                      remove, s0, e0, v, e, results, after, unlinked)
  {
    var fseen, lseen := fileStored + fileStart, lineStored + lineStart;
    var taken := TakenFiles(files[..i], hash, fseen);
    var rs := Uploaded(files[..i], hash, fseen, lseen);
    FreshStep(files, i, Readable, FileKey(hash), fseen);
    BatchStep(files, i, Readable, FileKey(hash), fileStored, fileStart, fileBatch, fileBatch);
    LedgersKept(results, rs, before, after);
    assert TakenFiles(files[..i + 1], hash, fseen) == taken;
  }

  /**
   * The lines of one more processed file: its fresh lines are read against
   * the stored hashes and the batch so far, and its new line hashes join the
   * batch.
   */
  lemma FileLines(taken: seq<UploadedFile>, f: UploadedFile, hash: string -> string,
                  lineStored: set<string>, lineStart: set<string>, lineBatch: set<string>, lineBatch': set<string>)
    requires lineBatch == lineStart + (Keys(AllLines(taken), HasContent, hash) - lineStored)
    requires lineBatch' == lineBatch + (Keys(Split(Content(f), '\n'), HasContent, hash) - lineStored)
    ensures lineBatch' == lineStart + (Keys(AllLines(taken + [f]), HasContent, hash) - lineStored)
    ensures ExtractAll(Fresh(AllLines(taken + [f]), HasContent, hash, lineStored + lineStart))
         == ExtractAll(Fresh(AllLines(taken), HasContent, hash, lineStored + lineStart))
            + Ingested(Content(f), hash, lineStored + lineBatch)
  {
    var lines, lseen := Split(Content(f), '\n'), lineStored + lineStart;
    assert AllLines(taken + [f]) == AllLines(taken) + lines by {
      assert (taken + [f])[..|taken|] == taken;
    }
    FreshAppend(AllLines(taken), lines, HasContent, hash, lseen);
    BatchCovers(lineBatch, lineStart, Keys(AllLines(taken), HasContent, hash), lineStored);
    ExtractAllAppend(Fresh(AllLines(taken), HasContent, hash, lseen), Fresh(lines, HasContent, hash, lineStored + lineBatch));
    KeysAppend(AllLines(taken), lines, HasContent, hash);
    BatchGrows(lineBatch, lineStart, Keys(AllLines(taken), HasContent, hash), Keys(lines, HasContent, hash), lineStored);
  }

  lemma PathsSnoc(files: seq<UploadedFile>, f: UploadedFile)
    ensures Paths(files + [f]) == Paths(files) + [f.path]
  {
    assert (files + [f])[..|files|] == files;
  }

  /** With the stored set beside it, the batch covers the start set and every key so far. */
  lemma BatchCovers(batch: set<string>, start: set<string>, keys: set<string>, stored: set<string>)
    requires batch == start + (keys - stored)
    ensures stored + batch == stored + start + keys
  {
  }

  /** Ledgers collected in two stretches stay matched to the records of both. */
  lemma LedgersAppend(a: seq<OrderProcessor>, ra: seq<Record>, b: seq<OrderProcessor>, rb: seq<Record>,
                      users: map<string, OrderProcessor>)
    requires Ledgers(a, ra, users) && Ledgers(b, rb, users)
    ensures Ledgers(a + b, ra + rb, users)
  {
  }

  // ---------------------------------------------------------------------------
  // Deduplication across calls and within one call

  /** Once a text's new line hashes are stored beside the batch, ingesting the same text again applies nothing. */
  lemma ReingestTakesNothing(data: string, hash: string -> string, stored: set<string>, start: set<string>)
    ensures Ingested(data, hash, stored + (start + (Keys(Split(data, '\n'), HasContent, hash) - stored))) == []
  {
    var lines := Split(data, '\n');
    BatchCovers(start + (Keys(lines, HasContent, hash) - stored), start, Keys(lines, HasContent, hash), stored);
    FreshAllSeen(lines, HasContent, hash, stored + (start + (Keys(lines, HasContent, hash) - stored)));
  }

  /** A text followed by a line feed and itself again applies the same records as the text alone. */
  lemma RepeatedTextOnce(data: string, hash: string -> string, seen: set<string>)
    ensures Ingested(data + "\n" + data, hash, seen) == Ingested(data, hash, seen)
  {
    SplitConcat(data, data, '\n');
    FreshRepeat(Split(data, '\n'), HasContent, hash, seen);
  }

  /** Once the new file hashes of an upload are stored beside the batch, uploading the same files again processes none. */
  lemma ReuploadTakesNothing(files: seq<UploadedFile>, hash: string -> string, stored: set<string>, start: set<string>,
                             lineSeen: set<string>)
    ensures var seen := stored + (start + (Keys(files, Readable, FileKey(hash)) - stored));
      TakenFiles(files, hash, seen) == [] && Uploaded(files, hash, seen, lineSeen) == []
  {
    var keys := Keys(files, Readable, FileKey(hash));
    BatchCovers(start + (keys - stored), start, keys, stored);
    FreshAllSeen(files, Readable, FileKey(hash), stored + (start + (keys - stored)));
  }

  /** Uploading a list of files twice over processes each file once. */
  lemma RepeatedUploadOnce(files: seq<UploadedFile>, hash: string -> string, fileSeen: set<string>, lineSeen: set<string>)
    ensures TakenFiles(files + files, hash, fileSeen) == TakenFiles(files, hash, fileSeen)
    ensures Uploaded(files + files, hash, fileSeen, lineSeen) == Uploaded(files, hash, fileSeen, lineSeen)
  {
    FreshRepeat(files, Readable, FileKey(hash), fileSeen);
  }

  /**
   * The records applied come from lines with content whose hashes were not
   * seen, no two from lines with the same hash, each line used at most as
   * often as it occurs.
   */
  lemma IngestedLines(data: string, hash: string -> string, seen: set<string>)
    ensures var taken := Fresh(Split(data, '\n'), HasContent, hash, seen);
      && Ingested(data, hash, seen) == ExtractAll(taken)
      && (forall i :: 0 <= i < |taken| ==> HasContent(taken[i]) && hash(taken[i]) !in seen)
      && (forall i, j :: 0 <= i < j < |taken| ==> hash(taken[i]) != hash(taken[j]))
      && multiset(taken) <= multiset(Split(data, '\n'))
  {
    var lines := Split(data, '\n');
    FreshEligible(lines, HasContent, hash, seen);
    FreshDistinct(lines, HasContent, hash, seen);
    FreshDrawn(lines, HasContent, hash, seen);
  }
}
