/**
 * The hash store (managers/HashManager.js): two growing sets of content
 * hashes, one for whole files and one for single lines, persisted to two
 * JSON files.
 *
 * The file system is a value `Disk` mapping paths to what they hold; the
 * outcome of each write is a parameter. Environment variables are the
 * fields of `Env`.
 */
module Hashes {
  import opened Wrappers

  /** The environment variables the manager reads (None when unset). */
  datatype Env = Env(storageFileHashes: Option<string>, storageLineHashes: Option<string>)

  /** `v || fallback` on an environment value. */
  function OrElse(v: Option<string>, fallback: string): (r: string)
    ensures Given(v) ==> r == v.value
    ensures !Given(v) ==> r == fallback
  {
    if Given(v) then v.value else fallback
  }

  const FileHashesFallback: string := "/tmp/fileHashes.json"
  const LineHashesFallback: string := "/tmp/lineHashes.json"

  /** The default path of the file-hash set. */
  function DefaultFileHashesPath(env: Env): string {
    OrElse(env.storageFileHashes, FileHashesFallback)
  }

  /**
   * The default path of the line-hash set as the constructor writes it: it
   * reads the file-hash variable, so setting that variable alone sends both
   * sets to the same file.
   */
  function DefaultLineHashesPathAsWritten(env: Env): string {
    OrElse(env.storageFileHashes, LineHashesFallback)
  }

  /** The default path of the line-hash set, read from its own variable. */
  function DefaultLineHashesPath(env: Env): string {
    OrElse(env.storageLineHashes, LineHashesFallback)
  }

  /**
   * What a hash file holds, as far as loading is concerned: content that
   * `JSON.parse` and `new Set` turn into a set of hashes, or content that
   * does not yield a set (either step throws, and the error is caught).
   */
  datatype Stored = HashList(hashes: set<string>) | Unparsable

  type Disk = map<string, Stored>

  /** Loading one set: the stored hashes when the file exists and parses; otherwise the set is left as it was. */
  function Loaded(disk: Disk, path: string, current: set<string>): (r: set<string>)
    ensures path in disk && disk[path].HashList? ==> r == disk[path].hashes
    ensures path !in disk || disk[path].Unparsable? ==> r == current
  {
    if path in disk && disk[path].HashList? then disk[path].hashes else current
  }

  /** Writing one set: the file holds the set when the write succeeds; a failed write leaves the disk alone. */
  function Written(disk: Disk, path: string, hashes: set<string>, ok: bool): (d: Disk)
    ensures ok ==> path in d && d[path] == HashList(hashes)
    ensures forall p :: p != path ==> (p in d <==> p in disk) && (p in disk ==> d[p] == disk[p])
    ensures !ok ==> d == disk
  {
    if ok then disk[path := HashList(hashes)] else disk
  }

  /** `saveHashes`: the file-hash set is written, then the line-hash set, each failure caught on its own. */
  function Saved(disk: Disk, filePath: string, linePath: string,
                 fileHashes: set<string>, lineHashes: set<string>, fileOk: bool, lineOk: bool): Disk
  {
    Written(Written(disk, filePath, fileHashes, fileOk), linePath, lineHashes, lineOk)
  }

  class HashManager {
    var fileHashes: set<string>
    var lineHashes: set<string>
    const fileHashesPath: string
    const lineHashesPath: string

    /**
     * `new HashManager(fileHashesPath, lineHashesPath)`: an argument left
     * undefined (None) takes its default, the line default as written (from
     * the file-hash variable); both sets start empty.
     */
    constructor (fileHashesPath: Option<string>, lineHashesPath: Option<string>, env: Env)
      ensures this.fileHashesPath == fileHashesPath.GetOr(DefaultFileHashesPath(env))
      ensures this.lineHashesPath == lineHashesPath.GetOr(DefaultLineHashesPathAsWritten(env))
      ensures fileHashes == {} && lineHashes == {}
    {
      this.fileHashesPath := fileHashesPath.GetOr(DefaultFileHashesPath(env));
      this.lineHashesPath := lineHashesPath.GetOr(DefaultLineHashesPathAsWritten(env));
      fileHashes := {};
      lineHashes := {};
    }

    /** The constructor with the line default read from the line-hash variable. */
    constructor Corrected(fileHashesPath: Option<string>, lineHashesPath: Option<string>, env: Env)
      ensures this.fileHashesPath == fileHashesPath.GetOr(DefaultFileHashesPath(env))
      ensures this.lineHashesPath == lineHashesPath.GetOr(DefaultLineHashesPath(env))
      ensures fileHashes == {} && lineHashes == {}
    {
      this.fileHashesPath := fileHashesPath.GetOr(DefaultFileHashesPath(env));
      this.lineHashesPath := lineHashesPath.GetOr(DefaultLineHashesPath(env));
      fileHashes := {};
      lineHashes := {};
    }

    /** `loadHashes`: each set is replaced by its file's contents when that file reads and parses. */
    method LoadHashes(disk: Disk)
      modifies this
      ensures fileHashes == Loaded(disk, fileHashesPath, old(fileHashes))
      ensures lineHashes == Loaded(disk, lineHashesPath, old(lineHashes))
    {
      if fileHashesPath in disk && disk[fileHashesPath].HashList? {
        fileHashes := disk[fileHashesPath].hashes;
      }
      if lineHashesPath in disk && disk[lineHashesPath].HashList? {
        lineHashes := disk[lineHashesPath].hashes;
      }
    }

    /** `saveHashes`: writes both sets; the in-memory sets are untouched. */
    method SaveHashes(disk: Disk, fileOk: bool, lineOk: bool) returns (disk': Disk)
      ensures disk' == Saved(disk, fileHashesPath, lineHashesPath, fileHashes, lineHashes, fileOk, lineOk)
    {
      disk' := disk;
      if fileOk {
        disk' := disk'[fileHashesPath := HashList(fileHashes)];
      }
      if lineOk {
        disk' := disk'[lineHashesPath := HashList(lineHashes)];
      }
    }

    /** `hasFileHash(hash)`. */
    predicate HasFileHash(hash: string)
      reads this
    {
      hash in fileHashes
    }

    /** `hasLineHash(hash)`. */
    predicate HasLineHash(hash: string)
      reads this
    {
      hash in lineHashes
    }

    /** `addFileHash(hash)`: afterwards the hash is known, every hash known before still is, and the line set is untouched. */
    method AddFileHash(hash: string)
      modifies this
      ensures HasFileHash(hash)
      ensures forall h :: HasFileHash(h) <==> old(HasFileHash(h)) || h == hash
      ensures fileHashes == old(fileHashes) + {hash} && lineHashes == old(lineHashes)
    {
      fileHashes := fileHashes + {hash};
    }

    /** `addLineHash(hash)`: afterwards the hash is known, every hash known before still is, and the file set is untouched. */
    method AddLineHash(hash: string)
      modifies this
      ensures HasLineHash(hash)
      ensures forall h :: HasLineHash(h) <==> old(HasLineHash(h)) || h == hash
      ensures lineHashes == old(lineHashes) + {hash} && fileHashes == old(fileHashes)
    {
      lineHashes := lineHashes + {hash};
    }

    /**
     * `addHashes(newFileHashes, newLineHashes)`: adds every new hash to its
     * set, one at a time as `forEach` does, then saves both sets.
     */
    method AddHashes(newFileHashes: set<string>, newLineHashes: set<string>, disk: Disk, fileOk: bool, lineOk: bool)
      returns (disk': Disk)
      modifies this
      ensures fileHashes == old(fileHashes) + newFileHashes
      ensures lineHashes == old(lineHashes) + newLineHashes
      ensures disk' == Saved(disk, fileHashesPath, lineHashesPath, fileHashes, lineHashes, fileOk, lineOk)
    {
      var rest := newFileHashes;
      while rest != {}
        invariant rest <= newFileHashes
        invariant fileHashes == old(fileHashes) + (newFileHashes - rest)
        invariant lineHashes == old(lineHashes)
        decreases rest
      {
        var h :| h in rest;
        fileHashes := fileHashes + {h};
        rest := rest - {h};
      }
      rest := newLineHashes;
      while rest != {}
        invariant rest <= newLineHashes
        invariant fileHashes == old(fileHashes) + newFileHashes
        invariant lineHashes == old(lineHashes) + (newLineHashes - rest)
        decreases rest
      {
        var h :| h in rest;
        lineHashes := lineHashes + {h};
        rest := rest - {h};
      }
      disk' := SaveHashes(disk, fileOk, lineOk);
    }
  }

  // ---------------------------------------------------------------------------
  // Lemmas

  /** With two distinct paths and both writes succeeding, loading what was saved gives back both sets. */
  lemma SaveLoadRoundTrip(disk: Disk, filePath: string, linePath: string,
                          fileHashes: set<string>, lineHashes: set<string>, fileNow: set<string>, lineNow: set<string>)
    requires filePath != linePath
    ensures var d := Saved(disk, filePath, linePath, fileHashes, lineHashes, true, true);
      Loaded(d, filePath, fileNow) == fileHashes && Loaded(d, linePath, lineNow) == lineHashes
  {
  }

  /** A failed first write does not stop the second: the line set is still saved and reloads. */
  lemma SecondWriteIndependent(disk: Disk, filePath: string, linePath: string,
                               fileHashes: set<string>, lineHashes: set<string>, lineNow: set<string>)
    ensures Loaded(Saved(disk, filePath, linePath, fileHashes, lineHashes, false, true), linePath, lineNow) == lineHashes
  {
  }

  /** Saving both sets to one path keeps only the line set: reloading gives it for both. */
  lemma SamePathKeepsOnlyLines(disk: Disk, path: string, fileHashes: set<string>, lineHashes: set<string>,
                               fileOk: bool, fileNow: set<string>)
    ensures Loaded(Saved(disk, path, path, fileHashes, lineHashes, fileOk, true), path, fileNow) == lineHashes
  {
  }

  /** As written, setting only the file-hash variable gives both sets the same default path. */
  lemma AsWrittenDefaultsCollide(env: Env)
    requires Given(env.storageFileHashes)
    ensures DefaultFileHashesPath(env) == DefaultLineHashesPathAsWritten(env)
  {
  }

  /**
   * The input that shows it: STORAGE_FILE_HASHES set, STORAGE_LINE_HASHES
   * unset, one file hash and one line hash saved; after a reload the file
   * hash is gone and the line hash stands in its place.
   */
  lemma AsWrittenLosesFileHashes(disk: Disk)
    ensures var env := Env(Some("/data/fileHashes.json"), None);
      var fp, lp := DefaultFileHashesPath(env), DefaultLineHashesPathAsWritten(env);
      var d := Saved(disk, fp, lp, {"f"}, {"l"}, true, true);
      Loaded(d, fp, {}) == {"l"} && "f" !in Loaded(d, fp, {})
  {
    AsWrittenDefaultsCollide(Env(Some("/data/fileHashes.json"), None));
  }

  /**
   * With the line default read from its own variable, the two default paths
   * are distinct unless the environment itself points both sets at one file,
   * so a save followed by a load restores both sets.
   */
  lemma CorrectedDefaultsKeepBothSets(env: Env, disk: Disk, fileHashes: set<string>, lineHashes: set<string>)
    requires env.storageFileHashes != Some(LineHashesFallback)
    requires env.storageLineHashes != Some(FileHashesFallback)
    requires Given(env.storageFileHashes) && Given(env.storageLineHashes) ==>
      env.storageFileHashes.value != env.storageLineHashes.value
    ensures DefaultFileHashesPath(env) != DefaultLineHashesPath(env)
    ensures var fp, lp := DefaultFileHashesPath(env), DefaultLineHashesPath(env);
      var d := Saved(disk, fp, lp, fileHashes, lineHashes, true, true);
      Loaded(d, fp, {}) == fileHashes && Loaded(d, lp, {}) == lineHashes
  {
    SaveLoadRoundTrip(disk, DefaultFileHashesPath(env), DefaultLineHashesPath(env), fileHashes, lineHashes, {}, {});
  }

  /**
   * `addHashes` is idempotent: a second call with the same sets leaves both
   * sets as the first call made them, and writes out the same sets again.
   */
  method AddHashesTwice(hm: HashManager, newFileHashes: set<string>, newLineHashes: set<string>,
                        disk: Disk, fileOk: bool, lineOk: bool) returns (first: Disk, second: Disk)
    modifies hm
    ensures hm.fileHashes == old(hm.fileHashes) + newFileHashes
    ensures hm.lineHashes == old(hm.lineHashes) + newLineHashes
    ensures first == Saved(disk, hm.fileHashesPath, hm.lineHashesPath, hm.fileHashes, hm.lineHashes, fileOk, lineOk)
    ensures second == Saved(first, hm.fileHashesPath, hm.lineHashesPath, hm.fileHashes, hm.lineHashes, fileOk, lineOk)
  {
    first := hm.AddHashes(newFileHashes, newLineHashes, disk, fileOk, lineOk);
    second := hm.AddHashes(newFileHashes, newLineHashes, first, fileOk, lineOk);
  }

  /**
   * A manager built with only STORAGE_FILE_HASHES set, holding file hash "f"
   * and line hash "l", is saved and reloaded by a second manager built the
   * same way: both of its sets come back as the line set.
   */
  method PersistAsWritten(disk: Disk) returns (fileBack: set<string>, lineBack: set<string>)
    ensures fileBack == {"l"} && lineBack == {"l"}
  {
    var env := Env(Some("/data/fileHashes.json"), None);
    var m := new HashManager(None, None, env);
    m.AddFileHash("f");
    m.AddLineHash("l");
    var d := m.SaveHashes(disk, true, true);
    var m2 := new HashManager(None, None, env);
    m2.LoadHashes(d);
    fileBack, lineBack := m2.fileHashes, m2.lineHashes;
  }

  /** The same round trip with the corrected constructor gives back exactly what was held. */
  method PersistCorrected(disk: Disk) returns (fileBack: set<string>, lineBack: set<string>)
    ensures fileBack == {"f"} && lineBack == {"l"}
  {
    var env := Env(Some("/data/fileHashes.json"), None);
    var m := new HashManager.Corrected(None, None, env);
    m.AddFileHash("f");
    m.AddLineHash("l");
    var d := m.SaveHashes(disk, true, true);
    var m2 := new HashManager.Corrected(None, None, env);
    m2.LoadHashes(d);
    fileBack, lineBack := m2.fileHashes, m2.lineHashes;
  }
}
