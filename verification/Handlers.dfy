/** The file handlers as sequential code over the store and the blob directory. Each is shown to do
    exactly what its job does in the concurrent machine when nothing else runs in between, so what
    holds for all runs of the machine holds for the code. */
module Handlers {
  import opened Wrappers
  import opened Schema
  import opened Transactions
  import opened Preservation
  import opened StoreModel
  import opened Server
  import opened FileStore
  import opened Walks
  import opened BlobProtocol
  import opened Completion

  predicate StageWorks(c: Call, content: Bytes, stageFails: nat -> bool) {
    !stageFails(0) && !stageFails(1) && !stageFails(2) && !stageFails(3) && 0 < |content| <= c.cfg.maxUpload
  }

  /** Nothing stands in the way of the upload: it is of an admissible size, no call fails, and rows
      and blobs agree. */
  ghost predicate UploadWorks(c: Call, s: System, content: Bytes, stageFails: nat -> bool) {
    Sound(c.cfg) && BlobInv(c.cfg, s) && NoneFails(c) && StageWorks(c, content, stageFails)
  }

  /** The walk that answered is the one that succeeds. */
  lemma WorkingUploadIsStored(c: Call, s: System, content: Bytes, name: string, stageFails: nat -> bool, m: nat,
                              r: Result<int>)
    requires UploadWorks(c, s, content, stageFails) && Unique(s.db) && s.lock.None? && c.t == s.nextId
    requires Uploading(c, Walk(c, StepBeginUpload(c.cfg, s, content, name, false, None), 0, m), content, name, Done(r))
    ensures r.Ok? && Stored(c, s, Walk(c, StepBeginUpload(c.cfg, s, content, name, false, None), 0, m), content, name,
        r.value)
  {
    var begun := StepBeginUpload(c.cfg, s, content, name, false, None);
    var id, n := UploadSucceeds(c, s, content, name, None);
    WalkStays(c, begun, m, if m <= n then n else m);
    assert Walk(c, begun, 0, m) == Walk(c, begun, 0, n);
  }

  /** The walk that answered a deletion is the one without failures. */
  lemma WorkingDeletion(c: Call, s: System, fileId: int, m: nat, r: Result<int>)
    requires NoneFails(c) && s.lock.None? && c.t == s.nextId
    requires Deleting(c, Walk(c, StepBeginDeletion(s, fileId), 0, m), fileId, Done(r))
    ensures Completion.Deleted(s, Walk(c, StepBeginDeletion(s, fileId), 0, m), fileId, r)
  {
    var begun := StepBeginDeletion(s, fileId);
    var answer := DeletionSucceeds(c, s, fileId);
    WalkStays(c, begun, m, if m <= 5 then 5 else m);
    assert Walk(c, begun, 0, m) == Walk(c, begun, 0, 5);
  }

  /** The subscriptions of a file can be moved to the file that was just stored. */
  lemma MoveIsAccepted(c: Call, s: System, s': System, content: Bytes, name: string, oldId: int, id: int)
    requires References(s.db) && oldId in s.db.files
    requires exists user :: user in s.db.subs && s.db.subs[user].fileId == Ref(oldId)
    requires Stored(c, s, s', content, name, id)
    ensures Refusal(s'.db, ReplaceAll(oldId, id, name, c.now)).None?
  {
    var user :| user in s.db.subs && s.db.subs[user].fileId == Ref(oldId);
    assert Hit(s'.db.subs[user], oldId);
  }

  class App {
    const cfg: Config
    const store: Store
    const storage: FileStorage
    /** The holder of the file mutex. */
    var fileMu: Option<int>

    constructor (cfg: Config, store: Store, storage: FileStorage)
      ensures this.cfg == cfg && this.store == store && this.storage == storage && fileMu == None
    {
      this.cfg, this.store, this.storage, fileMu := cfg, store, storage, None;
    }

    /** The objects are in the machine's state. */
    ghost predicate Shows(s: System)
      reads this, store, storage
    {
      s.db == store.Snapshot() && s.blobs == storage.blobs && s.temps == storage.temps && s.lock == fileMu
    }

    /** The deferred unlock. */
    method Unlock(c: Call, ghost content: Bytes, ghost name: string, r: Result<int>, n: nat,
                  ghost s: System) returns (ghost m: nat)
      requires Shows(s) && Uploading(c, s, content, name, Finished(r))
      modifies this`fileMu
      ensures m >= n && Shows(Walk(c, s, n, m)) && Uploading(c, Walk(c, s, n, m), content, name, Done(r))
    {
      UploadCall(c, s, content, name, Finished(r), n);
      fileMu := None;
      m := n + 1;
    }

    /** Discard, and the deferred unlock. */
    method Abandon(c: Call, ghost content: Bytes, ghost name: string, error: Error, n: nat,
                   ghost s: System) returns (ghost m: nat)
      requires Shows(s) && Uploading(c, s, content, name, Discard(error))
      modifies this`fileMu, storage
      ensures m >= n && Shows(Walk(c, s, n, m)) && Uploading(c, Walk(c, s, n, m), content, name, Done(Err(error)))
    {
      UploadCall(c, s, content, name, Discard(error), n);
      ghost var blobs := storage.blobs;
      storage.Discard(c.t, c.fails(n));
      ghost var s1 := Walk(c, s, n, n + 1);
      m := Unlock(c, content, name, Err(error), n + 1, s1);
      WalkOn(c, s, n, n + 1, m);
    }

    /** The second lookup, for a row that contradicts the digests. */
    method LookUpSha(c: Call, content: Bytes, ghost name: string, n: nat, ghost s: System)
      returns (refused: Option<Error>)
      requires Shows(s) && Uploading(c, s, content, name, LookupSha) && Unique(s.db)
      ensures Shows(Walk(c, s, n, n + 1))
      ensures Uploading(c, Walk(c, s, n, n + 1), content, name, if refused.Some? then Discard(refused.value)
          else MakeDir(Null))
      ensures refused == Some(Fault) <==> c.fails(n)
      ensures !c.fails(n) ==> (refused.None? <==> NoRow(s.db, c.cfg.sha256(content)))
    {
      var sha256 := c.cfg.sha256(content);
      var bySha := store.FileBySHA256(sha256, c.fails(n));
      UploadCall(c, s, content, name, LookupSha, n);
      if bySha.Ok? {
        ShaFound(s.db, sha256, bySha.value);
        return Some(DigestMismatch);
      }
      refused := if bySha.error != NoRows then Some(Fault) else None;
    }

    /** The first lookup, by both digests. */
    method LookUpDigests(c: Call, content: Bytes, ghost name: string, n: nat, ghost s: System)
      returns (existing: Result<int>)
      requires Shows(s) && Uploading(c, s, content, name, Lookup) && Unique(s.db)
      ensures Shows(Walk(c, s, n, n + 1)) && Walk(c, s, n, n + 1).db == s.db
      ensures existing.Ok? ==> IsRow(s.db, existing.value, c.cfg.sha256(content))
      ensures existing.Err? ==> existing.error == if c.fails(n) then Fault else NoRows
      ensures Uploading(c, Walk(c, s, n, n + 1), content, name,
                        if existing.Ok? then
                          (var row := s.db.files[existing.value];
                           if row.md5 != c.cfg.md5(content) || row.size != |content| then Discard(DigestMismatch)
                           else MakeDir(Ref(existing.value)))
                        else if existing.error == NoRows then LookupSha else Discard(Fault))
    {
      existing := store.FileByDigests(c.cfg.md5(content), c.cfg.sha256(content), c.fails(n));
      UploadCall(c, s, content, name, Lookup, n);
      if existing.Ok? {
        DigestsFound(s.db, c.cfg.md5(content), c.cfg.sha256(content), existing.value);
      }
    }

    /** The digest lookups: an earlier row, or none, or the reason to give up. Calls that work find the row of
        the digest, and find none only if there is none. */
    method LookUp(c: Call, content: Bytes, ghost name: string, n: nat, ghost s: System)
      returns (found: RowRef, refused: Option<Error>, m: nat)
      requires Shows(s) && Uploading(c, s, content, name, Lookup) && Unique(s.db)
      ensures m >= n && Shows(Walk(c, s, n, m))
      ensures Uploading(c, Walk(c, s, n, m), content, name, if refused.Some? then Discard(refused.value)
          else MakeDir(found))
      ensures found.Ref? ==> IsRow(s.db, found.id, c.cfg.sha256(content))
      ensures refused == Some(Fault) ==> c.fails(n) || c.fails(n + 1)
      ensures !c.fails(n) && !c.fails(n + 1) ==>
                (refused.None? && found.Null? <==> NoRow(s.db, c.cfg.sha256(content)))
    {
      var existing := LookUpDigests(c, content, name, n, s);
      if existing.Ok? {
        var row := store.files[existing.value];
        if row.md5 != c.cfg.md5(content) || row.size != |content| {
          return Null, Some(DigestMismatch), n + 1;
        }
        return Ref(existing.value), None, n + 1;
      }
      if existing.error != NoRows { return Null, Some(Fault), n + 1; }
      refused := LookUpSha(c, content, name, n + 1, Walk(c, s, n, n + 1));
      WalkOn(c, s, n, n + 1, n + 2);
      found, m := Null, n + 2;
    }

    method InsertRow(c: Call, content: Bytes, name: string, n: nat, ghost s: System) returns (created: Result<int>)
      requires Shows(s) && Uploading(c, s, content, name, Insert) && Integrity(s.db)
      modifies store
      ensures Shows(Walk(c, s, n, n + 1)) && Unique(Walk(c, s, n, n + 1).db)
      ensures Uploading(c, Walk(c, s, n, n + 1), content, name, if created.Ok? then Reread(created.value) else Relookup)
      ensures store.subs == old(store.subs)
    {
      var md5, sha256 := c.cfg.md5(content), c.cfg.sha256(content);
      created := store.CreateFile(md5, sha256, |content|, c.contentType, Key(sha256), name, c.now,
          if c.fails(n) then 0 else 1);
      UploadCall(c, s, content, name, Insert, n);
      if created.Ok? {
        InsertFileKeepsIntegrity(s.db, UploadRow(c.cfg, content, name, c.contentType, c.now));
      }
    }

    method LookAgain(c: Call, content: Bytes, ghost name: string, n: nat, ghost s: System) returns (r: Result<int>)
      requires Shows(s) && Uploading(c, s, content, name, Relookup) && Unique(s.db)
      ensures Shows(Walk(c, s, n, n + 1)) && Uploading(c, Walk(c, s, n, n + 1), content, name, Finished(r))
    {
      var md5, sha256 := c.cfg.md5(content), c.cfg.sha256(content);
      var existing := store.FileByDigests(md5, sha256, c.fails(n));
      UploadCall(c, s, content, name, Relookup, n);
      if existing.Ok? {
        DigestsFound(s.db, md5, sha256, existing.value);
        return Ok(existing.value);
      }
      r := Err(Fault);
    }

    /** The row is read back; when that or the insertion failed, it is looked up once more. */
    method AnswerRow(c: Call, content: Bytes, ghost name: string, created: Result<int>, n: nat, ghost s: System)
      returns (r: Result<int>, m: nat)
      requires Shows(s) && Unique(s.db)
      requires Uploading(c, s, content, name, if created.Ok? then Reread(created.value) else Relookup)
      ensures m >= n && Shows(Walk(c, s, n, m)) && Uploading(c, Walk(c, s, n, m), content, name, Finished(r))
    {
      if created.Err? {
        r := LookAgain(c, content, name, n, s);
        return r, n + 1;
      }
      var reread := store.FileByID(created.value, c.fails(n));
      UploadCall(c, s, content, name, Reread(created.value), n);
      if reread.Ok? { return Ok(created.value), n + 1; }
      r := LookAgain(c, content, name, n + 1, Walk(c, s, n, n + 1));
      WalkOn(c, s, n, n + 1, n + 2);
      m := n + 2;
    }

    method CreateRow(c: Call, content: Bytes, name: string, n: nat, ghost s: System) returns (r: Result<int>, m: nat)
      requires Shows(s) && Uploading(c, s, content, name, Insert) && Integrity(s.db)
      modifies store
      ensures m >= n && Shows(Walk(c, s, n, m)) && Uploading(c, Walk(c, s, n, m), content, name, Finished(r))
      ensures store.subs == old(store.subs)
    {
      var created := InsertRow(c, content, name, n, s);
      r, m := AnswerRow(c, content, name, created, n + 1, Walk(c, s, n, n + 1));
      WalkOn(c, s, n, n + 1, m);
    }

    /** Everything under the lock except taking it. */
    method SaveStaged(c: Call, content: Bytes, name: string, n: nat, ghost s: System) returns (r: Result<int>,
                      ghost m: nat)
      requires Shows(s) && Uploading(c, s, content, name, Lookup) && Integrity(s.db) && c.t in s.temps
      modifies this`fileMu, store, storage
      ensures m >= n && Shows(Walk(c, s, n, m)) && Uploading(c, Walk(c, s, n, m), content, name, Done(r))
      ensures store.subs == old(store.subs)
    {
      var found, refused, k := LookUp(c, content, name, n, s);
      ghost var s1 := Walk(c, s, n, k);
      if refused.Some? {
        m := Abandon(c, content, name, refused.value, k, s1);
        WalkOn(c, s, n, k, m);
        return Err(refused.value), m;
      }
      var ok, next := storage.Commit(c.t, Key(c.cfg.sha256(content)), c.fails, k);
      CommitIsWalk(c, s1, content, name, found, k);
      ghost var s2 := Walk(c, s1, k, next);
      r, m := FinishSave(c, content, name, found, ok, next, s2);
      WalkOn(c, s1, k, next, m);
      WalkOn(c, s, n, k, m);
    }

    method FinishSave(c: Call, content: Bytes, name: string, found: RowRef, committed: bool, n: nat, ghost s: System)
      returns (r: Result<int>, ghost m: nat)
      requires Shows(s) && Uploading(c, s, content, name, if committed then AfterCommit(found) else Discard(Fault))
      requires Integrity(s.db)
      modifies this`fileMu, store, storage
      ensures m >= n && Shows(Walk(c, s, n, m)) && Uploading(c, Walk(c, s, n, m), content, name, Done(r))
      ensures store.subs == old(store.subs)
    {
      if !committed {
        m := Abandon(c, content, name, Fault, n, s);
        return Err(Fault), m;
      }
      if found.Ref? {
        m := Unlock(c, content, name, Ok(found.id), n, s);
        return Ok(found.id), m;
      }
      var k;
      r, k := CreateRow(c, content, name, n, s);
      m := Unlock(c, content, name, r, k, Walk(c, s, n, k));
      WalkOn(c, s, n, k, m);
    }

    /** Stage, outside the lock. */
    method Begin(c: Call, content: Bytes, ghost name: string, stageFails: nat -> bool, ghost s: System)
      returns (staged: Result<()>, ghost begun: System)
      requires Shows(s) && s.lock.None? && c.t == s.nextId && c.t !in s.temps
      modifies storage
      ensures Begun(c, s, content, name, begun)
      ensures staged.Ok? <==> StageWorks(c, content, stageFails)
      ensures staged.Ok? ==> begun == StepBeginUpload(c.cfg, s, content, name, false, None)
      ensures staged.Err? && !stageFails(0) && !stageFails(1) ==>
                staged.error == (if content == [] then EmptyUpload
                                 else if |content| > c.cfg.maxUpload then UploadTooLarge else Fault)
      ensures Shows(begun) && begun.lock.None? && begun.db == s.db && (staged.Ok? ==> c.t in begun.temps)
      ensures Uploading(c, begun, content, name, if staged.Ok? then Waiting else Done(Err(staged.error)))
    {
      staged := storage.Stage(content, c.cfg.maxUpload, c.t, stageFails);
      ghost var late := 0 < |content| <= c.cfg.maxUpload && (stageFails(2) || stageFails(3));
      ghost var fault := stageFails(0) || stageFails(1) || late;
      ghost var kept := if c.t in storage.temps then Some(storage.temps[c.t]) else None;
      BeginCall(c, s, content, name, fault, kept);
      assert staged.Err? ==> storage.temps == if kept.Some? then s.temps[c.t := kept.value] else s.temps;
      begun := StepBeginUpload(c.cfg, s, content, name, fault, kept);
    }

    method LockAndSave(c: Call, content: Bytes, name: string, ghost s: System) returns (r: Result<int>, ghost m: nat)
      requires Shows(s) && s.lock.None? && Integrity(s.db) && c.t in s.temps && Uploading(c, s, content, name, Waiting)
      modifies this`fileMu, store, storage
      ensures Shows(Walk(c, s, 0, m)) && Uploading(c, Walk(c, s, 0, m), content, name, Done(r))
      ensures store.subs == old(store.subs)
    {
      UploadCall(c, s, content, name, Waiting, 0);
      fileMu := Some(c.t);
      r, m := SaveStaged(c, content, name, 1, Walk(c, s, 0, 1));
      WalkOn(c, s, 0, 1, m);
    }

    /** saveUploadedFile: Stage, then the rest under the lock. What the objects hold afterwards, and the
        answer, are those of an uninterrupted run of the upload's job. */
    method SaveUploadedFile(c: Call, content: Bytes, name: string, stageFails: nat -> bool, ghost s: System)
      returns (r: Result<int>, ghost begun: System, ghost m: nat)
      requires Shows(s) && s.lock.None? && Integrity(s.db) && c.t == s.nextId && c.t !in s.temps
      modifies this`fileMu, store, storage
      ensures Begun(c, s, content, name, begun)
      ensures Shows(Walk(c, begun, 0, m)) && Uploading(c, Walk(c, begun, 0, m), content, name, Done(r))
      ensures store.subs == old(store.subs)
      ensures !stageFails(0) && !stageFails(1) && content == [] ==> r == Err(EmptyUpload)
      ensures !stageFails(0) && !stageFails(1) && |content| > c.cfg.maxUpload ==> r == Err(UploadTooLarge)
      ensures UploadWorks(c, s, content, stageFails) ==>
                r.Ok? && Stored(c, s, Walk(c, begun, 0, m), content, name, r.value)
    {
      var staged;
      staged, begun := Begin(c, content, name, stageFails, s);
      if staged.Err? { return Err(staged.error), begun, 0; }
      r, m := LockAndSave(c, content, name, begun);
      if UploadWorks(c, s, content, stageFails) {
        WorkingUploadIsStored(c, s, content, name, stageFails, m, r);
      }
    }

    /** After a deletion: the row is gone and so is its blob, unless that could not be removed; after a
        refusal nothing has changed. */
    ghost predicate Gone(db: Db, blobs: map<string, Bytes>, fileId: int, r: Result<int>)
      reads store, storage
    {
      if r.Ok? then
        && CanDeleteFile(db, fileId) && store.Snapshot() == RemoveFile(db, fileId)
        && (storage.blobs == blobs - {db.files[fileId].storageKey} || storage.blobs == blobs)
      else store.Snapshot() == db && storage.blobs == blobs
    }

    /** The row read again under the lock, if the file may be deleted. */
    method ReadUnderLock(c: Call, fileId: int, ghost s: System) returns (key: Result<string>)
      requires Shows(s) && Deleting(c, s, fileId, ReadRow)
      ensures Shows(Walk(c, s, 1, 2)) && Walk(c, s, 1, 2).db == s.db && Walk(c, s, 1, 2).blobs == s.blobs
      ensures Deleting(c, Walk(c, s, 1, 2), fileId, if key.Ok? then DeleteRow(key.value) else Finished(Err(key.error)))
      ensures key.Ok? ==> fileId in s.db.files && s.db.files[fileId].storageKey == key.value
    {
      var file := store.FileByID(fileId, c.fails(1));
      DeletionCall(c, s, fileId, ReadRow, 1);
      if file.Err? { return Err(NoRows); }
      if |Associated(store.Snapshot(), fileId)| > 0 { return Err(StillAssociated); }
      key := Ok(file.value.storageKey);
    }

    /** deleteStoredFile under its lock: the row first, the blob after it. */
    method DeleteLocked(c: Call, fileId: int, ghost s: System) returns (r: Result<int>, n: nat)
      requires Shows(s) && Deleting(c, s, fileId, ReadRow)
      modifies store, storage
      ensures n >= 1 && Shows(Walk(c, s, 1, n)) && Deleting(c, Walk(c, s, 1, n), fileId, Finished(r))
      ensures Gone(s.db, s.blobs, fileId, r)
    {
      var key := ReadUnderLock(c, fileId, s);
      if key.Err? { return Err(key.error), 2; }
      r, n := RemoveRowAndBlob(c, fileId, key.value, 2, Walk(c, s, 1, 2));
      WalkOn(c, s, 1, 2, n);
    }

    method RemoveRow(c: Call, fileId: int, key: string, n: nat, ghost s: System) returns (r: Result<()>)
      requires Shows(s) && Deleting(c, s, fileId, DeleteRow(key))
      modifies store
      ensures Shows(Walk(c, s, n, n + 1)) && Walk(c, s, n, n + 1).blobs == s.blobs
      ensures Deleting(c, Walk(c, s, n, n + 1), fileId, if r.Ok? then DeleteBlob(key)
          else Finished(Err(StillAssociated)))
      ensures if r.Ok? then CanDeleteFile(s.db, fileId) && store.Snapshot() == RemoveFile(s.db, fileId)
          else store.Snapshot() == s.db
    {
      r := store.DeleteFile(fileId, if c.fails(n) then 0 else 1);
      DeletionCall(c, s, fileId, DeleteRow(key), n);
    }

    method RemoveRowAndBlob(c: Call, fileId: int, key: string, n: nat, ghost s: System) returns (r: Result<int>, m: nat)
      requires Shows(s) && Deleting(c, s, fileId, DeleteRow(key))
      requires fileId in s.db.files && s.db.files[fileId].storageKey == key
      modifies store, storage
      ensures m >= n && Shows(Walk(c, s, n, m)) && Deleting(c, Walk(c, s, n, m), fileId, Finished(r))
      ensures Gone(s.db, s.blobs, fileId, r)
    {
      var deleted := RemoveRow(c, fileId, key, n, s);
      if deleted.Err? { return Err(StillAssociated), n + 1; }
      // a blob that cannot be removed stays as an orphan
      var removed := storage.Remove(key, c.fails(n + 1));
      DeletionCall(c, Walk(c, s, n, n + 1), fileId, DeleteBlob(key), n + 1);
      WalkOn(c, s, n, n + 1, n + 2);
      return Ok(fileId), n + 2;
    }

    method UnlockDeletion(c: Call, ghost fileId: int, ghost r: Result<int>, n: nat, ghost s: System)
      requires Shows(s) && Deleting(c, s, fileId, Finished(r))
      modifies this`fileMu
      ensures Shows(Walk(c, s, n, n + 1)) && Deleting(c, Walk(c, s, n, n + 1), fileId, Done(r))
    {
      DeletionCall(c, s, fileId, Finished(r), n);
      fileMu := None;
    }

    method LockAndDelete(c: Call, fileId: int, ghost s: System) returns (r: Result<int>, ghost m: nat)
      requires Shows(s) && s.lock.None? && Deleting(c, s, fileId, Waiting)
      modifies this`fileMu, store, storage
      ensures Shows(Walk(c, s, 0, m)) && Deleting(c, Walk(c, s, 0, m), fileId, Done(r))
      ensures Gone(s.db, s.blobs, fileId, r)
    {
      DeletionCall(c, s, fileId, Waiting, 0);
      fileMu := Some(c.t);
      ghost var s1 := Walk(c, s, 0, 1);
      var n;
      r, n := DeleteLocked(c, fileId, s1);
      UnlockDeletion(c, fileId, r, n, Walk(c, s1, 1, n));
      m := n + 1;
      WalkOn(c, s1, 1, n, m);
      WalkOn(c, s, 0, 1, m);
    }

    /** deleteStoredFile, after the file was loaded; an uninterrupted run of the deletion's job. */
    method DeleteStoredFile(c: Call, fileId: int, ghost s: System) returns (r: Result<int>, ghost m: nat)
      requires Shows(s) && s.lock.None? && c.t == s.nextId
      modifies this`fileMu, store, storage
      ensures Shows(Walk(c, StepBeginDeletion(s, fileId), 0, m))
      ensures Deleting(c, Walk(c, StepBeginDeletion(s, fileId), 0, m), fileId, Done(r))
      ensures Gone(s.db, s.blobs, fileId, r)
      ensures NoneFails(c) ==> Completion.Deleted(s, Walk(c, StepBeginDeletion(s, fileId), 0, m), fileId, r)
    {
      var loaded := store.FileByID(fileId, false);
      if loaded.Err? {
        r, m := Err(NoRows), 0;
      } else {
        r, m := LockAndDelete(c, fileId, StepBeginDeletion(s, fileId));
      }
      if NoneFails(c) {
        WorkingDeletion(c, s, fileId, m, r);
      }
    }

    /** The database is the one after the upload, and nothing more was done. */
    ghost predicate SavedOnly(c: Call, s: System, content: Bytes, name: string, begun: System, m: nat)
      reads store
    {
      Begun(c, s, content, name, begun) && store.Snapshot() == Walk(c, begun, 0, m).db
    }

    /** replaceSubscriptionFile: a file subscription, an upload, and the new association. */
    method ReplaceSubscriptionFile(c: Call, subId: int, content: Bytes, name: string, stageFails: nat -> bool,
                                   fault: nat, ghost s: System)
      returns (r: Result<int>, ghost begun: System, ghost m: nat)
      requires Shows(s) && s.lock.None? && Integrity(s.db) && c.t == s.nextId && c.t !in s.temps
      modifies this`fileMu, store, storage
      ensures r.Ok? ==> Begun(c, s, content, name, begun) && Uploading(c, Walk(c, begun, 0, m), content, name, Done(r))
      ensures r.Ok? ==> store.Snapshot() == Apply(Walk(c, begun, 0, m).db, ReplaceOne(subId, r.value, name, c.now))
      ensures r.Err? ==> store.Snapshot() == s.db || SavedOnly(c, s, content, name, begun, m)
      ensures r.Err? ==> store.subs == old(store.subs)
      ensures UploadWorks(c, s, content, stageFails) && fault > 0 && subId in s.db.subs
              && s.db.subs[subId].kind == FileKind ==>
                r.Ok? && Stored(c, s, Walk(c, begun, 0, m), content, name, r.value)
    {
      begun, m := s, 0;
      if subId !in store.subs || store.subs[subId].kind != FileKind { return Err(NoRows), s, 0; }
      r, begun, m := SaveUploadedFile(c, content, name, stageFails, s);
      if r.Err? { return; }
      var replaced := store.ReplaceSubscriptionFile(subId, r.value, name, c.now, fault);
      if replaced.Err? { return Err(replaced.error), begun, m; }
    }

    /** replaceStoredFile: a file in use, an upload, and the new association of all its subscriptions. */
    method ReplaceStoredFile(c: Call, oldId: int, content: Bytes, name: string, stageFails: nat -> bool, fault: nat,
                             ghost s: System)
      returns (r: Result<int>, ghost begun: System, ghost m: nat)
      requires Shows(s) && s.lock.None? && Integrity(s.db) && c.t == s.nextId && c.t !in s.temps
      modifies this`fileMu, store, storage
      ensures r.Ok? ==> Begun(c, s, content, name, begun) && Uploading(c, Walk(c, begun, 0, m), content, name, Done(r))
      ensures r.Ok? ==> store.Snapshot() == Apply(Walk(c, begun, 0, m).db, ReplaceAll(oldId, r.value, name, c.now))
      ensures r.Err? ==> store.Snapshot() == s.db || SavedOnly(c, s, content, name, begun, m)
      ensures oldId in s.db.files && Associated(s.db, oldId) == {} ==>
                r == Err(NoAssociations) && store.Snapshot() == s.db
      ensures r.Err? ==> store.subs == old(store.subs)
      ensures UploadWorks(c, s, content, stageFails) && fault >= 4 && oldId in s.db.files
              && Associated(s.db, oldId) != {} ==>
                r.Ok? && Stored(c, s, Walk(c, begun, 0, m), content, name, r.value)
    {
      begun, m := s, 0;
      var loaded := store.FileByID(oldId, false);
      if loaded.Err? { return Err(NoRows), s, 0; }
      if |Associated(store.Snapshot(), oldId)| == 0 { return Err(NoAssociations), s, 0; }
      r, begun, m := SaveUploadedFile(c, content, name, stageFails, s);
      if r.Err? { return; }
      if UploadWorks(c, s, content, stageFails) {
        UsersOf(s.db, oldId);
        MoveIsAccepted(c, s, Walk(c, begun, 0, m), content, name, oldId, r.value);
      }
      var replaced := store.ReplaceFileAssociations(oldId, r.value, name, c.now, fault);
      if replaced.Err? { return Err(replaced.error), begun, m; }
    }
  }
}
