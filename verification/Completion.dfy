/** Uploads and deletions that are not interrupted and none of whose calls fails: from every state that
    keeps the blob invariant they reach their answer, and leave exactly what they were asked for. */
module Completion {
  import opened Wrappers
  import opened Schema
  import opened Transactions
  import opened Preservation
  import opened Server
  import opened BlobProtocol
  import opened Walks

  ghost predicate NoneFails(c: Call) {
    forall n :: !c.fails(n)
  }

  // ---- The way of an upload ----

  /** A bound on the calls a job has left, whatever becomes of them. */
  function CallsLeft(stage: Stage): nat {
    match stage
    case Waiting => 12
    case Lookup => 11
    case LookupSha => 10
    case MakeDir(_) => 9
    case StatDest(_) => 8
    case DropTemp(_) => 7
    case Rename(_) => 7
    case Chmod(_) => 6
    case UndoRename => 5
    case Insert => 5
    case Reread(_) => 4
    case Relookup => 3
    case Discard(_) => 2
    case ReadRow => 4
    case DeleteRow(_) => 3
    case DeleteBlob(_) => 2
    case Finished(_) => 1
    case Done(_) => 0
  }

  /** The row that an upload will answer with: the row of its digest, or the next one. */
  predicate AnswersWith(db: Db, sha256: string, id: int) {
    IsRow(db, id, sha256) || (NoRow(db, sha256) && id == db.nextFile)
  }

  /** Stages that lead to that answer unless a call fails. */
  predicate Heads(db: Db, sha256: string, stage: Stage, id: int) {
    match stage
    case Waiting => AnswersWith(db, sha256, id)
    case Lookup => AnswersWith(db, sha256, id)
    case LookupSha => NoRow(db, sha256) && id == db.nextFile
    case MakeDir(found) => HeadsWith(db, sha256, found, id)
    case StatDest(found) => HeadsWith(db, sha256, found, id)
    case DropTemp(found) => HeadsWith(db, sha256, found, id)
    case Rename(found) => HeadsWith(db, sha256, found, id)
    case Chmod(found) => HeadsWith(db, sha256, found, id)
    case Insert => NoRow(db, sha256) && id == db.nextFile
    case Reread(row) => row == id && id in db.files
    case Finished(result) => result == Ok(id)
    case Done(answer) => answer == Ok(id)
    case _ => false
  }

  predicate HeadsWith(db: Db, sha256: string, found: RowRef, id: int) {
    if found.Ref? then found.id == id && IsRow(db, id, sha256) else NoRow(db, sha256) && id == db.nextFile
  }

  /** Stages in which the row was not inserted yet. */
  predicate BeforeRow(stage: Stage) {
    HasTemp(stage) || stage.Chmod? || stage.Insert?
  }

  /** The database with the row of the upload, all columns written out. */
  function WithRow(c: Call, db: Db, content: Bytes, name: string, id: int): Db {
    var sha256 := c.cfg.sha256(content);
    if IsRow(db, id, sha256) then db
    else db.(files := db.files[id := File(c.cfg.md5(content), sha256, |content|, c.contentType, Key(sha256), name,
                                          0, None, "", c.now, c.now)],
             nextFile := id + 1)
  }

  /** The upload that began in `s0` has come to `s` and will answer with `id`. */
  ghost predicate OnTheWay(c: Call, s0: System, s: System, content: Bytes, name: string, id: int) {
    && c.t in s.jobs && s.jobs[c.t].Upload?
    && (var stage, sha256 := s.jobs[c.t].stage, c.cfg.sha256(content);
        && Uploading(c, s, content, name, stage) && Heads(s.db, sha256, stage, id)
        && (stage.DropTemp? ==> Key(sha256) in s0.blobs)
        && s.lock == (if Locked(stage) then Some(c.t) else None)
        && s.temps == (if HasTemp(stage) then s0.temps else s0.temps - {c.t})
        && s.blobs == (if HasTemp(stage) then s0.blobs else s0.blobs[Key(sha256) := content])
        && s.db == (if BeforeRow(stage) then s0.db else WithRow(c, s0.db, content, name, id)))
  }

  /** The state in which the upload began. */
  ghost predicate Staged(c: Call, s0: System, content: Bytes) {
    && Sound(c.cfg) && BlobsMatchKeys(c.cfg, s0.blobs) && RowsHaveBlobs(c.cfg, s0) && Unique(s0.db)
    && c.t in s0.temps && s0.temps[c.t] == content
  }

  /** The lookups find the row of the digest, which describes the content, or none. */
  lemma LookupsAgree(c: Call, s0: System, content: Bytes, id: int)
    requires Staged(c, s0, content) && AnswersWith(s0.db, c.cfg.sha256(content), id)
    ensures var sha256, md5 := c.cfg.sha256(content), c.cfg.md5(content);
            if IsRow(s0.db, id, sha256)
            then ByDigests(s0.db, md5, sha256) == Ref(id) && Describes(c.cfg, s0.db.files[id], content)
                 && Key(sha256) in s0.blobs
            else ByDigests(s0.db, md5, sha256) == Null && BySha(s0.db, sha256) == Null
  {
    var sha256, md5 := c.cfg.sha256(content), c.cfg.md5(content);
    if IsRow(s0.db, id, sha256) {
      assert HasBlob(c.cfg, s0.db.files[id], s0.blobs);
      DigestsFound(s0.db, md5, sha256, id);
    }
  }

  lemma LookupStep(c: Call, s0: System, s: System, content: Bytes, name: string, id: int, n: nat)
    requires Staged(c, s0, content) && OnTheWay(c, s0, s, content, name, id) && !c.fails(n)
    requires s.jobs[c.t].stage.Waiting? || s.jobs[c.t].stage.Lookup? || s.jobs[c.t].stage.LookupSha?
    ensures OnTheWay(c, s0, Walk(c, s, n, n + 1), content, name, id)
  {
    UploadCall(c, s, content, name, s.jobs[c.t].stage, n);
    LookupsAgree(c, s0, content, id);
  }

  /** A blob that lies at the key of the content is the content. */
  lemma BlobThereAlready(c: Call, s0: System, content: Bytes)
    requires Staged(c, s0, content) && Key(c.cfg.sha256(content)) in s0.blobs
    ensures s0.blobs == s0.blobs[Key(c.cfg.sha256(content)) := content]
  {
    BlobAtKey(c.cfg, s0.blobs, content);
  }

  lemma DestinationStep(c: Call, s0: System, s: System, content: Bytes, name: string, id: int, n: nat)
    requires Staged(c, s0, content) && OnTheWay(c, s0, s, content, name, id) && !c.fails(n)
    requires s.jobs[c.t].stage.MakeDir? || s.jobs[c.t].stage.StatDest?
    ensures OnTheWay(c, s0, Walk(c, s, n, n + 1), content, name, id)
  {
    UploadCall(c, s, content, name, s.jobs[c.t].stage, n);
  }

  lemma DropStep(c: Call, s0: System, s: System, content: Bytes, name: string, id: int, n: nat)
    requires Staged(c, s0, content) && OnTheWay(c, s0, s, content, name, id) && !c.fails(n)
    requires s.jobs[c.t].stage.DropTemp?
    ensures OnTheWay(c, s0, Walk(c, s, n, n + 1), content, name, id)
  {
    UploadCall(c, s, content, name, s.jobs[c.t].stage, n);
    BlobThereAlready(c, s0, content);
  }

  lemma RenameStep(c: Call, s0: System, s: System, content: Bytes, name: string, id: int, n: nat)
    requires Staged(c, s0, content) && OnTheWay(c, s0, s, content, name, id) && !c.fails(n)
    requires s.jobs[c.t].stage.Rename?
    ensures OnTheWay(c, s0, Walk(c, s, n, n + 1), content, name, id)
  {
    UploadCall(c, s, content, name, s.jobs[c.t].stage, n);
  }

  lemma ChmodStep(c: Call, s0: System, s: System, content: Bytes, name: string, id: int, n: nat)
    requires Staged(c, s0, content) && OnTheWay(c, s0, s, content, name, id) && !c.fails(n)
    requires s.jobs[c.t].stage.Chmod?
    ensures OnTheWay(c, s0, Walk(c, s, n, n + 1), content, name, id)
  {
    UploadCall(c, s, content, name, s.jobs[c.t].stage, n);
  }

  /** No row stands in the way of the new one. */
  lemma RowIsFree(c: Call, s0: System, content: Bytes)
    requires Staged(c, s0, content) && NoRow(s0.db, c.cfg.sha256(content))
    ensures CanCreateFile(s0.db, c.cfg.sha256(content), Key(c.cfg.sha256(content)))
  {
    forall i | i in s0.db.files ensures s0.db.files[i].storageKey != Key(c.cfg.sha256(content)) {
      if s0.db.files[i].storageKey == Key(c.cfg.sha256(content)) {
        RowOfKey(c.cfg, s0, i, content);
      }
    }
  }

  lemma RowStep(c: Call, s0: System, s: System, content: Bytes, name: string, id: int, n: nat)
    requires Staged(c, s0, content) && OnTheWay(c, s0, s, content, name, id) && !c.fails(n)
    requires s.jobs[c.t].stage.Insert? || s.jobs[c.t].stage.Reread? || s.jobs[c.t].stage.Finished?
    ensures OnTheWay(c, s0, Walk(c, s, n, n + 1), content, name, id)
  {
    UploadCall(c, s, content, name, s.jobs[c.t].stage, n);
    if s.jobs[c.t].stage.Insert? {
      RowIsFree(c, s0, content);
    }
  }

  lemma CallOnTheWay(c: Call, s0: System, s: System, content: Bytes, name: string, id: int, n: nat)
    requires Staged(c, s0, content) && OnTheWay(c, s0, s, content, name, id) && !c.fails(n)
    requires !s.jobs[c.t].stage.Done?
    ensures var s' := Walk(c, s, n, n + 1);
            OnTheWay(c, s0, s', content, name, id) && CallsLeft(s'.jobs[c.t].stage) < CallsLeft(s.jobs[c.t].stage)
  {
    var stage := s.jobs[c.t].stage;
    if stage.MakeDir? || stage.StatDest? {
      DestinationStep(c, s0, s, content, name, id, n);
    } else if stage.DropTemp? {
      DropStep(c, s0, s, content, name, id, n);
    } else if stage.Rename? {
      RenameStep(c, s0, s, content, name, id, n);
    } else if stage.Chmod? {
      ChmodStep(c, s0, s, content, name, id, n);
    } else if stage.Waiting? || stage.Lookup? || stage.LookupSha? {
      LookupStep(c, s0, s, content, name, id, n);
    } else {
      RowStep(c, s0, s, content, name, id, n);
    }
    UploadCall(c, s, content, name, stage, n);
  }

  lemma {:induction false} WalkOnTheWay(c: Call, s0: System, s: System, content: Bytes, name: string, id: int, n: nat)
    returns (m: nat)
    requires Staged(c, s0, content) && OnTheWay(c, s0, s, content, name, id) && NoneFails(c)
    ensures m >= n && OnTheWay(c, s0, Walk(c, s, n, m), content, name, id)
    ensures Walk(c, s, n, m).jobs[c.t].stage.Done?
    decreases CallsLeft(s.jobs[c.t].stage)
  {
    m := n;
    if !s.jobs[c.t].stage.Done? {
      CallOnTheWay(c, s0, s, content, name, id, n);
      m := WalkOnTheWay(c, s0, Walk(c, s, n, n + 1), content, name, id, n + 1);
      WalkOn(c, s, n, n + 1, m);
    }
  }

  /** What a successful upload leaves: its blob and its row beside all others, no temporary file, and
      the mutex free. */
  ghost predicate Stored(c: Call, s: System, s': System, content: Bytes, name: string, id: int) {
    && Uploading(c, s', content, name, Done(Ok(id))) && s'.lock.None? && s'.temps == s.temps - {c.t}
    && AnswersWith(s.db, c.cfg.sha256(content), id) && s'.db == WithRow(c, s.db, content, name, id)
    && s'.blobs == s.blobs[Key(c.cfg.sha256(content)) := content]
  }

  lemma {:induction false} WalkStays(c: Call, s: System, n: nat, m: nat)
    requires c.t in Walk(c, s, 0, n).jobs && Walk(c, s, 0, n).jobs[c.t].stage.Done? && n <= m
    ensures Walk(c, s, 0, m) == Walk(c, s, 0, n)
    decreases m
  {
    if n < m {
      WalkStays(c, s, n, m - 1);
    }
  }

  lemma RowToBe(db: Db, sha256: string) returns (id: int)
    ensures AnswersWith(db, sha256, id)
  {
    if NoRow(db, sha256) {
      id := db.nextFile;
    } else {
      id :| id in db.files && db.files[id].sha256 == sha256;
    }
  }

  lemma UploadBegins(c: Call, s: System, content: Bytes, name: string, kept: Option<Bytes>, id: int)
    requires Sound(c.cfg) && BlobInv(c.cfg, s) && Unique(s.db) && s.lock.None? && c.t == s.nextId
    requires 0 < |content| <= c.cfg.maxUpload && AnswersWith(s.db, c.cfg.sha256(content), id)
    ensures var begun := StepBeginUpload(c.cfg, s, content, name, false, kept);
            && Staged(c, begun, content) && OnTheWay(c, begun, begun, content, name, id)
            && begun.db == s.db && begun.blobs == s.blobs && begun.temps - {c.t} == s.temps - {c.t}
  {
    var begun := StepBeginUpload(c.cfg, s, content, name, false, kept);
    SameRowsAndBlobs(c.cfg, s, begun);
    assert begun.temps - {c.t} == s.temps - {c.t};
  }

  /** Every upload of an admissible size is stored and answered with its row, from every state that keeps
      the blob invariant and in which the mutex is free, when no call fails. */
  lemma UploadSucceeds(c: Call, s: System, content: Bytes, name: string, kept: Option<Bytes>) returns (id: int, m: nat)
    requires Sound(c.cfg) && BlobInv(c.cfg, s) && Unique(s.db) && s.lock.None? && c.t == s.nextId
    requires NoneFails(c) && 0 < |content| <= c.cfg.maxUpload
    ensures var begun := StepBeginUpload(c.cfg, s, content, name, false, kept);
            && Stored(c, s, Walk(c, begun, 0, m), content, name, id)
            && forall k :: k >= m ==> Walk(c, begun, 0, k) == Walk(c, begun, 0, m)
  {
    var begun := StepBeginUpload(c.cfg, s, content, name, false, kept);
    id := RowToBe(s.db, c.cfg.sha256(content));
    UploadBegins(c, s, content, name, kept, id);
    m := WalkOnTheWay(c, begun, begun, content, name, id, 0);
    forall k | k >= m ensures Walk(c, begun, 0, k) == Walk(c, begun, 0, m) {
      WalkStays(c, begun, m, k);
    }
  }

  // ---- Deletions ----

  /** What a deletion leaves and answers when none of its calls fails. */
  ghost predicate Deleted(s: System, s': System, fileId: int, answer: Result<int>) {
    && s'.lock.None? && s'.temps == s.temps && s'.db.subs == s.db.subs
    && if fileId !in s.db.files then answer == Err(NoRows) && s'.db == s.db && s'.blobs == s.blobs
       else if exists id :: id in s.db.subs && s.db.subs[id].fileId == Ref(fileId) then
         answer == Err(StillAssociated) && s'.db == s.db && s'.blobs == s.blobs
       else
         && answer == Ok(fileId) && s'.db.files == s.db.files - {fileId}
         && s'.blobs == s.blobs - {s.db.files[fileId].storageKey}
         && (forall k :: k in s'.db.stats <==> k in s.db.stats && k.file != fileId)
         && (forall k :: k in s'.db.stats ==> s'.db.stats[k] == s.db.stats[k])
         && (forall l :: l in s'.db.logs <==> l in s.db.logs)
         && (forall l :: l in s'.db.logs ==>
               s'.db.logs[l] == s.db.logs[l].(fileId := if s.db.logs[l].fileId == Ref(fileId) then Null
                                                       else s.db.logs[l].fileId))
  }

  lemma UsersOf(db: Db, fileId: int)
    ensures |Associated(db, fileId)| > 0 <==> exists id :: id in db.subs && db.subs[id].fileId == Ref(fileId)
  {
    if exists id :: id in db.subs && db.subs[id].fileId == Ref(fileId) {
      var id :| id in db.subs && db.subs[id].fileId == Ref(fileId);
      assert id in Associated(db, fileId);
    } else {
      WithoutMembers(Associated(db, fileId));
    }
  }

  /** A deletion removes the row and then the blob of every file without subscriptions, and refuses
      all others. */
  lemma DeletionSucceeds(c: Call, s: System, fileId: int) returns (answer: Result<int>)
    requires s.lock.None? && c.t == s.nextId && NoneFails(c)
    ensures var begun := StepBeginDeletion(s, fileId);
            && Deleting(c, Walk(c, begun, 0, 5), fileId, Done(answer))
            && Deleted(s, Walk(c, begun, 0, 5), fileId, answer)
            && forall k :: k >= 5 ==> Walk(c, begun, 0, k) == Walk(c, begun, 0, 5)
  {
    var begun := StepBeginDeletion(s, fileId);
    UsersOf(s.db, fileId);
    if fileId !in s.db.files {
      answer := Err(NoRows);
      WalkStays(c, begun, 0, 5);
    } else {
      TwoCalls(c, begun, fileId);
      if |Associated(s.db, fileId)| > 0 {
        answer := Err(StillAssociated);
        LastCall(c, begun, fileId, answer, 2);
        WalkStays(c, begun, 3, 5);
      } else {
        answer := Ok(fileId);
        RowCall(c, begun, fileId, s.db.files[fileId].storageKey, 2);
        BlobCall(c, begun, fileId, s.db.files[fileId].storageKey, 3);
        LastCall(c, begun, fileId, answer, 4);
      }
    }
    forall k | k >= 5 ensures Walk(c, begun, 0, k) == Walk(c, begun, 0, 5) {
      WalkStays(c, begun, 5, k);
    }
  }

  /** The lock, and the row read under it. */
  lemma TwoCalls(c: Call, s: System, fileId: int)
    requires Deleting(c, s, fileId, Waiting) && s.lock.None? && fileId in s.db.files && NoneFails(c)
    ensures var s2 := Walk(c, s, 0, 2);
            && s2.db == s.db && s2.blobs == s.blobs && s2.temps == s.temps
            && Deleting(c, s2, fileId, if |Associated(s.db, fileId)| > 0 then Finished(Err(StillAssociated))
                                       else DeleteRow(s.db.files[fileId].storageKey))
  {
    DeletionCall(c, s, fileId, Waiting, 0);
    DeletionCall(c, Walk(c, s, 0, 1), fileId, ReadRow, 1);
    WalkOn(c, s, 0, 1, 2);
  }

  lemma RowCall(c: Call, s: System, fileId: int, key: string, n: nat)
    requires Deleting(c, Walk(c, s, 0, n), fileId, DeleteRow(key)) && CanDeleteFile(Walk(c, s, 0, n).db, fileId)
    requires !c.fails(n)
    ensures var before, after := Walk(c, s, 0, n), Walk(c, s, 0, n + 1);
            && Deleting(c, after, fileId, DeleteBlob(key)) && after.db == RemoveFile(before.db, fileId)
            && after.blobs == before.blobs && after.temps == before.temps
  {
    DeletionCall(c, Walk(c, s, 0, n), fileId, DeleteRow(key), n);
    WalkOn(c, s, 0, n, n + 1);
  }

  lemma BlobCall(c: Call, s: System, fileId: int, key: string, n: nat)
    requires Deleting(c, Walk(c, s, 0, n), fileId, DeleteBlob(key)) && !c.fails(n)
    ensures var before, after := Walk(c, s, 0, n), Walk(c, s, 0, n + 1);
            && Deleting(c, after, fileId, Finished(Ok(fileId))) && after.db == before.db
            && after.blobs == before.blobs - {key} && after.temps == before.temps
  {
    DeletionCall(c, Walk(c, s, 0, n), fileId, DeleteBlob(key), n);
    WalkOn(c, s, 0, n, n + 1);
  }

  /** The unlocking call. */
  lemma LastCall(c: Call, s: System, fileId: int, answer: Result<int>, n: nat)
    requires Deleting(c, Walk(c, s, 0, n), fileId, Finished(answer))
    ensures var before, after := Walk(c, s, 0, n), Walk(c, s, 0, n + 1);
            && Deleting(c, after, fileId, Done(answer)) && after.lock.None?
            && after.db == before.db && after.blobs == before.blobs && after.temps == before.temps
  {
    DeletionCall(c, Walk(c, s, 0, n), fileId, Finished(answer), n);
    WalkOn(c, s, 0, n, n + 1);
  }
}
