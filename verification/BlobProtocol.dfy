/** The blob directory and the `files` table: at every moment, every row has its blob. */
module BlobProtocol {
  import opened Wrappers
  import opened Schema
  import opened Transactions
  import opened Server
  import opened Preservation

  /** A blob lies at the key of its own digest: orphans included. */
  ghost predicate BlobsMatchKeys(cfg: Config, blobs: map<string, Bytes>) {
    forall k :: k in blobs ==> k == Key(cfg.sha256(blobs[k]))
  }

  /** The row describes this content. */
  predicate Describes(cfg: Config, file: File, content: Bytes) {
    && file.sha256 == cfg.sha256(content)
    && file.md5 == cfg.md5(content)
    && file.size == |content|
    && file.storageKey == Key(file.sha256)
  }

  predicate HasBlob(cfg: Config, file: File, blobs: map<string, Bytes>) {
    file.storageKey in blobs && Describes(cfg, file, blobs[file.storageKey])
  }

  /** The promise: every `files` row has a blob at its key with its digests and size. */
  ghost predicate RowsHaveBlobs(cfg: Config, s: System) {
    forall id :: id in s.db.files ==> HasBlob(cfg, s.db.files[id], s.blobs)
  }

  predicate NoRow(db: Db, sha256: string) {
    forall id :: id in db.files ==> db.files[id].sha256 != sha256
  }

  predicate IsRow(db: Db, id: int, sha256: string) {
    id in db.files && db.files[id].sha256 == sha256
  }

  /** Stages during which a job holds the file mutex. */
  predicate Locked(stage: Stage) {
    !stage.Waiting? && !stage.Done?
  }

  /** Stages in which the temporary file is still there. */
  predicate HasTemp(stage: Stage) {
    || stage.Waiting? || stage.Lookup? || stage.LookupSha?
    || stage.MakeDir? || stage.StatDest? || stage.DropTemp? || stage.Rename?
  }

  predicate FoundOk(db: Db, found: RowRef, sha256: string) {
    if found.Ref? then IsRow(db, found.id, sha256) else NoRow(db, sha256)
  }

  /** What an upload knows at each stage. The answer of a finished one names a row with its digest
      unless that row was deleted since; the digest mismatch errors never occur. */
  predicate UploadOk(db: Db, blobs: map<string, Bytes>, sha256: string, stage: Stage) {
    var key := Key(sha256);
    match stage
    case LookupSha => NoRow(db, sha256)
    case MakeDir(found) => FoundOk(db, found, sha256)
    case StatDest(found) => FoundOk(db, found, sha256)
    case DropTemp(found) => FoundOk(db, found, sha256) && key in blobs
    case Rename(found) => found.Null? && NoRow(db, sha256) && key !in blobs
    case Chmod(found) => found.Null? && NoRow(db, sha256) && key in blobs
    case UndoRename => NoRow(db, sha256)
    case Insert => NoRow(db, sha256) && key in blobs
    case Reread(id) => IsRow(db, id, sha256)
    case Discard(error) => error != DigestMismatch
    case Finished(result) => if result.Ok? then IsRow(db, result.value, sha256) else result.error != DigestMismatch
    case Done(result) =>
      if result.Ok? then
        && result.value < db.nextFile
        && (result.value in db.files ==> db.files[result.value].sha256 == sha256)
      else result.error != DigestMismatch
    case _ => true
  }

  predicate DeletionOk(db: Db, fileId: int, stage: Stage) {
    match stage
    case DeleteRow(key) => fileId in db.files ==> db.files[fileId].storageKey == key
    case DeleteBlob(key) => forall id :: id in db.files ==> db.files[id].storageKey != key
    case _ => true
  }

  predicate JobOk(cfg: Config, s: System, t: int)
    requires t in s.jobs
  {
    var job := s.jobs[t];
    && t < s.nextId
    && (Locked(job.stage) ==> s.lock == Some(t))
    && (job.Upload? ==>
          && (HasTemp(job.stage) ==> t in s.temps && s.temps[t] == job.content)
          && UploadOk(s.db, s.blobs, cfg.sha256(job.content), job.stage))
    && (job.Deletion? ==> DeletionOk(s.db, job.fileId, job.stage))
  }

  ghost predicate JobsOk(cfg: Config, s: System) {
    forall t :: t in s.jobs ==> JobOk(cfg, s, t)
  }

  ghost predicate BlobInv(cfg: Config, s: System) {
    && BlobsMatchKeys(cfg, s.blobs)
    && RowsHaveBlobs(cfg, s)
    && JobsOk(cfg, s)
  }

  // ---- Facts about digests ----

  /** The blob at the key of a content is that content. */
  lemma BlobAtKey(cfg: Config, blobs: map<string, Bytes>, content: Bytes)
    requires Sound(cfg) && BlobsMatchKeys(cfg, blobs) && Key(cfg.sha256(content)) in blobs
    ensures blobs[Key(cfg.sha256(content))] == content
  {
    var found := blobs[Key(cfg.sha256(content))];
    KeyInjective(cfg.sha256(found), cfg.sha256(content));
  }

  /** A row with the digest of a content describes that content. */
  lemma RowDescribes(cfg: Config, s: System, id: int, content: Bytes)
    requires Sound(cfg) && BlobInv(cfg, s) && IsRow(s.db, id, cfg.sha256(content))
    ensures Describes(cfg, s.db.files[id], content)
    ensures Key(cfg.sha256(content)) in s.blobs && s.blobs[Key(cfg.sha256(content))] == content
  {
    assert HasBlob(cfg, s.db.files[id], s.blobs);
  }

  /** A row whose key is that of a digest has that digest. */
  lemma RowOfKey(cfg: Config, s: System, id: int, content: Bytes)
    requires Sound(cfg) && RowsHaveBlobs(cfg, s) && id in s.db.files
    requires s.db.files[id].storageKey == Key(cfg.sha256(content))
    ensures s.db.files[id].sha256 == cfg.sha256(content)
  {
    assert HasBlob(cfg, s.db.files[id], s.blobs);
    KeyInjective(s.db.files[id].sha256, cfg.sha256(content));
  }

  // ---- Steps that leave files, blobs and jobs alone ----

  ghost predicate SameFiles(db: Db, db': Db) {
    && db'.nextFile == db.nextFile
    && (forall id :: id in db'.files <==> id in db.files)
    && (forall id :: id in db'.files ==> SameContent(db'.files[id], db.files[id]))
  }

  /** Rows keep their content columns; jobs may only end, and temporary files of ended jobs go. */
  ghost predicate Unrelated(s: System, s': System) {
    && SameFiles(s.db, s'.db) && s'.blobs == s.blobs && s'.nextId >= s.nextId
    && s'.jobs == s.jobs && s'.lock == s.lock && s'.temps == s.temps
  }

  lemma UnrelatedKeeps(cfg: Config, s: System, s': System)
    requires BlobInv(cfg, s) && Unrelated(s, s')
    ensures BlobInv(cfg, s')
  {
    forall id | id in s'.db.files ensures HasBlob(cfg, s'.db.files[id], s'.blobs) {
      assert HasBlob(cfg, s.db.files[id], s.blobs);
    }
    forall t | t in s'.jobs ensures JobOk(cfg, s', t) {
      assert JobOk(cfg, s, t);
    }
  }

  lemma CrashKeepsBlobs(cfg: Config, s: System, kept: set<int>)
    requires BlobInv(cfg, s)
    ensures BlobInv(cfg, StepCrash(s, kept))
  {
    var s' := StepCrash(s, kept);
    forall id | id in s'.db.files ensures HasBlob(cfg, s'.db.files[id], s'.blobs) {
      assert HasBlob(cfg, s.db.files[id], s.blobs);
    }
    forall t | t in s'.jobs ensures JobOk(cfg, s', t) {
      assert JobOk(cfg, s, t);
    }
  }

  // ---- Steps of one job ----

  /** How the step of one job may change the table of files. */
  ghost predicate FilesMove(db: Db, db': Db) {
    || db' == db
    || (exists file: File :: CanCreateFile(db, file.sha256, file.storageKey) && db' == InsertFile(db, file))
    || (exists id :: CanDeleteFile(db, id) && db' == RemoveFile(db, id))
  }

  /** Job `t`, which holds the lock or takes the free one, is the only job that moves. */
  ghost predicate OnlyMoves(s: System, s': System, t: int) {
    && t in s.jobs && t in s'.jobs && s'.nextId == s.nextId
    && s'.jobs == s.jobs[t := s'.jobs[t]]
    && (s'.temps == s.temps || s'.temps == s.temps - {t})
    && FilesMove(s.db, s'.db)
    && (Locked(s.jobs[t].stage) || s.lock.None?)
  }

  lemma FilesMoveRows(db: Db, db': Db)
    requires IdsBelow(db) && FilesMove(db, db')
    ensures db'.nextFile >= db.nextFile
    ensures forall id :: id in db'.files && id in db.files ==> db'.files[id] == db.files[id]
    ensures forall id :: id in db'.files && id !in db.files ==> id >= db.nextFile
  {
  }

  lemma OthersKeep(cfg: Config, s: System, s': System, t: int)
    requires JobsOk(cfg, s) && IdsBelow(s.db) && OnlyMoves(s, s', t)
    ensures forall u :: u in s'.jobs && u != t ==> JobOk(cfg, s', u)
  {
    FilesMoveRows(s.db, s'.db);
    assert JobOk(cfg, s, t);
    forall u | u in s'.jobs && u != t ensures JobOk(cfg, s', u) {
      assert JobOk(cfg, s, u);
      assert !Locked(s.jobs[u].stage);
    }
  }

  /** Nothing but the job's stage, its temporary file or the lock changes: the rows keep their blobs. */
  lemma SameRowsAndBlobs(cfg: Config, s: System, s': System)
    requires BlobInv(cfg, s) && s'.db.files == s.db.files && s'.blobs == s.blobs
    ensures BlobsMatchKeys(cfg, s'.blobs) && RowsHaveBlobs(cfg, s')
  {
    forall id | id in s'.db.files ensures HasBlob(cfg, s'.db.files[id], s'.blobs) {
      assert HasBlob(cfg, s.db.files[id], s.blobs);
    }
  }

  /** The blob of a content without a row may appear and disappear. */
  lemma UnusedBlob(cfg: Config, s: System, s': System, content: Bytes)
    requires Sound(cfg) && BlobInv(cfg, s) && s'.db.files == s.db.files && NoRow(s.db, cfg.sha256(content))
    requires var key := Key(cfg.sha256(content)); s'.blobs == s.blobs[key := content] || s'.blobs == s.blobs - {key}
    ensures BlobsMatchKeys(cfg, s'.blobs) && RowsHaveBlobs(cfg, s')
  {
    forall id | id in s'.db.files ensures HasBlob(cfg, s'.db.files[id], s'.blobs) {
      assert HasBlob(cfg, s.db.files[id], s.blobs);
      if s.db.files[id].storageKey == Key(cfg.sha256(content)) {
        RowOfKey(cfg, s, id, content);
      }
    }
  }

  lemma UploadRows(cfg: Config, s: System, t: int, now: string, contentType: string, fate: Fate)
    requires Sound(cfg) && BlobInv(cfg, s) && t in s.jobs && s.jobs[t].Upload? && !Blocked(s, t)
    ensures var s' := StepWork(cfg, s, t, now, contentType, fate);
            BlobsMatchKeys(cfg, s'.blobs) && RowsHaveBlobs(cfg, s')
  {
    var s' := StepWork(cfg, s, t, now, contentType, fate);
    var content := s.jobs[t].content;
    assert JobOk(cfg, s, t);
    if s'.blobs != s.blobs {
      UnusedBlob(cfg, s, s', content);
    } else if s'.db == s.db {
      SameRowsAndBlobs(cfg, s, s');
    } else {
      InsertRows(cfg, s, s', t, now, contentType);
    }
  }

  lemma InsertRows(cfg: Config, s: System, s': System, t: int, now: string, contentType: string)
    requires Sound(cfg) && BlobInv(cfg, s) && t in s.jobs && s.jobs[t].Upload?
    requires s.jobs[t].stage.Insert? && JobOk(cfg, s, t)
    requires s'.blobs == s.blobs
    requires CanCreateFile(s.db, cfg.sha256(s.jobs[t].content), Key(cfg.sha256(s.jobs[t].content)))
    requires s'.db == InsertFile(s.db, UploadRow(cfg, s.jobs[t].content, s.jobs[t].name, contentType, now))
    ensures BlobsMatchKeys(cfg, s'.blobs) && RowsHaveBlobs(cfg, s')
  {
    BlobAtKey(cfg, s.blobs, s.jobs[t].content);
    forall id | id in s'.db.files ensures HasBlob(cfg, s'.db.files[id], s'.blobs) {
      assert id != s.db.nextFile ==> HasBlob(cfg, s.db.files[id], s.blobs);
    }
  }

  /** Lookups find rows that describe the upload, so no digest contradicts another. */
  lemma LookupOk(cfg: Config, s: System, t: int, fate: Fate)
    requires Sound(cfg) && BlobInv(cfg, s) && t in s.jobs && s.jobs[t].Upload?
    requires s.jobs[t].stage.Lookup? || s.jobs[t].stage.Relookup?
    ensures UploadOk(s.db, s.blobs, cfg.sha256(s.jobs[t].content), Next(cfg, s, t, !fate.Works?))
  {
    var content := s.jobs[t].content;
    var sha256, md5 := cfg.sha256(content), cfg.md5(content);
    forall id | IsRow(s.db, id, sha256)
      ensures Describes(cfg, s.db.files[id], content) && DigestsHit(s.db, md5, sha256, id)
    {
      RowDescribes(cfg, s, id, content);
    }
    forall id | DigestsHit(s.db, md5, sha256, id) ensures IsRow(s.db, id, sha256) {
    }
  }

  lemma CommitOk(cfg: Config, s: System, t: int, fate: Fate)
    requires Sound(cfg) && BlobInv(cfg, s) && t in s.jobs && s.jobs[t].Upload? && Committing(s.jobs[t].stage)
    ensures UploadOk(s.db, BlobsAfter(cfg, s, t, s.jobs[t], fate.Fails?), cfg.sha256(s.jobs[t].content),
        Next(cfg, s, t, !fate.Works?))
  {
    var stage := s.jobs[t].stage;
    assert JobOk(cfg, s, t);
    if stage.StatDest? && stage.found.Ref? {
      RowDescribes(cfg, s, stage.found.id, s.jobs[t].content);
    }
  }

  predicate Committing(stage: Stage) {
    stage.MakeDir? || stage.StatDest? || stage.DropTemp? || stage.Rename? || stage.Chmod? || stage.UndoRename?
  }

  lemma OtherStageOk(cfg: Config, s: System, t: int, now: string, contentType: string, fate: Fate)
    requires IdsBelow(s.db) && t in s.jobs && s.jobs[t].Upload? && JobOk(cfg, s, t)
    requires !Committing(s.jobs[t].stage) && !s.jobs[t].stage.Lookup? && !s.jobs[t].stage.Relookup?
    ensures UploadOk(DbAfter(cfg, s.db, s.jobs[t], now, contentType, fate.Fails?), s.blobs,
                     cfg.sha256(s.jobs[t].content),
                     Next(cfg, s, t, !fate.Works?))
  {
  }

  /** Whatever call is next and whatever becomes of it, the upload's knowledge holds again after it. */
  lemma UploadKnows(cfg: Config, s: System, t: int, now: string, contentType: string, fate: Fate)
    requires Sound(cfg) && BlobInv(cfg, s) && IdsBelow(s.db) && t in s.jobs && s.jobs[t].Upload?
    ensures UploadOk(DbAfter(cfg, s.db, s.jobs[t], now, contentType, fate.Fails?),
                     BlobsAfter(cfg, s, t, s.jobs[t], fate.Fails?),
                     cfg.sha256(s.jobs[t].content), Next(cfg, s, t, !fate.Works?))
  {
    var stage := s.jobs[t].stage;
    assert JobOk(cfg, s, t);
    if stage.Lookup? || stage.Relookup? {
      LookupOk(cfg, s, t, fate);
    } else if Committing(stage) {
      CommitOk(cfg, s, t, fate);
    } else {
      OtherStageOk(cfg, s, t, now, contentType, fate);
    }
  }

  lemma UploadJob(cfg: Config, s: System, t: int, now: string, contentType: string, fate: Fate)
    requires Sound(cfg) && BlobInv(cfg, s) && IdsBelow(s.db) && t in s.jobs && s.jobs[t].Upload? && !Blocked(s, t)
    ensures JobOk(cfg, StepWork(cfg, s, t, now, contentType, fate), t)
  {
    assert JobOk(cfg, s, t);
    UploadKnows(cfg, s, t, now, contentType, fate);
  }

  lemma DeletionRows(cfg: Config, s: System, t: int, now: string, contentType: string, fate: Fate)
    requires BlobInv(cfg, s) && t in s.jobs && s.jobs[t].Deletion? && !Blocked(s, t)
    ensures var s' := StepWork(cfg, s, t, now, contentType, fate);
            BlobsMatchKeys(cfg, s'.blobs) && RowsHaveBlobs(cfg, s')
  {
    var s' := StepWork(cfg, s, t, now, contentType, fate);
    assert JobOk(cfg, s, t);
    forall id | id in s'.db.files ensures HasBlob(cfg, s'.db.files[id], s'.blobs) {
      assert HasBlob(cfg, s.db.files[id], s.blobs);
    }
  }

  lemma DeletionJob(cfg: Config, s: System, t: int, now: string, contentType: string, fate: Fate)
    requires Unique(s.db) && t in s.jobs && s.jobs[t].Deletion? && JobOk(cfg, s, t) && !Blocked(s, t)
    ensures JobOk(cfg, StepWork(cfg, s, t, now, contentType, fate), t)
  {
  }

  lemma WorkOnlyMoves(cfg: Config, s: System, t: int, now: string, contentType: string, fate: Fate)
    requires !Blocked(s, t)
    ensures OnlyMoves(s, StepWork(cfg, s, t, now, contentType, fate), t)
  {
  }

  lemma WorkKeepsBlobs(cfg: Config, s: System, t: int, now: string, contentType: string, fate: Fate)
    requires Sound(cfg) && BlobInv(cfg, s) && Integrity(s.db)
    ensures BlobInv(cfg, StepWork(cfg, s, t, now, contentType, fate))
  {
    if !Blocked(s, t) {
      assert JobOk(cfg, s, t);
      if s.jobs[t].Deletion? {
        DeletionRows(cfg, s, t, now, contentType, fate);
        DeletionJob(cfg, s, t, now, contentType, fate);
      } else {
        UploadRows(cfg, s, t, now, contentType, fate);
        UploadJob(cfg, s, t, now, contentType, fate);
      }
      WorkOnlyMoves(cfg, s, t, now, contentType, fate);
      OthersKeep(cfg, s, StepWork(cfg, s, t, now, contentType, fate), t);
    }
  }

  // ---- Every step ----

  /** A new job arrives; everything else stays. */
  lemma NewJobKeeps(cfg: Config, s: System, s': System)
    requires BlobInv(cfg, s) && s'.db == s.db && s'.blobs == s.blobs && s'.lock == s.lock && s'.nextId == s.nextId + 1
    requires forall u :: u in s'.jobs <==> u in s.jobs || u == s.nextId
    requires forall u :: u in s.jobs && u != s.nextId ==>
               s'.jobs[u] == s.jobs[u] && (u in s.temps ==> u in s'.temps && s'.temps[u] == s.temps[u])
    requires JobOk(cfg, s', s.nextId)
    ensures BlobInv(cfg, s')
  {
    SameRowsAndBlobs(cfg, s, s');
    forall u | u in s'.jobs ensures JobOk(cfg, s', u) {
      if u != s.nextId {
        assert JobOk(cfg, s, u);
      }
    }
  }

  lemma EditUnrelated(db: Db, op: Op)
    requires Integrity(db) && db.counted
    ensures SameFiles(db, Apply(db, op))
  {
    ApplyEdits(db, op);
  }

  lemma RecordSameFiles(db: Db, subId: int, fileId: int, revision: nat, a: Access)
    requires CanRecord(db, subId, fileId)
    ensures SameFiles(db, Record(db, subId, fileId, revision, a))
  {
    RecordKeepsIdentities(db, subId, fileId, revision, a);
  }

  lemma FetchKeepsBlobs(cfg: Config, s: System, t: int, a: Access, fault: bool)
    requires BlobInv(cfg, s)
    ensures BlobInv(cfg, StepFetch(s, t, a, fault))
  {
    if t in s.fetches && InProgress(s.fetches[t]) {
      var f := s.fetches[t];
      if Records(s.db, f, fault) {
        RecordSameFiles(s.db, f.subId, FileIdOf(f), f.sub.revision, a);
      }
      UnrelatedKeeps(cfg, s, StepFetch(s, t, a, fault));
    }
  }

  lemma ToggleUnrelated(cfg: Config, s: System, action: Action)
    requires action.Toggle? || action.ToggleRead? || action.ToggleWrite?
    ensures SameFiles(s.db, Step(cfg, s, action).db)
  {
  }

  lemma AdminKeepsBlobs(cfg: Config, s: System, action: Action)
    requires BlobInv(cfg, s) && Integrity(s.db) && s.db.counted
    requires action.Edit? || action.Toggle? || action.ToggleRead? || action.ToggleWrite?
    ensures BlobInv(cfg, Step(cfg, s, action))
  {
    if action.Edit? {
      EditUnrelated(s.db, action.op);
    } else {
      ToggleUnrelated(cfg, s, action);
    }
    UnrelatedKeeps(cfg, s, Step(cfg, s, action));
  }

  lemma StepKeepsBlobs(cfg: Config, s: System, action: Action)
    requires Sound(cfg) && BlobInv(cfg, s) && Integrity(s.db) && s.db.counted
    ensures BlobInv(cfg, Step(cfg, s, action))
  {
    match action
    case Request(path, get) => UnrelatedKeeps(cfg, s, StepRequest(s, path, get));
    case Advance(fetch, access, fault) => FetchKeepsBlobs(cfg, s, fetch, access, fault);
    case BeginUpload(content, name, fault, kept) => BeginUploadKeeps(cfg, s, content, name, fault, kept);
    case BeginDeletion(fileId) => BeginDeletionKeeps(cfg, s, fileId);
    case Work(job, now, contentType, fate) => WorkKeepsBlobs(cfg, s, job, now, contentType, fate);
    case Crash(kept) => CrashKeepsBlobs(cfg, s, kept);
    case _ => AdminKeepsBlobs(cfg, s, action);
  }

  lemma BeginUploadKeeps(cfg: Config, s: System, content: Bytes, name: string, fault: bool, kept: Option<Bytes>)
    requires BlobInv(cfg, s)
    ensures BlobInv(cfg, StepBeginUpload(cfg, s, content, name, fault, kept))
  {
    NewJobKeeps(cfg, s, StepBeginUpload(cfg, s, content, name, fault, kept));
  }

  lemma BeginDeletionKeeps(cfg: Config, s: System, fileId: int)
    requires BlobInv(cfg, s)
    ensures BlobInv(cfg, StepBeginDeletion(s, fileId))
  {
    NewJobKeeps(cfg, s, StepBeginDeletion(s, fileId));
  }
}
