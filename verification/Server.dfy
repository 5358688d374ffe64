/** The running server as a state machine: one database, the blob directory, the file mutex,
    and any number of requests in progress. Every database transaction and every file system
    call is one atomic step, any of them may fail, and the process may crash between steps. */
module Server {
  import opened Wrappers
  import opened Schema
  import opened Transactions

  /** The digest functions and the upload limit of a deployment. */
  datatype Config = Config(sha256: Bytes -> string, md5: Bytes -> string, maxUpload: nat)

  /** SHA-256 is taken to be injective, with 64 hexadecimal digits; MD5 is any function of the content. */
  ghost predicate Sound(cfg: Config) {
    && (forall a, b :: cfg.sha256(a) == cfg.sha256(b) ==> a == b)
    && (forall a :: |cfg.sha256(a)| == 64)
  }

  /** The storage key: the first two digits, a separator, the whole digest. */
  function Key(sha256: string): string {
    (if |sha256| >= 2 then sha256[..2] else sha256) + "/" + sha256
  }

  lemma KeyInjective(a: string, b: string)
    requires |a| == |b| && Key(a) == Key(b)
    ensures a == b
  {
    var n := if |a| >= 2 then 2 else |a|;
    assert Key(a)[n + 1..] == a && Key(b)[n + 1..] == b;
  }

  /** A blob lies in the directory of the first two digits of its digest, under the whole digest. */
  lemma KeyLayout(sha256: string)
    requires |sha256| == 64
    ensures var key := Key(sha256);
            |key| == 67 && key[0] == sha256[0] && key[1] == sha256[1] && key[2] == '/' && key[3..] == sha256
  {
  }

  // ---- Requests in progress ----

  /** Where an upload or a deletion stands. Every stage before `Done` names the call to make next;
      `found` is the row with the same digests, if there was one. */
  datatype Stage =
    | Waiting                            // fileMu.Lock()
    | Lookup                             // FileByDigests
    | LookupSha                          // FileBySHA256
    | MakeDir(found: RowRef)            // Commit: os.MkdirAll
    | StatDest(found: RowRef)           // Commit: os.Stat(destination)
    | DropTemp(found: RowRef)           // Commit: os.Remove(temp), the destination exists
    | Rename(found: RowRef)             // Commit: os.Rename(temp, destination)
    | Chmod(found: RowRef)              // Commit: os.Chmod(destination)
    | UndoRename                         // Commit: os.Remove(destination)
    | Insert                             // CreateFile: INSERT
    | Reread(id: int)                    // CreateFile: FileByID
    | Relookup                           // FileByDigests after a failed CreateFile
    | Discard(error: Error)              // os.Remove(temp), result ignored
    | ReadRow                            // deletion: FileByID under the lock
    | DeleteRow(key: string)             // deletion: DeleteFile
    | DeleteBlob(key: string)            // deletion: Remove(key)
    | Finished(result: Result<int>)      // fileMu.Unlock()
    | Done(answer: Result<int>)

  datatype Job =
    | Upload(content: Bytes, name: string, stage: Stage)
    | Deletion(fileId: int, stage: Stage)

  /** Where a public request stands. The subscription and the file are the rows as they were read. */
  datatype Fetch =
    | Snapped(subId: int, sub: Sub, get: bool)
    | Located(subId: int, sub: Sub, fileId: int, file: File, get: bool)
    | Opened(subId: int, sub: Sub, fileId: int, file: File, body: Bytes, get: bool)
    | ServedText(subId: int, sub: Sub, get: bool)
    | ServedFile(subId: int, sub: Sub, fileId: int, file: File, body: Bytes, get: bool)
    | Failed(status: int)

  /** A toggle request between its read and its write. */
  datatype Flip = Flip(subId: int, enable: bool)

  /** One committed RecordAccess: the request, its snapshot and the file it named (0: none). */
  datatype Event = Event(fetch: int, sub: int, file: int, revision: nat)

  datatype System = System(
    db: Db,
    blobs: map<string, Bytes>,
    temps: map<int, Bytes>,
    lock: Option<int>,
    jobs: map<int, Job>,
    fetches: map<int, Fetch>,
    flips: map<int, Flip>,
    nextId: int,
    history: seq<Event>)

  /** The server after a start on a database and a blob directory, before the first request. */
  function Started(db: Db, blobs: map<string, Bytes>): System {
    System(db, blobs, map[], None, map[], map[], map[], 1, [])
  }

  /** What becomes of a call of an upload or a deletion. One that fails late has taken effect and
      reports an error all the same, as a COMMIT may do when its request is cancelled. */
  datatype Fate = Works | Fails | FailsLate

  datatype Action =
    | Edit(op: Op)
    | Toggle(subId: int, now: string)
    | ToggleRead(subId: int)
    | ToggleWrite(flip: int, now: string)
    | Request(path: string, get: bool)
    | Advance(fetch: int, access: Access, fault: bool)
    | BeginUpload(content: Bytes, name: string, fault: bool, kept: Option<Bytes>)
    | BeginDeletion(fileId: int)
    | Work(job: int, now: string, contentType: string, fate: Fate)
    | Crash(keptTemps: set<int>)

  // ---- Queries ----

  predicate ShaHit(db: Db, sha256: string, id: int) {
    id in db.files && db.files[id].sha256 == sha256
  }

  predicate DigestsHit(db: Db, md5: string, sha256: string, id: int) {
    id in db.files && db.files[id].md5 == md5 && db.files[id].sha256 == sha256
  }

  predicate PathHit(db: Db, path: string, id: int) {
    id in db.subs && db.subs[id].path == path && db.subs[id].enabled
  }

  ghost function BySha(db: Db, sha256: string): RowRef {
    if exists id :: ShaHit(db, sha256, id) then
      var id :| ShaHit(db, sha256, id);
      Ref(id)
    else Null
  }

  ghost function ByDigests(db: Db, md5: string, sha256: string): RowRef {
    if exists id :: DigestsHit(db, md5, sha256, id) then
      var id :| DigestsHit(db, md5, sha256, id);
      Ref(id)
    else Null
  }

  /** `WHERE path = ? AND enabled = 1`. */
  ghost function ByPath(db: Db, path: string): RowRef {
    if exists id :: PathHit(db, path, id) then
      var id :| PathHit(db, path, id);
      Ref(id)
    else Null
  }

  /** The paths that the public handler leaves to the administration. */
  predicate Reserved(path: string) {
    path == "/" || "/admin" <= path
  }

  // ---- Administrator requests ----

  /** toggleSubscription without interruption: read, check, write. */
  function ToggleNow(db: Db, subId: int, now: string): Db {
    if subId !in db.subs then db
    else if db.subs[subId].kind == FileKind && !db.subs[subId].enabled && db.subs[subId].fileId.Null? then db
    else SetEnabled(db, subId, !db.subs[subId].enabled, now)
  }

  function StepToggleRead(s: System, subId: int): System {
    if subId !in s.db.subs then s
    else if s.db.subs[subId].kind == FileKind && !s.db.subs[subId].enabled && s.db.subs[subId].fileId.Null? then s
    else s.(flips := s.flips[s.nextId := Flip(subId, !s.db.subs[subId].enabled)], nextId := s.nextId + 1)
  }

  function StepToggleWrite(s: System, flip: int, now: string): System {
    if flip !in s.flips then s
    else s.(db := SetEnabled(s.db, s.flips[flip].subId, s.flips[flip].enable, now), flips := s.flips - {flip})
  }

  // ---- Public requests ----

  ghost function StepRequest(s: System, path: string, get: bool): System {
    var hit := if Reserved(path) then Null else ByPath(s.db, path);
    var fetch := if hit.Ref? then Snapped(hit.id, s.db.subs[hit.id], get) else Failed(404);
    s.(fetches := s.fetches[s.nextId := fetch], nextId := s.nextId + 1)
  }

  /** The file id RecordAccess is called with: 0 for a text subscription. */
  function FileIdOf(f: Fetch): int {
    if f.Opened? then f.fileId else 0
  }

  /** The request calls RecordAccess now: a text subscription whatever the method is,
      a file subscription for a GET with its blob open. */
  predicate WantsRecord(f: Fetch) {
    (f.Snapped? && f.sub.kind == TextKind) || (f.Opened? && f.get)
  }

  predicate Records(db: Db, f: Fetch, fault: bool) {
    WantsRecord(f) && !fault && CanRecord(db, f.subId, FileIdOf(f))
  }

  /** What a request becomes after its next call: FileByID, Open, RecordAccess, or the response. */
  function NextFetch(s: System, f: Fetch, fault: bool): Fetch {
    if WantsRecord(f) && !Records(s.db, f, fault) then Failed(500)
    else
      match f
      case Snapped(subId, sub, get) =>
        if sub.kind == TextKind then ServedText(subId, sub, get)
        else if sub.fileId.Null? then Failed(404)
        else if fault then Failed(500)
        else if sub.fileId.id !in s.db.files then Failed(404)
        else Located(subId, sub, sub.fileId.id, s.db.files[sub.fileId.id], get)
      case Located(subId, sub, fileId, file, get) =>
        if fault || file.storageKey !in s.blobs then Failed(500)
        else Opened(subId, sub, fileId, file, s.blobs[file.storageKey], get)
      case Opened(subId, sub, fileId, file, body, get) => ServedFile(subId, sub, fileId, file, body, get)
      case _ => f
  }

  predicate InProgress(f: Fetch) {
    f.Snapped? || f.Located? || f.Opened?
  }

  function StepFetch(s: System, t: int, a: Access, fault: bool): System {
    if t !in s.fetches || !InProgress(s.fetches[t]) then s
    else
      var f := s.fetches[t];
      var s' := s.(fetches := s.fetches[t := NextFetch(s, f, fault)]);
      if Records(s.db, f, fault)
      then s'.(db := Record(s.db, f.subId, FileIdOf(f), f.sub.revision, a),
               history := s.history + [Event(t, f.subId, FileIdOf(f), f.sub.revision)])
      else s'
  }

  // ---- Uploads and deletions ----

  /** Stage reads at most one byte more than the limit; it works on a temporary file of its own,
      outside the lock. When it refuses it removes that file again, unless that fails (`kept`). */
  function StageAnswer(cfg: Config, content: Bytes, fault: bool): Stage {
    if fault then Done(Err(Fault))
    else if |content| == 0 then Done(Err(EmptyUpload))
    else if |content| > cfg.maxUpload then Done(Err(UploadTooLarge))
    else Waiting
  }

  function StepBeginUpload(cfg: Config, s: System, content: Bytes, name: string, fault: bool,
                           kept: Option<Bytes>): System {
    var t := s.nextId;
    var stage := StageAnswer(cfg, content, fault);
    s.(jobs := s.jobs[t := Upload(content, name, stage)],
       temps := if stage.Waiting? then s.temps[t := content] else if kept.Some? then s.temps[t := kept.value]
           else s.temps,
       nextId := t + 1)
  }

  /** loadStoredFile, before the lock is taken. */
  function StepBeginDeletion(s: System, fileId: int): System {
    var stage := if fileId in s.db.files then Waiting else Done(Err(NoRows));
    s.(jobs := s.jobs[s.nextId := Deletion(fileId, stage)], nextId := s.nextId + 1)
  }

  /** What follows a successful Commit: the known row is the answer, otherwise a row is inserted. */
  function AfterCommit(found: RowRef): Stage {
    if found.Ref? then Finished(Ok(found.id)) else Insert
  }

  /** saveUploadedFile: the stage after the call named by the present one returned or failed. */
  ghost function NextUpload(cfg: Config, s: System, content: Bytes, stage: Stage, hasTemp: bool, fault: bool): Stage {
    var sha := cfg.sha256(content);
    var md5 := cfg.md5(content);
    match stage
    case Waiting => Lookup
    case Lookup =>
      var hit := ByDigests(s.db, md5, sha);
      if fault then Discard(Fault)
      else if hit.Null? then LookupSha
      else if s.db.files[hit.id].md5 != md5 || s.db.files[hit.id].size != |content| then Discard(DigestMismatch)
      else MakeDir(hit)
    case LookupSha =>
      if fault then Discard(Fault)
      else if BySha(s.db, sha).Ref? then Discard(DigestMismatch)
      else MakeDir(Null)
    case MakeDir(found) => if fault then Discard(Fault) else StatDest(found)
    case StatDest(found) =>
      if fault then Discard(Fault)
      else if Key(sha) in s.blobs then DropTemp(found) else Rename(found)
    case DropTemp(found) => if fault then Discard(Fault) else AfterCommit(found)
    case Rename(found) => if fault || !hasTemp then Discard(Fault) else Chmod(found)
    case Chmod(found) => if fault then UndoRename else AfterCommit(found)
    case UndoRename => Discard(Fault)
    case Insert => if fault || !CanCreateFile(s.db, sha, Key(sha)) then Relookup else Reread(s.db.nextFile)
    case Reread(id) => if fault || id !in s.db.files then Relookup else Finished(Ok(id))
    case Relookup =>
      var hit := ByDigests(s.db, md5, sha);
      if fault || hit.Null? then Finished(Err(Fault)) else Finished(Ok(hit.id))
    case Discard(error) => Finished(Err(error))
    case Finished(result) => Done(result)
    case _ => stage
  }

  /** deleteStoredFile. */
  function NextDeletion(db: Db, fileId: int, stage: Stage, fault: bool): Stage {
    match stage
    case Waiting => ReadRow
    case ReadRow =>
      if fault || fileId !in db.files then Finished(Err(NoRows))
      else if |Associated(db, fileId)| > 0 then Finished(Err(StillAssociated))
      else DeleteRow(db.files[fileId].storageKey)
    case DeleteRow(key) =>
      if fault || !CanDeleteFile(db, fileId) then Finished(Err(StillAssociated)) else DeleteBlob(key)
    case DeleteBlob(key) => Finished(Ok(fileId))
    case Finished(result) => Done(result)
    case _ => stage
  }

  ghost function Next(cfg: Config, s: System, t: int, fault: bool): Stage
    requires t in s.jobs
  {
    match s.jobs[t]
    case Upload(content, _, stage) => NextUpload(cfg, s, content, stage, t in s.temps, fault)
    case Deletion(fileId, stage) => NextDeletion(s.db, fileId, stage, fault)
  }

  function LockAfter(s: System, t: int, stage: Stage): Option<int> {
    if stage.Waiting? then Some(t) else if stage.Finished? then None else s.lock
  }

  /** os.Rename and a successful os.Remove(temp) take the temporary file away. */
  function TempsAfter(s: System, t: int, stage: Stage, fault: bool): map<int, Bytes> {
    if (stage.DropTemp? || stage.Rename? || stage.Discard?) && !fault then s.temps - {t} else s.temps
  }

  function BlobsAfter(cfg: Config, s: System, t: int, job: Job, fault: bool): map<string, Bytes> {
    if fault then s.blobs
    else
      match job
      case Upload(content, _, stage) =>
        if stage.Rename? && t in s.temps then s.blobs[Key(cfg.sha256(content)) := s.temps[t]]
        else if stage.UndoRename? then s.blobs - {Key(cfg.sha256(content))}
        else s.blobs
      case Deletion(_, stage) => if stage.DeleteBlob? then s.blobs - {stage.key} else s.blobs
  }

  function UploadRow(cfg: Config, content: Bytes, name: string, contentType: string, now: string): File {
    NewFile(cfg.md5(content), cfg.sha256(content), |content|, contentType, Key(cfg.sha256(content)), name, now)
  }

  function DbAfter(cfg: Config, db: Db, job: Job, now: string, contentType: string, fault: bool): Db {
    if fault then db
    else
      match job
      case Upload(content, name, stage) =>
        if stage.Insert? && CanCreateFile(db, cfg.sha256(content), Key(cfg.sha256(content)))
        then InsertFile(db, UploadRow(cfg, content, name, contentType, now)) else db
      case Deletion(fileId, stage) =>
        if stage.DeleteRow? && CanDeleteFile(db, fileId) then RemoveFile(db, fileId) else db
  }

  /** A job that has ended, or waits for a lock that another one holds, cannot move. */
  predicate Blocked(s: System, t: int) {
    t !in s.jobs || s.jobs[t].stage.Done? || (s.jobs[t].stage.Waiting? && s.lock.Some?)
  }

  ghost function StepWork(cfg: Config, s: System, t: int, now: string, contentType: string, fate: Fate): System {
    if Blocked(s, t) then s
    else
      var job := s.jobs[t];
      s.(jobs := s.jobs[t := job.(stage := Next(cfg, s, t, !fate.Works?))],
         lock := LockAfter(s, t, job.stage),
         temps := TempsAfter(s, t, job.stage, fate.Fails?),
         blobs := BlobsAfter(cfg, s, t, job, fate.Fails?),
         db := DbAfter(cfg, s.db, job, now, contentType, fate.Fails?))
  }

  // ---- Crash and restart ----

  /** The process stops and starts again: requests and the mutex are gone, the database and the
      blobs persist, stale temporary files are removed as far as possible, and the migration runs. */
  function StepCrash(s: System, keptTemps: set<int>): System {
    s.(db := Apply(s.db, Migrate),
       temps := map t | t in s.temps && t in keptTemps :: s.temps[t],
       lock := None,
       jobs := map t | t in s.jobs :: if s.jobs[t].stage.Done? then s.jobs[t]
           else s.jobs[t].(stage := Done(Err(Crashed))),
       fetches := map t | t in s.fetches :: if InProgress(s.fetches[t]) then Failed(0) else s.fetches[t],
       flips := map[])
  }

  ghost function Step(cfg: Config, s: System, action: Action): System {
    match action
    case Edit(op) => s.(db := Apply(s.db, op))
    case Toggle(subId, now) => s.(db := ToggleNow(s.db, subId, now))
    case ToggleRead(subId) => StepToggleRead(s, subId)
    case ToggleWrite(flip, now) => StepToggleWrite(s, flip, now)
    case Request(path, get) => StepRequest(s, path, get)
    case Advance(fetch, access, fault) => StepFetch(s, fetch, access, fault)
    case BeginUpload(content, name, fault, kept) => StepBeginUpload(cfg, s, content, name, fault, kept)
    case BeginDeletion(fileId) => StepBeginDeletion(s, fileId)
    case Work(job, now, contentType, fate) => StepWork(cfg, s, job, now, contentType, fate)
    case Crash(kept) => StepCrash(s, kept)
  }

  /** A run: any sequence of steps of any requests, in any order. */
  ghost function Run(cfg: Config, s: System, actions: seq<Action>): System {
    if actions == [] then s else Step(cfg, Run(cfg, s, actions[..|actions| - 1]), actions[|actions| - 1])
  }
}
