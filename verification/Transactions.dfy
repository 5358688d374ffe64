/** What each transaction of the store does to the database as a whole: when it
    is accepted, and the database it commits. A transaction that is not accepted
    leaves the database as it was. */
module Transactions {
  import opened Wrappers
  import opened Schema
  import TextOrder

  /** The edits an administrator makes. Times are the texts the store writes. */
  datatype Op =
    | CreateText(name: string, path: string, content: string, enabled: bool, now: string)
    | CreateFileSub(name: string, path: string, fileId: int, downloadName: string, enabled: bool, now: string)
    | UpdateText(id: int, name: string, path: string, content: string, enabled: bool, now: string)
    | UpdateFileSub(id: int, name: string, path: string, enabled: bool, now: string)
    | ReplaceOne(id: int, fileId: int, downloadName: string, now: string)
    | ReplaceAll(oldFile: int, newFile: int, downloadName: string, now: string)
    | Detach(id: int, now: string)
    | DeleteSub(id: int)
    | BatchContent(ids: seq<int>, content: string, now: string)
    | ClearLogs(id: int)
    | CleanupLogs(cutoff: string)
    | Migrate

  predicate PathFree(db: Db, path: string, except: int) {
    forall i :: i in db.subs && i != except ==> db.subs[i].path != path
  }

  /** The text subscriptions among the given ids: what COUNT(*) ... IN (...) counts. */
  function TextRows(db: Db, ids: seq<int>): set<int> {
    set id | id in db.subs && db.subs[id].kind == TextKind && id in ids
  }

  /** The error a refused edit returns, `None` when it is accepted. */
  function Refusal(db: Db, op: Op): Option<Error> {
    match op
    case CreateText(_, path, _, _, _) =>
      if PathFree(db, path, 0) then None else Some(UniqueFailed)
    case CreateFileSub(_, path, fileId, _, _, _) =>
      if !PathFree(db, path, 0) then Some(UniqueFailed)
      else if fileId !in db.files then Some(ForeignKeyFailed) else None
    case UpdateText(id, _, path, _, _, _) =>
      if id !in db.subs || db.subs[id].kind != TextKind then Some(NoRows)
      else if PathFree(db, path, id) then None else Some(UniqueFailed)
    case UpdateFileSub(id, _, path, enabled, _) =>
      if id !in db.subs || db.subs[id].kind != FileKind || (enabled && db.subs[id].fileId.Null?) then Some(NoRows)
      else if PathFree(db, path, id) then None else Some(UniqueFailed)
    case ReplaceOne(id, fileId, _, _) =>
      if id !in db.subs || db.subs[id].kind != FileKind then Some(NoRows)
      else if fileId !in db.files then Some(ForeignKeyFailed) else None
    case ReplaceAll(oldFile, newFile, _, _) =>
      if oldFile !in db.files || newFile !in db.files then Some(NoRows)
      else if oldFile != newFile && (forall id :: id in db.subs ==> !Hit(db.subs[id],
          oldFile)) then Some(NoAssociations)
      else None
    case Detach(id, _) =>
      if id !in db.subs || db.subs[id].kind != FileKind then Some(NoRows) else None
    case DeleteSub(id) =>
      if id !in db.subs then Some(NoRows) else None
    case BatchContent(ids, _, _) =>
      if ids == [] then Some(NothingSelected)
      else if |TextRows(db, ids)| != |ids| then Some(NoRows) else None
    case ClearLogs(_) => None
    case CleanupLogs(_) => None
    case Migrate => None
  }

  function NewSub(name: string, path: string, content: string, kind: Kind, fileId: RowRef,
                  downloadName: string, enabled: bool, now: string): Sub {
    Sub(name, path, content, kind, fileId, downloadName, enabled, 0, 0, 0, None, "", now, now)
  }

  /** UPDATE of one row by ReplaceSubscriptionFile; `file_id IS ?` is null-safe. */
  function ReplacedRow(row: Sub, fileId: int, downloadName: string, now: string): Sub {
    var same := row.fileId == Ref(fileId);
    row.(currentCount := if same then row.currentCount else 0,
         revision := row.revision + (if same then 0 else 1),
         fileId := Ref(fileId), downloadName := downloadName, updatedAt := now)
  }

  /** The rows a bulk replacement updates: `type = 'file' AND file_id = ?`. */
  predicate Hit(row: Sub, fileId: int) {
    row.kind == FileKind && row.fileId == Ref(fileId)
  }

  function BulkRow(row: Sub, newFile: int, downloadName: string, now: string): Sub {
    row.(fileId := Ref(newFile), downloadName := downloadName, currentCount := 0,
         revision := row.revision + 1, updatedAt := now)
  }

  function DetachedRow(row: Sub, now: string): Sub {
    row.(fileId := Null, downloadName := "", enabled := false, currentCount := 0,
         revision := row.revision + 1, updatedAt := now)
  }

  /** The column `current_fetch_count` as the migration fills it. */
  function SeededRow(db: Db, id: int): Sub
    requires id in db.subs
  {
    var row := db.subs[id];
    row.(currentCount := if row.kind == FileKind && row.fileId.Ref? then PairCount(db, row.fileId.id, id) else 0)
  }

  /** The database an accepted edit commits. */
  function Commit(db: Db, op: Op): Db
    requires Refusal(db, op).None?
  {
    match op
    case CreateText(name, path, content, enabled, now) =>
      db.(subs := db.subs[db.nextSub := NewSub(name, path, content, TextKind, Null, "", enabled, now)],
          nextSub := db.nextSub + 1)
    case CreateFileSub(name, path, fileId, downloadName, enabled, now) =>
      db.(subs := db.subs[db.nextSub := NewSub(name, path, "", FileKind, Ref(fileId), downloadName, enabled, now)],
          nextSub := db.nextSub + 1)
    case UpdateText(id, name, path, content, enabled, now) =>
      db.(subs := db.subs[id := db.subs[id].(name := name, path := path, content := content, enabled := enabled,
          updatedAt := now)])
    case UpdateFileSub(id, name, path, enabled, now) =>
      db.(subs := db.subs[id := db.subs[id].(name := name, path := path, enabled := enabled, updatedAt := now)])
    case ReplaceOne(id, fileId, downloadName, now) =>
      db.(subs := db.subs[id := ReplacedRow(db.subs[id], fileId, downloadName, now)])
    case ReplaceAll(oldFile, newFile, downloadName, now) =>
      if oldFile == newFile then db
      else db.(subs := map id | id in db.subs ::
                 if Hit(db.subs[id], oldFile) then BulkRow(db.subs[id], newFile, downloadName, now) else db.subs[id])
    case Detach(id, now) =>
      db.(subs := db.subs[id := DetachedRow(db.subs[id], now)])
    case DeleteSub(id) =>
      db.(subs := db.subs - {id},
          stats := map k | k in db.stats && k.sub != id :: db.stats[k],
          logs := map l | l in db.logs && db.logs[l].subId != id :: db.logs[l])
    case BatchContent(ids, content, now) =>
      db.(subs := map id | id in db.subs ::
            if id in TextRows(db, ids) then db.subs[id].(content := content, updatedAt := now) else db.subs[id])
    case ClearLogs(id) =>
      db.(logs := map l | l in db.logs && db.logs[l].subId != id :: db.logs[l])
    case CleanupLogs(cutoff) =>
      db.(logs := map l | l in db.logs && !TextOrder.Less(db.logs[l].requestedAt, cutoff) :: db.logs[l])
    case Migrate =>
      if db.counted then db
      else db.(subs := map id | id in db.subs :: SeededRow(db, id), counted := true)
  }

  /** One edit: the committed database, or the unchanged one when it is refused. */
  function Apply(db: Db, op: Op): Db {
    if Refusal(db, op).None? then Commit(db, op) else db
  }

  // ---- Toggle ----

  function SetEnabled(db: Db, id: int, enabled: bool, now: string): Db {
    if id !in db.subs then db
    else db.(subs := db.subs[id := db.subs[id].(enabled := enabled, updatedAt := now)])
  }

  // ---- Recording one public access ----

  datatype Access = Access(ip: string, client: string, userAgent: string, httpMethod: string, status: int, now: string)

  /** The two row counts RecordAccess insists on. A file id of 0 means "no file". */
  predicate CanRecord(db: Db, subId: int, fileId: int) {
    subId in db.subs && (fileId > 0 ==> fileId in db.files)
  }

  /** `CASE WHEN type = 'file' AND file_id = ? AND file_revision = ? THEN 1 ELSE 0 END`. */
  predicate CountsAsCurrent(row: Sub, fileId: int, revision: nat) {
    row.kind == FileKind && row.fileId == Ref(fileId) && row.revision == revision
  }

  function FetchedRow(row: Sub, fileId: int, revision: nat, a: Access): Sub {
    row.(fetchCount := row.fetchCount + 1,
         currentCount := row.currentCount + (if CountsAsCurrent(row, fileId, revision) then 1 else 0),
         lastFetchedAt := Some(a.now), lastFetchedIp := a.ip)
  }

  function DownloadedFile(file: File, a: Access): File {
    file.(downloadCount := file.downloadCount + 1, lastDownloadedAt := Some(a.now),
          lastDownloadedIp := a.ip, updatedAt := a.now)
  }

  function Record(db: Db, subId: int, fileId: int, revision: nat, a: Access): Db
    requires CanRecord(db, subId, fileId)
  {
    db.(subs := db.subs[subId := FetchedRow(db.subs[subId], fileId, revision, a)],
        files := if fileId > 0 then db.files[fileId := DownloadedFile(db.files[fileId], a)] else db.files,
        stats := if fileId > 0
                 then db.stats[Pair(fileId, subId) := Stat(PairCount(db, fileId, subId) + 1, a.now, a.ip)]
                 else db.stats,
        logs := db.logs[db.nextLog := Log(subId, if fileId > 0 then Ref(fileId) else Null,
                                          a.now, a.ip, a.client, a.userAgent, a.httpMethod, a.status)],
        nextLog := db.nextLog + 1)
  }

  // ---- File rows ----

  predicate CanCreateFile(db: Db, sha256: string, storageKey: string) {
    forall id :: id in db.files ==> db.files[id].sha256 != sha256 && db.files[id].storageKey != storageKey
  }

  function NewFile(md5: string, sha256: string, size: nat, contentType: string, storageKey: string,
                   originalName: string, now: string): File {
    File(md5, sha256, size, contentType, storageKey, originalName, 0, None, "", now, now)
  }

  function InsertFile(db: Db, file: File): Db
    requires CanCreateFile(db, file.sha256, file.storageKey)
  {
    db.(files := db.files[db.nextFile := file], nextFile := db.nextFile + 1)
  }

  /** `DELETE ... AND NOT EXISTS (SELECT 1 FROM subscriptions WHERE file_id = files.id)`. */
  predicate CanDeleteFile(db: Db, id: int) {
    id in db.files && Associated(db, id) == {}
  }

  /** Statistics cascade; logs keep their rows and lose the reference. */
  function RemoveFile(db: Db, id: int): Db
    requires CanDeleteFile(db, id)
  {
    db.(files := db.files - {id},
        stats := map k | k in db.stats && k.file != id :: db.stats[k],
        logs := map l | l in db.logs ::
          if db.logs[l].fileId == Ref(id) then db.logs[l].(fileId := Null) else db.logs[l])
  }
}
