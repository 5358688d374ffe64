/** What each transaction of the store writes, column by column, and what it leaves alone. */
module Effects {
  import opened Wrappers
  import opened Schema
  import opened Transactions
  import opened Server

  /** Nothing but subscription rows may differ, and no row comes or goes. */
  ghost predicate OnlyRows(db: Db, db': Db) {
    && db'.files == db.files && db'.stats == db.stats && db'.logs == db.logs && db'.counted == db.counted
    && db'.nextSub == db.nextSub && db'.nextFile == db.nextFile && db'.nextLog == db.nextLog
    && (forall i :: i in db'.subs <==> i in db.subs)
  }

  /** Nothing but the row of this subscription differs. */
  ghost predicate OnlyRow(db: Db, db': Db, id: int) {
    OnlyRows(db, db') && id in db.subs && forall i :: i in db.subs && i != id ==> db'.subs[i] == db.subs[i]
  }

  /** Name, path, content and download name: what an administrator wrote. */
  predicate SameTexts(a: Sub, b: Sub) {
    a.name == b.name && a.path == b.path && a.content == b.content && a.downloadName == b.downloadName
  }

  predicate SameFile(a: Sub, b: Sub) {
    a.kind == b.kind && a.fileId == b.fileId && a.revision == b.revision && a.currentCount == b.currentCount
  }

  predicate SameFetches(a: Sub, b: Sub) {
    && a.fetchCount == b.fetchCount && a.lastFetchedAt == b.lastFetchedAt && a.lastFetchedIp == b.lastFetchedIp
    && a.createdAt == b.createdAt
  }

  // ---- Edits ----

  /** When a bulk replacement is refused, and why. */
  lemma BulkRefused(db: Db, oldFile: int, newFile: int, downloadName: string, now: string)
    requires References(db)
    ensures Refusal(db, ReplaceAll(oldFile, newFile, downloadName, now))
            == if oldFile !in db.files || newFile !in db.files then Some(NoRows)
               else if oldFile == newFile || exists i :: i in db.subs && db.subs[i].fileId == Ref(oldFile) then None
               else Some(NoAssociations)
  {
  }

  /** A new subscription stands under the next id with what was submitted, no fetches, and both times now. */
  ghost predicate IsNew(db: Db, db': Db, kind: Kind, file: RowRef, enabled: bool, now: string) {
    && db.nextSub in db'.subs && db'.nextSub == db.nextSub + 1
    && (forall i :: i in db.subs && i != db.nextSub ==> i in db'.subs && db'.subs[i] == db.subs[i])
    && (forall i :: i in db'.subs ==> i in db.subs || i == db.nextSub)
    && db'.files == db.files && db'.stats == db.stats && db'.logs == db.logs
    && (var row := db'.subs[db.nextSub];
        && row.kind == kind && row.fileId == file && row.enabled == enabled
        && row.fetchCount == 0 && row.currentCount == 0 && row.revision == 0
        && row.lastFetchedAt == None && row.lastFetchedIp == "" && row.createdAt == now && row.updatedAt == now)
  }

  lemma CreateWrites(db: Db, name: string, path: string, content: string, fileId: int, downloadName: string,
                     enabled: bool, now: string)
    ensures var op := CreateText(name, path, content, enabled, now);
            Refusal(db, op).None? ==>
              && IsNew(db, Apply(db, op), TextKind, Null, enabled, now)
              && (var row := Apply(db, op).subs[db.nextSub];
                  row.name == name && row.path == path && row.content == content && row.downloadName == "")
    ensures var op := CreateFileSub(name, path, fileId, downloadName, enabled, now);
            Refusal(db, op).None? ==>
              && IsNew(db, Apply(db, op), FileKind, Ref(fileId), enabled, now)
              && (var row := Apply(db, op).subs[db.nextSub];
                  row.name == name && row.path == path && row.content == "" && row.downloadName == downloadName)
  {
  }

  /** A path is refused exactly when another subscription has it. */
  lemma CreateAcceptedIff(db: Db, name: string, path: string, content: string, fileId: int, downloadName: string,
                          enabled: bool, now: string)
    requires IdsBelow(db)
    ensures Refusal(db, CreateText(name, path, content, enabled, now))
            == if exists i :: i in db.subs && db.subs[i].path == path then Some(UniqueFailed) else None
    ensures Refusal(db, CreateFileSub(name, path, fileId, downloadName, enabled, now))
            == if exists i :: i in db.subs && db.subs[i].path == path then Some(UniqueFailed)
               else if fileId in db.files then None else Some(ForeignKeyFailed)
  {
  }

  /** An update writes what was submitted; statistics, file and revision stay. */
  lemma UpdateWrites(db: Db, id: int, name: string, path: string, content: string, enabled: bool, now: string)
    ensures var op := UpdateText(id, name, path, content, enabled, now);
            Refusal(db, op).None? ==>
              && OnlyRow(db, Apply(db, op), id) && db.subs[id].kind == TextKind
              && (var was, row := db.subs[id], Apply(db, op).subs[id];
                  && row.name == name && row.path == path && row.content == content && row.enabled == enabled
                  && row.updatedAt == now && row.downloadName == was.downloadName
                  && SameFile(was, row) && SameFetches(was, row))
    ensures var op := UpdateFileSub(id, name, path, enabled, now);
            Refusal(db, op).None? ==>
              && OnlyRow(db, Apply(db, op), id) && db.subs[id].kind == FileKind
              && (var was, row := db.subs[id], Apply(db, op).subs[id];
                  && row.name == name && row.path == path && row.content == was.content && row.enabled == enabled
                  && row.updatedAt == now && row.downloadName == was.downloadName
                  && SameFile(was, row) && SameFetches(was, row))
  {
  }

  /** When an update is accepted: the row is of the kind, the path is not another's, and a file
      subscription is not enabled without a file. */
  lemma UpdateAcceptedIff(db: Db, id: int, name: string, path: string, content: string, enabled: bool, now: string)
    ensures Refusal(db, UpdateText(id, name, path, content, enabled, now)).None? <==>
              && id in db.subs && db.subs[id].kind == TextKind
              && forall i :: i in db.subs && db.subs[i].path == path ==> i == id
    ensures Refusal(db, UpdateFileSub(id, name, path, enabled, now)).None? <==>
              && id in db.subs && db.subs[id].kind == FileKind && (enabled ==> db.subs[id].fileId.Ref?)
              && forall i :: i in db.subs && db.subs[i].path == path ==> i == id
  {
  }

  /** A replacement: with the file the row already has, count and revision stay; with any other, or
      where there was none, a new revision begins at zero. */
  lemma ReplaceWrites(db: Db, id: int, fileId: int, downloadName: string, now: string)
    requires Refusal(db, ReplaceOne(id, fileId, downloadName, now)).None?
    ensures var db' := Apply(db, ReplaceOne(id, fileId, downloadName, now));
            && OnlyRow(db, db', id)
            && (var was, row := db.subs[id], db'.subs[id];
                && row.fileId == Ref(fileId) && row.downloadName == downloadName && row.updatedAt == now
                && (was.fileId == Ref(fileId) ==> row.revision == was.revision && row.currentCount == was.currentCount)
                && (was.fileId != Ref(fileId) ==> row.revision == was.revision + 1 && row.currentCount == 0)
                && row.name == was.name && row.path == was.path && row.content == was.content
                && row.kind == was.kind && row.enabled == was.enabled && SameFetches(was, row))
  {
  }

  lemma ReplaceAcceptedIff(db: Db, id: int, fileId: int, downloadName: string, now: string)
    ensures Refusal(db, ReplaceOne(id, fileId, downloadName, now))
            == if id in db.subs && db.subs[id].kind == FileKind
               then (if fileId in db.files then None else Some(ForeignKeyFailed)) else Some(NoRows)
  {
  }

  /** A detachment, and when it is accepted. */
  lemma DetachWrites(db: Db, id: int, now: string)
    ensures Refusal(db, Detach(id, now)).None? <==> id in db.subs && db.subs[id].kind == FileKind
    ensures Refusal(db, Detach(id, now)).None? ==>
              var db' := Apply(db, Detach(id, now));
              && OnlyRow(db, db', id)
              && (var was, row := db.subs[id], db'.subs[id];
                  && row.fileId == Null && row.downloadName == "" && !row.enabled && row.updatedAt == now
                  && row.currentCount == 0 && row.revision == was.revision + 1
                  && row.name == was.name && row.path == was.path && row.content == was.content
                  && row.kind == was.kind && SameFetches(was, row))
  {
  }

  /** The row goes with its statistics and log lines, and nothing else does. */
  lemma DeleteRemoves(db: Db, id: int)
    requires id in db.subs
    ensures var db' := Apply(db, DeleteSub(id));
            && (forall i :: i in db'.subs <==> i in db.subs && i != id)
            && (forall i :: i in db'.subs ==> db'.subs[i] == db.subs[i])
            && (forall k :: k in db'.stats <==> k in db.stats && k.sub != id)
            && (forall k :: k in db'.stats ==> db'.stats[k] == db.stats[k])
            && (forall l :: l in db'.logs <==> l in db.logs && db.logs[l].subId != id)
            && (forall l :: l in db'.logs ==> db'.logs[l] == db.logs[l])
            && db'.files == db.files && db'.nextSub == db.nextSub && db'.nextFile == db.nextFile
            && db'.nextLog == db.nextLog
  {
  }

  /** Clearing removes the lines of one subscription, and no line of another. */
  lemma ClearRemoves(db: Db, id: int)
    ensures var db' := Apply(db, ClearLogs(id));
            && (forall l :: l in db'.logs <==> l in db.logs && db.logs[l].subId != id)
            && (forall l :: l in db'.logs ==> db'.logs[l] == db.logs[l])
            && db' == db.(logs := db'.logs)
  {
  }

  /** The flag of one row; every other column of every row stays. */
  lemma SetEnabledWrites(db: Db, id: int, enabled: bool, now: string)
    requires id in db.subs
    ensures var db' := SetEnabled(db, id, enabled, now);
            && OnlyRow(db, db', id)
            && (var was, row := db.subs[id], db'.subs[id];
                && row.enabled == enabled && row.updatedAt == now
                && SameTexts(was, row) && SameFile(was, row) && SameFetches(was, row))
  {
  }

  /** A toggle turns the flag round, unless it would enable a file subscription without a file. */
  lemma ToggleFlips(db: Db, id: int, now: string)
    requires id in db.subs
    ensures var was, db' := db.subs[id], ToggleNow(db, id, now);
            if was.kind == TextKind || was.enabled || was.fileId.Ref? then
              && OnlyRow(db, db', id)
              && (var row := db'.subs[id];
                  && row.enabled == !was.enabled && row.updatedAt == now
                  && SameTexts(was, row) && SameFile(was, row) && SameFetches(was, row))
            else db' == db
  {
  }

  /** A toggle whose read and write follow each other is the uninterrupted one. */
  lemma SplitToggleIsToggle(cfg: Config, s: System, id: int, now: string)
    ensures var s1 := Step(cfg, s, ToggleRead(id));
            (s1 == s ==> ToggleNow(s.db, id, now) == s.db)
            && (s1 != s ==> Step(cfg, s1, ToggleWrite(s.nextId, now)).db == ToggleNow(s.db, id, now))
  {
  }

  /** A restart stops every request and every job, frees the mutex, and leaves database, blobs and history
      as they were, but for the migration. */
  lemma RestartLeaves(cfg: Config, s: System, kept: set<int>, t: int)
    ensures var s' := Step(cfg, s, Crash(kept));
            && s'.db == Apply(s.db, Migrate) && (s.db.counted ==> s'.db == s.db)
            && s'.blobs == s.blobs && s'.history == s.history && s'.lock.None? && s'.flips == map[]
            && (t in s'.jobs <==> t in s.jobs) && (t in s'.fetches <==> t in s.fetches)
            && (t in s.jobs ==>
                  s'.jobs[t] == if s.jobs[t].stage.Done? then s.jobs[t] else s.jobs[t].(stage := Done(Err(Crashed))))
            && (t in s.fetches ==> s'.fetches[t] == if InProgress(s.fetches[t]) then Failed(0) else s.fetches[t])
            && (t in s'.temps ==> t in kept && t in s.temps && s'.temps[t] == s.temps[t])
  {
  }

  /** Edits and toggles are steps that change the database by their transaction, and nothing else. */
  lemma AdminSteps(cfg: Config, s: System, op: Op, id: int, now: string)
    ensures Step(cfg, s, Edit(op)) == s.(db := Apply(s.db, op))
    ensures Step(cfg, s, Toggle(id, now)) == s.(db := ToggleNow(s.db, id, now))
  {
  }

  /** Toggling twice gives the row back, but for its time, to every text and every attached file. */
  lemma ToggleTwice(db: Db, id: int, now: string, later: string)
    requires id in db.subs && (db.subs[id].kind == TextKind || db.subs[id].fileId.Ref?)
    ensures ToggleNow(ToggleNow(db, id, now), id, later)
            == db.(subs := db.subs[id := db.subs[id].(updatedAt := later)])
  {
  }

  // ---- Records ----

  /** The log line of an access. */
  predicate IsLineOf(line: Log, subId: int, a: Access) {
    && line.subId == subId && line.requestedAt == a.now && line.clientIp == a.ip && line.clientName == a.client
    && line.userAgent == a.userAgent && line.httpMethod == a.httpMethod && line.status == a.status
  }

  lemma RecordWritesLine(db: Db, subId: int, fileId: int, revision: nat, a: Access)
    requires IdsBelow(db) && CanRecord(db, subId, fileId)
    ensures var db' := Record(db, subId, fileId, revision, a);
            && db'.nextLog == db.nextLog + 1 && db.nextLog in db'.logs && db.nextLog !in db.logs
            && IsLineOf(db'.logs[db.nextLog], subId, a)
            && db'.logs[db.nextLog].fileId == (if fileId > 0 then Ref(fileId) else Null)
            && (forall l :: l in db'.logs <==> l in db.logs || l == db.nextLog)
            && (forall l :: l in db.logs ==> db'.logs[l] == db.logs[l])
  {
  }

  /** The subscription's fetch, time and address; its current count only for the revision that was read. */
  lemma RecordWritesSub(db: Db, subId: int, fileId: int, revision: nat, a: Access)
    requires CanRecord(db, subId, fileId)
    ensures var db' := Record(db, subId, fileId, revision, a);
            && db'.subs.Keys == db.subs.Keys && db'.nextSub == db.nextSub
            && (forall i :: i in db.subs && i != subId ==> db'.subs[i] == db.subs[i])
            && (var was, row := db.subs[subId], db'.subs[subId];
                && row.fetchCount == was.fetchCount + 1
                && row.currentCount == was.currentCount
                   + (if was.kind == FileKind && was.fileId == Ref(fileId) && was.revision == revision then 1 else 0)
                && row.lastFetchedAt == Some(a.now) && row.lastFetchedIp == a.ip
                && SameTexts(was, row) && row.kind == was.kind && row.fileId == was.fileId
                && row.revision == was.revision && row.enabled == was.enabled
                && row.createdAt == was.createdAt && row.updatedAt == was.updatedAt)
  {
  }

  /** The file's and the pair's total, time and address, when there is a file; nothing otherwise. */
  lemma RecordWritesFile(db: Db, subId: int, fileId: int, revision: nat, a: Access)
    requires CanRecord(db, subId, fileId)
    ensures var db' := Record(db, subId, fileId, revision, a);
            && db'.files.Keys == db.files.Keys && db'.nextFile == db.nextFile
            && (forall f :: f in db.files && f != fileId ==> db'.files[f] == db.files[f])
            && (forall k :: k in db.stats && k != Pair(fileId, subId) ==> k in db'.stats && db'.stats[k] == db.stats[k])
            && (forall k :: k in db'.stats && k !in db.stats ==> k == Pair(fileId, subId) && fileId > 0)
            && (fileId <= 0 ==> db'.files == db.files && db'.stats == db.stats)
            && (fileId > 0 ==>
                  && (var was, file := db.files[fileId], db'.files[fileId];
                      && file.downloadCount == was.downloadCount + 1 && file.lastDownloadedAt == Some(a.now)
                      && file.lastDownloadedIp == a.ip && file.updatedAt == a.now
                      && file.md5 == was.md5 && file.sha256 == was.sha256 && file.size == was.size
                      && file.contentType == was.contentType && file.storageKey == was.storageKey
                      && file.originalName == was.originalName && file.createdAt == was.createdAt)
                  && Pair(fileId, subId) in db'.stats
                  && (var pair := db'.stats[Pair(fileId, subId)];
                      && pair.downloadCount == PairCount(db, fileId, subId) + 1
                      && pair.lastDownloadedAt == a.now && pair.lastDownloadedIp == a.ip))
  {
  }
}
