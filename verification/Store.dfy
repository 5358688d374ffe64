/** The store itself: tables updated in place, one SQL statement after another, inside a
    transaction that is rolled back on every error. `fault` names the call that the database
    fails, counting from 0; a value beyond the last call means that none fails. */
module StoreModel {
  import opened Wrappers
  import opened Schema
  import opened Transactions
  import TextOrder

  class Store {
    var subs: map<int, Sub>
    var files: map<int, File>
    var stats: map<Pair, Stat>
    var logs: map<int, Log>
    var nextSub: int
    var nextFile: int
    var nextLog: int
    var counted: bool

    function Snapshot(): Db
      reads this
    {
      Db(subs, files, stats, logs, nextSub, nextFile, nextLog, counted)
    }

    constructor ()
      ensures Snapshot() == Empty()
    {
      subs, files, stats, logs := map[], map[], map[], map[];
      nextSub, nextFile, nextLog, counted := 1, 1, 1, true;
    }

    /** tx.Rollback(): the tables are again what they were at BEGIN. */
    method Rollback(saved: Db)
      modifies this
      ensures Snapshot() == saved
    {
      subs, files, stats, logs := saved.subs, saved.files, saved.stats, saved.logs;
      nextSub, nextFile, nextLog, counted := saved.nextSub, saved.nextFile, saved.nextLog, saved.counted;
    }

    method CreateSubscription(name: string, path: string, content: string, enabled: bool, now: string, fault: nat)
      returns (r: Result<int>)
      modifies this
      ensures Snapshot() == (if r.Ok? then Apply(old(Snapshot()), CreateText(name, path, content, enabled, now))
          else old(Snapshot()))
      ensures r == (if fault == 0 then Err(Fault)
                    else match Refusal(old(Snapshot()), CreateText(name, path, content, enabled, now))
                         case Some(e) => Err(e)
                         case None => Ok(old(nextSub)))
    {
      if fault == 0 { return Err(Fault); }
      if exists i :: i in subs && i != 0 && subs[i].path == path { return Err(UniqueFailed); }
      subs := subs[nextSub := Sub(name, path, content, TextKind, Null, "", enabled, 0, 0, 0, None, "", now, now)];
      r := Ok(nextSub);
      nextSub := nextSub + 1;
    }

    method CreateFileSubscription(name: string, path: string, fileId: int, downloadName: string, enabled: bool,
                                  now: string,
                                  fault: nat)
      returns (r: Result<int>)
      modifies this
      ensures Snapshot() == (if r.Ok? then Apply(old(Snapshot()),
          CreateFileSub(name, path, fileId, downloadName, enabled, now))
                             else old(Snapshot()))
      ensures r == (if fault == 0 then Err(Fault)
                    else match Refusal(old(Snapshot()), CreateFileSub(name, path, fileId, downloadName, enabled, now))
                         case Some(e) => Err(e)
                         case None => Ok(old(nextSub)))
    {
      if fault == 0 { return Err(Fault); }
      if exists i :: i in subs && i != 0 && subs[i].path == path { return Err(UniqueFailed); }
      if fileId !in files { return Err(ForeignKeyFailed); }
      subs := subs[nextSub :=
        Sub(name, path, "", FileKind, Ref(fileId), downloadName, enabled, 0, 0, 0, None, "", now, now)];
      r := Ok(nextSub);
      nextSub := nextSub + 1;
    }

    method UpdateSubscription(id: int, name: string, path: string, content: string, enabled: bool, now: string,
                              fault: nat)
      returns (r: Result<()>)
      modifies this`subs
      ensures Snapshot() == (if r.Ok? then Apply(old(Snapshot()),
          UpdateText(id, name, path, content, enabled, now)) else old(Snapshot()))
      ensures r == Answer(old(Snapshot()), UpdateText(id, name, path, content, enabled, now), fault == 0)
    {
      if fault == 0 { return Err(Fault); }
      if id !in subs || subs[id].kind != TextKind { return Err(NoRows); }
      if exists i :: i in subs && i != id && subs[i].path == path { return Err(UniqueFailed); }
      subs := subs[id := subs[id].(name := name, path := path, content := content, enabled := enabled,
          updatedAt := now)];
      r := Ok(());
    }

    method UpdateFileSubscription(id: int, name: string, path: string, enabled: bool, now: string, fault: nat)
      returns (r: Result<()>)
      modifies this`subs
      ensures Snapshot() == (if r.Ok? then Apply(old(Snapshot()), UpdateFileSub(id, name, path, enabled, now))
          else old(Snapshot()))
      ensures r == Answer(old(Snapshot()), UpdateFileSub(id, name, path, enabled, now), fault == 0)
      ensures old(EnabledAttached(Snapshot())) ==> EnabledAttached(Snapshot())
    {
      if fault == 0 { return Err(Fault); }
      if id !in subs || subs[id].kind != FileKind || !(subs[id].fileId.Ref? || !enabled) { return Err(NoRows); }
      if exists i :: i in subs && i != id && subs[i].path == path { return Err(UniqueFailed); }
      subs := subs[id := subs[id].(name := name, path := path, enabled := enabled, updatedAt := now)];
      r := Ok(());
    }

    method ReplaceSubscriptionFile(id: int, fileId: int, downloadName: string, now: string, fault: nat)
      returns (r: Result<()>)
      modifies this`subs
      ensures Snapshot() == (if r.Ok? then Apply(old(Snapshot()), ReplaceOne(id, fileId, downloadName, now))
          else old(Snapshot()))
      ensures r == Answer(old(Snapshot()), ReplaceOne(id, fileId, downloadName, now), fault == 0)
    {
      if fault == 0 { return Err(Fault); }
      if id !in subs || subs[id].kind != FileKind { return Err(NoRows); }
      if fileId !in files { return Err(ForeignKeyFailed); }
      // every right-hand side sees the row as it was before the UPDATE
      var was := subs[id];
      subs := subs[id := was.(
        currentCount := if was.fileId == Ref(fileId) then was.currentCount else 0,
        revision := was.revision + (if was.fileId == Ref(fileId) then 0 else 1),
        fileId := Ref(fileId), downloadName := downloadName, updatedAt := now)];
      r := Ok(());
    }

    method ReplaceFileAssociations(oldFile: int, newFile: int, downloadName: string, now: string, fault: nat)
      returns (r: Result<int>)
      modifies this
      ensures Snapshot() == (if r.Ok? then Apply(old(Snapshot()),
          ReplaceAll(oldFile, newFile, downloadName, now)) else old(Snapshot()))
      ensures fault >= 4 ==>
        r == match Refusal(old(Snapshot()), ReplaceAll(oldFile, newFile, downloadName, now))
             case Some(e) => Err(e)
             case None => Ok(if oldFile == newFile then 0 else |HitRows(old(Snapshot()), oldFile)|)
      ensures oldFile == newFile ==> Snapshot() == old(Snapshot())
    {
      var saved := Snapshot();
      if fault == 0 { return Err(Fault); }
      if oldFile !in files { return Err(NoRows); }
      if fault == 1 { return Err(Fault); }
      if newFile !in files { return Err(NoRows); }
      if oldFile == newFile { return Ok(0); }
      if fault == 2 { return Err(Fault); }
      var hits := HitRows(Snapshot(), oldFile);
      NoHits(saved, oldFile);
      subs := map id | id in subs ::
        if Hit(subs[id], oldFile) then subs[id].(fileId := Ref(newFile), downloadName := downloadName,
            currentCount := 0,
                                     revision := subs[id].revision + 1, updatedAt := now)
        else subs[id];
      if |hits| == 0 {
        Rollback(saved);
        return Err(NoAssociations);
      }
      if fault == 3 {
        Rollback(saved);
        return Err(Fault);
      }
      assert Refusal(saved, ReplaceAll(oldFile, newFile, downloadName, now)).None?;
      BulkIsCommit(saved, subs, oldFile, newFile, downloadName, now);
      r := Ok(|hits|);
    }

    method DetachSubscriptionFile(id: int, now: string, fault: nat) returns (r: Result<()>)
      modifies this`subs
      ensures Snapshot() == (if r.Ok? then Apply(old(Snapshot()), Detach(id, now)) else old(Snapshot()))
      ensures r == Answer(old(Snapshot()), Detach(id, now), fault == 0)
    {
      if fault == 0 { return Err(Fault); }
      if id !in subs || subs[id].kind != FileKind { return Err(NoRows); }
      subs := subs[id := subs[id].(fileId := Null, downloadName := "", enabled := false, currentCount := 0,
                                   revision := subs[id].revision + 1, updatedAt := now)];
      r := Ok(());
    }

    /** Statistics and logs of the subscription go with it (ON DELETE CASCADE). */
    method DeleteSubscription(id: int, fault: nat) returns (r: Result<()>)
      modifies this
      ensures Snapshot() == (if r.Ok? then Apply(old(Snapshot()), DeleteSub(id)) else old(Snapshot()))
      ensures r == Answer(old(Snapshot()), DeleteSub(id), fault == 0)
    {
      if fault == 0 { return Err(Fault); }
      if id !in subs { return Err(NoRows); }
      subs := subs - {id};
      stats := map k | k in stats && k.sub != id :: stats[k];
      logs := map l | l in logs && logs[l].subId != id :: logs[l];
      r := Ok(());
    }

    method SetSubscriptionEnabled(id: int, enabled: bool, now: string, fault: nat) returns (r: Result<()>)
      modifies this`subs
      ensures Snapshot() == (if r.Ok? then SetEnabled(old(Snapshot()), id, enabled, now) else old(Snapshot()))
      ensures r == (if fault == 0 then Err(Fault) else if id !in old(subs) then Err(NoRows) else Ok(()))
    {
      if fault == 0 { return Err(Fault); }
      if id !in subs { return Err(NoRows); }
      subs := subs[id := subs[id].(enabled := enabled, updatedAt := now)];
      r := Ok(());
    }

    /** Counts first, then rewrites; the number of rewritten rows is checked again before COMMIT. */
    method BatchUpdateContent(ids: seq<int>, content: string, now: string, fault: nat) returns (r: Result<int>)
      modifies this
      ensures Snapshot() == (if r.Ok? then Apply(old(Snapshot()), BatchContent(ids, content, now)) else old(Snapshot()))
      ensures r.Ok? ==> r.value == |ids|
      ensures fault >= 3 ==>
        r == match Refusal(old(Snapshot()), BatchContent(ids, content, now))
             case Some(e) => Err(e)
             case None => Ok(|ids|)
    {
      if |ids| == 0 { return Err(NothingSelected); }
      var args := [];
      for i := 0 to |ids|
        invariant args == ids[..i]
      {
        args := args + [ids[i]];
      }
      assert args == ids;
      var saved := Snapshot();
      if fault == 0 { return Err(Fault); }
      var existing := |set id | id in subs && subs[id].kind == TextKind && id in args|;
      assert (set id | id in subs && subs[id].kind == TextKind && id in args) == TextRows(saved, ids);
      if existing != |ids| { return Err(NoRows); }
      if fault == 1 { return Err(Fault); }
      var touched := set id | id in subs && subs[id].kind == TextKind && id in args;
      subs := map id | id in subs ::
        if id in touched then subs[id].(content := content, updatedAt := now) else subs[id];
      if |touched| != |ids| {
        // "batch update affected n of m subscriptions": never taken inside one transaction
        assert false;
      }
      if fault == 2 {
        Rollback(saved);
        return Err(Fault);
      }
      assert subs == Commit(saved, BatchContent(ids, content, now)).subs;
      r := Ok(|touched|);
    }

    /** UPDATE subscriptions: every right-hand side sees the old row. */
    method CountFetch(subId: int, revision: nat, fileId: int, a: Access)
      requires subId in subs
      modifies this`subs
      ensures subs == old(subs)[subId := FetchedRow(old(subs)[subId], fileId, revision, a)]
    {
      var was := subs[subId];
      subs := subs[subId := was.(
        fetchCount := was.fetchCount + 1,
        currentCount := was.currentCount +
          (if was.kind == FileKind && was.fileId == Ref(fileId) && was.revision == revision then 1 else 0),
        lastFetchedAt := Some(a.now), lastFetchedIp := a.ip)];
    }

    /** INSERT ... ON CONFLICT DO UPDATE on the pair's row. */
    method CountPair(fileId: int, subId: int, a: Access)
      modifies this`stats
      ensures stats == old(stats)[Pair(fileId, subId) := Stat(PairCount(old(Snapshot()), fileId, subId) + 1, a.now,
          a.ip)]
    {
      var key := Pair(fileId, subId);
      if key in stats {
        stats := stats[key := Stat(stats[key].downloadCount + 1, a.now, a.ip)];
      } else {
        stats := stats[key := Stat(1, a.now, a.ip)];
      }
    }

    /** The statements of one recorded access, in one transaction. */
    method RecordAccess(subId: int, revision: nat, fileId: int, a: Access, fault: nat) returns (r: Result<()>)
      modifies this
      ensures r.Ok? ==> CanRecord(old(Snapshot()), subId, fileId)
      ensures r.Ok? ==> Snapshot() == Record(old(Snapshot()), subId, fileId, revision, a)
      ensures r.Err? ==> Snapshot() == old(Snapshot())
      ensures fault == 0 ==> r == Err(Fault)
      ensures fault >= 5 ==> r == (if CanRecord(old(Snapshot()), subId, fileId) then Ok(()) else Err(NoRows))
    {
      var saved := Snapshot();
      if fault == 0 { return Err(Fault); }
      if subId !in subs { return Err(NoRows); }
      CountFetch(subId, revision, fileId, a);
      if fileId > 0 {
        if fault == 1 || fileId !in files {
          r := Err(if fault == 1 then Fault else NoRows);
          Rollback(saved);
          return;
        }
        files := files[fileId := DownloadedFile(files[fileId], a)];
        if fault == 2 { Rollback(saved); return Err(Fault); }
        CountPair(fileId, subId, a);
      }
      if fault == 3 { Rollback(saved); return Err(Fault); }
      var nullableFileId := if fileId > 0 then Ref(fileId) else Null;
      logs := logs[nextLog := Log(subId, nullableFileId, a.now, a.ip, a.client, a.userAgent, a.httpMethod, a.status)];
      nextLog := nextLog + 1;
      if fault == 4 { Rollback(saved); return Err(Fault); }
      r := Ok(());
    }

    /** `WHERE path = ? AND enabled = 1`, answered by the id of the row. */
    method SubscriptionByPath(path: string) returns (r: Result<int>)
      ensures r.Ok? ==> r.value in subs && subs[r.value].path == path && subs[r.value].enabled
      ensures r.Err? ==> r.error == NoRows && forall id :: id in subs ==> subs[id].path != path || !subs[id].enabled
    {
      if exists id :: id in subs && subs[id].path == path && subs[id].enabled {
        var id :| id in subs && subs[id].path == path && subs[id].enabled;
        return Ok(id);
      }
      r := Err(NoRows);
    }

    method FileByID(id: int, fault: bool) returns (r: Result<File>)
      ensures r == if fault then Err(Fault) else if id in files then Ok(files[id]) else Err(NoRows)
    {
      if fault { return Err(Fault); }
      if id !in files { return Err(NoRows); }
      r := Ok(files[id]);
    }

    /** `WHERE md5 = ? AND sha256 = ?`, answered by the id of the row. */
    method FileByDigests(md5: string, sha256: string, fault: bool) returns (r: Result<int>)
      ensures r.Ok? ==> !fault && r.value in files && files[r.value].md5 == md5 && files[r.value].sha256 == sha256
      ensures r.Err? ==> r.error == if fault then Fault else NoRows
      ensures r.Err? && !fault ==> forall id :: id in files ==> files[id].md5 != md5 || files[id].sha256 != sha256
    {
      if fault { return Err(Fault); }
      if exists id :: id in files && files[id].md5 == md5 && files[id].sha256 == sha256 {
        var id :| id in files && files[id].md5 == md5 && files[id].sha256 == sha256;
        return Ok(id);
      }
      r := Err(NoRows);
    }

    method FileBySHA256(sha256: string, fault: bool) returns (r: Result<int>)
      ensures r.Ok? ==> !fault && r.value in files && files[r.value].sha256 == sha256
      ensures r.Err? ==> r.error == if fault then Fault else NoRows
      ensures r.Err? && !fault ==> forall id :: id in files ==> files[id].sha256 != sha256
    {
      if fault { return Err(Fault); }
      if exists id :: id in files && files[id].sha256 == sha256 {
        var id :| id in files && files[id].sha256 == sha256;
        return Ok(id);
      }
      r := Err(NoRows);
    }

    /** The INSERT; the new row is then read by FileByID. */
    method CreateFile(md5: string, sha256: string, size: nat, contentType: string, storageKey: string,
                      originalName: string, now: string, fault: nat)
      returns (r: Result<int>)
      modifies this
      ensures r.Ok? ==> CanCreateFile(old(Snapshot()), sha256, storageKey) && r.value == old(nextFile)
      ensures r.Ok? ==> Snapshot() == InsertFile(old(Snapshot()),
          NewFile(md5, sha256, size, contentType, storageKey, originalName, now))
      ensures r.Err? ==> Snapshot() == old(Snapshot())
      ensures r == if fault == 0 then Err(Fault)
          else if CanCreateFile(old(Snapshot()), sha256, storageKey) then Ok(old(nextFile)) else Err(UniqueFailed)
    {
      if fault == 0 { return Err(Fault); }
      if exists i :: i in files && (files[i].sha256 == sha256 || files[i].storageKey == storageKey) {
        return Err(UniqueFailed);
      }
      files := files[nextFile := File(md5, sha256, size, contentType, storageKey, originalName, 0, None, "", now, now)];
      r := Ok(nextFile);
      nextFile := nextFile + 1;
    }

    method DeleteFile(id: int, fault: nat) returns (r: Result<()>)
      modifies this
      ensures r.Ok? ==> CanDeleteFile(old(Snapshot()), id)
      ensures r.Ok? ==> Snapshot() == RemoveFile(old(Snapshot()), id)
      ensures r.Err? ==> Snapshot() == old(Snapshot())
      ensures r == if fault == 0 then Err(Fault) else if CanDeleteFile(old(Snapshot()), id) then Ok(()) else Err(NoRows)
    {
      if fault == 0 { return Err(Fault); }
      var users := set s | s in subs && subs[s].fileId == Ref(id);
      assert users == Associated(Snapshot(), id);
      if id !in files || users != {} { return Err(NoRows); }
      files := files - {id};
      stats := map k | k in stats && k.file != id :: stats[k];
      logs := map l | l in logs :: if logs[l].fileId == Ref(id) then logs[l].(fileId := Null) else logs[l];
      r := Ok(());
    }

    method ClearAccessLogs(id: int, fault: nat) returns (r: Result<()>)
      modifies this`logs
      ensures Snapshot() == (if r.Ok? then Apply(old(Snapshot()), ClearLogs(id)) else old(Snapshot()))
      ensures r.Ok? <==> fault > 0
    {
      if fault == 0 { return Err(Fault); }
      logs := map l | l in logs && logs[l].subId != id :: logs[l];
      r := Ok(());
    }

    /** `cutoff` is the text of the present time minus the retention period. Answers the number of
        rows removed. */
    method CleanupAccessLogs(retentionDays: int, cutoff: string, fault: nat) returns (r: Result<int>)
      modifies this`logs
      ensures Snapshot() == if r.Ok? && retentionDays > 0 then Apply(old(Snapshot()), CleanupLogs(cutoff))
          else old(Snapshot())
      ensures r.Ok? <==> retentionDays <= 0 || fault > 0
      ensures r.Ok? ==> r.value == |old(logs)| - |logs|
      ensures r.Ok? && retentionDays > 0 ==> r.value == |ExpiredLogs(old(Snapshot()), cutoff)|
    {
      if retentionDays <= 0 { return Ok(0); }
      if fault == 0 { return Err(Fault); }
      var expired := ExpiredLogs(Snapshot(), cutoff);
      logs := map l | l in logs && !TextOrder.Less(logs[l].requestedAt, cutoff) :: logs[l];
      ExpiredAndKept(old(logs), logs, expired);
      r := Ok(|expired|);
    }

    /** UPDATE subscriptions SET current_fetch_count = COALESCE((SELECT download_count ...), 0) WHERE type = 'file'. */
    method SeedFromPairs(ghost before: Db)
      requires stats == before.stats
      requires forall id :: id in subs <==> id in before.subs
      requires forall id :: id in subs ==> subs[id] == before.subs[id].(currentCount := 0)
      modifies this`subs
      ensures forall id :: id in subs <==> id in before.subs
      ensures forall id :: id in subs ==> subs[id] == SeededRow(before, id)
    {
      subs := map id | id in subs ::
        if subs[id].kind == FileKind
        then subs[id].(currentCount := if subs[id].fileId.Ref? && Pair(subs[id].fileId.id, id) in stats
                                       then stats[Pair(subs[id].fileId.id, id)].downloadCount else 0)
        else subs[id];
    }

    /** Adds `current_fetch_count` when it is missing and seeds it from the pair totals. */
    method MigrateCurrentFetchCount(fault: nat) returns (r: Result<()>)
      modifies this
      ensures Snapshot() == (if r.Ok? then Apply(old(Snapshot()), Migrate) else old(Snapshot()))
      ensures fault >= 4 ==> r.Ok?
    {
      var saved := Snapshot();
      if fault == 0 { return Err(Fault); }
      if !counted {
        if fault == 1 { return Err(Fault); }
        subs := map id | id in subs :: subs[id].(currentCount := 0);
        counted := true;
        if fault == 2 { Rollback(saved); return Err(Fault); }
        SeedFromPairs(saved);
        SeedIsCommit(saved, subs);
      }
      if fault == 3 { Rollback(saved); return Err(Fault); }
      r := Ok(());
    }
  }

  function ExpiredLogs(db: Db, cutoff: string): set<int> {
    set l | l in db.logs && TextOrder.Less(db.logs[l].requestedAt, cutoff)
  }

  lemma ExpiredAndKept(logs: map<int, Log>, kept: map<int, Log>, expired: set<int>)
    requires expired <= logs.Keys && kept.Keys == logs.Keys - expired
    ensures |kept| == |logs| - |expired|
  {
    assert |kept.Keys| == |kept| && |logs.Keys| == |logs|;
  }

  function HitRows(db: Db, fileId: int): set<int> {
    set id | id in db.subs && Hit(db.subs[id], fileId)
  }

  lemma NoHits(db: Db, fileId: int)
    ensures |HitRows(db, fileId)| == 0 <==> forall id :: id in db.subs ==> !Hit(db.subs[id], fileId)
  {
    if forall id :: id in db.subs ==> !Hit(db.subs[id], fileId) {
      assert HitRows(db, fileId) == {};
    } else {
      var id :| id in db.subs && Hit(db.subs[id], fileId);
      assert id in HitRows(db, fileId);
    }
  }

  lemma BulkIsCommit(db: Db, rows: map<int, Sub>, oldFile: int, newFile: int, downloadName: string, now: string)
    requires oldFile != newFile && Refusal(db, ReplaceAll(oldFile, newFile, downloadName, now)).None?
    requires forall id :: id in rows <==> id in db.subs
    requires forall id :: id in rows ==>
               rows[id] == if Hit(db.subs[id], oldFile) then BulkRow(db.subs[id], newFile, downloadName, now)
                   else db.subs[id]
    ensures Commit(db, ReplaceAll(oldFile, newFile, downloadName, now)) == db.(subs := rows)
  {
    var updated := Commit(db, ReplaceAll(oldFile, newFile, downloadName, now)).subs;
    assert forall id :: id in updated <==> id in rows;
    assert forall id :: id in rows ==> updated[id] == rows[id];
  }

  lemma SeedIsCommit(db: Db, rows: map<int, Sub>)
    requires !db.counted
    requires forall id :: id in rows <==> id in db.subs
    requires forall id :: id in rows ==> rows[id] == SeededRow(db, id)
    ensures Commit(db, Migrate) == db.(subs := rows, counted := true)
  {
    var updated := Commit(db, Migrate).subs;
    assert forall id :: id in updated <==> id in rows;
    assert forall id :: id in rows ==> updated[id] == rows[id];
  }

  /** What a single-statement edit answers. */
  function Answer(db: Db, op: Op, failed: bool): Result<()> {
    if failed then Err(Fault)
    else match Refusal(db, op)
         case Some(e) => Err(e)
         case None => Ok(())
  }
}
