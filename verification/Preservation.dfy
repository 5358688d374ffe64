/** What every transaction keeps: the declared constraints, the attachment of enabled
    file subscriptions, and a common shape of all edits that later proofs rely on. */
module Preservation {
  import opened Wrappers
  import opened Schema
  import opened Transactions

  // ---- Constraints ----

  /** An edit of rows that removes none and adds none. */
  ghost predicate SameRows(db: Db, db': Db) {
    && db'.files == db.files && db'.stats == db.stats && db'.logs == db.logs
    && db'.nextSub == db.nextSub && db'.nextFile == db.nextFile && db'.nextLog == db.nextLog
    && (forall id :: id in db'.subs <==> id in db.subs)
    && (forall id :: id in db'.subs ==> db'.subs[id].kind == db.subs[id].kind)
  }

  predicate KeepsRows(op: Op) {
    !op.CreateText? && !op.CreateFileSub? && !op.DeleteSub? && !op.ClearLogs? && !op.CleanupLogs?
  }

  lemma KeepsRowsSame(db: Db, op: Op)
    requires KeepsRows(op) && Refusal(db, op).None?
    ensures SameRows(db, Commit(db, op))
  {
  }

  lemma KeepsRowsReferences(db: Db, op: Op)
    requires References(db) && KeepsRows(op) && Refusal(db, op).None? && SameRows(db, Commit(db, op))
    ensures forall id :: id in db.subs && Commit(db, op).subs[id].fileId.Ref? ==>
              db.subs[id].kind == FileKind && Commit(db, op).subs[id].fileId.id in db.files
  {
  }

  predicate PathsUnique(db: Db) {
    forall i, j :: i in db.subs && j in db.subs && db.subs[i].path == db.subs[j].path ==> i == j
  }

  /** An edit that moves no subscription to another path. */
  predicate KeepsPaths(op: Op) {
    KeepsRows(op) && !op.UpdateText? && !op.UpdateFileSub?
  }

  lemma KeepsPathsSame(db: Db, op: Op, id: int)
    requires KeepsPaths(op) && Refusal(db, op).None? && id in Commit(db, op).subs
    ensures id in db.subs && Commit(db, op).subs[id].path == db.subs[id].path
  {
  }

  lemma MovedPathUnique(db: Db, op: Op)
    requires PathsUnique(db) && (op.UpdateText? || op.UpdateFileSub?) && Refusal(db, op).None?
    ensures PathsUnique(Commit(db, op))
  {
  }

  lemma KeepsRowsPaths(db: Db, op: Op)
    requires PathsUnique(db) && KeepsRows(op) && Refusal(db, op).None?
    ensures PathsUnique(Commit(db, op))
  {
    if KeepsPaths(op) {
      forall id | id in Commit(db, op).subs ensures id in db.subs && Commit(db, op).subs[id].path == db.subs[id].path {
        KeepsPathsSame(db, op, id);
      }
    } else {
      MovedPathUnique(db, op);
    }
  }

  lemma CommitKeepsIntegrity(db: Db, op: Op)
    requires Integrity(db) && Refusal(db, op).None?
    ensures Integrity(Commit(db, op))
  {
    if KeepsRows(op) {
      KeepsRowsSame(db, op);
      KeepsRowsReferences(db, op);
      KeepsRowsPaths(db, op);
      SameRowsKeepIntegrity(db, Commit(db, op));
    } else if op.CreateText? || op.CreateFileSub? {
      NewRowKeepsIntegrity(db, op);
    }
  }

  lemma SameRowsKeepIntegrity(db: Db, db': Db)
    requires Integrity(db) && SameRows(db, db')
    requires forall id :: id in db'.subs && db'.subs[id].fileId.Ref? ==>
               db'.subs[id].kind == FileKind && db'.subs[id].fileId.id in db.files
    requires PathsUnique(db')
    ensures Integrity(db')
  {
  }

  lemma NewRowKeepsIntegrity(db: Db, op: Op)
    requires Integrity(db) && Refusal(db, op).None? && (op.CreateText? || op.CreateFileSub?)
    ensures Integrity(Commit(db, op))
  {
  }

  lemma ApplyKeepsIntegrity(db: Db, op: Op)
    requires Integrity(db)
    ensures Integrity(Apply(db, op))
  {
    if Refusal(db, op).None? {
      CommitKeepsIntegrity(db, op);
    }
  }

  /** Recording an access keeps the identity columns of every row. */
  ghost predicate SameIdentities(db: Db, db': Db) {
    && (forall i :: i in db'.subs <==> i in db.subs)
    && (forall i :: i in db'.subs ==> SameIdentity(db'.subs[i], db.subs[i]))
    && (forall f :: f in db'.files <==> f in db.files)
    && (forall f :: f in db'.files ==> SameContent(db'.files[f], db.files[f]))
  }

  predicate SameIdentity(a: Sub, b: Sub) {
    a.path == b.path && a.kind == b.kind && a.fileId == b.fileId
  }

  /** The columns of a file row that never change. */
  predicate SameContent(a: File, b: File) {
    a.md5 == b.md5 && a.sha256 == b.sha256 && a.size == b.size && a.storageKey == b.storageKey
  }

  lemma RecordKeepsIdentities(db: Db, subId: int, fileId: int, revision: nat, a: Access)
    requires CanRecord(db, subId, fileId)
    ensures SameIdentities(db, Record(db, subId, fileId, revision, a))
  {
  }

  lemma SameIdentitiesUnique(db: Db, db': Db)
    requires Unique(db) && SameIdentities(db, db')
    ensures Unique(db')
  {
  }

  lemma SameIdentitiesReferences(db: Db, db': Db)
    requires References(db) && SameIdentities(db, db')
    requires forall k :: k in db'.stats && k !in db.stats ==> k.file in db.files && k.sub in db.subs
    requires forall l :: l in db'.logs && !(l in db.logs && db'.logs[l] == db.logs[l]) ==>
               db'.logs[l].subId in db.subs && (db'.logs[l].fileId.Ref? ==> db'.logs[l].fileId.id in db.files)
    ensures References(db')
  {
  }

  lemma RecordKeepsReferences(db: Db, subId: int, fileId: int, revision: nat, a: Access)
    requires References(db) && CanRecord(db, subId, fileId)
    ensures References(Record(db, subId, fileId, revision, a))
  {
    RecordKeepsIdentities(db, subId, fileId, revision, a);
    SameIdentitiesReferences(db, Record(db, subId, fileId, revision, a));
  }

  lemma RecordKeepsIdsBelow(db: Db, subId: int, fileId: int, revision: nat, a: Access)
    requires IdsBelow(db) && CanRecord(db, subId, fileId)
    ensures IdsBelow(Record(db, subId, fileId, revision, a))
  {
  }

  lemma RecordKeepsIntegrity(db: Db, subId: int, fileId: int, revision: nat, a: Access)
    requires Integrity(db) && CanRecord(db, subId, fileId)
    ensures Integrity(Record(db, subId, fileId, revision, a))
  {
    RecordKeepsIdentities(db, subId, fileId, revision, a);
    SameIdentitiesUnique(db, Record(db, subId, fileId, revision, a));
    RecordKeepsReferences(db, subId, fileId, revision, a);
    RecordKeepsIdsBelow(db, subId, fileId, revision, a);
  }

  lemma InsertFileKeepsIntegrity(db: Db, file: File)
    requires Integrity(db) && CanCreateFile(db, file.sha256, file.storageKey)
    ensures Integrity(InsertFile(db, file))
  {
  }

  lemma RemoveFileKeepsIntegrity(db: Db, id: int)
    requires Integrity(db) && CanDeleteFile(db, id)
    ensures Integrity(RemoveFile(db, id))
  {
    var db' := RemoveFile(db, id);
    forall s | s in db'.subs && db'.subs[s].fileId.Ref?
      ensures db'.subs[s].fileId.id in db'.files
    {
      assert s !in Associated(db, id);
    }
  }

  // ---- Enabled implies attached ----

  lemma ApplyKeepsAttached(db: Db, op: Op)
    requires EnabledAttached(db)
    ensures EnabledAttached(Apply(db, op))
  {
  }

  /** SetSubscriptionEnabled carries no guard of its own: it keeps "enabled implies attached"
      exactly when it does not enable a file subscription that has no file. */
  lemma SetEnabledKeepsAttachedIff(db: Db, id: int, enabled: bool, now: string)
    requires EnabledAttached(db)
    ensures EnabledAttached(SetEnabled(db, id, enabled, now))
       <==> !(id in db.subs && enabled && db.subs[id].kind == FileKind && db.subs[id].fileId.Null?)
  {
    if id in db.subs && enabled && db.subs[id].kind == FileKind && db.subs[id].fileId.Null? {
      var db' := SetEnabled(db, id, enabled, now);
      assert db'.subs[id].enabled && db'.subs[id].fileId.Null?;
    }
  }

  // ---- The common shape of edits ----

  /** How one edit may change a surviving subscription row: its counters, revision and file
      stay, or a new revision begins with a count of zero. */
  predicate Evolves(a: Sub, b: Sub) {
    && b.kind == a.kind
    && b.fetchCount == a.fetchCount
    && ( (b.revision == a.revision && b.fileId == a.fileId && b.currentCount == a.currentCount)
      || (a.kind == FileKind && b.revision == a.revision + 1 && b.currentCount == 0))
  }

  predicate Untouched(row: Sub) {
    row.fetchCount == 0 && row.currentCount == 0 && row.revision == 0
  }

  ghost predicate Edits(db: Db, db': Db) {
    && db'.files == db.files && db'.nextFile == db.nextFile && db'.counted == db.counted
    && db'.nextSub >= db.nextSub
    && (forall id :: id in db'.subs ==>
          if id in db.subs then Evolves(db.subs[id], db'.subs[id])
          else db.nextSub <= id < db'.nextSub && Untouched(db'.subs[id]))
    && (forall k :: k in db'.stats <==> k in db.stats && k.sub in db'.subs)
    && (forall k :: k in db'.stats ==> db'.stats[k] == db.stats[k])
  }

  lemma SameRowsEdit(db: Db, db': Db)
    requires Integrity(db) && SameRows(db, db') && db'.counted == db.counted
    requires forall id :: id in db.subs ==> Evolves(db.subs[id], db'.subs[id])
    ensures Edits(db, db')
  {
    assert db'.stats == db.stats;
  }

  lemma ApplyEdits(db: Db, op: Op)
    requires Integrity(db) && db.counted
    ensures Edits(db, Apply(db, op))
  {
    if Refusal(db, op).None? {
      if KeepsRows(op) {
        KeepsRowsSame(db, op);
        RowsEvolve(db, op);
        SameRowsEdit(db, Commit(db, op));
      }
    }
  }

  lemma RowsEvolve(db: Db, op: Op)
    requires Integrity(db) && db.counted && KeepsRows(op) && Refusal(db, op).None?
    requires SameRows(db, Commit(db, op))
    ensures Commit(db, op).counted == db.counted
    ensures forall id :: id in db.subs ==> Evolves(db.subs[id], Commit(db, op).subs[id])
  {
  }

  lemma SetEnabledSameRows(db: Db, id: int, enabled: bool, now: string)
    ensures SameRows(db, SetEnabled(db, id, enabled, now)) && SetEnabled(db, id, enabled, now).counted == db.counted
  {
  }

  lemma SetEnabledSameIdentities(db: Db, id: int, enabled: bool, now: string)
    ensures SameIdentities(db, SetEnabled(db, id, enabled, now))
  {
  }

  lemma SetEnabledEvolves(db: Db, id: int, enabled: bool, now: string, i: int)
    requires i in db.subs
    ensures i in SetEnabled(db, id, enabled, now).subs && Evolves(db.subs[i], SetEnabled(db, id, enabled, now).subs[i])
  {
  }

  lemma SetEnabledKeepsIntegrity(db: Db, id: int, enabled: bool, now: string)
    requires Integrity(db)
    ensures Integrity(SetEnabled(db, id, enabled, now))
  {
    var db' := SetEnabled(db, id, enabled, now);
    SetEnabledSameRows(db, id, enabled, now);
    SetEnabledSameIdentities(db, id, enabled, now);
    SameIdentitiesUnique(db, db');
    SameIdentitiesReferences(db, db');
  }

  lemma SetEnabledEdits(db: Db, id: int, enabled: bool, now: string)
    requires Integrity(db)
    ensures Edits(db, SetEnabled(db, id, enabled, now))
  {
    SetEnabledSameRows(db, id, enabled, now);
    forall i | i in db.subs ensures Evolves(db.subs[i], SetEnabled(db, id, enabled, now).subs[i]) {
      SetEnabledEvolves(db, id, enabled, now, i);
    }
    SameRowsEdit(db, SetEnabled(db, id, enabled, now));
  }
}
