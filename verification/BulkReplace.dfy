/** Replacing the file of all associated subscriptions at once does what replacing it for each
    of them would do. */
module BulkReplace {
  import opened Wrappers
  import opened Schema
  import opened Transactions
  import opened StoreModel

  /** ReplaceSubscriptionFile for one subscription after the other, each at its own time. */
  function ReplaceEach(db: Db, ids: seq<int>, newFile: int, downloadName: string, times: seq<string>): Db
    requires |times| == |ids|
  {
    if ids == [] then db
    else
      var n := |ids| - 1;
      Apply(ReplaceEach(db, ids[..n], newFile, downloadName, times[..n]),
          ReplaceOne(ids[n], newFile, downloadName, times[n]))
  }

  function Timeless(row: Sub): Sub {
    row.(updatedAt := "")
  }

  /** The same database but for the `updated_at` column of subscriptions. */
  ghost predicate EqualUpToTimes(a: Db, b: Db) {
    && (forall id :: id in a.subs <==> id in b.subs)
    && (forall id :: id in a.subs && id in b.subs ==> Timeless(a.subs[id]) == Timeless(b.subs[id]))
    && a == b.(subs := a.subs)
  }

  predicate AllHit(db: Db, ids: seq<int>, oldFile: int) {
    forall i :: 0 <= i < |ids| ==> ids[i] in db.subs && Hit(db.subs[ids[i]], oldFile)
  }

  /** `each` is `db` with the listed subscriptions replaced, up to times. */
  ghost predicate ReplacedAt(db: Db, each: Db, ids: seq<int>, newFile: int, downloadName: string) {
    && each == db.(subs := each.subs) && each.subs.Keys == db.subs.Keys
    && (forall id :: id in db.subs && id !in ids ==> each.subs[id] == db.subs[id])
    && (forall id :: id in db.subs && id in ids ==>
          Timeless(each.subs[id]) == Timeless(BulkRow(db.subs[id], newFile, downloadName, "")))
  }

  lemma OneMoreReplaced(db: Db, before: Db, front: seq<int>, id: int, oldFile: int, newFile: int,
                        downloadName: string, time: string)
    requires ReplacedAt(db, before, front, newFile, downloadName) && id !in front
    requires id in db.subs && Hit(db.subs[id], oldFile) && oldFile != newFile && newFile in db.files
    ensures ReplacedAt(db, Apply(before, ReplaceOne(id, newFile, downloadName, time)), front + [id], newFile,
        downloadName)
  {
    var each := Apply(before, ReplaceOne(id, newFile, downloadName, time));
    assert each.subs == before.subs[id := ReplacedRow(db.subs[id], newFile, downloadName, time)];
    assert forall i :: i in front + [id] <==> i in front || i == id;
  }

  /** After a prefix of the subscriptions was replaced. */
  lemma {:induction false} PrefixReplaced(db: Db, ids: seq<int>, oldFile: int, newFile: int, downloadName: string,
                                          times: seq<string>)
    requires |times| == |ids| && oldFile != newFile && newFile in db.files
    requires NoDuplicates(ids) && AllHit(db, ids, oldFile)
    ensures ReplacedAt(db, ReplaceEach(db, ids, newFile, downloadName, times), ids, newFile, downloadName)
  {
    if ids != [] {
      var n := |ids| - 1;
      assert ids == ids[..n] + [ids[n]];
      PrefixReplaced(db, ids[..n], oldFile, newFile, downloadName, times[..n]);
      OneMoreReplaced(db, ReplaceEach(db, ids[..n], newFile, downloadName, times[..n]), ids[..n], ids[n], oldFile,
          newFile,
                      downloadName, times[n]);
    }
  }

  /** In whatever order and at whatever times the associated subscriptions are replaced one by one,
      the result is that of the bulk replacement, up to the times written. */
  lemma BulkRefinesSingles(db: Db, ids: seq<int>, oldFile: int, newFile: int, downloadName: string, now: string,
                           times: seq<string>)
    requires Refusal(db, ReplaceAll(oldFile, newFile, downloadName, now)).None? && oldFile != newFile
    requires |times| == |ids| && NoDuplicates(ids) && (forall id :: id in ids <==> id in HitRows(db, oldFile))
    ensures EqualUpToTimes(Apply(db, ReplaceAll(oldFile, newFile, downloadName, now)),
        ReplaceEach(db, ids, newFile, downloadName, times))
  {
    forall i | 0 <= i < |ids| ensures ids[i] in db.subs && Hit(db.subs[ids[i]], oldFile) {
      var id := ids[i];
      assert id in ids;
      assert id in HitRows(db, oldFile);
    }
    PrefixReplaced(db, ids, oldFile, newFile, downloadName, times);
    var bulk := Apply(db, ReplaceAll(oldFile, newFile, downloadName, now));
    var each := ReplaceEach(db, ids, newFile, downloadName, times);
    forall id | id in db.subs ensures Timeless(bulk.subs[id]) == Timeless(each.subs[id]) {
      assert id in ids <==> Hit(db.subs[id], oldFile);
    }
  }

  /** Which rows the bulk replacement rewrites, and how. */
  lemma BulkRows(db: Db, oldFile: int, newFile: int, downloadName: string, now: string)
    requires References(db) && Refusal(db, ReplaceAll(oldFile, newFile, downloadName, now)).None? && oldFile != newFile
    ensures var db' := Apply(db, ReplaceAll(oldFile, newFile, downloadName, now));
            && db' == db.(subs := db'.subs) && db'.subs.Keys == db.subs.Keys
            && (forall id :: id in db.subs ==>
                  db'.subs[id] == if id in Associated(db, oldFile)
                                  then BulkRow(db.subs[id], newFile, downloadName, now) else db.subs[id])
  {
    AssociatedAreHit(db, oldFile);
  }

  /** Only file subscriptions hold a reference, so the UPDATE's condition on the type excludes none. */
  lemma AssociatedAreHit(db: Db, oldFile: int)
    requires References(db)
    ensures Associated(db, oldFile) == HitRows(db, oldFile)
    ensures forall id :: id in db.subs ==> (id in Associated(db, oldFile) <==> Hit(db.subs[id], oldFile))
  {
    forall id ensures id in Associated(db, oldFile) <==> id in HitRows(db, oldFile) {
    }
  }

  /** The old file ends with no association, the new one with those of both; every other
      subscription, every file, statistic and log stays as it was. */
  lemma BulkMovesAssociations(db: Db, oldFile: int, newFile: int, downloadName: string, now: string)
    requires References(db) && Refusal(db, ReplaceAll(oldFile, newFile, downloadName, now)).None? && oldFile != newFile
    ensures var db' := Apply(db, ReplaceAll(oldFile, newFile, downloadName, now));
            && Associated(db', oldFile) == {}
            && Associated(db', newFile) == Associated(db, newFile) + Associated(db, oldFile)
            && |Associated(db', newFile)| == |Associated(db, newFile)| + |Associated(db, oldFile)|
            && |Associated(db, oldFile)| == |HitRows(db, oldFile)| > 0
            && (forall id :: id in db.subs && id !in Associated(db,
                oldFile) ==> id in db'.subs && db'.subs[id] == db.subs[id])
            && (forall id :: id in Associated(db, oldFile) ==>
                  db'.subs[id] == db.subs[id].(fileId := Ref(newFile), downloadName := downloadName, currentCount := 0,
                                               revision := db.subs[id].revision + 1, updatedAt := now))
  {
    var db' := Apply(db, ReplaceAll(oldFile, newFile, downloadName, now));
    BulkRows(db, oldFile, newFile, downloadName, now);
    AssociatedAreHit(db, oldFile);
    NoHits(db, oldFile);
    assert Associated(db', newFile) == Associated(db, newFile) + Associated(db, oldFile);
    assert Associated(db, newFile) !! Associated(db, oldFile);
  }

  /** With old and new the same file, or on any refusal, nothing changes at all. */
  lemma BulkChangesNothingElse(db: Db, oldFile: int, newFile: int, downloadName: string, now: string)
    ensures Apply(db, ReplaceAll(oldFile, newFile, downloadName, now)) == db
       <==> oldFile == newFile || oldFile !in db.files || newFile !in db.files || HitRows(db, oldFile) == {}
  {
    NoHits(db, oldFile);
    if oldFile != newFile && oldFile in db.files && newFile in db.files && HitRows(db, oldFile) != {} {
      var id :| id in db.subs && Hit(db.subs[id], oldFile);
      assert Apply(db, ReplaceAll(oldFile, newFile, downloadName, now)).subs[id].fileId == Ref(newFile);
    }
  }
}
