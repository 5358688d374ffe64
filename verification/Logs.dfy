/** The access log against the counters: a surviving subscription has at most as many log lines as
    fetches, and exactly as many while no line was cleared or expired. */
module Logs {
  import opened Wrappers
  import opened Schema
  import opened Transactions
  import opened Preservation
  import opened Server
  import opened Counting
  import opened Statistics

  function LogsOf(db: Db, id: int): set<int> {
    set l | l in db.logs && db.logs[l].subId == id
  }

  ghost predicate LogsWithin(db: Db) {
    forall id :: id in db.subs ==> |LogsOf(db, id)| <= db.subs[id].fetchCount
  }

  ghost predicate LogsExact(db: Db) {
    forall id :: id in db.subs ==> |LogsOf(db, id)| == db.subs[id].fetchCount
  }

  /** Log lines of surviving subscriptions are kept, or at most removed; no counter changes. */
  ghost predicate OnlyLoses(db: Db, db': Db) {
    forall id :: id in db'.subs ==>
      if id in db.subs then LogsOf(db', id) <= LogsOf(db, id) && db'.subs[id].fetchCount == db.subs[id].fetchCount
      else LogsOf(db', id) == {} && db'.subs[id].fetchCount == 0
  }

  ghost predicate KeepsAll(db: Db, db': Db) {
    OnlyLoses(db, db') && forall id :: id in db'.subs && id in db.subs ==> LogsOf(db', id) == LogsOf(db, id)
  }

  lemma SmallerSet(a: set<int>, b: set<int>)
    requires a <= b
    ensures |a| <= |b|
  {
    assert b == a + (b - a);
  }

  lemma LosingStaysWithin(db: Db, db': Db)
    requires LogsWithin(db) && OnlyLoses(db, db')
    ensures LogsWithin(db')
  {
    forall id | id in db'.subs ensures |LogsOf(db', id)| <= db'.subs[id].fetchCount {
      if id in db.subs {
        SmallerSet(LogsOf(db', id), LogsOf(db, id));
      }
    }
  }

  // ---- Edits ----

  predicate RemovesLogs(op: Op) { op.ClearLogs? || op.CleanupLogs? }

  /** How an edit treats the lines of a surviving subscription. */
  lemma LinesAfter(db: Db, op: Op, id: int)
    requires Integrity(db) && db.counted && Refusal(db, op).None? && id in Commit(db, op).subs && id in db.subs
    ensures LogsOf(Commit(db, op), id) <= LogsOf(db, id)
    ensures !RemovesLogs(op) ==> LogsOf(Commit(db, op), id) == LogsOf(db, id)
  {
    if KeepsRows(op) {
      KeepsRowsSame(db, op);
    }
  }

  lemma EditLoses(db: Db, op: Op)
    requires Integrity(db) && db.counted
    ensures OnlyLoses(db, Apply(db, op))
    ensures !RemovesLogs(op) ==> KeepsAll(db, Apply(db, op))
  {
    var db' := Apply(db, op);
    ApplyEdits(db, op);
    forall id | id in db'.subs
      ensures id in db.subs ==> LogsOf(db', id) <= LogsOf(db, id)
      ensures id in db.subs && !RemovesLogs(op) ==> LogsOf(db', id) == LogsOf(db, id)
      ensures id !in db.subs ==> LogsOf(db', id) == {}
    {
      if id in db.subs {
        if Refusal(db, op).None? {
          LinesAfter(db, op, id);
        }
      } else {
        NewHasNoLines(db, op, id);
      }
    }
  }

  /** No edit adds a line or changes one. */
  lemma LinesOnlyGo(db: Db, op: Op, l: int)
    requires l in Apply(db, op).logs
    ensures l in db.logs && Apply(db, op).logs[l] == db.logs[l]
  {
  }

  lemma NewHasNoLines(db: Db, op: Op, id: int)
    requires Integrity(db) && id !in db.subs
    ensures LogsOf(Apply(db, op), id) == {}
  {
    forall l ensures l !in LogsOf(Apply(db, op), id) {
      if l in Apply(db, op).logs {
        LinesOnlyGo(db, op, l);
      }
    }
  }

  lemma SameLogsKeep(db: Db, db': Db)
    requires forall id :: id in db'.subs <==> id in db.subs
    requires forall id :: id in db.subs ==> db'.subs[id].fetchCount == db.subs[id].fetchCount
    requires forall l :: l in db'.logs <==> l in db.logs
    requires forall l :: l in db.logs ==> db'.logs[l].subId == db.logs[l].subId
    ensures KeepsAll(db, db')
  {
    forall id | id in db.subs ensures LogsOf(db', id) == LogsOf(db, id) {
      forall l ensures l in LogsOf(db', id) <==> l in LogsOf(db, id) {
      }
    }
  }

  lemma SetEnabledKeepsLines(db: Db, id: int, enabled: bool, now: string)
    ensures KeepsAll(db, SetEnabled(db, id, enabled, now))
  {
    SameLogsKeep(db, SetEnabled(db, id, enabled, now));
  }

  lemma FilesKeepLines(cfg: Config, db: Db, job: Job, now: string, contentType: string, fault: bool)
    ensures KeepsAll(db, DbAfter(cfg, db, job, now, contentType, fault))
  {
    SameLogsKeep(db, DbAfter(cfg, db, job, now, contentType, fault));
  }

  // ---- Records ----

  lemma RecordedSet(db: Db, subId: int, fileId: int, revision: nat, a: Access, id: int)
    requires CanRecord(db, subId, fileId) && db.nextLog !in db.logs
    ensures LogsOf(Record(db, subId, fileId, revision, a), id)
            == LogsOf(db, id) + (if id == subId then {db.nextLog} else {})
  {
    var db' := Record(db, subId, fileId, revision, a);
    forall l ensures l in LogsOf(db', id) <==> l in LogsOf(db, id) || (id == subId && l == db.nextLog) {
      assert l != db.nextLog ==> (l in db'.logs <==> l in db.logs);
    }
  }

  lemma RecordedLines(db: Db, subId: int, fileId: int, revision: nat, a: Access, id: int)
    requires IdsBelow(db) && CanRecord(db, subId, fileId) && id in db.subs
    ensures var db' := Record(db, subId, fileId, revision, a);
            && id in db'.subs
            && |LogsOf(db', id)| == |LogsOf(db, id)| + (if id == subId then 1 else 0)
            && db'.subs[id].fetchCount == db.subs[id].fetchCount + (if id == subId then 1 else 0)
  {
    RecordedSet(db, subId, fileId, revision, a, id);
    assert db.nextLog !in LogsOf(db, id);
  }

  // ---- Every step ----

  /** A step that is no log removal keeps the difference of lines and fetches of every surviving
      subscription; a log removal does not raise it. */
  ghost predicate Balanced(db: Db, db': Db, exact: bool) {
    forall id :: id in db'.subs ==> LineBalance(db, db', exact, id)
  }

  ghost predicate LineBalance(db: Db, db': Db, exact: bool, id: int)
    requires id in db'.subs
  {
    var now := |LogsOf(db', id)| - db'.subs[id].fetchCount;
    var was := if id in db.subs then |LogsOf(db, id)| - db.subs[id].fetchCount else 0;
    now <= was && (exact ==> now == was)
  }

  lemma LosingBalanced(db: Db, db': Db)
    requires OnlyLoses(db, db')
    ensures Balanced(db, db', false)
    ensures KeepsAll(db, db') ==> Balanced(db, db', true)
  {
    forall id | id in db'.subs
      ensures LineBalance(db, db', false, id) && (KeepsAll(db, db') ==> LineBalance(db, db', true, id))
    {
      if id in db.subs {
        SmallerSet(LogsOf(db', id), LogsOf(db, id));
      }
    }
  }

  lemma RecordBalanced(db: Db, subId: int, fileId: int, revision: nat, a: Access)
    requires IdsBelow(db) && CanRecord(db, subId, fileId)
    ensures Balanced(db, Record(db, subId, fileId, revision, a), true)
  {
    forall id | id in db.subs ensures LineBalance(db, Record(db, subId, fileId, revision, a), true, id) {
      RecordedLines(db, subId, fileId, revision, a, id);
    }
  }

  predicate Removal(action: Action) {
    action.Edit? && RemovesLogs(action.op)
  }

  lemma EditBalanced(db: Db, op: Op)
    requires Integrity(db) && db.counted
    ensures Balanced(db, Apply(db, op), !RemovesLogs(op))
  {
    EditLoses(db, op);
    LosingBalanced(db, Apply(db, op));
  }

  lemma SetEnabledBalanced(db: Db, id: int, enabled: bool, now: string)
    ensures Balanced(db, SetEnabled(db, id, enabled, now), true)
  {
    SetEnabledKeepsLines(db, id, enabled, now);
    LosingBalanced(db, SetEnabled(db, id, enabled, now));
  }

  lemma AdvanceBalanced(s: System, t: int, a: Access, fault: bool)
    requires IdsBelow(s.db)
    ensures Balanced(s.db, StepFetch(s, t, a, fault).db, true)
  {
    if t in s.fetches && Records(s.db, s.fetches[t], fault) {
      var f := s.fetches[t];
      RecordBalanced(s.db, f.subId, FileIdOf(f), f.sub.revision, a);
    }
  }

  lemma WorkBalanced(cfg: Config, s: System, t: int, now: string, contentType: string, fate: Fate)
    ensures Balanced(s.db, StepWork(cfg, s, t, now, contentType, fate).db, true)
  {
    if t in s.jobs {
      var db' := DbAfter(cfg, s.db, s.jobs[t], now, contentType, fate.Fails?);
      FilesKeepLines(cfg, s.db, s.jobs[t], now, contentType, fate.Fails?);
      LosingBalanced(s.db, db');
    }
  }

  lemma EditActionBalanced(cfg: Config, s: System, action: Action)
    requires Integrity(s.db) && s.db.counted && IsEdit(action)
    ensures Balanced(s.db, Step(cfg, s, action).db, !Removal(action))
  {
    match action
    case Edit(op) => EditBalanced(s.db, op);
    case Toggle(subId, now) =>
      if subId in s.db.subs {
        SetEnabledBalanced(s.db, subId, !s.db.subs[subId].enabled, now);
      }
    case ToggleWrite(flip, now) =>
      if flip in s.flips {
        SetEnabledBalanced(s.db, s.flips[flip].subId, s.flips[flip].enable, now);
      }
    case Crash(kept) => EditBalanced(s.db, Migrate);
  }

  lemma StepBalanced(cfg: Config, s: System, action: Action)
    requires Integrity(s.db) && s.db.counted
    ensures Balanced(s.db, Step(cfg, s, action).db, !Removal(action))
  {
    if IsEdit(action) {
      EditActionBalanced(cfg, s, action);
    } else {
      match action
      case Advance(t, a, fault) => AdvanceBalanced(s, t, a, fault);
      case Work(t, now, contentType, fate) => WorkBalanced(cfg, s, t, now, contentType, fate);
      case _ =>
    }
  }

  lemma BalancedBounds(db: Db, db': Db, exact: bool)
    requires Balanced(db, db', exact)
    ensures LogsWithin(db) ==> LogsWithin(db')
    ensures exact && LogsExact(db) ==> LogsExact(db')
  {
    forall id | id in db'.subs
      ensures LogsWithin(db) ==> |LogsOf(db', id)| <= db'.subs[id].fetchCount
      ensures exact && LogsExact(db) ==> |LogsOf(db', id)| == db'.subs[id].fetchCount
    {
      assert LineBalance(db, db', exact, id);
    }
  }

  /** Every run keeps the lines within the fetches. */
  lemma {:induction false} LinesNeverExceedFetches(cfg: Config, base: Db, blobs: map<string, Bytes>,
                                                   actions: seq<Action>)
    requires Integrity(base) && base.counted && LogsWithin(base)
    ensures LogsWithin(Run(cfg, Started(base, blobs), actions).db)
  {
    if actions != [] {
      var before, action := actions[..|actions| - 1], actions[|actions| - 1];
      var s := Run(cfg, Started(base, blobs), before);
      LinesNeverExceedFetches(cfg, base, blobs, before);
      RunInv(cfg, base, blobs, before);
      StepBalanced(cfg, s, action);
      BalancedBounds(s.db, Step(cfg, s, action).db, !Removal(action));
    }
  }

  /** As long as no line was cleared or expired, each fetch has its line and each line its fetch. */
  lemma {:induction false} EveryFetchHasItsLine(cfg: Config, base: Db, blobs: map<string, Bytes>, actions: seq<Action>)
    requires Integrity(base) && base.counted && LogsExact(base)
    requires forall i :: 0 <= i < |actions| ==> !Removal(actions[i])
    ensures LogsExact(Run(cfg, Started(base, blobs), actions).db)
  {
    if actions != [] {
      var before, action := actions[..|actions| - 1], actions[|actions| - 1];
      var s := Run(cfg, Started(base, blobs), before);
      EveryFetchHasItsLine(cfg, base, blobs, before);
      RunInv(cfg, base, blobs, before);
      StepBalanced(cfg, s, action);
      BalancedBounds(s.db, Step(cfg, s, action).db, true);
    }
  }
}
