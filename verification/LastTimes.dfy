/** The last time and address of a subscription, a file and a pair: those of its last recorded request,
    and before the first one what the database began with. */
module LastTimes {
  import opened Wrappers
  import opened Schema
  import opened Transactions
  import opened Preservation
  import opened Server
  import opened Counting
  import opened Statistics
  import opened Effects
  import opened Lines
  import opened Evolution

  /** The access of the last request of a run that recorded an event of this kind. */
  ghost function LastAccess(cfg: Config, start: System, actions: seq<Action>, p: Pattern): Option<Access> {
    if actions == [] then None
    else
      var before, action := actions[..|actions| - 1], actions[|actions| - 1];
      var s := Run(cfg, start, before);
      if RecordsNow(s, action) && Matches(p, EventOf(s, action)) then Some(action.access)
      else LastAccess(cfg, start, before, p)
  }

  function EventOf(s: System, action: Action): Event
    requires RecordsNow(s, action)
  {
    var f := s.fetches[action.fetch];
    Event(action.fetch, f.subId, FileIdOf(f), f.sub.revision)
  }

  /** A time and an address, as a row shows them. */
  datatype Last = Last(at: Option<string>, ip: string)

  function OfSub(db: Db, id: int): Last {
    if id in db.subs then Last(db.subs[id].lastFetchedAt, db.subs[id].lastFetchedIp) else Last(None, "")
  }

  function OfFile(db: Db, id: int): Last {
    if id in db.files then Last(db.files[id].lastDownloadedAt, db.files[id].lastDownloadedIp) else Last(None, "")
  }

  function OfPair(db: Db, k: Pair): Last {
    if k in db.stats then Last(Some(db.stats[k].lastDownloadedAt), db.stats[k].lastDownloadedIp) else Last(None, "")
  }

  function Shown(access: Option<Access>, before: Last): Last {
    match access
    case Some(a) => Last(Some(a.now), a.ip)
    case None => before
  }

  // ---- One step ----

  /** No row's last time or address changes; what is new has none. */
  ghost predicate SameLasts(db: Db, db': Db) {
    && (forall id :: id in db'.subs ==> OfSub(db', id) == OfSub(db, id))
    && (forall id :: id in db'.files ==> OfFile(db', id) == OfFile(db, id))
    && (forall k :: k in db'.stats ==> OfPair(db', k) == OfPair(db, k))
    && (forall k :: k in db'.stats ==> k in db.stats)
  }

  lemma CommitKeepsLasts(db: Db, op: Op)
    requires Integrity(db) && Refusal(db, op).None?
    ensures SameLasts(db, Commit(db, op))
  {
    if KeepsRows(op) {
      KeepsRowsSame(db, op);
      RowsKeepLasts(db, op);
    } else if op.CreateText? || op.CreateFileSub? {
      NewRowHasNoLast(db, op);
    }
  }

  lemma RowsKeepLasts(db: Db, op: Op)
    requires KeepsRows(op) && Refusal(db, op).None? && SameRows(db, Commit(db, op))
    ensures forall id :: id in db.subs ==> OfSub(Commit(db, op), id) == OfSub(db, id)
  {
  }

  lemma NewRowHasNoLast(db: Db, op: Op)
    requires Integrity(db) && (op.CreateText? || op.CreateFileSub?) && Refusal(db, op).None?
    ensures SameLasts(db, Commit(db, op))
  {
  }

  lemma EditKeepsLasts(db: Db, op: Op)
    requires Integrity(db)
    ensures SameLasts(db, Apply(db, op))
  {
    if Refusal(db, op).None? {
      CommitKeepsLasts(db, op);
    }
  }

  lemma FilesKeepLasts(cfg: Config, db: Db, job: Job, now: string, contentType: string, fault: bool)
    requires Integrity(db)
    ensures SameLasts(db, DbAfter(cfg, db, job, now, contentType, fault))
  {
  }

  lemma OtherKeepsLasts(cfg: Config, s: System, action: Action)
    requires Integrity(s.db) && !action.Edit? && !action.Advance? && !action.Work? && !action.Crash?
    ensures SameLasts(s.db, Step(cfg, s, action).db)
  {
  }

  lemma QuietKeepsLasts(cfg: Config, s: System, action: Action)
    requires Integrity(s.db) && !RecordsNow(s, action)
    ensures SameLasts(s.db, Step(cfg, s, action).db)
  {
    match action
    case Edit(op) => EditKeepsLasts(s.db, op);
    case Crash(kept) => EditKeepsLasts(s.db, Migrate);
    case Advance(t, a, fault) =>
    case Work(t, now, contentType, fate) =>
      if t in s.jobs {
        FilesKeepLasts(cfg, s.db, s.jobs[t], now, contentType, fate.Fails?);
      }
    case _ => OtherKeepsLasts(cfg, s, action);
  }

  /** A record sets time and address where it counts, and nowhere else. */
  lemma RecordSetsLasts(s: System, t: int, a: Access, fault: bool)
    requires RequestsOk(s) && RecordsNow(s, Advance(t, a, fault))
    ensures var db', e := StepFetch(s, t, a, fault).db, EventOf(s, Advance(t, a, fault));
            && (forall id :: id in db'.subs ==>
                  OfSub(db', id) == if Matches(BySub(id), e) then Last(Some(a.now), a.ip) else OfSub(s.db, id))
            && (forall id :: id in db'.files && id > 0 ==>
                  OfFile(db', id) == if Matches(ByFile(id), e) then Last(Some(a.now), a.ip) else OfFile(s.db, id))
            && (forall k :: k in db'.stats && k.file > 0 ==>
                  OfPair(db', k) == if Matches(ByPair(k.file, k.sub), e) then Last(Some(a.now), a.ip)
                                    else OfPair(s.db, k))
  {
    var f := s.fetches[t];
    assert FetchOk(s.db, f);
    RecordWritesSub(s.db, f.subId, FileIdOf(f), f.sub.revision, a);
    RecordWritesFile(s.db, f.subId, FileIdOf(f), f.sub.revision, a);
  }

  // ---- All runs ----

  /** Every last time and address is that of the last record; those of rows that the run created are
      empty until then. */
  ghost predicate Current(cfg: Config, base: Db, start: System, actions: seq<Action>) {
    var db := Run(cfg, start, actions).db;
    && (forall id :: id in db.subs ==>
          OfSub(db, id) == Shown(LastAccess(cfg, start, actions, BySub(id)), OfSub(base, id)))
    && (forall id :: id in db.files ==>
          OfFile(db, id) == Shown(LastAccess(cfg, start, actions, ByFile(id)), OfFile(base, id)))
    && (forall k :: k in db.stats ==>
          OfPair(db, k) == Shown(LastAccess(cfg, start, actions, ByPair(k.file, k.sub)), OfPair(base, k)))
  }

  lemma {:induction false} LastAccessHasEvent(cfg: Config, start: System, actions: seq<Action>, p: Pattern)
    returns (i: int)
    requires LastAccess(cfg, start, actions, p).Some?
    ensures var h := Run(cfg, start, actions).history; 0 <= i < |h| && Matches(p, h[i])
  {
    var before, action := actions[..|actions| - 1], actions[|actions| - 1];
    var s := Run(cfg, start, before);
    StepRecords(cfg, s, action);
    if RecordsNow(s, action) && Matches(p, EventOf(s, action)) {
      RecordedNow(cfg, s, action);
      i := |s.history|;
    } else {
      i := LastAccessHasEvent(cfg, start, before, p);
    }
  }

  lemma RecordedNow(cfg: Config, s: System, action: Action)
    requires RecordsNow(s, action)
    ensures Step(cfg, s, action).history == s.history + [EventOf(s, action)]
  {
  }

  /** Ids that were not given out yet occur in no event, and not at the beginning. */
  lemma NewSubHasNone(cfg: Config, base: Db, blobs: map<string, Bytes>, actions: seq<Action>, id: int)
    requires Integrity(base) && base.counted && id >= Run(cfg, Started(base, blobs), actions).db.nextSub
    ensures LastAccess(cfg, Started(base, blobs), actions, BySub(id)).None? && OfSub(base, id) == Last(None, "")
  {
    RunInv(cfg, base, blobs, actions);
    var s := Run(cfg, Started(base, blobs), actions);
    forall i | 0 <= i < |s.history| ensures s.history[i].sub < s.db.nextSub {
      assert EventMark(s.history[i]) in Marks(base, s);
    }
    if LastAccess(cfg, Started(base, blobs), actions, BySub(id)).Some? {
      var i := LastAccessHasEvent(cfg, Started(base, blobs), actions, BySub(id));
    }
  }

  lemma NewFileHasNone(cfg: Config, base: Db, blobs: map<string, Bytes>, actions: seq<Action>, id: int)
    requires Integrity(base) && base.counted && id >= Run(cfg, Started(base, blobs), actions).db.nextFile
    ensures LastAccess(cfg, Started(base, blobs), actions, ByFile(id)).None? && OfFile(base, id) == Last(None, "")
  {
    RunInv(cfg, base, blobs, actions);
    var s := Run(cfg, Started(base, blobs), actions);
    forall i | 0 <= i < |s.history| ensures s.history[i].file < s.db.nextFile {
      assert EventOk(s.db, s.history[i]);
    }
    if LastAccess(cfg, Started(base, blobs), actions, ByFile(id)).Some? {
      var i := LastAccessHasEvent(cfg, Started(base, blobs), actions, ByFile(id));
    }
  }

  lemma LastAccessStep(cfg: Config, start: System, before: seq<Action>, action: Action, p: Pattern)
    ensures var s := Run(cfg, start, before);
            LastAccess(cfg, start, before + [action], p)
            == if RecordsNow(s, action) && Matches(p, EventOf(s, action)) then Some(action.access)
               else LastAccess(cfg, start, before, p)
  {
    assert (before + [action])[..|before|] == before;
  }

  /** A step that records nothing. */
  lemma QuietStaysCurrent(cfg: Config, base: Db, blobs: map<string, Bytes>, before: seq<Action>, action: Action)
    requires Integrity(base) && base.counted && Current(cfg, base, Started(base, blobs), before)
    requires !RecordsNow(Run(cfg, Started(base, blobs), before), action)
    ensures Current(cfg, base, Started(base, blobs), before + [action])
  {
    var start := Started(base, blobs);
    var s := Run(cfg, start, before);
    var db' := Step(cfg, s, action).db;
    RunInv(cfg, base, blobs, before);
    QuietKeepsLasts(cfg, s, action);
    StepDescends(cfg, s, action);
    RunOneMore(cfg, start, before, action);
    forall id | id in db'.subs
      ensures OfSub(db', id) == Shown(LastAccess(cfg, start, before + [action], BySub(id)), OfSub(base, id))
    {
      LastAccessStep(cfg, start, before, action, BySub(id));
      assert SubDescends(s.db, db', id);
      if id !in s.db.subs {
        NewSubHasNone(cfg, base, blobs, before, id);
      }
    }
    forall id | id in db'.files
      ensures OfFile(db', id) == Shown(LastAccess(cfg, start, before + [action], ByFile(id)), OfFile(base, id))
    {
      LastAccessStep(cfg, start, before, action, ByFile(id));
      assert FileDescends(s.db, db', id);
      if id !in s.db.files {
        NewFileHasNone(cfg, base, blobs, before, id);
      }
    }
    forall k | k in db'.stats
      ensures OfPair(db', k) == Shown(LastAccess(cfg, start, before + [action], ByPair(k.file, k.sub)), OfPair(base, k))
    {
      LastAccessStep(cfg, start, before, action, ByPair(k.file, k.sub));
    }
  }

  lemma RecordStaysCurrent(cfg: Config, base: Db, blobs: map<string, Bytes>, before: seq<Action>, action: Action)
    requires Integrity(base) && base.counted && Current(cfg, base, Started(base, blobs), before)
    requires RecordsNow(Run(cfg, Started(base, blobs), before), action)
    ensures Current(cfg, base, Started(base, blobs), before + [action])
  {
    var start := Started(base, blobs);
    var s := Run(cfg, start, before);
    var db', e := Step(cfg, s, action).db, EventOf(s, action);
    RunInv(cfg, base, blobs, before);
    RecordSetsLasts(s, action.fetch, action.access, action.fault);
    RecordKeepsRows(s, action.fetch, action.access, action.fault);
    RunOneMore(cfg, start, before, action);
    forall id | id in db'.subs
      ensures OfSub(db', id) == Shown(LastAccess(cfg, start, before + [action], BySub(id)), OfSub(base, id))
    {
      LastAccessStep(cfg, start, before, action, BySub(id));
    }
    forall id | id in db'.files
      ensures OfFile(db', id) == Shown(LastAccess(cfg, start, before + [action], ByFile(id)), OfFile(base, id))
    {
      LastAccessStep(cfg, start, before, action, ByFile(id));
    }
    forall k | k in db'.stats
      ensures OfPair(db', k) == Shown(LastAccess(cfg, start, before + [action], ByPair(k.file, k.sub)), OfPair(base, k))
    {
      LastAccessStep(cfg, start, before, action, ByPair(k.file, k.sub));
    }
  }

  lemma RecordKeepsRows(s: System, t: int, a: Access, fault: bool)
    requires Integrity(s.db) && RequestsOk(s) && RecordsNow(s, Advance(t, a, fault))
    ensures var db', e := StepFetch(s, t, a, fault).db, EventOf(s, Advance(t, a, fault));
            && db'.subs.Keys == s.db.subs.Keys && db'.files.Keys == s.db.files.Keys
            && (forall k :: k in db'.stats ==> k in s.db.stats || Matches(ByPair(k.file, k.sub), e))
            && (forall id :: id in db'.files ==> id > 0) && (forall k :: k in db'.stats ==> k.file > 0)
  {
    var f := s.fetches[t];
    RecordWritesSub(s.db, f.subId, FileIdOf(f), f.sub.revision, a);
    RecordWritesFile(s.db, f.subId, FileIdOf(f), f.sub.revision, a);
  }

  /** In every run, from any consistent database. */
  lemma {:induction false} LastTimesAreOfLastRecords(cfg: Config, base: Db, blobs: map<string, Bytes>,
                                                     actions: seq<Action>)
    requires Integrity(base) && base.counted
    ensures Current(cfg, base, Started(base, blobs), actions)
  {
    if actions != [] {
      var before, action := actions[..|actions| - 1], actions[|actions| - 1];
      LastTimesAreOfLastRecords(cfg, base, blobs, before);
      assert actions == before + [action];
      if RecordsNow(Run(cfg, Started(base, blobs), before), action) {
        RecordStaysCurrent(cfg, base, blobs, before, action);
      } else {
        QuietStaysCurrent(cfg, base, blobs, before, action);
      }
    }
  }
}
