/** The access log and the last times over runs: every line was written by a recorded request with the
    access it had, and every last time and address is that of the last record. */
module Lines {
  import opened Wrappers
  import opened Schema
  import opened Transactions
  import opened Preservation
  import opened Server
  import opened Counting
  import opened Statistics
  import opened Evolution
  import opened Effects
  import Logs

  // ---- Lines ----

  /** A line some steps later: nothing but its reference may go, and only with the file. */
  predicate Kept(was: Log, line: Log, db: Db) {
    && line == was.(fileId := line.fileId)
    && (line.fileId == was.fileId || (line.fileId.Null? && was.fileId.Ref? && was.fileId.id !in db.files))
  }

  predicate AllKept(db: Db, db': Db) {
    && db.nextLog <= db'.nextLog
    && forall l :: l in db'.logs && l < db.nextLog ==> l in db.logs && Kept(db.logs[l], db'.logs[l], db')
  }

  lemma EditKeepsLines(db: Db, op: Op)
    requires IdsBelow(db)
    ensures AllKept(db, Apply(db, op))
  {
    forall l | l in Apply(db, op).logs ensures l in db.logs && Apply(db, op).logs[l] == db.logs[l] {
      Logs.LinesOnlyGo(db, op, l);
    }
  }

  lemma AdvanceKeepsLines(s: System, t: int, a: Access, fault: bool)
    requires IdsBelow(s.db)
    ensures AllKept(s.db, StepFetch(s, t, a, fault).db)
  {
    if t in s.fetches && Records(s.db, s.fetches[t], fault) {
      var f := s.fetches[t];
      RecordWritesLine(s.db, f.subId, FileIdOf(f), f.sub.revision, a);
    }
  }

  lemma FilesKeepLines(cfg: Config, db: Db, job: Job, now: string, contentType: string, fault: bool)
    requires IdsBelow(db)
    ensures AllKept(db, DbAfter(cfg, db, job, now, contentType, fault))
  {
  }

  lemma OtherKeepsLines(cfg: Config, s: System, action: Action)
    requires IdsBelow(s.db) && !action.Edit? && !action.Advance? && !action.Work? && !action.Crash?
    ensures AllKept(s.db, Step(cfg, s, action).db)
  {
  }

  lemma StepKeepsLines(cfg: Config, s: System, action: Action)
    requires IdsBelow(s.db)
    ensures AllKept(s.db, Step(cfg, s, action).db)
  {
    match action
    case Edit(op) => EditKeepsLines(s.db, op);
    case Crash(kept) => EditKeepsLines(s.db, Migrate);
    case Advance(t, a, fault) => AdvanceKeepsLines(s, t, a, fault);
    case Work(t, now, contentType, fate) =>
      if t in s.jobs {
        FilesKeepLines(cfg, s.db, s.jobs[t], now, contentType, fate.Fails?);
      }
    case _ => OtherKeepsLines(cfg, s, action);
  }

  lemma KeptOn(a: Db, b: Db, c: Db)
    requires AllKept(a, b) && AllKept(b, c) && Descends(b, c) && References(a) && IdsBelow(a)
    requires a.nextFile <= b.nextFile
    ensures AllKept(a, c)
  {
    forall l | l in c.logs && l < a.nextLog ensures l in a.logs && Kept(a.logs[l], c.logs[l], c) {
      assert Kept(a.logs[l], b.logs[l], b) && Kept(b.logs[l], c.logs[l], c);
      if a.logs[l].fileId.Ref? {
        assert FileDescends(b, c, a.logs[l].fileId.id);
      }
    }
  }

  /** Over any part of a run no line changes, but for the reference to a file that was deleted, and no
      number of a line is given out twice. */
  lemma {:induction false} RunKeepsLines(cfg: Config, base: Db, s: System, actions: seq<Action>)
    requires Inv(base, s)
    ensures AllKept(s.db, Run(cfg, s, actions).db)
  {
    if actions != [] {
      var before, action := actions[..|actions| - 1], actions[|actions| - 1];
      RunKeepsLines(cfg, base, s, before);
      RunKeeps(cfg, base, s, before);
      RunDescends(cfg, base, s, before);
      StepKeepsLines(cfg, Run(cfg, s, before), action);
      StepDescends(cfg, Run(cfg, s, before), action);
      KeptOn(s.db, Run(cfg, s, before).db, Run(cfg, s, actions).db);
    }
  }

  // ---- Events and their lines ----

  /** Step `m` recorded event `i`: it was a call of that request. */
  ghost predicate RecordedAt(cfg: Config, start: System, actions: seq<Action>, m: int, i: int, e: Event) {
    && 0 <= m < |actions| && actions[m].Advance? && actions[m].fetch == e.fetch
    && (var s := Run(cfg, start, actions[..m]);
        && |s.history| == i && e.fetch in s.fetches && Records(s.db, s.fetches[e.fetch], actions[m].fault)
        && e == Event(e.fetch, s.fetches[e.fetch].subId, FileIdOf(s.fetches[e.fetch]),
                      s.fetches[e.fetch].sub.revision))
  }

  lemma StepRecords(cfg: Config, s: System, action: Action)
    ensures var s' := Step(cfg, s, action);
            || s'.history == s.history
            || (action.Advance? && action.fetch in s.fetches && Records(s.db, s.fetches[action.fetch], action.fault)
                && s'.history == s.history + [Event(action.fetch, s.fetches[action.fetch].subId,
                       FileIdOf(s.fetches[action.fetch]), s.fetches[action.fetch].sub.revision)])
  {
  }

  lemma {:induction false} EventRecorded(cfg: Config, start: System, actions: seq<Action>, i: int) returns (m: int)
    requires start.history == [] && 0 <= i < |Run(cfg, start, actions).history|
    ensures RecordedAt(cfg, start, actions, m, i, Run(cfg, start, actions).history[i])
  {
    var before, action := actions[..|actions| - 1], actions[|actions| - 1];
    StepRecords(cfg, Run(cfg, start, before), action);
    if i < |Run(cfg, start, before).history| {
      m := EventRecorded(cfg, start, before, i);
      assert actions[..m] == before[..m];
    } else {
      m := |before|;
    }
  }

  /** The line of an event, as it is now: who asked, from where and when; and the file while it exists. */
  predicate ShowsEvent(db: Db, line: Log, e: Event, a: Access) {
    && IsLineOf(line, e.sub, a)
    && line.fileId == (if e.file > 0 && e.file in db.files then Ref(e.file) else Null)
  }

  lemma NewLineShows(s: System, t: int, a: Access, fault: bool)
    requires Integrity(s.db) && RequestsOk(s) && t in s.fetches && Records(s.db, s.fetches[t], fault)
    ensures var s', f := StepFetch(s, t, a, fault), s.fetches[t];
            && s.db.nextLog in s'.db.logs && s'.db.nextLog == s.db.nextLog + 1
            && ShowsEvent(s'.db, s'.db.logs[s.db.nextLog], Event(t, f.subId, FileIdOf(f), f.sub.revision), a)
  {
    var f := s.fetches[t];
    RecordWritesLine(s.db, f.subId, FileIdOf(f), f.sub.revision, a);
    RecordWritesFile(s.db, f.subId, FileIdOf(f), f.sub.revision, a);
  }

  lemma LineStillShows(db: Db, db': Db, l: int, e: Event, a: Access)
    requires AllKept(db, db') && References(db') && Descends(db, db') && l < db.nextLog && e.file < db.nextFile
    requires l in db.logs ==> ShowsEvent(db, db.logs[l], e, a)
    ensures l in db'.logs ==> ShowsEvent(db', db'.logs[l], e, a)
  {
    if l in db'.logs {
      assert Kept(db.logs[l], db'.logs[l], db') && FileDescends(db, db', e.file);
    }
  }

  lemma RunStillShows(cfg: Config, base: Db, s: System, actions: seq<Action>, l: int, i: int, a: Access)
    requires Inv(base, s) && l < s.db.nextLog && 0 <= i < |s.history|
    requires l in s.db.logs ==> ShowsEvent(s.db, s.db.logs[l], s.history[i], a)
    ensures var s' := Run(cfg, s, actions); l in s'.db.logs ==> ShowsEvent(s'.db, s'.db.logs[l], s.history[i], a)
  {
    RunKeepsLines(cfg, base, s, actions);
    RunDescends(cfg, base, s, actions);
    RunKeeps(cfg, base, s, actions);
    assert EventOk(s.db, s.history[i]);
    LineStillShows(s.db, Run(cfg, s, actions).db, l, s.history[i], a);
  }

  lemma SplitAt(cfg: Config, start: System, actions: seq<Action>, m: int)
    requires 0 <= m < |actions|
    ensures Run(cfg, start, actions) == Run(cfg, Step(cfg, Run(cfg, start, actions[..m]), actions[m]), actions[m + 1..])
  {
    assert actions[..m + 1][..m] == actions[..m] && actions == actions[..m + 1] + actions[m + 1..];
    RunAppend(cfg, start, actions[..m + 1], actions[m + 1..]);
  }

  predicate RecordsNow(s: System, action: Action) {
    action.Advance? && action.fetch in s.fetches && Records(s.db, s.fetches[action.fetch], action.fault)
  }

  lemma RecordShows(cfg: Config, base: Db, s: System, action: Action)
    requires Inv(base, s) && RecordsNow(s, action)
    ensures var s1, i := Step(cfg, s, action), |s.history|;
            && Inv(base, s1) && |s1.history| == i + 1 && s.db.nextLog < s1.db.nextLog && s.db.nextLog in s1.db.logs
            && ShowsEvent(s1.db, s1.db.logs[s.db.nextLog], s1.history[i], action.access)
  {
    StepKeeps(cfg, base, s, action);
    NewLineShows(s, action.fetch, action.access, action.fault);
  }

  /** What a recorded request wrote, any number of steps later. */
  lemma RecordShowsLater(cfg: Config, base: Db, s: System, action: Action, rest: seq<Action>)
    requires Inv(base, s) && RecordsNow(s, action)
    ensures var s', l, i := Run(cfg, Step(cfg, s, action), rest), s.db.nextLog, |s.history|;
            && i < |s'.history| && s'.history[i] == Step(cfg, s, action).history[i]
            && (l in s'.db.logs ==> ShowsEvent(s'.db, s'.db.logs[l], s'.history[i], action.access))
  {
    RecordShows(cfg, base, s, action);
    HistoryStays(cfg, Step(cfg, s, action), rest, |s.history|);
    RunStillShows(cfg, base, Step(cfg, s, action), rest, s.db.nextLog, |s.history|, action.access);
  }

  /** Every recorded request wrote a line with the access of the step that recorded it, under the next
      number; the line shows it as long as it exists. */
  lemma EventHasItsLine(cfg: Config, base: Db, blobs: map<string, Bytes>, actions: seq<Action>, i: int)
    returns (m: int)
    requires Integrity(base) && base.counted && 0 <= i < |Run(cfg, Started(base, blobs), actions).history|
    ensures RecordedAt(cfg, Started(base, blobs), actions, m, i, Run(cfg, Started(base, blobs), actions).history[i])
    ensures var s := Run(cfg, Started(base, blobs), actions);
            var l := Run(cfg, Started(base, blobs), actions[..m]).db.nextLog;
            l in s.db.logs ==> ShowsEvent(s.db, s.db.logs[l], s.history[i], actions[m].access)
  {
    var start := Started(base, blobs);
    m := EventRecorded(cfg, start, actions, i);
    RunInv(cfg, base, blobs, actions[..m]);
    SplitAt(cfg, start, actions, m);
    RecordShowsLater(cfg, base, Run(cfg, start, actions[..m]), actions[m], actions[m + 1..]);
  }

  lemma RunIds(cfg: Config, base: Db, blobs: map<string, Bytes>, actions: seq<Action>)
    requires Integrity(base) && base.counted
    ensures IdsBelow(Run(cfg, Started(base, blobs), actions).db)
  {
    RunInv(cfg, base, blobs, actions);
  }

  /** And every line was there at the beginning, or was written by a recorded request. */
  lemma LineHasItsEvent(cfg: Config, base: Db, blobs: map<string, Bytes>, actions: seq<Action>, l: int)
    returns (m: int, i: int)
    requires Integrity(base) && base.counted && l in Run(cfg, Started(base, blobs), actions).db.logs
    ensures var s := Run(cfg, Started(base, blobs), actions);
            if l < base.nextLog then l in base.logs && Kept(base.logs[l], s.db.logs[l], s.db)
            else
              && 0 <= i < |s.history| && 0 <= m < |actions| && actions[m].Advance?
              && Run(cfg, Started(base, blobs), actions[..m]).db.nextLog == l
              && |Run(cfg, Started(base, blobs), actions[..m]).history| == i
              && RecordsNow(Run(cfg, Started(base, blobs), actions[..m]), actions[m])
              && ShowsEvent(s.db, s.db.logs[l], s.history[i], actions[m].access)
  {
    var start := Started(base, blobs);
    m, i := 0, 0;
    if l < base.nextLog {
      StartedInv(base, blobs);
      RunKeepsLines(cfg, base, start, actions);
    } else {
      RunIds(cfg, base, blobs, actions);
      m := LineWritten(cfg, base, blobs, actions, l);
      i := |Run(cfg, start, actions[..m]).history|;
      RunInv(cfg, base, blobs, actions[..m]);
      SplitAt(cfg, start, actions, m);
      RecordShowsLater(cfg, base, Run(cfg, start, actions[..m]), actions[m], actions[m + 1..]);
    }
  }

  /** The next number of a line moves with records only. */
  lemma NextLine(cfg: Config, s: System, action: Action)
    ensures Step(cfg, s, action).db.nextLog == s.db.nextLog + (if RecordsNow(s, action) then 1 else 0)
  {
    match action
    case Edit(op) => EditNextLine(s.db, op);
    case Crash(kept) => EditNextLine(s.db, Migrate);
    case Advance(t, a, fault) =>
    case _ => OtherNextLine(cfg, s, action);
  }

  lemma EditNextLine(db: Db, op: Op)
    ensures Apply(db, op).nextLog == db.nextLog
  {
  }

  lemma OtherNextLine(cfg: Config, s: System, action: Action)
    requires !action.Edit? && !action.Advance? && !action.Crash?
    ensures Step(cfg, s, action).db.nextLog == s.db.nextLog
  {
  }

  lemma {:induction false} LineWritten(cfg: Config, base: Db, blobs: map<string, Bytes>, actions: seq<Action>, l: int)
    returns (m: int)
    requires base.nextLog <= l < Run(cfg, Started(base, blobs), actions).db.nextLog
    ensures 0 <= m < |actions| && RecordsNow(Run(cfg, Started(base, blobs), actions[..m]), actions[m])
    ensures Run(cfg, Started(base, blobs), actions[..m]).db.nextLog == l
  {
    var before, action := actions[..|actions| - 1], actions[|actions| - 1];
    NextLine(cfg, Run(cfg, Started(base, blobs), before), action);
    if l < Run(cfg, Started(base, blobs), before).db.nextLog {
      m := LineWritten(cfg, base, blobs, before, l);
      assert actions[..m] == before[..m];
    } else {
      m := |before|;
    }
  }

  /** Events stay as they were recorded. */
  lemma {:induction false} HistoryStays(cfg: Config, s: System, actions: seq<Action>, i: int)
    requires 0 <= i < |s.history|
    ensures i < |Run(cfg, s, actions).history| && Run(cfg, s, actions).history[i] == s.history[i]
  {
    if actions != [] {
      var before, action := actions[..|actions| - 1], actions[|actions| - 1];
      HistoryStays(cfg, s, before, i);
      StepRecords(cfg, Run(cfg, s, before), action);
    }
  }
}
