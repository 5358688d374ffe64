/** Public requests whose subscription or file is deleted before the record commits: whatever happens
    afterwards, they are neither served nor counted. */
module Bars {
  import opened Wrappers
  import opened Schema
  import opened Transactions
  import opened Preservation
  import opened Server
  import opened Counting
  import opened Statistics
  import opened Evolution
  import opened Serving

  /** The request cannot be answered without a record: it is a GET, or for a text subscription. */
  predicate NeedsRecord(f: Fetch)
    requires !f.Failed?
  {
    f.get || f.sub.kind == TextKind
  }

  predicate SubscriptionGone(db: Db, f: Fetch)
    requires !f.Failed?
  {
    f.subId < db.nextSub && f.subId !in db.subs
  }

  /** The file that the snapshot names was deleted. */
  predicate FileGone(db: Db, f: Fetch)
    requires !f.Failed?
  {
    f.sub.kind == FileKind && f.sub.fileId.Ref? && f.sub.fileId.id < db.nextFile && f.sub.fileId.id !in db.files
  }

  /** The request is unfinished and will find that a row is gone: its record fails for want of
      the subscription or the file, or its lookup for want of the file. */
  predicate Barred(db: Db, f: Fetch) {
    && InProgress(f)
    && ((NeedsRecord(f) && SubscriptionGone(db, f)) || ((f.get || f.Snapped?) && FileGone(db, f)))
  }

  /** What is gone stays gone. */
  lemma BarredStays(db: Db, db': Db, f: Fetch)
    requires Barred(db, f) && Descends(db, db')
    ensures Barred(db', f)
  {
    assert SubDescends(db, db', f.subId);
    if FileGone(db, f) {
      assert FileDescends(db, db', f.sub.fileId.id);
    }
  }

  /** A barred request fails at its next call, or stays barred. */
  lemma BarredNext(s: System, f: Fetch, fault: bool)
    requires Barred(s.db, f) && FetchOk(s.db, f) && IdsBelow(s.db)
    ensures !Records(s.db, f, fault)
    ensures var g := NextFetch(s, f, fault); g.Failed? || Barred(s.db, g)
  {
  }

  ghost predicate BarredOrFailed(s: System, t: int) {
    t in s.fetches && t < s.nextId && (s.fetches[t].Failed? || Barred(s.db, s.fetches[t]))
  }

  lemma AdvanceKeepsBar(s: System, u: int, a: Access, fault: bool, t: int)
    requires RequestsOk(s) && IdsBelow(s.db) && BarredOrFailed(s, t)
    ensures BarredOrFailed(StepFetch(s, u, a, fault), t)
  {
    var s' := StepFetch(s, u, a, fault);
    AdvanceDescends(s, u, a, fault);
    assert FetchOk(s.db, s.fetches[t]);
    if u == t && InProgress(s.fetches[t]) {
      BarredNext(s, s.fetches[t], fault);
    } else if Barred(s.db, s.fetches[t]) {
      BarredStays(s.db, s'.db, s.fetches[t]);
    }
  }

  /** A step of another kind leaves the request alone or ends it. */
  lemma OthersLeave(cfg: Config, s: System, action: Action, t: int)
    requires !action.Advance? && t in s.fetches && t < s.nextId
    ensures var s' := Step(cfg, s, action);
            t in s'.fetches && t < s'.nextId && (s'.fetches[t] == s.fetches[t] || s'.fetches[t].Failed?)
  {
  }

  lemma StepKeepsBar(cfg: Config, base: Db, s: System, action: Action, t: int)
    requires Inv(base, s) && BarredOrFailed(s, t)
    ensures BarredOrFailed(Step(cfg, s, action), t)
  {
    if action.Advance? {
      AdvanceKeepsBar(s, action.fetch, action.access, action.fault, t);
    } else {
      OthersLeave(cfg, s, action, t);
      StepDescends(cfg, s, action);
      if Barred(s.db, s.fetches[t]) {
        BarredStays(s.db, Step(cfg, s, action).db, s.fetches[t]);
      }
    }
  }

  lemma {:induction false} RunKeepsBar(cfg: Config, base: Db, s: System, actions: seq<Action>, t: int)
    requires Inv(base, s) && BarredOrFailed(s, t)
    ensures BarredOrFailed(Run(cfg, s, actions), t)
  {
    if actions != [] {
      var before := actions[..|actions| - 1];
      RunKeepsBar(cfg, base, s, before, t);
      RunKeeps(cfg, base, s, before);
      StepKeepsBar(cfg, base, Run(cfg, s, before), actions[|actions| - 1], t);
    }
  }

  /** If at some moment of a run the row that an unfinished request depends on is gone, then at
      every later moment the request is unanswered and has no event, so that no counter and no
      log line is due to it. */
  lemma DeletedIsNeverServed(cfg: Config, base: Db, blobs: map<string, Bytes>, a: seq<Action>, b: seq<Action>, t: int)
    requires Consistent(cfg, base, blobs)
    requires var s := Run(cfg, Started(base, blobs), a); t in s.fetches && Barred(s.db, s.fetches[t])
    ensures var s := Run(cfg, Started(base, blobs), a + b);
            && t in s.fetches && !s.fetches[t].ServedText? && !s.fetches[t].ServedFile?
            && Count(s.history, ByFetch(t)) == 0
            && forall i :: 0 <= i < |s.history| ==> s.history[i].fetch != t
  {
    var start := Started(base, blobs);
    var s := Run(cfg, start, a);
    RunInv(cfg, base, blobs, a);
    RunServe(cfg, base, blobs, a);
    assert ServeOk(cfg, s, t);
    RunKeepsBar(cfg, base, s, b, t);
    RunAppend(cfg, start, a, b);
    UnservedIsUnrecorded(cfg, base, blobs, a + b, t);
    NoEventsOf(Run(cfg, start, a + b).history, t);
  }

  lemma {:induction false} NoEventsOf(h: seq<Event>, t: int)
    requires Count(h, ByFetch(t)) == 0
    ensures forall i :: 0 <= i < |h| ==> h[i].fetch != t
  {
    if h != [] {
      NoEventsOf(h[..|h| - 1], t);
      assert forall i :: 0 <= i < |h| - 1 ==> h[i] == h[..|h| - 1][i];
    }
  }

  /** The ids of a request's rows were given out, so "gone" means no more than "not there". */
  lemma GoneIsNotThere(cfg: Config, base: Db, blobs: map<string, Bytes>, actions: seq<Action>, t: int)
    requires Integrity(base) && base.counted
    requires var s := Run(cfg, Started(base, blobs), actions); t in s.fetches && InProgress(s.fetches[t])
    ensures var s := Run(cfg, Started(base, blobs), actions);
            var f := s.fetches[t];
            && (SubscriptionGone(s.db, f) <==> f.subId !in s.db.subs)
            && (FileGone(s.db, f) <==> f.sub.kind == FileKind && f.sub.fileId.Ref? && f.sub.fileId.id !in s.db.files)
  {
    RunInv(cfg, base, blobs, actions);
    RequestIds(base, Run(cfg, Started(base, blobs), actions), t);
  }

  lemma RequestIds(base: Db, s: System, t: int)
    requires Inv(base, s) && t in s.fetches && InProgress(s.fetches[t])
    ensures s.fetches[t].subId < s.db.nextSub
    ensures s.fetches[t].sub.fileId.Ref? ==> s.fetches[t].sub.fileId.id < s.db.nextFile
  {
    assert FetchMark(s.fetches[t]) in Marks(base, s);
    assert FetchOk(s.db, s.fetches[t]);
  }
}
