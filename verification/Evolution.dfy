/** What no step undoes: ids are not reused, a subscription keeps its type and its revision never
    falls, and a file row keeps its digests, size and key. */
module Evolution {
  import opened Wrappers
  import opened Schema
  import opened Transactions
  import opened Preservation
  import opened Server
  import opened Counting

  lemma {:induction false} RunAppend(cfg: Config, s: System, a: seq<Action>, b: seq<Action>)
    ensures Run(cfg, s, a + b) == Run(cfg, Run(cfg, s, a), b)
  {
    if b == [] {
      assert a + b == a;
    } else {
      assert (a + b)[..|a + b| - 1] == a + b[..|b| - 1];
      RunAppend(cfg, s, a, b[..|b| - 1]);
    }
  }

  lemma RunOneMore(cfg: Config, s: System, actions: seq<Action>, action: Action)
    ensures Run(cfg, s, actions + [action]) == Step(cfg, Run(cfg, s, actions), action)
  {
    assert (actions + [action])[..|actions|] == actions;
  }

  /** A surviving subscription, compared with what it was. */
  predicate SubDescends(db: Db, db': Db, id: int) {
    id in db'.subs && id < db.nextSub ==>
      id in db.subs && db'.subs[id].kind == db.subs[id].kind && db'.subs[id].revision >= db.subs[id].revision
  }

  predicate FileDescends(db: Db, db': Db, id: int) {
    id in db'.files && id < db.nextFile ==> id in db.files && SameContent(db.files[id], db'.files[id])
  }

  /** `db'` came out of `db`, however much later. */
  ghost predicate Descends(db: Db, db': Db) {
    && db.nextSub <= db'.nextSub && db.nextFile <= db'.nextFile
    && (forall id :: SubDescends(db, db', id))
    && (forall id :: FileDescends(db, db', id))
  }

  lemma DescendsTransitive(a: Db, b: Db, c: Db)
    requires Descends(a, b) && Descends(b, c)
    ensures Descends(a, c)
  {
    forall id ensures SubDescends(a, c, id) {
      assert SubDescends(a, b, id) && SubDescends(b, c, id);
    }
    forall id ensures FileDescends(a, c, id) {
      assert FileDescends(a, b, id) && FileDescends(b, c, id);
    }
  }

  lemma EditDescends(db: Db, db': Db)
    requires Edits(db, db') && IdsBelow(db)
    ensures Descends(db, db')
  {
  }

  lemma RecordDescends(db: Db, subId: int, fileId: int, revision: nat, a: Access)
    requires CanRecord(db, subId, fileId)
    ensures Descends(db, Record(db, subId, fileId, revision, a))
  {
  }

  lemma FilesDescend(db: Db, job: Job, cfg: Config, now: string, contentType: string, fault: bool)
    ensures Descends(db, DbAfter(cfg, db, job, now, contentType, fault))
  {
  }

  lemma ApplyDescends(db: Db, op: Op)
    requires Integrity(db) && db.counted
    ensures Descends(db, Apply(db, op))
  {
    ApplyEdits(db, op);
    EditDescends(db, Apply(db, op));
  }

  lemma SetEnabledDescends(db: Db, id: int, enabled: bool, now: string)
    requires Integrity(db)
    ensures Descends(db, SetEnabled(db, id, enabled, now))
  {
    SetEnabledEdits(db, id, enabled, now);
    EditDescends(db, SetEnabled(db, id, enabled, now));
  }

  lemma ToggleDescends(db: Db, id: int, now: string)
    requires Integrity(db)
    ensures Descends(db, ToggleNow(db, id, now))
  {
    if id in db.subs {
      SetEnabledDescends(db, id, !db.subs[id].enabled, now);
    }
  }

  lemma EditActionDescends(cfg: Config, s: System, action: Action)
    requires Integrity(s.db) && s.db.counted && IsEdit(action)
    ensures Descends(s.db, Step(cfg, s, action).db)
  {
    match action
    case Edit(op) => ApplyDescends(s.db, op);
    case Toggle(subId, now) => ToggleDescends(s.db, subId, now);
    case ToggleWrite(flip, now) =>
      if flip in s.flips {
        SetEnabledDescends(s.db, s.flips[flip].subId, s.flips[flip].enable, now);
      }
    case Crash(kept) => ApplyDescends(s.db, Migrate);
  }

  lemma AdvanceDescends(s: System, t: int, a: Access, fault: bool)
    ensures Descends(s.db, StepFetch(s, t, a, fault).db)
  {
    if t in s.fetches && Records(s.db, s.fetches[t], fault) {
      var f := s.fetches[t];
      RecordDescends(s.db, f.subId, FileIdOf(f), f.sub.revision, a);
    }
  }

  lemma WorkDescends(cfg: Config, s: System, t: int, now: string, contentType: string, fate: Fate)
    ensures Descends(s.db, StepWork(cfg, s, t, now, contentType, fate).db)
  {
    if t in s.jobs {
      FilesDescend(s.db, s.jobs[t], cfg, now, contentType, fate.Fails?);
    }
  }

  lemma StepDescends(cfg: Config, s: System, action: Action)
    requires Integrity(s.db) && s.db.counted
    ensures Descends(s.db, Step(cfg, s, action).db)
  {
    if IsEdit(action) {
      EditActionDescends(cfg, s, action);
    } else {
      match action
      case Advance(t, a, fault) => AdvanceDescends(s, t, a, fault);
      case Work(t, now, contentType, fate) => WorkDescends(cfg, s, t, now, contentType, fate);
      case _ =>
    }
  }

  lemma {:induction false} RunDescends(cfg: Config, base: Db, s: System, actions: seq<Action>)
    requires Inv(base, s)
    ensures Descends(s.db, Run(cfg, s, actions).db)
  {
    if actions != [] {
      var before := actions[..|actions| - 1];
      RunDescends(cfg, base, s, before);
      RunKeeps(cfg, base, s, before);
      StepDescends(cfg, Run(cfg, s, before), actions[|actions| - 1]);
      DescendsTransitive(s.db, Run(cfg, s, before).db, Run(cfg, s, actions).db);
    }
  }
}
