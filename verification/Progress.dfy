/** Why an upload of a run fails, that one without such a reason is stored, and that the file mutex is
    always given back. */
module Progress {
  import opened Wrappers
  import opened Schema
  import opened Transactions
  import opened Server
  import opened BlobProtocol
  import opened Statistics
  import opened Evolution
  import opened Provenance
  import opened Walks
  import opened Completion
  import Serving
  import Sequential

  // ---- Uploads ----

  /** The upload is on its way to an answer with a row, or has it. */
  predicate Promising(stage: Stage) {
    && !stage.UndoRename? && !stage.Relookup? && !stage.Discard?
    && (stage.Finished? ==> stage.result.Ok?) && (stage.Done? ==> stage.answer.Ok?)
  }

  /** What may keep upload `t` from being stored: an inadmissible size, a failed call, or a stop. */
  predicate Spoils(cfg: Config, s: System, action: Action, t: int) {
    || (action.BeginUpload? && t == s.nextId && (action.fault || !(0 < |action.content| <= cfg.maxUpload)))
    || (action.Work? && action.job == t && !action.fate.Works?)
    || action.Crash?
  }

  lemma LookupPromises(cfg: Config, s: System, t: int)
    requires Sound(cfg) && BlobInv(cfg, s) && t in s.jobs && s.jobs[t].Upload?
    requires s.jobs[t].stage.Lookup? || s.jobs[t].stage.LookupSha?
    ensures Promising(Next(cfg, s, t, false))
  {
    var content := s.jobs[t].content;
    assert JobOk(cfg, s, t);
    if s.jobs[t].stage.Lookup? && ByDigests(s.db, cfg.md5(content), cfg.sha256(content)).Ref? {
      RowDescribes(cfg, s, ByDigests(s.db, cfg.md5(content), cfg.sha256(content)).id, content);
    }
  }

  /** No row stands in the way of an upload's row. */
  lemma InsertIsFree(cfg: Config, s: System, t: int)
    requires Sound(cfg) && BlobInv(cfg, s) && t in s.jobs && s.jobs[t].Upload? && s.jobs[t].stage.Insert?
    ensures CanCreateFile(s.db, cfg.sha256(s.jobs[t].content), Key(cfg.sha256(s.jobs[t].content)))
  {
    var sha256 := cfg.sha256(s.jobs[t].content);
    assert JobOk(cfg, s, t);
    forall i | i in s.db.files ensures s.db.files[i].storageKey != Key(sha256) {
      if s.db.files[i].storageKey == Key(sha256) {
        RowOfKey(cfg, s, i, s.jobs[t].content);
      }
    }
  }

  lemma WorkPromises(cfg: Config, s: System, t: int)
    requires Sound(cfg) && BlobInv(cfg, s) && t in s.jobs && s.jobs[t].Upload? && Promising(s.jobs[t].stage)
    ensures Promising(Next(cfg, s, t, false))
  {
    assert JobOk(cfg, s, t);
    if s.jobs[t].stage.Lookup? || s.jobs[t].stage.LookupSha? {
      LookupPromises(cfg, s, t);
    } else if s.jobs[t].stage.Insert? {
      InsertIsFree(cfg, s, t);
    }
  }

  /** Another step, or a call that works, leaves the upload on its way. */
  lemma StepPromises(cfg: Config, s: System, action: Action, t: int)
    requires Sound(cfg) && BlobInv(cfg, s) && t in Step(cfg, s, action).jobs && Step(cfg, s, action).jobs[t].Upload?
    requires t in s.jobs ==> Promising(s.jobs[t].stage)
    requires !Spoils(cfg, s, action, t)
    ensures Promising(Step(cfg, s, action).jobs[t].stage)
  {
    if action.Work? && action.job == t {
      WorkPromises(cfg, s, t);
    }
  }

  /** Every upload of every run that was not stored was kept from it by one of those steps. */
  lemma {:induction false} UploadFailedForAReason(cfg: Config, base: Db, blobs: map<string, Bytes>,
                                                  actions: seq<Action>, t: int)
    returns (m: int)
    requires Serving.Consistent(cfg, base, blobs)
    requires var s := Run(cfg, Started(base, blobs), actions);
             t in s.jobs && s.jobs[t].Upload? && !Promising(s.jobs[t].stage)
    ensures 0 <= m < |actions| && Spoils(cfg, Run(cfg, Started(base, blobs), actions[..m]), actions[m], t)
  {
    var start, before, action := Started(base, blobs), actions[..|actions| - 1], actions[|actions| - 1];
    var s := Run(cfg, start, before);
    assert actions == before + [action];
    if Spoils(cfg, s, action, t) {
      m := |before|;
    } else {
      Serving.RunKeepsBlobs(cfg, base, blobs, before);
      if t in s.jobs && !Promising(s.jobs[t].stage) {
        StepBegins(cfg, s, action, t);
        m := UploadFailedForAReason(cfg, base, blobs, before, t);
        EarlierRun(cfg, start, before, action, m);
      } else {
        StepPromises(cfg, s, action, t);
      }
    }
  }

  lemma RelookupFinds(cfg: Config, s: System, t: int, id: int)
    requires Sound(cfg) && BlobInv(cfg, s) && Unique(s.db)
    requires t in s.jobs && s.jobs[t].Upload? && s.jobs[t].stage.Relookup?
    requires IsRow(s.db, id, cfg.sha256(s.jobs[t].content))
    ensures Next(cfg, s, t, false) == Finished(Ok(id))
  {
    RowDescribes(cfg, s, id, s.jobs[t].content);
    DigestsFound(s.db, cfg.md5(s.jobs[t].content), cfg.sha256(s.jobs[t].content), id);
  }

  lemma RelookupStep(cfg: Config, s: System, t: int, id: int, now: string, contentType: string)
    requires t in s.jobs && s.jobs[t].Upload? && s.jobs[t].stage.Relookup? && id in s.db.files
    requires Next(cfg, s, t, false) == Finished(Ok(id))
    ensures var s' := Step(cfg, s, Work(t, now, contentType, Works));
            t in s'.jobs && s'.jobs[t].stage == Finished(Ok(id)) && id in s'.db.files
  {
  }

  /** An INSERT that took effect but reported an error is answered with its row all the same: the second lookup
      finds it. */
  lemma LateInsertIsFound(cfg: Config, base: Db, blobs: map<string, Bytes>, actions: seq<Action>, t: int, now: string,
                          contentType: string)
    requires Serving.Consistent(cfg, base, blobs)
    requires var s := Run(cfg, Started(base, blobs), actions);
             t in s.jobs && s.jobs[t].Upload? && s.jobs[t].stage.Insert?
    ensures var s := Run(cfg, Started(base, blobs), actions);
            var late, again := Work(t, now, contentType, FailsLate), Work(t, now, contentType, Works);
            var s' := Run(cfg, Started(base, blobs), actions + [late] + [again]);
            t in s'.jobs && s'.jobs[t].stage == Finished(Ok(s.db.nextFile)) && s.db.nextFile in s'.db.files
  {
    var late, again := Work(t, now, contentType, FailsLate), Work(t, now, contentType, Works);
    var s := Run(cfg, Started(base, blobs), actions);
    Serving.RunKeepsBlobs(cfg, base, blobs, actions);
    RunInv(cfg, base, blobs, actions);
    LateInsertThenLookup(cfg, s, t, now, contentType);
    RunOneMore(cfg, Started(base, blobs), actions, late);
    RunOneMore(cfg, Started(base, blobs), actions + [late], again);
  }

  lemma LateInsertThenLookup(cfg: Config, s: System, t: int, now: string, contentType: string)
    requires Sound(cfg) && BlobInv(cfg, s) && Integrity(s.db) && s.db.counted
    requires t in s.jobs && s.jobs[t].Upload? && s.jobs[t].stage.Insert?
    ensures var s1 := Step(cfg, s, Work(t, now, contentType, FailsLate));
            var s2 := Step(cfg, s1, Work(t, now, contentType, Works));
            t in s2.jobs && s2.jobs[t].stage == Finished(Ok(s.db.nextFile)) && s.db.nextFile in s2.db.files
  {
    var s1 := Step(cfg, s, Work(t, now, contentType, FailsLate));
    InsertsLate(cfg, s, t, now, contentType);
    StepKeepsBlobs(cfg, s, Work(t, now, contentType, FailsLate));
    RelookupFinds(cfg, s1, t, s.db.nextFile);
    RelookupStep(cfg, s1, t, s.db.nextFile, now, contentType);
  }

  lemma InsertsLate(cfg: Config, s: System, t: int, now: string, contentType: string)
    requires Sound(cfg) && BlobInv(cfg, s) && Unique(s.db)
    requires t in s.jobs && s.jobs[t].Upload? && s.jobs[t].stage.Insert?
    ensures var s' := Step(cfg, s, Work(t, now, contentType, FailsLate));
            && t in s'.jobs && s'.jobs[t] == Upload(s.jobs[t].content, s.jobs[t].name, Relookup)
            && IsRow(s'.db, s.db.nextFile, cfg.sha256(s.jobs[t].content)) && Unique(s'.db)
  {
    InsertIsFree(cfg, s, t);
  }

  // ---- Temporary files ----

  /** What may leave the temporary file of upload `t` behind: its removal failed, or the process stopped. */
  predicate Litters(s: System, action: Action, t: int) {
    || (action.BeginUpload? && t == s.nextId && action.kept.Some?)
    || (action.Work? && action.job == t && t in s.jobs && s.jobs[t].stage.Discard? && action.fate.Fails?)
    || action.Crash?
  }

  /** The temporary file is there only while the upload still needs it, or has yet to discard it. */
  predicate Tidy(s: System, t: int) {
    && (t in s.temps ==> t < s.nextId)
    && (t in s.temps && t in s.jobs && s.jobs[t].Upload? ==> HasTemp(s.jobs[t].stage) || s.jobs[t].stage.Discard?)
  }

  lemma WorkKeepsTidy(cfg: Config, s: System, u: int, now: string, contentType: string, fate: Fate, t: int)
    requires Tidy(s, t) && !(u == t && t in s.jobs && s.jobs[t].stage.Discard? && fate.Fails?)
    ensures Tidy(StepWork(cfg, s, u, now, contentType, fate), t)
  {
  }

  lemma StepKeepsTidy(cfg: Config, s: System, action: Action, t: int)
    requires Tidy(s, t) && !Litters(s, action, t)
    ensures Tidy(Step(cfg, s, action), t)
  {
    if action.Work? {
      WorkKeepsTidy(cfg, s, action.job, action.now, action.contentType, action.fate, t);
    }
  }

  /** An upload that is over has left its temporary file behind only for one of those reasons. */
  lemma {:induction false} TempLeftForAReason(cfg: Config, base: Db, blobs: map<string, Bytes>, actions: seq<Action>,
                                              t: int)
    returns (m: int)
    requires !Tidy(Run(cfg, Started(base, blobs), actions), t)
    ensures 0 <= m < |actions| && Litters(Run(cfg, Started(base, blobs), actions[..m]), actions[m], t)
  {
    var start, before, action := Started(base, blobs), actions[..|actions| - 1], actions[|actions| - 1];
    var s := Run(cfg, start, before);
    if !Tidy(s, t) {
      m := TempLeftForAReason(cfg, base, blobs, before, t);
      assert actions[..m] == before[..m];
    } else {
      if !Litters(s, action, t) {
        StepKeepsTidy(cfg, s, action, t);
      }
      m := |before|;
    }
  }

  /** The errors an upload may answer with, and what each of them says. */
  predicate ErrorFits(cfg: Config, job: Job) {
    match job
    case Deletion(_, _) => true
    case Upload(content, _, stage) =>
      && (stage.Discard? ==> stage.error == Fault || stage.error == DigestMismatch)
      && (stage.Finished? && stage.result.Err? ==> stage.result.error == Fault || stage.result.error == DigestMismatch)
      && (stage.Done? && stage.answer.Err? ==>
            match stage.answer.error
            case EmptyUpload => content == []
            case UploadTooLarge => |content| > cfg.maxUpload
            case Fault => true
            case Crashed => true
            case DigestMismatch => true
            case _ => false)
  }

  lemma StepErrorFits(cfg: Config, s: System, action: Action, t: int)
    requires t in Step(cfg, s, action).jobs && (t in s.jobs ==> ErrorFits(cfg, s.jobs[t]))
    ensures ErrorFits(cfg, Step(cfg, s, action).jobs[t])
  {
    if action.Work? && action.job == t && !Blocked(s, t) {
      NextErrorFits(cfg, s, t, !action.fate.Works?);
    }
  }

  lemma NextErrorFits(cfg: Config, s: System, t: int, fault: bool)
    requires t in s.jobs && ErrorFits(cfg, s.jobs[t])
    ensures ErrorFits(cfg, s.jobs[t].(stage := Next(cfg, s, t, fault)))
  {
  }

  lemma {:induction false} RunErrorFits(cfg: Config, start: System, actions: seq<Action>, t: int)
    requires start.jobs == map[] && t in Run(cfg, start, actions).jobs
    ensures ErrorFits(cfg, Run(cfg, start, actions).jobs[t])
  {
    if actions != [] {
      var before := actions[..|actions| - 1];
      if t in Run(cfg, start, before).jobs {
        RunErrorFits(cfg, start, before, t);
      }
      StepErrorFits(cfg, Run(cfg, start, before), actions[|actions| - 1], t);
    }
  }

  /** An upload is refused as empty or as too large only if it is, and otherwise fails only with an
      internal error or because the process stopped. */
  lemma UploadErrorsFit(cfg: Config, base: Db, blobs: map<string, Bytes>, actions: seq<Action>, t: int)
    requires Serving.Consistent(cfg, base, blobs)
    requires var s := Run(cfg, Started(base, blobs), actions);
             t in s.jobs && s.jobs[t].Upload? && s.jobs[t].stage.Done? && s.jobs[t].stage.answer.Err?
    ensures var job := Run(cfg, Started(base, blobs), actions).jobs[t];
            var error := job.stage.answer.error;
            || (error == EmptyUpload && job.content == [])
            || (error == UploadTooLarge && |job.content| > cfg.maxUpload)
            || error == Fault || error == Crashed
  {
    RunErrorFits(cfg, Started(base, blobs), actions, t);
    Serving.DigestsNeverMismatch(cfg, base, blobs, actions, t);
  }

  /** From every reachable state with the mutex free, an upload of an admissible size whose calls all
      work and are not interrupted ends in a reachable state in which it is stored. */
  lemma UploadIsStored(c: Call, base: Db, blobs: map<string, Bytes>, actions: seq<Action>, content: Bytes, name: string)
    returns (id: int, m: nat)
    requires Serving.Consistent(c.cfg, base, blobs) && NoneFails(c) && 0 < |content| <= c.cfg.maxUpload
    requires var s := Run(c.cfg, Started(base, blobs), actions); s.lock.None? && c.t == s.nextId
    ensures var s := Run(c.cfg, Started(base, blobs), actions);
            var s' := Run(c.cfg, Started(base, blobs),
                actions + [BeginUpload(content, name, false, None)] + Steps(c, 0, m));
            Stored(c, s, s', content, name, id) && Sequential.Complete(c.cfg, s', id, content)
  {
    var s := Run(c.cfg, Started(base, blobs), actions);
    Serving.RunKeepsBlobs(c.cfg, base, blobs, actions);
    Serving.ConstraintsAlwaysHold(c.cfg, base, blobs, actions);
    id, m := UploadCompletes(c, s, content, name);
    Sequential.WalkIsReachable(c, base, blobs, actions, BeginUpload(content, name, false, None), 0, m);
  }

  lemma UploadCompletes(c: Call, s: System, content: Bytes, name: string) returns (id: int, m: nat)
    requires Sound(c.cfg) && BlobInv(c.cfg, s) && Unique(s.db) && s.lock.None? && c.t == s.nextId
    requires NoneFails(c) && 0 < |content| <= c.cfg.maxUpload
    ensures var s' := Walk(c, Step(c.cfg, s, BeginUpload(content, name, false, None)), 0, m);
            Stored(c, s, s', content, name, id) && Sequential.Complete(c.cfg, s', id, content)
  {
    id, m := UploadSucceeds(c, s, content, name, None);
    StoredIsComplete(c, s, Walk(c, StepBeginUpload(c.cfg, s, content, name, false, None), 0, m), content, name, id);
  }

  lemma StoredIsComplete(c: Call, s: System, s': System, content: Bytes, name: string, id: int)
    requires Sound(c.cfg) && BlobInv(c.cfg, s) && Stored(c, s, s', content, name, id)
    ensures Sequential.Complete(c.cfg, s', id, content)
  {
    if IsRow(s.db, id, c.cfg.sha256(content)) {
      RowDescribes(c.cfg, s, id, content);
    }
  }

  /** And a deletion does what it is asked for. */
  lemma DeletionIsDone(c: Call, base: Db, blobs: map<string, Bytes>, actions: seq<Action>, fileId: int)
    returns (answer: Result<int>)
    requires NoneFails(c)
    requires var s := Run(c.cfg, Started(base, blobs), actions); s.lock.None? && c.t == s.nextId
    ensures var s := Run(c.cfg, Started(base, blobs), actions);
            var s' := Run(c.cfg, Started(base, blobs), actions + [BeginDeletion(fileId)] + Steps(c, 0, 5));
            Deleting(c, s', fileId, Done(answer)) && Deleted(s, s', fileId, answer)
  {
    var s := Run(c.cfg, Started(base, blobs), actions);
    answer := DeletionSucceeds(c, s, fileId);
    Sequential.WalkIsReachable(c, base, blobs, actions, BeginDeletion(fileId), 0, 5);
  }

  // ---- The mutex ----

  /** Uploads are at stages of an upload, deletions at stages of a deletion. */
  predicate Fits(job: Job) {
    var stage := job.stage;
    if job.Upload? then !stage.ReadRow? && !stage.DeleteRow? && !stage.DeleteBlob?
    else stage.Waiting? || stage.ReadRow? || stage.DeleteRow? || stage.DeleteBlob? || stage.Finished? || stage.Done?
  }

  /** The mutex is held by a job that is at work under it. */
  predicate Held(s: System) {
    s.lock.Some? ==> s.lock.value in s.jobs && Locked(s.jobs[s.lock.value].stage)
  }

  ghost predicate MutexInv(s: System) {
    Held(s) && forall t :: t in s.jobs ==> Fits(s.jobs[t]) && t < s.nextId
  }

  lemma WorkKeepsMutex(cfg: Config, s: System, t: int, now: string, contentType: string, fate: Fate)
    requires MutexInv(s)
    ensures MutexInv(StepWork(cfg, s, t, now, contentType, fate))
  {
  }

  lemma StepKeepsMutex(cfg: Config, s: System, action: Action)
    requires MutexInv(s)
    ensures MutexInv(Step(cfg, s, action))
  {
    if action.Work? {
      WorkKeepsMutex(cfg, s, action.job, action.now, action.contentType, action.fate);
    }
  }

  /** In every run the mutex is free, or a job holds it that can move. */
  lemma {:induction false} MutexHasAHolder(cfg: Config, base: Db, blobs: map<string, Bytes>, actions: seq<Action>)
    ensures var s := Run(cfg, Started(base, blobs), actions);
            MutexInv(s) && (s.lock.Some? ==> !Blocked(s, s.lock.value))
  {
    if actions != [] {
      MutexHasAHolder(cfg, base, blobs, actions[..|actions| - 1]);
      StepKeepsMutex(cfg, Run(cfg, Started(base, blobs), actions[..|actions| - 1]), actions[|actions| - 1]);
    }
  }

  /** The calls of job `t` among these steps, whatever becomes of them. */
  function CallsOf(actions: seq<Action>, t: int): nat {
    if actions == [] then 0
    else
      var last := actions[|actions| - 1];
      CallsOf(actions[..|actions| - 1], t) + (if last.Work? && last.job == t then 1 else 0)
  }

  lemma WorkMovesOn(cfg: Config, s: System, t: int, fault: bool)
    requires t in s.jobs && Fits(s.jobs[t]) && !s.jobs[t].stage.Done?
    ensures CallsLeft(Next(cfg, s, t, fault)) < CallsLeft(s.jobs[t].stage)
    ensures !Next(cfg, s, t, fault).Waiting?
  {
  }

  /** Past its lock, a job comes closer to its end with every call of its own, and no other step throws it back. */
  lemma StepMovesOn(cfg: Config, s: System, action: Action, t: int)
    requires MutexInv(s) && t in s.jobs && !s.jobs[t].stage.Waiting?
    ensures var s' := Step(cfg, s, action);
            && t in s'.jobs && !s'.jobs[t].stage.Waiting?
            && CallsLeft(s'.jobs[t].stage)
               <= (if action.Work? && action.job == t && CallsLeft(s.jobs[t].stage) > 0
                   then CallsLeft(s.jobs[t].stage) - 1 else CallsLeft(s.jobs[t].stage))
  {
    if action.Work? && action.job == t && !Blocked(s, t) {
      WorkMovesOn(cfg, s, t, !action.fate.Works?);
    }
  }

  lemma {:induction false} RunMovesOn(cfg: Config, s: System, actions: seq<Action>, t: int)
    requires MutexInv(s) && t in s.jobs && !s.jobs[t].stage.Waiting?
    ensures var s' := Run(cfg, s, actions);
            && MutexInv(s') && t in s'.jobs && !s'.jobs[t].stage.Waiting?
            && (CallsLeft(s'.jobs[t].stage) == 0
                || CallsLeft(s'.jobs[t].stage) + CallsOf(actions, t) <= CallsLeft(s.jobs[t].stage))
  {
    if actions != [] {
      var before, action := actions[..|actions| - 1], actions[|actions| - 1];
      RunMovesOn(cfg, s, before, t);
      StepKeepsMutex(cfg, Run(cfg, s, before), action);
      StepMovesOn(cfg, Run(cfg, s, before), action, t);
    }
  }

  /** Whoever holds the mutex gives it back after at most eleven calls of its own, whatever becomes of
      these calls and whatever else happens. */
  lemma MutexIsReleased(cfg: Config, base: Db, blobs: map<string, Bytes>, a: seq<Action>, b: seq<Action>, t: int)
    requires Run(cfg, Started(base, blobs), a).lock == Some(t) && CallsOf(b, t) >= 11
    ensures var s := Run(cfg, Started(base, blobs), a + b);
            t in s.jobs && s.jobs[t].stage.Done? && s.lock != Some(t)
  {
    MutexHasAHolder(cfg, base, blobs, a);
    HolderEnds(cfg, Run(cfg, Started(base, blobs), a), b, t);
    RunAppend(cfg, Started(base, blobs), a, b);
  }

  lemma HolderEnds(cfg: Config, s: System, actions: seq<Action>, t: int)
    requires MutexInv(s) && s.lock == Some(t) && CallsOf(actions, t) >= 11
    ensures var s' := Run(cfg, s, actions); t in s'.jobs && s'.jobs[t].stage.Done? && s'.lock != Some(t)
  {
    RunMovesOn(cfg, s, actions, t);
    assert CallsLeft(s.jobs[t].stage) <= 11;
  }
}
