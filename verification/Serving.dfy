/** The promises about stored files and served responses, for every run of the server. */
module Serving {
  import opened Wrappers
  import opened Schema
  import opened Transactions
  import opened Preservation
  import opened Server
  import opened Counting
  import opened Statistics
  import opened BlobProtocol
  import opened Provenance

  /** A database and a blob directory that fit together, as the server leaves them. */
  ghost predicate Consistent(cfg: Config, base: Db, blobs: map<string, Bytes>) {
    && Sound(cfg) && Integrity(base) && base.counted
    && BlobsMatchKeys(cfg, blobs)
    && (forall id :: id in base.files ==> HasBlob(cfg, base.files[id], blobs))
  }

  lemma {:induction false} RunKeepsBlobs(cfg: Config, base: Db, blobs: map<string, Bytes>, actions: seq<Action>)
    requires Consistent(cfg, base, blobs)
    ensures BlobInv(cfg, Run(cfg, Started(base, blobs), actions))
  {
    if actions != [] {
      var before := actions[..|actions| - 1];
      RunKeepsBlobs(cfg, base, blobs, before);
      RunInv(cfg, base, blobs, before);
      StepKeepsBlobs(cfg, Run(cfg, Started(base, blobs), before), actions[|actions| - 1]);
    }
  }

  // ---- Stored files ----

  /** At every moment, whatever failed or crashed before, every row has a blob at its key with the
      row's digests and size, so it is the one content with that digest; and every blob, orphans
      included, fits its key. */
  lemma EveryRowHasItsBlob(cfg: Config, base: Db, blobs: map<string, Bytes>, actions: seq<Action>, id: int)
    requires Consistent(cfg, base, blobs)
    requires id in Run(cfg, Started(base, blobs), actions).db.files
    ensures var s := Run(cfg, Started(base, blobs), actions);
            var file := s.db.files[id];
            && file.storageKey == Key(file.sha256) && file.storageKey in s.blobs
            && (var blob := s.blobs[file.storageKey];
                && cfg.sha256(blob) == file.sha256 && cfg.md5(blob) == file.md5 && |blob| == file.size
                && forall content :: cfg.sha256(content) == file.sha256 ==> content == blob)
            && BlobsMatchKeys(cfg, s.blobs)
  {
    RunKeepsBlobs(cfg, base, blobs, actions);
    var s := Run(cfg, Started(base, blobs), actions);
    assert HasBlob(cfg, s.db.files[id], s.blobs);
  }

  /** No two rows share a digest or a key, and every reference names an existing row,
      even when a file is deleted between an upload and the attachment of its row. */
  lemma ConstraintsAlwaysHold(cfg: Config, base: Db, blobs: map<string, Bytes>, actions: seq<Action>)
    requires Integrity(base) && base.counted
    ensures Integrity(Run(cfg, Started(base, blobs), actions).db)
  {
    RunInv(cfg, base, blobs, actions);
  }

  /** An upload that is about to answer names an existing row with its digest. An earlier upload of
      the same bytes named the same row, unless that row was deleted in between. */
  lemma SameBytesSameFile(cfg: Config, base: Db, blobs: map<string, Bytes>, actions: seq<Action>, t: int, u: int)
    requires Consistent(cfg, base, blobs)
    requires var s := Run(cfg, Started(base, blobs), actions);
             && t in s.jobs && u in s.jobs && s.jobs[t].Upload? && s.jobs[u].Upload?
             && s.jobs[t].content == s.jobs[u].content
             && s.jobs[t].stage.Finished? && s.jobs[t].stage.result.Ok?
             && s.jobs[u].stage.Done? && s.jobs[u].stage.answer.Ok?
    ensures var s := Run(cfg, Started(base, blobs), actions);
            var answer, earlier := s.jobs[t].stage.result.value, s.jobs[u].stage.answer.value;
            && answer in s.db.files && s.db.files[answer].sha256 == cfg.sha256(s.jobs[t].content)
            && (earlier in s.db.files ==> earlier == answer)
  {
    RunKeepsBlobs(cfg, base, blobs, actions);
    RunInv(cfg, base, blobs, actions);
    AnswersAgree(cfg, Run(cfg, Started(base, blobs), actions), t, u);
  }

  lemma AnswersAgree(cfg: Config, s: System, t: int, u: int)
    requires JobsOk(cfg, s) && Unique(s.db) && t in s.jobs && u in s.jobs
    requires s.jobs[t].Upload? && s.jobs[u].Upload? && s.jobs[t].content == s.jobs[u].content
    requires s.jobs[t].stage.Finished? && s.jobs[t].stage.result.Ok?
    requires s.jobs[u].stage.Done? && s.jobs[u].stage.answer.Ok?
    ensures IsRow(s.db, s.jobs[t].stage.result.value, cfg.sha256(s.jobs[t].content))
    ensures s.jobs[u].stage.answer.value in s.db.files ==> s.jobs[u].stage.answer.value == s.jobs[t].stage.result.value
  {
    assert JobOk(cfg, s, t) && JobOk(cfg, s, u);
  }

  /** Neither digest mismatch error is ever returned. */
  lemma DigestsNeverMismatch(cfg: Config, base: Db, blobs: map<string, Bytes>, actions: seq<Action>, t: int)
    requires Consistent(cfg, base, blobs)
    requires t in Run(cfg, Started(base, blobs), actions).jobs
    requires Run(cfg, Started(base, blobs), actions).jobs[t].Upload?
    ensures var stage := Run(cfg, Started(base, blobs), actions).jobs[t].stage;
            && stage != Discard(DigestMismatch)
            && stage != Finished(Err(DigestMismatch))
            && stage != Done(Err(DigestMismatch))
  {
    RunKeepsBlobs(cfg, base, blobs, actions);
    assert JobOk(cfg, Run(cfg, Started(base, blobs), actions), t);
  }

  /** Two jobs never work under the file mutex together. */
  lemma MutualExclusion(cfg: Config, base: Db, blobs: map<string, Bytes>, actions: seq<Action>, t: int, u: int)
    requires Consistent(cfg, base, blobs)
    requires var s := Run(cfg, Started(base, blobs), actions);
             t in s.jobs && u in s.jobs && Locked(s.jobs[t].stage) && Locked(s.jobs[u].stage)
    ensures t == u
  {
    RunKeepsBlobs(cfg, base, blobs, actions);
    var s := Run(cfg, Started(base, blobs), actions);
    assert JobOk(cfg, s, t) && JobOk(cfg, s, u);
  }

  // ---- Served responses ----

  /** The file row a request read describes its content; an opened blob is that content. Only a
      text subscription is answered as text, only a file subscription as a file. */
  ghost predicate ContentOk(cfg: Config, f: Fetch) {
    && (f.ServedText? ==> f.sub.kind == TextKind)
    && (f.Located? || f.Opened? || f.ServedFile? ==> f.sub.kind == FileKind)
    && (f.Located? ==> f.sub.fileId == Ref(f.fileId) && exists c :: Describes(cfg, f.file, c))
    && (f.Opened? || f.ServedFile? ==> f.sub.fileId == Ref(f.fileId) && Describes(cfg, f.file, f.body))
  }

  /** A response that was recorded. */
  predicate Answered(f: Fetch) {
    f.ServedText? || (f.ServedFile? && f.get)
  }

  predicate EventOf(f: Fetch, e: Event) {
    && Answered(f) && e.sub == f.subId && e.revision == f.sub.revision
    && e.file == (if f.ServedFile? then f.fileId else 0)
  }

  ghost predicate ServeOk(cfg: Config, s: System, t: int)
    requires t in s.fetches
  {
    && t < s.nextId
    && ContentOk(cfg, s.fetches[t])
    && Count(s.history, ByFetch(t)) == (if Answered(s.fetches[t]) then 1 else 0)
  }

  ghost predicate ServeInv(cfg: Config, s: System) {
    && (forall t :: t in s.fetches ==> ServeOk(cfg, s, t))
    && (forall i :: 0 <= i < |s.history| ==>
          s.history[i].fetch in s.fetches && EventOf(s.fetches[s.history[i].fetch], s.history[i]))
  }

  /** Opening the key of a row yields the row's content, whatever happened to the row meanwhile. */
  lemma OpenedContent(cfg: Config, s: System, f: Fetch)
    requires Sound(cfg) && BlobInv(cfg, s) && f.Located? && ContentOk(cfg, f) && f.file.storageKey in s.blobs
    ensures Describes(cfg, f.file, s.blobs[f.file.storageKey])
  {
    var c :| Describes(cfg, f.file, c);
    BlobAtKey(cfg, s.blobs, c);
  }

  lemma NextContent(cfg: Config, s: System, f: Fetch, fault: bool)
    requires Sound(cfg) && BlobInv(cfg, s) && ContentOk(cfg, f) && FetchOk(s.db, f) && InProgress(f)
    ensures ContentOk(cfg, NextFetch(s, f, fault))
    ensures Answered(NextFetch(s, f, fault)) <==> Records(s.db, f, fault)
  {
    var f' := NextFetch(s, f, fault);
    if f'.Located? {
      assert HasBlob(cfg, f'.file, s.blobs);
    }
    if f.Located? && f.file.storageKey in s.blobs {
      OpenedContent(cfg, s, f);
    }
  }

  /** Request `t` moves to `f`, and its event is recorded exactly if that answers it. */
  lemma MovedServe(cfg: Config, s: System, s': System, t: int, f: Fetch, e: Event)
    requires ServeInv(cfg, s) && t in s.fetches && InProgress(s.fetches[t])
    requires s'.fetches == s.fetches[t := f] && s'.nextId == s.nextId && ContentOk(cfg, f) && e.fetch == t
    requires if Answered(f) then EventOf(f, e) && s'.history == s.history + [e] else s'.history == s.history
    ensures ServeInv(cfg, s')
  {
    forall i | 0 <= i < |s.history| ensures s.history[i].fetch != t {
      assert s.history[i].fetch in s.fetches && EventOf(s.fetches[s.history[i].fetch], s.history[i]);
    }
    forall u | u in s'.fetches ensures ServeOk(cfg, s', u) {
      assert ServeOk(cfg, s, u);
      CountAppend(s.history, e, ByFetch(u));
    }
  }

  lemma AdvanceServe(cfg: Config, base: Db, s: System, t: int, a: Access, fault: bool)
    requires Sound(cfg) && BlobInv(cfg, s) && Inv(base, s) && ServeInv(cfg, s)
    ensures ServeInv(cfg, StepFetch(s, t, a, fault))
  {
    if t in s.fetches && InProgress(s.fetches[t]) {
      var f := s.fetches[t];
      assert FetchOk(s.db, f) && ServeOk(cfg, s, t);
      NextContent(cfg, s, f, fault);
      AdvanceMoves(cfg, s, t, a, fault);
    }
  }

  lemma AdvanceMoves(cfg: Config, s: System, t: int, a: Access, fault: bool)
    requires ServeInv(cfg, s) && t in s.fetches && InProgress(s.fetches[t]) && FetchOk(s.db, s.fetches[t])
    requires ContentOk(cfg, NextFetch(s, s.fetches[t], fault))
    requires Answered(NextFetch(s, s.fetches[t], fault)) <==> Records(s.db, s.fetches[t], fault)
    ensures ServeInv(cfg, StepFetch(s, t, a, fault))
  {
    var f := s.fetches[t];
    MovedServe(cfg, s, StepFetch(s, t, a, fault), t, NextFetch(s, f, fault),
        Event(t, f.subId, FileIdOf(f), f.sub.revision));
  }

  lemma RequestServe(cfg: Config, s: System, path: string, get: bool)
    requires ServeInv(cfg, s)
    ensures ServeInv(cfg, StepRequest(s, path, get))
  {
    var s' := StepRequest(s, path, get);
    forall i | 0 <= i < |s.history| ensures s.history[i].fetch != s.nextId {
      assert s.history[i].fetch in s.fetches;
      assert ServeOk(cfg, s, s.history[i].fetch);
    }
    CountZero(s.history, ByFetch(s.nextId));
    forall u | u in s'.fetches ensures ServeOk(cfg, s', u) {
      if u != s.nextId {
        assert ServeOk(cfg, s, u);
      }
    }
  }

  lemma CrashServe(cfg: Config, s: System, kept: set<int>)
    requires ServeInv(cfg, s)
    ensures ServeInv(cfg, StepCrash(s, kept))
  {
    var s' := StepCrash(s, kept);
    forall u | u in s'.fetches ensures ServeOk(cfg, s', u) {
      assert ServeOk(cfg, s, u);
    }
  }

  lemma SameServe(cfg: Config, s: System, s': System)
    requires ServeInv(cfg, s) && s'.fetches == s.fetches && s'.history == s.history && s'.nextId >= s.nextId
    ensures ServeInv(cfg, s')
  {
    forall u | u in s'.fetches ensures ServeOk(cfg, s', u) {
      assert ServeOk(cfg, s, u);
    }
  }

  lemma StepServe(cfg: Config, base: Db, s: System, action: Action)
    requires Sound(cfg) && BlobInv(cfg, s) && Inv(base, s) && ServeInv(cfg, s)
    ensures ServeInv(cfg, Step(cfg, s, action))
  {
    match action
    case Request(path, get) => RequestServe(cfg, s, path, get);
    case Advance(fetch, access, fault) => AdvanceServe(cfg, base, s, fetch, access, fault);
    case Crash(kept) => CrashServe(cfg, s, kept);
    case _ =>
      OtherActionsServe(cfg, s, action);
      SameServe(cfg, s, Step(cfg, s, action));
  }

  lemma OtherActionsServe(cfg: Config, s: System, action: Action)
    requires !action.Request? && !action.Advance? && !action.Crash?
    ensures var s' := Step(cfg, s, action);
            s'.fetches == s.fetches && s'.history == s.history && s'.nextId >= s.nextId
  {
  }

  lemma {:induction false} RunServe(cfg: Config, base: Db, blobs: map<string, Bytes>, actions: seq<Action>)
    requires Consistent(cfg, base, blobs)
    ensures ServeInv(cfg, Run(cfg, Started(base, blobs), actions))
  {
    if actions != [] {
      var before := actions[..|actions| - 1];
      RunServe(cfg, base, blobs, before);
      RunKeepsBlobs(cfg, base, blobs, before);
      RunInv(cfg, base, blobs, before);
      StepServe(cfg, base, Run(cfg, Started(base, blobs), before), actions[|actions| - 1]);
    }
  }

  /** The response of a file subscription. At step `m` the request read the enabled row `f.sub` at the
      path it asked for, at a later step `n` the row `f.file` of the file that `f.sub` names; the body has
      the digests and size of that row, and the row, if it still exists, has them too. A GET
      recorded exactly one event, for this subscription, file and revision; a HEAD recorded none. */
  lemma ServedFilesAreExact(cfg: Config, base: Db, blobs: map<string, Bytes>, actions: seq<Action>, t: int)
    requires Consistent(cfg, base, blobs)
    requires var s := Run(cfg, Started(base, blobs), actions);
             t in s.fetches && s.fetches[t].ServedFile?
    ensures var s := Run(cfg, Started(base, blobs), actions);
            var f := s.fetches[t];
            && f.sub.kind == FileKind && Traced(cfg, Started(base, blobs), actions, t, f) && FileOfRow(s.db, f)
            && cfg.sha256(f.body) == f.file.sha256 && cfg.md5(f.body) == f.file.md5 && |f.body| == f.file.size
            && Count(s.history, ByFetch(t)) == (if f.get then 1 else 0)
    ensures var s := Run(cfg, Started(base, blobs), actions);
            var f := s.fetches[t];
            forall i :: 0 <= i < |s.history| && s.history[i].fetch == t ==>
              s.history[i] == Event(t, f.subId, f.fileId, f.sub.revision)
  {
    RunServe(cfg, base, blobs, actions);
    var s := Run(cfg, Started(base, blobs), actions);
    assert ServeOk(cfg, s, t);
    RunTraced(cfg, Started(base, blobs), actions, t);
    FilesBelongToRows(cfg, base, blobs, actions, t, s.fetches[t]);
    forall i | 0 <= i < |s.history| && s.history[i].fetch == t
      ensures s.history[i] == Event(t, s.fetches[t].subId, s.fetches[t].fileId, s.fetches[t].sub.revision)
    {
      assert EventOf(s.fetches[s.history[i].fetch], s.history[i]);
    }
  }

  /** What trace and row say of a served file: the bytes are those of the file the subscription
      pointed to when the request was made. */
  lemma ServedBytesAreTheFiles(cfg: Config, base: Db, blobs: map<string, Bytes>, actions: seq<Action>, t: int)
    returns (m: int, n: int)
    requires Consistent(cfg, base, blobs)
    requires var s := Run(cfg, Started(base, blobs), actions);
             t in s.fetches && s.fetches[t].ServedFile?
    ensures 0 <= m < n < |actions|
    ensures var f := Run(cfg, Started(base, blobs), actions).fetches[t];
            var asked, found := Run(cfg, Started(base, blobs), actions[..m]).db, Run(cfg, Started(base, blobs),
                actions[..n]).db;
            && actions[m] == Request(f.sub.path, f.get) && Run(cfg, Started(base, blobs), actions[..m]).nextId == t
            && actions[n].Advance? && actions[n].fetch == t
            && PathHit(asked, f.sub.path, f.subId) && asked.subs[f.subId].fileId == Ref(f.fileId)
            && f.fileId in found.files && cfg.sha256(f.body) == found.files[f.fileId].sha256
  {
    ServedFilesAreExact(cfg, base, blobs, actions, t);
    var start := Started(base, blobs);
    var f := Run(cfg, start, actions).fetches[t];
    m :| SnappedAt(cfg, start, actions, m, t, f) && exists n :: m < n && LocatedAt(cfg, start, actions, n, t, f);
    n :| m < n && LocatedAt(cfg, start, actions, n, t, f);
  }

  /** An answered request has one event exactly if it was a GET or is for a text subscription, and
      none otherwise: an answered HEAD is recorded if and only if the subscription is a text. */
  lemma AnsweredIsRecordedIff(cfg: Config, base: Db, blobs: map<string, Bytes>, actions: seq<Action>, t: int)
    requires Consistent(cfg, base, blobs)
    requires var s := Run(cfg, Started(base, blobs), actions);
             t in s.fetches && (s.fetches[t].ServedText? || s.fetches[t].ServedFile?)
    ensures var s := Run(cfg, Started(base, blobs), actions);
            var f := s.fetches[t];
            && Count(s.history, ByFetch(t)) == (if f.get || f.sub.kind == TextKind then 1 else 0)
            && (!f.get ==> (Count(s.history, ByFetch(t)) == 1 <==> f.sub.kind == TextKind))
  {
    RunServe(cfg, base, blobs, actions);
    assert ServeOk(cfg, Run(cfg, Started(base, blobs), actions), t);
  }

  /** A HEAD request of a text subscription raises its fetch count. */
  lemma HeadOfTextIsCounted(cfg: Config, base: Db, blobs: map<string, Bytes>, row: Sub, a: Access)
    requires base.subs == map[1 := row] && row.kind == TextKind && row.enabled && !Reserved(row.path)
    ensures var s := Run(cfg, Started(base, blobs), [Request(row.path, false), Advance(1, a, false)]);
            && s.fetches == map[1 := ServedText(1, row, false)]
            && 1 in s.db.subs && s.db.subs[1].fetchCount == row.fetchCount + 1
  {
    var s0 := Started(base, blobs);
    var actions := [Request(row.path, false), Advance(1, a, false)];
    assert actions[..1] == [Request(row.path, false)] && actions[..1][..0] == [];
    assert PathHit(base, row.path, 1);
    var s1 := StepRequest(s0, row.path, false);
    assert Run(cfg, s0, actions[..1]) == s1;
    assert s1.fetches == map[1 := Snapped(1, row, false)];
    assert Run(cfg, s0, actions) == StepFetch(s1, 1, a, false);
  }

  /** A request that was not served was not recorded either. */
  lemma UnservedIsUnrecorded(cfg: Config, base: Db, blobs: map<string, Bytes>, actions: seq<Action>, t: int)
    requires Consistent(cfg, base, blobs)
    requires t in Run(cfg, Started(base, blobs), actions).fetches
    requires var f := Run(cfg, Started(base, blobs), actions).fetches[t]; !f.ServedText? && !f.ServedFile?
    ensures Count(Run(cfg, Started(base, blobs), actions).history, ByFetch(t)) == 0
  {
    RunServe(cfg, base, blobs, actions);
    assert ServeOk(cfg, Run(cfg, Started(base, blobs), actions), t);
  }

  /** A GET whose subscription or file is gone when RecordAccess runs, or whose transaction
      fails, is not served and changes no table; and only then. */
  lemma RefusedRecordChangesNothing(s: System, t: int, a: Access, fault: bool)
    requires t in s.fetches && s.fetches[t].Opened? && s.fetches[t].get
    ensures var s' := StepFetch(s, t, a, fault);
            var f := s.fetches[t];
            && (s'.fetches[t] == Failed(500) <==>
                  fault || f.subId !in s.db.subs || (f.fileId > 0 && f.fileId !in s.db.files))
            && (s'.fetches[t] == Failed(500) ==> s'.db == s.db && s'.history == s.history)
            && (s'.fetches[t] != Failed(500) ==>
                  s'.fetches[t].ServedFile? && s'.history == s.history + [Event(t, f.subId, f.fileId, f.sub.revision)])
  {
  }

  // ---- Enabled implies attached ----

  /** Every toggle in the run reads and writes without interruption. */
  predicate AtomicToggles(actions: seq<Action>) {
    forall i :: 0 <= i < |actions| ==> !actions[i].ToggleRead? && !actions[i].ToggleWrite?
  }

  lemma StepKeepsAttached(cfg: Config, s: System, action: Action)
    requires EnabledAttached(s.db) && !action.ToggleWrite?
    ensures EnabledAttached(Step(cfg, s, action).db)
  {
    if action.Edit? {
      ApplyKeepsAttached(s.db, action.op);
    } else if action.Crash? {
      ApplyKeepsAttached(s.db, Migrate);
    }
  }

  lemma {:induction false} EnabledSubscriptionsHaveFiles(cfg: Config, base: Db, blobs: map<string, Bytes>,
                                                         actions: seq<Action>)
    requires EnabledAttached(base) && AtomicToggles(actions)
    ensures EnabledAttached(Run(cfg, Started(base, blobs), actions).db)
  {
    if actions != [] {
      var before := actions[..|actions| - 1];
      EnabledSubscriptionsHaveFiles(cfg, base, blobs, before);
      StepKeepsAttached(cfg, Run(cfg, Started(base, blobs), before), actions[|actions| - 1]);
    }
  }

  /** The write of an interrupted toggle keeps "enabled implies attached" exactly when the file
      subscription it enables still has its file. */
  lemma LateToggleKeepsAttachedIff(s: System, flip: int, now: string)
    requires EnabledAttached(s.db) && flip in s.flips
    ensures EnabledAttached(StepToggleWrite(s, flip, now).db)
       <==> var Flip(id, enable) := s.flips[flip];
            !(id in s.db.subs && enable && s.db.subs[id].kind == FileKind && s.db.subs[id].fileId.Null?)
  {
    SetEnabledKeepsAttachedIff(s.db, s.flips[flip].subId, s.flips[flip].enable, now);
  }

  /** A detachment between the read and the write of a toggle leaves an enabled subscription
      without a file. */
  lemma InterruptedToggleExample(cfg: Config, base: Db, blobs: map<string, Bytes>, row: Sub)
    requires base.subs == map[1 := row] && row.kind == FileKind && row.fileId.Ref? && !row.enabled
    ensures EnabledAttached(base)
    ensures var actions := [ToggleRead(1), Edit(Detach(1, "")), ToggleWrite(1, "")];
            !EnabledAttached(Run(cfg, Started(base, blobs), actions).db)
  {
    var s0 := Started(base, blobs);
    var actions := [ToggleRead(1), Edit(Detach(1, "")), ToggleWrite(1, "")];
    assert actions[..2] == [ToggleRead(1), Edit(Detach(1, ""))];
    assert actions[..2][..1] == [ToggleRead(1)] && actions[..2][..1][..0] == [];
    var s1 := Step(cfg, s0, ToggleRead(1));
    assert Run(cfg, s0, actions[..2][..1]) == s1;
    var s2 := Step(cfg, s1, Edit(Detach(1, "")));
    assert Run(cfg, s0, actions[..2]) == s2;
    var s3 := Step(cfg, s2, ToggleWrite(1, ""));
    assert s3.db.subs[1].enabled && s3.db.subs[1].fileId.Null?;
  }

  /** Even so, a file subscription is never served or recorded without a file, in any run. */
  lemma NothingServedWithoutFile(cfg: Config, base: Db, blobs: map<string, Bytes>, actions: seq<Action>, t: int, i: nat)
    requires Consistent(cfg, base, blobs)
    ensures var s := Run(cfg, Started(base, blobs), actions);
            && (t in s.fetches && s.fetches[t].ServedFile? ==> s.fetches[t].sub.fileId.Ref?)
            && (i < |s.history| && s.history[i].sub in s.db.subs && s.db.subs[s.history[i].sub].kind == FileKind ==>
                  s.history[i].file > 0)
  {
    RunServe(cfg, base, blobs, actions);
    RunInv(cfg, base, blobs, actions);
    var s := Run(cfg, Started(base, blobs), actions);
    if t in s.fetches {
      assert ServeOk(cfg, s, t);
    }
    if i < |s.history| {
      assert EventOk(s.db, s.history[i]);
    }
  }
}
