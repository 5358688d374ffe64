/** Why a public request of a run fails, and that one without such a reason is answered, however it
    interleaves with other requests. */
module Answers {
  import opened Wrappers
  import opened Schema
  import opened Transactions
  import opened Preservation
  import opened Server
  import opened Counting
  import opened Statistics
  import opened Evolution
  import opened BlobProtocol
  import opened Provenance
  import opened Serving
  import PublicSite
  import Sequential

  predicate Detached(f: Fetch) {
    f.Snapped? && f.sub.kind == FileKind && f.sub.fileId.Null?
  }

  /** The rows that the next call of the request needs are there. */
  predicate RowsThere(db: Db, f: Fetch)
    requires InProgress(f)
  {
    && (WantsRecord(f) ==> f.subId in db.subs)
    && (f.sub.kind == FileKind && (f.get || !f.Opened?) && f.sub.fileId.Ref? ==> f.sub.fileId.id in db.files)
  }

  /** No row for the path, or no file for the row. */
  ghost predicate NotFound(s: System, action: Action, t: int) {
    || (action.Request? && t == s.nextId && (Reserved(action.path) || forall id :: !PathHit(s.db, action.path, id)))
    || (action.Advance? && t == action.fetch && t in s.fetches
        && (Detached(s.fetches[t])
            || (s.fetches[t].Snapped? && !action.fault && !RowsThere(s.db, s.fetches[t]))))
  }

  /** A call failed, or found a row gone that was there before. */
  predicate Broken(s: System, action: Action, t: int) {
    && action.Advance? && t == action.fetch && t in s.fetches && InProgress(s.fetches[t]) && !Detached(s.fetches[t])
    && (action.fault || !RowsThere(s.db, s.fetches[t]))
  }

  /** What ends request `t` with this status; 0 is a stop of the process. */
  ghost predicate Ends(s: System, action: Action, t: int, status: int) {
    if status == 404 then NotFound(s, action, t)
    else if status == 500 then Broken(s, action, t)
    else status == 0 && action.Crash? && t in s.fetches && InProgress(s.fetches[t])
  }

  /** The file of the request is still the file of its id, and so is its blob. */
  ghost predicate BlobThere(s: System, f: Fetch) {
    f.Located? && f.sub.fileId == Ref(f.fileId) && f.fileId in s.db.files ==> f.file.storageKey in s.blobs
  }

  lemma NextEnds(s: System, t: int, a: Access, fault: bool)
    requires t in s.fetches && InProgress(s.fetches[t]) && FetchOk(s.db, s.fetches[t]) && BlobThere(s, s.fetches[t])
    ensures var g := NextFetch(s, s.fetches[t], fault);
            g.Failed? ==> Ends(s, Advance(t, a, fault), t, g.status)
  {
  }

  lemma RequestEnds(cfg: Config, s: System, path: string, get: bool)
    ensures var g := StepRequest(s, path, get).fetches[s.nextId];
            g.Failed? ==> Ends(s, Request(path, get), s.nextId, g.status)
  {
  }

  /** A request that fails at this step fails for a reason. */
  lemma StepEnds(cfg: Config, s: System, action: Action, t: int)
    requires t in Step(cfg, s, action).fetches && Step(cfg, s, action).fetches[t].Failed?
    requires t in s.fetches ==> !s.fetches[t].Failed? && FetchOk(s.db, s.fetches[t]) && BlobThere(s, s.fetches[t])
    ensures Ends(s, action, t, Step(cfg, s, action).fetches[t].status)
  {
    match action
    case Request(path, get) => RequestEnds(cfg, s, path, get);
    case Advance(u, a, fault) =>
      AdvancedFetch(s, u, a, fault, t);
      NextEnds(s, t, a, fault);
    case _ =>
      OthersFollow(cfg, s, action, t);
  }

  lemma RunBlobThere(cfg: Config, base: Db, blobs: map<string, Bytes>, actions: seq<Action>, t: int)
    requires Consistent(cfg, base, blobs) && t in Run(cfg, Started(base, blobs), actions).fetches
    ensures var s := Run(cfg, Started(base, blobs), actions); BlobThere(s, s.fetches[t])
  {
    var s := Run(cfg, Started(base, blobs), actions);
    if s.fetches[t].Located? && s.fetches[t].fileId in s.db.files {
      RunTraced(cfg, Started(base, blobs), actions, t);
      FilesBelongToRows(cfg, base, blobs, actions, t, s.fetches[t]);
      RunKeepsBlobs(cfg, base, blobs, actions);
      assert HasBlob(cfg, s.db.files[s.fetches[t].fileId], s.blobs);
    }
  }

  /** Every failed request of every run failed at a step that gives the reason for its status: 404
      without an enabled row at the path or without a file, 500 when a call of its own failed or a row it
      had read before was gone, and no answer only because the process stopped. */
  lemma {:induction false} FailedForAReason(cfg: Config, base: Db, blobs: map<string, Bytes>, actions: seq<Action>,
                                            t: int)
    returns (m: int)
    requires Consistent(cfg, base, blobs)
    requires var s := Run(cfg, Started(base, blobs), actions); t in s.fetches && s.fetches[t].Failed?
    ensures 0 <= m < |actions|
    ensures Ends(Run(cfg, Started(base, blobs), actions[..m]), actions[m], t,
                 Run(cfg, Started(base, blobs), actions).fetches[t].status)
  {
    var before, action := actions[..|actions| - 1], actions[|actions| - 1];
    var s := Run(cfg, Started(base, blobs), before);
    if t in s.fetches && s.fetches[t].Failed? {
      m := FailedForAReason(cfg, base, blobs, before, t);
      RunServe(cfg, base, blobs, before);
      FailedStays(cfg, s, action, t);
      EarlierStep(cfg, Started(base, blobs), actions, m);
    } else {
      LastStepEnds(cfg, base, blobs, before, action, t);
      m := |before|;
    }
  }

  lemma EarlierStep(cfg: Config, start: System, actions: seq<Action>, m: int)
    requires 0 <= m < |actions| - 1
    ensures var before := actions[..|actions| - 1]; actions[m] == before[m] && actions[..m] == before[..m]
  {
  }

  lemma LastStepEnds(cfg: Config, base: Db, blobs: map<string, Bytes>, before: seq<Action>, action: Action, t: int)
    requires Consistent(cfg, base, blobs)
    requires var s := Run(cfg, Started(base, blobs), before);
             && (t in s.fetches ==> !s.fetches[t].Failed?)
             && t in Step(cfg, s, action).fetches && Step(cfg, s, action).fetches[t].Failed?
    ensures var s := Run(cfg, Started(base, blobs), before);
            Ends(s, action, t, Step(cfg, s, action).fetches[t].status)
  {
    var s := Run(cfg, Started(base, blobs), before);
    if t in s.fetches {
      RunBlobThere(cfg, base, blobs, before, t);
      RunInv(cfg, base, blobs, before);
    }
    StepEnds(cfg, s, action, t);
  }

  lemma OthersLeaveFailed(cfg: Config, s: System, action: Action, t: int)
    requires !action.Request? && !action.Advance? && t in s.fetches && s.fetches[t].Failed?
    ensures t in Step(cfg, s, action).fetches && Step(cfg, s, action).fetches[t] == s.fetches[t]
  {
  }

  lemma FailedStays(cfg: Config, s: System, action: Action, t: int)
    requires ServeInv(cfg, s) && t in s.fetches && s.fetches[t].Failed?
    ensures t in Step(cfg, s, action).fetches && Step(cfg, s, action).fetches[t] == s.fetches[t]
  {
    assert ServeOk(cfg, s, t);
    match action
    case Request(path, get) =>
    case Advance(u, a, fault) =>
    case _ => OthersLeaveFailed(cfg, s, action, t);
  }

  /** In no run a subscription at the root or at a path that begins with /admin is served, even if it is enabled. */
  lemma ReservedPathsAreNotServed(cfg: Config, base: Db, blobs: map<string, Bytes>, actions: seq<Action>, t: int)
    requires t in Run(cfg, Started(base, blobs), actions).fetches
    requires !Run(cfg, Started(base, blobs), actions).fetches[t].Failed?
    ensures var path := Run(cfg, Started(base, blobs), actions).fetches[t].sub.path;
            path != "/" && !("/admin" <= path)
  {
    RunTraced(cfg, Started(base, blobs), actions, t);
  }

  // ---- Progress ----

  /** The calls of request `t` among these steps. */
  function Calls(actions: seq<Action>, t: int): nat {
    if actions == [] then 0
    else
      var last := actions[|actions| - 1];
      Calls(actions[..|actions| - 1], t) + (if last.Advance? && last.fetch == t then 1 else 0)
  }

  /** The calls a request has left. */
  function CallsLeft(f: Fetch): nat {
    if f.Snapped? then 3 else if f.Located? then 2 else if f.Opened? then 1 else 0
  }

  lemma StepCalls(cfg: Config, s: System, action: Action, t: int)
    requires t in s.fetches && t < s.nextId
    ensures var s' := Step(cfg, s, action);
            && t in s'.fetches && t < s'.nextId
            && CallsLeft(s'.fetches[t]) <= (if action.Advance? && action.fetch == t && CallsLeft(s.fetches[t]) > 0
                                            then CallsLeft(s.fetches[t]) - 1 else CallsLeft(s.fetches[t]))
  {
    match action
    case Request(path, get) =>
    case Advance(u, a, fault) => AdvanceCalls(s, u, a, fault, t);
    case _ => OthersLeaveOrEnd(cfg, s, action, t);
  }

  lemma AdvanceCalls(s: System, u: int, a: Access, fault: bool, t: int)
    requires t in s.fetches && t < s.nextId
    ensures var s' := StepFetch(s, u, a, fault);
            && t in s'.fetches && t < s'.nextId
            && CallsLeft(s'.fetches[t]) <= (if u == t && CallsLeft(s.fetches[t]) > 0 then CallsLeft(s.fetches[t]) - 1
                                            else CallsLeft(s.fetches[t]))
  {
    if InProgress(s.fetches[t]) {
      NextCarries(s, s.fetches[t], fault);
    }
  }

  lemma OthersLeaveOrEnd(cfg: Config, s: System, action: Action, t: int)
    requires !action.Request? && !action.Advance? && t in s.fetches && t < s.nextId
    ensures var s' := Step(cfg, s, action);
            t in s'.fetches && t < s'.nextId && (s'.fetches[t] == s.fetches[t] || s'.fetches[t].Failed?)
  {
  }

  lemma {:induction false} RunCalls(cfg: Config, s: System, actions: seq<Action>, t: int)
    requires t in s.fetches && t < s.nextId
    ensures var s' := Run(cfg, s, actions);
            && t in s'.fetches && t < s'.nextId
            && (CallsLeft(s'.fetches[t]) == 0 || CallsLeft(s'.fetches[t]) + Calls(actions, t) <= 3)
  {
    if actions != [] {
      var before := actions[..|actions| - 1];
      RunCalls(cfg, s, before, t);
      StepCalls(cfg, Run(cfg, s, before), actions[|actions| - 1], t);
    }
  }

  /** A request that has made three calls is over; unless some step gave a reason to fail, it was served. */
  lemma ServedUnlessAReason(cfg: Config, base: Db, blobs: map<string, Bytes>, a: seq<Action>, b: seq<Action>, t: int)
    returns (m: int, status: int)
    requires Consistent(cfg, base, blobs)
    requires t in Run(cfg, Started(base, blobs), a).fetches && Calls(b, t) >= 3
    ensures var s := Run(cfg, Started(base, blobs), a + b);
            && t in s.fetches
            && (s.fetches[t].ServedText? || s.fetches[t].ServedFile?
                || (0 <= m < |a + b| && Ends(Run(cfg, Started(base, blobs), (a + b)[..m]), (a + b)[m], t, status)))
  {
    var start := Started(base, blobs);
    RunServe(cfg, base, blobs, a);
    assert ServeOk(cfg, Run(cfg, start, a), t);
    RunCalls(cfg, Run(cfg, start, a), b, t);
    RunAppend(cfg, start, a, b);
    m, status := 0, 0;
    if Run(cfg, start, a + b).fetches[t].Failed? {
      status := Run(cfg, start, a + b).fetches[t].status;
      m := FailedForAReason(cfg, base, blobs, a + b, t);
    }
  }

  // ---- Uninterrupted requests ----

  /** In every reachable state every reference names a row and every row has its blob. */
  lemma ReachableIsThere(cfg: Config, base: Db, blobs: map<string, Bytes>, actions: seq<Action>)
    requires Consistent(cfg, base, blobs)
    ensures var s := Run(cfg, Started(base, blobs), actions); Unique(s.db) && PublicSite.AllThere(s)
  {
    var s := Run(cfg, Started(base, blobs), actions);
    RunKeepsBlobs(cfg, base, blobs, actions);
    RunInv(cfg, base, blobs, actions);
    forall id | id in s.db.files ensures s.db.files[id].storageKey in s.blobs {
      assert HasBlob(cfg, s.db.files[id], s.blobs);
    }
  }

  /** From every reachable state a request for an enabled subscription that has what it serves is
      answered with it, when nothing comes in between: a file with the row and the bytes of that moment.
      A GET, and a HEAD of a text, is counted once and logged with its own access; a HEAD of a
      file leaves no trace. */
  lemma RequestIsAnswered(cfg: Config, base: Db, blobs: map<string, Bytes>, actions: seq<Action>, path: string,
                          get: bool, a: Access, fails: nat -> bool, id: int)
    requires Consistent(cfg, base, blobs) && PublicSite.NoneFails(fails)
    requires PublicSite.Servable(Run(cfg, Started(base, blobs), actions).db, path, id)
    ensures var s := Run(cfg, Started(base, blobs), actions);
            var t := s.nextId;
            var s' := Run(cfg, Started(base, blobs),
                actions + [Request(path, get)] + PublicSite.FetchSteps(t, a, fails, 3));
            && t in s'.fetches && !s'.fetches[t].Failed?
            && s'.fetches[t].subId == id && s'.fetches[t].sub == s.db.subs[id]
            && (s.db.subs[id].kind == TextKind ==> s'.fetches[t].ServedText?)
            && (s.db.subs[id].kind == FileKind ==>
                  var fileId := s.db.subs[id].fileId.id;
                  && s'.fetches[t].ServedFile? && s'.fetches[t].fileId == fileId && fileId in s.db.files
                  && s'.fetches[t].file == s.db.files[fileId] && Describes(cfg, s.db.files[fileId], s'.fetches[t].body))
            && Count(s'.history, ByFetch(t)) == (if get || s.db.subs[id].kind == TextKind then 1 else 0)
            && PublicSite.Recorded(s, s', t, id, get, a)
  {
    var s := Run(cfg, Started(base, blobs), actions);
    var all := actions + [Request(path, get)] + PublicSite.FetchSteps(s.nextId, a, fails, 3);
    ReachableIsThere(cfg, base, blobs, actions);
    RunKeepsBlobs(cfg, base, blobs, actions);
    PublicSite.WalkAnswers(s, path, get, a, fails, id);
    Sequential.FetchIsReachable(cfg, base, blobs, actions, path, get, a, fails, 3);
    if s.db.subs[id].kind == FileKind {
      assert HasBlob(cfg, s.db.files[s.db.subs[id].fileId.id], s.blobs);
    }
    AnsweredIsRecordedIff(cfg, base, blobs, all, s.nextId);
  }
}
