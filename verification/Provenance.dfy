/** Where the rows of a public request come from: for every request in a run, the moments at which
    its subscription and its file were read. */
module Provenance {
  import opened Wrappers
  import opened Schema
  import opened Transactions
  import opened Preservation
  import opened Server
  import opened Counting
  import opened Statistics
  import opened Evolution

  predicate HasFile(f: Fetch) {
    f.Located? || f.Opened? || f.ServedFile?
  }

  /** Step `m` was request `t`: it asked for the path of the enabled row it got. */
  ghost predicate SnappedAt(cfg: Config, start: System, actions: seq<Action>, m: int, t: int, f: Fetch)
    requires !f.Failed?
  {
    && 0 <= m < |actions| && actions[m] == Request(f.sub.path, f.get)
    && (var s := Run(cfg, start, actions[..m]);
        s.nextId == t && f.subId in s.db.subs && s.db.subs[f.subId] == f.sub && f.sub.enabled)
    && !Reserved(f.sub.path)
  }

  /** Step `n` was the request's file lookup: it got the row its snapshot named. */
  ghost predicate LocatedAt(cfg: Config, start: System, actions: seq<Action>, n: int, t: int, f: Fetch)
    requires HasFile(f)
  {
    && 0 <= n < |actions| && actions[n].Advance? && actions[n].fetch == t && f.sub.fileId == Ref(f.fileId)
    && (var db := Run(cfg, start, actions[..n]).db;
        f.fileId in db.files && db.files[f.fileId] == f.file)
  }

  /** The request was read as it claims: first its subscription, later its file. */
  ghost predicate Traced(cfg: Config, start: System, actions: seq<Action>, t: int, f: Fetch) {
    f.Failed? || exists m :: SnappedAt(cfg, start, actions, m, t, f)
                          && (HasFile(f) ==> exists n :: m < n && LocatedAt(cfg, start, actions, n, t, f))
  }

  /** The request moved on, with the same subscription and the same file. */
  predicate Carries(f: Fetch, g: Fetch) {
    !f.Failed? && !g.Failed? && g.subId == f.subId && g.sub == f.sub && g.get == f.get
    && (HasFile(g) ==> HasFile(f) && g.fileId == f.fileId && g.file == f.file)
  }

  /** The request read the row its snapshot names. */
  predicate Locates(db: Db, f: Fetch, g: Fetch) {
    f.Snapped? && g.Located? && g.subId == f.subId && g.sub == f.sub && g.get == f.get
    && f.sub.fileId == Ref(g.fileId) && g.fileId in db.files && g.file == db.files[g.fileId]
  }

  lemma NextCarries(s: System, f: Fetch, fault: bool)
    requires InProgress(f)
    ensures var g := NextFetch(s, f, fault); g.Failed? || Carries(f, g) || Locates(s.db, f, g)
  {
  }

  /** The new request of a step. */
  predicate Snaps(db: Db, action: Action, g: Fetch) {
    && g.Snapped? && action == Request(g.sub.path, g.get)
    && g.subId in db.subs && db.subs[g.subId] == g.sub && g.sub.enabled
    && !Reserved(g.sub.path)
  }

  /** How a step treats request `t`. */
  ghost predicate Follows(s: System, action: Action, t: int, g: Fetch) {
    || g.Failed?
    || (t in s.fetches && Carries(s.fetches[t], g))
    || (t in s.fetches && action.Advance? && action.fetch == t && Locates(s.db, s.fetches[t], g))
    || (t == s.nextId && Snaps(s.db, action, g))
  }

  lemma RequestFollows(s: System, path: string, get: bool, t: int)
    requires t in StepRequest(s, path, get).fetches
    ensures Follows(s, Request(path, get), t, StepRequest(s, path, get).fetches[t])
  {
  }

  lemma AdvancedFetch(s: System, u: int, a: Access, fault: bool, t: int)
    requires t in StepFetch(s, u, a, fault).fetches
    ensures t in s.fetches
    ensures StepFetch(s, u, a, fault).fetches[t]
            == if t == u && InProgress(s.fetches[t]) then NextFetch(s, s.fetches[t], fault) else s.fetches[t]
  {
  }

  lemma AdvanceFollows(s: System, u: int, a: Access, fault: bool, t: int)
    requires t in StepFetch(s, u, a, fault).fetches
    ensures Follows(s, Advance(u, a, fault), t, StepFetch(s, u, a, fault).fetches[t])
  {
    AdvancedFetch(s, u, a, fault, t);
    if InProgress(s.fetches[t]) {
      NextCarries(s, s.fetches[t], fault);
    }
  }

  lemma OthersFollow(cfg: Config, s: System, action: Action, t: int)
    requires !action.Request? && !action.Advance? && t in Step(cfg, s, action).fetches
    ensures Follows(s, action, t, Step(cfg, s, action).fetches[t])
  {
    var g := Step(cfg, s, action).fetches[t];
    assert t in s.fetches && (g == s.fetches[t] || g.Failed?);
  }

  lemma StepFollows(cfg: Config, s: System, action: Action, t: int)
    requires t in Step(cfg, s, action).fetches
    ensures Follows(s, action, t, Step(cfg, s, action).fetches[t])
  {
    match action
    case Request(path, get) => RequestFollows(s, path, get, t);
    case Advance(u, a, fault) => AdvanceFollows(s, u, a, fault, t);
    case _ => OthersFollow(cfg, s, action, t);
  }

  lemma EarlierRun(cfg: Config, start: System, before: seq<Action>, action: Action, m: int)
    requires 0 <= m <= |before|
    ensures (before + [action])[..m] == before[..m]
    ensures m < |before| ==> (before + [action])[m] == before[m]
    ensures m == |before| ==> (before + [action])[m] == action && (before + [action])[..m] == before
  {
  }

  lemma SnappedLater(cfg: Config, start: System, before: seq<Action>, action: Action, m: int, t: int,
                     f: Fetch, g: Fetch)
    requires !f.Failed? && !g.Failed? && SnappedAt(cfg, start, before, m, t, f)
    requires g.subId == f.subId && g.sub == f.sub && g.get == f.get
    ensures SnappedAt(cfg, start, before + [action], m, t, g)
  {
    EarlierRun(cfg, start, before, action, m);
  }

  lemma LocatedLater(cfg: Config, start: System, before: seq<Action>, action: Action, n: int, t: int, f: Fetch,
                     g: Fetch)
    requires HasFile(f) && HasFile(g) && LocatedAt(cfg, start, before, n, t, f) && Carries(f, g)
    ensures LocatedAt(cfg, start, before + [action], n, t, g)
  {
    EarlierRun(cfg, start, before, action, n);
  }

  lemma CarriedTraced(cfg: Config, start: System, before: seq<Action>, action: Action, t: int, f: Fetch, g: Fetch)
    requires Traced(cfg, start, before, t, f) && Carries(f, g)
    ensures Traced(cfg, start, before + [action], t, g)
  {
    var m :| SnappedAt(cfg, start, before, m, t, f)
          && (HasFile(f) ==> exists n :: m < n && LocatedAt(cfg, start, before, n, t, f));
    SnappedLater(cfg, start, before, action, m, t, f, g);
    if HasFile(g) {
      var n :| m < n && LocatedAt(cfg, start, before, n, t, f);
      LocatedLater(cfg, start, before, action, n, t, f, g);
    }
  }

  lemma LocatedTraced(cfg: Config, start: System, before: seq<Action>, action: Action, t: int, f: Fetch, g: Fetch)
    requires Traced(cfg, start, before, t, f) && Locates(Run(cfg, start, before).db, f, g)
    requires action.Advance? && action.fetch == t
    ensures Traced(cfg, start, before + [action], t, g)
  {
    var m :| SnappedAt(cfg, start, before, m, t, f);
    SnappedLater(cfg, start, before, action, m, t, f, g);
    EarlierRun(cfg, start, before, action, |before|);
    assert LocatedAt(cfg, start, before + [action], |before|, t, g);
  }

  lemma SnappedTraced(cfg: Config, start: System, before: seq<Action>, action: Action, t: int, g: Fetch)
    requires t == Run(cfg, start, before).nextId && Snaps(Run(cfg, start, before).db, action, g)
    ensures Traced(cfg, start, before + [action], t, g)
  {
    EarlierRun(cfg, start, before, action, |before|);
    assert SnappedAt(cfg, start, before + [action], |before|, t, g);
  }

  /** Every request of a run is traced. */
  lemma {:induction false} RunTraced(cfg: Config, start: System, actions: seq<Action>, t: int)
    requires start.fetches == map[] && t in Run(cfg, start, actions).fetches
    ensures Traced(cfg, start, actions, t, Run(cfg, start, actions).fetches[t])
  {
    if actions != [] {
      var before, action := actions[..|actions| - 1], actions[|actions| - 1];
      var s := Run(cfg, start, before);
      var g := Step(cfg, s, action).fetches[t];
      assert actions == before + [action];
      StepFollows(cfg, s, action, t);
      if t in s.fetches {
        RunTraced(cfg, start, before, t);
      }
      FollowsTraced(cfg, start, before, action, t, g);
    }
  }

  lemma FollowsTraced(cfg: Config, start: System, before: seq<Action>, action: Action, t: int, g: Fetch)
    requires Follows(Run(cfg, start, before), action, t, g)
    requires t in Run(cfg, start, before).fetches ==> Traced(cfg, start, before, t, Run(cfg, start, before).fetches[t])
    ensures Traced(cfg, start, before + [action], t, g)
  {
    var s := Run(cfg, start, before);
    if !g.Failed? {
      if t == s.nextId && Snaps(s.db, action, g) {
        SnappedTraced(cfg, start, before, action, t, g);
      } else if Carries(s.fetches[t], g) {
        CarriedTraced(cfg, start, before, action, t, s.fetches[t], g);
      } else {
        LocatedTraced(cfg, start, before, action, t, s.fetches[t], g);
      }
    }
  }

  /** The file of a request is the row of its id: read as such, and the same content still if the
      row exists. */
  predicate FileOfRow(db: Db, f: Fetch)
    requires HasFile(f)
  {
    && f.sub.fileId == Ref(f.fileId) && 0 < f.fileId < db.nextFile
    && (f.fileId in db.files ==> SameContent(db.files[f.fileId], f.file))
  }

  lemma LaterRow(cfg: Config, base: Db, blobs: map<string, Bytes>, a: seq<Action>, b: seq<Action>, f: Fetch)
    requires Integrity(base) && base.counted && HasFile(f) && f.sub.fileId == Ref(f.fileId)
    requires var db := Run(cfg, Started(base, blobs), a).db; f.fileId in db.files && db.files[f.fileId] == f.file
    ensures FileOfRow(Run(cfg, Started(base, blobs), a + b).db, f)
  {
    var s := Run(cfg, Started(base, blobs), a);
    RunInv(cfg, base, blobs, a);
    RunAppend(cfg, Started(base, blobs), a, b);
    RunDescends(cfg, base, s, b);
    assert FileDescends(s.db, Run(cfg, s, b).db, f.fileId);
  }

  lemma LookedUpRow(cfg: Config, base: Db, blobs: map<string, Bytes>, actions: seq<Action>, n: int, t: int, f: Fetch)
    requires Integrity(base) && base.counted && HasFile(f) && LocatedAt(cfg, Started(base, blobs), actions, n, t, f)
    ensures FileOfRow(Run(cfg, Started(base, blobs), actions).db, f)
  {
    assert actions[..n] + actions[n..] == actions;
    LaterRow(cfg, base, blobs, actions[..n], actions[n..], f);
  }

  lemma FilesBelongToRows(cfg: Config, base: Db, blobs: map<string, Bytes>, actions: seq<Action>, t: int, f: Fetch)
    requires Integrity(base) && base.counted && HasFile(f) && Traced(cfg, Started(base, blobs), actions, t, f)
    ensures FileOfRow(Run(cfg, Started(base, blobs), actions).db, f)
  {
    var start := Started(base, blobs);
    var m :| SnappedAt(cfg, start, actions, m, t, f) && exists n :: m < n && LocatedAt(cfg, start, actions, n, t, f);
    var n :| m < n && LocatedAt(cfg, start, actions, n, t, f);
    LookedUpRow(cfg, base, blobs, actions, n, t, f);
  }

  // ---- Uploads and deletions ----

  /** The step that begins this job. */
  predicate Begins(action: Action, job: Job) {
    match job
    case Upload(content, name, _) => action.BeginUpload? && action.content == content && action.name == name
    case Deletion(fileId, _) => action == BeginDeletion(fileId)
  }

  /** Step `m` began job `t`: what it uploads or deletes is what was submitted then. */
  ghost predicate BegunAt(cfg: Config, start: System, actions: seq<Action>, m: int, t: int, job: Job) {
    0 <= m < |actions| && Run(cfg, start, actions[..m]).nextId == t && Begins(actions[m], job)
  }

  predicate SameWork(a: Job, b: Job) {
    match a
    case Upload(content, name, _) => b.Upload? && b.content == content && b.name == name
    case Deletion(fileId, _) => b.Deletion? && b.fileId == fileId
  }

  lemma StepBegins(cfg: Config, s: System, action: Action, t: int)
    requires t in Step(cfg, s, action).jobs
    ensures var job := Step(cfg, s, action).jobs[t];
            (t in s.jobs && SameWork(s.jobs[t], job)) || (t == s.nextId && Begins(action, job))
  {
  }

  /** Every job of a run works on what was submitted when it began. */
  lemma {:induction false} RunJobsTraced(cfg: Config, start: System, actions: seq<Action>, t: int) returns (m: int)
    requires start.jobs == map[] && t in Run(cfg, start, actions).jobs
    ensures BegunAt(cfg, start, actions, m, t, Run(cfg, start, actions).jobs[t])
  {
    var before, action := actions[..|actions| - 1], actions[|actions| - 1];
    var s := Run(cfg, start, before);
    StepBegins(cfg, s, action, t);
    if t == s.nextId && Begins(action, Step(cfg, s, action).jobs[t]) {
      m := |before|;
    } else {
      m := RunJobsTraced(cfg, start, before, t);
      assert actions == before + [action];
      EarlierRun(cfg, start, before, action, m);
    }
  }
}
