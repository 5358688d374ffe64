/** What the sequential handlers inherit from the machine. */
module Sequential {
  import opened Wrappers
  import opened Schema
  import opened Transactions
  import opened Server
  import opened Walks
  import opened PublicSite
  import opened BlobProtocol
  import opened Counting
  import opened Evolution
  import opened Statistics
  import opened Provenance
  import Serving

  /** A handler's walk from a reachable state stays among the reachable states. */
  lemma WalkIsReachable(c: Call, base: Db, blobs: map<string, Bytes>, actions: seq<Action>, begin: Action, n: nat,
                        m: nat)
    ensures var s := Step(c.cfg, Run(c.cfg, Started(base, blobs), actions), begin);
            Walk(c, s, n, m) == Run(c.cfg, Started(base, blobs), actions + [begin] + Steps(c, n, m))
  {
    var all := actions + [begin];
    assert all[..|all| - 1] == actions;
    WalkIsRun(c, Run(c.cfg, Started(base, blobs), all), n, m);
    RunAppend(c.cfg, Started(base, blobs), all, Steps(c, n, m));
  }

  /** A public request that is handled without interruption from a reachable state on ends in a
      reachable state too. */
  lemma FetchIsReachable(cfg: Config, base: Db, blobs: map<string, Bytes>, actions: seq<Action>, path: string,
                         get: bool,
                         a: Access, fails: nat -> bool, n: nat)
    ensures var s := Run(cfg, Started(base, blobs), actions);
            FetchWalk(StepRequest(s, path, get), s.nextId, a, fails, n)
            == Run(cfg, Started(base, blobs), actions + [Request(path, get)] + FetchSteps(s.nextId, a, fails, n))
  {
    var s := Run(cfg, Started(base, blobs), actions);
    RequestLast(cfg, Started(base, blobs), actions, path, get);
    FetchWalkIsRun(cfg, StepRequest(s, path, get), s.nextId, a, fails, n);
    RunAppend(cfg, Started(base, blobs), actions + [Request(path, get)], FetchSteps(s.nextId, a, fails, n));
  }

  lemma RequestLast(cfg: Config, start: System, actions: seq<Action>, path: string, get: bool)
    ensures Run(cfg, start, actions + [Request(path, get)]) == StepRequest(Run(cfg, start, actions), path, get)
  {
    RunOneMore(cfg, start, actions, Request(path, get));
  }

  predicate TempsBelow(s: System) {
    forall t :: t in s.temps ==> t < s.nextId
  }

  lemma StepKeepsTempsBelow(cfg: Config, s: System, action: Action)
    requires TempsBelow(s)
    ensures TempsBelow(Step(cfg, s, action))
  {
  }

  /** In every reachable state the next request's name for a temporary file is free. */
  lemma {:induction false} TempNameIsFree(cfg: Config, base: Db, blobs: map<string, Bytes>, actions: seq<Action>)
    ensures TempsBelow(Run(cfg, Started(base, blobs), actions))
    ensures var s := Run(cfg, Started(base, blobs), actions); s.nextId !in s.temps
  {
    if actions != [] {
      TempNameIsFree(cfg, base, blobs, actions[..|actions| - 1]);
      StepKeepsTempsBelow(cfg, Run(cfg, Started(base, blobs), actions[..|actions| - 1]), actions[|actions| - 1]);
    }
  }

  /** The row an upload answered with describes its content, and the blob at its key is the content. */
  ghost predicate Complete(cfg: Config, s: System, id: int, content: Bytes) {
    && id in s.db.files
    && s.db.files[id].sha256 == cfg.sha256(content) && s.db.files[id].md5 == cfg.md5(content)
    && s.db.files[id].size == |content|
    && s.db.files[id].storageKey in s.blobs && s.blobs[s.db.files[id].storageKey] == content
  }

  lemma FinishedComplete(cfg: Config, s: System, t: int, content: Bytes, name: string, id: int)
    requires Sound(cfg) && BlobInv(cfg, s) && t in s.jobs && s.jobs[t] == Upload(content, name, Finished(Ok(id)))
    ensures Complete(cfg, s, id, content)
  {
    assert JobOk(cfg, s, t);
    assert HasBlob(cfg, s.db.files[id], s.blobs);
  }

  /** An upload that is about to answer with a row, in any run, has stored the bytes that were
      submitted when it began. */
  lemma SubmittedBytesAreStored(cfg: Config, base: Db, blobs: map<string, Bytes>, actions: seq<Action>, t: int, id: int)
    returns (m: int)
    requires Serving.Consistent(cfg, base, blobs)
    requires var s := Run(cfg, Started(base, blobs), actions);
             t in s.jobs && s.jobs[t].Upload? && s.jobs[t].stage == Finished(Ok(id))
    ensures 0 <= m < |actions| && actions[m].BeginUpload? && Run(cfg, Started(base, blobs), actions[..m]).nextId == t
    ensures Complete(cfg, Run(cfg, Started(base, blobs), actions), id, actions[m].content)
  {
    var s := Run(cfg, Started(base, blobs), actions);
    m := RunJobsTraced(cfg, Started(base, blobs), actions, t);
    Serving.RunKeepsBlobs(cfg, base, blobs, actions);
    FinishedComplete(cfg, s, t, s.jobs[t].content, s.jobs[t].name, id);
  }

  /** At the moment the handler answers, the file is stored completely. */
  lemma {:induction false} SavedFileIsComplete(c: Call, base: Db, blobs: map<string, Bytes>, actions: seq<Action>,
                                               begin: Action, m: nat, content: Bytes, name: string, id: int)
    requires Serving.Consistent(c.cfg, base, blobs) && begin.BeginUpload?
    requires var begun := Step(c.cfg, Run(c.cfg, Started(base, blobs), actions), begin);
             && c.t in begun.jobs && !(begun.jobs[c.t].stage == Done(Ok(id)))
             && Uploading(c, Walk(c, begun, 0, m), content, name, Done(Ok(id)))
    ensures Complete(c.cfg, Walk(c, Step(c.cfg, Run(c.cfg, Started(base, blobs), actions), begin), 0, m), id, content)
    decreases m
  {
    var begun := Step(c.cfg, Run(c.cfg, Started(base, blobs), actions), begin);
    if m > 0 {
      var s := Walk(c, begun, 0, m - 1);
      WalkIsReachable(c, base, blobs, actions, begin, 0, m - 1);
      Serving.RunKeepsBlobs(c.cfg, base, blobs, actions + [begin] + Steps(c, 0, m - 1));
      LastCall(c, s, content, name, id, m - 1);
      if Uploading(c, s, content, name, Done(Ok(id))) {
        SavedFileIsComplete(c, base, blobs, actions, begin, m - 1, content, name, id);
      } else {
        FinishedComplete(c.cfg, s, c.t, content, name, id);
      }
    }
  }

  /** The answer is given by the unlocking call, which changes neither rows nor blobs. */
  lemma LastCall(c: Call, s: System, content: Bytes, name: string, id: int, n: nat)
    requires Uploading(c, StepWork(c.cfg, s, c.t, c.now, c.contentType, FateOf(c, n)), content, name, Done(Ok(id)))
    ensures var s' := StepWork(c.cfg, s, c.t, c.now, c.contentType, FateOf(c, n));
            && s'.db == s.db && s'.blobs == s.blobs
            && (Uploading(c, s, content, name, Done(Ok(id))) || Uploading(c, s, content, name, Finished(Ok(id))))
  {
  }
}
