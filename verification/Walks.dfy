/** Uploads and deletions of the machine that are not interrupted: their calls one after another, as
    the sequential handlers make them. */
module Walks {
  import opened Wrappers
  import opened Schema
  import opened Transactions
  import opened Server
  import opened Evolution
  import opened FileStore

  /** One request: its job number, the constants of its run, and which of its calls fail. */
  datatype Call = Call(cfg: Config, t: int, now: string, contentType: string, fails: nat -> bool)

  function FateOf(c: Call, n: nat): Fate {
    if c.fails(n) then Fails else Works
  }

  /** The machine after calls `n` to `m - 1` of the request, with no other step in between. */
  ghost function Walk(c: Call, s: System, n: nat, m: nat): System {
    if m <= n then s else StepWork(c.cfg, Walk(c, s, n, m - 1), c.t, c.now, c.contentType, FateOf(c, m - 1))
  }

  lemma {:induction false} WalkOn(c: Call, s: System, n: nat, m: nat, k: nat)
    requires n <= m <= k
    ensures Walk(c, Walk(c, s, n, m), m, k) == Walk(c, s, n, k)
    decreases k
  {
    if m < k {
      WalkOn(c, s, n, m, k - 1);
    }
  }

  function Steps(c: Call, n: nat, m: nat): seq<Action> {
    if m <= n then [] else Steps(c, n, m - 1) + [Work(c.t, c.now, c.contentType, FateOf(c, m - 1))]
  }

  /** One call is one step of the machine. */
  lemma WalkOneMore(c: Call, s: System, n: nat, m: nat)
    requires n < m
    ensures Walk(c, s, n, m) == Step(c.cfg, Walk(c, s, n, m - 1), Work(c.t, c.now, c.contentType, FateOf(c, m - 1)))
  {
  }

  /** The uninterrupted walk is one of the machine's runs. */
  lemma {:induction false} WalkIsRun(c: Call, s: System, n: nat, m: nat)
    ensures Walk(c, s, n, m) == Run(c.cfg, s, Steps(c, n, m))
    decreases m
  {
    if m > n {
      WalkIsRun(c, s, n, m - 1);
      WalkOneMore(c, s, n, m);
      RunOneMore(c.cfg, s, Steps(c, n, m - 1), Work(c.t, c.now, c.contentType, FateOf(c, m - 1)));
      assert Steps(c, n, m) == Steps(c, n, m - 1) + [Work(c.t, c.now, c.contentType, FateOf(c, m - 1))];
    }
  }

  // ---- One call of an upload ----

  ghost predicate Uploading(c: Call, s: System, content: Bytes, name: string, stage: Stage) {
    c.t in s.jobs && s.jobs[c.t] == Upload(content, name, stage)
  }

  lemma UploadCall(c: Call, s: System, content: Bytes, name: string, stage: Stage, n: nat)
    requires Uploading(c, s, content, name, stage) && !stage.Done? && (stage.Waiting? ==> s.lock.None?)
    ensures var s' := Walk(c, s, n, n + 1);
            && Uploading(c, s', content, name, NextUpload(c.cfg, s, content, stage, c.t in s.temps, c.fails(n)))
            && s'.lock == LockAfter(s, c.t, stage) && s'.temps == TempsAfter(s, c.t, stage, c.fails(n))
            && s'.blobs == BlobsAfter(c.cfg, s, c.t, s.jobs[c.t], c.fails(n))
            && s'.db == DbAfter(c.cfg, s.db, s.jobs[c.t], c.now, c.contentType, c.fails(n))
  {
    assert Walk(c, s, n, n) == s;
  }

  /** From `s` on, the calls from number `n` to the outcome's next one lead there. */
  ghost predicate Reaches(c: Call, s: System, content: Bytes, name: string, found: RowRef, n: nat, o: Outcome) {
    && o.next >= n
    && (var s' := Walk(c, s, n, o.next);
        && Disk(s'.blobs, s'.temps) == o.disk && s'.db == s.db && s'.lock == s.lock
        && Uploading(c, s', content, name, if o.ok then AfterCommit(found) else Discard(Fault)))
  }

  /** The outcomes of the upload's Commit from a state of the machine on. */
  function PlacedFrom(c: Call, s: System, content: Bytes, n: nat): Outcome {
    Placed(Disk(s.blobs, s.temps), c.t, Key(c.cfg.sha256(content)), c.fails, n)
  }

  function CommittedFrom(c: Call, s: System, content: Bytes, n: nat): Outcome {
    Committed(Disk(s.blobs, s.temps), c.t, Key(c.cfg.sha256(content)), c.fails, n)
  }

  lemma UndoIsWalk(c: Call, s: System, content: Bytes, name: string, d: Disk, n: nat)
    requires Uploading(c, s, content, name, UndoRename) && c.t in d.temps && Key(c.cfg.sha256(content)) !in d.blobs
    requires Disk(s.blobs, s.temps) == Moved(d, c.t, Key(c.cfg.sha256(content)))
    ensures var s' := Walk(c, s, n, n + 1);
            && Disk(s'.blobs, s'.temps) == (if c.fails(n) then Moved(d, c.t, Key(c.cfg.sha256(content)))
                else Without(d, c.t))
            && s'.db == s.db && s'.lock == s.lock && Uploading(c, s', content, name, Discard(Fault))
  {
    var key := Key(c.cfg.sha256(content));
    UploadCall(c, s, content, name, UndoRename, n);
    assert d.blobs[key := d.temps[c.t]] - {key} == d.blobs;
  }

  lemma ChmodIsWalk(c: Call, s: System, content: Bytes, name: string, found: RowRef, d: Disk, n: nat)
    requires Uploading(c, s, content, name, Chmod(found)) && c.t in d.temps && Key(c.cfg.sha256(content)) !in d.blobs
    requires Disk(s.blobs, s.temps) == Moved(d, c.t, Key(c.cfg.sha256(content)))
    ensures Reaches(c, s, content, name, found, n, Renamed(d, c.t, Key(c.cfg.sha256(content)), c.fails, n))
  {
    UploadCall(c, s, content, name, Chmod(found), n);
    if c.fails(n) {
      assert Disk(Walk(c, s, n, n + 1).blobs, Walk(c, s, n, n + 1).temps) == Moved(d, c.t, Key(c.cfg.sha256(content)));
      UndoIsWalk(c, Walk(c, s, n, n + 1), content, name, d, n + 1);
      WalkOn(c, s, n, n + 1, n + 2);
    }
  }

  lemma ReachesAfterCall(c: Call, s: System, content: Bytes, name: string, found: RowRef, n: nat, o: Outcome)
    requires Reaches(c, Walk(c, s, n, n + 1), content, name, found, n + 1, o)
    requires Walk(c, s, n, n + 1).db == s.db && Walk(c, s, n, n + 1).lock == s.lock
    ensures Reaches(c, s, content, name, found, n, o)
  {
    WalkOn(c, s, n, n + 1, o.next);
  }

  lemma PlaceIsWalk(c: Call, s: System, content: Bytes, name: string, found: RowRef, n: nat)
    requires Uploading(c, s, content, name, if Key(c.cfg.sha256(content)) in s.blobs then DropTemp(found)
        else Rename(found))
    requires c.t in s.temps
    ensures Reaches(c, s, content, name, found, n, PlacedFrom(c, s, content, n))
  {
    var key := Key(c.cfg.sha256(content));
    UploadCall(c, s, content, name, if key in s.blobs then DropTemp(found) else Rename(found), n);
    if !c.fails(n) && key !in s.blobs {
      var d := Disk(s.blobs, s.temps);
      ChmodIsWalk(c, Walk(c, s, n, n + 1), content, name, found, d, n + 1);
      ReachesAfterCall(c, s, content, name, found, n, Renamed(d, c.t, key, c.fails, n + 1));
    }
  }

  lemma StatIsWalk(c: Call, s: System, content: Bytes, name: string, found: RowRef, n: nat)
    requires Uploading(c, s, content, name, StatDest(found)) && c.t in s.temps && !c.fails(n)
    ensures Reaches(c, s, content, name, found, n, PlacedFrom(c, s, content, n + 1))
  {
    UploadCall(c, s, content, name, StatDest(found), n);
    PlaceIsWalk(c, Walk(c, s, n, n + 1), content, name, found, n + 1);
    ReachesAfterCall(c, s, content, name, found, n, PlacedFrom(c, s, content, n + 1));
  }

  /** The machine after the upload was staged, with success or without. */
  ghost predicate Begun(c: Call, s: System, content: Bytes, name: string, begun: System) {
    exists fault, kept :: begun == StepBeginUpload(c.cfg, s, content, name, fault, kept)
  }

  lemma BeginCall(c: Call, s: System, content: Bytes, name: string, fault: bool, kept: Option<Bytes>)
    requires c.t == s.nextId
    ensures var s' := StepBeginUpload(c.cfg, s, content, name, fault, kept);
            var stage := StageAnswer(c.cfg, content, fault);
            && Uploading(c, s', content, name, stage) && s'.db == s.db && s'.blobs == s.blobs && s'.lock == s.lock
            && s'.temps == if stage.Waiting? then s.temps[c.t := content]
                else if kept.Some? then s.temps[c.t := kept.value] else s.temps
  {
  }

  /** Commit, call by call, does what the machine does from MakeDir on. */
  lemma CommitIsWalk(c: Call, s: System, content: Bytes, name: string, found: RowRef, n: nat)
    requires Uploading(c, s, content, name, MakeDir(found)) && c.t in s.temps
    ensures Reaches(c, s, content, name, found, n, CommittedFrom(c, s, content, n))
  {
    UploadCall(c, s, content, name, MakeDir(found), n);
    if !c.fails(n) {
      var s1 := Walk(c, s, n, n + 1);
      if c.fails(n + 1) {
        UploadCall(c, s1, content, name, StatDest(found), n + 1);
        WalkOn(c, s, n, n + 1, n + 2);
      } else {
        StatIsWalk(c, s1, content, name, found, n + 1);
        ReachesAfterCall(c, s, content, name, found, n,
                         PlacedFrom(c, s, content, n + 2));
      }
    }
  }

  lemma DigestsFound(db: Db, md5: string, sha256: string, id: int)
    requires Unique(db) && DigestsHit(db, md5, sha256, id)
    ensures ByDigests(db, md5, sha256) == Ref(id)
  {
  }

  lemma ShaFound(db: Db, sha256: string, id: int)
    requires Unique(db) && ShaHit(db, sha256, id)
    ensures BySha(db, sha256) == Ref(id)
  {
  }

  // ---- One call of a deletion ----

  ghost predicate Deleting(c: Call, s: System, fileId: int, stage: Stage) {
    c.t in s.jobs && s.jobs[c.t] == Deletion(fileId, stage)
  }

  lemma DeletionCall(c: Call, s: System, fileId: int, stage: Stage, n: nat)
    requires Deleting(c, s, fileId, stage) && !stage.Done? && (stage.Waiting? ==> s.lock.None?)
    requires stage.Waiting? || stage.ReadRow? || stage.DeleteRow? || stage.DeleteBlob? || stage.Finished?
    ensures var s' := Walk(c, s, n, n + 1);
            && Deleting(c, s', fileId, NextDeletion(s.db, fileId, stage, c.fails(n)))
            && s'.lock == LockAfter(s, c.t, stage) && s'.temps == s.temps
            && s'.blobs == BlobsAfter(c.cfg, s, c.t, s.jobs[c.t], c.fails(n))
            && s'.db == DbAfter(c.cfg, s.db, s.jobs[c.t], c.now, c.contentType, c.fails(n))
  {
    assert Walk(c, s, n, n) == s;
  }
}
