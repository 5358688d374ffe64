/** Public requests as sequential code over the store and the blob directory: each does exactly
    what its request does in the concurrent machine when nothing else runs in between. */
module PublicSite {
  import opened Wrappers
  import opened Schema
  import opened Transactions
  import opened StoreModel
  import opened Server
  import opened Evolution
  import opened FileStore

  /** The machine after the first `n` calls of request `t`. */
  ghost function FetchWalk(s: System, t: int, a: Access, fails: nat -> bool, n: nat): System {
    if n == 0 then s else StepFetch(FetchWalk(s, t, a, fails, n - 1), t, a, fails(n - 1))
  }

  function FetchSteps(t: int, a: Access, fails: nat -> bool, n: nat): seq<Action> {
    if n == 0 then [] else FetchSteps(t, a, fails, n - 1) + [Advance(t, a, fails(n - 1))]
  }

  /** The uninterrupted walk of a request is one of the machine's runs. */
  lemma {:induction false} FetchWalkIsRun(cfg: Config, s: System, t: int, a: Access, fails: nat -> bool, n: nat)
    ensures FetchWalk(s, t, a, fails, n) == Run(cfg, s, FetchSteps(t, a, fails, n))
  {
    if n > 0 {
      FetchWalkIsRun(cfg, s, t, a, fails, n - 1);
      RunOneMore(cfg, s, FetchSteps(t, a, fails, n - 1), Advance(t, a, fails(n - 1)));
    }
  }

  /** The store and the blobs are in the machine's state, and the request is at this stage. */
  ghost predicate AtStage(store: Store, storage: FileStorage, s: System, t: int, f: Fetch)
    reads store, storage
  {
    s.db == store.Snapshot() && s.blobs == storage.blobs && t in s.fetches && s.fetches[t] == f
  }

  lemma FetchCall(s: System, t: int, a: Access, fails: nat -> bool, n: nat, f: Fetch)
    requires var s1 := FetchWalk(s, t, a, fails, n); t in s1.fetches && s1.fetches[t] == f && InProgress(f)
    ensures var s1 := FetchWalk(s, t, a, fails, n);
            var s2 := FetchWalk(s, t, a, fails, n + 1);
            var records := Records(s1.db, f, fails(n));
            && t in s2.fetches && s2.fetches[t] == NextFetch(s1, f, fails(n)) && s2.blobs == s1.blobs
            && s2.db == (if records then Record(s1.db, f.subId, FileIdOf(f), f.sub.revision, a) else s1.db)
            && s2.history == s1.history + (if records then [Event(t, f.subId, FileIdOf(f), f.sub.revision)] else [])
  {
  }

  // ---- Requests that are answered ----

  /** The row that answers a path: enabled, and with a file if it is a file subscription. */
  predicate Servable(db: Db, path: string, id: int) {
    && !Reserved(path) && id in db.subs && db.subs[id].path == path && db.subs[id].enabled
    && (db.subs[id].kind == FileKind ==> db.subs[id].fileId.Ref?)
  }

  /** Every reference names a row, and every row has its blob. */
  ghost predicate AllThere(s: System) {
    References(s.db) && forall id :: id in s.db.files ==> s.db.files[id].storageKey in s.blobs
  }

  predicate NoneFails(fails: nat -> bool) {
    !fails(0) && !fails(1) && !fails(2)
  }

  /** The response that subscription `id` gives in this state: its text, or the bytes of its file. */
  ghost predicate Answers(s: System, id: int, get: bool, r: Fetch)
    requires id in s.db.subs && AllThere(s)
  {
    var sub := s.db.subs[id];
    if sub.kind == TextKind then r == ServedText(id, sub, get)
    else
      sub.fileId.Ref? && (var file := s.db.files[sub.fileId.id];
                          r == ServedFile(id, sub, sub.fileId.id, file, s.blobs[file.storageKey], get))
  }

  /** What the request leaves behind: a record, unless it was a HEAD of a file. */
  ghost predicate Recorded(s: System, s': System, t: int, id: int, get: bool, a: Access)
    requires id in s.db.subs
  {
    var sub := s.db.subs[id];
    var file := if sub.fileId.Ref? then sub.fileId.id else 0;
    if get || sub.kind == TextKind then
      && CanRecord(s.db, id, file) && s'.db == Record(s.db, id, file, sub.revision, a)
      && s'.history == s.history + [Event(t, id, file, sub.revision)]
    else s'.db == s.db && s'.history == s.history
  }

  /** An uninterrupted request for a servable path, none of whose calls fails, is answered. */
  lemma WalkAnswers(s: System, path: string, get: bool, a: Access, fails: nat -> bool, id: int)
    requires Unique(s.db) && AllThere(s) && NoneFails(fails) && Servable(s.db, path, id)
    ensures var s' := FetchWalk(StepRequest(s, path, get), s.nextId, a, fails, 3);
            && s.nextId in s'.fetches && Answers(s, id, get, s'.fetches[s.nextId])
            && Recorded(s, s', s.nextId, id, get, a) && s'.blobs == s.blobs
  {
    var begun, t, sub := StepRequest(s, path, get), s.nextId, s.db.subs[id];
    PathFound(s.db, path, id);
    assert FetchWalk(begun, t, a, fails, 0) == begun;
    FetchCall(begun, t, a, fails, 0, Snapped(id, sub, get));
    if sub.kind == TextKind {
      WalkStays(begun, t, a, fails, 1, 3);
    } else {
      var file := s.db.files[sub.fileId.id];
      FetchCall(begun, t, a, fails, 1, Located(id, sub, sub.fileId.id, file, get));
      FetchCall(begun, t, a, fails, 2, Opened(id, sub, sub.fileId.id, file, s.blobs[file.storageKey], get));
    }
  }

  /** Any other path is answered with 404, and nothing is recorded. */
  lemma WalkRefuses(s: System, path: string, get: bool, a: Access, fails: nat -> bool)
    requires Unique(s.db) && References(s.db) && !fails(0) && forall id :: !Servable(s.db, path, id)
    ensures var s' := FetchWalk(StepRequest(s, path, get), s.nextId, a, fails, 3);
            s.nextId in s'.fetches && s'.fetches[s.nextId] == Failed(404) && s'.db == s.db && s'.history == s.history
  {
    var begun, t := StepRequest(s, path, get), s.nextId;
    assert FetchWalk(begun, t, a, fails, 0) == begun;
    var f := begun.fetches[t];
    if f.Snapped? {
      assert !Servable(s.db, path, f.subId);
      FetchCall(begun, t, a, fails, 0, f);
      WalkStays(begun, t, a, fails, 1, 3);
    } else {
      WalkStays(begun, t, a, fails, 0, 3);
    }
  }

  lemma {:induction false} WalkStays(s: System, t: int, a: Access, fails: nat -> bool, n: nat, m: nat)
    requires var s1 := FetchWalk(s, t, a, fails, n); t in s1.fetches && !InProgress(s1.fetches[t])
    requires n <= m
    ensures FetchWalk(s, t, a, fails, m) == FetchWalk(s, t, a, fails, n)
    decreases m
  {
    if n < m {
      WalkStays(s, t, a, fails, n, m - 1);
    }
  }

  lemma PathFound(db: Db, path: string, id: int)
    requires Unique(db) && PathHit(db, path, id)
    ensures ByPath(db, path) == Ref(id)
  {
  }

  /** What an uninterrupted request answers and leaves behind: the servable row's response and its
      record, or 404 and nothing. */
  ghost predicate Responds(s: System, s': System, t: int, path: string, get: bool, a: Access, r: Fetch)
    requires AllThere(s)
  {
    && (forall id :: Servable(s.db, path, id) ==> Answers(s, id, get, r) && Recorded(s, s', t, id, get, a))
    && ((forall id :: !Servable(s.db, path, id)) ==> r == Failed(404) && s'.db == s.db && s'.history == s.history)
  }

  lemma EndResponds(s: System, path: string, get: bool, a: Access, fails: nat -> bool, n: nat)
    requires Unique(s.db) && n <= 3
    requires var end := FetchWalk(StepRequest(s, path, get), s.nextId, a, fails, n);
             s.nextId in end.fetches && !InProgress(end.fetches[s.nextId])
    ensures AllThere(s) && NoneFails(fails) ==>
              var end := FetchWalk(StepRequest(s, path, get), s.nextId, a, fails, n);
              Responds(s, end, s.nextId, path, get, a, end.fetches[s.nextId])
  {
    WalkStays(StepRequest(s, path, get), s.nextId, a, fails, n, 3);
    if AllThere(s) && NoneFails(fails) {
      forall id | Servable(s.db, path, id)
        ensures var end := FetchWalk(StepRequest(s, path, get), s.nextId, a, fails, n);
                Answers(s, id, get, end.fetches[s.nextId]) && Recorded(s, end, s.nextId, id, get, a)
      {
        WalkAnswers(s, path, get, a, fails, id);
      }
      if forall id :: !Servable(s.db, path, id) {
        WalkRefuses(s, path, get, a, fails);
      }
    }
  }

  /** The request was numbered and is at this stage; rows and blobs are as they were. */
  predicate Begins(s: System, s': System, f: Fetch) {
    s'.db == s.db && s'.blobs == s.blobs && s.nextId in s'.fetches && s'.fetches[s.nextId] == f
  }

  lemma NothingFound(s: System, path: string, get: bool)
    requires Reserved(path) || forall id :: !PathHit(s.db, path, id)
    ensures Begins(s, StepRequest(s, path, get), Failed(404))
  {
  }

  lemma RowFound(s: System, path: string, get: bool, id: int)
    requires !Reserved(path) && Unique(s.db) && PathHit(s.db, path, id)
    ensures Begins(s, StepRequest(s, path, get), Snapped(id, s.db.subs[id], get))
  {
    PathFound(s.db, path, id);
  }

  /** RecordAccess for a request that wants it, answered by the response. */
  method RecordAndServe(store: Store, storage: FileStorage, t: int, f: Fetch, a: Access, fails: nat -> bool, n: nat,
                        ghost s: System)
    returns (r: Fetch)
    requires AtStage(store, storage, FetchWalk(s, t, a, fails, n), t, f) && WantsRecord(f)
    modifies store
    ensures AtStage(store, storage, FetchWalk(s, t, a, fails, n + 1), t, r)
    ensures (r.ServedText? || r.ServedFile? || r == Failed(500))
  {
    FetchCall(s, t, a, fails, n, f);
    var recorded := store.RecordAccess(f.subId, f.sub.revision, FileIdOf(f), a, if fails(n) then 0 else 5);
    if recorded.Err? { return Failed(500); }
    if f.Snapped? {
      r := ServedText(f.subId, f.sub, f.get);
    } else {
      r := ServedFile(f.subId, f.sub, f.fileId, f.file, f.body, f.get);
    }
  }

  /** FileByID for a request that wants its file. */
  method Locate(store: Store, storage: FileStorage, t: int, f: Fetch, a: Access, fails: nat -> bool, ghost s: System)
    returns (r: Fetch)
    requires AtStage(store, storage, s, t, f) && f.Snapped? && f.sub.kind == FileKind
    ensures AtStage(store, storage, FetchWalk(s, t, a, fails, 1), t, r)
    ensures r.Failed? || (r.Located? && r.get == f.get)
  {
    assert FetchWalk(s, t, a, fails, 0) == s;
    FetchCall(s, t, a, fails, 0, f);
    if f.sub.fileId.Null? { return Failed(404); }
    var file := store.FileByID(f.sub.fileId.id, fails(0));
    if file.Err? { return Failed(if file.error == NoRows then 404 else 500); }
    r := Located(f.subId, f.sub, f.sub.fileId.id, file.value, f.get);
  }

  /** Open and Stat of the blob. */
  method OpenBlob(store: Store, storage: FileStorage, t: int, f: Fetch, a: Access, fails: nat -> bool, ghost s: System)
    returns (r: Fetch)
    requires AtStage(store, storage, FetchWalk(s, t, a, fails, 1), t, f) && f.Located?
    ensures AtStage(store, storage, FetchWalk(s, t, a, fails, 2), t, r)
    ensures r.Failed? || (r.Opened? && r.get == f.get)
  {
    FetchCall(s, t, a, fails, 1, f);
    var body := storage.Open(f.file.storageKey, fails(1));
    if body.Err? { return Failed(500); }
    r := Opened(f.subId, f.sub, f.fileId, f.file, body.value, f.get);
  }

  /** publicFileSubscription: the row, the blob, the record, the response. */
  method ServeFile(store: Store, storage: FileStorage, t: int, f: Fetch, a: Access, fails: nat -> bool, ghost s: System)
    returns (r: Fetch, n: nat)
    requires AtStage(store, storage, s, t, f) && f.Snapped? && f.sub.kind == FileKind
    modifies store
    ensures AtStage(store, storage, FetchWalk(s, t, a, fails, n), t, r) && !InProgress(r) && n <= 3
  {
    var located := Locate(store, storage, t, f, a, fails, s);
    if located.Failed? { return located, 1; }
    var withBlob := OpenBlob(store, storage, t, located, a, fails, s);
    if withBlob.Failed? { return withBlob, 2; }
    n := 3;
    if withBlob.get {
      r := RecordAndServe(store, storage, t, withBlob, a, fails, 2, s);
    } else {
      FetchCall(s, t, a, fails, 2, withBlob);
      r := ServedFile(withBlob.subId, withBlob.sub, withBlob.fileId, withBlob.file, withBlob.body, false);
    }
  }

  /** The subscription of the path: what the request is after its first read. */
  method Snap(store: Store, storage: FileStorage, path: string, get: bool, ghost s: System) returns (f: Fetch)
    requires s.db == store.Snapshot() && s.blobs == storage.blobs && Unique(s.db)
    ensures AtStage(store, storage, StepRequest(s, path, get), s.nextId, f)
    ensures f == Failed(404) || f.Snapped?
  {
    f := Failed(404);
    if Reserved(path) {
      NothingFound(s, path, get);
      return;
    }
    var hit := store.SubscriptionByPath(path);
    if hit.Err? {
      NothingFound(s, path, get);
      return;
    }
    RowFound(s, path, get, hit.value);
    f := Snapped(hit.value, store.subs[hit.value], get);
  }

  /** publicSubscription: an uninterrupted run of one request. */
  method Serve(store: Store, storage: FileStorage, t: int, path: string, get: bool, a: Access, fails: nat -> bool,
               ghost s: System)
    returns (r: Fetch, n: nat)
    requires s.db == store.Snapshot() && s.blobs == storage.blobs && t == s.nextId && Unique(s.db)
    modifies store
    ensures AtStage(store, storage, FetchWalk(StepRequest(s, path, get), t, a, fails, n), t, r) && !InProgress(r)
    ensures AllThere(s) && NoneFails(fails) ==>
              Responds(s, FetchWalk(StepRequest(s, path, get), t, a, fails, n), t, path, get, a, r)
  {
    ghost var begun := StepRequest(s, path, get);
    assert FetchWalk(begun, t, a, fails, 0) == begun;
    var f := Snap(store, storage, path, get, s);
    if f.Failed? {
      r, n := f, 0;
    } else if f.sub.kind == FileKind {
      r, n := ServeFile(store, storage, t, f, a, fails, begun);
    } else {
      r := RecordAndServe(store, storage, t, f, a, fails, 0, begun);
      n := 1;
    }
    EndResponds(s, path, get, a, fails, n);
  }

  /** toggleSubscription: read, check, write. */
  method ToggleSubscription(store: Store, id: int, now: string, fault: nat) returns (r: Result<()>)
    modifies store
    ensures store.Snapshot() == if r.Ok? then ToggleNow(old(store.Snapshot()), id, now) else old(store.Snapshot())
    ensures r.Err? && fault > 0 ==> ToggleNow(old(store.Snapshot()), id, now) == old(store.Snapshot())
  {
    if id !in store.subs { return Err(NoRows); }
    var sub := store.subs[id];
    if sub.kind == FileKind && !sub.enabled && sub.fileId.Null? { return Err(NoAssociations); }
    r := store.SetSubscriptionEnabled(id, !sub.enabled, now, fault);
  }
}
