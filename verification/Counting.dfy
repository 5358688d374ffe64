/** Exact counting over every run: what the counters of the store say about the public
    requests that were recorded, however requests and edits interleave. */
module Counting {
  import opened Wrappers
  import opened Schema
  import opened Transactions
  import opened Preservation
  import opened Server

  // ---- Counting recorded events ----

  datatype Pattern =
    | BySub(sub: int)
    | ByFile(file: int)
    | ByPair(file: int, sub: int)
    | ByRevision(sub: int, revision: nat)
    | ByFetch(fetch: int)

  predicate Matches(p: Pattern, e: Event) {
    match p
    case BySub(sub) => e.sub == sub
    case ByFile(file) => e.file == file
    case ByPair(file, sub) => e.file == file && e.sub == sub
    case ByRevision(sub, revision) => e.sub == sub && e.revision == revision
    case ByFetch(fetch) => e.fetch == fetch
  }

  function Count(h: seq<Event>, p: Pattern): nat {
    if h == [] then 0
    else Count(h[..|h| - 1], p) + (if Matches(p, h[|h| - 1]) then 1 else 0)
  }

  lemma CountAppend(h: seq<Event>, e: Event, p: Pattern)
    ensures Count(h + [e], p) == Count(h, p) + (if Matches(p, e) then 1 else 0)
  {
    assert (h + [e])[..|h|] == h;
  }

  lemma {:induction false} CountZero(h: seq<Event>, p: Pattern)
    requires forall i :: 0 <= i < |h| ==> !Matches(p, h[i])
    ensures Count(h, p) == 0
  {
    if h != [] {
      CountZero(h[..|h| - 1], p);
    }
  }

  lemma {:induction false} CountMonotone(h: seq<Event>, p: Pattern, q: Pattern)
    requires forall i :: 0 <= i < |h| && Matches(p, h[i]) ==> Matches(q, h[i])
    ensures Count(h, p) <= Count(h, q)
  {
    if h != [] {
      CountMonotone(h[..|h| - 1], p, q);
    }
  }

  // ---- Which file a revision had ----

  /** Some row, snapshot or event shows that a revision of a subscription had this file. */
  datatype Mark = Mark(sub: int, revision: nat, file: RowRef)

  function RowMark(db: Db, id: int): Mark
    requires id in db.subs
  {
    Mark(id, db.subs[id].revision, db.subs[id].fileId)
  }

  function FetchMark(f: Fetch): Mark
    requires InProgress(f)
  {
    Mark(f.subId, f.sub.revision, f.sub.fileId)
  }

  function EventMark(e: Event): Mark {
    Mark(e.sub, e.revision, if e.file == 0 then Null else Ref(e.file))
  }

  function RowMarks(db: Db): set<Mark> {
    set id | id in db.subs :: RowMark(db, id)
  }

  function FetchMarks(fetches: map<int, Fetch>): set<Mark> {
    set t | t in fetches && InProgress(fetches[t]) :: FetchMark(fetches[t])
  }

  function EventMarks(h: seq<Event>): set<Mark> {
    set i | 0 <= i < |h| :: EventMark(h[i])
  }

  function Marks(base: Db, s: System): set<Mark> {
    RowMarks(base) + RowMarks(s.db) + FetchMarks(s.fetches) + EventMarks(s.history)
  }

  /** A revision number never lies beyond the row's present one, and names one file only. */
  ghost predicate MarksBounded(marks: set<Mark>, db: Db) {
    forall m :: m in marks ==> 0 < m.sub < db.nextSub && (m.sub in db.subs ==> m.revision <= db.subs[m.sub].revision)
  }

  ghost predicate OneFileEach(marks: set<Mark>) {
    forall m, n :: m in marks && n in marks && m.sub == n.sub && m.revision == n.revision ==> m.file == n.file
  }

  // ---- Requests in progress and events ----

  predicate FetchOk(db: Db, f: Fetch) {
    InProgress(f) ==>
      && (f.subId in db.subs ==> db.subs[f.subId].kind == f.sub.kind)
      && (f.sub.kind == TextKind ==> f.Snapped? && f.sub.fileId == Null)
      && (f.sub.fileId.Ref? ==> 0 < f.sub.fileId.id < db.nextFile)
      && (f.Located? || f.Opened? ==> f.sub.fileId == Ref(f.fileId))
  }

  predicate EventOk(db: Db, e: Event) {
    && 0 <= e.file < db.nextFile
    && (e.sub in db.subs ==> (e.file == 0 <==> db.subs[e.sub].kind == TextKind))
  }

  ghost predicate RequestsOk(s: System) {
    && (forall t :: t in s.fetches ==> FetchOk(s.db, s.fetches[t]))
    && (forall i :: 0 <= i < |s.history| ==> EventOk(s.db, s.history[i]))
  }

  // ---- Counters ----

  function FetchesBefore(base: Db, id: int): nat {
    if id in base.subs then base.subs[id].fetchCount else 0
  }

  function DownloadsBefore(base: Db, id: int): nat {
    if id in base.files then base.files[id].downloadCount else 0
  }

  /** The value the migration (or an earlier run) left, as long as its revision lasts. */
  function Seed(base: Db, id: int, revision: nat): nat {
    if id in base.subs && base.subs[id].revision == revision then base.subs[id].currentCount else 0
  }

  ghost predicate SubTally(base: Db, db: Db, h: seq<Event>, id: int)
    requires id in db.subs
  {
    && db.subs[id].fetchCount == FetchesBefore(base, id) + Count(h, BySub(id))
    && (db.subs[id].kind == FileKind ==>
          db.subs[id].currentCount == Seed(base, id, db.subs[id].revision) + Count(h,
              ByRevision(id, db.subs[id].revision)))
  }

  ghost predicate FileTally(base: Db, db: Db, h: seq<Event>, id: int)
    requires id in db.files
  {
    db.files[id].downloadCount == DownloadsBefore(base, id) + Count(h, ByFile(id))
  }

  ghost predicate PairTally(base: Db, db: Db, h: seq<Event>, file: int, sub: int) {
    PairCount(db, file, sub) == PairCount(base, file, sub) + Count(h, ByPair(file, sub))
  }

  ghost predicate Tallies(base: Db, s: System) {
    && (forall id :: id in s.db.subs ==> SubTally(base, s.db, s.history, id))
    && (forall id :: id in s.db.files ==> FileTally(base, s.db, s.history, id))
    && (forall file, sub :: file in s.db.files && sub in s.db.subs ==> PairTally(base, s.db, s.history, file, sub))
  }

  // ---- The invariant ----

  ghost predicate Grounded(base: Db, s: System) {
    && Integrity(s.db) && s.db.counted
    && IdsBelow(base) && References(base) && base.nextSub <= s.db.nextSub && base.nextFile <= s.db.nextFile
    && RequestsOk(s)
    && (forall id :: id in base.subs && id in s.db.subs ==> s.db.subs[id].kind == base.subs[id].kind)
  }

  ghost predicate Marked(base: Db, s: System) {
    MarksBounded(Marks(base, s), s.db) && OneFileEach(Marks(base, s))
  }

  ghost predicate Inv(base: Db, s: System) {
    Grounded(base, s) && Marked(base, s) && Tallies(base, s)
  }

  // ---- Steps that leave database and history alone ----

  /** Nothing is recorded or edited; requests may only move on or take fresh snapshots. */
  ghost predicate Quiet(s: System, s': System) {
    && s'.db == s.db && s'.history == s.history
    && (forall t :: t in s'.fetches ==> FetchOk(s.db, s'.fetches[t]))
    && (forall t :: t in s'.fetches && InProgress(s'.fetches[t]) ==>
          FetchMark(s'.fetches[t]) in RowMarks(s.db) + FetchMarks(s.fetches))
  }

  lemma QuietKeeps(base: Db, s: System, s': System)
    requires Inv(base, s) && Quiet(s, s')
    ensures Inv(base, s')
  {
    assert Marks(base, s') <= Marks(base, s);
  }

  // ---- Edits ----

  /** The database was edited, nothing was recorded, and requests at most ended. */
  ghost predicate Edited(s: System, s': System) {
    && Edits(s.db, s'.db) && Integrity(s'.db) && s'.history == s.history
    && (forall t :: t in s'.fetches && InProgress(s'.fetches[t]) ==> t in s.fetches && s.fetches[t] == s'.fetches[t])
  }

  lemma EditedGrounded(base: Db, s: System, s': System)
    requires Grounded(base, s) && Marked(base, s) && Edited(s, s')
    ensures Grounded(base, s')
  {
    forall i | 0 <= i < |s'.history| ensures EventOk(s'.db, s'.history[i]) {
      assert EventMark(s.history[i]) in Marks(base, s);
    }
    forall t | t in s'.fetches ensures FetchOk(s'.db, s'.fetches[t]) {
      if InProgress(s'.fetches[t]) {
        assert FetchMark(s.fetches[t]) in Marks(base, s);
      }
    }
  }

  /** A mark that an edit adds belongs to a new subscription or to the next revision of one. */
  lemma EditedNewMark(base: Db, s: System, s': System, m: Mark)
    requires Edits(s.db, s'.db) && s'.history == s.history && Edited(s, s')
    requires m in Marks(base, s') && m !in Marks(base, s)
    ensures m in RowMarks(s'.db) && m.sub in s'.db.subs && m == RowMark(s'.db, m.sub)
    ensures if m.sub in s.db.subs then m.revision == s.db.subs[m.sub].revision + 1 else m.sub >= s.db.nextSub
  {
    assert m in RowMarks(s'.db);
    var id :| id in s'.db.subs && m == RowMark(s'.db, id);
    if id in s.db.subs {
      assert RowMark(s.db, id) in Marks(base, s);
    }
  }

  lemma EditedMarks(base: Db, s: System, s': System)
    requires Marked(base, s) && Edited(s, s')
    ensures Marked(base, s')
  {
    forall m | m in Marks(base, s')
      ensures 0 < m.sub < s'.db.nextSub && (m.sub in s'.db.subs ==> m.revision <= s'.db.subs[m.sub].revision)
    {
      if m !in Marks(base, s) {
        EditedNewMark(base, s, s', m);
      }
    }
    forall m, n | m in Marks(base, s') && n in Marks(base, s') && m.sub == n.sub && m.revision == n.revision
      ensures m.file == n.file
    {
      if m !in Marks(base, s) {
        EditedNewMark(base, s, s', m);
      }
      if n !in Marks(base, s) {
        EditedNewMark(base, s, s', n);
      }
    }
  }

  lemma EditedSubTally(base: Db, s: System, s': System, id: int)
    requires Inv(base, s) && Edited(s, s') && id in s'.db.subs
    ensures SubTally(base, s'.db, s'.history, id)
  {
    var revision := s'.db.subs[id].revision;
    if id in s.db.subs && revision == s.db.subs[id].revision {
      assert SubTally(base, s.db, s.history, id);
    } else {
      // a new revision, or a new subscription: nothing was recorded for it yet
      NothingRecordedBeyond(base, s, id, revision);
      assert id in base.subs ==> RowMark(base, id) in Marks(base, s);
      if id in s.db.subs {
        assert SubTally(base, s.db, s.history, id);
      } else {
        forall i | 0 <= i < |s.history| ensures !Matches(BySub(id), s.history[i]) {
          assert EventMark(s.history[i]) in Marks(base, s);
        }
        CountZero(s.history, BySub(id));
      }
    }
  }

  lemma NothingRecordedBeyond(base: Db, s: System, id: int, revision: nat)
    requires Marked(base, s)
    requires if id in s.db.subs then revision > s.db.subs[id].revision else id >= s.db.nextSub
    ensures Count(s.history, ByRevision(id, revision)) == 0
  {
    forall i | 0 <= i < |s.history| ensures !Matches(ByRevision(id, revision), s.history[i]) {
      assert EventMark(s.history[i]) in Marks(base, s);
    }
    CountZero(s.history, ByRevision(id, revision));
  }

  lemma NewSubscriptionUnrecorded(base: Db, s: System, file: int, sub: int)
    requires Marked(base, s) && Grounded(base, s) && sub >= s.db.nextSub
    ensures Count(s.history, ByPair(file, sub)) == 0
    ensures PairCount(base, file, sub) == 0
  {
    forall i | 0 <= i < |s.history| ensures !Matches(ByPair(file, sub), s.history[i]) {
      assert EventMark(s.history[i]) in Marks(base, s);
    }
    CountZero(s.history, ByPair(file, sub));
    assert Pair(file, sub) in base.stats ==> sub in base.subs;
  }

  lemma EditedPairTally(base: Db, s: System, s': System, file: int, sub: int)
    requires Inv(base, s) && Edited(s, s') && file in s'.db.files && sub in s'.db.subs
    ensures PairTally(base, s'.db, s'.history, file, sub)
  {
    if sub in s.db.subs {
      assert PairTally(base, s.db, s.history, file, sub);
      EditedPairCount(s.db, s'.db, file, sub);
    } else {
      NewSubscriptionUnrecorded(base, s, file, sub);
      assert Pair(file, sub) !in s'.db.stats;
    }
  }

  lemma EditedPairCount(db: Db, db': Db, file: int, sub: int)
    requires Edits(db, db') && sub in db'.subs
    ensures PairCount(db', file, sub) == PairCount(db, file, sub)
  {
    assert Pair(file, sub) in db'.stats <==> Pair(file, sub) in db.stats;
  }

  lemma EditedKeeps(base: Db, s: System, s': System)
    requires Inv(base, s) && Edited(s, s')
    ensures Inv(base, s')
  {
    EditedGrounded(base, s, s');
    EditedMarks(base, s, s');
    forall id | id in s'.db.subs ensures SubTally(base, s'.db, s'.history, id) {
      EditedSubTally(base, s, s', id);
    }
    forall file, sub | file in s'.db.files && sub in s'.db.subs ensures PairTally(base, s'.db, s'.history, file, sub) {
      EditedPairTally(base, s, s', file, sub);
    }
    forall id | id in s'.db.files ensures FileTally(base, s'.db, s'.history, id) {
      assert FileTally(base, s.db, s.history, id);
    }
  }

  // ---- Recording an access ----

  /** Request `t`, whose snapshot is still in progress, commits RecordAccess for `fileId`. */
  ghost predicate Recorded(s: System, s': System, t: int, fileId: int, a: Access) {
    && t in s.fetches && InProgress(s.fetches[t])
    && (var f := s.fetches[t];
        && (if f.sub.kind == TextKind then fileId == 0 else f.sub.fileId == Ref(fileId))
        && CanRecord(s.db, f.subId, fileId)
        && s'.db == Record(s.db, f.subId, fileId, f.sub.revision, a)
        && s'.history == s.history + [Event(t, f.subId, fileId, f.sub.revision)])
    && (forall u :: u in s'.fetches && InProgress(s'.fetches[u]) ==> u in s.fetches && s.fetches[u] == s'.fetches[u])
  }

  lemma RecordedEvents(s: System, s': System, t: int, fileId: int, a: Access)
    requires RequestsOk(s) && IdsBelow(s.db) && Recorded(s, s', t, fileId, a) && SameIdentities(s.db, s'.db)
    ensures forall i :: 0 <= i < |s'.history| ==> EventOk(s'.db, s'.history[i])
  {
    assert FetchOk(s.db, s.fetches[t]);
    forall i | 0 <= i < |s'.history| ensures EventOk(s'.db, s'.history[i]) {
      if i < |s.history| {
        assert EventOk(s.db, s.history[i]);
      }
    }
  }

  lemma RecordedFetches(s: System, s': System, t: int, fileId: int, a: Access)
    requires RequestsOk(s) && Recorded(s, s', t, fileId, a) && SameIdentities(s.db, s'.db)
    ensures forall u :: u in s'.fetches ==> FetchOk(s'.db, s'.fetches[u])
  {
    forall u | u in s'.fetches ensures FetchOk(s'.db, s'.fetches[u]) {
      if InProgress(s'.fetches[u]) {
        assert FetchOk(s.db, s.fetches[u]);
      }
    }
  }

  lemma RecordedGrounded(base: Db, s: System, s': System, t: int, fileId: int, a: Access)
    requires Grounded(base, s) && Recorded(s, s', t, fileId, a)
    ensures Grounded(base, s')
  {
    RecordKeepsIntegrity(s.db, s.fetches[t].subId, fileId, s.fetches[t].sub.revision, a);
    RecordKeepsIdentities(s.db, s.fetches[t].subId, fileId, s.fetches[t].sub.revision, a);
    RecordedEvents(s, s', t, fileId, a);
    RecordedFetches(s, s', t, fileId, a);
    GroundedAfter(base, s, s');
  }

  lemma GroundedAfter(base: Db, s: System, s': System)
    requires Grounded(base, s) && SameIdentities(s.db, s'.db) && Integrity(s'.db) && s'.db.counted && RequestsOk(s')
    requires s'.db.nextSub == s.db.nextSub && s'.db.nextFile == s.db.nextFile
    ensures Grounded(base, s')
  {
  }

  lemma RecordedEventMarks(s: System, s': System, t: int, fileId: int, a: Access)
    requires RequestsOk(s) && Recorded(s, s', t, fileId, a)
    ensures EventMarks(s'.history) <= EventMarks(s.history) + FetchMarks(s.fetches)
  {
    assert FetchOk(s.db, s.fetches[t]);
    forall i | 0 <= i < |s'.history| ensures EventMark(s'.history[i]) in EventMarks(s.history) + FetchMarks(s.fetches) {
      if i < |s.history| {
        assert s'.history[i] == s.history[i];
      } else {
        assert EventMark(s'.history[i]) == FetchMark(s.fetches[t]);
      }
    }
  }

  lemma RecordedMarkSet(base: Db, s: System, s': System, t: int, fileId: int, a: Access)
    requires RequestsOk(s) && Recorded(s, s', t, fileId, a)
    ensures Marks(base, s') <= Marks(base, s)
  {
    RecordedEventMarks(s, s', t, fileId, a);
    forall id | id in s'.db.subs ensures RowMark(s'.db, id) in RowMarks(s.db) {
      assert RowMark(s'.db, id) == RowMark(s.db, id);
    }
  }

  lemma FewerMarks(marks: set<Mark>, marks': set<Mark>, db: Db, db': Db)
    requires MarksBounded(marks, db) && OneFileEach(marks) && marks' <= marks && db'.nextSub == db.nextSub
    requires forall id :: id in db'.subs ==> id in db.subs && db'.subs[id].revision == db.subs[id].revision
    ensures MarksBounded(marks', db') && OneFileEach(marks')
  {
  }

  lemma RecordedMarks(base: Db, s: System, s': System, t: int, fileId: int, a: Access)
    requires Grounded(base, s) && Marked(base, s) && Recorded(s, s', t, fileId, a)
    ensures Marked(base, s')
  {
    RecordedMarkSet(base, s, s', t, fileId, a);
    FewerMarks(Marks(base, s), Marks(base, s'), s.db, s'.db);
  }

  lemma RecordedSubTally(base: Db, s: System, s': System, t: int, fileId: int, a: Access, id: int)
    requires Inv(base, s) && Recorded(s, s', t, fileId, a) && id in s'.db.subs
    ensures SubTally(base, s'.db, s'.history, id)
  {
    var f := s.fetches[t];
    var e := Event(t, f.subId, fileId, f.sub.revision);
    assert SubTally(base, s.db, s.history, id);
    assert FetchOk(s.db, f);
    CountAppend(s.history, e, BySub(id));
    CountAppend(s.history, e, ByRevision(id, s.db.subs[id].revision));
    if id == f.subId && s.db.subs[id].revision == f.sub.revision {
      // the snapshot's revision is the present one, so its file is the present file
      assert RowMark(s.db, id) in Marks(base, s) && FetchMark(f) in Marks(base, s);
    }
  }

  lemma RecordedFileTally(base: Db, s: System, s': System, t: int, fileId: int, a: Access, id: int)
    requires Tallies(base, s) && Recorded(s, s', t, fileId, a) && id in s'.db.files && (fileId == 0 ==> id != 0)
    requires fileId >= 0
    ensures FileTally(base, s'.db, s'.history, id)
  {
    assert FileTally(base, s.db, s.history, id);
    CountAppend(s.history, Event(t, s.fetches[t].subId, fileId, s.fetches[t].sub.revision), ByFile(id));
  }

  lemma RecordedPairTally(base: Db, s: System, s': System, t: int, fileId: int, a: Access, file: int, sub: int)
    requires Tallies(base, s) && Recorded(s, s', t, fileId, a) && file in s'.db.files && sub in s'.db.subs
    requires fileId >= 0 && file > 0
    ensures PairTally(base, s'.db, s'.history, file, sub)
  {
    assert PairTally(base, s.db, s.history, file, sub);
    CountAppend(s.history, Event(t, s.fetches[t].subId, fileId, s.fetches[t].sub.revision), ByPair(file, sub));
  }

  lemma RecordedTallies(base: Db, s: System, s': System, t: int, fileId: int, a: Access)
    requires Inv(base, s) && Recorded(s, s', t, fileId, a)
    ensures Tallies(base, s')
  {
    assert FetchOk(s.db, s.fetches[t]);
    forall id | id in s'.db.subs ensures SubTally(base, s'.db, s'.history, id) {
      RecordedSubTally(base, s, s', t, fileId, a, id);
    }
    forall id | id in s'.db.files ensures FileTally(base, s'.db, s'.history, id) {
      RecordedFileTally(base, s, s', t, fileId, a, id);
    }
    forall file, sub | file in s'.db.files && sub in s'.db.subs ensures PairTally(base, s'.db, s'.history, file, sub) {
      RecordedPairTally(base, s, s', t, fileId, a, file, sub);
    }
  }

  lemma RecordedKeeps(base: Db, s: System, s': System, t: int, fileId: int, a: Access)
    requires Inv(base, s) && Recorded(s, s', t, fileId, a)
    ensures Inv(base, s')
  {
    RecordedGrounded(base, s, s', t, fileId, a);
    RecordedMarks(base, s, s', t, fileId, a);
    RecordedTallies(base, s, s', t, fileId, a);
  }

  // ---- File rows ----

  ghost predicate Inserted(s: System, s': System, file: File) {
    && CanCreateFile(s.db, file.sha256, file.storageKey) && file.downloadCount == 0
    && s'.db == InsertFile(s.db, file) && s'.history == s.history && s'.fetches == s.fetches
  }

  lemma InsertedTallies(base: Db, s: System, s': System, file: File)
    requires Inv(base, s) && Inserted(s, s', file)
    ensures Tallies(base, s')
  {
    var id := s.db.nextFile;
    assert forall i :: 0 <= i < |s.history| ==> EventOk(s.db, s.history[i]);
    CountZero(s.history, ByFile(id));
    forall i | i in s'.db.files ensures FileTally(base, s'.db, s'.history, i) {
      assert i != id ==> FileTally(base, s.db, s.history, i);
    }
    forall i | i in s'.db.subs ensures SubTally(base, s'.db, s'.history, i) {
      assert SubTally(base, s.db, s.history, i);
    }
    forall f, sub | f in s'.db.files && sub in s'.db.subs ensures PairTally(base, s'.db, s'.history, f, sub) {
      if f == id {
        CountZero(s.history, ByPair(id, sub));
        assert Pair(id, sub) !in s.db.stats && Pair(id, sub) !in base.stats;
      } else {
        assert PairTally(base, s.db, s.history, f, sub);
      }
    }
  }

  lemma InsertedKeeps(base: Db, s: System, s': System, file: File)
    requires Inv(base, s) && Inserted(s, s', file)
    ensures Inv(base, s')
  {
    InsertFileKeepsIntegrity(s.db, file);
    InsertedTallies(base, s, s', file);
    SameSubsMarked(base, s, s');
    SameSubsRequests(s, s');
  }

  lemma SameSubsMarked(base: Db, s: System, s': System)
    requires Marked(base, s) && s'.db.subs == s.db.subs && s'.db.nextSub == s.db.nextSub
    requires s'.history == s.history && s'.fetches == s.fetches
    ensures Marked(base, s')
  {
    assert RowMarks(s'.db) == RowMarks(s.db) by {
      assert forall id :: id in s.db.subs ==> RowMark(s'.db, id) == RowMark(s.db, id);
    }
  }

  lemma SameSubsRequests(s: System, s': System)
    requires RequestsOk(s) && s'.db.subs == s.db.subs && s'.db.nextFile >= s.db.nextFile
    requires s'.history == s.history && s'.fetches == s.fetches
    ensures RequestsOk(s')
  {
    forall t | t in s'.fetches ensures FetchOk(s'.db, s'.fetches[t]) {
      assert FetchOk(s.db, s.fetches[t]);
    }
    forall i | 0 <= i < |s'.history| ensures EventOk(s'.db, s'.history[i]) {
      assert EventOk(s.db, s.history[i]);
    }
  }

  ghost predicate Removed(s: System, s': System, id: int) {
    CanDeleteFile(s.db, id) && s'.db == RemoveFile(s.db, id) && s'.history == s.history && s'.fetches == s.fetches
  }

  lemma RemovedKeeps(base: Db, s: System, s': System, id: int)
    requires Inv(base, s) && Removed(s, s', id)
    ensures Inv(base, s')
  {
    RemoveFileKeepsIntegrity(s.db, id);
    SameSubsMarked(base, s, s');
    SameSubsRequests(s, s');
    forall i | i in s'.db.files ensures FileTally(base, s'.db, s'.history, i) {
      assert FileTally(base, s.db, s.history, i);
    }
    forall i | i in s'.db.subs ensures SubTally(base, s'.db, s'.history, i) {
      assert SubTally(base, s.db, s.history, i);
    }
    forall f, sub | f in s'.db.files && sub in s'.db.subs ensures PairTally(base, s'.db, s'.history, f, sub) {
      assert PairTally(base, s.db, s.history, f, sub);
      assert Pair(f, sub) in s'.db.stats <==> Pair(f, sub) in s.db.stats;
    }
  }

  // ---- Every step ----

  /** Only request `t` moved, to a stage with the same snapshot or to an answer. */
  lemma MovedQuiet(s: System, s': System, t: int)
    requires RequestsOk(s) && t in s.fetches && t in s'.fetches && s' == s.(fetches := s.fetches[t := s'.fetches[t]])
    requires FetchOk(s.db, s'.fetches[t])
    requires InProgress(s'.fetches[t]) ==>
               InProgress(s.fetches[t]) && FetchMark(s'.fetches[t]) == FetchMark(s.fetches[t])
    ensures Quiet(s, s')
  {
    forall u | u in s'.fetches && InProgress(s'.fetches[u]) ensures FetchMark(s'.fetches[u]) in FetchMarks(s.fetches) {
      assert u == t || s'.fetches[u] == s.fetches[u];
    }
  }

  lemma RecordingStep(s: System, t: int, a: Access, fault: bool)
    requires t in s.fetches && InProgress(s.fetches[t])
    requires FetchOk(s.db, s.fetches[t]) && Records(s.db, s.fetches[t], fault)
    ensures Recorded(s, StepFetch(s, t, a, fault), t, FileIdOf(s.fetches[t]), a)
  {
  }

  lemma QuietStep(s: System, t: int, a: Access, fault: bool)
    requires RequestsOk(s) && t in s.fetches && InProgress(s.fetches[t]) && !Records(s.db, s.fetches[t], fault)
    ensures Quiet(s, StepFetch(s, t, a, fault))
  {
    assert FetchOk(s.db, s.fetches[t]);
    MovedQuiet(s, StepFetch(s, t, a, fault), t);
  }

  lemma FetchStepKeeps(base: Db, s: System, t: int, a: Access, fault: bool)
    requires Inv(base, s)
    ensures Inv(base, StepFetch(s, t, a, fault))
  {
    if t in s.fetches && InProgress(s.fetches[t]) {
      var s' := StepFetch(s, t, a, fault);
      assert FetchOk(s.db, s.fetches[t]);
      if Records(s.db, s.fetches[t], fault) {
        RecordingStep(s, t, a, fault);
        RecordedKeeps(base, s, s', t, FileIdOf(s.fetches[t]), a);
      } else {
        QuietStep(s, t, a, fault);
        QuietKeeps(base, s, s');
      }
    }
  }

  lemma RequestKeeps(base: Db, s: System, path: string, get: bool)
    requires Inv(base, s)
    ensures Inv(base, StepRequest(s, path, get))
  {
    var s' := StepRequest(s, path, get);
    var hit := if Reserved(path) then Null else ByPath(s.db, path);
    if hit.Ref? {
      assert FetchMark(s'.fetches[s.nextId]) == RowMark(s.db, hit.id);
    }
    forall t | t in s'.fetches && InProgress(s'.fetches[t])
      ensures FetchMark(s'.fetches[t]) in RowMarks(s.db) + FetchMarks(s.fetches)
    {
    }
    QuietKeeps(base, s, s');
  }

  lemma WorkKeeps(cfg: Config, base: Db, s: System, t: int, now: string, contentType: string, fate: Fate)
    requires Inv(base, s)
    ensures Inv(base, StepWork(cfg, s, t, now, contentType, fate))
  {
    var s' := StepWork(cfg, s, t, now, contentType, fate);
    if s'.db == s.db {
      SameRequestsKeep(base, s, s');
    } else {
      match s.jobs[t]
      case Upload(content, name, _) => InsertedKeeps(base, s, s', UploadRow(cfg, content, name, contentType, now));
      case Deletion(fileId, _) => RemovedKeeps(base, s, s', fileId);
    }
  }

  lemma SameRequestsKeep(base: Db, s: System, s': System)
    requires Inv(base, s) && s'.db == s.db && s'.history == s.history && s'.fetches == s.fetches
    ensures Inv(base, s')
  {
    assert Marks(base, s') == Marks(base, s);
  }

  /** Toggles, edits and restarts: the database may be edited and requests may end. */
  lemma EditStepKeeps(base: Db, s: System, s': System)
    requires Inv(base, s)
    requires Integrity(s'.db) && Edits(s.db, s'.db) && s'.history == s.history
    requires s'.fetches == s.fetches
          || s'.fetches == map t | t in s.fetches :: if InProgress(s.fetches[t]) then Failed(0) else s.fetches[t]
    ensures Inv(base, s')
  {
    assert Edited(s, s');
    EditedKeeps(base, s, s');
  }

  lemma ApplyStepKeeps(base: Db, s: System, s': System, op: Op)
    requires Inv(base, s) && s'.db == Apply(s.db, op) && s'.history == s.history
    requires s'.fetches == s.fetches
          || s'.fetches == map t | t in s.fetches :: if InProgress(s.fetches[t]) then Failed(0) else s.fetches[t]
    ensures Inv(base, s')
  {
    ApplyEdits(s.db, op);
    ApplyKeepsIntegrity(s.db, op);
    EditStepKeeps(base, s, s');
  }

  lemma SetEnabledStepKeeps(base: Db, s: System, s': System, id: int, enabled: bool, now: string)
    requires Inv(base, s) && s'.db == SetEnabled(s.db, id, enabled, now)
    requires s'.history == s.history && s'.fetches == s.fetches
    ensures Inv(base, s')
  {
    SetEnabledEdits(s.db, id, enabled, now);
    SetEnabledKeepsIntegrity(s.db, id, enabled, now);
    EditStepKeeps(base, s, s');
  }

  lemma ToggleKeeps(base: Db, s: System, s': System, subId: int, now: string)
    requires Inv(base, s) && s' == s.(db := ToggleNow(s.db, subId, now))
    ensures Inv(base, s')
  {
    if s'.db == s.db {
      SameRequestsKeep(base, s, s');
    } else {
      SetEnabledStepKeeps(base, s, s', subId, !s.db.subs[subId].enabled, now);
    }
  }

  lemma ToggleWriteKeeps(base: Db, s: System, flip: int, now: string)
    requires Inv(base, s)
    ensures Inv(base, StepToggleWrite(s, flip, now))
  {
    if flip in s.flips {
      SetEnabledStepKeeps(base, s, StepToggleWrite(s, flip, now), s.flips[flip].subId, s.flips[flip].enable, now);
    }
  }

  lemma CrashKeeps(base: Db, s: System, kept: set<int>)
    requires Inv(base, s)
    ensures Inv(base, StepCrash(s, kept))
  {
    ApplyStepKeeps(base, s, StepCrash(s, kept), Migrate);
  }

  predicate IsEdit(action: Action) {
    action.Edit? || action.Toggle? || action.ToggleWrite? || action.Crash?
  }

  lemma EditOpKeeps(cfg: Config, base: Db, s: System, op: Op)
    requires Inv(base, s)
    ensures Inv(base, Step(cfg, s, Edit(op)))
  {
    ApplyStepKeeps(base, s, s.(db := Apply(s.db, op)), op);
  }

  lemma ToggleActionKeeps(cfg: Config, base: Db, s: System, subId: int, now: string)
    requires Inv(base, s)
    ensures Inv(base, Step(cfg, s, Toggle(subId, now)))
  {
    ToggleKeeps(base, s, s.(db := ToggleNow(s.db, subId, now)), subId, now);
  }

  lemma ToggleWriteStep(cfg: Config, s: System, flip: int, now: string)
    ensures Step(cfg, s, ToggleWrite(flip, now)) == StepToggleWrite(s, flip, now)
  {
  }

  lemma ToggleWriteActionKeeps(cfg: Config, base: Db, s: System, flip: int, now: string)
    requires Inv(base, s)
    ensures Inv(base, Step(cfg, s, ToggleWrite(flip, now)))
  {
    ToggleWriteStep(cfg, s, flip, now);
    ToggleWriteKeeps(base, s, flip, now);
  }

  lemma CrashStep(cfg: Config, s: System, kept: set<int>)
    ensures Step(cfg, s, Crash(kept)) == StepCrash(s, kept)
  {
  }

  lemma CrashActionKeeps(cfg: Config, base: Db, s: System, kept: set<int>)
    requires Inv(base, s)
    ensures Inv(base, Step(cfg, s, Crash(kept)))
  {
    CrashStep(cfg, s, kept);
    CrashKeeps(base, s, kept);
  }

  lemma EditActionKeeps(cfg: Config, base: Db, s: System, action: Action)
    requires Inv(base, s) && IsEdit(action)
    ensures Inv(base, Step(cfg, s, action))
  {
    match action
    case Edit(op) => EditOpKeeps(cfg, base, s, op);
    case Toggle(subId, now) => ToggleActionKeeps(cfg, base, s, subId, now);
    case ToggleWrite(flip, now) => ToggleWriteActionKeeps(cfg, base, s, flip, now);
    case Crash(kept) => CrashActionKeeps(cfg, base, s, kept);
  }

  lemma BeginMoves(cfg: Config, s: System, action: Action)
    requires action.BeginUpload? || action.BeginDeletion? || action.ToggleRead?
    ensures var s' := Step(cfg, s, action);
            s'.db == s.db && s'.history == s.history && s'.fetches == s.fetches
  {
  }

  lemma BeginKeeps(cfg: Config, base: Db, s: System, action: Action)
    requires Inv(base, s) && (action.BeginUpload? || action.BeginDeletion? || action.ToggleRead?)
    ensures Inv(base, Step(cfg, s, action))
  {
    BeginMoves(cfg, s, action);
    SameRequestsKeep(base, s, Step(cfg, s, action));
  }

  lemma StepKeeps(cfg: Config, base: Db, s: System, action: Action)
    requires Inv(base, s)
    ensures Inv(base, Step(cfg, s, action))
  {
    if IsEdit(action) {
      EditActionKeeps(cfg, base, s, action);
    } else {
      match action
      case Request(path, get) => RequestKeeps(base, s, path, get);
      case Advance(fetch, access, fault) => FetchStepKeeps(base, s, fetch, access, fault);
      case Work(job, now, contentType, fate) => WorkKeeps(cfg, base, s, job, now, contentType, fate);
      case _ => BeginKeeps(cfg, base, s, action);
    }
  }

  lemma {:induction false} RunKeeps(cfg: Config, base: Db, s: System, actions: seq<Action>)
    requires Inv(base, s)
    ensures Inv(base, Run(cfg, s, actions))
  {
    if actions != [] {
      RunKeeps(cfg, base, s, actions[..|actions| - 1]);
      StepKeeps(cfg, base, Run(cfg, s, actions[..|actions| - 1]), actions[|actions| - 1]);
    }
  }

  lemma StartedInv(base: Db, blobs: map<string, Bytes>)
    requires Integrity(base) && base.counted
    ensures Inv(base, Started(base, blobs))
  {
    var s := Started(base, blobs);
    assert Marks(base, s) == RowMarks(base);
  }
}
