/** The promises about the statistics, for every run of the server from any database. */
module Statistics {
  import opened Wrappers
  import opened Schema
  import opened Transactions
  import opened Server
  import opened Counting
  import opened Evolution
  import opened Preservation

  /** "Pulls since update" is exact: the seed, while its revision lasts, plus the recorded
      requests whose snapshot carried the present revision. */
  lemma CurrentFetchCountIsExact(cfg: Config, base: Db, blobs: map<string, Bytes>, actions: seq<Action>, id: int)
    requires Integrity(base) && base.counted
    requires id in Run(cfg, Started(base, blobs), actions).db.subs
    ensures var s := Run(cfg, Started(base, blobs), actions);
            var row := s.db.subs[id];
            row.kind == FileKind ==> row.currentCount == Seed(base, id, row.revision) + Count(s.history,
                ByRevision(id, row.revision))
  {
    RunInv(cfg, base, blobs, actions);
  }

  lemma RunInv(cfg: Config, base: Db, blobs: map<string, Bytes>, actions: seq<Action>)
    requires Integrity(base) && base.counted
    ensures Inv(base, Run(cfg, Started(base, blobs), actions))
  {
    StartedInv(base, blobs);
    RunKeeps(cfg, base, Started(base, blobs), actions);
  }

  /** Between any two moments of a run a subscription keeps its type and its revision never falls,
      and an id that is gone, or was given out and deleted, never comes back. */
  lemma TypeNeverChanges(cfg: Config, base: Db, blobs: map<string, Bytes>, a: seq<Action>, b: seq<Action>, id: int)
    requires Integrity(base) && base.counted
    requires id < Run(cfg, Started(base, blobs), a).db.nextSub && id in Run(cfg, Started(base, blobs), a + b).db.subs
    ensures var before, after := Run(cfg, Started(base, blobs), a).db, Run(cfg, Started(base, blobs), a + b).db;
            && id in before.subs
            && after.subs[id].kind == before.subs[id].kind
            && after.subs[id].revision >= before.subs[id].revision
  {
    var s := Run(cfg, Started(base, blobs), a);
    RunInv(cfg, base, blobs, a);
    RunAppend(cfg, Started(base, blobs), a, b);
    RunDescends(cfg, base, s, b);
    assert SubDescends(s.db, Run(cfg, s, b).db, id);
  }

  /** One revision of one subscription has one file, in all recorded requests and in the row:
      going back to an earlier file is a new revision. */
  lemma OneFilePerRevision(cfg: Config, base: Db, blobs: map<string, Bytes>, actions: seq<Action>, i: nat, j: nat)
    requires Integrity(base) && base.counted
    requires i < |Run(cfg, Started(base, blobs), actions).history|
    requires j < |Run(cfg, Started(base, blobs), actions).history|
    ensures var s := Run(cfg, Started(base, blobs), actions);
            var d, e := s.history[i], s.history[j];
            && (d.sub == e.sub && d.revision == e.revision ==> d.file == e.file)
            && (e.sub in s.db.subs ==> e.revision <= s.db.subs[e.sub].revision)
            && (e.sub in s.db.subs && e.revision == s.db.subs[e.sub].revision && e.file > 0 ==>
                  s.db.subs[e.sub].fileId == Ref(e.file))
  {
    RunInv(cfg, base, blobs, actions);
    var s := Run(cfg, Started(base, blobs), actions);
    assert EventMark(s.history[i]) in Marks(base, s) && EventMark(s.history[j]) in Marks(base, s);
    if s.history[j].sub in s.db.subs {
      assert RowMark(s.db, s.history[j].sub) in Marks(base, s);
    }
  }

  /** A recorded request counts as current exactly when its snapshot still is the present revision;
      it counts towards the lifetime total in any case. */
  lemma StaleFetchCountsTowardsHistoryOnly(base: Db, s: System, s': System, t: int, fileId: int, a: Access)
    requires Inv(base, s) && Recorded(s, s', t, fileId, a)
    ensures var f := s.fetches[t];
            var was, now := s.db.subs[f.subId], s'.db.subs[f.subId];
            && now.fetchCount == was.fetchCount + 1
            && (now.currentCount == was.currentCount + 1 <==> was.kind == FileKind && f.sub.revision == was.revision)
            && (now.currentCount == was.currentCount <==> was.kind == TextKind || f.sub.revision < was.revision)
  {
    var f := s.fetches[t];
    assert FetchOk(s.db, f);
    assert FetchMark(f) in FetchMarks(s.fetches);
    assert RowMark(s.db, f.subId) in Marks(base, s) && FetchMark(f) in Marks(base, s);
  }

  // ---- The chain of counters ----

  /** current(s) <= stats(f, s) <= min(fetch_count(s), download_count(f)), and 0 when detached. */
  ghost predicate Chain(db: Db) {
    && (forall id :: id in db.subs && db.subs[id].kind == FileKind ==>
          if db.subs[id].fileId.Ref? then db.subs[id].currentCount <= PairCount(db, db.subs[id].fileId.id, id)
          else db.subs[id].currentCount == 0)
    && PairsBounded(db)
  }

  ghost predicate PairsBounded(db: Db) {
    forall f, id :: f in db.files && id in db.subs ==>
      PairCount(db, f, id) <= db.subs[id].fetchCount && PairCount(db, f, id) <= db.files[f].downloadCount
  }

  lemma CurrentWithinPair(base: Db, s: System, id: int)
    requires Inv(base, s) && References(base) && Chain(base) && id in s.db.subs && s.db.subs[id].kind == FileKind
    ensures if s.db.subs[id].fileId.Ref? then s.db.subs[id].currentCount <= PairCount(s.db, s.db.subs[id].fileId.id, id)
            else s.db.subs[id].currentCount == 0
  {
    var row := s.db.subs[id];
    assert SubTally(base, s.db, s.history, id);
    assert RowMark(s.db, id) in Marks(base, s);
    forall i | 0 <= i < |s.history| && Matches(ByRevision(id, row.revision), s.history[i])
      ensures row.fileId.Ref? && s.history[i].file == row.fileId.id
    {
      assert EventMark(s.history[i]) in Marks(base, s);
      assert EventOk(s.db, s.history[i]);
    }
    if id in base.subs && base.subs[id].revision == row.revision {
      assert RowMark(base, id) in Marks(base, s);
    }
    if row.fileId.Ref? {
      assert PairTally(base, s.db, s.history, row.fileId.id, id);
      CountMonotone(s.history, ByRevision(id, row.revision), ByPair(row.fileId.id, id));
    } else {
      CountZero(s.history, ByRevision(id, row.revision));
    }
  }

  lemma PairWithinTotals(base: Db, s: System, f: int, id: int)
    requires Inv(base, s) && References(base) && PairsBounded(base) && f in s.db.files && id in s.db.subs
    ensures PairCount(s.db, f, id) <= s.db.subs[id].fetchCount && PairCount(s.db, f, id) <= s.db.files[f].downloadCount
  {
    assert PairTally(base, s.db, s.history, f, id);
    assert SubTally(base, s.db, s.history, id);
    assert FileTally(base, s.db, s.history, f);
    CountMonotone(s.history, ByPair(f, id), BySub(id));
    CountMonotone(s.history, ByPair(f, id), ByFile(f));
    if Pair(f, id) in base.stats {
      assert f in base.files && id in base.subs;
    }
  }

  /** Every run keeps the chain. */
  lemma RunKeepsChain(cfg: Config, base: Db, blobs: map<string, Bytes>, actions: seq<Action>)
    requires Integrity(base) && base.counted && Chain(base)
    ensures Chain(Run(cfg, Started(base, blobs), actions).db)
  {
    RunInv(cfg, base, blobs, actions);
    var s := Run(cfg, Started(base, blobs), actions);
    forall id | id in s.db.subs && s.db.subs[id].kind == FileKind
      ensures if s.db.subs[id].fileId.Ref? then s.db.subs[id].currentCount <= PairCount(s.db,
          s.db.subs[id].fileId.id, id)
              else s.db.subs[id].currentCount == 0
    {
      CurrentWithinPair(base, s, id);
    }
    forall f, id | f in s.db.files && id in s.db.subs
      ensures PairCount(s.db, f, id) <= s.db.subs[id].fetchCount
      ensures PairCount(s.db, f, id) <= s.db.files[f].downloadCount
    {
      PairWithinTotals(base, s, f, id);
    }
  }

  /** The migration establishes the chain on a database of an earlier version, whose pair totals
      are bounded; it changes no other counter, and running it again changes nothing. */
  lemma MigrationEstablishesChain(db: Db)
    requires PairsBounded(db) && !db.counted
    ensures var m := Apply(db, Migrate);
            && m.counted && Chain(m) && Apply(m, Migrate) == m
            && (forall id :: id in db.subs ==>
                  id in m.subs && m.subs[id] == db.subs[id].(currentCount := m.subs[id].currentCount))
            && (forall id :: id in db.subs && db.subs[id].fileId.Ref? && db.subs[id].kind == FileKind ==>
                  m.subs[id].currentCount == PairCount(db, db.subs[id].fileId.id, id))
  {
    var m := Apply(db, Migrate);
    assert forall f, id :: PairCount(m, f, id) == PairCount(db, f, id);
  }

  // ---- Conservation ----

  /** Every surviving counter is the number of matching recorded requests. */
  ghost predicate CountsEvents(db: Db, h: seq<Event>) {
    && (forall id :: id in db.subs ==> db.subs[id].fetchCount == Count(h, BySub(id)))
    && (forall f :: f in db.files ==> db.files[f].downloadCount == Count(h, ByFile(f)))
    && (forall f, id :: f in db.files && id in db.subs ==> PairCount(db, f, id) == Count(h, ByPair(f, id)))
  }

  lemma TalliesFromEmpty(db: Db, h: seq<Event>)
    requires forall id :: id in db.subs ==> SubTally(Empty(), db, h, id)
    requires forall id :: id in db.files ==> FileTally(Empty(), db, h, id)
    requires forall f, id :: f in db.files && id in db.subs ==> PairTally(Empty(), db, h, f, id)
    ensures CountsEvents(db, h)
  {
    forall f, id | f in db.files && id in db.subs ensures PairCount(db, f, id) == Count(h, ByPair(f, id)) {
      assert PairTally(Empty(), db, h, f, id);
    }
  }

  /** So it is in every run from an empty database. */
  lemma CountersCountEvents(cfg: Config, blobs: map<string, Bytes>, actions: seq<Action>)
    ensures var s := Run(cfg, Started(Empty(), blobs), actions); CountsEvents(s.db, s.history)
  {
    RunInv(cfg, Empty(), blobs, actions);
    var s := Run(cfg, Started(Empty(), blobs), actions);
    TalliesFromEmpty(s.db, s.history);
  }

  /** The pairs of one subscription, or of one file. */
  datatype Axis = OfSub(sub: int) | OfFile(file: int)

  function PairOn(axis: Axis, k: int): Pattern {
    match axis
    case OfSub(sub) => ByPair(k, sub)
    case OfFile(file) => ByPair(file, k)
  }

  function TotalOn(axis: Axis): Pattern {
    match axis
    case OfSub(sub) => BySub(sub)
    case OfFile(file) => ByFile(file)
  }

  function PairCountOn(db: Db, axis: Axis, k: int): nat {
    match axis
    case OfSub(sub) => PairCount(db, k, sub)
    case OfFile(file) => PairCount(db, file, k)
  }

  /** The sum of the pair totals over a set of partners. */
  ghost function PairSum(db: Db, axis: Axis, keys: set<int>): nat {
    if keys == {} then 0
    else
      WithoutMembers(keys);
      var k :| k in keys;
      PairCountOn(db, axis, k) + PairSum(db, axis, keys - {k})
  }

  function Partner(axis: Axis, e: Event): int {
    if axis.OfSub? then e.file else e.sub
  }

  function CountIn(h: seq<Event>, axis: Axis, keys: set<int>): nat {
    if h == [] then 0
    else
      var e := h[|h| - 1];
      CountIn(h[..|h| - 1], axis, keys) + (if Matches(TotalOn(axis), e) && Partner(axis, e) in keys then 1 else 0)
  }

  lemma {:induction false} CountInSplit(h: seq<Event>, axis: Axis, keys: set<int>, k: int)
    requires k in keys
    ensures CountIn(h, axis, keys) == Count(h, PairOn(axis, k)) + CountIn(h, axis, keys - {k})
  {
    if h != [] {
      CountInSplit(h[..|h| - 1], axis, keys, k);
    }
  }

  lemma {:induction false} CountInNone(h: seq<Event>, axis: Axis)
    ensures CountIn(h, axis, {}) == 0
  {
    if h != [] {
      CountInNone(h[..|h| - 1], axis);
    }
  }

  lemma {:induction false} CountInBounds(h: seq<Event>, axis: Axis, keys: set<int>)
    ensures CountIn(h, axis, keys) <= Count(h, TotalOn(axis))
    ensures (forall i :: 0 <= i < |h| && Matches(TotalOn(axis), h[i]) ==> Partner(axis, h[i]) in keys) ==>
              CountIn(h, axis, keys) == Count(h, TotalOn(axis))
  {
    if h != [] {
      CountInBounds(h[..|h| - 1], axis, keys);
    }
  }

  lemma {:induction false} PairSumIsCount(db: Db, h: seq<Event>, axis: Axis, keys: set<int>)
    requires forall k :: k in keys ==> PairCountOn(db, axis, k) == Count(h, PairOn(axis, k))
    ensures PairSum(db, axis, keys) == CountIn(h, axis, keys)
  {
    if keys == {} {
      CountInNone(h, axis);
    } else {
      WithoutMembers(keys);
      assert exists k :: k in keys && PairSum(db, axis, keys) == PairCountOn(db, axis, k) + PairSum(db, axis,
          keys - {k});
      var k :| k in keys && PairSum(db, axis, keys) == PairCountOn(db, axis, k) + PairSum(db, axis, keys - {k});
      PairSumIsCount(db, h, axis, keys - {k});
      CountInSplit(h, axis, keys, k);
    }
  }

  lemma SumOfSubscription(db: Db, h: seq<Event>, id: int)
    requires CountsEvents(db, h) && id in db.subs
    ensures PairSum(db, OfSub(id), db.files.Keys) <= db.subs[id].fetchCount
    ensures (forall i :: 0 <= i < |h| && h[i].sub == id ==> h[i].file in db.files) ==>
              PairSum(db, OfSub(id), db.files.Keys) == db.subs[id].fetchCount
  {
    PairSumIsCount(db, h, OfSub(id), db.files.Keys);
    CountInBounds(h, OfSub(id), db.files.Keys);
  }

  lemma SumOfFile(db: Db, h: seq<Event>, f: int)
    requires CountsEvents(db, h) && f in db.files
    ensures PairSum(db, OfFile(f), db.subs.Keys) <= db.files[f].downloadCount
    ensures (forall i :: 0 <= i < |h| && h[i].file == f ==> h[i].sub in db.subs) ==>
              PairSum(db, OfFile(f), db.subs.Keys) == db.files[f].downloadCount
  {
    PairSumIsCount(db, h, OfFile(f), db.subs.Keys);
    CountInBounds(h, OfFile(f), db.subs.Keys);
  }

  /** The events of a run name ids that were given out. */
  lemma EventIds(s: System, i: int)
    requires Inv(Empty(), s) && 0 <= i < |s.history|
    ensures 0 < s.history[i].sub < s.db.nextSub && 0 <= s.history[i].file < s.db.nextFile
    ensures s.history[i].sub in s.db.subs ==> (s.history[i].file == 0 <==> s.db.subs[s.history[i].sub].kind == TextKind)
  {
    assert EventMark(s.history[i]) in Marks(Empty(), s);
    assert EventOk(s.db, s.history[i]);
  }

  /** The pair totals of a subscription sum up to at most its lifetime total, and to exactly that
      for a file subscription as long as no file was deleted: no id below the next one is missing. */
  lemma PairsOfSubscriptionSum(cfg: Config, blobs: map<string, Bytes>, actions: seq<Action>, id: int)
    requires id in Run(cfg, Started(Empty(), blobs), actions).db.subs
    ensures var db := Run(cfg, Started(Empty(), blobs), actions).db;
            var sum := PairSum(db, OfSub(id), db.files.Keys);
            && sum <= db.subs[id].fetchCount
            && (db.subs[id].kind == FileKind && (forall f :: 0 < f < db.nextFile ==> f in db.files) ==>
                  sum == db.subs[id].fetchCount)
  {
    var s := Run(cfg, Started(Empty(), blobs), actions);
    CountersCountEvents(cfg, blobs, actions);
    RunInv(cfg, Empty(), blobs, actions);
    SumOfSubscription(s.db, s.history, id);
    forall i | 0 <= i < |s.history| && s.history[i].sub == id
      ensures s.db.subs[id].kind == FileKind ==> 0 < s.history[i].file < s.db.nextFile
    {
      EventIds(s, i);
    }
  }

  /** The pair totals of a file sum up to at most its download total, and to exactly that
      as long as no subscription was deleted. */
  lemma PairsOfFileSum(cfg: Config, blobs: map<string, Bytes>, actions: seq<Action>, f: int)
    requires f in Run(cfg, Started(Empty(), blobs), actions).db.files
    ensures var db := Run(cfg, Started(Empty(), blobs), actions).db;
            var sum := PairSum(db, OfFile(f), db.subs.Keys);
            && sum <= db.files[f].downloadCount
            && ((forall id :: 0 < id < db.nextSub ==> id in db.subs) ==> sum == db.files[f].downloadCount)
  {
    var s := Run(cfg, Started(Empty(), blobs), actions);
    CountersCountEvents(cfg, blobs, actions);
    RunInv(cfg, Empty(), blobs, actions);
    SumOfFile(s.db, s.history, f);
    forall i | 0 <= i < |s.history| ensures 0 < s.history[i].sub < s.db.nextSub {
      EventIds(s, i);
    }
  }

  /** Clearing or expiring access logs touches no counter. */
  lemma LogRemovalKeepsCounters(db: Db, op: Op)
    requires op.ClearLogs? || op.CleanupLogs?
    ensures Apply(db, op) == db.(logs := Apply(db, op).logs)
    ensures forall l :: l in Apply(db, op).logs ==> l in db.logs && Apply(db, op).logs[l] == db.logs[l]
  {
  }
}
