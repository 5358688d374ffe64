/** Batch updates of text subscriptions: the handler's list of ids, and when the store accepts it. */
module Batch {
  import opened Wrappers
  import opened Schema
  import opened Transactions
  import opened BulkReplace

  // ---- The handler's loop ----

  /** The ids in the order of their first occurrence. */
  function FirstOccurrences(raw: seq<int>): seq<int> {
    if raw == [] then []
    else
      var kept := FirstOccurrences(raw[..|raw| - 1]);
      if raw[|raw| - 1] in kept then kept else kept + [raw[|raw| - 1]]
  }

  /** Where a value occurs first. */
  function FirstIndex(raw: seq<int>, x: int): (k: nat)
    requires x in raw
    ensures k < |raw| && raw[k] == x && x !in raw[..k]
  {
    if x in raw[..|raw| - 1] then
      var k := FirstIndex(raw[..|raw| - 1], x);
      assert raw[..|raw| - 1][..k] == raw[..k];
      k
    else |raw| - 1
  }

  /** Duplicate-free, the same members, and ordered by first occurrence: these three determine the list. */
  lemma {:induction false} FirstOccurrencesAre(raw: seq<int>)
    ensures NoDuplicates(FirstOccurrences(raw))
    ensures forall x :: x in FirstOccurrences(raw) <==> x in raw
    ensures forall i, j :: 0 <= i < j < |FirstOccurrences(raw)| ==>
              FirstOccurrences(raw)[i] in raw && FirstOccurrences(raw)[j] in raw
              && FirstIndex(raw, FirstOccurrences(raw)[i]) < FirstIndex(raw, FirstOccurrences(raw)[j])
  {
    if raw != [] {
      var before := raw[..|raw| - 1];
      FirstOccurrencesAre(before);
      assert forall x :: x in raw <==> x in before || x == raw[|raw| - 1];
      var kept := FirstOccurrences(before);
      assert forall i :: 0 <= i < |kept| ==> kept[i] in before;
    }
  }

  /** The numbers submitted. */
  function Values(raw: seq<Option<int>>): (v: seq<int>)
    ensures |v| == |raw| && forall i :: 0 <= i < |raw| && raw[i].Some? ==> v[i] == raw[i].value
  {
    seq(|raw|, i requires 0 <= i < |raw| => if raw[i].Some? then raw[i].value else 0)
  }

  /** The handler's parse-and-deduplicate loop over the submitted values; a value that is not a
      positive number is given as `None` and refuses the whole request. */
  method CollectIds(raw: seq<Option<int>>) returns (r: Result<seq<int>>)
    ensures r.Ok? <==> 0 < |raw| <= 5000 && forall i :: 0 <= i < |raw| ==> raw[i].Some? && raw[i].value >= 1
    ensures r.Ok? ==> r.value == FirstOccurrences(Values(raw))
  {
    if |raw| == 0 || |raw| > 5000 { return Err(NothingSelected); }
    ghost var values := Values(raw);
    var seen: set<int> := {};
    var ids: seq<int> := [];
    for i := 0 to |raw|
      invariant forall k :: 0 <= k < i ==> raw[k].Some? && raw[k].value >= 1
      invariant ids == FirstOccurrences(values[..i])
      invariant forall x :: x in seen <==> x in ids
    {
      if raw[i].None? || raw[i].value < 1 { return Err(NothingSelected); }
      var id := raw[i].value;
      assert values[..i + 1][..i] == values[..i];
      if id !in seen {
        seen := seen + {id};
        ids := ids + [id];
      }
    }
    assert values[..|raw|] == values;
    r := Ok(ids);
  }

  // ---- COUNT(*) ... IN (...) ----

  function Members(ids: seq<int>): set<int> {
    set id | id in ids
  }

  lemma {:induction false} MembersCount(ids: seq<int>)
    ensures |Members(ids)| <= |ids|
    ensures |Members(ids)| == |ids| <==> NoDuplicates(ids)
  {
    if ids != [] {
      var n := |ids| - 1;
      MembersCount(ids[..n]);
      LastMember(ids[..n], ids[n]);
      assert ids == ids[..n] + [ids[n]];
    }
  }

  lemma LastMember(front: seq<int>, x: int)
    ensures Members(front + [x]) == Members(front) + {x}
    ensures NoDuplicates(front + [x]) <==> NoDuplicates(front) && x !in Members(front)
  {
    var ids := front + [x];
    assert forall k :: 0 <= k < |front| ==> ids[k] == front[k];
    assert ids[|front|] == x;
    if x in front {
      var k :| 0 <= k < |front| && front[k] == x;
      assert ids[k] == ids[|front|];
    }
  }

  lemma SubsetOfEqualSize(a: set<int>, b: set<int>)
    requires a <= b
    ensures |a| <= |b| && (|a| == |b| <==> a == b)
  {
    assert b == a + (b - a);
  }

  /** The count equals the length of the list exactly when the list has no duplicate and names
      existing text subscriptions only. */
  lemma CountMatchesIff(db: Db, ids: seq<int>)
    ensures |TextRows(db, ids)| == |ids|
       <==> NoDuplicates(ids) && forall id :: id in ids ==> id in db.subs && db.subs[id].kind == TextKind
  {
    MembersCount(ids);
    SubsetOfEqualSize(TextRows(db, ids), Members(ids));
    if forall id :: id in ids ==> id in db.subs && db.subs[id].kind == TextKind {
      assert TextRows(db, ids) == Members(ids);
    }
    if TextRows(db, ids) == Members(ids) {
      forall id | id in ids ensures id in db.subs && db.subs[id].kind == TextKind {
        assert id in Members(ids);
      }
    }
  }

  /** When a batch update is accepted, and what it changes: the contents of exactly the listed
      subscriptions. Any refusal changes nothing. */
  lemma BatchUpdatesExactlyListed(db: Db, ids: seq<int>, content: string, now: string)
    ensures var op := BatchContent(ids, content, now);
            && (Refusal(db, op).None? <==>
                  && ids != [] && NoDuplicates(ids)
                  && forall id :: id in ids ==> id in db.subs && db.subs[id].kind == TextKind)
            && (Refusal(db, op).Some? ==> Apply(db, op) == db)
            && (Refusal(db, op).None? ==>
                  && (forall id :: id in db.subs && id in ids ==>
                        Apply(db, op).subs[id] == db.subs[id].(content := content, updatedAt := now))
                  && (forall id :: id in db.subs && id !in ids ==> Apply(db, op).subs[id] == db.subs[id])
                  && Apply(db, op).subs.Keys == db.subs.Keys)
  {
    CountMatchesIff(db, ids);
  }

  lemma SameMember(raw: seq<int>, x: int)
    ensures x in FirstOccurrences(raw) <==> x in raw
  {
    FirstOccurrencesAre(raw);
  }

  /** What the handler passes on is refused only for ids that are not text subscriptions. */
  lemma CollectedIdsAccepted(db: Db, raw: seq<int>, content: string, now: string)
    requires raw != []
    ensures Refusal(db, BatchContent(FirstOccurrences(raw), content, now)).None?
       <==> forall id :: id in raw ==> id in db.subs && db.subs[id].kind == TextKind
  {
    FirstOccurrencesAre(raw);
    BatchUpdatesExactlyListed(db, FirstOccurrences(raw), content, now);
    SameMember(raw, raw[0]);
  }
}
