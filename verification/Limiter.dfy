/** The login limiter: a fixed window of failures with a lock, per client address. Times are
    nanoseconds of one monotone clock. */
module Limiter {
  import opened Wrappers

  const WINDOW: int := 15 * 60 * 1_000_000_000

  /** `None` is the zero time: no window was begun, no lock was set. */
  datatype Attempt = Attempt(count: nat, windowStart: Option<int>, lockedUntil: Option<int>)

  const NOTHING := Attempt(0, None, None)

  type Attempts = map<string, Attempt>

  function Entry(attempts: Attempts, ip: string): Attempt {
    if ip in attempts then attempts[ip] else NOTHING
  }

  /** `!now.Before(LockedUntil)`. */
  predicate Open(a: Attempt, now: int) {
    a.lockedUntil.None? || now >= a.lockedUntil.value
  }

  predicate WindowOver(a: Attempt, now: int) {
    a.windowStart.None? || now - a.windowStart.value > WINDOW
  }

  /** The entry after one more failure. */
  function AfterFailure(a: Attempt, now: int): Attempt {
    var b := if WindowOver(a, now) then Attempt(0, Some(now), None) else a;
    var c := b.(count := b.count + 1);
    if c.count >= 5 then c.(lockedUntil := Some(now + WINDOW)) else c
  }

  class LoginLimiter {
    var attempts: Attempts

    constructor ()
      ensures attempts == map[]
    {
      attempts := map[];
    }

    method Allowed(ip: string, now: int) returns (ok: bool)
      ensures ok <==> Open(Entry(attempts, ip), now)
    {
      var a := if ip in attempts then attempts[ip] else NOTHING;
      ok := !(a.lockedUntil.Some? && now < a.lockedUntil.value);
    }

    method Fail(ip: string, now: int)
      modifies this
      ensures attempts == old(attempts)[ip := AfterFailure(Entry(old(attempts), ip), now)]
      ensures forall other :: other != ip ==> Entry(attempts, other) == Entry(old(attempts), other)
    {
      var a := if ip in attempts then attempts[ip] else NOTHING;
      if a.windowStart.None? || now - a.windowStart.value > WINDOW {
        a := Attempt(0, Some(now), None);
      }
      a := a.(count := a.count + 1);
      if a.count >= 5 {
        a := a.(lockedUntil := Some(now + WINDOW));
      }
      attempts := attempts[ip := a];
    }

    method Success(ip: string)
      modifies this
      ensures attempts == old(attempts) - {ip}
      ensures forall other :: other != ip ==> Entry(attempts, other) == Entry(old(attempts), other)
    {
      attempts := attempts - {ip};
    }
  }

  // ---- Logins over time ----

  /** What the login handler does with the limiter: ask, then report a wrong or a right password. */
  datatype Event =
    | Check(ip: string, time: int)
    | Fail(ip: string, time: int)
    | Success(ip: string, time: int)

  /** The limiter, the clock, and for each address the number of its logins that passed their check
      and have not reported yet. */
  datatype State = State(attempts: Attempts, clock: int, flights: map<string, nat>)

  function Flights(s: State, ip: string): nat {
    if ip in s.flights then s.flights[ip] else 0
  }

  /** A monotone clock and at most `k` logins in flight per address. A login reports only after its
      check passed. */
  predicate Possible(k: nat, s: State, e: Event) {
    && e.time >= s.clock
    && (if e.Check? then Flights(s, e.ip) < k else Flights(s, e.ip) > 0)
  }

  function Apply(s: State, e: Event): State
    requires e.Check? || Flights(s, e.ip) > 0
  {
    match e
    case Check(ip, time) =>
      State(s.attempts, time, if Open(Entry(s.attempts, ip), time) then s.flights[ip := Flights(s, ip) + 1]
          else s.flights)
    case Fail(ip, time) =>
      State(s.attempts[ip := AfterFailure(Entry(s.attempts, ip), time)], time, s.flights[ip := Flights(s, ip) - 1])
    case Success(ip, time) =>
      State(s.attempts - {ip}, time, s.flights[ip := Flights(s, ip) - 1])
  }

  /** `events` may happen from `s` on, and lead to `s'`. */
  ghost predicate Leads(k: nat, s: State, events: seq<Event>, s': State) {
    if events == [] then s' == s
    else
      var n := |events| - 1;
      exists m :: Leads(k, s, events[..n], m) && Possible(k, m, events[n]) && s' == Apply(m, events[n])
  }

  const START := State(map[], 0, map[])

  lemma LeadsOn(k: nat, s: State, events: seq<Event>, m: State, e: Event)
    requires Leads(k, s, events, m) && Possible(k, m, e)
    ensures Leads(k, s, events + [e], Apply(m, e))
  {
    assert (events + [e])[..|events|] == events;
  }

  lemma LeadsBack(k: nat, s: State, events: seq<Event>, s': State) returns (m: State)
    requires Leads(k, s, events, s') && events != []
    ensures Leads(k, s, events[..|events| - 1], m) && Possible(k, m, events[|events| - 1])
    ensures s' == Apply(m, events[|events| - 1])
  {
    m :| Leads(k, s, events[..|events| - 1], m) && Possible(k, m, events[|events| - 1]) && s' == Apply(m,
        events[|events| - 1]);
  }

  // ---- What holds in every state ----

  /** No more than `k` flights per address. An entry has failures and an open window that began in
      the past; a lock takes five failures. */
  ghost predicate Sane(k: nat, s: State) {
    && (forall ip :: Flights(s, ip) <= k)
    && (forall ip :: ip in s.attempts ==> SaneEntry(s.attempts[ip], s.clock))
  }

  predicate SaneEntry(a: Attempt, clock: int) {
    && a.count >= 1 && a.windowStart.Some? && a.windowStart.value <= clock
    && (a.lockedUntil.Some? ==> a.count >= 5)
  }

  lemma StepSane(k: nat, s: State, e: Event)
    requires Sane(k, s) && Possible(k, s, e)
    ensures Sane(k, Apply(s, e))
  {
    var s' := Apply(s, e);
    forall ip ensures Flights(s', ip) <= k {
      assert Flights(s, ip) <= k;
    }
    forall ip | ip in s'.attempts ensures SaneEntry(s'.attempts[ip], s'.clock) {
      assert ip in s.attempts ==> SaneEntry(s.attempts[ip], s.clock);
    }
  }

  lemma {:induction false} LeadsSane(k: nat, events: seq<Event>, s: State)
    requires Leads(k, START, events, s)
    ensures Sane(k, s)
  {
    if events != [] {
      var m := LeadsBack(k, START, events, s);
      LeadsSane(k, events[..|events| - 1], m);
      StepSane(k, m, events[|events| - 1]);
    }
  }

  // ---- The rate bound ----

  /** The failures of one address among the events. */
  function Failures(events: seq<Event>, ip: string): nat {
    if events == [] then 0
    else
      var e := events[|events| - 1];
      Failures(events[..|events| - 1], ip) + (if e.Fail? && e.ip == ip then 1 else 0)
  }

  predicate LockedBeyond(a: Attempt, time: int) {
    a.lockedUntil.Some? && a.lockedUntil.value >= time
  }

  /** What `n` failures at or after `start` leave behind, while less than WINDOW has passed since and
      `m` logins are in flight. A full count has locked the address beyond start + WINDOW, so only
      the logins in flight can still fail. A window that began before `start` holds at most three of
      the failures before its count is full; one of the logins in flight then may outlive the
      window and open a new one, in which the count begins again. */
  predicate Spent(k: nat, a: Attempt, m: nat, start: int, n: nat) {
    && a.windowStart.Some? && a.count >= 1 && m <= k
    && if a.windowStart.value < start then
         if a.count >= 5 then LockedBeyond(a, start + WINDOW) && n + m <= k + 3 else n < a.count
       else
         if a.count >= 5 then LockedBeyond(a, start + WINDOW) && n + m <= 2 * k + 6 else n <= k + 2 + a.count
  }

  lemma FirstFailure(k: nat, a: Attempt, m: nat, start: int)
    requires a == NOTHING || SaneEntry(a, start)
    requires m < k
    ensures Spent(k, AfterFailure(a, start), m, start, 1)
  {
  }

  lemma NextFailure(k: nat, a: Attempt, m: nat, start: int, n: nat, now: int)
    requires Spent(k, a, m, start, n) && m > 0 && start <= now < start + WINDOW
    ensures Spent(k, AfterFailure(a, now), m - 1, start, n + 1)
  {
  }

  lemma SpentBounds(k: nat, a: Attempt, m: nat, start: int, n: nat)
    requires Spent(k, a, m, start, n) && k > 0
    ensures n <= 2 * k + 6
  {
  }

  lemma SpentStep(k: nat, s: State, e: Event, ip: string, start: int, n: nat)
    requires Sane(k, s) && Possible(k, s, e) && e != Success(ip, e.time)
    requires start <= s.clock && e.time < start + WINDOW && Spent(k, Entry(s.attempts, ip), Flights(s, ip), start, n)
    ensures var s' := Apply(s, e);
            Spent(k, Entry(s'.attempts, ip), Flights(s', ip), start, n + (if e.Fail? && e.ip == ip then 1 else 0))
  {
    if e.Fail? && e.ip == ip {
      NextFailure(k, Entry(s.attempts, ip), Flights(s, ip), start, n, e.time);
    }
  }

  lemma {:induction false} SpentThroughout(k: nat, before: seq<Event>, ip: string, start: int, after: seq<Event>,
                                           s: State)
    requires Leads(k, START, before + [Fail(ip, start)] + after, s)
    requires forall i :: 0 <= i < |after| ==> after[i] != Success(ip, after[i].time)
    requires s.clock < start + WINDOW
    ensures s.clock >= start && Spent(k, Entry(s.attempts, ip), Flights(s, ip), start, 1 + Failures(after, ip))
  {
    var events := before + [Fail(ip, start)] + after;
    var m := LeadsBack(k, START, events, s);
    LeadsSane(k, events[..|events| - 1], m);
    if after == [] {
      assert events[|events| - 1] == Fail(ip, start);
      assert Flights(m, ip) <= k;
      FirstFailure(k, Entry(m.attempts, ip), Flights(m, ip) - 1, start);
    } else {
      var n := |after| - 1;
      assert events[..|events| - 1] == before + [Fail(ip, start)] + after[..n] && events[|events| - 1] == after[n];
      SpentThroughout(k, before, ip, start, after[..n], m);
      SpentStep(k, m, after[n], ip, start, 1 + Failures(after[..n], ip));
    }
  }

  /** With at most `k` logins of an address in flight, fewer than WINDOW nanoseconds hold at most
      2k + 6 failures in a row: more than that take at least 15 minutes. */
  lemma FailuresPerWindow(k: nat, before: seq<Event>, ip: string, start: int, after: seq<Event>, s: State)
    requires k >= 1 && Leads(k, START, before + [Fail(ip, start)] + after, s)
    requires forall i :: 0 <= i < |after| ==> after[i] != Success(ip, after[i].time)
    ensures 1 + Failures(after, ip) > 2 * k + 6 ==> s.clock - start >= WINDOW
  {
    if s.clock < start + WINDOW {
      SpentThroughout(k, before, ip, start, after, s);
      SpentBounds(k, Entry(s.attempts, ip), Flights(s, ip), start, 1 + Failures(after, ip));
    }
  }

  /** Nine failures in a row from one address take at least 15 minutes if its logins do not overlap. */
  lemma AtMostEightFailuresPerWindow(before: seq<Event>, ip: string, start: int, after: seq<Event>, s: State)
    requires Leads(1, START, before + [Fail(ip, start)] + after, s)
    requires forall i :: 0 <= i < |after| ==> after[i] != Success(ip, after[i].time)
    ensures 1 + Failures(after, ip) >= 9 ==> s.clock - start >= WINDOW
  {
    FailuresPerWindow(1, before, ip, start, after, s);
  }

  // ---- The bound is reached ----

  /** The entry after `n` more failures at one time within the window. */
  function Repeated(a: Attempt, n: nat, time: int): Attempt {
    if n == 0 then a else Attempt(a.count + n, a.windowStart, if a.count + n >= 5 then Some(time + WINDOW)
        else a.lockedUntil)
  }

  /** Where some events that are no success of `ip` led: clock, entry and flights of the address. */
  ghost predicate At(k: nat, ip: string, events: seq<Event>, clock: int, a: Attempt, m: nat) {
    exists s :: Leads(k, START, events, s) && s.clock == clock && Entry(s.attempts, ip) == a && Flights(s, ip) == m
  }

  lemma OneCheck(k: nat, ip: string, events: seq<Event>, clock: int, a: Attempt, m: nat, time: int)
    requires At(k, ip, events, clock, a, m) && clock <= time && Open(a, time) && m < k
    ensures At(k, ip, events + [Check(ip, time)], time, a, m + 1)
  {
    var s :| Leads(k, START, events, s) && s.clock == clock && Entry(s.attempts, ip) == a && Flights(s, ip) == m;
    LeadsOn(k, START, events, s, Check(ip, time));
  }

  lemma OneFailure(k: nat, ip: string, events: seq<Event>, clock: int, a: Attempt, m: nat, time: int)
    requires At(k, ip, events, clock, a, m) && clock <= time && m > 0
    ensures At(k, ip, events + [Fail(ip, time)], time, AfterFailure(a, time), m - 1)
  {
    var s :| Leads(k, START, events, s) && s.clock == clock && Entry(s.attempts, ip) == a && Flights(s, ip) == m;
    LeadsOn(k, START, events, s, Fail(ip, time));
  }

  function Checks(ip: string, n: nat, time: int): seq<Event> { seq(n, _ => Check(ip, time)) }

  function Fails(ip: string, n: nat, time: int): seq<Event> { seq(n, _ => Fail(ip, time)) }

  lemma ChecksSnoc(events: seq<Event>, ip: string, n: nat, time: int)
    ensures events + Checks(ip, n + 1, time) == events + Checks(ip, n, time) + [Check(ip, time)]
    ensures events + Fails(ip, n + 1, time) == events + Fails(ip, n, time) + [Fail(ip, time)]
    ensures events + Checks(ip, 0, time) == events && events + Fails(ip, 0, time) == events
  {
  }

  lemma {:induction false} ManyChecks(k: nat, ip: string, events: seq<Event>, clock: int, a: Attempt, m: nat, n: nat)
    requires At(k, ip, events, clock, a, m) && Open(a, clock) && m + n <= k
    ensures At(k, ip, events + Checks(ip, n, clock), clock, a, m + n)
  {
    if n == 0 {
      ChecksSnoc(events, ip, n, clock);
    } else {
      ManyChecks(k, ip, events, clock, a, m, n - 1);
      OneCheck(k, ip, events + Checks(ip, n - 1, clock), clock, a, m + n - 1, clock);
      ChecksSnoc(events, ip, n - 1, clock);
    }
  }

  lemma RepeatedStep(a: Attempt, n: nat, time: int)
    requires !WindowOver(a, time)
    ensures AfterFailure(Repeated(a, n, time), time) == Repeated(a, n + 1, time)
    ensures !WindowOver(Repeated(a, n, time), time)
  {
  }

  lemma {:induction false} ManyFails(k: nat, ip: string, events: seq<Event>, clock: int, a: Attempt, m: nat, n: nat)
    requires At(k, ip, events, clock, a, m) && n <= m && !WindowOver(a, clock)
    ensures At(k, ip, events + Fails(ip, n, clock), clock, Repeated(a, n, clock), m - n)
  {
    if n == 0 {
      ChecksSnoc(events, ip, n, clock);
    } else {
      ManyFails(k, ip, events, clock, a, m, n - 1);
      OneFailure(k, ip, events + Fails(ip, n - 1, clock), clock, Repeated(a, n - 1, clock), m - n + 1, clock);
      RepeatedStep(a, n - 1, clock);
      ChecksSnoc(events, ip, n - 1, clock);
    }
  }

  /** A login alone, that fails. */
  function Try(ip: string, time: int): seq<Event> { [Check(ip, time), Fail(ip, time)] }

  lemma OneTry(k: nat, ip: string, events: seq<Event>, clock: int, a: Attempt, time: int)
    requires k > 0 && At(k, ip, events, clock, a, 0) && clock <= time && Open(a, time)
    ensures At(k, ip, events + Try(ip, time), time, AfterFailure(a, time), 0)
  {
    OneCheck(k, ip, events, clock, a, 0, time);
    OneFailure(k, ip, events + [Check(ip, time)], time, a, 1, time);
    assert events + [Check(ip, time)] + [Fail(ip, time)] == events + Try(ip, time);
  }

  /** Three logins one after another, then `k` that pass their checks together, of which `n` fail. */
  function Filling(ip: string, k: nat, n: nat, time: int): seq<Event> {
    Try(ip, time) + (Try(ip, time) + Try(ip, time) + Checks(ip, k, time) + Fails(ip, n, time))
  }

  lemma ThreeTries(k: nat, ip: string, events: seq<Event>, clock: int, start: int, time: int)
    requires k > 0 && At(k, ip, events, clock, Attempt(1, Some(start), None), 0) && clock <= time <= start + WINDOW
    ensures At(k, ip, events + Try(ip, time) + Try(ip, time) + Try(ip, time), time, Attempt(4, Some(start), None), 0)
  {
    OneTry(k, ip, events, clock, Attempt(1, Some(start), None), time);
    OneTry(k, ip, events + Try(ip, time), time, Attempt(2, Some(start), None), time);
    OneTry(k, ip, events + Try(ip, time) + Try(ip, time), time, Attempt(3, Some(start), None), time);
  }

  lemma FillingIs(events: seq<Event>, ip: string, k: nat, n: nat, time: int)
    ensures events + Try(ip, time) + Try(ip, time) + Try(ip, time) + Checks(ip, k, time) + Fails(ip, n, time)
            == events + Filling(ip, k, n, time)
  {
  }

  lemma FillWindow(k: nat, ip: string, events: seq<Event>, clock: int, start: int, n: nat, time: int)
    requires k > 0 && n <= k && At(k, ip, events, clock, Attempt(1, Some(start), None), 0)
    requires clock <= time <= start + WINDOW
    ensures At(k, ip, events + Filling(ip, k, n, time), time, Repeated(Attempt(4, Some(start), None), n, time), k - n)
  {
    ThreeTries(k, ip, events, clock, start, time);
    var tried := events + Try(ip, time) + Try(ip, time) + Try(ip, time);
    ManyChecks(k, ip, tried, time, Attempt(4, Some(start), None), 0, k);
    ManyFails(k, ip, tried + Checks(ip, k, time), time, Attempt(4, Some(start), None), k, n);
    FillingIs(events, ip, k, n, time);
  }

  /** A window that opens at 0; at its very end three failures, then `k` logins that pass their checks
      together, of which all but one fail. The address is locked for another window. */
  function FirstWindow(ip: string, k: nat): seq<Event>
    requires k > 0
  {
    Try(ip, 0) + Filling(ip, k, k - 1, WINDOW)
  }

  /** The one login left fails after the window is over and opens a new one, which erases the lock;
      three more failures; and once more `k` logins that pass together and fail. */
  function SecondWindow(ip: string, k: nat): seq<Event> {
    [Fail(ip, WINDOW + 1)] + Filling(ip, k, k, WINDOW + 1)
  }

  lemma FirstWindowLeads(k: nat, ip: string)
    requires k > 0
    ensures At(k, ip, FirstWindow(ip, k), WINDOW, Repeated(Attempt(4, Some(0), None), k - 1, WINDOW), 1)
  {
    assert Leads(k, START, [], START);
    assert At(k, ip, [], 0, NOTHING, 0);
    OneTry(k, ip, [], 0, NOTHING, 0);
    assert [] + Try(ip, 0) == Try(ip, 0);
    FillWindow(k, ip, Try(ip, 0), 0, 0, k - 1, WINDOW);
  }

  lemma SecondWindowLeads(k: nat, ip: string, events: seq<Event>, a: Attempt)
    requires k > 0 && At(k, ip, events, WINDOW, a, 1) && a.windowStart == Some(0)
    ensures At(k, ip, events + SecondWindow(ip, k), WINDOW + 1,
        Repeated(Attempt(4, Some(WINDOW + 1), None), k, WINDOW + 1), 0)
  {
    var w := WINDOW + 1;
    OneFailure(k, ip, events, WINDOW, a, 1, w);
    FillWindow(k, ip, events + [Fail(ip, w)], w, w, k, w);
    SecondWindowIs(events, ip, k);
  }

  lemma SecondWindowIs(events: seq<Event>, ip: string, k: nat)
    ensures events + [Fail(ip, WINDOW + 1)] + Filling(ip, k, k, WINDOW + 1) == events + SecondWindow(ip, k)
  {
  }

  lemma {:induction false} FailuresAppend(a: seq<Event>, b: seq<Event>, ip: string)
    ensures Failures(a + b, ip) == Failures(a, ip) + Failures(b, ip)
  {
    if b == [] {
      assert a + b == a;
    } else {
      assert (a + b)[..|a + b| - 1] == a + b[..|b| - 1];
      FailuresAppend(a, b[..|b| - 1], ip);
    }
  }

  lemma {:induction false} FailuresOf(ip: string, n: nat, time: int)
    ensures Failures(Checks(ip, n, time), ip) == 0 && Failures(Fails(ip, n, time), ip) == n
  {
    if n > 0 {
      assert Checks(ip, n, time)[..n - 1] == Checks(ip, n - 1, time) && Fails(ip, n, time)[..n - 1] == Fails(ip,
          n - 1, time);
      FailuresOf(ip, n - 1, time);
    }
  }

  lemma FailuresOfTry(ip: string, time: int)
    ensures Failures([Check(ip, time)], ip) == 0
    ensures Failures([Fail(ip, time)], ip) == 1 && Failures(Try(ip, time), ip) == 1
  {
    var e, f := Check(ip, time), Fail(ip, time);
    assert [e][..0] == [] && [f][..0] == [];
    FailuresAppend([e], [f], ip);
    assert [e] + [f] == Try(ip, time);
  }

  /** A filling without its first login. */
  function Refilling(ip: string, k: nat, n: nat, time: int): seq<Event> {
    Try(ip, time) + Try(ip, time) + Checks(ip, k, time) + Fails(ip, n, time)
  }

  lemma FailuresOfFilling(ip: string, k: nat, n: nat, time: int)
    ensures Failures(Refilling(ip, k, n, time), ip) == n + 2 && Failures(Filling(ip, k, n, time), ip) == n + 3
  {
    var t := Try(ip, time);
    FailuresOfTry(ip, time);
    FailuresOf(ip, k, time);
    FailuresOf(ip, n, time);
    FailuresAppend(t, t, ip);
    FailuresAppend(t + t, Checks(ip, k, time), ip);
    FailuresAppend(t + t + Checks(ip, k, time), Fails(ip, n, time), ip);
    FailuresAppend(t, Refilling(ip, k, n, time), ip);
  }

  /** What comes after the first failure at the end of the first window. */
  function Rest(ip: string, k: nat): seq<Event>
    requires k > 0
  {
    Refilling(ip, k, k - 1, WINDOW) + SecondWindow(ip, k)
  }

  lemma FailuresOfRest(ip: string, k: nat)
    requires k > 0
    ensures Failures(Rest(ip, k), ip) == 2 * k + 5
  {
    FailuresOfFilling(ip, k, k - 1, WINDOW);
    FailuresOfFilling(ip, k, k, WINDOW + 1);
    FailuresOfTry(ip, WINDOW + 1);
    FailuresAppend([Fail(ip, WINDOW + 1)], Filling(ip, k, k, WINDOW + 1), ip);
    FailuresAppend(Refilling(ip, k, k - 1, WINDOW), SecondWindow(ip, k), ip);
  }

  lemma NoSuccessInRest(ip: string, k: nat)
    requires k > 0
    ensures forall e :: e in Rest(ip, k) ==> !e.Success?
  {
    assert forall e :: e in SecondWindow(ip, k) ==> !e.Success?;
  }

  lemma WorstCase(ip: string, k: nat)
    requires k > 0
    ensures FirstWindow(ip, k) + SecondWindow(ip, k)
            == [Check(ip, 0), Fail(ip, 0), Check(ip, WINDOW)] + [Fail(ip, WINDOW)] + Rest(ip, k)
  {
  }

  /** The bound is tight for every `k`: 2k + 6 failures in a row within one nanosecond. */
  lemma BoundIsReached(k: nat, ip: string) returns (before: seq<Event>, after: seq<Event>, s: State)
    requires k >= 1
    ensures Leads(k, START, before + [Fail(ip, WINDOW)] + after, s) && s.clock == WINDOW + 1
    ensures forall i :: 0 <= i < |after| ==> after[i] != Success(ip, after[i].time)
    ensures 1 + Failures(after, ip) == 2 * k + 6
  {
    before, after := [Check(ip, 0), Fail(ip, 0), Check(ip, WINDOW)], Rest(ip, k);
    FirstWindowLeads(k, ip);
    SecondWindowLeads(k, ip, FirstWindow(ip, k), Repeated(Attempt(4, Some(0), None), k - 1, WINDOW));
    WorstCase(ip, k);
    s :| Leads(k, START, FirstWindow(ip, k) + SecondWindow(ip, k), s) && s.clock == WINDOW + 1;
    FailuresOfRest(ip, k);
    NoSuccessInRest(ip, k);
    assert forall i :: 0 <= i < |after| ==> after[i] in after;
  }

  // ---- What locks, and for how long ----

  /** The entry after failures at these times. */
  function AfterAll(a: Attempt, times: seq<int>): Attempt {
    if times == [] then a else AfterFailure(AfterAll(a, times[..|times| - 1]), times[|times| - 1])
  }

  /** Failures within one window of a new address: the first four lock nothing, and from the fifth on each
      locks the address for 15 minutes. */
  lemma {:induction false} FifthFailureLocks(times: seq<int>)
    requires times != [] && forall i :: 0 <= i < |times| ==> times[0] <= times[i] <= times[0] + WINDOW
    ensures var a, last := AfterAll(NOTHING, times), times[|times| - 1];
            && a.count == |times| && a.windowStart == Some(times[0])
            && a.lockedUntil == (if |times| >= 5 then Some(last + WINDOW) else None)
            && (forall now :: Open(a, now) <==> |times| < 5 || now >= last + WINDOW)
  {
    var n := |times| - 1;
    if n == 0 {
      assert AfterAll(NOTHING, times[..0]) == NOTHING;
    } else {
      FifthFailureLocks(times[..n]);
    }
  }

  /** A failure after the window is the first of a new one. */
  lemma NewWindow(a: Attempt, now: int)
    requires a.windowStart.Some? && now - a.windowStart.value > WINDOW
    ensures AfterFailure(a, now) == AfterAll(NOTHING, [now])
  {
    assert [now][..0] == [];
  }

  /** Every lock of every run ends within 15 minutes of the present time, however logins overlap. */
  lemma {:induction false} LocksEnd(k: nat, events: seq<Event>, s: State, ip: string, now: int)
    requires Leads(k, START, events, s)
    ensures Entry(s.attempts, ip).lockedUntil.Some? ==> Entry(s.attempts, ip).lockedUntil.value <= s.clock + WINDOW
    ensures now >= s.clock + WINDOW ==> Open(Entry(s.attempts, ip), now)
  {
    if events != [] {
      var m := LeadsBack(k, START, events, s);
      LocksEnd(k, events[..|events| - 1], m, ip, now);
    }
  }

  /** A success forgets all failures of its address, and of no other: the next failures count from one. */
  lemma SuccessForgets(s: State, ip: string, other: string, time: int)
    requires Flights(s, ip) > 0
    ensures var s' := Apply(s, Success(ip, time));
            && Entry(s'.attempts, ip) == NOTHING && Open(Entry(s'.attempts, ip), time)
            && (other != ip ==> Entry(s'.attempts, other) == Entry(s.attempts, other))
            && Flights(s', ip) == Flights(s, ip) - 1
  {
  }

  /** A check lets a login pass exactly when no lock stands, and changes no entry; a failure counts for its own
      address only. */
  lemma CheckAndFail(s: State, ip: string, other: string, time: int)
    ensures var s' := Apply(s, Check(ip, time));
            && s'.attempts == s.attempts
            && Flights(s', ip) == Flights(s, ip) + (if Open(Entry(s.attempts, ip), time) then 1 else 0)
            && (other != ip ==> Flights(s', other) == Flights(s, other))
    ensures Flights(s, ip) > 0 ==>
              var s' := Apply(s, Fail(ip, time));
              && Entry(s'.attempts, ip) == AfterAll(Entry(s.attempts, ip), [time])
              && (other != ip ==> Entry(s'.attempts, other) == Entry(s.attempts, other))
              && Flights(s', ip) == Flights(s, ip) - 1
  {
    assert [time][..0] == [];
  }

  // ---- Standing locks ----

  ghost predicate OpenInFlight(s: State) {
    forall ip :: Flights(s, ip) > 0 ==> Open(Entry(s.attempts, ip), s.clock)
  }

  lemma {:induction false} AloneInFlight(events: seq<Event>, s: State)
    requires Leads(1, START, events, s)
    ensures OpenInFlight(s)
  {
    if events != [] {
      var m := LeadsBack(1, START, events, s);
      AloneInFlight(events[..|events| - 1], m);
      LeadsSane(1, events[..|events| - 1], m);
      forall ip | Flights(s, ip) > 0 ensures Open(Entry(s.attempts, ip), s.clock) {
        assert Flights(m, ip) <= 1;
        assert Flights(m, ip) > 0 ==> Open(Entry(m.attempts, ip), m.clock);
      }
    }
  }

  /** No failure is recorded while a lock stands, as long as logins of one address do not overlap. */
  lemma NoFailureUnderLock(events: seq<Event>, s: State, ip: string, time: int)
    requires Leads(1, START, events, s) && Possible(1, s, Fail(ip, time))
    ensures Open(Entry(s.attempts, ip), time)
  {
    AloneInFlight(events, s);
    assert Flights(s, ip) > 0;
  }

  /** A failure recorded under a standing lock, by a login that overlaps another, keeps the lock exactly
      when the window is not over; otherwise the new window erases it. */
  lemma StandingLockSurvivesIff(k: nat, events: seq<Event>, s: State, ip: string, time: int)
    requires Leads(k, START, events, s) && Possible(k, s, Fail(ip, time))
    requires !Open(Entry(s.attempts, ip), time)
    ensures Entry(s.attempts, ip).windowStart.Some?
    ensures !Open(Entry(Apply(s, Fail(ip, time)).attempts, ip), time)
       <==> time - Entry(s.attempts, ip).windowStart.value <= WINDOW
  {
    LeadsSane(k, events, s);
    assert SaneEntry(s.attempts[ip], s.clock);
  }

  /** With two logins overlapping, a standing lock is erased: one failure at 0; at WINDOW four failures
      and a lock until 2 WINDOW, while one more login has passed its check; it fails at WINDOW + 1. */
  lemma OverlapErasesLock(ip: string) returns (events: seq<Event>, s: State)
    ensures Leads(2, START, events, s) && Possible(2, s, Fail(ip, WINDOW + 1))
    ensures Entry(s.attempts, ip).lockedUntil == Some(2 * WINDOW) && !Open(Entry(s.attempts, ip), WINDOW + 1)
    ensures var s' := Apply(s, Fail(ip, WINDOW + 1));
            Entry(s'.attempts, ip).lockedUntil == None && Open(Entry(s'.attempts, ip), WINDOW + 1)
  {
    events := FirstWindow(ip, 2);
    FirstWindowLeads(2, ip);
    var a := Attempt(5, Some(0), Some(2 * WINDOW));
    assert Repeated(Attempt(4, Some(0), None), 1, WINDOW) == a;
    s :| Leads(2, START, events, s) && s.clock == WINDOW && Entry(s.attempts, ip) == a && Flights(s, ip) == 1;
  }
}
