/** Logins and password changes that race: each request reads the settings, checks a password and
    inserts its session in separate steps. Every session that the store accepts belongs to a
    request that knew, or set, the password of the present session version, and every password
    change to a request that presented such a session. */
module Epochs {
  import opened Wrappers
  import opened Sessions

  /** `verify` is bcrypt's comparison of a hash and a password, `octets` the length in UTF-8. */
  datatype Config = Config(sha256: string -> string, verify: (string, string) -> bool, octets: string -> nat)

  ghost predicate Sound(cfg: Config) {
    forall a, b :: cfg.sha256(a) == cfg.sha256(b) ==> a == b
  }

  /** Where a login or a password change stands. */
  datatype Stage =
    | Loaded(seen: Settings)      // login: Settings was read
    | Checked(seen: Settings)     // login: the password matched the hash that was read
    | Admitted                    // change: Session accepted the cookie
    | Authorized(seen: Settings)  // change: Settings was read
    | Confirmed(seen: Settings, password: string) // change: the form was right, with this new password
    | Renewed(version: int)       // change: ChangePassword committed and returned this version
    | Ended

  /** What happened: a password matched the hash of a version, a hash was set by a request that had
      read version `seen`, a session row was inserted, a session was accepted for a change. */
  datatype Event =
    | Verified(request: int, version: int, hash: string, password: string)
    | Replaced(request: int, version: int, hash: string, seen: int)
    | Issued(request: int, version: int, token: string)
    | Entered(request: int, version: int, token: string)

  datatype System = System(tables: Tables, requests: map<int, Stage>, nextId: int, history: seq<Event>)

  datatype Action =
    | BeginLogin
    | CheckPassword(request: int, allowed: bool, password: string)
    | BeginChange(token: string, now: string)
    | LoadSettings(request: int)
    | CheckForm(request: int, current: string, password: string, confirmation: string)
    | CommitChange(request: int, hash: string, now: string, fault: bool)
    | CreateSession(request: int, token: string, csrf: string, expires: string, now: string, fault: bool)
    | Logout(token: string)
    | Purge(now: string)
    | SaveSettings(retention: int, proxies: string, now: string)
    | Restart

  function StageOf(s: System, r: int): Stage {
    if r in s.requests then s.requests[r] else Ended
  }

  function Begin(s: System, stage: Stage): System {
    s.(requests := s.requests[s.nextId := stage], nextId := s.nextId + 1)
  }

  function Move(s: System, r: int, stage: Stage): System {
    s.(requests := s.requests[r := stage])
  }

  function StepCheck(cfg: Config, s: System, r: int, allowed: bool, password: string): System {
    var stage := StageOf(s, r);
    if !stage.Loaded? then s
    else if !allowed || !cfg.verify(stage.seen.hash, password) then Move(s, r, Ended)
    else
      var verified := Verified(r, stage.seen.version, stage.seen.hash, password);
      Move(s, r, Checked(stage.seen)).(history := s.history + [verified])
  }

  /** The form's rules, judged by the settings that were read when the request was authorized. */
  predicate FormOk(cfg: Config, seen: Settings, current: string, password: string, confirmation: string) {
    && (seen.mustChange || cfg.verify(seen.hash, current))
    && |password| >= 4 && cfg.octets(password) <= 72 && password == confirmation
    && !cfg.verify(seen.hash, password)
  }

  function StepForm(cfg: Config, s: System, a: Action): System
    requires a.CheckForm?
  {
    var stage := StageOf(s, a.request);
    if !stage.Authorized? then s
    else if !FormOk(cfg, stage.seen, a.current, a.password, a.confirmation) then Move(s, a.request, Ended)
    else if stage.seen.mustChange then Move(s, a.request, Confirmed(stage.seen, a.password))
    else Move(s, a.request, Confirmed(stage.seen, a.password)).(
           history := s.history + [Verified(a.request, stage.seen.version, stage.seen.hash, a.current)])
  }

  /** `hash` is what bcrypt made of the new password; without such a hash there is no change. */
  function StepCommit(cfg: Config, s: System, a: Action): System
    requires a.CommitChange?
  {
    var stage := StageOf(s, a.request);
    if !stage.Confirmed? then s
    else if a.fault || !cfg.verify(a.hash, stage.password) then Move(s, a.request, Ended)
    else
      var version := s.tables.settings.version + 1;
      var replaced := Replaced(a.request, version, a.hash, stage.seen.version);
      Move(s, a.request, Renewed(version)).(tables := Changed(s.tables, a.hash, a.now),
                                            history := s.history + [replaced])
  }

  function StepEnter(cfg: Config, s: System, token: string, now: string): System {
    if !Accepts(s.tables, cfg.sha256(token), now) then Begin(s, Ended)
    else Begin(s, Admitted).(history := s.history + [Entered(s.nextId, s.tables.settings.version, token)])
  }

  /** The version a request puts on its session: the one it read, or the one it made. */
  function VersionOf(stage: Stage): int {
    if stage.Checked? then stage.seen.version else if stage.Renewed? then stage.version else 0
  }

  function StepCreate(cfg: Config, s: System, a: Action): System
    requires a.CreateSession?
  {
    var stage := StageOf(s, a.request);
    var digest := cfg.sha256(a.token);
    if !stage.Checked? && !stage.Renewed? then s
    else if a.fault || digest in s.tables.sessions then Move(s, a.request, Ended)
    else Move(s, a.request, Ended).(
           tables := Created(s.tables, digest, Row(a.csrf, VersionOf(stage), a.expires, a.now)),
           history := s.history + [Issued(a.request, VersionOf(stage), a.token)])
  }

  function Step(cfg: Config, s: System, a: Action): System {
    match a
    case BeginLogin => Begin(s, Loaded(s.tables.settings))
    case CheckPassword(r, allowed, password) => StepCheck(cfg, s, r, allowed, password)
    case BeginChange(token, now) => StepEnter(cfg, s, token, now)
    case LoadSettings(r) => if StageOf(s, r).Admitted? then Move(s, r, Authorized(s.tables.settings)) else s
    case CheckForm(_, _, _, _) => StepForm(cfg, s, a)
    case CommitChange(_, _, _, _) => StepCommit(cfg, s, a)
    case CreateSession(_, _, _, _, _, _) => StepCreate(cfg, s, a)
    case Logout(token) => s.(tables := Deleted(s.tables, cfg.sha256(token)))
    case Purge(now) => s.(tables := Purged(s.tables, now))
    case SaveSettings(retention, proxies, now) => s.(tables := Updated(s.tables, retention, proxies, now))
    case Restart => s.(requests := map r | r in s.requests :: Ended)
  }

  function Run(cfg: Config, s: System, actions: seq<Action>): System {
    if actions == [] then s else Step(cfg, Run(cfg, s, actions[..|actions| - 1]), actions[|actions| - 1])
  }

  // ---- Evidence ----

  /** Before position `n`, request `r` matched a password against the hash of this version. */
  ghost predicate Matched(h: seq<Event>, n: int, r: int, version: int) {
    exists i :: 0 <= i < n <= |h| && h[i].Verified? && h[i].request == r && h[i].version == version
  }

  /** Before position `n`, request `r` matched a password against the hash of this version, or set it. */
  ghost predicate Vouched(h: seq<Event>, n: int, r: int, version: int) {
    exists i :: 0 <= i < n <= |h| && (h[i].Verified? || h[i].Replaced?) && h[i].request == r && h[i].version == version
  }

  /** Before position `n`, request `r` presented a session that was accepted. */
  ghost predicate Came(h: seq<Event>, n: int, r: int) {
    exists i :: 0 <= i < n <= |h| && h[i].Entered? && h[i].request == r
  }

  /** Before position `n`, the token was issued under this version by a request vouched for it. */
  ghost predicate IssuedBefore(h: seq<Event>, n: int, token: string, version: int) {
    exists k :: 0 <= k < n <= |h| && h[k] == Issued(h[k].request, version, token) && Vouched(h, k, h[k].request,
        version)
  }

  lemma EvidenceStays(h: seq<Event>, e: Event, n: int, m: int, r: int, version: int)
    requires n <= m <= |h| + 1
    ensures Matched(h, n, r, version) ==> Matched(h + [e], m, r, version)
    ensures Vouched(h, n, r, version) ==> Vouched(h + [e], m, r, version)
    ensures Came(h, n, r) ==> Came(h + [e], m, r)
  {
    assert forall i :: 0 <= i < |h| ==> (h + [e])[i] == h[i];
  }

  lemma IssueStays(h: seq<Event>, e: Event, n: int, token: string, version: int)
    requires n <= |h| && IssuedBefore(h, n, token, version)
    ensures IssuedBefore(h + [e], n, token, version)
  {
    var k :| 0 <= k < n <= |h| && h[k] == Issued(h[k].request, version, token) && Vouched(h, k, h[k].request, version);
    EvidenceStays(h, e, k, k, h[k].request, version);
    assert (h + [e])[k] == h[k];
  }

  /** The last insertion of a session with this digest; -1 when there was none. */
  function LastIssue(cfg: Config, h: seq<Event>, digest: string): (j: int)
    ensures -1 <= j < |h|
    ensures j >= 0 ==> h[j].Issued? && cfg.sha256(h[j].token) == digest
  {
    if h == [] then -1
    else if h[|h| - 1].Issued? && cfg.sha256(h[|h| - 1].token) == digest then |h| - 1
    else LastIssue(cfg, h[..|h| - 1], digest)
  }

  lemma LastIssueAppend(cfg: Config, h: seq<Event>, e: Event, digest: string)
    ensures LastIssue(cfg, h + [e], digest)
            == if e.Issued? && cfg.sha256(e.token) == digest then |h| else LastIssue(cfg, h, digest)
  {
    assert (h + [e])[..|h|] == h;
  }

  // ---- What holds in every state ----

  /** Settings that were read are of an earlier version, or agree with the present ones. A change is
      forced in the first version only. */
  predicate SeenOk(first: int, t: Tables, seen: Settings) {
    && seen.version <= t.settings.version
    && (seen.version == t.settings.version ==> seen.hash == t.settings.hash)
    && (seen.mustChange ==> seen.version == first)
  }

  /** An event about a hash agrees with the settings if it is about the present version. */
  predicate Agrees(cfg: Config, t: Tables, e: Event) {
    && e.version <= t.settings.version
    && ((e.Verified? || e.Replaced?) && e.version == t.settings.version ==> e.hash == t.settings.hash)
    && (e.Verified? ==> cfg.verify(e.hash, e.password))
  }

  /** A change was made by a request that presented a session and, unless the change was forced,
      knew the password of the version it had read; the session had been issued in the same way. */
  ghost predicate Backed(first: int, h: seq<Event>, j: int)
    requires 0 <= j < |h|
  {
    && (h[j].Replaced? ==> Came(h, j, h[j].request) && (h[j].seen == first || Matched(h, j, h[j].request, h[j].seen)))
    && (h[j].Entered? ==> IssuedBefore(h, j, h[j].token, h[j].version))
  }

  /** What a request holds: settings that were true once, and evidence. */
  ghost predicate StageOk(first: int, s: System, r: int, stage: Stage) {
    var n := |s.history|;
    match stage
    case Loaded(seen) => SeenOk(first, s.tables, seen)
    case Checked(seen) => seen.version <= s.tables.settings.version && Vouched(s.history, n, r, seen.version)
    case Admitted => Came(s.history, n, r)
    case Authorized(seen) => SeenOk(first, s.tables, seen) && Came(s.history, n, r)
    case Confirmed(seen, _) =>
      Came(s.history, n, r) && (seen.version == first || Matched(s.history, n, r, seen.version))
    case Renewed(version) => version <= s.tables.settings.version && Vouched(s.history, n, r, version)
    case Ended => true
  }

  /** A session row was inserted last by a request with evidence for the row's version. */
  ghost predicate RowOk(cfg: Config, s: System, digest: string)
    requires digest in s.tables.sessions
  {
    var j := LastIssue(cfg, s.history, digest);
    j >= 0 && s.history[j].version == s.tables.sessions[digest].version && Vouched(s.history, j,
        s.history[j].request, s.history[j].version)
  }

  ghost predicate HistoryOk(cfg: Config, first: int, s: System) {
    forall i :: 0 <= i < |s.history| ==> Agrees(cfg, s.tables, s.history[i]) && Backed(first, s.history, i)
  }

  ghost predicate Inv(cfg: Config, first: int, s: System) {
    && HistoryOk(cfg, first, s)
    && (s.tables.settings.mustChange ==> s.tables.settings.version == first)
    && (forall r :: r in s.requests ==> StageOk(first, s, r, s.requests[r]))
    && (forall d :: d in s.tables.sessions ==> RowOk(cfg, s, d))
  }

  lemma RowAppend(cfg: Config, s: System, s': System, e: Event, digest: string)
    requires digest in s.tables.sessions && RowOk(cfg, s, digest)
    requires digest in s'.tables.sessions && s'.tables.sessions[digest] == s.tables.sessions[digest]
    requires s'.history == s.history + [e] && !(e.Issued? && cfg.sha256(e.token) == digest)
    ensures RowOk(cfg, s', digest)
  {
    var j := LastIssue(cfg, s.history, digest);
    LastIssueAppend(cfg, s.history, e, digest);
    EvidenceStays(s.history, e, j, j, s.history[j].request, s.history[j].version);
  }

  /** The settings are as they were, or of a later version. */
  predicate Advances(t: Tables, t': Tables) {
    t'.settings == t.settings || t'.settings.version > t.settings.version
  }

  lemma StageAppend(first: int, s: System, s': System, e: Event, r: int, stage: Stage)
    requires StageOk(first, s, r, stage) && s'.history == s.history + [e] && Advances(s.tables, s'.tables)
    ensures StageOk(first, s', r, stage)
  {
    var n := |s.history|;
    var version := if stage.Renewed? then stage.version
        else if stage.Checked? || stage.Confirmed? then stage.seen.version else 0;
    EvidenceStays(s.history, e, n, n + 1, r, version);
  }

  lemma BackedAppend(first: int, h: seq<Event>, e: Event, j: int)
    requires 0 <= j < |h| && Backed(first, h, j)
    ensures Backed(first, h + [e], j)
  {
    assert (h + [e])[j] == h[j];
    if h[j].Replaced? {
      EvidenceStays(h, e, j, j, h[j].request, h[j].seen);
    } else if h[j].Entered? {
      IssueStays(h, e, j, h[j].token, h[j].version);
    }
  }

  lemma HistoryAppend(cfg: Config, first: int, s: System, s': System, e: Event)
    requires HistoryOk(cfg, first, s) && s'.history == s.history + [e] && Advances(s.tables, s'.tables)
    requires Agrees(cfg, s'.tables, e) && Backed(first, s'.history, |s.history|)
    ensures HistoryOk(cfg, first, s')
  {
    forall i | 0 <= i < |s'.history| ensures Agrees(cfg, s'.tables, s'.history[i]) && Backed(first, s'.history, i) {
      if i < |s.history| {
        assert Agrees(cfg, s.tables, s.history[i]) && Backed(first, s.history, i);
        BackedAppend(first, s.history, e, i);
      }
    }
  }

  // ---- Every step ----

  predicate Kept(s: System, s': System, r: int) {
    r in s.requests && r in s'.requests && s'.requests[r] == s.requests[r]
  }

  /** No event; sessions may go; requests may end, or move to a stage that is right already. */
  lemma QuietKeeps(cfg: Config, first: int, s: System, s': System)
    requires Inv(cfg, first, s) && s'.history == s.history
    requires s'.tables.settings.version == s.tables.settings.version
    requires s'.tables.settings.hash == s.tables.settings.hash
    requires s'.tables.settings.mustChange == s.tables.settings.mustChange
    requires forall d :: d in s'.tables.sessions ==>
               d in s.tables.sessions && s'.tables.sessions[d] == s.tables.sessions[d]
    requires forall r :: r in s'.requests ==> Kept(s, s', r) || StageOk(first, s, r, s'.requests[r])
    ensures Inv(cfg, first, s')
  {
    forall r | r in s'.requests ensures StageOk(first, s', r, s'.requests[r]) {
      if Kept(s, s', r) {
        assert StageOk(first, s, r, s.requests[r]);
      }
    }
    forall d | d in s'.tables.sessions ensures RowOk(cfg, s', d) {
      assert RowOk(cfg, s, d);
    }
  }

  /** One event; no session comes or goes; request `r` moves, the others stay. */
  lemma EventKeeps(cfg: Config, first: int, s: System, s': System, e: Event, r: int)
    requires Inv(cfg, first, s) && s'.tables == s.tables && s'.history == s.history + [e] && !e.Issued?
    requires forall q :: q in s'.requests && q != r ==> Kept(s, s', q)
    requires r in s'.requests && StageOk(first, s', r, s'.requests[r])
    requires Agrees(cfg, s.tables, e) && Backed(first, s'.history, |s.history|)
    ensures Inv(cfg, first, s')
  {
    HistoryAppend(cfg, first, s, s', e);
    forall q | q in s'.requests ensures StageOk(first, s', q, s'.requests[q]) {
      if q != r {
        assert Kept(s, s', q);
        StageAppend(first, s, s', e, q, s.requests[q]);
      }
    }
    forall d | d in s'.tables.sessions ensures RowOk(cfg, s', d) {
      RowAppend(cfg, s, s', e, d);
    }
  }

  lemma CheckKeeps(cfg: Config, first: int, s: System, r: int, allowed: bool, password: string)
    requires Inv(cfg, first, s)
    ensures Inv(cfg, first, StepCheck(cfg, s, r, allowed, password))
  {
    var s' := StepCheck(cfg, s, r, allowed, password);
    if s'.history == s.history {
      QuietKeeps(cfg, first, s, s');
    } else {
      assert StageOk(first, s, r, s.requests[r]);
      var e := s'.history[|s.history|];
      assert e.Verified? && e.request == r;
      EventKeeps(cfg, first, s, s', e, r);
    }
  }

  lemma FormKeeps(cfg: Config, first: int, s: System, a: Action)
    requires Inv(cfg, first, s) && a.CheckForm?
    ensures Inv(cfg, first, StepForm(cfg, s, a))
  {
    var s' := StepForm(cfg, s, a);
    if StageOf(s, a.request).Authorized? {
      assert StageOk(first, s, a.request, s.requests[a.request]);
    }
    if s'.history == s.history {
      QuietKeeps(cfg, first, s, s');
    } else {
      var e := s'.history[|s.history|];
      assert e.Verified? && e.request == a.request;
      EvidenceStays(s.history, e, |s.history|, |s.history| + 1, a.request, e.version);
      EventKeeps(cfg, first, s, s', e, a.request);
    }
  }

  /** What an accepted token shows. */
  lemma AcceptedWasIssued(cfg: Config, first: int, s: System, token: string, now: string)
    requires Sound(cfg) && Inv(cfg, first, s) && Accepts(s.tables, cfg.sha256(token), now)
    ensures IssuedBefore(s.history, |s.history|, token, s.tables.settings.version)
  {
    assert RowOk(cfg, s, cfg.sha256(token));
    var j := LastIssue(cfg, s.history, cfg.sha256(token));
    assert s.history[j] == Issued(s.history[j].request, s.tables.settings.version, token);
  }

  lemma EnterKeeps(cfg: Config, first: int, s: System, token: string, now: string)
    requires Sound(cfg) && Inv(cfg, first, s)
    ensures Inv(cfg, first, StepEnter(cfg, s, token, now))
  {
    var s' := StepEnter(cfg, s, token, now);
    if s'.history == s.history {
      QuietKeeps(cfg, first, s, s');
    } else {
      var e := s'.history[|s.history|];
      AcceptedWasIssued(cfg, first, s, token, now);
      IssueStays(s.history, e, |s.history|, token, e.version);
      assert e.Entered? && e.request == s.nextId;
      EventKeeps(cfg, first, s, s', e, s.nextId);
    }
  }

  lemma CommitKeeps(cfg: Config, first: int, s: System, a: Action)
    requires Inv(cfg, first, s) && a.CommitChange?
    ensures Inv(cfg, first, StepCommit(cfg, s, a))
  {
    var s' := StepCommit(cfg, s, a);
    if s'.history == s.history {
      QuietKeeps(cfg, first, s, s');
    } else {
      var e := s'.history[|s.history|];
      assert StageOk(first, s, a.request, s.requests[a.request]);
      EvidenceStays(s.history, e, |s.history|, |s.history|, a.request, e.seen);
      HistoryAppend(cfg, first, s, s', e);
      forall q | q in s'.requests ensures StageOk(first, s', q, s'.requests[q]) {
        if q == a.request {
          assert s'.history[|s.history|] == e;
        } else {
          StageAppend(first, s, s', e, q, s.requests[q]);
        }
      }
    }
  }

  lemma CreateKeeps(cfg: Config, first: int, s: System, a: Action)
    requires Inv(cfg, first, s) && a.CreateSession?
    ensures Inv(cfg, first, StepCreate(cfg, s, a))
  {
    var s' := StepCreate(cfg, s, a);
    if s'.history == s.history {
      QuietKeeps(cfg, first, s, s');
    } else {
      var e := s'.history[|s.history|];
      assert StageOk(first, s, a.request, s.requests[a.request]);
      HistoryAppend(cfg, first, s, s', e);
      forall q | q in s'.requests ensures StageOk(first, s', q, s'.requests[q]) {
        if q != a.request {
          StageAppend(first, s, s', e, q, s.requests[q]);
        }
      }
      CreatedRows(cfg, first, s, s', a);
    }
  }

  lemma CreatedRows(cfg: Config, first: int, s: System, s': System, a: Action)
    requires Inv(cfg, first, s) && a.CreateSession? && s' == StepCreate(cfg, s, a) && |s'.history| == |s.history| + 1
    requires a.request in s.requests && StageOk(first, s, a.request, s.requests[a.request])
    ensures forall d :: d in s'.tables.sessions ==> RowOk(cfg, s', d)
  {
    var digest := cfg.sha256(a.token);
    var e := s'.history[|s.history|];
    LastIssueAppend(cfg, s.history, e, digest);
    EvidenceStays(s.history, e, |s.history|, |s.history|, a.request, e.version);
    forall d | d in s'.tables.sessions ensures RowOk(cfg, s', d) {
      if d != digest {
        RowAppend(cfg, s, s', e, d);
      }
    }
  }

  lemma LoadKeeps(cfg: Config, first: int, s: System, r: int)
    requires Inv(cfg, first, s)
    ensures Inv(cfg, first, Step(cfg, s, LoadSettings(r)))
  {
    if StageOf(s, r).Admitted? {
      assert StageOk(first, s, r, s.requests[r]);
    }
    QuietKeeps(cfg, first, s, Step(cfg, s, LoadSettings(r)));
  }

  lemma StepKeeps(cfg: Config, first: int, s: System, a: Action)
    requires Sound(cfg) && Inv(cfg, first, s)
    ensures Inv(cfg, first, Step(cfg, s, a))
  {
    match a
    case CheckPassword(r, allowed, password) => CheckKeeps(cfg, first, s, r, allowed, password);
    case BeginChange(token, now) => EnterKeeps(cfg, first, s, token, now);
    case LoadSettings(r) => LoadKeeps(cfg, first, s, r);
    case CheckForm(_, _, _, _) => FormKeeps(cfg, first, s, a);
    case CommitChange(_, _, _, _) => CommitKeeps(cfg, first, s, a);
    case CreateSession(_, _, _, _, _, _) => CreateKeeps(cfg, first, s, a);
    case _ => QuietKeeps(cfg, first, s, Step(cfg, s, a));
  }

  /** A new database with any default hash, before the first request. */
  predicate Fresh(s: System) {
    s.tables.sessions == map[] && s.requests == map[] && s.history == []
  }

  lemma {:induction false} RunKeeps(cfg: Config, start: System, actions: seq<Action>)
    requires Sound(cfg) && Fresh(start)
    ensures Inv(cfg, start.tables.settings.version, Run(cfg, start, actions))
  {
    if actions != [] {
      RunKeeps(cfg, start, actions[..|actions| - 1]);
      StepKeeps(cfg, start.tables.settings.version, Run(cfg, start, actions[..|actions| - 1]), actions[|actions| - 1]);
    }
  }

  lemma {:induction false} RunOn(cfg: Config, s: System, before: seq<Action>, after: seq<Action>)
    ensures Run(cfg, Run(cfg, s, before), after) == Run(cfg, s, before + after)
  {
    if after == [] {
      assert before + after == before;
    } else {
      assert (before + after)[..|before + after| - 1] == before + after[..|after| - 1];
      RunOn(cfg, s, before, after[..|after| - 1]);
    }
  }

  // ---- Password-epoch safety ----

  /** Some request issued this very token, and before that had matched a password against the
      hash that is in force now, or had itself set that hash. */
  ghost predicate Earned(cfg: Config, s: System, token: string) {
    exists i, j :: 0 <= i < j < |s.history|
                && s.history[j] == Issued(s.history[i].request, s.tables.settings.version, token)
                && (s.history[i].Verified? || s.history[i].Replaced?)
                && s.history[i].version == s.tables.settings.version && s.history[i].hash == s.tables.settings.hash
                && (s.history[i].Verified? ==> cfg.verify(s.tables.settings.hash, s.history[i].password))
  }

  /** However logins and password changes interleave, an accepted token was earned under the
      password that is in force now. */
  lemma AcceptedTokensWereEarned(cfg: Config, start: System, actions: seq<Action>, token: string, now: string)
    requires Sound(cfg) && Fresh(start)
    requires Accepts(Run(cfg, start, actions).tables, cfg.sha256(token), now)
    ensures Earned(cfg, Run(cfg, start, actions), token)
  {
    var s := Run(cfg, start, actions);
    RunKeeps(cfg, start, actions);
    AcceptedWasIssued(cfg, start.tables.settings.version, s, token, now);
    IssuedIsEarned(cfg, start.tables.settings.version, s, token);
  }

  lemma IssuedIsEarned(cfg: Config, first: int, s: System, token: string)
    requires Inv(cfg, first, s) && IssuedBefore(s.history, |s.history|, token, s.tables.settings.version)
    ensures Earned(cfg, s, token)
  {
    var h, v := s.history, s.tables.settings.version;
    var j :| 0 <= j < |h| && h[j] == Issued(h[j].request, v, token) && Vouched(h, j, h[j].request, v);
    var r := h[j].request;
    var i :| 0 <= i < j <= |h| && (h[i].Verified? || h[i].Replaced?) && h[i].request == r && h[i].version == v;
    assert Agrees(cfg, s.tables, h[i]);
    assert h[j] == Issued(h[i].request, v, token);
  }

  /** Every password change in a run was made by a request that before had presented an accepted
      session, whose token had been issued to a request vouched for its version; and that request
      had given the password of the version it read, unless that was the first version, whose
      default password must be changed. */
  lemma ChangesWereAuthorized(cfg: Config, start: System, actions: seq<Action>, j: nat)
    requires Sound(cfg) && Fresh(start) && j < |Run(cfg, start, actions).history|
    requires Run(cfg, start, actions).history[j].Replaced?
    ensures var h := Run(cfg, start, actions).history;
            && (h[j].seen == start.tables.settings.version || Matched(h, j, h[j].request, h[j].seen))
            && exists i :: 0 <= i < j && h[i].Entered? && h[i].request == h[j].request && IssuedBefore(h, i,
                h[i].token, h[i].version)
  {
    RunKeeps(cfg, start, actions);
    var h, first := Run(cfg, start, actions).history, start.tables.settings.version;
    assert Backed(first, h, j);
    var i :| 0 <= i < j <= |h| && h[i].Entered? && h[i].request == h[j].request;
    assert Backed(first, h, i);
  }

  // ---- Sessions inserted late ----

  /** The request holds a session version that is no longer the present one. */
  predicate Stale(s: System, r: int) {
    var stage := StageOf(s, r);
    && r < s.nextId
    && ((stage.Loaded? || stage.Checked?) ==> stage.seen.version < s.tables.settings.version)
    && (stage.Renewed? ==> stage.version < s.tables.settings.version)
    && !stage.Admitted? && !stage.Authorized? && !stage.Confirmed?
  }

  /** Every token the request inserted at or after position `n` carries an old version. */
  ghost predicate OnlyOldTokens(s: System, r: int, n: nat) {
    forall j :: n <= j < |s.history| && s.history[j].Issued? && s.history[j].request == r ==>
      s.history[j].version < s.tables.settings.version
  }

  lemma StaleStep(cfg: Config, s: System, r: int, n: nat, a: Action)
    requires Stale(s, r) && n <= |s.history| && OnlyOldTokens(s, r, n)
    ensures Stale(Step(cfg, s, a), r) && n <= |Step(cfg, s, a).history| && OnlyOldTokens(Step(cfg, s, a), r, n)
  {
  }

  lemma {:induction false} StaleForever(cfg: Config, s: System, r: int, n: nat, actions: seq<Action>)
    requires Stale(s, r) && n <= |s.history| && OnlyOldTokens(s, r, n)
    ensures Stale(Run(cfg, s, actions), r) && OnlyOldTokens(Run(cfg, s, actions), r, n)
    ensures n <= |Run(cfg, s, actions).history|
  {
    if actions != [] {
      StaleForever(cfg, s, r, n, actions[..|actions| - 1]);
      StaleStep(cfg, Run(cfg, s, actions[..|actions| - 1]), r, n, actions[|actions| - 1]);
    }
  }

  /** A request that read the settings before a password change and inserts its session after
      it, so that the change's DELETE misses the row, has inserted a session that is never accepted. */
  lemma LateSessionsAreNeverAccepted(cfg: Config, start: System, before: seq<Action>, r: int, after: seq<Action>,
                                     digest: string, now: string)
    requires Sound(cfg) && Fresh(start) && Stale(Run(cfg, start, before), r)
    ensures var s := Run(cfg, Run(cfg, start, before), after);
            var j := LastIssue(cfg, s.history, digest);
            j >= |Run(cfg, start, before).history| && s.history[j].request == r ==> !Accepts(s.tables, digest, now)
  {
    var s0 := Run(cfg, start, before);
    RunOn(cfg, start, before, after);
    RunKeeps(cfg, start, before + after);
    StaleForever(cfg, s0, r, |s0.history|, after);
    StaleRowRefused(cfg, start.tables.settings.version, Run(cfg, s0, after), r, |s0.history|, digest, now);
  }

  lemma StaleRowRefused(cfg: Config, first: int, s: System, r: int, n: nat, digest: string, now: string)
    requires Inv(cfg, first, s) && OnlyOldTokens(s, r, n)
    ensures var j := LastIssue(cfg, s.history, digest);
            j >= n && s.history[j].request == r ==> !Accepts(s.tables, digest, now)
  {
    if Accepts(s.tables, digest, now) {
      assert RowOk(cfg, s, digest);
    }
  }

  /** Every login and password change that read or made its version before another change
      commits is stale from that commit on. */
  lemma ChangeMakesStale(cfg: Config, start: System, before: seq<Action>, a: Action, r: int)
    requires Sound(cfg) && Fresh(start) && a.CommitChange?
    requires StepCommit(cfg, Run(cfg, start, before), a).tables.settings.version > Run(cfg, start,
        before).tables.settings.version
    requires r != a.request && r < Run(cfg, start, before).nextId
    requires var stage := StageOf(Run(cfg, start, before), r); stage.Loaded? || stage.Checked? || stage.Renewed?
    ensures Stale(Step(cfg, Run(cfg, start, before), a), r)
  {
    var s := Run(cfg, start, before);
    RunKeeps(cfg, start, before);
    assert StageOk(start.tables.settings.version, s, r, s.requests[r]);
  }

  /** The race itself: a login reads the settings, the password changes, the login inserts its
      session. The row exists and is not expired, yet it is refused. */
  lemma LateRowExistsButIsRefused(cfg: Config, start: System, before: seq<Action>, r: int, change: Action,
                                  create: Action, now: string)
    requires Sound(cfg) && Fresh(start) && StageOf(Run(cfg, start, before), r).Checked?
    requires change.CommitChange? && change.request != r
    requires StepCommit(cfg, Run(cfg, start, before), change).tables.settings.version > Run(cfg, start,
        before).tables.settings.version
    requires create.CreateSession? && create.request == r && !create.fault
    ensures var s := Step(cfg, Step(cfg, Run(cfg, start, before), change), create);
            cfg.sha256(create.token) in s.tables.sessions && !Accepts(s.tables, cfg.sha256(create.token), now)
  {
    var s0 := Run(cfg, start, before);
    RunKeeps(cfg, start, before);
    assert StageOk(start.tables.settings.version, s0, r, s0.requests[r]);
  }
}
