/** What logins, password changes and logouts achieve, and what they were judged by. */
module Logins {
  import opened Wrappers
  import opened Sessions
  import opened Epochs
  import TextOrder

  // ---- Logging out ----

  lemma LogoutStep(cfg: Config, s: System, digest: string, a: Action)
    requires digest !in s.tables.sessions && (a.CreateSession? ==> cfg.sha256(a.token) != digest)
    ensures digest !in Step(cfg, s, a).tables.sessions
  {
  }

  /** After a logout the token is refused at all times and in every continuation, until a session is
      created with a token of the same digest. */
  lemma {:induction false} LoggedOutStaysOut(cfg: Config, s: System, token: string, after: seq<Action>, now: string)
    requires forall i :: 0 <= i < |after| && after[i].CreateSession? ==> cfg.sha256(after[i].token) != cfg.sha256(token)
    ensures var s' := Run(cfg, Step(cfg, s, Logout(token)), after);
            cfg.sha256(token) !in s'.tables.sessions && !Accepts(s'.tables, cfg.sha256(token), now)
  {
    if after == [] {
      LogoutEndsOneSession(s.tables, cfg.sha256(token), cfg.sha256(token), now);
    } else {
      var n := |after| - 1;
      LoggedOutStaysOut(cfg, s, token, after[..n], now);
      LogoutStep(cfg, Run(cfg, Step(cfg, s, Logout(token)), after[..n]), cfg.sha256(token), after[n]);
    }
  }

  /** Nobody else is logged out. */
  lemma LogoutOfOthers(cfg: Config, s: System, token: string, other: string, now: string)
    requires Sound(cfg) && other != token
    ensures Accepts(Step(cfg, s, Logout(token)).tables, cfg.sha256(other), now)
       <==> Accepts(s.tables, cfg.sha256(other), now)
  {
  }

  /** A restart ends the requests in progress and no session; nor does anything but a change, a logout, a purge
      or a new session touch the table of sessions. */
  lemma SessionsOutlive(cfg: Config, s: System, a: Action, r: int)
    ensures StageOf(Step(cfg, s, Restart), r).Ended? && Step(cfg, s, Restart).tables == s.tables
    ensures !a.CommitChange? && !a.Logout? && !a.Purge? && !a.CreateSession? ==>
              Step(cfg, s, a).tables.sessions == s.tables.sessions
    ensures !a.CommitChange? && !a.SaveSettings? ==> Step(cfg, s, a).tables.settings == s.tables.settings
  {
  }

  /** Purging and saving the settings are steps that do what their transactions do. */
  lemma TableSteps(cfg: Config, s: System, now: string, retention: int, proxies: string)
    ensures Step(cfg, s, Purge(now)) == s.(tables := Purged(s.tables, now))
    ensures Step(cfg, s, SaveSettings(retention, proxies, now))
            == s.(tables := Updated(s.tables, retention, proxies, now))
  {
  }

  // ---- Logging in ----

  lemma RunOneMore(cfg: Config, s: System, before: seq<Action>, a: Action)
    ensures Run(cfg, s, before + [a]) == Step(cfg, Run(cfg, s, before), a)
  {
    assert (before + [a])[..|before|] == before;
  }

  lemma RunOfTwo(cfg: Config, s: System, a: Action, b: Action)
    ensures Run(cfg, s, [a, b]) == Step(cfg, Step(cfg, s, a), b)
  {
    RunOneMore(cfg, s, [], a);
    RunOneMore(cfg, s, [a], b);
    assert [] + [a] == [a] && [a] + [b] == [a, b];
  }

  lemma RunOfThree(cfg: Config, s: System, a: Action, b: Action, c: Action)
    ensures Run(cfg, s, [a, b, c]) == Step(cfg, Step(cfg, Step(cfg, s, a), b), c)
  {
    RunOfTwo(cfg, s, a, b);
    RunOneMore(cfg, s, [a, b], c);
    assert [a, b] + [c] == [a, b, c];
  }

  /** A login with the right password that the limiter lets through gets a session, which is accepted
      until it expires; no other session and no setting changes. */
  lemma LoginSucceeds(cfg: Config, s: System, password: string, token: string, csrf: string, expires: string,
                      created: string, now: string)
    requires cfg.verify(s.tables.settings.hash, password) && cfg.sha256(token) !in s.tables.sessions
    ensures var r := s.nextId;
            var s' := Run(cfg, s, [BeginLogin, CheckPassword(r, true, password),
                                   CreateSession(r, token, csrf, expires, created, false)]);
            && s'.tables == s.tables.(sessions := s.tables.sessions[cfg.sha256(token) :=
                                        Row(csrf, s.tables.settings.version, expires, created)])
            && (Accepts(s'.tables, cfg.sha256(token), now) <==> TextOrder.Less(now, expires))
  {
    var r := s.nextId;
    RunOfThree(cfg, s, BeginLogin, CheckPassword(r, true, password),
        CreateSession(r, token, csrf, expires, created, false));
  }

  /** With a wrong password, or against the limiter, nothing changes. */
  lemma LoginRefused(cfg: Config, s: System, allowed: bool, password: string, create: Action)
    requires create.CreateSession? && create.request == s.nextId
    requires !allowed || !cfg.verify(s.tables.settings.hash, password)
    ensures Run(cfg, s, [BeginLogin, CheckPassword(s.nextId, allowed, password), create]).tables == s.tables
  {
    RunOfThree(cfg, s, BeginLogin, CheckPassword(s.nextId, allowed, password), create);
  }

  // ---- Changing the password ----

  /** The rules of the form: the current password unless a change is forced, and a new one of at least
      four characters and at most 72 bytes, given twice and different from the present one. */
  predicate Rules(cfg: Config, seen: Settings, current: string, password: string, confirmation: string) {
    && (!seen.mustChange ==> cfg.verify(seen.hash, current))
    && 4 <= |password| && cfg.octets(password) <= 72
    && password == confirmation
    && !cfg.verify(seen.hash, password)
  }

  /** The changing request after its form was judged. */
  lemma FormJudged(cfg: Config, s: System, token: string, now: string, current: string, password: string,
                   confirmation: string)
    requires Accepts(s.tables, cfg.sha256(token), now)
    ensures var r, seen := s.nextId, s.tables.settings;
            var s' := Run(cfg, s, [BeginChange(token, now), LoadSettings(r),
                                   CheckForm(r, current, password, confirmation)]);
            && s'.tables == s.tables && r in s'.requests
            && s'.requests[r] == if Rules(cfg, seen, current, password, confirmation) then Confirmed(seen, password)
                                 else Ended
  {
    var r := s.nextId;
    RunOfThree(cfg, s, BeginChange(token, now), LoadSettings(r), CheckForm(r, current, password, confirmation));
  }

  /** A change by the rules puts the new password in force, under which the request gets the only session;
      the token it came with is refused from then on. */
  lemma ChangeSucceeds(cfg: Config, s: System, r: int, seen: Settings, password: string, hash: string, at: string,
                       token: string, csrf: string, expires: string, now: string)
    requires r in s.requests && s.requests[r] == Confirmed(seen, password) && cfg.verify(hash, password)
    ensures var version := s.tables.settings.version + 1;
            var s' := Run(cfg, s, [CommitChange(r, hash, at, false),
                                   CreateSession(r, token, csrf, expires, at, false)]);
            && s'.tables.settings.hash == hash && cfg.verify(s'.tables.settings.hash, password)
            && !s'.tables.settings.mustChange && s'.tables.settings.version == version
            && s'.tables.sessions == map[cfg.sha256(token) := Row(csrf, version, expires, at)]
            && (Accepts(s'.tables, cfg.sha256(token), now) <==> TextOrder.Less(now, expires))
            && forall other :: cfg.sha256(other) != cfg.sha256(token) ==> !Accepts(s'.tables, cfg.sha256(other), now)
  {
    RunOfTwo(cfg, s, CommitChange(r, hash, at, false), CreateSession(r, token, csrf, expires, at, false));
  }

  // ---- What passwords were judged by, in every run ----

  /** Step `m` judged the form of request `r`, by the rules and the settings it had read. */
  ghost predicate FormAt(cfg: Config, start: System, actions: seq<Action>, m: int, r: int, seen: Settings,
                         password: string) {
    && 0 <= m < |actions| && actions[m].CheckForm? && actions[m].request == r && actions[m].password == password
    && StageOf(Run(cfg, start, actions[..m]), r) == Authorized(seen)
    && Rules(cfg, seen, actions[m].current, password, actions[m].confirmation)
  }

  lemma StepConfirms(cfg: Config, s: System, a: Action, r: int)
    requires StageOf(Step(cfg, s, a), r).Confirmed? && StageOf(Step(cfg, s, a), r) != StageOf(s, r)
    ensures var stage := StageOf(Step(cfg, s, a), r);
            && a.CheckForm? && a.request == r && a.password == stage.password && StageOf(s, r) == Authorized(stage.seen)
            && Rules(cfg, stage.seen, a.current, a.password, a.confirmation)
  {
  }

  lemma {:induction false} ConfirmedByForm(cfg: Config, start: System, actions: seq<Action>, r: int) returns (m: int)
    requires Fresh(start) && StageOf(Run(cfg, start, actions), r).Confirmed?
    ensures var stage := StageOf(Run(cfg, start, actions), r);
            FormAt(cfg, start, actions, m, r, stage.seen, stage.password)
  {
    var before, a := actions[..|actions| - 1], actions[|actions| - 1];
    var s := Run(cfg, start, before);
    if StageOf(Step(cfg, s, a), r) == StageOf(s, r) {
      m := ConfirmedByForm(cfg, start, before, r);
      assert actions[..m] == before[..m];
    } else {
      StepConfirms(cfg, s, a, r);
      m := |before|;
    }
  }

  /** Step `k` wrote event `i`. */
  ghost predicate WroteEvent(cfg: Config, start: System, actions: seq<Action>, k: int, i: int) {
    && 0 <= k < |actions| && |Run(cfg, start, actions[..k]).history| == i
    && |Step(cfg, Run(cfg, start, actions[..k]), actions[k]).history| == i + 1
  }

  lemma StepWrites(cfg: Config, s: System, a: Action)
    ensures var h, h' := s.history, Step(cfg, s, a).history; h' == h || (|h'| == |h| + 1 && h'[..|h|] == h)
  {
  }

  lemma {:induction false} EventWritten(cfg: Config, start: System, actions: seq<Action>, i: int) returns (k: int)
    requires Fresh(start) && 0 <= i < |Run(cfg, start, actions).history|
    ensures WroteEvent(cfg, start, actions, k, i)
    ensures Step(cfg, Run(cfg, start, actions[..k]), actions[k]).history[i] == Run(cfg, start, actions).history[i]
  {
    var before, a := actions[..|actions| - 1], actions[|actions| - 1];
    StepWrites(cfg, Run(cfg, start, before), a);
    if i < |Run(cfg, start, before).history| {
      k := EventWritten(cfg, start, before, i);
      assert actions[..k] == before[..k] && actions[k] == before[k];
    } else {
      k := |before|;
    }
  }

  lemma ReplacedByCommit(cfg: Config, s: System, a: Action)
    requires |Step(cfg, s, a).history| == |s.history| + 1 && Step(cfg, s, a).history[|s.history|].Replaced?
    ensures var e := Step(cfg, s, a).history[|s.history|];
            && a.CommitChange? && a.request == e.request && a.hash == e.hash && !a.fault
            && StageOf(s, e.request).Confirmed? && cfg.verify(e.hash, StageOf(s, e.request).password)
            && e.seen == StageOf(s, e.request).seen.version
            && e.version == s.tables.settings.version + 1 && Step(cfg, s, a).tables.settings.hash == e.hash
  {
  }

  /** Every password that was ever put in force in a run had passed the rules of the form before, and
      its hash is one of this password. */
  lemma NewPasswordsFollowTheRules(cfg: Config, start: System, actions: seq<Action>, j: int) returns (m: int, k: int)
    requires Fresh(start) && 0 <= j < |Run(cfg, start, actions).history|
    requires Run(cfg, start, actions).history[j].Replaced?
    ensures var e := Run(cfg, start, actions).history[j];
            && 0 <= m < k < |actions| && actions[k].CommitChange? && actions[k].request == e.request
            && actions[k].hash == e.hash && actions[m].CheckForm?
            && exists seen :: FormAt(cfg, start, actions, m, e.request, seen, actions[m].password)
                           && seen.version == e.seen
    ensures cfg.verify(Run(cfg, start, actions).history[j].hash, actions[m].password)
  {
    k := EventWritten(cfg, start, actions, j);
    var s, e := Run(cfg, start, actions[..k]), Run(cfg, start, actions).history[j];
    ReplacedByCommit(cfg, s, actions[k]);
    m := ConfirmedByForm(cfg, start, actions[..k], e.request);
    var seen := StageOf(s, e.request).seen;
    assert actions[..k][..m] == actions[..m];
    assert FormAt(cfg, start, actions, m, e.request, seen, actions[m].password);
  }

  lemma VerifiedByCheck(cfg: Config, s: System, a: Action)
    requires |Step(cfg, s, a).history| == |s.history| + 1 && Step(cfg, s, a).history[|s.history|].Verified?
    ensures var e := Step(cfg, s, a).history[|s.history|];
            && cfg.verify(e.hash, e.password)
            && ( (a == CheckPassword(e.request, true, e.password) && StageOf(s, e.request).Loaded?
                  && StageOf(s, e.request).seen.version == e.version && StageOf(s, e.request).seen.hash == e.hash)
              || (a.CheckForm? && a.request == e.request && a.current == e.password))
  {
  }

  /** Every password that matched in a run was given either in the form of a change, or in a login that the
      limiter had let through. */
  lemma MatchesWereAllowed(cfg: Config, start: System, actions: seq<Action>, i: int) returns (k: int)
    requires Fresh(start) && 0 <= i < |Run(cfg, start, actions).history|
    requires Run(cfg, start, actions).history[i].Verified?
    ensures var e := Run(cfg, start, actions).history[i];
            && 0 <= k < |actions| && cfg.verify(e.hash, e.password)
            && (actions[k] == CheckPassword(e.request, true, e.password)
                || (actions[k].CheckForm? && actions[k].request == e.request && actions[k].current == e.password))
  {
    k := EventWritten(cfg, start, actions, i);
    VerifiedByCheck(cfg, Run(cfg, start, actions[..k]), actions[k]);
  }
}
