/** Settings and sessions as the store keeps them. A session row is found by the SHA-256 of its
    token and carries the session version under which it was created. */
module Sessions {
  import opened Wrappers
  import TextOrder

  datatype Settings = Settings(
    hash: string, mustChange: bool, version: int, retention: int, proxies: string, updatedAt: string)

  datatype Row = Row(csrf: string, version: int, expires: string, createdAt: string)

  /** Sessions are keyed by the digest of their token. */
  datatype Tables = Tables(settings: Settings, sessions: map<string, Row>)

  /** The joined query of Session: the row exists, is of the present version and is not expired. */
  predicate Accepts(t: Tables, digest: string, now: string) {
    && digest in t.sessions
    && t.sessions[digest].version == t.settings.version
    && TextOrder.Less(now, t.sessions[digest].expires)
  }

  function Changed(t: Tables, hash: string, now: string): Tables {
    Tables(t.settings.(hash := hash, mustChange := false, version := t.settings.version + 1, updatedAt := now), map[])
  }

  function Created(t: Tables, digest: string, row: Row): Tables {
    t.(sessions := t.sessions[digest := row])
  }

  function Deleted(t: Tables, digest: string): Tables {
    t.(sessions := t.sessions - {digest})
  }

  function Purged(t: Tables, now: string): Tables {
    t.(sessions := map d | d in t.sessions && TextOrder.Less(now, t.sessions[d].expires) :: t.sessions[d])
  }

  function Updated(t: Tables, retention: int, proxies: string, now: string): Tables {
    t.(settings := t.settings.(retention := retention, proxies := proxies, updatedAt := now))
  }

  /** Purging is invisible: from that moment on it changes no answer to any token. */
  lemma PurgeChangesNoAnswer(t: Tables, purgedAt: string, digest: string, now: string)
    requires !TextOrder.Less(now, purgedAt)
    ensures Accepts(Purged(t, purgedAt), digest, now) <==> Accepts(t, digest, now)
  {
    if Accepts(t, digest, now) && purgedAt != now {
      TextOrder.Trichotomy(purgedAt, now);
      TextOrder.Transitive(purgedAt, now, t.sessions[digest].expires);
    }
  }

  /** A password change ends every session that exists when it commits, and only those. */
  lemma ChangeEndsEverySession(t: Tables, hash: string, now: string, digest: string, row: Row, later: string)
    ensures !Accepts(Changed(t, hash, now), digest, later)
    ensures Accepts(Created(Changed(t, hash, now), digest, row), digest, later)
            <==> row.version == t.settings.version + 1 && TextOrder.Less(later, row.expires)
  {
  }

  /** A logout ends the session of its token for good, and no other. */
  lemma LogoutEndsOneSession(t: Tables, digest: string, other: string, now: string)
    ensures !Accepts(Deleted(t, digest), digest, now)
    ensures other != digest ==> (Accepts(Deleted(t, digest), other, now) <==> Accepts(t, other, now))
    ensures other != digest ==> (other in Deleted(t, digest).sessions <==> other in t.sessions)
    ensures other in Deleted(t, digest).sessions ==> Deleted(t, digest).sessions[other] == t.sessions[other]
    ensures Deleted(t, digest).settings == t.settings
  {
  }

  /** A new session is accepted until its expiry if it is of the present version; no other answer changes. */
  lemma NewSessionIsAccepted(t: Tables, digest: string, row: Row, other: string, now: string)
    ensures Accepts(Created(t, digest, row), digest, now)
       <==> row.version == t.settings.version && TextOrder.Less(now, row.expires)
    ensures other != digest ==> (Accepts(Created(t, digest, row), other, now) <==> Accepts(t, other, now))
    ensures Created(t, digest, row).settings == t.settings
  {
  }

  /** Saving the settings form changes neither the password nor any answer to a token. */
  lemma SettingsKeepSessions(t: Tables, retention: int, proxies: string, saved: string, digest: string, now: string)
    ensures var t' := Updated(t, retention, proxies, saved);
            && t'.settings.retention == retention && t'.settings.proxies == proxies && t'.settings.updatedAt == saved
            && t'.settings.hash == t.settings.hash && t'.settings.mustChange == t.settings.mustChange
            && t'.settings.version == t.settings.version && t'.sessions == t.sessions
            && (Accepts(t', digest, now) <==> Accepts(t, digest, now))
  {
  }

  /** A change puts the new hash in force, which no longer must be changed, and keeps the other settings. */
  lemma ChangeSetsPassword(t: Tables, hash: string, now: string)
    ensures var t' := Changed(t, hash, now).settings;
            && t'.hash == hash && !t'.mustChange && t'.version == t.settings.version + 1 && t'.updatedAt == now
            && t'.retention == t.settings.retention && t'.proxies == t.settings.proxies
    ensures Changed(t, hash, now).sessions == map[]
  {
  }

  class SessionStore {
    const sha256: string -> string
    var settings: Settings
    var sessions: map<string, Row>

    function Snapshot(): Tables
      reads this
    {
      Tables(settings, sessions)
    }

    /** A new database: the default password must be changed. */
    constructor (sha256: string -> string, defaultHash: string, retention: int, now: string)
      ensures this.sha256 == sha256
      ensures Snapshot() == Tables(Settings(defaultHash, true, 1, retention, "", now), map[])
    {
      this.sha256 := sha256;
      settings := Settings(defaultHash, true, 1, retention, "", now);
      sessions := map[];
    }

    /** One transaction; `fault` is the call that fails (BEGIN, UPDATE, DELETE, SELECT, COMMIT). */
    method ChangePassword(hash: string, now: string, fault: nat) returns (r: Result<int>)
      modifies this
      ensures Snapshot() == if r.Ok? then Changed(old(Snapshot()), hash, now) else old(Snapshot())
      ensures r.Ok? <==> fault >= 5
      ensures r.Ok? ==> r.value == settings.version == old(settings.version) + 1
    {
      var saved := Snapshot();
      if fault <= 1 { return Err(Fault); }
      settings := settings.(hash := hash, mustChange := false, version := settings.version + 1, updatedAt := now);
      if fault == 2 {
        settings, sessions := saved.settings, saved.sessions;
        return Err(Fault);
      }
      sessions := map[];
      if fault <= 4 {
        settings, sessions := saved.settings, saved.sessions;
        return Err(Fault);
      }
      r := Ok(settings.version);
    }

    method UpdateSettings(retention: int, proxies: string, now: string, fault: bool) returns (r: Result<()>)
      modifies this`settings
      ensures Snapshot() == if r.Ok? then Updated(old(Snapshot()), retention, proxies, now) else old(Snapshot())
      ensures r.Ok? <==> !fault
    {
      if fault { return Err(Fault); }
      settings := settings.(retention := retention, proxies := proxies, updatedAt := now);
      r := Ok(());
    }

    /** The version is the caller's: it may no longer be the present one. */
    method CreateSession(token: string, csrf: string, version: int, expires: string, now: string, fault: bool)
      returns (r: Result<()>)
      modifies this`sessions
      ensures Snapshot() == if r.Ok? then Created(old(Snapshot()), sha256(token),
          Row(csrf, version, expires, now)) else old(Snapshot())
      ensures r == if fault then Err(Fault) else if sha256(token) in old(sessions) then Err(UniqueFailed) else Ok(())
    {
      if fault { return Err(Fault); }
      if sha256(token) in sessions { return Err(UniqueFailed); }
      sessions := sessions[sha256(token) := Row(csrf, version, expires, now)];
      r := Ok(());
    }

    method Session(token: string, now: string, fault: bool) returns (r: Result<Row>)
      ensures r.Ok? <==> !fault && Accepts(Snapshot(), sha256(token), now)
      ensures r.Ok? ==> sha256(token) in sessions && r.value == sessions[sha256(token)]
      ensures r.Ok? ==> r.value.version == settings.version
      ensures r.Err? ==> r.error == if fault then Fault else NoRows
    {
      if fault { return Err(Fault); }
      var digest := sha256(token);
      if digest !in sessions || sessions[digest].version != settings.version { return Err(NoRows); }
      if !TextOrder.Less(now, sessions[digest].expires) { return Err(NoRows); }
      r := Ok(sessions[digest]);
    }

    method DeleteSession(token: string, fault: bool) returns (r: Result<()>)
      modifies this`sessions
      ensures Snapshot() == if r.Ok? then Deleted(old(Snapshot()), sha256(token)) else old(Snapshot())
      ensures r.Ok? <==> !fault
    {
      if fault { return Err(Fault); }
      sessions := sessions - {sha256(token)};
      r := Ok(());
    }

    /** `expires_at <= now` is deleted; what stays is exactly what `expires_at > now` finds. */
    method PurgeExpiredSessions(now: string, fault: bool) returns (r: Result<()>)
      modifies this`sessions
      ensures Snapshot() == if r.Ok? then Purged(old(Snapshot()), now) else old(Snapshot())
      ensures r.Ok? <==> !fault
    {
      if fault { return Err(Fault); }
      forall d | d in sessions
        ensures (sessions[d].expires == now || TextOrder.Less(sessions[d].expires, now)) <==> !TextOrder.Less(now,
            sessions[d].expires)
      {
        TextOrder.Trichotomy(now, sessions[d].expires);
      }
      sessions := map d | d in sessions && !(sessions[d].expires == now || TextOrder.Less(sessions[d].expires,
          now)) :: sessions[d];
      r := Ok(());
    }
  }
}
