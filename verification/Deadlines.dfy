/** What comparing times as texts means for session expiry, session purging and log cleanup:
    every decision is right up to less than one second. */
module Deadlines {
  import opened Wrappers
  import opened Calendar
  import opened DbTime
  import opened Schema
  import opened Transactions
  import Sessions
  import TextOrder

  // ---- Sessions ----

  /** A session of the present version is accepted as long as its expiry lies ahead, except that
      inside the second of the expiry the texts may be inverted. */
  lemma SessionExpiry(t: Sessions.Tables, digest: string, expires: nat, now: nat)
    requires expires < END && now < END
    requires digest in t.sessions && t.sessions[digest].version == t.settings.version
    requires t.sessions[digest].expires == Text(expires)
    ensures ParseText(t.sessions[digest].expires) == Some(expires)
    ensures (Sessions.Accepts(t, digest, Text(now)) <==> now < expires) <==> !Inverted(now, expires)
    ensures now + SECOND <= expires ==> Sessions.Accepts(t, digest, Text(now))
    ensures now >= expires + SECOND ==> !Sessions.Accepts(t, digest, Text(now))
  {
    RoundTrip(expires);
    TextOrderIsTimeOrderIff(now, expires);
  }

  /** Purging removes a session that expired a second ago and keeps one that is good for a second. */
  lemma PurgeOfSessions(t: Sessions.Tables, digest: string, expires: nat, now: nat)
    requires expires < END && now < END
    requires digest in t.sessions && t.sessions[digest].expires == Text(expires)
    ensures (digest in Sessions.Purged(t, Text(now)).sessions <==> now < expires) <==> !Inverted(now, expires)
    ensures now + SECOND <= expires ==> digest in Sessions.Purged(t, Text(now)).sessions
    ensures now >= expires + SECOND ==> digest !in Sessions.Purged(t, Text(now)).sessions
  {
    TextOrderIsTimeOrderIff(now, expires);
  }

  // ---- Retention ----

  const HOUR := 3600 * SECOND

  /** A signed 64-bit result. */
  function Wrap(x: int): int {
    (x + 0x8000_0000_0000_0000) % 0x1_0000_0000_0000_0000 - 0x8000_0000_0000_0000
  }

  /** `-time.Duration(days) * 24 * time.Hour`. */
  function Retention(days: int): int {
    Wrap(Wrap(Wrap(-days) * 24) * HOUR)
  }

  lemma WrapExactIff(x: int)
    ensures -0x8000_0000_0000_0000 <= Wrap(x) < 0x8000_0000_0000_0000
    ensures Wrap(x) == x <==> -0x8000_0000_0000_0000 <= x < 0x8000_0000_0000_0000
  {
  }

  /** The product stays within 64 bits exactly up to 106751 days; the settings form admits 36500. */
  lemma RetentionExactIff(days: int)
    requires 0 <= days < 0x8000_0000_0000_0000
    ensures Retention(days) == -days * 24 * HOUR <==> days <= 106_751
    ensures days <= 36_500 ==> Retention(days) == -days * 24 * HOUR
  {
    WrapExactIff(-days);
    WrapExactIff(-days * 24);
    WrapExactIff(Wrap(-days * 24) * HOUR);
  }

  lemma CleanupKeeps(db: Db, l: int, cutoff: string)
    requires l in db.logs
    ensures l in Apply(db, CleanupLogs(cutoff)).logs <==> !TextOrder.Less(db.logs[l].requestedAt, cutoff)
  {
  }

  /** Cleanup removes a log exactly when its time lies before the cutoff (the present time plus the
      negative retention), except for inverted texts inside the second of the cutoff. */
  lemma CleanupOfLogs(db: Db, l: int, at: nat, cutoff: nat)
    requires l in db.logs && at < END && cutoff < END && db.logs[l].requestedAt == Text(at)
    ensures (l in Apply(db, CleanupLogs(Text(cutoff))).logs <==> at >= cutoff) <==> !Inverted(at, cutoff)
    ensures at >= cutoff + SECOND ==> l in Apply(db, CleanupLogs(Text(cutoff))).logs
    ensures at + SECOND <= cutoff ==> l !in Apply(db, CleanupLogs(Text(cutoff))).logs
  {
    CleanupKeeps(db, l, Text(cutoff));
    TextOrderIsTimeOrderIff(at, cutoff);
  }
}
