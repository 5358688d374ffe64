/** Times as the database keeps them: UTC texts in RFC 3339 form whose fraction of a second has
    its trailing zeros trimmed. SQLite compares these texts byte by byte. */
module DbTime {
  import opened Wrappers
  import opened Decimal
  import opened Calendar
  import TextOrder

  // ---- dbTime ----

  function Trim(s: string): (r: string)
    ensures |r| <= |s| && r == s[..|r|]
    ensures r != "" ==> r[|r| - 1] != '0'
    ensures forall i :: |r| <= i < |s| ==> s[i] == '0'
  {
    if s != "" && s[|s| - 1] == '0' then Trim(s[..|s| - 1]) else s
  }

  /** The digits of the fraction, without trailing zeros. */
  function Fraction(nanos: nat): string {
    Trim(Digits(nanos, 9))
  }

  /** The fraction and the zone; a whole second has no decimal point. */
  function Tail(fraction: string): string {
    (if fraction == "" then "" else "." + fraction) + "Z"
  }

  function FormatTime(c: Civil, rest: string): string {
    Digits(c.hour, 2) + (":" + (Digits(c.minute, 2) + (":" + (Digits(c.second, 2) + rest))))
  }

  function Format(c: Civil): string {
    var time := FormatTime(c, Tail(Fraction(c.nanos)));
    Digits(c.year, 4) + ("-" + (Digits(c.month, 2) + ("-" + (Digits(c.day, 2) + ("T" + time)))))
  }

  function Text(t: nat): string
    requires t < END
  {
    Format(ToCivil(t))
  }

  // ---- parseDBTime ----

  predicate AllDigits(s: string) { forall i :: 0 <= i < |s| ==> IsDigit(s[i]) }

  /** At most nine digits count. */
  function ReadFraction(s: string): nat
    requires AllDigits(s)
  {
    if |s| >= 9 then Value(s[..9]) else Value(s + seq(9 - |s|, _ => '0'))
  }

  /** The nanoseconds named by what follows the whole seconds. */
  function ParseTail(s: string): Option<nat> {
    if s == "Z" then Some(0)
    else if |s| >= 3 && s[0] == '.' && s[|s| - 1] == 'Z' && AllDigits(s[1..|s| - 1]) then
      Some(ReadFraction(s[1..|s| - 1]))
    else None
  }

  predicate Shaped(s: string) {
    && |s| >= 20
    && s[4] == '-' && s[7] == '-' && s[10] == 'T' && s[13] == ':' && s[16] == ':'
    && AllDigits(s[..4]) && AllDigits(s[5..7]) && AllDigits(s[8..10])
    && AllDigits(s[11..13]) && AllDigits(s[14..16]) && AllDigits(s[17..19])
    && ParseTail(s[19..]).Some?
  }

  /** A text in UTC; fields out of range are refused. */
  function Parse(s: string): Option<Civil> {
    if !Shaped(s) then None
    else
      var c := Civil(Value(s[..4]), Value(s[5..7]), Value(s[8..10]), Value(s[11..13]), Value(s[14..16]),
          Value(s[17..19]),
                     ParseTail(s[19..]).value);
      if Valid(c) then Some(c) else None
  }

  function ParseText(s: string): Option<nat> {
    match Parse(s)
    case Some(c) => Some(Instant(c))
    case None => None
  }

  // ---- Round trip ----

  lemma Powers()
    ensures Power(2) == 100 && Power(4) == 10_000 && Power(9) == 1_000_000_000
  {
    assert Power(3) == 1000;
    assert Power(6) == 1_000_000;
  }

  lemma FractionDigits(nanos: nat)
    requires nanos < SECOND
    ensures AllDigits(Fraction(nanos)) && |Fraction(nanos)| <= 9
    ensures ReadFraction(Fraction(nanos)) == nanos
  {
    Powers();
    var all := Digits(nanos, 9);
    var f := Fraction(nanos);
    assert f == all[..|f|];
    assert all == if |f| >= 9 then f[..9] else f + seq(9 - |f|, _ => '0');
    ValueOfDigits(nanos, 9);
  }

  lemma TailRoundTrip(nanos: nat)
    requires nanos < SECOND
    ensures ParseTail(Tail(Fraction(nanos))) == Some(nanos)
  {
    var f := Fraction(nanos);
    FractionDigits(nanos);
    if f == "" {
      ZeroDigits(9);
      ValueOfDigits(0, 9);
      Powers();
      assert f + seq(9, _ => '0') == Digits(0, 9);
    } else {
      var s := Tail(f);
      assert s[1..|s| - 1] == f;
    }
  }

  lemma {:induction false} ZeroDigits(width: nat)
    ensures Digits(0, width) == seq(width, _ => '0')
  {
    if width > 0 {
      ZeroDigits(width - 1);
    }
  }

  /** The fields of a formatted time stand at fixed positions. */
  lemma FormatLayout(c: Civil)
    ensures var s := Format(c);
            && |s| >= 20
            && s[..4] == Digits(c.year, 4) && s[4] == '-' && s[5..7] == Digits(c.month, 2) && s[7] == '-'
            && s[8..10] == Digits(c.day, 2) && s[10] == 'T' && s[11..] == FormatTime(c, Tail(Fraction(c.nanos)))
  {
  }

  lemma TimeLayout(c: Civil, rest: string)
    ensures var s := FormatTime(c, rest);
            && |s| == 8 + |rest|
            && s[..2] == Digits(c.hour, 2) && s[2] == ':' && s[3..5] == Digits(c.minute, 2) && s[5] == ':'
            && s[6..8] == Digits(c.second, 2) && s[8..] == rest
  {
  }

  lemma FormatSlices(c: Civil)
    requires c.nanos < SECOND
    ensures var s := Format(c);
            && Shaped(s) && s[19..] == Tail(Fraction(c.nanos))
            && s[..4] == Digits(c.year, 4) && s[5..7] == Digits(c.month, 2) && s[8..10] == Digits(c.day, 2)
            && s[11..13] == Digits(c.hour, 2) && s[14..16] == Digits(c.minute, 2) && s[17..19] == Digits(c.second, 2)
  {
    var s := Format(c);
    FormatLayout(c);
    TimeLayout(c, Tail(Fraction(c.nanos)));
    TailRoundTrip(c.nanos);
    TimeSlices(s);
  }

  /** Positions of the time within the whole text. */
  lemma TimeSlices(s: string)
    requires |s| >= 20
    ensures var t := s[11..];
            && s[11..13] == t[..2] && s[13] == t[2] && s[14..16] == t[3..5] && s[16] == t[5]
            && s[17..19] == t[6..8] && s[19..] == t[8..]
  {
  }

  lemma FieldValues(c: Civil)
    requires Valid(c)
    ensures Value(Digits(c.year, 4)) == c.year && Value(Digits(c.month, 2)) == c.month
    ensures Value(Digits(c.day, 2)) == c.day
    ensures Value(Digits(c.hour, 2)) == c.hour && Value(Digits(c.minute, 2)) == c.minute
    ensures Value(Digits(c.second, 2)) == c.second
  {
    Powers();
    assert MonthDays(c.year, c.month) <= 31;
    ValueOfDigits(c.year, 4);
    ValueOfDigits(c.month, 2);
    ValueOfDigits(c.day, 2);
    ValueOfDigits(c.hour, 2);
    ValueOfDigits(c.minute, 2);
    ValueOfDigits(c.second, 2);
  }

  /** Parsing what was formatted gives the civil time back, to the nanosecond. */
  lemma CivilRoundTrip(c: Civil)
    requires Valid(c)
    ensures Parse(Format(c)) == Some(c)
  {
    FormatSlices(c);
    FieldValues(c);
    TailRoundTrip(c.nanos);
  }

  /** parseDBTime(dbTime(t)) == t for every instant of the years 0 to 9999. */
  lemma RoundTrip(t: nat)
    requires t < END
    ensures ParseText(Text(t)) == Some(t)
  {
    CivilRoundTrip(ToCivil(t));
  }

  /** What the text of an instant looks like (section 5.6 of RFC 3339): the fields of its UTC time at fixed
      positions, and a fraction only if it is not zero, without trailing zeros. */
  lemma TextShows(t: nat)
    requires t < END
    ensures var s, c := Text(t), ToCivil(t);
            && |s| >= 20 && s[4] == '-' && s[7] == '-' && s[10] == 'T' && s[13] == ':' && s[16] == ':'
            && s[|s| - 1] == 'Z' && Shaped(s)
            && Value(s[..4]) == c.year && Value(s[5..7]) == c.month && Value(s[8..10]) == c.day
            && Value(s[11..13]) == c.hour && Value(s[14..16]) == c.minute && Value(s[17..19]) == c.second
            && (t % SECOND == 0 <==> |s| == 20)
            && (t % SECOND != 0 ==> s[19] == '.' && |s| <= 30 && s[|s| - 2] != '0')
  {
    var c := ToCivil(t);
    FormatSlices(c);
    FieldValues(c);
    FractionDigits(c.nanos);
    FractionEmptyIff(c.nanos);
    Parts(t);
    var s, tail := Text(t), Tail(Fraction(c.nanos));
    assert s[19..] == tail && s[|s| - 1] == tail[|tail| - 1];
    if c.nanos != 0 {
      assert s[19] == tail[0] && s[|s| - 2] == tail[|tail| - 2];
      assert tail[|tail| - 2] == Fraction(c.nanos)[|Fraction(c.nanos)| - 1];
    }
  }

  // ---- Text order and time order ----

  lemma TimeOrder(a: Civil, b: Civil, x: string, y: string)
    requires Valid(a) && Valid(b)
    ensures TextOrder.Less(FormatTime(a, x), FormatTime(b, y))
            <==> TimeBefore(a, b) || (SameTime(a, b) && TextOrder.Less(x, y))
  {
    Powers();
    var x1, y1 := Digits(a.second, 2) + x, Digits(b.second, 2) + y;
    var x2, y2 := Digits(a.minute, 2) + (":" + x1), Digits(b.minute, 2) + (":" + y1);
    FieldOrder(a.second, b.second, 2, x, y);
    TextOrder.CommonPrefix(":", x1, y1);
    FieldOrder(a.minute, b.minute, 2, ":" + x1, ":" + y1);
    TextOrder.CommonPrefix(":", x2, y2);
    FieldOrder(a.hour, b.hour, 2, ":" + x2, ":" + y2);
  }

  lemma FormatOrder(a: Civil, b: Civil)
    requires Valid(a) && Valid(b)
    ensures TextOrder.Less(Format(a), Format(b))
            <==> Seconds(a) < Seconds(b) || (Seconds(a) == Seconds(b) && TextOrder.Less(Tail(Fraction(a.nanos)),
                Tail(Fraction(b.nanos))))
  {
    Powers();
    assert MonthDays(a.year, a.month) <= 31 && MonthDays(b.year, b.month) <= 31;
    var x0, y0 := FormatTime(a, Tail(Fraction(a.nanos))), FormatTime(b, Tail(Fraction(b.nanos)));
    var x1, y1 := Digits(a.day, 2) + ("T" + x0), Digits(b.day, 2) + ("T" + y0);
    var x2, y2 := Digits(a.month, 2) + ("-" + x1), Digits(b.month, 2) + ("-" + y1);
    TimeOrder(a, b, Tail(Fraction(a.nanos)), Tail(Fraction(b.nanos)));
    TextOrder.CommonPrefix("T", x0, y0);
    FieldOrder(a.day, b.day, 2, "T" + x0, "T" + y0);
    TextOrder.CommonPrefix("-", x1, y1);
    FieldOrder(a.month, b.month, 2, "-" + x1, "-" + y1);
    TextOrder.CommonPrefix("-", x2, y2);
    FieldOrder(a.year, b.year, 4, "-" + x2, "-" + y2);
    CivilOrder(a, b);
  }

  // ---- Within one second ----

  predicate ProperPrefix(a: string, b: string) {
    |a| < |b| && a == b[..|a|]
  }

  /** The first position at which two different texts of one length differ. */
  lemma {:induction false} FirstDifference(a: string, b: string) returns (k: nat)
    requires |a| == |b| && a != b
    ensures k < |a| && a[..k] == b[..k] && a[k] != b[k]
  {
    if a[0] != b[0] {
      k := 0;
    } else {
      assert a == [a[0]] + a[1..] && b == [b[0]] + b[1..];
      k := FirstDifference(a[1..], b[1..]);
      assert a[..k + 1] == [a[0]] + a[1..][..k] && b[..k + 1] == [b[0]] + b[1..][..k];
      k := k + 1;
    }
  }

  lemma LessAt(a: string, b: string, k: nat)
    requires k < |a| && k < |b| && a[..k] == b[..k] && a[k] < b[k]
    ensures TextOrder.Less(a, b) && !TextOrder.Less(b, a)
  {
    assert a == a[..k] + a[k..] && b == b[..k] + b[k..];
    TextOrder.CommonPrefix(a[..k], a[k..], b[k..]);
    TextOrder.CommonPrefix(a[..k], b[k..], a[k..]);
  }

  lemma DigitsDiffer(m: nat, n: nat, width: nat) returns (k: nat)
    requires m < n && m < Power(width) && n < Power(width)
    ensures var a, b := Digits(m, width), Digits(n, width);
            k < width && a[..k] == b[..k] && a[k] < b[k]
  {
    var a, b := Digits(m, width), Digits(n, width);
    DigitsOrder(m, n, width);
    k := FirstDifference(a, b);
    if a[k] > b[k] {
      LessAt(b, a, k);
      assert false;
    }
  }

  predicate RightWayRound(f: string, g: string) {
    && (TextOrder.Less(Tail(f), Tail(g)) <==> !ProperPrefix(f, g))
    && (TextOrder.Less(Tail(g), Tail(f)) <==> ProperPrefix(f, g))
    && !ProperPrefix(g, f)
  }

  lemma TrimmedOrder(a: string, b: string, k: nat)
    requires |a| == |b| && k < |a| && a[..k] == b[..k] && a[k] < b[k] && AllDigits(a) && AllDigits(b)
    ensures RightWayRound(Trim(a), Trim(b))
  {
    var f, g := Trim(a), Trim(b);
    assert IsDigit(a[k]);
    assert |g| > k && g[..k] == b[..k] && g[k] == b[k];
    if |f| > k {
      assert f[..k] == a[..k] && f[k] == a[k];
      DifferentTails(f, g, k);
    } else {
      assert f == a[..|f|] == b[..|f|] == g[..|f|];
      PrefixTails(f, g);
    }
  }

  /** The fractions of two moments of one second, earlier first: the texts are in the right
      order exactly when the earlier fraction is not a proper prefix of the later one. */
  lemma TailOrder(m: nat, n: nat)
    requires m < n < SECOND
    ensures RightWayRound(Fraction(m), Fraction(n))
  {
    Powers();
    var k := DigitsDiffer(m, n, 9);
    TrimmedOrder(Digits(m, 9), Digits(n, 9), k);
  }

  lemma DifferentTails(f: string, g: string, k: nat)
    requires k < |f| && k < |g| && f[..k] == g[..k] && f[k] < g[k]
    ensures TextOrder.Less(Tail(f), Tail(g)) && !TextOrder.Less(Tail(g), Tail(f))
    ensures !ProperPrefix(f, g) && !ProperPrefix(g, f)
  {
    var x, y := Tail(f), Tail(g);
    assert x[..k + 1] == "." + f[..k] && y[..k + 1] == "." + g[..k];
    assert x[k + 1] == f[k] && y[k + 1] == g[k];
    LessAt(x, y, k + 1);
  }

  lemma PrefixTails(f: string, g: string)
    requires ProperPrefix(f, g) && AllDigits(g)
    ensures TextOrder.Less(Tail(g), Tail(f)) && !TextOrder.Less(Tail(f), Tail(g)) && !ProperPrefix(g, f)
  {
    var x, y := Tail(f), Tail(g);
    if f == "" {
      LessAt(y, x, 0);
    } else {
      assert x[..|f| + 1] == "." + f && y[..|f| + 1] == "." + f;
      assert x[|f| + 1] == 'Z' && y[|f| + 1] == g[|f|] && IsDigit(g[|f|]);
      LessAt(y, x, |f| + 1);
    }
  }

  /** Two instants whose texts compare the wrong way round. */
  predicate Inverted(t: nat, u: nat) {
    && t / SECOND == u / SECOND
    && (ProperPrefix(Fraction(t % SECOND), Fraction(u % SECOND)) || ProperPrefix(Fraction(u % SECOND),
        Fraction(t % SECOND)))
  }

  lemma Parts(t: nat)
    requires t < END
    ensures Seconds(ToCivil(t)) == t / SECOND && ToCivil(t).nanos == t % SECOND
  {
    var c := ToCivil(t);
    assert Seconds(c) * SECOND + c.nanos == t;
  }

  lemma SecondsThenTail(t: nat, u: nat)
    requires t < END && u < END
    ensures t / SECOND != u / SECOND ==> (TextOrder.Less(Text(t), Text(u)) <==> t / SECOND < u / SECOND)
    ensures t / SECOND == u / SECOND ==>
              (TextOrder.Less(Text(t), Text(u)) <==> TextOrder.Less(Tail(Fraction(t % SECOND)),
                  Tail(Fraction(u % SECOND))))
  {
    FormatOrder(ToCivil(t), ToCivil(u));
    Parts(t);
    Parts(u);
  }

  lemma TailsInOrderIff(m: nat, n: nat)
    requires m < SECOND && n < SECOND
    ensures (TextOrder.Less(Tail(Fraction(m)), Tail(Fraction(n))) <==> m < n)
            <==> !ProperPrefix(Fraction(m), Fraction(n)) && !ProperPrefix(Fraction(n), Fraction(m))
  {
    if m < n {
      TailOrder(m, n);
    } else if n < m {
      TailOrder(n, m);
    } else {
      TextOrder.Trichotomy(Tail(Fraction(m)), Tail(Fraction(n)));
    }
  }

  /** The texts of two instants compare as the instants do, exactly when the instants do not lie in
      one second with one trimmed fraction a proper prefix of the other. */
  lemma TextOrderIsTimeOrderIff(t: nat, u: nat)
    requires t < END && u < END
    ensures (TextOrder.Less(Text(t), Text(u)) <==> t < u) <==> !Inverted(t, u)
  {
    SecondsThenTail(t, u);
    TailsInOrderIff(t % SECOND, u % SECOND);
  }

  /** In different seconds the texts are always in order. */
  lemma DifferentSecondsInOrder(t: nat, u: nat)
    requires t < END && u < END && t / SECOND != u / SECOND
    ensures TextOrder.Less(Text(t), Text(u)) <==> t < u
  {
    TextOrderIsTimeOrderIff(t, u);
  }

  lemma {:induction false} TrimZeros(width: nat)
    ensures Trim(seq(width, _ => '0')) == ""
  {
    if width > 0 {
      assert seq(width, _ => '0')[..width - 1] == seq(width - 1, _ => '0');
      TrimZeros(width - 1);
    }
  }

  lemma FractionEmptyIff(n: nat)
    requires n < SECOND
    ensures Fraction(n) == "" <==> n == 0
  {
    ZeroDigits(9);
    TrimZeros(9);
    FractionDigits(n);
    FractionDigits(0);
  }

  lemma EmptyFractionLast(m: nat, n: nat)
    requires m < n < SECOND && Fraction(m) == ""
    ensures TextOrder.Less(Tail(Fraction(n)), Tail(Fraction(m)))
  {
    FractionEmptyIff(n);
    TailOrder(m, n);
  }

  lemma LaterWithinSecond(t: nat, u: nat)
    requires t < u && t % SECOND == 0 && u / SECOND == t / SECOND
    ensures t % SECOND < u % SECOND
  {
  }

  /** A full second comes after every other moment of that second in text order. */
  lemma FullSecondComesLast(t: nat, u: nat)
    requires t < u < END && t % SECOND == 0 && u / SECOND == t / SECOND
    ensures TextOrder.Less(Text(u), Text(t))
  {
    LaterWithinSecond(t, u);
    FractionEmptyIff(t % SECOND);
    EmptyFractionLast(t % SECOND, u % SECOND);
    SecondsThenTail(u, t);
  }
}
