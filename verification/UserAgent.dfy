/** Cutting a User-Agent header down to 1024 bytes without splitting a character. */
module UserAgent {
  import opened Wrappers

  // ---- Well-formed UTF-8 (section 4 of RFC 3629) ----

  predicate In(b: byte, lo: int, hi: int) { lo <= b <= hi }

  predicate Continues(b: byte) { In(b, 0x80, 0xBF) }

  /** The second byte is restricted after E0, ED, F0 and F4. */
  predicate SecondOk(first: byte, second: byte) {
    if first == 0xE0 then In(second, 0xA0, 0xBF)
    else if first == 0xED then In(second, 0x80, 0x9F)
    else if first == 0xF0 then In(second, 0x90, 0xBF)
    else if first == 0xF4 then In(second, 0x80, 0x8F)
    else Continues(second)
  }

  /** The length of the well-formed character at the start of the text; 0 when there is none. */
  function Leading(s: Bytes): (n: nat)
    ensures n <= 4 && n <= |s|
  {
    if s == [] then 0
    else if s[0] < 0x80 then 1
    else if In(s[0], 0xC2, 0xDF) && |s| >= 2 && SecondOk(s[0], s[1]) then 2
    else if In(s[0], 0xE0, 0xEF) && |s| >= 3 && SecondOk(s[0], s[1]) && Continues(s[2]) then 3
    else if In(s[0], 0xF0, 0xF4) && |s| >= 4 && SecondOk(s[0], s[1]) && Continues(s[2]) && Continues(s[3]) then 4
    else 0
  }

  /** utf8.ValidString. */
  predicate Valid(s: Bytes) {
    s == [] || (Leading(s) > 0 && Valid(s[Leading(s)..]))
  }

  // ---- The same, by encoding ----

  /** A Unicode scalar value: surrogates excluded. */
  predicate Scalar(c: int) { 0 <= c <= 0xD7FF || 0xE000 <= c <= 0x10FFFF }

  function Encode(c: int): (s: Bytes)
    requires Scalar(c)
    ensures 1 <= |s| <= 4
  {
    if c < 0x80 then [c]
    else if c < 0x800 then [0xC0 + c / 0x40, 0x80 + c % 0x40]
    else if c < 0x1_0000 then [0xE0 + c / 0x1000, 0x80 + c / 0x40 % 0x40, 0x80 + c % 0x40]
    else [0xF0 + c / 0x4_0000, 0x80 + c / 0x1000 % 0x40, 0x80 + c / 0x40 % 0x40, 0x80 + c % 0x40]
  }

  function EncodeAll(cs: seq<int>): Bytes
    requires forall i :: 0 <= i < |cs| ==> Scalar(cs[i])
  {
    if cs == [] then [] else Encode(cs[0]) + EncodeAll(cs[1..])
  }

  /** The payload of a byte. */
  function Bits(b: byte, mark: int): int { b - mark }

  /** The scalar value of the character at the start of the text. */
  function First(s: Bytes): int
    requires Leading(s) > 0
  {
    match Leading(s)
    case 1 => s[0]
    case 2 => Bits(s[0], 0xC0) * 0x40 + Bits(s[1], 0x80)
    case 3 => Bits(s[0], 0xE0) * 0x1000 + Bits(s[1], 0x80) * 0x40 + Bits(s[2], 0x80)
    case _ => Bits(s[0], 0xF0) * 0x4_0000 + Bits(s[1], 0x80) * 0x1000 + Bits(s[2], 0x80) * 0x40 + Bits(s[3], 0x80)
  }

  lemma EncodeLeads(c: int, rest: Bytes)
    requires Scalar(c)
    ensures Leading(Encode(c) + rest) == |Encode(c)|
  {
    var s := Encode(c) + rest;
    if c < 0x80 {
    } else if c < 0x800 {
    } else if c < 0x1_0000 {
      assert |s| >= 3 && SecondOk(s[0], s[1]);
    } else {
      assert |s| >= 4 && SecondOk(s[0], s[1]);
    }
  }

  lemma SixBitGroups(a: int, b: int, c: int, d: int, x: int)
    requires 0 <= a && 0 <= b < 0x40 && 0 <= c < 0x40 && 0 <= d < 0x40
    requires x == a * 0x4_0000 + b * 0x1000 + c * 0x40 + d
    ensures x / 0x4_0000 == a && x / 0x1000 % 0x40 == b && x / 0x40 % 0x40 == c && x % 0x40 == d
    ensures x / 0x1000 == a * 0x40 + b && x / 0x40 == a * 0x1000 + b * 0x40 + c
  {
    assert x / 0x40 == a * 0x1000 + b * 0x40 + c;
    assert x / 0x1000 == a * 0x40 + b;
  }

  lemma FirstEncodes(s: Bytes)
    requires Leading(s) > 0
    ensures Scalar(First(s)) && Encode(First(s)) == s[..Leading(s)]
  {
    if Leading(s) == 2 {
      SixBitGroups(0, 0, Bits(s[0], 0xC0), Bits(s[1], 0x80), First(s));
    } else if Leading(s) == 3 {
      SixBitGroups(0, Bits(s[0], 0xE0), Bits(s[1], 0x80), Bits(s[2], 0x80), First(s));
    } else if Leading(s) == 4 {
      SixBitGroups(Bits(s[0], 0xF0), Bits(s[1], 0x80), Bits(s[2], 0x80), Bits(s[3], 0x80), First(s));
    }
  }

  lemma {:induction false} EncodedIsValid(cs: seq<int>)
    requires forall i :: 0 <= i < |cs| ==> Scalar(cs[i])
    ensures Valid(EncodeAll(cs))
  {
    if cs != [] {
      EncodeLeads(cs[0], EncodeAll(cs[1..]));
      assert EncodeAll(cs)[|Encode(cs[0])|..] == EncodeAll(cs[1..]);
      EncodedIsValid(cs[1..]);
    }
  }

  lemma {:induction false} ValidIsEncoded(s: Bytes) returns (cs: seq<int>)
    requires Valid(s)
    ensures forall i :: 0 <= i < |cs| ==> Scalar(cs[i])
    ensures EncodeAll(cs) == s
  {
    if s == [] {
      cs := [];
    } else {
      var n := Leading(s);
      FirstEncodes(s);
      var rest := ValidIsEncoded(s[n..]);
      cs := [First(s)] + rest;
      assert cs[1..] == rest && s == s[..n] + s[n..];
    }
  }

  /** A text is well-formed exactly when it encodes some characters. */
  lemma ValidIffEncoded(s: Bytes)
    ensures Valid(s) <==> exists cs: seq<int> :: (forall i :: 0 <= i < |cs| ==> Scalar(cs[i])) && EncodeAll(cs) == s
  {
    if Valid(s) {
      var cs := ValidIsEncoded(s);
    }
    forall cs: seq<int> | (forall i :: 0 <= i < |cs| ==> Scalar(cs[i])) && EncodeAll(cs) == s ensures Valid(s) {
      EncodedIsValid(cs);
    }
  }

  // ---- Truncation ----

  const LIMIT := 1024

  /** The header as it is stored. */
  method Truncate(userAgent: Bytes) returns (r: Bytes)
    ensures |userAgent| <= LIMIT ==> r == userAgent
    ensures |userAgent| > LIMIT ==> |r| <= LIMIT && r == userAgent[..|r|] && Valid(r)
    ensures |userAgent| > LIMIT ==> forall k :: |r| < k <= LIMIT ==> !Valid(userAgent[..k])
    ensures Valid(userAgent) ==> Valid(r) && |r| >= (if |userAgent| > LIMIT then LIMIT - 3 else |userAgent|)
  {
    r := userAgent;
    if |r| > LIMIT {
      r := r[..LIMIT];
      while !Valid(r) && |r| > 0
        invariant |r| <= LIMIT && r == userAgent[..|r|]
        invariant forall k :: |r| < k <= LIMIT ==> !Valid(userAgent[..k])
        decreases |r|
      {
        r := r[..|r| - 1];
      }
      if Valid(userAgent) {
        var k := CharacterEndsNear(userAgent, LIMIT);
      }
    }
  }

  /** A well-formed text has a character boundary at most three bytes before any position. */
  lemma {:induction false} CharacterEndsNear(s: Bytes, n: nat) returns (k: nat)
    requires Valid(s) && n <= |s|
    ensures n - 3 <= k <= n && Valid(s[..k])
  {
    var m := Leading(s);
    if s == [] || m > n {
      k := 0;
    } else {
      k := CharacterEndsNear(s[m..], n - m);
      assert s[..m + k][m..] == s[m..][..k];
      assert Leading(s[..m + k]) == m;
      k := m + k;
    }
  }

  /** What is cut from a well-formed header is a tail of whole characters. */
  lemma {:induction false} PrefixIsWholeCharacters(cs: seq<int>, n: nat) returns (k: nat)
    requires (forall i :: 0 <= i < |cs| ==> Scalar(cs[i])) && n <= |EncodeAll(cs)| && Valid(EncodeAll(cs)[..n])
    ensures k <= |cs| && EncodeAll(cs)[..n] == EncodeAll(cs[..k])
  {
    if n == 0 {
      k := 0;
    } else {
      var first, rest := Encode(cs[0]), EncodeAll(cs[1..]);
      var s := EncodeAll(cs);
      assert s == first + rest;
      EncodeLeads(cs[0], rest);
      PrefixLeads(s, n);
      assert |first| <= n && s[..n] == first + rest[..n - |first|];
      assert s[..n][|first|..] == rest[..n - |first|];
      k := PrefixIsWholeCharacters(cs[1..], n - |first|);
      assert cs[..k + 1][0] == cs[0] && cs[..k + 1][1..] == cs[1..][..k];
      k := k + 1;
    }
  }

  lemma PrefixLeads(s: Bytes, n: nat)
    requires n <= |s| && Leading(s[..n]) > 0
    ensures Leading(s) == Leading(s[..n])
  {
  }
}
