/** IP addresses and prefixes as bits, and what a trusted-proxy entry stands for. */
module Addresses {
  import opened Wrappers

  /** `Zero` is the invalid address. */
  datatype Addr = Zero | V4(bits: seq<bool>) | V6(bits: seq<bool>, zone: string)

  function Width(a: Addr): nat {
    match a
    case Zero => 0
    case V4(_) => 32
    case V6(_, _) => 128
  }

  predicate WellFormed(a: Addr) {
    a.Zero? || |a.bits| == Width(a)
  }

  /** The first 96 bits of ::ffff:0:0/96 (section 2.5.5.2 of RFC 4291). */
  function Head(): (h: seq<bool>)
    ensures |h| == 96
  {
    seq(80, _ => false) + seq(16, _ => true)
  }

  predicate Is4In6(a: Addr) {
    a.V6? && |a.bits| == 128 && a.bits[..96] == Head()
  }

  /** The IPv4-mapped form of an IPv4 address. */
  function Mapped(a: Addr): Addr
    requires a.V4?
  {
    V6(Head() + a.bits, "")
  }

  function Unmap(a: Addr): Addr {
    if Is4In6(a) then V4(a.bits[96..]) else a
  }

  function WithoutZone(a: Addr): Addr {
    if a.V6? then V6(a.bits, "") else a
  }

  /** normalizeIPAddr */
  function Normalize(a: Addr): Addr {
    Unmap(WithoutZone(a))
  }

  predicate Normal(a: Addr) {
    WellFormed(a) && !a.Zero? && (a.V6? ==> a.zone == "" && !Is4In6(a))
  }

  /** Unmapping undoes mapping, and normalizing happens once. */
  lemma NormalizeOnce(a: Addr)
    requires WellFormed(a) && !a.Zero?
    ensures Normal(Normalize(a)) && Normalize(Normalize(a)) == Normalize(a)
    ensures a.V4? ==> Is4In6(Mapped(a)) && Normalize(Mapped(a)) == a
  {
    if a.V4? {
      assert (Head() + a.bits)[..96] == Head() && (Head() + a.bits)[96..] == a.bits;
    }
  }

  // ---- Prefixes ----

  datatype Prefix = Prefix(addr: Addr, length: nat)

  predicate ValidPrefix(p: Prefix) {
    WellFormed(p.addr) && !p.addr.Zero? && p.length <= Width(p.addr) && (p.addr.V6? ==> p.addr.zone == "")
  }

  function Mask(bits: seq<bool>, n: nat): (r: seq<bool>)
    requires n <= |bits|
    ensures |r| == |bits| && r[..n] == bits[..n] && forall i :: n <= i < |bits| ==> !r[i]
  {
    bits[..n] + seq(|bits| - n, _ => false)
  }

  function Masked(p: Prefix): Prefix
    requires ValidPrefix(p)
  {
    p.(addr := p.addr.(bits := Mask(p.addr.bits, p.length)))
  }

  /** Families never mix, and an address with a zone is in no prefix. */
  predicate Contains(p: Prefix, a: Addr) {
    && !p.addr.Zero? && !a.Zero? && Width(p.addr) == Width(a)
    && (a.V6? ==> a.zone == "")
    && p.length <= |a.bits| && p.length <= |p.addr.bits|
    && a.bits[..p.length] == p.addr.bits[..p.length]
  }

  /** What the resolver keeps: masked, never IPv4-mapped. */
  predicate Canonical(p: Prefix) {
    ValidPrefix(p) && Masked(p) == p && Normal(p.addr)
  }

  /** Masking changes no membership. */
  lemma MaskedContains(p: Prefix, a: Addr)
    requires ValidPrefix(p) && WellFormed(a)
    ensures Contains(Masked(p), a) <==> Contains(p, a)
  {
  }

  lemma MappedBefore(bits: seq<bool>, n: nat)
    requires |bits| == 128 && n <= 128 && Mask(bits, n)[..96] == Head()
    ensures bits[..96] == Head()
  {
    var m := Mask(bits, n);
    assert m[..96][95] == Head()[95];
    assert forall i :: 0 <= i < 96 ==> bits[i] == bits[..n][i] == m[..n][i] == m[i];
  }

  /** Masking makes no address IPv4-mapped that was not. */
  lemma MaskedStaysNormal(p: Prefix)
    requires ValidPrefix(p) && !Is4In6(p.addr)
    ensures Canonical(Masked(p))
  {
    var m := Masked(p);
    assert Masked(m) == m by {
      assert Mask(m.addr.bits, p.length) == m.addr.bits;
    }
    if m.addr.V6? && m.addr.bits[..96] == Head() {
      MappedBefore(p.addr.bits, p.length);
    }
  }

  /** A mapped prefix of length n >= 96 holds a mapped address exactly when the IPv4 prefix of
      length n - 96 holds the unmapped one. */
  lemma UnmappedContains(p: Prefix, a: Addr)
    requires ValidPrefix(p) && Is4In6(p.addr) && p.length >= 96
    requires a.V4? && WellFormed(a)
    ensures Contains(p, Mapped(a)) <==> Contains(Prefix(Unmap(p.addr), p.length - 96), a)
  {
    var x, y := Mapped(a).bits, p.addr.bits;
    assert x == Head() + a.bits && y == Head() + y[96..];
    assert x[..p.length] == Head() + a.bits[..p.length - 96];
    assert y[..p.length] == Head() + y[96..][..p.length - 96];
    if x[..p.length] == y[..p.length] {
      assert x[..p.length][96..] == a.bits[..p.length - 96];
      assert y[..p.length][96..] == y[96..][..p.length - 96];
    }
  }

  // ---- Entries ----

  /** An entry of the list as it was parsed: one address, or an address and a length. */
  datatype Entry = Single(addr: Addr) | Range(prefix: Prefix)

  /** What parsing an address or a prefix can yield. */
  predicate Parsed(e: Entry) {
    match e
    case Single(a) => WellFormed(a) && !a.Zero?
    case Range(p) => ValidPrefix(p)
  }

  /** A mapped prefix shorter than 96 bits covers more than IPv4 and is refused. */
  predicate Ambiguous(e: Entry) {
    e.Range? && Is4In6(e.prefix.addr) && e.prefix.length < 96
  }

  /** parseTrustedProxyPrefix, after the syntax. */
  function Stored(e: Entry): (r: Option<Prefix>)
    requires Parsed(e)
    ensures r.None? <==> Ambiguous(e)
  {
    match e
    case Single(a) => Some(Prefix(Normalize(a), Width(Normalize(a))))
    case Range(p) =>
      if Is4In6(p.addr) then
        if p.length < 96 then None
        else
          assert WellFormed(Unmap(p.addr));
          Some(Masked(Prefix(Unmap(p.addr), p.length - 96)))
      else Some(Masked(p))
  }

  /** What an entry stands for, without masking and unmapping: one address in any of its forms, or
      every address whose leading bits agree, taken in the mapped form if the entry is mapped. */
  predicate Names(e: Entry, a: Addr)
    requires Parsed(e) && Normal(a)
  {
    match e
    case Single(b) => Normalize(b) == a
    case Range(p) => if Is4In6(p.addr) then a.V4? && Contains(p, Mapped(a)) else Contains(p, a)
  }

  lemma StoredCanonical(e: Entry)
    requires Parsed(e) && !Ambiguous(e)
    ensures Canonical(Stored(e).value)
  {
    match e
    case Single(a) =>
      NormalizeOnce(a);
      var p := Stored(e).value;
      assert Mask(p.addr.bits, p.length) == p.addr.bits;
    case Range(p) =>
      if Is4In6(p.addr) {
        assert WellFormed(Unmap(p.addr));
        MaskedStaysNormal(Prefix(Unmap(p.addr), p.length - 96));
      } else {
        MaskedStaysNormal(p);
      }
  }

  /** The stored prefix holds exactly the addresses that the entry names. */
  lemma StoredKeepsMeaning(e: Entry, a: Addr)
    requires Parsed(e) && !Ambiguous(e) && Normal(a)
    ensures Contains(Stored(e).value, a) <==> Names(e, a)
  {
    match e
    case Single(b) =>
      NormalizeOnce(b);
      var n := Normalize(b);
      assert n.bits[..Width(n)] == n.bits && a.bits[..Width(a)] == a.bits;
    case Range(p) =>
      if Is4In6(p.addr) {
        assert WellFormed(Unmap(p.addr));
        MaskedContains(Prefix(Unmap(p.addr), p.length - 96), a);
        if a.V4? {
          UnmappedContains(p, a);
        }
      } else {
        MaskedContains(p, a);
      }
  }
}
