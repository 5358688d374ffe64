/** Addresses as numbers: a prefix holds the addresses of an interval, and the IPv4-mapped addresses are the
    interval that section 2.5.5.2 of RFC 4291 names. */
module Intervals {
  import opened Addresses

  /** The number that the bits write, most significant first. */
  function Number(bits: seq<bool>): nat {
    if bits == [] then 0 else 2 * Number(bits[..|bits| - 1]) + (if bits[|bits| - 1] then 1 else 0)
  }

  function Power(n: nat): (p: nat)
    ensures p >= 1
  {
    if n == 0 then 1 else 2 * Power(n - 1)
  }

  lemma {:induction false} NumberBelow(bits: seq<bool>)
    ensures Number(bits) < Power(|bits|)
  {
    if bits != [] {
      NumberBelow(bits[..|bits| - 1]);
    }
  }

  lemma {:induction false} NumberUnique(a: seq<bool>, b: seq<bool>)
    requires |a| == |b|
    ensures Number(a) == Number(b) <==> a == b
  {
    if a != [] {
      var n := |a| - 1;
      NumberUnique(a[..n], b[..n]);
      assert a == a[..n] + [a[n]] && b == b[..n] + [b[n]];
    }
  }

  lemma Twice(a: nat, b: nat)
    ensures 2 * (a * b) == a * (2 * b)
  {
  }

  lemma {:induction false} NumberAppend(a: seq<bool>, b: seq<bool>)
    ensures Number(a + b) == Number(a) * Power(|b|) + Number(b)
  {
    if b == [] {
      assert a + b == a;
    } else {
      var n := |b| - 1;
      assert (a + b)[..|a + b| - 1] == a + b[..n] && (a + b)[|a + b| - 1] == b[n];
      NumberAppend(a, b[..n]);
      Twice(Number(a), Power(n));
    }
  }

  lemma {:induction false} NumberOfZeros(bits: seq<bool>)
    requires forall i :: 0 <= i < |bits| ==> !bits[i]
    ensures Number(bits) == 0
  {
    if bits != [] {
      NumberOfZeros(bits[..|bits| - 1]);
    }
  }

  /** Two numbers with `low` parts below `size` have the same high part exactly when the second lies in the
      interval that the first one's high part begins. */
  lemma SameHighPart(a: nat, b: nat, low: nat, size: nat)
    requires low < size
    ensures a == b <==> a * size <= b * size + low < a * size + size
  {
    if a < b {
      MulMonotone(a + 1, b, size);
    } else if b < a {
      MulMonotone(b + 1, a, size);
    }
  }

  lemma MulMonotone(a: nat, b: nat, size: nat)
    requires a <= b
    ensures a * size <= b * size
    ensures a >= 1 ==> a * size == (a - 1) * size + size
  {
    assert b * size == a * size + (b - a) * size;
    MulNat(b - a, size);
  }

  lemma MulNat(a: nat, b: nat)
    ensures a * b >= 0
  {
  }

  /** The texts of bits that begin with the given ones are an interval of numbers. */
  lemma SameBeginning(a: seq<bool>, b: seq<bool>, low: seq<bool>)
    requires |a| == |b|
    ensures a == b <==> Number(a) * Power(|low|) <= Number(b + low) < Number(a) * Power(|low|) + Power(|low|)
  {
    NumberUnique(a, b);
    NumberAppend(b, low);
    NumberBelow(low);
    SameHighPart(Number(a), Number(b), Number(low), Power(|low|));
  }

  lemma NumberOfMasked(bits: seq<bool>, n: nat)
    requires n <= |bits| && Mask(bits, n) == bits
    ensures Number(bits) == Number(bits[..n]) * Power(|bits| - n)
  {
    assert bits == bits[..n] + bits[n..];
    NumberAppend(bits[..n], bits[n..]);
    NumberOfZeros(bits[n..]);
  }

  /** A stored prefix holds the addresses of its family from its own address on, two to the power of the
      remaining bits of them, and no others. */
  lemma PrefixIsInterval(p: Prefix, a: Addr)
    requires Canonical(p) && Normal(a) && Width(a) == Width(p.addr)
    ensures Contains(p, a)
       <==> Number(p.addr.bits) <= Number(a.bits) < Number(p.addr.bits) + Power(Width(a) - p.length)
  {
    var n := p.length;
    assert a.bits == a.bits[..n] + a.bits[n..];
    assert Masked(p).addr.bits == p.addr.bits;
    NumberOfMasked(p.addr.bits, n);
    SameBeginning(p.addr.bits[..n], a.bits[..n], a.bits[n..]);
  }

  /** The families do not mix. */
  lemma FamiliesApart(p: Prefix, a: Addr)
    requires Canonical(p) && Normal(a) && Width(a) != Width(p.addr)
    ensures !Contains(p, a)
  {
  }

  lemma {:induction false} NumberOfOnes(bits: seq<bool>)
    requires forall i :: 0 <= i < |bits| ==> bits[i]
    ensures Number(bits) == Power(|bits|) - 1
  {
    if bits != [] {
      NumberOfOnes(bits[..|bits| - 1]);
    }
  }

  lemma Powers()
    ensures Power(16) == 0x1_0000 && Power(32) == 0x1_0000_0000
  {
    assert Power(8) == 0x100;
    assert Power(12) == 0x1000;
    assert Power(20) == 0x10_0000;
    assert Power(24) == 0x100_0000;
    assert Power(28) == 0x1000_0000;
  }

  lemma NumberOfHead()
    ensures Number(Head()) == 0xffff
  {
    var zeros, ones := seq(80, _ => false), seq(16, _ => true);
    NumberAppend(zeros, ones);
    NumberOfZeros(zeros);
    NumberOfOnes(ones);
    Powers();
  }

  /** ::ffff:0:0/96 */
  lemma MappedIsInterval(a: Addr)
    requires a.V6? && WellFormed(a)
    ensures Is4In6(a) <==> 0xffff_0000_0000 <= Number(a.bits) < 0x1_0000_0000_0000
    ensures Is4In6(a) ==> Number(Unmap(a).bits) == Number(a.bits) - 0xffff_0000_0000
  {
    var high, low := a.bits[..96], a.bits[96..];
    assert a.bits == high + low;
    NumberOfHead();
    Powers();
    NumberAppend(high, low);
    SameBeginning(Head(), high, low);
  }

  /** Normalizing drops the zone, and turns a mapped address into the IPv4 address it stands for; every other
      address stays what it is. */
  lemma NormalizeMeans(a: Addr)
    requires WellFormed(a) && !a.Zero?
    ensures var b := Normalize(a);
            if a.V6? && 0xffff_0000_0000 <= Number(a.bits) < 0x1_0000_0000_0000 then
              b.V4? && Number(b.bits) == Number(a.bits) - 0xffff_0000_0000
            else if a.V6? then b == V6(a.bits, "")
            else b == a
  {
    if a.V6? {
      MappedIsInterval(V6(a.bits, ""));
    }
  }
}
