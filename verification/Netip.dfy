/** IP prefixes as cmd/tsks-helper uses them: the text forms of sections 2.2 and 2.3 of RFC 4291 and
    section 4 of RFC 5952, masking, and the overlap test. */
module Netip {
  import opened Text

  /** An address: its family and its value. */
  datatype Addr = Addr(v6: bool, value: nat)

  datatype Prefix = Prefix(addr: Addr, bits: nat) {
    predicate Valid() {
      bits <= Width(addr.v6) && addr.value < Pow2(Width(addr.v6))
    }

    function Masked(): Prefix
      requires Valid()
    {
      Prefix(Addr(addr.v6, Mask(addr.value, Width(addr.v6) - bits)), bits)
    }
  }

  function Width(v6: bool): nat {
    if v6 then 128 else 32
  }

  function Pow2(n: nat): (p: nat)
    ensures p > 0
  {
    if n == 0 then 1 else 2 * Pow2(n - 1)
  }

  lemma Quotient(x: nat, d: nat)
    requires d > 0
    ensures x / d >= 0 && x == x / d * d + x % d && 0 <= x % d <= x && x % d < d
  {
  }

  /** Clear the low `host` bits. */
  function Mask(value: nat, host: nat): nat {
    Quotient(value, Pow2(host));
    value - value % Pow2(host)
  }

  // ---- Overlap -------------------------------------------------------------------

  /** The addresses a prefix stands for. */
  predicate Contains(p: Prefix, a: Addr)
    requires p.Valid()
  {
    a.v6 == p.addr.v6 && a.value < Pow2(Width(a.v6)) &&
    Mask(a.value, Width(a.v6) - p.bits) == Mask(p.addr.value, Width(a.v6) - p.bits)
  }

  /** Prefix.Overlaps: compare both addresses under the shorter length. */
  predicate Overlaps(p: Prefix, o: Prefix)
    requires p.Valid() && o.Valid()
  {
    if p == o then true
    else if p.addr.v6 != o.addr.v6 then false
    else
      var bits := if p.bits < o.bits then p.bits else o.bits;
      bits == 0 ||
      Mask(p.addr.value, Width(p.addr.v6) - bits) == Mask(o.addr.value, Width(p.addr.v6) - bits)
  }

  lemma {:induction false} Pow2Sum(a: nat, b: nat)
    ensures Pow2(a + b) == Pow2(a) * Pow2(b)
  {
    if a > 0 {
      Pow2Sum(a - 1, b);
    }
  }

  /** Two values agree under a mask exactly when they agree in the bits it leaves. */
  lemma MaskAgrees(x: nat, y: nat, host: nat)
    ensures Mask(x, host) == Mask(y, host) <==> x / Pow2(host) == y / Pow2(host)
    ensures Mask(x, host) <= x && Mask(x, host) / Pow2(host) == x / Pow2(host)
  {
    var d := Pow2(host);
    Quotient(x, d);
    Quotient(y, d);
    assert Mask(x, host) == x / d * d && Mask(y, host) == y / d * d;
    MulDiv(x / d, d);
    MulDiv(y / d, d);
  }

  /** A prefix stands for the addresses of its family whose first bits are those of its own; masking it gives
      the least of them, and the same prefix. */
  lemma ContainsExactly(p: Prefix, a: Addr)
    requires p.Valid()
    ensures var host := Width(p.addr.v6) - p.bits;
      Contains(p, a) <==> a.v6 == p.addr.v6 && a.value < Pow2(Width(a.v6)) && a.value / Pow2(host) == p.addr.value / Pow2(host)
    ensures Contains(p, p.Masked().addr) && p.Masked().bits == p.bits
    ensures Contains(p, a) ==> p.Masked().addr.value <= a.value
  {
    hide Mask;
    var host := Width(p.addr.v6) - p.bits;
    MaskAgrees(a.value, p.addr.value, host);
    MaskAgrees(Mask(p.addr.value, host), p.addr.value, host);
    MaskAgrees(p.addr.value, p.addr.value, host);
  }

  /** Clearing more bits after clearing fewer is clearing more. */
  lemma MaskMask(x: nat, fine: nat, coarse: nat)
    requires fine <= coarse
    ensures Mask(Mask(x, fine), coarse) == Mask(x, coarse)
  {
    Pow2Sum(coarse - fine, fine);
    var f, k := Pow2(fine), Pow2(coarse - fine);
    var y := Mask(x, fine);
    Quotient(x, f);
    MulDiv(x / f, f);
    DivDiv(x, f, k);
    DivDiv(y, f, k);
    Quotient(x, k * f);
    Quotient(y, k * f);
  }

  lemma MulDiv(q: nat, f: nat)
    requires f > 0
    ensures q * f / f == q
  {
    DivUnique(q * f, f, q, 0);
  }

  lemma DivUnique(x: nat, d: nat, q: nat, r: nat)
    requires d > 0 && r < d && x == q * d + r
    ensures x / d == q
  {
    var p := x / d;
    assert x == d * p + x % d;
    if p < q {
      Monotone(d, p + 1, q);
    } else if q < p {
      Monotone(d, q + 1, p);
    }
  }

  lemma DivDiv(x: nat, f: nat, k: nat)
    requires f > 0 && k > 0
    ensures k * f > 0 && x / (k * f) == x / f / k
  {
    var a := x / f;
    Quotient(x, f);
    Quotient(a, k);
    TwoSteps(x, f, k, a, x % f, a / k, a % k);
  }

  /** Dividing by f and then by k, with both quotients and remainders named. */
  lemma TwoSteps(x: nat, f: nat, k: nat, a: nat, e: nat, q: nat, m: nat)
    requires f > 0 && k > 0 && x == a * f + e && e < f && a == q * k + m && m < k
    ensures k * f > 0 && x / (k * f) == q
  {
    Distribute(q, k, m, f);
    Distribute(0, 0, 1, f);
    Monotone(f, m + 1, k);
    assert f * (m + 1) == m * f + f;
    DivUnique(x, k * f, q, m * f + e);
  }

  lemma Distribute(q: nat, k: nat, m: nat, f: nat)
    ensures (q * k + m) * f == q * (k * f) + m * f
  {
  }

  lemma MaskZero(x: nat, width: nat)
    requires x < Pow2(width)
    ensures Mask(x, width) == 0
  {
    hide Pow2;
    DivUnique(x, Pow2(width), 0, x);
    Quotient(x, Pow2(width));
  }

  lemma SharedByOverlap(p: Prefix, o: Prefix)
    requires p.Valid() && o.Valid() && Overlaps(p, o)
    ensures exists a :: Contains(p, a) && Contains(o, a)
  {
    hide Mask, Pow2;
    var w := Width(p.addr.v6);
    if p.bits == 0 || o.bits == 0 {
      MaskZero(o.addr.value, w);
      MaskZero(p.addr.value, w);
    }
    assert if p.bits <= o.bits then Contains(p, o.addr) && Contains(o, o.addr)
           else Contains(p, p.addr) && Contains(o, p.addr);
  }

  lemma OverlapByShared(p: Prefix, o: Prefix, a: Addr)
    requires p.Valid() && o.Valid() && Contains(p, a) && Contains(o, a)
    ensures Overlaps(p, o)
  {
    hide Mask, Pow2;
    var w := Width(p.addr.v6);
    var fine := w - if p.bits < o.bits then o.bits else p.bits;
    var coarse := w - if p.bits < o.bits then p.bits else o.bits;
    MaskMask(a.value, fine, coarse);
    MaskMask(p.addr.value, fine, coarse);
    MaskMask(o.addr.value, fine, coarse);
  }

  /** The masked-bits test decides whether the two address sets share an address. */
  lemma OverlapIsIntersection(p: Prefix, o: Prefix)
    requires p.Valid() && o.Valid()
    ensures Overlaps(p, o) <==> exists a :: Contains(p, a) && Contains(o, a)
  {
    hide Overlaps, Contains, Pow2;
    if Overlaps(p, o) {
      SharedByOverlap(p, o);
    }
    forall a | Contains(p, a) && Contains(o, a) ensures Overlaps(p, o) {
      OverlapByShared(p, o, a);
    }
  }
}
