/** Addresses as bit strings, most significant bit first; prefix masks; textual form. */
module Addresses {
  import opened Numbers
  import opened Text

  type Bits = seq<bool>
  type V4 = a: Bits | |a| == 32 witness Zeros(32)
  type V6 = a: Bits | |a| == 128 witness Zeros(128)

  function Zeros(n: nat): Bits {
    seq(n, _ => false)
  }

  function Ones(n: nat): Bits {
    seq(n, _ => true)
  }

  function And(a: Bits, b: Bits): Bits
    requires |a| == |b|
  {
    seq(|a|, i requires 0 <= i < |a| => a[i] && b[i])
  }

  function ShiftLeft(a: Bits, k: nat): Bits
    requires k <= |a|
  {
    a[k..] + Zeros(k)
  }

  // The address under the mask of its prefix length, which is capped at the width.
  function Masked(a: Bits, prefix: nat): Bits {
    var p := Min(prefix, |a|);
    var mask := if p == 0 then Zeros(|a|) else ShiftLeft(Ones(|a|), |a| - p);
    And(a, mask)
  }

  // Two addresses of one family have the same network exactly when their first bits agree.
  lemma MaskedEqual(a: Bits, b: Bits, prefix: nat)
    requires |a| == |b|
    ensures Masked(a, prefix) == Masked(b, prefix) <==> a[..Min(prefix, |a|)] == b[..Min(prefix, |a|)]
  {
    var p := Min(prefix, |a|);
    forall i | 0 <= i < |a|
      ensures Masked(a, prefix)[i] == (i < p && a[i]) && Masked(b, prefix)[i] == (i < p && b[i])
    {
    }
    if Masked(a, prefix) == Masked(b, prefix) {
      assert forall i :: 0 <= i < p ==> a[i] == Masked(a, prefix)[i] && b[i] == Masked(b, prefix)[i];
    } else {
      var i :| 0 <= i < |a| && Masked(a, prefix)[i] != Masked(b, prefix)[i];
      assert a[..p][i] != b[..p][i];
    }
  }

  function Number(a: Bits): nat {
    if a == [] then 0 else 2 * Number(a[..|a| - 1]) + if a[|a| - 1] then 1 else 0
  }

  lemma {:induction false} NumberInjective(a: Bits, b: Bits)
    requires |a| == |b| && Number(a) == Number(b)
    ensures a == b
  {
    if a != [] {
      NumberInjective(a[..|a| - 1], b[..|b| - 1]);
      assert a == a[..|a| - 1] + [a[|a| - 1]] && b == b[..|b| - 1] + [b[|b| - 1]];
    }
  }

  function Octet(a: V4, k: nat): string
    requires k < 4
  {
    Decimal(Number(a[8 * k..8 * k + 8]))
  }

  function Dotted(a: V4): string {
    Octet(a, 0) + ['.'] + (Octet(a, 1) + ['.'] + (Octet(a, 2) + ['.'] + Octet(a, 3)))
  }

  lemma OctetInjective(a: V4, b: V4, k: nat)
    requires k < 4 && Octet(a, k) == Octet(b, k)
    ensures a[8 * k..8 * k + 8] == b[8 * k..8 * k + 8]
  {
    DecimalInjective(Number(a[8 * k..8 * k + 8]), Number(b[8 * k..8 * k + 8]));
    NumberInjective(a[8 * k..8 * k + 8], b[8 * k..8 * k + 8]);
  }

  lemma DottedInjective(a: V4, b: V4)
    requires Dotted(a) == Dotted(b)
    ensures a == b
  {
    var a3, b3 := Octet(a, 3), Octet(b, 3);
    var a2, b2 := Octet(a, 2) + ['.'] + a3, Octet(b, 2) + ['.'] + b3;
    var a1, b1 := Octet(a, 1) + ['.'] + a2, Octet(b, 1) + ['.'] + b2;
    FirstSeparatorSplits(Octet(a, 0), Octet(b, 0), a1, b1, '.');
    FirstSeparatorSplits(Octet(a, 1), Octet(b, 1), a2, b2, '.');
    FirstSeparatorSplits(Octet(a, 2), Octet(b, 2), a3, b3, '.');
    forall k | 0 <= k < 4
      ensures a[8 * k..8 * k + 8] == b[8 * k..8 * k + 8]
    {
      OctetInjective(a, b, k);
    }
    FourOctets(a);
    FourOctets(b);
  }

  lemma FourOctets(a: V4)
    ensures a == a[8 * 0..8 * 0 + 8] + a[8 * 1..8 * 1 + 8] + a[8 * 2..8 * 2 + 8] + a[8 * 3..8 * 3 + 8]
  {
  }

  // 169.254.0.0/16
  predicate LinkLocalV4(a: V4) {
    Number(a[..8]) == 169 && Number(a[8..16]) == 254
  }

  // fe80::/10
  predicate LinkLocalV6(a: V6) {
    Number(a[..10]) == 0x3FA
  }
}
