/** The internet checksum (userspace/src/bin/network_service.rs, `compute_checksum`; section 1 of RFC 1071). */
module Checksum {
  import opened Basics

  const U32: nat := 0x1_0000_0000

  function Word(data: seq<Byte>, i: nat): (w: nat)
    requires i < |data|
    ensures w <= 65535
  {
    data[i] as int * 256 + if i + 1 < |data| then data[i + 1] else 0
  }

  /** The plain sum of the big-endian words from byte `i` on, an odd last byte being padded with zero. */
  function WordSum(data: seq<Byte>, i: nat): nat
    decreases if i < |data| then |data| - i else 0
  {
    if i >= |data| then 0 else Word(data, i) + WordSum(data, i + 2)
  }

  /** Folding the carries back in until the value fits sixteen bits. */
  function Fold(s: nat): nat {
    if s < 65536 then s else Fold(s % 65536 + s / 65536)
  }

  /** The loop on a 32-bit accumulator, with its wrap-around. */
  /** The wrapping sum of the words. */
  method SumWords(data: seq<Byte>) returns (sum: nat)
    ensures sum == WordSum(data, 0) % U32
  {
    var i: nat := 0;
    sum := 0;
    while i < |data|
      invariant sum < U32 && (sum + WordSum(data, i)) % U32 == WordSum(data, 0) % U32
    {
      var word: nat := if i + 1 < |data| then data[i] as int * 256 + data[i + 1] else data[i] as int * 256;
      assert sum + WordSum(data, i) == (sum + word) + WordSum(data, i + 2);
      WrapAdd(sum + word, WordSum(data, i + 2));
      sum := (sum + word) % U32;
      i := i + 2;
    }
  }

  /** The carries added in until sixteen bits are left. */
  method FoldCarries(total: nat) returns (sum: nat)
    ensures sum == Fold(total) && sum < 65536
  {
    sum := total;
    while sum / 65536 != 0
      invariant Fold(sum) == Fold(total)
      decreases sum
    {
      sum := sum % 65536 + sum / 65536;
    }
  }

  method ComputeChecksum(data: seq<Byte>) returns (c: nat)
    ensures c == 65535 - Fold(WordSum(data, 0) % U32) && c < 65536
  {
    var sum := SumWords(data);
    sum := FoldCarries(sum);
    c := 65535 - sum;
  }

  lemma WrapAdd(a: nat, b: nat)
    ensures (a % U32 + b) % U32 == (a + b) % U32
  {
  }

  /** The representative of `s` modulo 65535 that is zero only for zero. */
  function Canon(s: nat): nat {
    if s == 0 then 0 else 1 + (s - 1) % 65535
  }

  lemma {:induction false} FoldIsCanon(s: nat)
    ensures Fold(s) == Canon(s)
    decreases s
  {
    if s >= 65536 {
      var t := s % 65536 + s / 65536;
      FoldIsCanon(t);
      assert s == t + (s / 65536) * 65535;
      AddMultiple(t - 1, s / 65536, 65535);
    }
  }

  lemma FoldBound(s: nat)
    ensures Fold(s) < 65536
  {
  }

  // ---- the reference: one's-complement addition with end-around carry ----

  function OnesAdd(a: nat, b: nat): nat
    requires a <= 65535 && b <= 65535
  {
    (a + b) % 65536 + (a + b) / 65536
  }

  function OnesSum(data: seq<Byte>, i: nat): (r: nat)
    ensures r <= 65535
    decreases if i < |data| then |data| - i else 0
  {
    if i >= |data| then 0 else OnesAdd(Word(data, i), OnesSum(data, i + 2))
  }

  lemma OnesAddCanon(a: nat, s: nat)
    requires a <= 65535 && Canon(s) <= 65535
    ensures OnesAdd(a, Canon(s)) == Canon(a + s)
  {
  }

  lemma {:induction false} OnesSumIsCanon(data: seq<Byte>, i: nat)
    ensures OnesSum(data, i) == Canon(WordSum(data, i))
    decreases if i < |data| then |data| - i else 0
  {
    if i < |data| {
      OnesSumIsCanon(data, i + 2);
      OnesAddCanon(Word(data, i), WordSum(data, i + 2));
    }
  }

  lemma {:induction false} WordSumBound(data: seq<Byte>, i: nat)
    ensures i < |data| ==> WordSum(data, i) <= 65535 * ((|data| - i + 1) / 2)
    decreases if i < |data| then |data| - i else 0
  {
    if i < |data| {
      WordSumBound(data, i + 2);
    }
  }

  /** Up to 131074 bytes the accumulator never wraps and the result is the complement of the one's-complement sum. */
  lemma ChecksumIsOnesComplement(data: seq<Byte>)
    requires |data| <= 131074
    ensures WordSum(data, 0) < U32
    ensures 65535 - Fold(WordSum(data, 0) % U32) == 65535 - OnesSum(data, 0)
  {
    var s := WordSum(data, 0);
    WordSumBound(data, 0);
    assert s < U32 && s % U32 == s;
    FoldIsCanon(s);
    OnesSumIsCanon(data, 0);
  }

  /** For data of any length the result is right if and only if the number of lost carries out of the
      accumulator is a multiple of 65535 and the accumulator did not come out as zero by wrapping. */
  lemma ChecksumExact(data: seq<Byte>)
    ensures var s := WordSum(data, 0);
            Fold(s % U32) == OnesSum(data, 0) <==> s / U32 % 65535 == 0 && (s % U32 != 0 || s == 0)
  {
    var s := WordSum(data, 0);
    FoldIsCanon(s % U32);
    OnesSumIsCanon(data, 0);
    LostCarries(s);
  }

  /** Each lost carry out of 32 bits weighs 2^32, which is 1 modulo 65535. */
  lemma LostCarries(s: nat)
    ensures Canon(s % U32) == Canon(s) <==> s / U32 % 65535 == 0 && (s % U32 != 0 || s == 0)
  {
    var low, lost := s % U32, s / U32;
    assert U32 == 65535 * 65537 + 1;
    assert s == low + lost + (lost * 65537) * 65535;
    if low > 0 {
      AddMultiple(low - 1 + lost, lost * 65537, 65535);
      SameResidue(low - 1, lost);
    }
  }

  lemma SameResidue(x: nat, d: nat)
    ensures (x + d) % 65535 == x % 65535 <==> d % 65535 == 0
  {
    var q := d / 65535;
    AddMultiple(x + d % 65535, q, 65535);
    assert x + d == x + d % 65535 + q * 65535;
  }

  lemma {:induction false} AllOnesSum(data: seq<Byte>, i: nat)
    requires |data| % 2 == 0 && i % 2 == 0 && i <= |data| && forall j :: 0 <= j < |data| ==> data[j] == 255
    ensures WordSum(data, i) == 65535 * ((|data| - i) / 2)
    decreases |data| - i
  {
    if i < |data| {
      AllOnesSum(data, i + 2);
    }
  }

  /** The bound is sharp: two bytes more, all ones, and the result is wrong. */
  lemma LongerDataIsMissummed()
    ensures exists data: seq<Byte> :: |data| == 131076 && Fold(WordSum(data, 0) % U32) != OnesSum(data, 0)
  {
    var data: seq<Byte> := seq(131076, _ => 255);
    AllOnesSum(data, 0);
    assert WordSum(data, 0) == 4295032830 && WordSum(data, 0) / U32 % 65535 == 1;
    ChecksumExact(data);
  }

  /** The two bytes at an even offset replaced by a sixteen-bit value. */
  function Stored(data: seq<Byte>, at: nat, c: nat): (r: seq<Byte>)
    requires at + 1 < |data| && c < 65536
    ensures |r| == |data|
  {
    data[at := c / 256][at + 1 := c % 256]
  }

  lemma {:induction false} StoredSum(data: seq<Byte>, at: nat, c: nat, i: nat)
    requires at + 1 < |data| && at % 2 == 0 && i % 2 == 0 && c < 65536 && data[at] == 0 && data[at + 1] == 0
    ensures WordSum(Stored(data, at, c), i) == WordSum(data, i) + if i <= at then c else 0
    decreases if i < |data| then |data| - i else 0
  {
    if i < |data| {
      StoredSum(data, at, c, i + 2);
    }
  }

  lemma CanonComplement(s: nat)
    ensures Canon(s + (65535 - Canon(s))) == 65535
  {
    if s > 0 {
      var q := (s - 1) / 65535;
      assert s + (65535 - Canon(s)) - 1 == 65534 + q * 65535;
      AddMultiple(65534, q, 65535);
    }
  }

  /** A checksum stored into its zeroed field makes the whole verify to zero. */
  lemma StoredChecksumVerifies(data: seq<Byte>, at: nat)
    requires at + 1 < |data| && at % 2 == 0 && data[at] == 0 && data[at + 1] == 0
    ensures var c := 65535 - OnesSum(data, 0);
            65535 - OnesSum(Stored(data, at, c), 0) == 0
  {
    var s, c := WordSum(data, 0), 65535 - OnesSum(data, 0);
    StoredSum(data, at, c, 0);
    OnesSumIsCanon(data, 0);
    OnesSumIsCanon(Stored(data, at, c), 0);
    CanonComplement(s);
  }
}
