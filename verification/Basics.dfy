/** Small shared vocabulary: options, bytes, messages, sequences without repetition and remainders. */
module Basics {

  datatype Option<+T> = None | Some(value: T)

  type Byte = b: int | 0 <= b < 256

  /** The number of values of a machine word. */
  const WORD: nat := 0x1_0000_0000_0000_0000

  /** Where physical addresses end. */
  const PHYS_END: nat := 0x10_0000_0000_0000

  /** Page numbers to frame numbers. */
  type PageTable = map<nat, nat>

  /** What one thread sends to another: six registers. */
  datatype Message = Message(rdi: nat, rsi: nat, rdx: nat, r10: nat, r8: nat, r9: nat)

  const ZERO_MESSAGE := Message(0, 0, 0, 0, 0, 0)

  /** No element occurs at two positions. */
  predicate Distinct<T(==)>(s: seq<T>) {
    forall i, j :: 0 <= i < j < |s| ==> s[i] != s[j]
  }

  /** The first components of a sequence of pairs. */
  function Firsts<A, B>(s: seq<(A, B)>): (r: seq<A>)
    ensures |r| == |s|
    ensures forall i :: 0 <= i < |s| ==> r[i] == s[i].0
  {
    seq(|s|, i requires 0 <= i < |s| => s[i].0)
  }

  /** The second components of a sequence of pairs. */
  function Seconds<A, B>(s: seq<(A, B)>): (r: seq<B>)
    ensures |r| == |s|
    ensures forall i :: 0 <= i < |s| ==> r[i] == s[i].1
  {
    seq(|s|, i requires 0 <= i < |s| => s[i].1)
  }

  // ---- remainders ----

  lemma SmallMultiple(k: int, n: int)
    requires -n < k * n < n
    ensures k == 0
  {
  }

  /** The remainder is determined by any division with a remainder. */
  lemma ModUnique(a: nat, n: nat, q: nat, r: nat)
    requires r < n && a == q * n + r
    ensures a % n == r
  {
    var q', r' := a / n, a % n;
    assert a == q' * n + r';
    assert (q - q') * n == r' - r;
    assert q == q' by { SmallMultiple(q - q', n); }
  }

  lemma AddMultiple(x: nat, q: nat, n: nat)
    requires n > 0
    ensures (x + q * n) % n == x % n
  {
    assert x == (x / n) * n + x % n;
    assert x + q * n == (x / n + q) * n + x % n;
    ModUnique(x + q * n, n, x / n + q, x % n);
  }
}
