/** Definitions shared by the protocol models. */
module Common {
  datatype Option<+T> = None | Some(value: T)

  /** A byte as its bits, the least significant first. */
  type byte = b: seq<bool> | |b| == 8 witness [false, false, false, false, false, false, false, false]

  const PAYLOAD_SIZE := 1461  // the room for payload in a packet, one byte of which is for a terminating zero

  function Min(a: int, b: int): int {
    if a <= b then a else b
  }

  /** The numbers 0, 1, ..., n-1 in order. */
  function Upto(n: nat): (s: seq<nat>)
    ensures |s| == n
    ensures forall k :: 0 <= k < n ==> s[k] == k
  {
    seq(n, k requires 0 <= k => k)
  }

  lemma MulAtLeast(m: nat, q: int)
    requires 1 <= q
    ensures m * q >= m
  {}

  /** Two numbers closer than m that agree modulo m are equal: a ring of m slots never confuses them. */
  lemma SameSlot(i: nat, j: nat, m: nat)
    requires 0 < m && i % m == j % m && i < j + m && j < i + m
    ensures i == j
  {
    var q := i / m - j / m;
    assert i - j == m * q;
    if q >= 1 {
      MulAtLeast(m, q);
    } else if q <= -1 {
      MulAtLeast(m, -q);
    }
  }

  lemma Uncons<T>(a: seq<T>, b: seq<T>)
    requires a != []
    ensures a + b == [a[0]] + (a[1..] + b)
  {}
}
