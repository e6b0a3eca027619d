/** Unsigned 32-bit words as their bits, the least significant first, and the numbers they stand for. */
module Words {
  import opened Common

  type word = w: seq<bool> | |w| == 32 witness seq(32, _ => false)

  function Nibble(d: nat): (b: seq<bool>)
    requires d < 16
    ensures |b| == 4
  {
    [d % 2 == 1, d / 2 % 2 == 1, d / 4 % 2 == 1, d / 8 % 2 == 1]
  }

  function Nibbles(d0: nat, d1: nat, d2: nat, d3: nat, rest: seq<bool>): (b: seq<bool>)
    requires d0 < 16 && d1 < 16 && d2 < 16 && d3 < 16
    ensures |b| == 16 + |rest|
  {
    Nibble(d0) + (Nibble(d1) + (Nibble(d2) + (Nibble(d3) + rest)))
  }

  /** The word with these hexadecimal digits, the least significant first. */
  function Hex(d0: nat, d1: nat, d2: nat, d3: nat, d4: nat, d5: nat, d6: nat, d7: nat): word
    requires d0 < 16 && d1 < 16 && d2 < 16 && d3 < 16 && d4 < 16 && d5 < 16 && d6 < 16 && d7 < 16
  {
    Nibbles(d0, d1, d2, d3, Nibbles(d4, d5, d6, d7, []))
  }

  function Repeated(b: bool): word {
    seq(32, i requires 0 <= i => b)
  }

  const ZERO: word := Repeated(false)
  const ONES: word := Repeated(true)

  function Xor(a: word, b: word): word {
    seq(32, i requires 0 <= i < 32 => a[i] != b[i])
  }

  function Not(a: word): word {
    seq(32, i requires 0 <= i < 32 => !a[i])
  }

  /** r >> k */
  function Down(r: word, k: nat): word
    requires k <= 32
  {
    r[k..] + ZERO[..k]
  }

  /** The bits, as the low bits of a word. */
  function Pad(bits: seq<bool>): word
    requires |bits| <= 32
  {
    bits + ZERO[|bits|..]
  }

  // ---------- Numbers ----------

  /** The lowest `k` bits of a number. */
  function Low(i: nat, k: nat): (bits: seq<bool>)
    ensures |bits| == k
    decreases k
  {
    if k == 0 then [] else [i % 2 == 1] + Low(i / 2, k - 1)
  }

  function Number(bits: seq<bool>): nat {
    if bits == [] then 0 else (if bits[0] then 1 else 0) + 2 * Number(bits[1..])
  }

  function Pow2(k: nat): nat {
    if k == 0 then 1 else 2 * Pow2(k - 1)
  }

  lemma {:induction false} LowOfNumber(bits: seq<bool>)
    ensures Low(Number(bits), |bits|) == bits && Number(bits) < Pow2(|bits|)
  {
    if bits != [] {
      LowOfNumber(bits[1..]);
    }
  }

  lemma {:induction false} NumberOfLow(i: nat, k: nat)
    requires i < Pow2(k)
    ensures Number(Low(i, k)) == i
    decreases k
  {
    if k > 0 {
      NumberOfLow(i / 2, k - 1);
    }
  }

  lemma NumberOfNibble(d: nat, rest: seq<bool>)
    requires d < 16
    ensures Number(Nibble(d) + rest) == d + 16 * Number(rest)
  {
    var b := Nibble(d) + rest;
    assert b[1..][1..][1..][1..] == rest;
    assert Number(b[1..][1..]) == (if b[2] then 1 else 0) + 2 * ((if b[3] then 1 else 0) + 2 * Number(rest));
  }

  /** Hex means what its digits say. */
  lemma NumberOfHex(d0: nat, d1: nat, d2: nat, d3: nat, d4: nat, d5: nat, d6: nat, d7: nat)
    requires d0 < 16 && d1 < 16 && d2 < 16 && d3 < 16 && d4 < 16 && d5 < 16 && d6 < 16 && d7 < 16
    ensures Number(Hex(d0, d1, d2, d3, d4, d5, d6, d7)) ==
            d0 + 16 * (d1 + 16 * (d2 + 16 * (d3 + 16 * (d4 + 16 * (d5 + 16 * (d6 + 16 * d7))))))
  {
    NumberOfNibbles(d4, d5, d6, d7, []);
    NumberOfNibbles(d0, d1, d2, d3, Nibbles(d4, d5, d6, d7, []));
  }

  lemma NumberOfNibbles(d0: nat, d1: nat, d2: nat, d3: nat, rest: seq<bool>)
    requires d0 < 16 && d1 < 16 && d2 < 16 && d3 < 16
    ensures Number(Nibbles(d0, d1, d2, d3, rest)) == d0 + 16 * (d1 + 16 * (d2 + 16 * (d3 + 16 * Number(rest))))
  {
    var n3 := Nibble(d3) + rest;
    var n2 := Nibble(d2) + n3;
    var n1 := Nibble(d1) + n2;
    NumberOfNibble(d3, rest);
    NumberOfNibble(d2, n3);
    NumberOfNibble(d1, n2);
    NumberOfNibble(d0, n1);
  }

  // ---------- Order ----------

  /** The bits split at `k`: the upper part weighs 2^k times as much. */
  lemma {:induction false} NumberSplit(bits: seq<bool>, k: nat)
    requires k <= |bits|
    ensures Number(bits) == Number(bits[..k]) + Pow2(k) * Number(bits[k..])
  {
    if k == 0 {
      assert bits[0..] == bits;
    } else {
      NumberSplit(bits[1..], k - 1);
      assert bits[1..][..k - 1] == bits[..k][1..] && bits[1..][k - 1..] == bits[k..];
      Double(Pow2(k - 1), Number(bits[k..]));
    }
  }

  lemma Double(p: nat, x: nat)
    ensures 2 * (p * x) == (2 * p) * x
  {}

  lemma NumberInjective(a: seq<bool>, b: seq<bool>)
    requires |a| == |b| && Number(a) == Number(b)
    ensures a == b
  {
    LowOfNumber(a);
    LowOfNumber(b);
  }

  lemma Weigh(p: nat, x: nat, y: nat, a: nat, b: nat)
    requires a < p && x < y
    ensures a + p * x < b + p * y
  {
    MulAtLeast(p, y - x);
    assert p * y == p * x + p * (y - x);
  }

  /** Two words are ordered by their upper parts first. */
  lemma UpperFirst(a: seq<bool>, b: seq<bool>, k: nat)
    requires |a| == |b| && k <= |a| && Number(a[k..]) < Number(b[k..])
    ensures Number(a) < Number(b)
  {
    NumberSplit(a, k);
    NumberSplit(b, k);
    LowOfNumber(a[..k]);
    Weigh(Pow2(k), Number(a[k..]), Number(b[k..]), Number(a[..k]), Number(b[..k]));
  }

  /** With equal upper parts the lower parts decide. */
  lemma LowerNext(a: seq<bool>, b: seq<bool>, k: nat)
    requires |a| == |b| && k <= |a| && a[k..] == b[k..] && Number(a[..k]) <= Number(b[..k])
    ensures Number(a) <= Number(b)
  {
    NumberSplit(a, k);
    NumberSplit(b, k);
  }
}
