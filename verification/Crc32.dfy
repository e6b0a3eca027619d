/** The checksum of lab 2's packets: the table-driven loop as written, the standard CRC-32, and what two messages with
    equal checksums must have in common. */
module Crc32 {
  import opened Common
  import opened Words

  const POLY: word := Hex(0x0, 0x2, 0x3, 0x8, 0x8, 0xB, 0xD, 0xE)  // 0xEDB88320

  // ---------- Repetition ----------

  function Iterate<T>(f: T -> T, k: nat, x: T): T {
    if k == 0 then x else Iterate(f, k - 1, f(x))
  }

  function Fold<T, E>(f: (T, E) -> T, x: T, data: seq<E>): T
    decreases |data|
  {
    if data == [] then x else Fold(f, f(x, data[0]), data[1..])
  }

  /** If `f` on the images under `m` does what `g` does, step by step, it does so in `k` steps. */
  lemma {:induction false} IterateMirrors<T(!new)>(f: T -> T, g: T -> T, m: (T, nat) -> T, j: nat, k: nat, x: T)
    requires forall y: T, i: nat {:trigger f(m(y, i))} :: j <= i < j + k ==> f(m(y, i)) == m(g(y), i + 1)
    ensures Iterate(f, k, m(x, j)) == m(Iterate(g, k, x), j + k)
    decreases k
  {
    if k > 0 {
      IterateMirrors(f, g, m, j + 1, k - 1, g(x));
    }
  }

  lemma {:induction false} FoldMirrors<T(!new), E(!new)>(f: (T, E) -> T, g: (T, E) -> T, m: T -> T, x: T, data: seq<E>)
    requires forall y: T, e: E :: f(m(y), e) == m(g(y, e))
    ensures Fold(f, m(x), data) == m(Fold(g, x, data))
    decreases |data|
  {
    if data != [] {
      FoldMirrors(f, g, m, g(x, data[0]), data[1..]);
    }
  }

  lemma {:induction false} FoldConcat<T, E>(f: (T, E) -> T, x: T, a: seq<E>, b: seq<E>)
    ensures Fold(f, x, a + b) == Fold(f, Fold(f, x, a), b)
    decreases |a|
  {
    var ab := a + b;
    if a == [] {
      assert ab == b;
    } else {
      assert ab[0] == a[0] && ab[1..] == a[1..] + b;
      FoldConcat(f, f(x, a[0]), a[1..], b);
    }
  }

  // ---------- The standard, section 8 of RFC 1952 ----------

  /** One bit of the division. */
  function Shift(r: word): word {
    if r[0] then Xor(POLY, Down(r, 1)) else Down(r, 1)
  }

  function StandardByte(r: word, b: byte): word {
    Iterate(Shift, 8, Xor(r, Pad(b)))
  }

  function Standard(data: seq<byte>): word {
    Not(Fold(StandardByte, ONES, data))
  }

  // ---------- The program ----------

  /** One iteration of the loop in crc32_for_byte: the test of the bit is inverted. */
  function Twist(r: word): word {
    Xor(if r[0] then ZERO else POLY, Down(r, 1))
  }

  const FIXUP: word := Hex(0x0, 0x0, 0x0, 0x0, 0x0, 0x0, 0xF, 0xF)  // 0xFF000000

  /** crc32_for_byte */
  function ForByte(r: word): word {
    Xor(Iterate(Twist, 8, r), FIXUP)
  }

  /** (uint8_t)crc ^ b */
  function Index(crc: word, b: byte): byte {
    seq(8, i requires 0 <= i < 8 => crc[i] != b[i])
  }

  /** One iteration of the loop over the data, with the table entry computed. */
  function StepByte(crc: word, b: byte): word {
    Xor(ForByte(Pad(Index(crc, b))), Down(crc, 8))
  }

  /** compute_checksum */
  function Checksum(data: seq<byte>): word {
    Fold(StepByte, ZERO, data)
  }

  /** Both constants are those of the code, the polynomial also that of the standard. */
  lemma Constants()
    ensures Number(POLY) == 0xEDB88320 && Number(FIXUP) == 0xFF000000
  {
    NumberOfHex(0x0, 0x2, 0x3, 0x8, 0x8, 0xB, 0xD, 0xE);
    NumberOfHex(0x0, 0x0, 0x0, 0x0, 0x0, 0x0, 0xF, 0xF);
  }

  // ---------- The program mirrors the standard ----------

  /** The complement of `x`, but for the top `j` bits. */
  function Mirror(x: word, j: nat): word {
    seq(32, i requires 0 <= i < 32 => if i + j < 32 then !x[i] else x[i])
  }

  lemma TwistMirrors(x: word, j: nat)
    requires j < 8
    ensures Twist(Mirror(x, j)) == Mirror(Shift(x), j + 1)
  {}

  /** A table entry at the complemented index is the complement of eight standard shifts: the fix-up inverts the top
      byte, which the inverted tests have left uncomplemented. */
  lemma ForByteMirrors(r: word)
    ensures ForByte(Not(r)) == Not(Iterate(Shift, 8, r))
  {
    forall x: word, j: nat | j < 8
      ensures Twist(Mirror(x, j)) == Mirror(Shift(x), j + 1)
    {
      TwistMirrors(x, j);
    }
    IterateMirrors(Twist, Shift, Mirror, 0, 8, r);
    assert Mirror(r, 0) == Not(r);
    FixUpMirrors(Iterate(Shift, 8, r));
  }

  lemma FixUpMirrors(x: word)
    ensures Xor(Mirror(x, 8), FIXUP) == Not(x)
  {}

  /** Bits above the lowest only move down. */
  lemma ShiftHigh(x: word, y: word)
    requires !y[0]
    ensures Shift(Xor(x, y)) == Xor(Shift(x), Down(y, 1))
  {}

  lemma {:induction false} ShiftsHigh(k: nat, x: word, y: word)
    requires k <= 32 && forall i :: 0 <= i < k ==> !y[i]
    ensures Iterate(Shift, k, Xor(x, y)) == Xor(Iterate(Shift, k, x), Down(y, k))
  {
    if k == 0 {
      assert Down(y, 0) == y;
    } else {
      ShiftHigh(x, y);
      ShiftsHigh(k - 1, Shift(x), Down(y, 1));
      assert Down(Down(y, 1), k - 1) == Down(y, k);
    }
  }

  /** The program's state is at every byte the complement of the standard's. */
  lemma StepMirrors(r: word, b: byte)
    ensures StepByte(Not(r), b) == Not(StandardByte(r, b))
  {
    var low := Pad(Index(r, b));
    var high: word := seq(32, i requires 0 <= i < 32 => i >= 8 && r[i]);
    var ones: word := seq(32, i requires 0 <= i < 32 => i >= 8);
    assert Pad(Index(Not(r), b)) == Not(Xor(low, ones));
    ForByteMirrors(Xor(low, ones));
    ShiftsHigh(8, low, ones);
    assert Xor(r, Pad(b)) == Xor(low, high);
    ShiftsHigh(8, low, high);
    Recombine(Iterate(Shift, 8, low), r, high, ones);
  }

  lemma Recombine(x: word, r: word, high: word, ones: word)
    requires forall i :: 0 <= i < 32 ==> high[i] == (i >= 8 && r[i]) && ones[i] == (i >= 8)
    ensures Xor(Not(Xor(x, Down(ones, 8))), Down(Not(r), 8)) == Not(Xor(x, Down(high, 8)))
  {}

  /** compute_checksum is the standard CRC-32 of every byte sequence. */
  lemma ChecksumIsStandard(data: seq<byte>)
    ensures Checksum(data) == Standard(data)
  {
    forall r: word, b: byte
      ensures StepByte(Not(r), b) == Not(StandardByte(r, b))
    {
      StepMirrors(r, b);
    }
    FoldMirrors(StepByte, StandardByte, Not, ONES, data);
    assert Not(ONES) == ZERO;
  }

  // ---------- Bit by bit ----------

  /** One bit of the message enters the division. */
  function Feed(r: word, b: bool): word {
    Shift(r[0 := r[0] != b])
  }

  /** Up to 32 bits fed one by one are the same bits combined in advance. */
  lemma {:induction false} FeedBits(r: word, bits: seq<bool>)
    requires |bits| <= 32
    ensures Fold(Feed, r, bits) == Iterate(Shift, |bits|, Xor(r, Pad(bits)))
    decreases |bits|
  {
    if bits == [] {
      assert Xor(r, Pad(bits)) == r;
    } else {
      var first := r[0 := r[0] != bits[0]];
      var rest := Pad(bits)[0 := false];
      FeedBits(Feed(r, bits[0]), bits[1..]);
      assert Xor(r, Pad(bits)) == Xor(first, rest);
      ShiftHigh(first, rest);
      assert Down(rest, 1) == Pad(bits[1..]);
    }
  }

  /** The bits of a message in the order they enter the division. */
  function Bits(data: seq<byte>): (bits: seq<bool>)
    ensures |bits| == 8 * |data|
    decreases |data|
  {
    if data == [] then [] else data[0] + Bits(data[1..])
  }

  lemma {:induction false} BitsAt(data: seq<byte>, k: nat)
    requires k < 8 * |data|
    ensures Bits(data)[k] == data[k / 8][k % 8]
    decreases |data|
  {
    if k >= 8 {
      BitsAt(data[1..], k - 8);
    }
  }

  lemma {:induction false} BytesAreBits(r: word, data: seq<byte>)
    ensures Fold(StandardByte, r, data) == Fold(Feed, r, Bits(data))
    decreases |data|
  {
    if data != [] {
      FeedBits(r, data[0]);
      BytesAreBits(StandardByte(r, data[0]), data[1..]);
      FoldConcat(Feed, r, data[0], Bits(data[1..]));
    }
  }

  // ---------- Burst errors ----------

  /** The division loses nothing: its step can be undone, because the polynomial's top bit is set. */
  lemma ShiftInjective(x: word, y: word)
    requires Shift(x) == Shift(y)
    ensures x == y
  {
    assert Shift(x)[31] == x[0] && Shift(y)[31] == y[0];
    forall i | 0 < i < 32
      ensures x[i] == y[i]
    {
      assert Shift(x)[i - 1] == (if x[0] then POLY[i - 1] != x[i] else x[i]);
      assert Shift(y)[i - 1] == (if y[0] then POLY[i - 1] != y[i] else y[i]);
    }
  }

  lemma {:induction false} ShiftsInjective(k: nat, x: word, y: word)
    requires Iterate(Shift, k, x) == Iterate(Shift, k, y)
    ensures x == y
  {
    if k > 0 {
      ShiftsInjective(k - 1, Shift(x), Shift(y));
      ShiftInjective(x, y);
    }
  }

  /** Two states fed the same bits agree only if they agreed before. */
  lemma {:induction false} FeedInjective(x: word, y: word, bits: seq<bool>)
    requires Fold(Feed, x, bits) == Fold(Feed, y, bits)
    ensures x == y
    decreases |bits|
  {
    if bits != [] {
      FeedInjective(Feed(x, bits[0]), Feed(y, bits[0]), bits[1..]);
      ShiftInjective(x[0 := x[0] != bits[0]], y[0 := y[0] != bits[0]]);
      assert forall i :: 0 < i < 32 ==> x[i] == x[0 := x[0] != bits[0]][i] && y[i] == y[0 := y[0] != bits[0]][i];
    }
  }

  /** One state fed different windows of up to 32 bits reaches different states. */
  lemma WindowInjective(r: word, a: seq<bool>, b: seq<bool>)
    requires |a| == |b| <= 32 && Fold(Feed, r, a) == Fold(Feed, r, b)
    ensures a == b
  {
    FeedBits(r, a);
    FeedBits(r, b);
    ShiftsInjective(|a|, Xor(r, Pad(a)), Xor(r, Pad(b)));
    forall i | 0 <= i < |a|
      ensures a[i] == b[i]
    {
      assert Xor(r, Pad(a))[i] == (r[i] != a[i]) && Xor(r, Pad(b))[i] == (r[i] != b[i]);
    }
  }

  /** `a` and `b` differ at most in the 32 consecutive bits from bit `k` on. */
  predicate DifferWithin(a: seq<byte>, b: seq<byte>, k: nat) {
    |a| == |b| && forall i :: 0 <= i < 8 * |a| && !(k <= i < k + 32) ==> a[i / 8][i % 8] == b[i / 8][i % 8]
  }

  /** With the same bits before and after, only equal windows of up to 32 bits lead to the same state. */
  lemma WindowDetected(r: word, before: seq<bool>, a: seq<bool>, b: seq<bool>, after: seq<bool>)
    requires |a| == |b| <= 32 && Fold(Feed, r, before + (a + after)) == Fold(Feed, r, before + (b + after))
    ensures a == b
  {
    var s := Fold(Feed, r, before);
    FoldConcat(Feed, r, before, a + after);
    FoldConcat(Feed, r, before, b + after);
    FoldConcat(Feed, s, a, after);
    FoldConcat(Feed, s, b, after);
    FeedInjective(Fold(Feed, s, a), Fold(Feed, s, b), after);
    WindowInjective(s, a, b);
  }

  /** Bit sequences that agree outside 32 consecutive bits and lead to the same state are equal. */
  lemma BurstFeeds(r: word, x: seq<bool>, y: seq<bool>, k: nat)
    requires |x| == |y| && forall i :: 0 <= i < |x| && !(k <= i < k + 32) ==> x[i] == y[i]
    requires Fold(Feed, r, x) == Fold(Feed, r, y)
    ensures x == y
  {
    var lo, hi := Min(k, |x|), Min(k + 32, |x|);
    Cut(x, lo, hi);
    Cut(y, lo, hi);
    AgreeOn(x, y, 0, lo);
    AgreeOn(x, y, hi, |x|);
    WindowDetected(r, x[..lo], x[lo..hi], y[lo..hi], x[hi..]);
  }

  lemma Cut(x: seq<bool>, lo: nat, hi: nat)
    requires lo <= hi <= |x|
    ensures x == x[..lo] + (x[lo..hi] + x[hi..])
    ensures x[..lo] == x[0..lo] && x[hi..] == x[hi..|x|]
  {}

  lemma AgreeOn(x: seq<bool>, y: seq<bool>, lo: nat, hi: nat)
    requires lo <= hi <= |x| == |y| && forall i :: lo <= i < hi ==> x[i] == y[i]
    ensures x[lo..hi] == y[lo..hi]
  {}

  lemma BitsDifferWithin(a: seq<byte>, b: seq<byte>, k: nat)
    requires DifferWithin(a, b, k)
    ensures forall i :: 0 <= i < 8 * |a| && !(k <= i < k + 32) ==> Bits(a)[i] == Bits(b)[i]
  {
    forall i | 0 <= i < 8 * |a| && !(k <= i < k + 32)
      ensures Bits(a)[i] == Bits(b)[i]
    {
      BitsAt(a, i);
      BitsAt(b, i);
    }
  }

  lemma ChecksumFeeds(data: seq<byte>)
    ensures Checksum(data) == Not(Fold(Feed, ONES, Bits(data)))
  {
    ChecksumIsStandard(data);
    BytesAreBits(ONES, data);
  }

  /** Messages of any one length that differ, but only within 32 consecutive bits, have different checksums. */
  lemma BurstDetected(a: seq<byte>, b: seq<byte>, k: nat)
    requires DifferWithin(a, b, k) && a != b
    ensures Checksum(a) != Checksum(b)
  {
    ChecksumFeeds(a);
    ChecksumFeeds(b);
    if Checksum(a) == Checksum(b) {
      NotInjective(Fold(Feed, ONES, Bits(a)), Fold(Feed, ONES, Bits(b)));
      BitsDifferWithin(a, b, k);
      BurstFeeds(ONES, Bits(a), Bits(b), k);
      BitsInjective(a, b);
    }
  }

  lemma NotInjective(x: word, y: word)
    requires Not(x) == Not(y)
    ensures x == y
  {
    forall i | 0 <= i < 32
      ensures x[i] == y[i]
    {
      assert Not(x)[i] == !x[i] && Not(y)[i] == !y[i];
    }
  }

  lemma {:induction false} BitsInjective(a: seq<byte>, b: seq<byte>)
    requires |a| == |b| && Bits(a) == Bits(b)
    ensures a == b
    decreases |a|
  {
    if a != [] {
      var x, y := Bits(a), Bits(b);
      assert a[0] == x[..8] && b[0] == y[..8];
      assert Bits(a[1..]) == x[8..] && Bits(b[1..]) == y[8..];
      BitsInjective(a[1..], b[1..]);
    }
  }
}
