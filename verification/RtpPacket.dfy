/** The checksum code of lab 2 as it is written, the packets it protects, and which alterations it must notice. */
module RtpPacket {
  import opened Common
  import opened Words
  import opened Crc32

  lemma IndexInTable(b: byte)
    ensures Number(b) < 256 && Low(Number(b), 8) == b
  {
    LowOfNumber(b);
    assert Pow2(4) == 16;
    assert Pow2(8) == 256;
  }

  // ---------- util.c ----------

  class Crc {
    const table: array<word>

    /** A table whose first entry is not zero is filled. */
    ghost predicate Valid()
      reads table
    {
      table.Length == 256 && (table[0] != ZERO ==> Filled(256))
    }

    ghost predicate Filled(n: nat)
      requires table.Length == 256 && n <= 256
      reads table
    {
      forall i :: 0 <= i < n ==> table[i] == ForByte(Pad(Low(i, 8)))
    }

    /** Static storage starts out zero. */
    constructor ()
      ensures Valid() && fresh(table)
    {
      table := new word[256](_ => ZERO);
    }

    /** crc32_for_byte */
    static method Crc32ForByte(word0: word) returns (r: word)
      ensures r == ForByte(word0)
    {
      r := word0;
      var j: nat := 0;
      while j < 8
        invariant j <= 8 && Iterate(Twist, 8 - j, r) == Iterate(Twist, 8, word0)
      {
        r := Xor(if r[0] then ZERO else POLY, Down(r, 1));
        j := j + 1;
      }
      r := Xor(r, FIXUP);
    }

    /** The loop of crc32 that fills the table. */
    method Fill()
      requires Valid()
      modifies table
      ensures Valid() && Filled(256)
    {
      var i: nat := 0;
      while i < 256
        invariant i <= 256 && Filled(i)
      {
        table[i] := Crc32ForByte(Pad(Low(i, 8)));
        i := i + 1;
      }
    }

    /** One iteration of the loop of crc32 over the data. */
    method Advance(crc: word, b: byte) returns (next: word)
      requires Valid() && Filled(256)
      ensures next == StepByte(crc, b)
    {
      var index := Index(crc, b);
      IndexInTable(index);
      next := Xor(table[Number(index)], Down(crc, 8));
    }

    /** crc32 */
    method Update(data: seq<byte>, crc0: word) returns (crc: word)
      requires Valid()
      modifies table
      ensures Valid() && crc == Fold(StepByte, crc0, data)
    {
      if table[0] == ZERO {
        Fill();
      }
      crc := crc0;
      var i: nat := 0;
      while i < |data|
        invariant i <= |data| && Valid() && Filled(256)
        invariant Fold(StepByte, crc, data[i..]) == Fold(StepByte, crc0, data)
      {
        assert data[i..][1..] == data[i + 1..];
        crc := Advance(crc, data[i]);
        i := i + 1;
      }
    }

    /** compute_checksum */
    method ComputeChecksum(data: seq<byte>) returns (crc: word)
      requires Valid()
      modifies table
      ensures Valid() && crc == Standard(data)
    {
      crc := Update(data, ZERO);
      ChecksumIsStandard(data);
    }
  }

  // ---------- rtp.h and rtp.cpp ----------

  /** The header fields and the bytes of the payload that the length field covers. */
  datatype Frame = Frame(kind: byte, length: nat, seqNum: nat, checksum: word, payload: seq<byte>)

  predicate WellFormed(f: Frame) {
    f.length < 0x10000 && f.seqNum < 0x100000000 && |f.payload| == f.length
  }

  /** A field of `n` bytes in memory, least significant byte first. */
  function Field(bits: seq<bool>, n: nat): (b: seq<byte>)
    requires |bits| == 8 * n
    ensures |b| == n
  {
    seq(n, i requires 0 <= i < n => bits[8 * i..8 * i + 8])
  }

  /** The packed structure, as far as the length field says. */
  function Image(f: Frame): seq<byte> {
    [f.kind] + Field(Low(f.length, 16), 2) + Field(Low(f.seqNum, 32), 4) + Field(f.checksum, 4) + f.payload
  }

  /** What the checksum is computed over: the structure with the checksum field zero. */
  function Covered(f: Frame): seq<byte> {
    Image(f.(checksum := ZERO))
  }

  /** Not Damaged(). */
  predicate Intact(f: Frame) {
    f.checksum == Standard(Covered(f))
  }

  /** The number that bytes stand for, the first the least significant. */
  function LittleEndian(b: seq<byte>): nat {
    if b == [] then 0 else Number(b[0]) + 256 * LittleEndian(b[1..])
  }

  lemma {:induction false} FieldIsNumber(bits: seq<bool>, n: nat)
    requires |bits| == 8 * n
    ensures LittleEndian(Field(bits, n)) == Number(bits)
    decreases n
  {
    if n > 0 {
      var rest := Field(bits[8..], n - 1);
      assert Field(bits, n)[0] == bits[..8];
      forall i | 0 <= i < n - 1
        ensures Field(bits, n)[1 + i] == rest[i]
      {
        assert bits[8..][8 * i..8 * i + 8] == bits[8 * (1 + i)..8 * (1 + i) + 8];
      }
      assert Field(bits, n)[1..] == rest;
      FieldIsNumber(bits[8..], n - 1);
      NumberSplit(bits, 8);
      assert Pow2(4) == 16;
      assert Pow2(8) == 256;
    }
  }

  lemma Slices(f: Frame)
    requires WellFormed(f)
    ensures |Image(f)| == 11 + f.length && Image(f)[11..] == f.payload
    ensures Image(f)[1..3] == Field(Low(f.length, 16), 2)
    ensures Image(f)[3..7] == Field(Low(f.seqNum, 32), 4)
    ensures Image(f)[7..11] == Field(f.checksum, 4)
  {}

  /** The layout of the packed structure, byte by byte: the type, then length, sequence number and checksum as numbers
      of 2, 4 and 4 bytes, then the payload. */
  lemma Layout(f: Frame)
    requires WellFormed(f)
    ensures |Image(f)| == 11 + f.length && Image(f)[0] == f.kind
    ensures LittleEndian(Image(f)[1..3]) == f.length
    ensures LittleEndian(Image(f)[3..7]) == f.seqNum
    ensures LittleEndian(Image(f)[7..11]) == Number(f.checksum)
    ensures Image(f)[11..] == f.payload
  {
    Slices(f);
    HalfWord(f.length);
    FullWord(f.seqNum);
    FieldIsNumber(f.checksum, 4);
  }

  lemma HalfWord(x: nat)
    requires x < 0x10000
    ensures LittleEndian(Field(Low(x, 16), 2)) == x
  {
    Powers();
    NumberOfLow(x, 16);
    FieldIsNumber(Low(x, 16), 2);
  }

  lemma FullWord(x: nat)
    requires x < 0x100000000
    ensures LittleEndian(Field(Low(x, 32), 4)) == x
  {
    Powers();
    NumberOfLow(x, 32);
    FieldIsNumber(Low(x, 32), 4);
  }

  lemma FieldInjective(x: seq<bool>, y: seq<bool>, n: nat)
    requires |x| == |y| == 8 * n && Field(x, n) == Field(y, n)
    ensures x == y
  {
    forall k | 0 <= k < 8 * n
      ensures x[k] == y[k]
    {
      assert Field(x, n)[k / 8] == x[8 * (k / 8)..8 * (k / 8) + 8];
      assert Field(y, n)[k / 8] == y[8 * (k / 8)..8 * (k / 8) + 8];
      assert Field(x, n)[k / 8][k % 8] == x[k] && Field(y, n)[k / 8][k % 8] == y[k];
    }
  }

  lemma Powers()
    ensures Pow2(16) == 0x10000 && Pow2(32) == 0x100000000
  {
    assert Pow2(4) == 16;
    assert Pow2(8) == 256;
    assert Pow2(12) == 0x1000;
    assert Pow2(16) == 0x10000;
    assert Pow2(20) == 0x100000;
    assert Pow2(24) == 0x1000000;
    assert Pow2(28) == 0x10000000;
  }

  /** Frames that differ outside the checksum field are covered differently. */
  lemma CoveredInjective(f: Frame, g: Frame)
    requires WellFormed(f) && WellFormed(g) && Covered(f) == Covered(g)
    ensures f.(checksum := g.checksum) == g
  {
    var a, b := Covered(f), Covered(g);
    assert a[0] == f.kind && b[0] == g.kind;
    assert a[1..3] == Field(Low(f.length, 16), 2) && b[1..3] == Field(Low(g.length, 16), 2);
    assert a[3..7] == Field(Low(f.seqNum, 32), 4) && b[3..7] == Field(Low(g.seqNum, 32), 4);
    assert a[11..] == f.payload && b[11..] == g.payload;
    FieldInjective(Low(f.length, 16), Low(g.length, 16), 2);
    FieldInjective(Low(f.seqNum, 32), Low(g.seqNum, 32), 4);
    Powers();
    NumberOfLow(f.length, 16);
    NumberOfLow(g.length, 16);
    NumberOfLow(f.seqNum, 32);
    NumberOfLow(g.seqNum, 32);
  }

  /** Clearing the checksum field leaves the bytes around it. */
  lemma CoveredAround(f: Frame, i: nat)
    requires WellFormed(f) && i < 11 + f.length && (i < 7 || 11 <= i)
    ensures |Covered(f)| == |Image(f)| == 11 + f.length && Covered(f)[i] == Image(f)[i]
  {}

  lemma CoveredField(f: Frame, g: Frame, i: nat)
    requires WellFormed(f) && WellFormed(g) && f.length == g.length && 7 <= i < 11
    ensures |Covered(f)| == |Covered(g)| == 11 + f.length && Covered(f)[i] == Covered(g)[i]
  {}

  lemma CoveredDiffer(f: Frame, g: Frame, k: nat)
    requires WellFormed(f) && WellFormed(g) && f.length == g.length && DifferWithin(Image(f), Image(g), k)
    ensures DifferWithin(Covered(f), Covered(g), k)
  {
    var a, b := Covered(f), Covered(g);
    assert |a| == |b| == |Image(f)| == 11 + f.length;
    forall i | 0 <= i < 8 * |a| && !(k <= i < k + 32)
      ensures a[i / 8][i % 8] == b[i / 8][i % 8]
    {
      if i / 8 < 7 || 11 <= i / 8 {
        CoveredAround(f, i / 8);
        CoveredAround(g, i / 8);
      } else {
        CoveredField(f, g, i / 8);
      }
    }
  }

  /** A packet altered within 32 consecutive bits, outside its length and checksum fields, is damaged. */
  lemma AlteredBurstDamaged(f: Frame, g: Frame, k: nat)
    requires WellFormed(f) && WellFormed(g) && Intact(f)
    requires g.length == f.length && g.checksum == f.checksum && g != f
    requires DifferWithin(Image(f), Image(g), k)
    ensures !Intact(g)
  {
    var a, b := Covered(f), Covered(g);
    CoveredDiffer(f, g, k);
    if a == b {
      CoveredInjective(f, g);
    }
    BurstDetected(a, b, k);
    ChecksumIsStandard(a);
    ChecksumIsStandard(b);
  }

  /** A packet altered in its checksum field alone is damaged. */
  lemma AlteredChecksumDamaged(f: Frame, g: Frame)
    requires Intact(f) && g == f.(checksum := g.checksum) && g != f
    ensures !Intact(g)
  {
    assert Covered(g) == Covered(f);
  }

  /** The packet structure; `payload` has its full size whatever the length field says. */
  class Packet {
    var kind: byte
    var length: nat
    var seqNum: nat
    var checksum: word
    const payload: array<byte>

    ghost predicate Valid()
      reads this
    {
      length <= payload.Length == PAYLOAD_SIZE && seqNum < 0x100000000
    }

    ghost function View(): (f: Frame)
      requires Valid()
      reads this, payload
      ensures WellFormed(f)
    {
      Frame(kind, length, seqNum, checksum, payload[..length])
    }

    /** The constructors that take the fields, with a payload short enough for the terminating zero; what lies beyond it
        may be anything. */
    constructor (kind: byte, seqNum: nat, data: seq<byte>, crc: Crc)
      requires crc.Valid() && |data| < PAYLOAD_SIZE && seqNum < 0x100000000
      modifies crc.table
      ensures crc.Valid() && Valid() && fresh(payload)
      ensures Intact(View()) && View() == Frame(kind, |data|, seqNum, checksum, data)
      ensures payload[|data|] == Low(0, 8)
    {
      this.kind, this.length, this.seqNum := kind, |data|, seqNum;
      this.checksum := ZERO;
      payload := new byte[PAYLOAD_SIZE];
      new;
      forall i | 0 <= i < |data| {
        payload[i] := data[i];
      }
      payload[|data|] := Low(0, 8);
      assert payload[..length] == data;
      var covered := Bytes();
      checksum := crc.ComputeChecksum(covered);
    }

    /** The bytes of the structure. */
    method Bytes() returns (image: seq<byte>)
      requires Valid()
      ensures image == Image(View())
    {
      image := [kind] + Field(Low(length, 16), 2) + Field(Low(seqNum, 32), 4) + Field(checksum, 4) + payload[..length];
    }

    /** Damaged: computed with the checksum field set to zero, and the field restored. */
    method Damaged(crc: Crc) returns (res: bool)
      requires Valid() && crc.Valid() && crc.table as object != payload
      modifies this`checksum, crc.table
      ensures crc.Valid() && Valid() && View() == old(View())
      ensures res <==> !Intact(View())
    {
      var stored := checksum;
      checksum := ZERO;
      var image := Bytes();
      var computed := crc.ComputeChecksum(image);
      res := stored != computed;
      checksum := stored;
    }
  }
}
