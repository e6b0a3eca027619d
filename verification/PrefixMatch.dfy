/** The table of external networks of lab 3: which router owns an external address, by the longest registered prefix
    (section 5.2.4.3 of RFC 1812). */
module PrefixMatch {
  import opened Common
  import opened Words

  /** A block of addresses in CIDR notation. */
  datatype Block = Block(address: word, len: nat)

  predicate Legal(b: Block) {
    1 <= b.len <= 32
  }

  function And(a: word, b: word): word {
    seq(32, i requires 0 <= i < 32 => a[i] && b[i])
  }

  function Or(a: word, b: word): word {
    seq(32, i requires 0 <= i < 32 => a[i] || b[i])
  }

  /** `k` zeros, then ones. */
  function Ramp(k: nat, n: nat): (bits: seq<bool>)
    requires k <= n
    ensures |bits| == n
  {
    seq(n, i requires 0 <= i => i >= k)
  }

  /** ~((1u << (32 - len)) - 1) */
  function Mask(len: nat): word
    requires len <= 32
  {
    Ramp(32 - len, 32)
  }

  /** CIDR2IP: the least and the greatest address of a block. */
  function Lowest(b: Block): word
    requires Legal(b)
  {
    And(b.address, Mask(b.len))
  }

  function Highest(b: Block): word
    requires Legal(b)
  {
    Or(Lowest(b), Not(Mask(b.len)))
  }

  /** The address agrees with the one written in its first `len` bits: the block contains it. */
  predicate Contains(b: Block, ip: word)
    requires Legal(b)
  {
    ip[32 - b.len..] == b.address[32 - b.len..]
  }

  /** EXIPMATCHER */
  datatype Entry = Entry(id: nat, subnet: word, mask: word)

  predicate Matches(e: Entry, ip: word) {
    And(ip, e.mask) == e.subnet
  }

  /** What router_init registers for router `id`: the mask is recovered from the two ends of the block. */
  function EntryOf(id: nat, b: Block): Entry
    requires Legal(b)
  {
    Entry(id, Lowest(b), Not(Xor(Highest(b), Lowest(b))))
  }

  // ---------- Masks ----------

  lemma {:induction false} NumberOfRamp(k: nat, n: nat)
    requires k <= n
    ensures Number(Ramp(k, n)) == Pow2(n) - Pow2(k)
    decreases n
  {
    if n > 0 {
      var m := if k == 0 then 0 else k - 1;
      NumberOfRamp(m, n - 1);
      assert Ramp(k, n)[1..] == Ramp(m, n - 1);
    }
  }

  /** The complement of the mask is 2^(32-len) - 1, as the code computes it. */
  lemma MaskValue(len: nat)
    requires len <= 32
    ensures Number(Not(Mask(len))) == Pow2(32 - len) - 1
  {
    var k := 32 - len;
    var x := Not(Mask(len));
    NumberSplit(x, k);
    assert x[..k] == Ramp(0, k);
    NumberOfRamp(0, k);
    assert x[k..] == Ramp(len, len);
    NumberOfRamp(len, len);
    assert Pow2(k) * 0 == 0;
  }

  lemma {:induction false} PowersGrow(j: nat, k: nat)
    requires j < k
    ensures Pow2(j) < Pow2(k)
    decreases k
  {
    if j < k - 1 {
      PowersGrow(j, k - 1);
    } else {
      PowPositive(j);
    }
  }

  lemma {:induction false} PowPositive(k: nat)
    ensures Pow2(k) >= 1
  {
    if k > 0 {
      PowPositive(k - 1);
    }
  }

  lemma PowersOrder(j: nat, k: nat)
    ensures Pow2(j) < Pow2(k) <==> j < k
  {
    if j < k {
      PowersGrow(j, k);
    } else if k < j {
      PowersGrow(k, j);
    }
  }

  lemma RampOrder(j: nat, k: nat, n: nat)
    requires j <= n && k <= n
    ensures Number(Ramp(j, n)) > Number(Ramp(k, n)) <==> j < k
  {
    NumberOfRamp(j, n);
    NumberOfRamp(k, n);
    PowersOrder(j, k);
  }

  /** As unsigned numbers masks are ordered by their prefix length. */
  lemma LongerMaskGreater(a: nat, b: nat)
    requires a <= 32 && b <= 32
    ensures Number(Mask(a)) > Number(Mask(b)) <==> a > b
  {
    RampOrder(32 - a, 32 - b, 32);
  }

  lemma EntryMask(id: nat, b: Block)
    requires Legal(b)
    ensures EntryOf(id, b).mask == Mask(b.len) && Mask(b.len) != ZERO
  {
    assert Mask(b.len)[31];
  }

  lemma MaskedAgrees(a: word, ip: word, len: nat)
    requires 1 <= len <= 32
    ensures And(ip, Mask(len)) == And(a, Mask(len)) <==> ip[32 - len..] == a[32 - len..]
  {
    var k, x, y := 32 - len, And(ip, Mask(len)), And(a, Mask(len));
    if x == y {
      assert forall i :: k <= i < 32 ==> ip[i] == x[i] && a[i] == y[i];
    }
    if ip[k..] == a[k..] {
      forall i | 0 <= i < 32
        ensures x[i] == y[i]
      {
        if i >= k {
          assert ip[i] == ip[k..][i - k] && a[i] == a[k..][i - k];
        }
      }
    }
  }

  /** The matcher registered for a block matches exactly the addresses that agree with the one written in the first
      `len` bits. */
  lemma MatchIsPrefix(id: nat, b: Block, ip: word)
    requires Legal(b)
    ensures Matches(EntryOf(id, b), ip) <==> Contains(b, ip)
  {
    EntryMask(id, b);
    MaskedAgrees(b.address, ip, b.len);
  }

  lemma LowestBits(b: Block)
    requires Legal(b)
    ensures Lowest(b)[32 - b.len..] == Highest(b)[32 - b.len..] == b.address[32 - b.len..]
    ensures forall i :: 0 <= i < 32 - b.len ==> !Lowest(b)[i] && Highest(b)[i]
  {}

  /** They are also exactly the addresses from ipMin to ipMax as CIDR2IP computes them, of which there are
      2^(32-len). */
  lemma MatchIsInterval(b: Block, ip: word)
    requires Legal(b)
    ensures Contains(b, ip) <==> Number(Lowest(b)) <= Number(ip) <= Number(Highest(b))
    ensures Number(Highest(b)) - Number(Lowest(b)) == Pow2(32 - b.len) - 1
  {
    var k, lo, hi := 32 - b.len, Lowest(b), Highest(b);
    LowestBits(b);
    Width(lo, hi, k);
    if ip[k..] == lo[k..] {
      Bounds(ip, lo, hi, k);
    } else if Number(ip[k..]) == Number(lo[k..]) {
      NumberInjective(ip[k..], lo[k..]);
    } else if Number(ip[k..]) < Number(lo[k..]) {
      UpperFirst(ip, lo, k);
    } else {
      UpperFirst(hi, ip, k);
    }
  }

  lemma Width(lo: word, hi: word, k: nat)
    requires k <= 32 && lo[k..] == hi[k..] && forall i :: 0 <= i < k ==> !lo[i] && hi[i]
    ensures Number(hi) - Number(lo) == Pow2(k) - 1
  {
    NumberSplit(lo, k);
    NumberSplit(hi, k);
    assert lo[..k] == Ramp(k, k) && hi[..k] == Ramp(0, k);
    NumberOfRamp(k, k);
    NumberOfRamp(0, k);
  }

  lemma Bounds(ip: word, lo: word, hi: word, k: nat)
    requires k <= 32 && ip[k..] == lo[k..] == hi[k..]
    requires forall i :: 0 <= i < k ==> !lo[i] && hi[i]
    ensures Number(lo) <= Number(ip) <= Number(hi)
  {
    LowOfNumber(ip[..k]);
    assert lo[..k] == Ramp(k, k) && hi[..k] == Ramp(0, k);
    NumberOfRamp(k, k);
    NumberOfRamp(0, k);
    LowerNext(lo, ip, k);
    LowerNext(ip, hi, k);
  }

  // ---------- The table ----------

  /** totRouterNum and externalIPTable. */
  datatype Registry = Registry(total: nat, table: seq<Entry>)

  predicate Sorted(table: seq<Entry>) {
    forall i, j :: 0 <= i < j < |table| ==> Number(table[i].mask) >= Number(table[j].mask)
  }

  /** The entries for the blocks registered so far, in order; a router may come without a block. */
  function Entries(regs: seq<Option<Block>>): seq<Entry>
    requires forall r :: r in regs && r.Some? ==> Legal(r.value)
  {
    if regs == [] then []
    else
      var n := |regs| - 1;
      Entries(regs[..n]) + if regs[n].Some? then [EntryOf(|regs|, regs[n].value)] else []
  }

  /** The table holds the blocks registered, sorted; std::sort may order equal masks in any way. */
  ghost predicate Holds(r: Registry, regs: seq<Option<Block>>) {
    && (forall b :: b in regs && b.Some? ==> Legal(b.value))
    && r.total == |regs| && Sorted(r.table) && multiset(r.table) == multiset(Entries(regs))
  }

  lemma {:induction false} EntriesAre(regs: seq<Option<Block>>, e: Entry)
    requires forall r :: r in regs && r.Some? ==> Legal(r.value)
    ensures e in Entries(regs) <==>
            1 <= e.id <= |regs| && regs[e.id - 1].Some? && e == EntryOf(e.id, regs[e.id - 1].value)
    decreases |regs|
  {
    if regs != [] {
      var n := |regs| - 1;
      EntriesAre(regs[..n], e);
    }
  }

  /** exIPMatchRouter: the router of the first entry that matches, or -1. */
  function Lookup(table: seq<Entry>, ip: word): int {
    if table == [] then -1
    else if Matches(table[0], ip) then table[0].id
    else Lookup(table[1..], ip)
  }

  lemma {:induction false} LookupFirst(table: seq<Entry>, ip: word)
    requires Sorted(table)
    ensures var r := Lookup(table, ip);
      && (r == -1 ==> forall e :: e in table ==> !Matches(e, ip))
      && (r != -1 ==> exists e :: e in table && e.id == r && Matches(e, ip) &&
                        forall o :: o in table && Matches(o, ip) ==> Number(o.mask) <= Number(e.mask))
  {
    if table != [] {
      if Matches(table[0], ip) {
        var e := table[0];
        forall o | o in table && Matches(o, ip)
          ensures Number(o.mask) <= Number(e.mask)
        {
          var j :| 0 <= j < |table| && table[j] == o;
        }
      } else {
        LookupFirst(table[1..], ip);
        var r := Lookup(table, ip);
        if r != -1 {
          var e :| e in table[1..] && e.id == r && Matches(e, ip) &&
                   forall o :: o in table[1..] && Matches(o, ip) ==> Number(o.mask) <= Number(e.mask);
          assert e in table;
        }
      }
    }
  }

  /** The router that owns an address: its block contains the address and no longer prefix does. */
  ghost predicate Owns(regs: seq<Option<Block>>, id: nat, ip: word)
    requires forall b :: b in regs && b.Some? ==> Legal(b.value)
  {
    && 1 <= id <= |regs| && regs[id - 1].Some? && Contains(regs[id - 1].value, ip)
    && forall b :: b in regs && b.Some? && Contains(b.value, ip) ==> b.value.len <= regs[id - 1].value.len
  }

  /** After any registrations the lookup gives a router with the longest of the prefixes the address begins with, and -1
      exactly when it begins with none. */
  lemma LongestPrefixMatch(r: Registry, regs: seq<Option<Block>>, ip: word)
    requires Holds(r, regs)
    ensures var id := Lookup(r.table, ip);
      if id == -1 then forall b :: b in regs && b.Some? ==> !Contains(b.value, ip)
      else 0 < id && Owns(regs, id, ip)
  {
    LookupFirst(r.table, ip);
    var id := Lookup(r.table, ip);
    if id == -1 {
      forall b | b in regs && b.Some?
        ensures !Contains(b.value, ip)
      {
        var e := EntryFor(r, regs, b, ip);
      }
    } else {
      var e :| e in r.table && e.id == id && Matches(e, ip) &&
               forall o :: o in r.table && Matches(o, ip) ==> Number(o.mask) <= Number(e.mask);
      BestOwns(r, regs, e, ip);
    }
  }

  lemma BestOwns(r: Registry, regs: seq<Option<Block>>, e: Entry, ip: word)
    requires Holds(r, regs) && e in r.table && Matches(e, ip)
    requires forall o :: o in r.table && Matches(o, ip) ==> Number(o.mask) <= Number(e.mask)
    ensures Owns(regs, e.id, ip)
  {
    assert e in multiset(r.table);
    assert e in multiset(Entries(regs));
    EntriesAre(regs, e);
    var mine := regs[e.id - 1];
    assert mine in regs;
    MatchIsPrefix(e.id, mine.value, ip);
    EntryMask(e.id, mine.value);
    forall b | b in regs && b.Some? && Contains(b.value, ip)
      ensures b.value.len <= mine.value.len
    {
      var o := EntryFor(r, regs, b, ip);
      LongerMaskGreater(b.value.len, mine.value.len);
    }
  }

  lemma EntryFor(r: Registry, regs: seq<Option<Block>>, b: Option<Block>, ip: word) returns (e: Entry)
    requires Holds(r, regs) && b in regs && b.Some?
    ensures e in r.table && e.mask == Mask(b.value.len) && (Matches(e, ip) <==> Contains(b.value, ip))
  {
    var k :| 0 <= k < |regs| && regs[k] == b;
    e := EntryOf(k + 1, b.value);
    EntriesAre(regs, e);
    EntryMask(k + 1, b.value);
    MatchIsPrefix(k + 1, b.value, ip);
    assert e in multiset(Entries(regs));
    assert e in multiset(r.table);
  }

  // ---------- IDManager ----------

  class IDManager {
    var totRouterNum: nat
    var externalIPTable: seq<Entry>

    function View(): Registry
      reads this
    {
      Registry(totRouterNum, externalIPTable)
    }

    constructor ()
      ensures View() == Registry(0, []) && Holds(View(), [])
    {
      totRouterNum, externalIPTable := 0, [];
    }

    /** Register, with the end of the block taken in as router_init does; `regs` is what was registered before. */
    method Register(block: Option<Block>, ghost regs: seq<Option<Block>>) returns (id: nat)
      requires Holds(View(), regs) && (block.Some? ==> Legal(block.value))
      modifies this
      ensures Holds(View(), regs + [block]) && id == |regs| + 1
    {
      totRouterNum := totRouterNum + 1;
      id := totRouterNum;
      ghost var all := regs + [block];
      assert all[..|regs|] == regs;
      var mask := if block.Some? then EntryOf(id, block.value).mask else ZERO;
      if block.Some? {
        EntryMask(id, block.value);
      }
      if mask == ZERO {
        return;
      }
      var entry := EntryOf(id, block.value);
      externalIPTable := Sort(externalIPTable + [entry]);
    }

    /** exIPMatchRouter */
    method Match(ip: word) returns (id: int)
      ensures id == Lookup(externalIPTable, ip)
    {
      var i := 0;
      while i < |externalIPTable|
        invariant 0 <= i <= |externalIPTable|
        invariant Lookup(externalIPTable[i..], ip) == Lookup(externalIPTable, ip)
      {
        if Matches(externalIPTable[i], ip) {
          return externalIPTable[i].id;
        }
        assert externalIPTable[i..][1..] == externalIPTable[i + 1..];
        i := i + 1;
      }
      return -1;
    }
  }

  /** Stands for std::sort: some sorted arrangement of the same entries. */
  method Sort(table: seq<Entry>) returns (sorted: seq<Entry>)
    ensures Sorted(sorted) && multiset(sorted) == multiset(table)
  {
    sorted := [];
    var i := 0;
    while i < |table|
      invariant 0 <= i <= |table|
      invariant Sorted(sorted) && multiset(sorted) == multiset(table[..i])
    {
      assert table[..i + 1] == table[..i] + [table[i]];
      sorted := Insert(sorted, table[i]);
      i := i + 1;
    }
    assert table[..i] == table;
  }

  method Insert(sorted: seq<Entry>, e: Entry) returns (more: seq<Entry>)
    requires Sorted(sorted)
    ensures Sorted(more) && multiset(more) == multiset(sorted) + multiset{e}
  {
    var k := |sorted|;
    while k > 0 && Number(sorted[k - 1].mask) < Number(e.mask)
      invariant 0 <= k <= |sorted|
      invariant forall j :: k <= j < |sorted| ==> Number(sorted[j].mask) < Number(e.mask)
    {
      k := k - 1;
    }
    more := sorted[..k] + [e] + sorted[k..];
    InsertSorted(sorted, e, k);
    InsertContents(sorted, e, k);
  }

  lemma InsertContents(sorted: seq<Entry>, e: Entry, k: nat)
    requires k <= |sorted|
    ensures multiset(sorted[..k] + [e] + sorted[k..]) == multiset(sorted) + multiset{e}
  {
    assert sorted == sorted[..k] + sorted[k..];
  }

  lemma InsertSorted(sorted: seq<Entry>, e: Entry, k: nat)
    requires Sorted(sorted) && k <= |sorted|
    requires k > 0 ==> Number(sorted[k - 1].mask) >= Number(e.mask)
    requires forall j :: k <= j < |sorted| ==> Number(sorted[j].mask) < Number(e.mask)
    ensures Sorted(sorted[..k] + [e] + sorted[k..])
  {
    var more := sorted[..k] + [e] + sorted[k..];
    forall i, j | 0 <= i < j < |more|
      ensures Number(more[i].mask) >= Number(more[j].mask)
    {
      assert more[i] == if i < k then sorted[i] else if i == k then e else sorted[i - 1];
      assert more[j] == if j < k then sorted[j] else if j == k then e else sorted[j - 1];
      if i < k - 1 {
        assert Number(sorted[i].mask) >= Number(sorted[k - 1].mask);
      }
    }
  }
}
