/** The learning switch of lab 4: a table of countdowns kept frame by frame, against what the history of frames says. */
module LearningSwitch {
  import opened Common
  import opened Words

  /** An address as it stands in the frame. */
  type Mac = a: seq<byte> | |a| == 6
    witness [Low(0, 8), Low(0, 8), Low(0, 8), Low(0, 8), Low(0, 8), Low(0, 8)]

  const THRESHOLD := 10  // ETHER_MAC_AGING_THRESHOLD

  datatype Entry = Entry(port: int, lifeTime: int)

  /** A frame arriving on a port: an aging command, or data. */
  datatype Arrival = Control | Data(inPort: int, src: Mac, dst: Mac)

  // ---------- macAddr2Long ----------

  /** The first `k` bytes, the first of them the most significant. */
  function Prefix(a: Mac, k: nat): nat
    requires k <= 6
  {
    if k == 0 then 0 else 256 * Prefix(a, k - 1) + Number(a[k - 1])
  }

  function Key(a: Mac): nat {
    Prefix(a, 6)
  }

  /** The key is the address read as a number, its first byte the most significant. */
  lemma KeyIsBigEndian(a: Mac)
    ensures Key(a) == 0x100_0000_0000 * Number(a[0]) + 0x1_0000_0000 * Number(a[1]) + 0x100_0000 * Number(a[2]) +
                      0x1_0000 * Number(a[3]) + 0x100 * Number(a[4]) + Number(a[5])
  {
    assert Prefix(a, 0) == 0;
    assert Prefix(a, 1) == 256 * Prefix(a, 0) + Number(a[0]);
    assert Prefix(a, 2) == 256 * Prefix(a, 1) + Number(a[1]);
    assert Prefix(a, 3) == 256 * Prefix(a, 2) + Number(a[2]);
    assert Prefix(a, 4) == 256 * Prefix(a, 3) + Number(a[3]);
    assert Prefix(a, 5) == 256 * Prefix(a, 4) + Number(a[4]);
    assert Prefix(a, 6) == 256 * Prefix(a, 5) + Number(a[5]);
  }

  lemma ByteBound(b: byte)
    ensures Number(b) < 256
  {
    LowOfNumber(b);
    assert Pow2(4) == 16;
    assert Pow2(8) == 256;
  }

  lemma {:induction false} PrefixInjective(a: Mac, b: Mac, k: nat)
    requires k <= 6 && Prefix(a, k) == Prefix(b, k)
    ensures a[..k] == b[..k]
  {
    if k > 0 {
      ByteBound(a[k - 1]);
      ByteBound(b[k - 1]);
      PrefixInjective(a, b, k - 1);
      NumberInjective(a[k - 1], b[k - 1]);
      assert a[..k] == a[..k - 1] + [a[k - 1]] && b[..k] == b[..k - 1] + [b[k - 1]];
    }
  }

  /** Different addresses have different keys. */
  lemma KeyInjective(a: Mac, b: Mac)
    ensures Key(a) == Key(b) ==> a == b
  {
    if Key(a) == Key(b) {
      PrefixInjective(a, b, 6);
      assert a[..6] == a && b[..6] == b;
    }
  }

  // ---------- The switch step by step ----------

  type Table = map<nat, Entry>

  function Aged(t: Table): Table {
    map m | m in t && t[m].lifeTime - 1 != 0 :: t[m].(lifeTime := t[m].lifeTime - 1)
  }

  /** The table after an arrival, and the port to send to: 0 for all, -1 for none. */
  function Process(t: Table, e: Arrival): (Table, int) {
    match e
    case Control => (Aged(t), -1)
    case Data(inPort, src, dst) =>
      var t' := t[Key(src) := Entry(inPort, THRESHOLD)];
      (t', if Key(dst) !in t' then 0
           else if t'[Key(dst)].port == inPort then -1
           else t'[Key(dst)].port)
  }

  function TableAfter(history: seq<Arrival>): Table {
    if history == [] then map[]
    else
      var n := |history| - 1;
      Process(TableAfter(history[..n]), history[n]).0
  }

  // ---------- What the history says ----------

  function Agings(history: seq<Arrival>): nat {
    if history == [] then 0
    else
      var n := |history| - 1;
      Agings(history[..n]) + if history[n].Control? then 1 else 0
  }

  predicate From(e: Arrival, a: Mac) {
    e.Data? && e.src == a
  }

  /** Arrival `i` is the last frame that `a` sent. */
  predicate LastFrom(history: seq<Arrival>, a: Mac, i: nat) {
    i < |history| && From(history[i], a) && forall j :: i < j < |history| ==> !From(history[j], a)
  }

  /** The switch should still know `a`, from arrival `i`. */
  predicate KnownFrom(history: seq<Arrival>, a: Mac, i: nat) {
    LastFrom(history, a, i) && Agings(history[i + 1..]) < 10
  }

  /** The table knows `a` exactly as the history says. */
  ghost predicate Agrees(t: Table, history: seq<Arrival>, a: Mac) {
    && (Key(a) in t <==> exists i: nat :: KnownFrom(history, a, i))
    && forall i: nat :: KnownFrom(history, a, i) ==>
         Key(a) in t && t[Key(a)] == Entry(history[i].inPort, 10 - Agings(history[i + 1..]))
  }

  lemma AgingsExtend(history: seq<Arrival>, i: nat)
    requires i < |history|
    ensures Agings(history[i..]) == Agings(history[i..|history| - 1]) + if history[|history| - 1].Control? then 1 else 0
  {
    var s := history[i..];
    assert s[..|s| - 1] == history[i..|history| - 1];
  }

  /** One more arrival that is not a frame from `a`: the last frame from `a` stays the last, maybe one aging older. */
  lemma KnownLater(history: seq<Arrival>, a: Mac, i: nat)
    requires history != [] && !From(history[|history| - 1], a)
    ensures var n := |history| - 1; var before := history[..n];
      && (LastFrom(history, a, i) <==> LastFrom(before, a, i))
      && (LastFrom(history, a, i) ==>
            before[i] == history[i] &&
            Agings(history[i + 1..]) == Agings(before[i + 1..]) + if history[n].Control? then 1 else 0)
  {
    var n := |history| - 1;
    var before := history[..n];
    if i < n {
      AgingsExtend(history, i + 1);
      assert before[i + 1..] == history[i + 1..n];
      assert forall j :: i < j < n ==> before[j] == history[j];
    }
  }

  /** After any history of frames and aging commands an address has an entry exactly when it has sent a frame and fewer
      than ten agings have followed the last one; the entry then has the port of that frame and ten less the agings. */
  lemma {:induction false} TableIsHistory(history: seq<Arrival>, a: Mac)
    ensures Agrees(TableAfter(history), history, a)
    decreases |history|
  {
    if history != [] {
      var n := |history| - 1;
      TableIsHistory(history[..n], a);
      if From(history[n], a) {
        assert history[n + 1..] == [];
        assert KnownFrom(history, a, n);
        assert forall i: nat :: KnownFrom(history, a, i) ==> i == n;
      } else {
        AgreesLater(TableAfter(history[..n]), history, a);
      }
    }
  }

  lemma AgreesLater(t: Table, history: seq<Arrival>, a: Mac)
    requires history != [] && !From(history[|history| - 1], a)
    requires Agrees(t, history[..|history| - 1], a)
    ensures Agrees(Process(t, history[|history| - 1]).0, history, a)
  {
    var n := |history| - 1;
    var before, t' := history[..n], Process(t, history[n]).0;
    if history[n].Data? {
      KeyInjective(history[n].src, a);
    }
    forall i: nat
      ensures KnownFrom(history, a, i) ==>
        KnownFrom(before, a, i) && Key(a) in t' &&
        t'[Key(a)] == Entry(history[i].inPort, 10 - Agings(history[i + 1..]))
      ensures KnownFrom(before, a, i) && Key(a) in t' ==> KnownFrom(history, a, i)
    {
      KnownLater(history, a, i);
    }
    if Key(a) in t' {
      assert Key(a) in t;
      var i: nat :| KnownFrom(before, a, i);
      assert KnownFrom(history, a, i);
    }
  }

  /** The port a frame is sent to is the one the history dictates: all ports if the destination is not known, none if
      it is known on the port the frame came in on, else the port it is known on. An aging command is sent nowhere. */
  lemma OutputIsHistory(history: seq<Arrival>, inPort: int, src: Mac, dst: Mac)
    ensures Process(TableAfter(history), Control).1 == -1
    ensures var e := Data(inPort, src, dst);
      var all, out := history + [e], Process(TableAfter(history), Data(inPort, src, dst)).1;
      && ((forall i: nat :: !KnownFrom(all, dst, i)) ==> out == 0)
      && forall i: nat :: KnownFrom(all, dst, i) ==> out == if all[i].inPort == inPort then -1 else all[i].inPort
  {
    var all := history + [Data(inPort, src, dst)];
    assert all[..|history|] == history;
    TableIsHistory(all, dst);
  }

  // ---------- The code ----------

  class EthernetSwitch {
    var table: Table

    constructor ()
      ensures table == map[]
    {
      table := map[];
    }

    static method MacAddr2Long(addr: Mac) returns (ans: nat)
      ensures ans == Key(addr)
    {
      ans := 0;
      var i := 0;
      while i < 6
        invariant 0 <= i <= 6 && ans == Prefix(addr, i)
      {
        ans := 256 * ans + Number(addr[i]);
        i := i + 1;
      }
    }

    method Aging()
      modifies this
      ensures table == Aged(old(table))
    {
      var del: seq<nat> := [];
      var todo := table.Keys;
      ghost var start := table;
      while todo != {}
        invariant table.Keys == start.Keys && todo <= start.Keys
        invariant forall m :: m in todo ==> table[m] == start[m]
        invariant forall m :: m in start && m !in todo ==> table[m] == start[m].(lifeTime := start[m].lifeTime - 1)
        invariant forall m :: m in del <==> m in start && m !in todo && start[m].lifeTime - 1 == 0
        decreases todo
      {
        var m :| m in todo;
        todo := todo - {m};
        table := table[m := table[m].(lifeTime := table[m].lifeTime - 1)];
        if table[m].lifeTime == 0 {
          del := del + [m];
        }
      }
      ghost var counted := table;
      var i := 0;
      while i < |del|
        invariant 0 <= i <= |del|
        invariant table == map m | m in counted && m !in del[..i] :: counted[m]
      {
        table := table - {del[i]};
        assert forall m :: m in del[..i + 1] <==> m in del[..i] || m == del[i];
        i := i + 1;
      }
      assert del[..i] == del;
    }

    method ProcessFrame(e: Arrival) returns (out: int)
      modifies this
      ensures (table, out) == Process(old(table), e)
    {
      match e
      case Control =>
        Aging();
        out := -1;
      case Data(inPort, srcMac, dstMac) =>
        var src := MacAddr2Long(srcMac);
        var dest := MacAddr2Long(dstMac);
        table := table[src := Entry(inPort, THRESHOLD)];
        if dest !in table {
          return 0;
        }
        var destEntry := table[dest];
        if destEntry.port == inPort {
          return -1;
        }
        out := destEntry.port;
    }
  }
}
