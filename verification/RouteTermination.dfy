/** With the ports left alone and one link between any two routers, rebroadcasting stops: a measure goes down with
    every vector delivered, whatever the order. */
module RouteTermination {
  import opened ShortestPaths
  import opened DistanceVector
  import opened RouterNetwork
  import opened RouteSafety

  ghost predicate OneLinkPerPair(topo: Topology) {
    forall l, m :: l in topo.links && m in topo.links && l.src == m.src && l.dst == m.dst ==> l == m
  }

  // ---------- Sums ----------

  function Sum(a: seq<int>): int {
    if a == [] then 0 else a[0] + Sum(a[1..])
  }

  lemma {:induction false} SumMonotone(a: seq<int>, b: seq<int>)
    requires |a| == |b| && forall k :: 0 <= k < |a| ==> a[k] <= b[k]
    ensures Sum(a) <= Sum(b)
    ensures (exists k :: 0 <= k < |a| && a[k] < b[k]) ==> Sum(a) < Sum(b)
  {
    if a != [] {
      SumMonotone(a[1..], b[1..]);
      if k :| 0 <= k < |a| && a[k] < b[k] {
        assert k > 0 ==> a[1..][k - 1] < b[1..][k - 1];
      }
    }
  }

  lemma {:induction false} SumNonNegative(a: seq<int>)
    requires forall k :: 0 <= k < |a| ==> 0 <= a[k]
    ensures 0 <= Sum(a)
  {
    if a != [] {
      SumNonNegative(a[1..]);
    }
  }

  // ---------- The measure ----------

  /** What the operator has set the port at the receiving end to; a port never set, or set to -1, is down. */
  function PortCost(s: Net, l: Link): int
    requires l.dst < |s.routers|
  {
    var values := s.routers[l.dst].portLen;
    if l.port in values && values[l.port] != -1 then values[l.port] else INF
  }

  /** The links whose cost the router at the receiving end has still to learn. */
  ghost function Unlearned(topo: Topology, s: Net): set<Link>
    requires NetShaped(topo, s)
  {
    set l | l in topo.links && TableOf(s, l.dst).c[l.src] != PortCost(s, l)
  }

  /** How far each router's version is behind. */
  ghost function Gaps(topo: Topology, s: Net): seq<int>
    requires NetShaped(topo, s)
  {
    seq(topo.n, k requires 0 <= k < topo.n => s.newest - TableOf(s, k + 1).version)
  }

  /** Each router's distances added up. */
  ghost function Totals(topo: Topology, s: Net): seq<int>
    requires NetShaped(topo, s)
  {
    seq(topo.n, k requires 0 <= k < topo.n => Sum(TableOf(s, k + 1).d[k + 1][1..topo.n + 1]))
  }

  ghost function Gap(topo: Topology, s: Net): int
    requires NetShaped(topo, s)
  {
    Sum(Gaps(topo, s))
  }

  ghost function Total(topo: Topology, s: Net): int
    requires NetShaped(topo, s)
  {
    Sum(Totals(topo, s))
  }

  lemma NonNegative(topo: Topology, s: Net)
    requires Inv(topo, s)
    ensures 0 <= Gap(topo, s) && 0 <= Total(topo, s)
  {
    forall k | 0 <= k < topo.n
      ensures 0 <= Gaps(topo, s)[k] && 0 <= Totals(topo, s)[k]
    {
      var u := k + 1;
      assert RouterOk(topo, s, u) && Settled(topo.n, TableOf(s, u));
      assert LegalRow(topo.n, TableOf(s, u).d[u]);
      SumNonNegative(TableOf(s, u).d[u][1..topo.n + 1]);
    }
    SumNonNegative(Gaps(topo, s));
    SumNonNegative(Totals(topo, s));
  }

  /** Links to learn, then version gaps, then distances, then vectors in flight: `s'` is below `s`. */
  ghost predicate Below(topo: Topology, s': Net, s: Net)
    requires NetShaped(topo, s) && NetShaped(topo, s')
  {
    var a, b := |Unlearned(topo, s')|, |Unlearned(topo, s)|;
    || a < b
    || (a == b && Gap(topo, s') < Gap(topo, s))
    || (a == b && Gap(topo, s') == Gap(topo, s) && Total(topo, s') < Total(topo, s))
    || (a == b && Gap(topo, s') == Gap(topo, s) && Total(topo, s') == Total(topo, s) && |s'.wires| < |s.wires|)
  }

  // ---------- One delivery ----------

  /** What one table does when a vector arrives. */
  lemma HearEffect(n: nat, t: Table, x: nat, row: Row, version: nat)
    requires Settled(n, t) && 1 <= x <= n && x != t.me && LegalRow(n, row)
    ensures var (t', changed) := UpdateFrom(n, t, x, row, version);
      && (version > t.version ==> t'.version == version)
      && (version <= t.version ==>
            && t'.version == t.version
            && (forall i :: 0 <= i < MAXN ==> t'.d[t.me][i] <= t.d[t.me][i])
            && (changed <==> exists i :: 1 <= i <= n && t'.d[t.me][i] < t.d[t.me][i])
            && (!changed ==> t'.d[t.me] == t.d[t.me]))
  {
    if version == t.version {
      StoreSettles(n, t, x, row, version);
      var t1 := t.(d := t.d[x := row]);
      var t' := Update(n, t1, x).0;
      assert t1.d[t.me] == t.d[t.me];
      if t'.d[t.me] != t.d[t.me] {
        var i :| 0 <= i < MAXN && t'.d[t.me][i] != t.d[t.me][i];
        assert 1 <= i <= n;
      }
    }
  }

  /** What a delivery does to the tables: the receiver first sets the cost of the link, then takes the vector. */
  lemma DeliverTables(topo: Topology, s: Net, w: Wire) returns (t1: Table)
    requires NetShaped(topo, s) && w in s.wires
    ensures WireShaped(topo, w) && Shaped(topo.n, t1) && NetShaped(topo, Deliver(topo, s, w))
    ensures var u, x, n := w.link.dst, w.link.src, topo.n;
      var s', t := Deliver(topo, s, w), TableOf(s, w.link.dst);
      var cost, up := UpdateCost(n, t, s.newest, x, PortValue(s.routers[u], w.link.port)),
                      UpdateFrom(n, t1, x, w.row, w.version);
      && t1 == cost.0 && t1.me == u && s'.newest == cost.1
      && TableOf(s', u) == up.0 && s'.routers[u].portLen == s.routers[u].portLen
      && (forall v :: 1 <= v <= n && v != u ==> s'.routers[v] == s.routers[v])
      && s'.wires == s.wires - multiset{w} +
                     if up.1 || cost.2 != Same then Broadcast(topo, up.0) else multiset{}
  {
    DeliverShaped(topo, s, w);
    t1 := UpdateCost(topo.n, TableOf(s, w.link.dst), s.newest, w.link.src,
                     PortValue(s.routers[w.link.dst], w.link.port)).0;
  }

  /** The link the vector came over is learned, and nothing is forgotten. */
  lemma DeliverLearns(topo: Topology, s: Net, w: Wire)
    requires NetShaped(topo, s) && w in s.wires && OneLinkPerPair(topo)
    ensures NetShaped(topo, Deliver(topo, s, w))
    ensures Unlearned(topo, Deliver(topo, s, w)) == Unlearned(topo, s) - {w.link}
  {
    var t1 := DeliverTables(topo, s, w);
    var l := w.link;
    var s' := Deliver(topo, s, w);
    var value := PortValue(s.routers[l.dst], l.port);
    CostsTouched(topo.n, TableOf(s, l.dst), s.newest, l.src, value, w.row, w.version);
    CostsTouched(topo.n, t1, s.newest, l.src, value, w.row, w.version);
    forall m | m in topo.links
      ensures PortCost(s', m) == PortCost(s, m)
      ensures m == l ==> TableOf(s', m.dst).c[m.src] == PortCost(s', m)
      ensures m != l ==> TableOf(s', m.dst).c[m.src] == TableOf(s, m.dst).c[m.src]
    {}
  }

  /** With one table replaced, the sums change as its version and its distances do. */
  lemma GapFollows(topo: Topology, s: Net, s': Net, u: nat)
    requires NetShaped(topo, s) && NetShaped(topo, s') && 1 <= u <= topo.n && s'.newest == s.newest
    requires forall v :: 1 <= v <= topo.n && v != u ==> s'.routers[v] == s.routers[v]
    ensures TableOf(s', u).version > TableOf(s, u).version ==> Gap(topo, s') < Gap(topo, s)
    ensures TableOf(s', u).version == TableOf(s, u).version ==> Gap(topo, s') == Gap(topo, s)
  {
    var g, g' := Gaps(topo, s), Gaps(topo, s');
    forall k | 0 <= k < topo.n && k != u - 1
      ensures g'[k] == g[k]
    {
      assert s'.routers[k + 1] == s.routers[k + 1];
    }
    if TableOf(s', u).version > TableOf(s, u).version {
      assert g'[u - 1] < g[u - 1];
      SumMonotone(g', g);
    } else if TableOf(s', u).version == TableOf(s, u).version {
      assert g' == g;
    }
  }

  lemma TotalSame(topo: Topology, s: Net, s': Net)
    requires NetShaped(topo, s) && NetShaped(topo, s')
    requires forall v :: 1 <= v <= topo.n ==> TableOf(s', v).d[v] == TableOf(s, v).d[v]
    ensures Total(topo, s') == Total(topo, s)
  {
    var z, z' := Totals(topo, s), Totals(topo, s');
    forall k | 0 <= k < topo.n
      ensures z'[k] == z[k]
    {
      assert TableOf(s', k + 1).d[k + 1] == TableOf(s, k + 1).d[k + 1];
    }
    assert z' == z;
  }

  lemma TotalDrops(topo: Topology, s: Net, s': Net, u: nat, i: nat)
    requires NetShaped(topo, s) && NetShaped(topo, s') && 1 <= u <= topo.n && 1 <= i <= topo.n
    requires forall v :: 1 <= v <= topo.n && v != u ==> TableOf(s', v).d[v] == TableOf(s, v).d[v]
    requires forall j :: 0 <= j < MAXN ==> TableOf(s', u).d[u][j] <= TableOf(s, u).d[u][j]
    requires TableOf(s', u).d[u][i] < TableOf(s, u).d[u][i]
    ensures Total(topo, s') < Total(topo, s)
  {
    var z, z' := Totals(topo, s), Totals(topo, s');
    forall k | 0 <= k < topo.n && k != u - 1
      ensures z'[k] == z[k]
    {
      assert TableOf(s', k + 1).d[k + 1] == TableOf(s, k + 1).d[k + 1];
    }
    var a, b := TableOf(s', u).d[u][1..topo.n + 1], TableOf(s, u).d[u][1..topo.n + 1];
    assert a[i - 1] < b[i - 1];
    SumMonotone(a, b);
    assert z'[u - 1] < z[u - 1];
    SumMonotone(z', z);
  }

  /** With the cost of its link known, a vector moves its receiver up to its version or lowers distances, or goes
      without leading to a broadcast. */
  lemma DeliverLowers(topo: Topology, s: Net, w: Wire)
    requires NetShaped(topo, s) && w in s.wires && w.link !in Unlearned(topo, s)
    requires Settled(topo.n, TableOf(s, w.link.dst)) && LegalRow(topo.n, w.row)
    requires NetShaped(topo, Deliver(topo, s, w))
    ensures var s' := Deliver(topo, s, w);
      || Gap(topo, s') < Gap(topo, s)
      || (Gap(topo, s') == Gap(topo, s) && Total(topo, s') < Total(topo, s))
      || (Gap(topo, s') == Gap(topo, s) && Total(topo, s') == Total(topo, s) && |s'.wires| < |s.wires|)
  {
    var t1 := DeliverTables(topo, s, w);
    var n, u, x := topo.n, w.link.dst, w.link.src;
    var t := TableOf(s, u);
    assert t.c[x] == PortCost(s, w.link);
    assert t1 == t;
    HearEffect(n, t, x, w.row, w.version);
    var s' := Deliver(topo, s, w);
    GapFollows(topo, s, s', u);
    if TableOf(s', u).version == t.version {
      if TableOf(s', u).d[u] == t.d[u] {
        TotalSame(topo, s, s');
      } else if i :| 1 <= i <= n && TableOf(s', u).d[u][i] < t.d[u][i] {
        TotalDrops(topo, s, s', u, i);
      }
    }
  }

  /** A vector in flight is legal and finds a settled table. */
  lemma VectorArrives(topo: Topology, s: Net, w: Wire)
    requires Inv(topo, s) && w in s.wires
    ensures 1 <= w.link.dst <= topo.n && 1 <= w.link.src <= topo.n && w.link.dst != w.link.src
    ensures w.link in topo.links && w.version <= s.newest
    ensures Settled(topo.n, TableOf(s, w.link.dst)) && LegalRow(topo.n, w.row)
  {
    assert WireShaped(topo, w) && VectorOk(ViewOf(topo, s), w);
  }

  /** Every delivery lowers the measure. */
  lemma DeliverDescends(topo: Topology, s: Net, w: Wire)
    requires NetShaped(topo, s) && w in s.wires && OneLinkPerPair(topo)
    requires w.link in topo.links && Settled(topo.n, TableOf(s, w.link.dst)) && LegalRow(topo.n, w.row)
    ensures NetShaped(topo, Deliver(topo, s, w)) && Below(topo, Deliver(topo, s, w), s)
  {
    DeliverLearns(topo, s, w);
    if w.link in Unlearned(topo, s) {
      assert |Unlearned(topo, s) - {w.link}| < |Unlearned(topo, s)|;
    } else {
      assert Unlearned(topo, s) - {w.link} == Unlearned(topo, s);
      DeliverLowers(topo, s, w);
    }
  }

  lemma LossDescends(topo: Topology, s: Net, w: Wire)
    requires NetShaped(topo, s) && w in s.wires
    ensures Below(topo, Apply(topo, s, Lose(w)), s)
  {
    var s' := Apply(topo, s, Lose(w));
    assert Unlearned(topo, s') == Unlearned(topo, s);
    assert Gaps(topo, s') == Gaps(topo, s) && Totals(topo, s') == Totals(topo, s);
  }

  /** The network makes the next move: it delivers a vector in flight, or loses it. */
  ghost predicate Moves(topo: Topology, s: Net, s': Net)
    requires NetShaped(topo, s)
  {
    exists w :: w in s.wires && (s' == Apply(topo, s, Arrive(w)) || s' == Apply(topo, s, Lose(w)))
  }

  /** A move keeps the invariant and lowers the measure. */
  lemma MoveDescends(topo: Topology, s: Net, s': Net)
    requires OneLinkPerPair(topo) && Inv(topo, s) && Moves(topo, s, s')
    ensures Inv(topo, s') && Below(topo, s', s) && 0 <= Gap(topo, s) && 0 <= Total(topo, s)
  {
    var w :| w in s.wires && (s' == Apply(topo, s, Arrive(w)) || s' == Apply(topo, s, Lose(w)));
    NonNegative(topo, s);
    if s' == Apply(topo, s, Arrive(w)) {
      StepKeeps(topo, s, Arrive(w));
      VectorArrives(topo, s, w);
      DeliverDescends(topo, s, w);
    } else {
      StepKeeps(topo, s, Lose(w));
      LossDescends(topo, s, w);
    }
  }

  /** At moment `i` of the schedule, unless nothing is in flight, the network moves. */
  ghost predicate MovesAt(topo: Topology, run: nat -> Net, i: nat) {
    NetShaped(topo, run(i)) && run(i).wires != multiset{} ==> Moves(topo, run(i), run(i + 1))
  }

  type Rank = (nat, nat, nat, nat)

  predicate Less(a: Rank, b: Rank) {
    || a.0 < b.0
    || (a.0 == b.0 && a.1 < b.1)
    || (a.0 == b.0 && a.1 == b.1 && a.2 < b.2)
    || (a.0 == b.0 && a.1 == b.1 && a.2 == b.2 && a.3 < b.3)
  }

  ghost predicate Falls(rank: nat -> Rank, good: nat -> bool, stopped: nat -> bool, i: nat) {
    good(i) && !stopped(i) ==> good(i + 1) && Less(rank(i + 1), rank(i))
  }

  /** What falls at every moment until it stops does stop. */
  lemma {:induction false} Stops(rank: nat -> Rank, good: nat -> bool, stopped: nat -> bool, k: nat) returns (j: nat)
    requires good(k) && forall i: nat :: Falls(rank, good, stopped, i)
    ensures k <= j && good(j) && stopped(j)
    decreases rank(k).0, rank(k).1, rank(k).2, rank(k).3
  {
    if stopped(k) {
      j := k;
    } else {
      assert Falls(rank, good, stopped, k);
      j := Stops(rank, good, stopped, k + 1);
    }
  }

  ghost function RankOf(topo: Topology, s: Net): Rank {
    if Inv(topo, s) then
      NonNegative(topo, s);
      (|Unlearned(topo, s)|, Gap(topo, s), Total(topo, s), |s.wires|)
    else (0, 0, 0, 0)
  }

  /** In every infinite schedule of deliveries and losses there comes a moment with no vector left in flight. */
  lemma Quiesces(topo: Topology, run: nat -> Net, k: nat) returns (j: nat)
    requires OneLinkPerPair(topo) && Inv(topo, run(k))
    requires forall i: nat :: MovesAt(topo, run, i)
    ensures k <= j && Inv(topo, run(j)) && run(j).wires == multiset{}
  {
    ghost var rank := (i: nat) => RankOf(topo, run(i));
    ghost var good := (i: nat) => Inv(topo, run(i));
    ghost var stopped := (i: nat) => run(i).wires == multiset{};
    forall i: nat
      ensures Falls(rank, good, stopped, i)
    {
      if good(i) && !stopped(i) {
        RankFalls(topo, run, i);
      }
    }
    j := Stops(rank, good, stopped, k);
  }

  lemma RankFalls(topo: Topology, run: nat -> Net, i: nat)
    requires OneLinkPerPair(topo) && Inv(topo, run(i)) && run(i).wires != multiset{} && MovesAt(topo, run, i)
    ensures Inv(topo, run(i + 1)) && Less(RankOf(topo, run(i + 1)), RankOf(topo, run(i)))
  {
    MoveDescends(topo, run(i), run(i + 1));
  }
}
