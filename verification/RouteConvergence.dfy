/** Once the routers are told to send their vectors and no vector on a link that is up gets lost, the tables become
    exact in whatever order the vectors arrive. */
module RouteConvergence {
  import opened ShortestPaths
  import opened DistanceVector
  import opened RouterNetwork
  import opened RouteSafety
  import opened RouteTermination

  // ---------- One table ----------

  /** A router's whole reaction to a vector: set the cost of the link, then take the vector. */
  function React(n: nat, t: Table, newest: nat, x: nat, value: int, row: Row, version: nat): (r: (Table, bool))
    requires Shaped(n, t) && 1 <= x <= n && |row| == MAXN
    ensures Shaped(n, r.0)
  {
    var (t1, _, change) := UpdateCost(n, t, newest, x, value);
    var (t2, changed) := UpdateFrom(n, t1, x, row, version);
    (t2, changed || change != Same)
  }

  /** The version goes up or the distances go down; a change is broadcast; and the vector is taken into account
      unless it is outdated. */
  lemma ReactFacts(n: nat, t: Table, newest: nat, x: nat, value: int, row: Row, version: nat)
    requires Settled(n, t) && 1 <= x <= n && x != t.me && LegalRow(n, row)
    requires t.version <= newest && version <= newest && LegalValue(value) && CostOf(value) < INF
    ensures var (t', sends) := React(n, t, newest, x, value, row, version);
      && t'.me == t.me && t'.c == t.c[x := CostOf(value)] && t'.version >= t.version
      && (t'.version == t.version ==> forall i :: 1 <= i <= n ==> t'.d[t.me][i] <= t.d[t.me][i])
      && (!sends ==> t'.version == t.version && t'.d[t.me] == t.d[t.me])
      && t'.version >= version
      && (t'.version == version ==> forall i :: 1 <= i <= n ==> t'.d[t.me][i] <= t'.c[x] + row[i])
  {
    var t1 := UpdateCost(n, t, newest, x, value).0;
    UpdateCostSettles(n, t, newest, x, value);
    UpdateFromSettles(n, t1, x, row, version);
    CostsTouched(n, t, newest, x, value, row, version);
    CostsTouched(n, t1, newest, x, value, row, version);
    HearEffect(n, t1, x, row, version);
    CostLowers(n, t, newest, x, value);
    TakenIn(n, t1, x, row, version);
    if version > t1.version {
      ResetSpreads(n, t1, x, row, version);
    }
  }

  lemma CostLowers(n: nat, t: Table, newest: nat, x: nat, value: int)
    requires Settled(n, t) && 1 <= x <= n && x != t.me && t.version <= newest && LegalValue(value)
    ensures var (t1, _, change) := UpdateCost(n, t, newest, x, value);
      && t1.me == t.me && t1.version >= t.version
      && (change.Same? ==> t1 == t)
      && (t1.version == t.version ==> forall i :: 1 <= i <= n ==> t1.d[t.me][i] <= t.d[t.me][i])
  {
    if t.c[x] > CostOf(value) {
      UpdateSettlesLower(n, t, x, CostOf(value));
    }
  }

  lemma TakenIn(n: nat, t: Table, x: nat, row: Row, version: nat)
    requires Settled(n, t) && 1 <= x <= n && x != t.me && LegalRow(n, row)
    ensures var t' := UpdateFrom(n, t, x, row, version).0;
      && t'.version >= version && t'.version >= t.version
      && (t'.version == version ==> forall i :: 1 <= i <= n ==> t'.d[t.me][i] <= t'.c[x] + row[i])
  {
    if version >= t.version {
      var t' := UpdateFrom(n, t, x, row, version).0;
      UpdateFromSettles(n, t, x, row, version);
      StoreSettles(n, t, x, row, version);
      assert RelaxedVia(n, t', x) && t'.d[x] == row;
    }
  }

  /** After a reset the link the vector came over, being up, brings a new distance at once. */
  lemma ResetSpreads(n: nat, t: Table, x: nat, row: Row, version: nat)
    requires Settled(n, t) && 1 <= x <= n && x != t.me && LegalRow(n, row) && version > t.version && t.c[x] < INF
    ensures UpdateFrom(n, t, x, row, version).1
  {
    var t' := UpdateFrom(n, t, x, row, version).0;
    UpdateFromSettles(n, t, x, row, version);
    assert t'.d[t.me][x] <= t'.c[x];
    CostsTouched(n, t, 0, x, 1, row, version);
    var t0 := Reset(t).(version := version);
    var t1 := t0.(d := t0.d[x := row]);
    assert t1.d[t.me][x] == INF;
  }

  // ---------- The network while the ports are left alone ----------

  ghost predicate Up(s: Net, l: Link)
    requires l.dst < |s.routers|
  {
    PortCost(s, l) < INF
  }

  /** Vectors on links that are up arrive; vectors on links that are down do not. */
  ghost predicate Exchanges(topo: Topology, s: Net, s': Net)
    requires NetShaped(topo, s)
  {
    exists w :: w in s.wires && WireShaped(topo, w) &&
                s' == if Up(s, w.link) then Apply(topo, s, Arrive(w)) else Apply(topo, s, Lose(w))
  }

  /** What `l.src` would send over the link now. */
  function CurrentVector(s: Net, l: Link): Wire
    requires l.src < |s.routers| && l.src < |TableOf(s, l.src).d|
  {
    Wire(l, TableOf(s, l.src).version, TableOf(s, l.src).d[l.src])
  }

  /** The receiver is ahead of the sender, or knows the cost of the link and can gain nothing from the sender. */
  ghost predicate Absorbed(topo: Topology, s: Net, l: Link)
    requires NetShaped(topo, s) && l in topo.links
  {
    var t, sent := TableOf(s, l.dst), TableOf(s, l.src);
    || t.version > sent.version
    || (t.version == sent.version && t.c[l.src] == PortCost(s, l)
        && forall i :: 1 <= i <= topo.n ==> t.d[l.dst][i] <= t.c[l.src] + sent.d[l.src][i])
  }

  ghost predicate Heard(topo: Topology, s: Net, l: Link)
    requires NetShaped(topo, s) && l in topo.links
  {
    CurrentVector(s, l) in s.wires || Absorbed(topo, s, l)
  }

  ghost predicate AllHeard(topo: Topology, s: Net)
    requires NetShaped(topo, s)
  {
    forall l {:trigger Heard(topo, s, l)} :: l in topo.links && Up(s, l) ==> Heard(topo, s, l)
  }

  lemma ArriveIsReact(topo: Topology, s: Net, w: Wire)
    requires NetShaped(topo, s) && w in s.wires
    ensures WireShaped(topo, w) && NetShaped(topo, Deliver(topo, s, w))
    ensures var u, s' := w.link.dst, Deliver(topo, s, w);
      var (t, sends) := React(topo.n, TableOf(s, u), s.newest, w.link.src,
                              PortValue(s.routers[u], w.link.port), w.row, w.version);
      && TableOf(s', u) == t && s'.routers[u].portLen == s.routers[u].portLen
      && (forall v :: 1 <= v <= topo.n && v != u ==> s'.routers[v] == s.routers[v])
      && s'.wires == s.wires - multiset{w} + if sends then Broadcast(topo, t) else multiset{}
  {
    var t1 := DeliverTables(topo, s, w);
  }

  lemma BroadcastHas(topo: Topology, t: Table, l: Link)
    requires t.me < |t.d| && l in topo.links && l.src == t.me
    ensures Wire(l, t.version, t.d[t.me]) in Broadcast(topo, t)
  {}

  /** What a delivery leaves of `Heard`, link by link: links from the receiver, links to it, the others. */
  lemma ArriveHeardFrom(topo: Topology, s: Net, w: Wire, l: Link)
    requires NetShaped(topo, s) && w in s.wires && l in topo.links && Heard(topo, s, l)
    requires w.link in topo.links && Up(s, w.link) && LegalRow(topo.n, w.row) && l.src == w.link.dst
    requires Settled(topo.n, TableOf(s, w.link.dst))
    requires TableOf(s, w.link.dst).version <= s.newest && w.version <= s.newest
    ensures NetShaped(topo, Deliver(topo, s, w)) && Heard(topo, Deliver(topo, s, w), l)
  {
    var u, s' := w.link.dst, Deliver(topo, s, w);
    ArriveIsReact(topo, s, w);
    ReactFacts(topo.n, TableOf(s, u), s.newest, w.link.src, PortValue(s.routers[u], w.link.port), w.row, w.version);
    BroadcastHas(topo, TableOf(s', u), l);
    var now := CurrentVector(s, l);
    assert now in s.wires && now != w ==> now in s.wires - multiset{w};
  }

  lemma ArriveHeardTo(topo: Topology, s: Net, w: Wire, l: Link)
    requires NetShaped(topo, s) && w in s.wires && OneLinkPerPair(topo) && l in topo.links && Heard(topo, s, l)
    requires w.link in topo.links && Up(s, w.link) && LegalRow(topo.n, w.row) && l.dst == w.link.dst
    requires Settled(topo.n, TableOf(s, w.link.dst))
    requires TableOf(s, w.link.dst).version <= s.newest && w.version <= s.newest
    ensures NetShaped(topo, Deliver(topo, s, w)) && Heard(topo, Deliver(topo, s, w), l)
  {
    var u, x, s' := w.link.dst, w.link.src, Deliver(topo, s, w);
    ArriveIsReact(topo, s, w);
    ReactFacts(topo.n, TableOf(s, u), s.newest, x, PortValue(s.routers[u], w.link.port), w.row, w.version);
    var now := CurrentVector(s, l);
    assert CurrentVector(s', l) == now;
    if now in s.wires {
      if now == w {
        assert Absorbed(topo, s', l);
      } else {
        assert now in s.wires - multiset{w};
      }
    } else {
      assert l.src == x ==> l == w.link;
      assert Absorbed(topo, s', l);
    }
  }

  lemma ArriveHeard(topo: Topology, s: Net, w: Wire, l: Link)
    requires NetShaped(topo, s) && w in s.wires && OneLinkPerPair(topo) && l in topo.links && Heard(topo, s, l)
    requires w.link in topo.links && Up(s, w.link) && LegalRow(topo.n, w.row)
    requires Settled(topo.n, TableOf(s, w.link.dst))
    requires TableOf(s, w.link.dst).version <= s.newest && w.version <= s.newest
    ensures NetShaped(topo, Deliver(topo, s, w)) && Heard(topo, Deliver(topo, s, w), l)
  {
    if l.src == w.link.dst {
      ArriveHeardFrom(topo, s, w, l);
    } else if l.dst == w.link.dst {
      ArriveHeardTo(topo, s, w, l);
    } else {
      ArriveIsReact(topo, s, w);
      var now := CurrentVector(s, l);
      assert now in s.wires && now != w ==> now in s.wires - multiset{w};
    }
  }

  // ---------- What every run keeps beside the tables ----------

  /** The cost a router has for a link is the one set for its port if it knows the router behind the port, and else
      that of a link that is down. */
  ghost predicate AccurateAt(s: Net, l: Link)
    requires l.dst < |s.routers| && l.src < |TableOf(s, l.dst).c|
  {
    var r := s.routers[l.dst];
    r.dv.c[l.src] == if l.port in r.portPeer then PortCost(s, l) else INF
  }

  ghost predicate Accurate(topo: Topology, s: Net)
    requires NetShaped(topo, s)
  {
    forall l :: l in topo.links ==> AccurateAt(s, l)
  }

  ghost predicate NewestHeld(topo: Topology, s: Net)
    requires NetShaped(topo, s)
  {
    exists u :: 1 <= u <= topo.n && TableOf(s, u).version == s.newest
  }

  ghost predicate Sane(topo: Topology, s: Net) {
    Inv(topo, s) && Accurate(topo, s) && NewestHeld(topo, s)
  }

  lemma ArriveAccurate(topo: Topology, s: Net, w: Wire)
    requires NetShaped(topo, s) && w in s.wires && OneLinkPerPair(topo) && Accurate(topo, s)
    ensures NetShaped(topo, Deliver(topo, s, w)) && Accurate(topo, Deliver(topo, s, w))
  {
    DeliverShaped(topo, s, w);
    var k, s' := w.link, Deliver(topo, s, w);
    var r := s.routers[k.dst];
    var value := PortValue(r, k.port);
    var t1 := UpdateCost(topo.n, r.dv, s.newest, k.src, value).0;
    CostsTouched(topo.n, r.dv, s.newest, k.src, value, w.row, w.version);
    CostsTouched(topo.n, t1, s.newest, k.src, value, w.row, w.version);
    assert s'.routers[k.dst].dv.c == r.dv.c[k.src := CostOf(value)];
    forall l | l in topo.links
      ensures AccurateAt(s', l)
    {
      assert AccurateAt(s, l);
      if l.dst == k.dst && l != k {
        assert l.src != k.src && l.port != k.port;
      }
    }
  }

  lemma ChangeAccurate(topo: Topology, s: Net, u: nat, port: int, value: int)
    requires NetShaped(topo, s) && 1 <= u <= topo.n && LegalValue(value) && Accurate(topo, s)
    requires OneLinkPerPair(topo) && LegalPorts(topo, u, s.routers[u])
    ensures NetShaped(topo, SetPort(topo, s, u, port, value)) && Accurate(topo, SetPort(topo, s, u, port, value))
  {
    SetPortShaped(topo, s, u, port, value);
    var r, s' := s.routers[u], SetPort(topo, s, u, port, value);
    if port in r.portPeer {
      var x := r.portPeer[port];
      assert Link(x, u, port) in topo.links;
      CostsTouched(topo.n, r.dv, s.newest, x, value, r.dv.c, 0);
    }
    forall l | l in topo.links
      ensures AccurateAt(s', l)
    {
      assert AccurateAt(s, l);
      if l.dst == u && l.port == port && port in r.portPeer {
        assert l == Link(r.portPeer[port], u, port);
      }
    }
  }

  lemma ReactVersion(n: nat, t: Table, newest: nat, x: nat, value: int, row: Row, version: nat)
    requires Shaped(n, t) && 1 <= x <= n && |row| == MAXN && t.version <= newest && version <= newest
    ensures var (t1, top, _) := UpdateCost(n, t, newest, x, value);
      var t2 := UpdateFrom(n, t1, x, row, version).0;
      && (top == newest || (top == newest + 1 && t1.version == top && t2.version == top))
      && t.version <= t1.version <= t2.version
  {}

  /** Every event keeps it, ports changing or not. */
  lemma SaneKeeps(topo: Topology, s: Net, e: Event)
    requires OneLinkPerPair(topo) && Sane(topo, s) && Enabled(topo, s, e)
    ensures Sane(topo, Apply(topo, s, e))
  {
    StepKeeps(topo, s, e);
    var u :| 1 <= u <= topo.n && TableOf(s, u).version == s.newest;
    match e
    case Arrive(w) =>
      ArriveAccurate(topo, s, w);
      ArriveHeld(topo, s, w, u);
    case Change(v, port, value) =>
      assert LegalPorts(topo, v, s.routers[v]);
      ChangeAccurate(topo, s, v, port, value);
      ChangeHeld(topo, s, v, port, value, u);
    case _ => SameRouters(topo, s, Apply(topo, s, e), u);
  }

  lemma SameRouters(topo: Topology, s: Net, s': Net, u: nat)
    requires NetShaped(topo, s) && NetShaped(topo, s') && Accurate(topo, s)
    requires s'.routers == s.routers && s'.newest == s.newest
    requires 1 <= u <= topo.n && TableOf(s, u).version == s.newest
    ensures Accurate(topo, s') && NewestHeld(topo, s')
  {
    forall l | l in topo.links
      ensures AccurateAt(s', l)
    {
      assert AccurateAt(s, l);
    }
    assert TableOf(s', u).version == s'.newest;
  }

  lemma ArriveHeld(topo: Topology, s: Net, w: Wire, u: nat)
    requires Inv(topo, s) && w in s.wires && 1 <= u <= topo.n && TableOf(s, u).version == s.newest
    requires Inv(topo, Deliver(topo, s, w))
    ensures NewestHeld(topo, Deliver(topo, s, w))
  {
    VectorArrives(topo, s, w);
    var v, s' := w.link.dst, Deliver(topo, s, w);
    var t1 := DeliverTables(topo, s, w);
    assert RouterOk(topo, s, v) && RouterOk(topo, s', u);
    ReactVersion(topo.n, TableOf(s, v), s.newest, w.link.src, PortValue(s.routers[v], w.link.port), w.row, w.version);
    if s'.newest == s.newest {
      assert TableOf(s', u).version == s'.newest;
    } else {
      assert TableOf(s', v).version == s'.newest;
    }
  }

  lemma ChangeHeld(topo: Topology, s: Net, v: nat, port: int, value: int, u: nat)
    requires Inv(topo, s) && 1 <= v <= topo.n && LegalValue(value)
    requires 1 <= u <= topo.n && TableOf(s, u).version == s.newest && LegalPorts(topo, v, s.routers[v])
    requires Inv(topo, SetPort(topo, s, v, port, value))
    ensures NewestHeld(topo, SetPort(topo, s, v, port, value))
  {
    var r, s' := s.routers[v], SetPort(topo, s, v, port, value);
    assert RouterOk(topo, s, v);
    if port in r.portPeer {
      assert Link(r.portPeer[port], v, port) in topo.links;
      ReactVersion(topo.n, r.dv, s.newest, r.portPeer[port], value, r.dv.c, 0);
    }
    if s'.newest == s.newest {
      assert RouterOk(topo, s', u);
      assert TableOf(s', u).version == s'.newest;
    } else {
      assert TableOf(s', v).version == s'.newest;
    }
  }

  lemma {:induction false} RunSane(topo: Topology, s: Net, es: seq<Event>)
    requires OneLinkPerPair(topo) && Sane(topo, s) && Valid(topo, s, es)
    ensures Sane(topo, After(topo, s, es))
    decreases |es|
  {
    if es != [] {
      SaneKeeps(topo, s, es[0]);
      RunSane(topo, Apply(topo, s, es[0]), es[1..]);
    }
  }

  lemma InitSane(topo: Topology, s: Net)
    requires InitNet(topo, s)
    ensures Sane(topo, s)
  {
    InitOk(topo, s);
    assert TableOf(s, 1).version == s.newest;
    forall l | l in topo.links
      ensures AccurateAt(s, l)
    {
      assert s.routers[l.dst].dv == Init(l.dst);
    }
  }

  // ---------- The exchange ----------

  /** `m` is the link the other way, and is up if and only if `l` is. */
  ghost predicate Reverse(s: Net, l: Link, m: Link)
    requires l.dst < |s.routers| && m.dst < |s.routers|
  {
    m.src == l.dst && m.dst == l.src && (Up(s, l) <==> Up(s, m))
  }

  ghost predicate HasReverse(topo: Topology, s: Net, l: Link)
    requires NetShaped(topo, s) && l in topo.links
  {
    exists m :: m in topo.links && Reverse(s, l, m)
  }

  /** A link one way comes with the link the other way, and both ends are up or neither is. */
  ghost predicate TwoWay(topo: Topology, s: Net)
    requires NetShaped(topo, s)
  {
    forall l {:trigger HasReverse(topo, s, l)} :: l in topo.links ==> HasReverse(topo, s, l)
  }

  /** Routers k..n are told to send their vectors. */
  ghost function Triggered(topo: Topology, s: Net, k: nat): (s': Net)
    requires NetShaped(topo, s) && 1 <= k <= topo.n + 1
    ensures NetShaped(topo, s') && s'.routers == s.routers && s'.newest == s.newest
    ensures s.wires <= s'.wires
    decreases topo.n + 1 - k
  {
    if k > topo.n then s else Triggered(topo, Apply(topo, s, Trigger(k)), k + 1)
  }

  lemma {:induction false} TriggeredIsRun(topo: Topology, s: Net, k: nat) returns (es: seq<Event>)
    requires NetShaped(topo, s) && 1 <= k <= topo.n + 1
    ensures Valid(topo, s, es) && After(topo, s, es) == Triggered(topo, s, k)
    decreases topo.n + 1 - k
  {
    es := [];
    if k <= topo.n {
      var fs := TriggeredIsRun(topo, Apply(topo, s, Trigger(k)), k + 1);
      es := [Trigger(k)] + fs;
      assert es[1..] == fs;
    }
  }

  lemma {:induction false} TriggeredOffers(topo: Topology, s: Net, k: nat, l: Link)
    requires NetShaped(topo, s) && l in topo.links && 1 <= k <= l.src
    ensures CurrentVector(s, l) in Triggered(topo, s, k).wires
    decreases topo.n + 1 - k
  {
    assert l.src <= topo.n;
    var s1 := Apply(topo, s, Trigger(k));
    assert CurrentVector(s1, l) == CurrentVector(s, l);
    if k < l.src {
      TriggeredOffers(topo, s1, k + 1, l);
    } else {
      BroadcastHas(topo, TableOf(s, k), l);
      assert CurrentVector(s, l) in s1.wires && s1.wires <= Triggered(topo, s1, k + 1).wires;
    }
  }

  ghost predicate Exchanging(topo: Topology, s: Net) {
    Sane(topo, s) && TwoWay(topo, s) && AllHeard(topo, s)
  }

  lemma SamePorts(topo: Topology, s: Net, s': Net)
    requires NetShaped(topo, s) && NetShaped(topo, s')
    requires forall u :: 1 <= u <= topo.n ==> s'.routers[u].portLen == s.routers[u].portLen
    ensures forall l :: l in topo.links ==> PortCost(s', l) == PortCost(s, l)
    ensures TwoWay(topo, s) ==> TwoWay(topo, s')
  {
    forall l | l in topo.links
      ensures PortCost(s', l) == PortCost(s, l)
    {
      assert s'.routers[l.dst].portLen == s.routers[l.dst].portLen;
    }
    if TwoWay(topo, s) {
      forall l | l in topo.links
        ensures HasReverse(topo, s', l)
      {
        assert HasReverse(topo, s, l);
        var m :| m in topo.links && Reverse(s, l, m);
        assert Reverse(s', l, m);
      }
    }
  }

  lemma ArriveAllHeard(topo: Topology, s: Net, w: Wire)
    requires OneLinkPerPair(topo) && Exchanging(topo, s) && w in s.wires && WireShaped(topo, w) && Up(s, w.link)
    ensures TwoWay(topo, Apply(topo, s, Arrive(w))) && AllHeard(topo, Apply(topo, s, Arrive(w)))
  {
    var s' := Apply(topo, s, Arrive(w));
    VectorArrives(topo, s, w);
    ArriveIsReact(topo, s, w);
    assert RouterOk(topo, s, w.link.dst);
    SamePorts(topo, s, s');
    forall l | l in topo.links && Up(s', l)
      ensures Heard(topo, s', l)
    {
      assert Up(s, l);
      ArriveHeard(topo, s, w, l);
    }
  }

  lemma LoseAllHeard(topo: Topology, s: Net, w: Wire)
    requires NetShaped(topo, s) && TwoWay(topo, s) && AllHeard(topo, s)
    requires w in s.wires && WireShaped(topo, w) && !Up(s, w.link)
    ensures TwoWay(topo, Apply(topo, s, Lose(w))) && AllHeard(topo, Apply(topo, s, Lose(w)))
  {
    var s' := Apply(topo, s, Lose(w));
    SamePorts(topo, s, s');
    forall l | l in topo.links && Up(s', l)
      ensures Heard(topo, s', l)
    {
      assert Up(s, l) && Heard(topo, s, l);
      LoseHeard(topo, s, w, l);
    }
  }

  lemma LoseHeard(topo: Topology, s: Net, w: Wire, l: Link)
    requires NetShaped(topo, s) && w in s.wires && l in topo.links && Heard(topo, s, l) && w.link != l
    ensures Heard(topo, Apply(topo, s, Lose(w)), l)
  {
    var s' := Apply(topo, s, Lose(w));
    assert CurrentVector(s, l) != w && CurrentVector(s', l) == CurrentVector(s, l);
    assert PortCost(s', l) == PortCost(s, l);
  }

  lemma ExchangeKeeps(topo: Topology, s: Net, s': Net)
    requires OneLinkPerPair(topo) && Exchanging(topo, s) && Exchanges(topo, s, s')
    ensures Exchanging(topo, s')
  {
    var w :| w in s.wires && WireShaped(topo, w) &&
             s' == if Up(s, w.link) then Apply(topo, s, Arrive(w)) else Apply(topo, s, Lose(w));
    if Up(s, w.link) {
      SaneKeeps(topo, s, Arrive(w));
      ArriveAllHeard(topo, s, w);
    } else {
      SaneKeeps(topo, s, Lose(w));
      LoseAllHeard(topo, s, w);
    }
  }

  // ---------- Exactness ----------

  /** The graph the operator has set up: the link from `u` to `v` costs what the port of `u` towards `v` is set to. */
  ghost function PortGraph(topo: Topology, s: Net): (g: Graph)
    requires NetShaped(topo, s)
    ensures IsGraph(g, topo.n)
  {
    seq(topo.n + 1, u requires 0 <= u => seq(topo.n + 1, v requires 0 <= v => PortEntry(topo, s, u, v)))
  }

  ghost function PortEntry(topo: Topology, s: Net, u: nat, v: nat): (x: int)
    requires NetShaped(topo, s)
    ensures 0 <= x <= INF
  {
    if u == v then 0
    else if l :| l in topo.links && l.dst == u && l.src == v then
      assert LegalPorts(topo, u, s.routers[u]);
      PortCost(s, l)
    else INF
  }

  lemma PortGraphAt(topo: Topology, s: Net, l: Link)
    requires NetShaped(topo, s) && OneLinkPerPair(topo) && l in topo.links
    ensures PortGraph(topo, s)[l.dst][l.src] == PortCost(s, l)
  {
    assert PortEntry(topo, s, l.dst, l.src) == PortCost(s, l);
  }

  /** A cost a router knows for a neighbour is the one set for the port of the link between them. */
  lemma KnownLink(topo: Topology, s: Net, u: nat, v: nat) returns (l: Link)
    requires OneLinkPerPair(topo) && Sane(topo, s) && 1 <= u <= topo.n && 1 <= v <= topo.n && u != v
    requires TableOf(s, u).c[v] < INF
    ensures l in topo.links && l.dst == u && l.src == v && Up(s, l)
    ensures PortCost(s, l) == TableOf(s, u).c[v] == PortGraph(topo, s)[u][v]
  {
    assert LegalPorts(topo, u, s.routers[u]);
    l := Link(v, u, s.routers[u].peerPort[v]);
    assert AccurateAt(s, l);
    PortGraphAt(topo, s, l);
  }

  /** With nothing left in flight, the ends of a link that is up agree on the version, and the receiver can gain
      nothing from the sender. */
  lemma RestAcross(topo: Topology, s: Net, l: Link)
    requires NetShaped(topo, s) && TwoWay(topo, s) && AllHeard(topo, s)
    requires s.wires == multiset{} && l in topo.links && Up(s, l)
    ensures TableOf(s, l.dst).version == TableOf(s, l.src).version
    ensures forall i :: 1 <= i <= topo.n ==>
      TableOf(s, l.dst).d[l.dst][i] <= PortCost(s, l) + TableOf(s, l.src).d[l.src][i]
  {
    assert HasReverse(topo, s, l);
    var m :| m in topo.links && Reverse(s, l, m);
    assert Heard(topo, s, l) && Heard(topo, s, m);
  }

  /** Whatever a walk over the links that are up costs, the router at its start claims no more. */
  lemma {:induction false} WalkBounds(topo: Topology, s: Net, p: seq<nat>, u: nat, i: nat)
    requires OneLinkPerPair(topo) && Exchanging(topo, s) && s.wires == multiset{}
    requires Walk(PortGraph(topo, s), topo.n, p, u, i)
    ensures TableOf(s, i).version == TableOf(s, u).version
    ensures Remaining(topo, s, u, i) <= Cost(PortGraph(topo, s), topo.n, p)
  {
    var g := PortGraph(topo, s);
    assert Settled(topo.n, TableOf(s, u));
    if |p| > 1 {
      var v := p[1];
      WalkTail(g, topo.n, p, u, i);
      WalkBounds(topo, s, p[1..], v, i);
      if v != u {
        assert PortEntry(topo, s, u, v) < INF;
        var l :| l in topo.links && l.dst == u && l.src == v;
        PortGraphAt(topo, s, l);
        RestAcross(topo, s, l);
      }
    }
  }

  /** A finite distance is the cost of a real walk over the links that are up: the next hop is over such a link, so at
      the same version, and nearer. */
  lemma {:induction false} RestWithin(topo: Topology, s: Net, u: nat, i: nat)
    requires OneLinkPerPair(topo) && Exchanging(topo, s) && s.wires == multiset{}
    requires 1 <= u <= topo.n && 1 <= i <= topo.n && Remaining(topo, s, u, i) < INF
    ensures Within(PortGraph(topo, s), topo.n, u, i, Remaining(topo, s, u, i))
    decreases Remaining(topo, s, u, i)
  {
    var g := PortGraph(topo, s);
    HopCurrent(topo, s, u, i);
    StayWithin(g, topo.n, i);
    if u == i {
      assert Remaining(topo, s, u, i) == 0;
    } else {
      Hop(topo, s, u, i);
      var v := TableOf(s, u).next[i];
      HopCurrent(topo, s, v, i);
      var l := KnownLink(topo, s, u, v);
      if v == i {
        HopWithin(g, topo.n, u, i, i, 0);
        WithinMore(g, topo.n, u, i, g[u][i], Remaining(topo, s, u, i));
      } else {
        RestAcross(topo, s, l);
        RestWithin(topo, s, v, i);
        HopWithin(g, topo.n, u, v, i, Remaining(topo, s, v, i));
        WithinMore(g, topo.n, u, i, g[u][v] + Remaining(topo, s, v, i), Remaining(topo, s, u, i));
      }
    }
  }

  lemma RestDistance(topo: Topology, s: Net, u: nat, i: nat)
    requires OneLinkPerPair(topo) && Exchanging(topo, s) && s.wires == multiset{}
    requires 1 <= u <= topo.n && 1 <= i <= topo.n
    ensures Distance(PortGraph(topo, s), topo.n, u, i, Remaining(topo, s, u, i))
  {
    var g, x := PortGraph(topo, s), Remaining(topo, s, u, i);
    assert Settled(topo.n, TableOf(s, u));
    assert LegalRow(topo.n, TableOf(s, u).d[u]);
    if x < INF {
      RestWithin(topo, s, u, i);
    }
    forall p | Walk(g, topo.n, p, u, i)
      ensures x <= Cost(g, topo.n, p)
    {
      WalkBounds(topo, s, p, u, i);
    }
  }

  /** Every distance in every table is the exact one over the port values, whatever the versions; routers joined by
      links that are up are at the same version, and some router is at the newest. */
  ghost predicate Exact(topo: Topology, s: Net) {
    && NetShaped(topo, s) && Tables(topo, s) && NewestHeld(topo, s)
    && (forall u, i :: 1 <= u <= topo.n && 1 <= i <= topo.n ==>
          Distance(PortGraph(topo, s), topo.n, u, i, Remaining(topo, s, u, i)))
    && forall p, u, v :: Walk(PortGraph(topo, s), topo.n, p, u, v) ==> TableOf(s, u).version == TableOf(s, v).version
  }

  lemma RestIsExact(topo: Topology, s: Net)
    requires OneLinkPerPair(topo) && Exchanging(topo, s) && s.wires == multiset{}
    ensures Exact(topo, s)
  {
    forall u, i | 1 <= u <= topo.n && 1 <= i <= topo.n
      ensures Distance(PortGraph(topo, s), topo.n, u, i, Remaining(topo, s, u, i))
    {
      RestDistance(topo, s, u, i);
    }
    forall p, u, v | Walk(PortGraph(topo, s), topo.n, p, u, v)
      ensures TableOf(s, u).version == TableOf(s, v).version
    {
      WalkBounds(topo, s, p, u, v);
    }
  }

  // ---------- The theorem ----------

  ghost predicate ExchangesAt(topo: Topology, run: nat -> Net, i: nat) {
    NetShaped(topo, run(i)) && run(i).wires != multiset{} ==> Exchanges(topo, run(i), run(i + 1))
  }

  lemma ExchangeFalls(topo: Topology, run: nat -> Net, i: nat)
    requires OneLinkPerPair(topo) && Exchanging(topo, run(i)) && run(i).wires != multiset{}
    requires ExchangesAt(topo, run, i)
    ensures Exchanging(topo, run(i + 1)) && Less(RankOf(topo, run(i + 1)), RankOf(topo, run(i)))
  {
    ExchangeKeeps(topo, run(i), run(i + 1));
    assert Moves(topo, run(i), run(i + 1));
    MoveDescends(topo, run(i), run(i + 1));
  }

  /** After any run whatever, with one two-way link between any two neighbours: if all routers are told to send their
      vectors, the ports are left alone, and the vectors on links that are up arrive, in any order, those caused on
      the way included, then a moment comes with nothing in flight, and then every table is exact, also where links
      removed have left the network in parts. */
  lemma Converges(topo: Topology, s: Net, es: seq<Event>, run: nat -> Net) returns (j: nat)
    requires OneLinkPerPair(topo) && InitNet(topo, s) && NetShaped(topo, s) && Valid(topo, s, es)
    requires TwoWay(topo, After(topo, s, es))
    requires run(0) == Triggered(topo, After(topo, s, es), 1)
    requires forall i: nat :: ExchangesAt(topo, run, i)
    ensures run(j).wires == multiset{} && Exact(topo, run(j))
  {
    StartsExchanging(topo, s, es);
    ghost var rank := (i: nat) => RankOf(topo, run(i));
    ghost var good := (i: nat) => Exchanging(topo, run(i));
    ghost var stopped := (i: nat) => run(i).wires == multiset{};
    forall i: nat
      ensures Falls(rank, good, stopped, i)
    {
      if good(i) && !stopped(i) {
        ExchangeFalls(topo, run, i);
      }
    }
    j := Stops(rank, good, stopped, 0);
    RestIsExact(topo, run(j));
  }

  lemma StartsExchanging(topo: Topology, s: Net, es: seq<Event>)
    requires OneLinkPerPair(topo) && InitNet(topo, s) && NetShaped(topo, s) && Valid(topo, s, es)
    requires TwoWay(topo, After(topo, s, es))
    ensures Exchanging(topo, Triggered(topo, After(topo, s, es), 1))
  {
    InitSane(topo, s);
    RunSane(topo, s, es);
    var t := After(topo, s, es);
    var t' := Triggered(topo, t, 1);
    var fs := TriggeredIsRun(topo, t, 1);
    RunSane(topo, t, fs);
    SamePorts(topo, t, t');
    TriggeredHeard(topo, t);
  }

  lemma TriggeredHeard(topo: Topology, s: Net)
    requires NetShaped(topo, s)
    ensures AllHeard(topo, Triggered(topo, s, 1))
  {
    var s' := Triggered(topo, s, 1);
    forall l | l in topo.links && Up(s', l)
      ensures Heard(topo, s', l)
    {
      TriggeredOffers(topo, s, 1, l);
      assert CurrentVector(s', l) == CurrentVector(s, l);
    }
  }
}
