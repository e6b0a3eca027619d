/** What the routers know of their ports and links, told from the history of events alone: the values set, the vectors
    heard, and the links forgotten. */
module RoutePorts {
  import opened Common
  import opened ShortestPaths
  import opened DistanceVector
  import opened RouterNetwork
  import opened RouteSafety
  import opened RouteTermination
  import opened RouteConvergence

  // ---------- The history ----------

  predicate Sets(e: Event, u: nat, port: int) {
    e.Change? && e.router == u && e.port == port
  }

  predicate HearsOn(e: Event, u: nat, port: int) {
    e.Arrive? && e.wire.link.dst == u && e.wire.link.port == port
  }

  /** The value `port` of router `u` was last set to. */
  function LastValue(es: seq<Event>, u: nat, port: int): Option<int> {
    if es == [] then None
    else
      var n := |es| - 1;
      if Sets(es[n], u, port) then Some(es[n].value) else LastValue(es[..n], u, port)
  }

  /** The router last heard on `port` of router `u`, unless the port has been set to -1 since. */
  function Neighbour(es: seq<Event>, u: nat, port: int): Option<nat> {
    if es == [] then None
    else
      var n := |es| - 1;
      if HearsOn(es[n], u, port) then Some(es[n].wire.link.src)
      else if Sets(es[n], u, port) && es[n].value == -1 then None
      else Neighbour(es[..n], u, port)
  }

  /** The port on which router `u` last heard router `v`. */
  function LastPort(es: seq<Event>, u: nat, v: nat): Option<int> {
    if es == [] then None
    else
      var n := |es| - 1;
      if es[n].Arrive? && es[n].wire.link.dst == u && es[n].wire.link.src == v then Some(es[n].wire.link.port)
      else LastPort(es[..n], u, v)
  }

  /** What a port's value means for the link behind it. */
  function CostSet(value: Option<int>): int {
    if value.Some? && value.value != -1 then value.value else INF
  }

  function Get<K, V>(m: map<K, V>, k: K): Option<V> {
    if k in m then Some(m[k]) else None
  }

  // ---------- What routers know is the history ----------

  /** What one router knows of one port and of one neighbour. */
  ghost predicate KnowsHistory(r: Router, es: seq<Event>, u: nat, port: int, v: nat) {
    && Get(r.portLen, port) == LastValue(es, u, port)
    && Get(r.portPeer, port) == Neighbour(es, u, port)
    && Get(r.peerPort, v) == LastPort(es, u, v)
  }

  lemma ChangeSeen(topo: Topology, s: Net, e: Event, es: seq<Event>, u: nat, port: int, v: nat)
    requires NetShaped(topo, s) && Enabled(topo, s, e) && 1 <= u <= topo.n && e.Change?
    requires KnowsHistory(s.routers[u], es, u, port, v)
    ensures KnowsHistory(Apply(topo, s, e).routers[u], es + [e], u, port, v)
  {
    assert (es + [e])[..|es|] == es;
    SetPortShaped(topo, s, e.router, e.port, e.value);
  }

  lemma ArrivalSeen(topo: Topology, s: Net, e: Event, es: seq<Event>, u: nat, port: int, v: nat)
    requires NetShaped(topo, s) && Enabled(topo, s, e) && 1 <= u <= topo.n && e.Arrive?
    requires KnowsHistory(s.routers[u], es, u, port, v)
    ensures KnowsHistory(Apply(topo, s, e).routers[u], es + [e], u, port, v)
  {
    assert (es + [e])[..|es|] == es;
    DeliverShaped(topo, s, e.wire);
  }

  lemma EventSeen(topo: Topology, s: Net, e: Event, es: seq<Event>, u: nat, port: int, v: nat)
    requires NetShaped(topo, s) && Enabled(topo, s, e) && 1 <= u <= topo.n
    requires KnowsHistory(s.routers[u], es, u, port, v)
    ensures KnowsHistory(Apply(topo, s, e).routers[u], es + [e], u, port, v)
  {
    match e
    case Change(_, _, _) => ChangeSeen(topo, s, e, es, u, port, v);
    case Arrive(_) => ArrivalSeen(topo, s, e, es, u, port, v);
    case _ => assert (es + [e])[..|es|] == es;
  }

  lemma {:induction false} RunSeen(topo: Topology, s: Net, before: seq<Event>, es: seq<Event>,
                                   u: nat, port: int, v: nat)
    requires NetShaped(topo, s) && Valid(topo, s, es) && 1 <= u <= topo.n
    requires KnowsHistory(s.routers[u], before, u, port, v)
    ensures KnowsHistory(After(topo, s, es).routers[u], before + es, u, port, v)
    decreases |es|
  {
    if es == [] {
      assert before + es == before;
    } else {
      Regroup(before, es);
      EventSeen(topo, s, es[0], before, u, port, v);
      RunSeen(topo, Apply(topo, s, es[0]), before + [es[0]], es[1..], u, port, v);
    }
  }

  lemma Regroup(before: seq<Event>, es: seq<Event>)
    requires es != []
    ensures before + es == before + [es[0]] + es[1..]
  {}

  /** In every run each router has for each port the value last set, and the router last heard on it unless the port has
      been set to -1 since; and for each neighbour the port it was last heard on. */
  lemma PortsAreHistory(topo: Topology, s: Net, es: seq<Event>, u: nat, port: int, v: nat)
    requires InitNet(topo, s) && NetShaped(topo, s) && Valid(topo, s, es) && 1 <= u <= topo.n
    ensures KnowsHistory(After(topo, s, es).routers[u], es, u, port, v)
  {
    RunSeen(topo, s, [], es, u, port, v);
    assert [] + es == es;
  }

  // ---------- Costs come from ports ----------

  /** The cost `u` has for `v` is the value of a port at the end of a link from `v`, with `v` known behind it. */
  ghost predicate BackedAt(topo: Topology, r: Router, u: nat, v: nat)
    requires v < |r.dv.c|
  {
    exists p {:trigger r.portLen[p]} ::
      Link(v, u, p) in topo.links && p in r.portPeer && p in r.portLen && r.portLen[p] == r.dv.c[v]
  }

  ghost predicate Backed(topo: Topology, r: Router, u: nat)
    requires |r.dv.c| == MAXN && topo.n < MAXN
  {
    forall v {:trigger BackedAt(topo, r, u, v)} :: 1 <= v <= topo.n && v != u && r.dv.c[v] < INF ==>
      BackedAt(topo, r, u, v)
  }

  lemma HeardCost(topo: Topology, s: Net, w: Wire)
    requires NetShaped(topo, s) && w in s.wires
    ensures NetShaped(topo, Deliver(topo, s, w)) && WireShaped(topo, w)
    ensures var r, r' := s.routers[w.link.dst], Deliver(topo, s, w).routers[w.link.dst];
      && r'.dv.c == r.dv.c[w.link.src := PortCost(s, w.link)]
      && r'.portLen == r.portLen && r'.portPeer == r.portPeer[w.link.port := w.link.src]
  {
    var t1 := DeliverTables(topo, s, w);
    var value := PortValue(s.routers[w.link.dst], w.link.port);
    CostsTouched(topo.n, TableOf(s, w.link.dst), s.newest, w.link.src, value, w.row, w.version);
    CostsTouched(topo.n, t1, s.newest, w.link.src, value, w.row, w.version);
  }

  lemma ArriveBacked(topo: Topology, s: Net, w: Wire)
    requires NetShaped(topo, s) && w in s.wires && WireShaped(topo, w)
    requires Backed(topo, s.routers[w.link.dst], w.link.dst)
    ensures NetShaped(topo, Deliver(topo, s, w))
    ensures Backed(topo, Deliver(topo, s, w).routers[w.link.dst], w.link.dst)
  {
    var u := w.link.dst;
    HeardCost(topo, s, w);
    var r, r' := s.routers[u], Deliver(topo, s, w).routers[u];
    forall v | 1 <= v <= topo.n && v != u && r'.dv.c[v] < INF
      ensures BackedAt(topo, r', u, v)
    {
      if v == w.link.src {
        assert r'.portLen[w.link.port] == r'.dv.c[v];
      } else {
        assert BackedAt(topo, r, u, v);
        var p :| Link(v, u, p) in topo.links && p in r.portPeer && p in r.portLen && r.portLen[p] == r.dv.c[v];
        assert r'.portLen[p] == r'.dv.c[v];
      }
    }
  }

  lemma ChangeBacked(topo: Topology, s: Net, u: nat, port: int, value: int)
    requires NetShaped(topo, s) && 1 <= u <= topo.n && LegalValue(value) && Backed(topo, s.routers[u], u)
    ensures NetShaped(topo, Apply(topo, s, Change(u, port, value)))
    ensures Backed(topo, Apply(topo, s, Change(u, port, value)).routers[u], u)
  {
    SetPortShaped(topo, s, u, port, value);
    var r, r' := s.routers[u], Apply(topo, s, Change(u, port, value)).routers[u];
    if port in r.portPeer {
      CostsTouched(topo.n, r.dv, s.newest, r.portPeer[port], value, r.dv.c, 0);
    }
    forall v | 1 <= v <= topo.n && v != u && r'.dv.c[v] < INF
      ensures BackedAt(topo, r', u, v)
    {
      if port in r.portPeer && v == r.portPeer[port] {
        assert r'.portLen[port] == r'.dv.c[v];
      } else {
        assert BackedAt(topo, r, u, v);
        var p :| Link(v, u, p) in topo.links && p in r.portPeer && p in r.portLen && r.portLen[p] == r.dv.c[v];
        assert r'.portLen[p] == r'.dv.c[v];
      }
    }
  }

  ghost predicate AllBacked(topo: Topology, s: Net)
    requires NetShaped(topo, s)
  {
    forall u {:trigger s.routers[u]} :: 1 <= u <= topo.n ==> Backed(topo, s.routers[u], u)
  }

  lemma BackedKeeps(topo: Topology, s: Net, e: Event)
    requires NetShaped(topo, s) && Enabled(topo, s, e) && AllBacked(topo, s)
    ensures AllBacked(topo, Apply(topo, s, e))
  {
    match e
    case Arrive(w) =>
      HeardCost(topo, s, w);
      ArriveBacked(topo, s, w);
    case Change(u, port, value) => ChangeBacked(topo, s, u, port, value);
    case _ =>
  }

  lemma {:induction false} RunBacked(topo: Topology, s: Net, es: seq<Event>)
    requires NetShaped(topo, s) && Valid(topo, s, es) && AllBacked(topo, s)
    ensures AllBacked(topo, After(topo, s, es))
    decreases |es|
  {
    if es != [] {
      BackedKeeps(topo, s, es[0]);
      RunBacked(topo, Apply(topo, s, es[0]), es[1..]);
    }
  }

  lemma InitBacked(topo: Topology, s: Net)
    requires InitNet(topo, s) && NetShaped(topo, s)
    ensures AllBacked(topo, s)
  {
    forall u | 1 <= u <= topo.n
      ensures Backed(topo, s.routers[u], u)
    {
      assert s.routers[u].dv == Init(u);
    }
  }

  // ---------- The theorems ----------

  /** In every run, with any number of links between two routers: a cost a router has for another is the value last set
      for one of its ports, at the end of a link from that router. */
  lemma CostsAreSet(topo: Topology, s: Net, es: seq<Event>, u: nat, v: nat)
    requires InitNet(topo, s) && NetShaped(topo, s) && Valid(topo, s, es)
    requires 1 <= u <= topo.n && 1 <= v <= topo.n && u != v
    requires TableOf(After(topo, s, es), u).c[v] < INF
    ensures exists p: int ::
      Link(v, u, p) in topo.links && LastValue(es, u, p) == Some(TableOf(After(topo, s, es), u).c[v])
  {
    InitBacked(topo, s);
    RunBacked(topo, s, es);
    var r := After(topo, s, es).routers[u];
    assert BackedAt(topo, r, u, v);
    var p :| Link(v, u, p) in topo.links && p in r.portPeer && p in r.portLen && r.portLen[p] == r.dv.c[v];
    PortsAreHistory(topo, s, es, u, p, v);
  }

  /** A router none of whose ports is set to anything but -1 takes every link as down: it has no route to anyone, and
      sends data packets for others to the controller. */
  lemma UnsetIsIsolated(topo: Topology, s: Net, es: seq<Event>, u: nat, i: nat)
    requires InitNet(topo, s) && NetShaped(topo, s) && Valid(topo, s, es)
    requires 1 <= u <= topo.n && 1 <= i <= topo.n && u != i
    requires forall port: int :: CostSet(LastValue(es, u, port)) == INF
    ensures var r := After(topo, s, es).routers[u];
      r.dv.c[i] == INF && r.dv.d[u][i] == INF && PortTowards(r, i) == 1
  {
    InitOk(topo, s);
    RunKeeps(topo, s, es);
    var t := After(topo, s, es);
    forall v | 1 <= v <= topo.n && v != u
      ensures TableOf(t, u).c[v] == INF
    {
      UnsetIsDown(topo, s, es, u, v);
    }
    NoRoute(topo, t, u, i);
  }

  lemma UnsetIsDown(topo: Topology, s: Net, es: seq<Event>, u: nat, v: nat)
    requires InitNet(topo, s) && NetShaped(topo, s) && Valid(topo, s, es) && Tables(topo, After(topo, s, es))
    requires 1 <= u <= topo.n && 1 <= v <= topo.n && u != v
    requires forall port: int :: CostSet(LastValue(es, u, port)) == INF
    ensures TableOf(After(topo, s, es), u).c[v] == INF
  {
    CostLegal(topo, After(topo, s, es), u, v);
    if TableOf(After(topo, s, es), u).c[v] < INF {
      CostsAreSet(topo, s, es, u, v);
    }
  }

  lemma NoRoute(topo: Topology, s: Net, u: nat, i: nat)
    requires Inv(topo, s) && 1 <= u <= topo.n && 1 <= i <= topo.n && u != i
    requires forall v :: 1 <= v <= topo.n && v != u ==> TableOf(s, u).c[v] == INF
    ensures TableOf(s, u).d[u][i] == INF && PortTowards(s.routers[u], i) == 1
  {
    CostLegal(topo, s, u, i);
    if Remaining(topo, s, u, i) < INF {
      NextIsOther(topo, s, u, i);
      Hop(topo, s, u, i);
    }
  }

  lemma NextIsOther(topo: Topology, s: Net, u: nat, i: nat)
    requires Tables(topo, s) && 1 <= u <= topo.n && 1 <= i <= topo.n && u != i && TableOf(s, u).d[u][i] < INF
    ensures 1 <= TableOf(s, u).next[i] <= topo.n && TableOf(s, u).next[i] != u
  {
    assert Settled(topo.n, TableOf(s, u));
    HopInRange(topo.n, TableOf(s, u), i);
  }

  lemma CostLegal(topo: Topology, s: Net, u: nat, v: nat)
    requires Tables(topo, s) && 1 <= u <= topo.n && 1 <= v <= topo.n && u != v
    ensures 1 <= TableOf(s, u).c[v] <= INF && 0 <= TableOf(s, u).d[u][v] <= INF
    ensures TableOf(s, u).next[v] == 0 <==> TableOf(s, u).d[u][v] == INF
  {
    assert Settled(topo.n, TableOf(s, u));
    assert LegalRow(topo.n, TableOf(s, u).d[u]);
  }

  /** In every run with one link between any two routers: the cost a router has for its neighbour is the value last set
      for the port between them, if the neighbour has been heard on it since it was last set to -1; else the link is
      down. */
  lemma CostIsHistory(topo: Topology, s: Net, es: seq<Event>, l: Link)
    requires OneLinkPerPair(topo) && InitNet(topo, s) && NetShaped(topo, s) && Valid(topo, s, es) && l in topo.links
    ensures TableOf(After(topo, s, es), l.dst).c[l.src] ==
            if Neighbour(es, l.dst, l.port).Some? then CostSet(LastValue(es, l.dst, l.port)) else INF
  {
    InitSane(topo, s);
    RunSane(topo, s, es);
    assert AccurateAt(After(topo, s, es), l);
    PortsAreHistory(topo, s, es, l.dst, l.port, l.src);
  }

  /** Setting a port behind which no router has been heard since it was last set to -1 touches no table and no version;
      setting another gives its link the new cost, and raises the version exactly if that is dearer. */
  lemma SettingPorts(topo: Topology, s: Net, es: seq<Event>, u: nat, port: int, value: int)
    requires InitNet(topo, s) && NetShaped(topo, s) && Valid(topo, s, es)
    requires 1 <= u <= topo.n && LegalValue(value)
    ensures var t := After(topo, s, es);
      var t' := Apply(topo, t, Change(u, port, value));
      var known := Neighbour(es, u, port);
      && t'.wires == t.wires
      && (known.None? ==> TableOf(t', u) == TableOf(t, u) && t'.newest == t.newest)
      && (known.Some? ==>
            && known.value < MAXN
            && var before, after := TableOf(t, u).c[known.value], TableOf(t', u).c[known.value];
               && after == CostSet(Some(value))
               && (t'.newest == if before < after then t.newest + 1 else t.newest)
               && (TableOf(t', u).version == if before < after then t'.newest else TableOf(t, u).version))
  {
    var t := After(topo, s, es);
    PortsAreHistory(topo, s, es, u, port, u);
    SetPortShaped(topo, t, u, port, value);
    var r := t.routers[u];
    if port in r.portPeer {
      CostsTouched(topo.n, r.dv, t.newest, r.portPeer[port], value, r.dv.c, 0);
    }
  }

  /** In every run: a packet for router `i` leaves, if there is a route, through the port on which the next router was
      last heard, the end of a link from it; and else goes to the controller. */
  lemma LeavesThrough(topo: Topology, s: Net, es: seq<Event>, u: nat, i: nat)
    requires InitNet(topo, s) && NetShaped(topo, s) && Valid(topo, s, es) && 1 <= u <= topo.n && 1 <= i <= topo.n
    ensures var t := After(topo, s, es);
      var r := t.routers[u];
      var port := PortTowards(r, i);
      if u != i && r.dv.d[u][i] < INF then
        LastPort(es, u, r.dv.next[i]) == Some(port) && Link(r.dv.next[i], u, port) in topo.links
      else PortTowards(r, i) == 1
  {
    InitOk(topo, s);
    RunKeeps(topo, s, es);
    var t := After(topo, s, es);
    PortsAreHistory(topo, s, es, u, 0, TableOf(t, u).next[i]);
    if u != i {
      CostLegal(topo, t, u, i);
      if Remaining(topo, t, u, i) < INF {
        Hop(topo, t, u, i);
      }
    } else {
      assert Settled(topo.n, TableOf(t, u));
    }
  }

  /** A trigger puts one vector with the router's version and row on every link from it, and does nothing else. */
  lemma TriggerSends(topo: Topology, s: Net, u: nat, w: Wire)
    requires NetShaped(topo, s) && 1 <= u <= topo.n
    ensures var s' := Apply(topo, s, Trigger(u));
      && s' == s.(wires := s'.wires)
      && s'.wires[w] == s.wires[w] +
           if w.link in topo.links && w.link.src == u && w.version == TableOf(s, u).version &&
              w.row == TableOf(s, u).d[u] then 1 else 0
  {
    var t := TableOf(s, u);
    var sent := set l | l in topo.links && l.src == t.me :: Wire(l, t.version, t.d[t.me]);
    assert w in sent <==> w.link in topo.links && w.link.src == u && w.version == t.version && w.row == t.d[u];
  }
}
