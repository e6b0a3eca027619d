/** Why termination needs one link between any two routers: a router keeps one cost for each neighbour, so two links
    from the same neighbour whose ports are set to different values undo each other's vectors for ever. Where links
    come in both directions, rebroadcasting stops in every schedule if and only if there is one link per pair. */
module RouteChurn {
  import opened DistanceVector
  import opened RouterNetwork
  import opened RouteSafety
  import opened RouteTermination
  import opened RouteConvergence

  /** `l` and `m` are two links from one router to another, `back` leads back. */
  predicate Parallel(topo: Topology, l: Link, m: Link, back: Link) {
    && l in topo.links && m in topo.links && back in topo.links && l != m
    && l.src == m.src == back.dst && l.dst == m.dst == back.src
  }

  /** The ports are set so that `l` is cheaper than `m`, and `back` is up. */
  ghost predicate Uneven(topo: Topology, s: Net, l: Link, m: Link, back: Link)
    requires NetShaped(topo, s)
  {
    Parallel(topo, l, m, back) && PortCost(s, l) < PortCost(s, m) && Up(s, back)
  }

  ghost predicate Offered(s: Net, l: Link) {
    exists w :: w in s.wires && w.link == l
  }

  /** A vector in flight over `l` is at a later version than its receiver. */
  ghost predicate News(s: Net, l: Link)
    requires l.dst < |s.routers|
  {
    exists w :: w in s.wires && w.link == l && TableOf(s, l.dst).version < w.version
  }

  /** Vectors are in flight on both parallel links; or the cheap one has been heard last and a vector is in flight on
      the dear one; or news of the version raised on hearing that is on its way back. */
  ghost predicate Churning(topo: Topology, s: Net, l: Link, m: Link, back: Link) {
    && Inv(topo, s) && Uneven(topo, s, l, m, back)
    && (|| (Offered(s, l) && Offered(s, m))
        || (Offered(s, m) && TableOf(s, l.dst).c[l.src] == PortCost(s, l))
        || News(s, back))
  }

  lemma PortsKept(topo: Topology, s: Net, w: Wire, l: Link, m: Link, back: Link)
    requires NetShaped(topo, s) && w in s.wires && Uneven(topo, s, l, m, back)
    ensures NetShaped(topo, Deliver(topo, s, w)) && Uneven(topo, Deliver(topo, s, w), l, m, back)
  {
    var t1 := DeliverTables(topo, s, w);
    var s' := Deliver(topo, s, w);
    forall k | k in topo.links
      ensures PortCost(s', k) == PortCost(s, k)
    {
      assert s'.routers[k.dst].portLen == s.routers[k.dst].portLen;
    }
  }

  /** Once the cheap link has been heard, a vector on the dear one is still to come. */
  lemma HearCheap(topo: Topology, s: Net, w: Wire, l: Link, m: Link)
    requires NetShaped(topo, s) && w in s.wires && w.link == l && l != m && Offered(s, m) && l in topo.links
    ensures NetShaped(topo, Deliver(topo, s, w)) && Offered(Deliver(topo, s, w), m)
    ensures TableOf(Deliver(topo, s, w), l.dst).c[l.src] == PortCost(s, l)
  {
    var t1 := DeliverTables(topo, s, w);
    var value := PortValue(s.routers[l.dst], l.port);
    CostsTouched(topo.n, TableOf(s, l.dst), s.newest, l.src, value, w.row, w.version);
    CostsTouched(topo.n, t1, s.newest, l.src, value, w.row, w.version);
    var x :| x in s.wires && x.link == m;
    assert x in Deliver(topo, s, w).wires;
  }

  /** Hearing the dear link after the cheap one raises the version, and the broadcast says so to the neighbour. */
  lemma HearDear(topo: Topology, s: Net, w: Wire, back: Link)
    requires Inv(topo, s) && w in s.wires && w.link in topo.links && back in topo.links
    requires TableOf(s, w.link.dst).c[w.link.src] < PortCost(s, w.link)
    requires back.src == w.link.dst && back.dst == w.link.src
    ensures NetShaped(topo, Deliver(topo, s, w)) && News(Deliver(topo, s, w), back)
  {
    VectorArrives(topo, s, w);
    ArriveIsReact(topo, s, w);
    assert RouterOk(topo, s, back.dst);
    var s' := Deliver(topo, s, w);
    BroadcastHas(topo, TableOf(s', back.src), back);
    assert CurrentVector(s', back) in s'.wires;
  }

  /** News of a later version makes a router reset its table and broadcast. */
  lemma HearNews(topo: Topology, s: Net, w: Wire, l: Link)
    requires Inv(topo, s) && w in s.wires && w.link in topo.links && Up(s, w.link)
    requires TableOf(s, w.link.dst).version < w.version && l in topo.links && l.src == w.link.dst
    ensures NetShaped(topo, Deliver(topo, s, w)) && Offered(Deliver(topo, s, w), l)
  {
    VectorArrives(topo, s, w);
    ArriveIsReact(topo, s, w);
    var u, x, n, s' := w.link.dst, w.link.src, topo.n, Deliver(topo, s, w);
    var t, value := TableOf(s, u), PortValue(s.routers[u], w.link.port);
    if UpdateCost(n, t, s.newest, x, value).2.Same? {
      ResetSpreads(n, t, x, w.row, w.version);
    }
    BroadcastHas(topo, TableOf(s', u), l);
    assert CurrentVector(s', l) in s'.wires;
  }

  /** Some vector in flight can be delivered so that the churning goes on. */
  lemma GoesOn(topo: Topology, s: Net, l: Link, m: Link, back: Link)
    requires Churning(topo, s, l, m, back)
    ensures exists w :: w in s.wires && Churning(topo, Apply(topo, s, Arrive(w)), l, m, back)
  {
    var w;
    if News(s, back) {
      w :| w in s.wires && w.link == back && TableOf(s, back.dst).version < w.version;
      HearNews(topo, s, w, l);
      HearNews(topo, s, w, m);
    } else if TableOf(s, l.dst).c[l.src] == PortCost(s, l) {
      w :| w in s.wires && w.link == m;
      HearDear(topo, s, w, back);
    } else {
      w :| w in s.wires && w.link == l;
      HearCheap(topo, s, w, l, m);
    }
    PortsKept(topo, s, w, l, m, back);
    StepKeeps(topo, s, Arrive(w));
    PortsSame(topo, s, w, l);
  }

  lemma PortsSame(topo: Topology, s: Net, w: Wire, l: Link)
    requires NetShaped(topo, s) && w in s.wires && l in topo.links
    ensures NetShaped(topo, Deliver(topo, s, w)) && PortCost(Deliver(topo, s, w), l) == PortCost(s, l)
  {
    var t1 := DeliverTables(topo, s, w);
    assert Deliver(topo, s, w).routers[l.dst].portLen == s.routers[l.dst].portLen;
  }

  ghost function Next(topo: Topology, s: Net, l: Link, m: Link, back: Link): (s': Net)
    requires Churning(topo, s, l, m, back)
    ensures Moves(topo, s, s') && Churning(topo, s', l, m, back)
  {
    GoesOn(topo, s, l, m, back);
    var w :| w in s.wires && Churning(topo, Apply(topo, s, Arrive(w)), l, m, back);
    Apply(topo, s, Arrive(w))
  }

  /** The state after `i` such deliveries. */
  ghost function Churned(topo: Topology, s: Net, l: Link, m: Link, back: Link, i: nat): (s': Net)
    requires Churning(topo, s, l, m, back)
    ensures Churning(topo, s', l, m, back)
  {
    if i == 0 then s else Next(topo, Churned(topo, s, l, m, back, i - 1), l, m, back)
  }

  lemma ChurnedMoves(topo: Topology, s: Net, l: Link, m: Link, back: Link, i: nat)
    requires Churning(topo, s, l, m, back)
    ensures NetShaped(topo, Churned(topo, s, l, m, back, i)) && Churned(topo, s, l, m, back, i).wires != multiset{}
    ensures Moves(topo, Churned(topo, s, l, m, back, i), Churned(topo, s, l, m, back, i + 1))
  {
    var t := Churned(topo, s, l, m, back, i);
    assert Churned(topo, s, l, m, back, i + 1) == Next(topo, t, l, m, back);
    var w :| w in t.wires;
  }

  /** At moment `i` of the schedule something is in flight, and the network moves. */
  ghost predicate RestlessAt(topo: Topology, run: nat -> Net, i: nat) {
    MovesAt(topo, run, i) && run(i).wires != multiset{}
  }

  lemma MovingIsRestless(topo: Topology, run: nat -> Net, i: nat, t: Net, t': Net)
    requires run(i) == t && run(i + 1) == t' && NetShaped(topo, t) && Moves(topo, t, t') && t.wires != multiset{}
    ensures RestlessAt(topo, run, i)
  {}

  ghost function ChurningRun(topo: Topology, s: Net, l: Link, m: Link, back: Link): (run: nat -> Net)
    requires Churning(topo, s, l, m, back)
    ensures forall i: nat :: run(i) == Churned(topo, s, l, m, back, i)
  {
    (i: nat) => Churned(topo, s, l, m, back, i)
  }

  lemma ChurningRunMoves(topo: Topology, s: Net, l: Link, m: Link, back: Link, i: nat)
    requires Churning(topo, s, l, m, back)
    ensures RestlessAt(topo, ChurningRun(topo, s, l, m, back), i)
  {
    ChurnedMoves(topo, s, l, m, back, i);
    MovingIsRestless(topo, ChurningRun(topo, s, l, m, back), i,
                     Churned(topo, s, l, m, back, i), Churned(topo, s, l, m, back, i + 1));
  }

  /** From such a state an infinite schedule of deliveries, ports being left alone, never leaves the network empty. */
  lemma NeverSettles(topo: Topology, s: Net, l: Link, m: Link, back: Link) returns (run: nat -> Net)
    requires Churning(topo, s, l, m, back)
    ensures run(0) == s && forall i: nat {:trigger RestlessAt(topo, run, i)} :: RestlessAt(topo, run, i)
  {
    run := ChurningRun(topo, s, l, m, back);
    forall i: nat
      ensures RestlessAt(topo, run, i)
    {
      ChurningRunMoves(topo, s, l, m, back, i);
    }
  }

  // ---------- From the start ----------

  /** A port is set at a router that knows no router behind it. */
  lemma SetFreshPort(topo: Topology, s: Net, l: Link, value: int) returns (s': Net)
    requires NetShaped(topo, s) && l in topo.links && s.routers[l.dst].portPeer == map[] && LegalValue(value)
    ensures Enabled(topo, s, Change(l.dst, l.port, value)) && s' == Apply(topo, s, Change(l.dst, l.port, value))
    ensures NetShaped(topo, s') && s'.wires == s.wires && PortCost(s', l) == CostOf(value)
    ensures forall k :: k in topo.links && k != l ==> PortCost(s', k) == PortCost(s, k)
    ensures forall u :: 1 <= u <= topo.n ==> s'.routers[u].portPeer == s.routers[u].portPeer
  {
    s' := Apply(topo, s, Change(l.dst, l.port, value));
    forall k | k in topo.links && k != l
      ensures PortCost(s', k) == PortCost(s, k)
    {
      assert k.dst == l.dst ==> k.port != l.port;
    }
  }

  lemma TriggerOffers(topo: Topology, s: Net, l: Link, m: Link) returns (s': Net)
    requires NetShaped(topo, s) && l in topo.links && m in topo.links && l.src == m.src
    ensures Enabled(topo, s, Trigger(l.src)) && s' == Apply(topo, s, Trigger(l.src))
    ensures NetShaped(topo, s') && Offered(s', l) && Offered(s', m)
    ensures forall k :: k in topo.links ==> PortCost(s', k) == PortCost(s, k)
  {
    s' := Apply(topo, s, Trigger(l.src));
    BroadcastHas(topo, TableOf(s, l.src), l);
    BroadcastHas(topo, TableOf(s, l.src), m);
    assert CurrentVector(s, l) in s'.wires && CurrentVector(s, m) in s'.wires;
  }

  lemma Prepend(topo: Topology, s: Net, e: Event, s': Net, es: seq<Event>, t: Net)
    requires NetShaped(topo, s) && Enabled(topo, s, e) && s' == Apply(topo, s, e)
    requires Valid(topo, s', es) && After(topo, s', es) == t
    ensures Valid(topo, s, [e] + es) && After(topo, s, [e] + es) == t
  {
    assert ([e] + es)[1..] == es;
  }

  /** Three port changes and one trigger lead from the start to churning, wherever two parallel links have a link
      back. */
  lemma ReachesChurn(topo: Topology, s: Net, l: Link, m: Link, back: Link) returns (es: seq<Event>)
    requires InitNet(topo, s) && Parallel(topo, l, m, back)
    ensures NetShaped(topo, s) && Valid(topo, s, es) && Churning(topo, After(topo, s, es), l, m, back)
  {
    InitOk(topo, s);
    var s1 := SetFreshPort(topo, s, l, 1);
    var s2 := SetFreshPort(topo, s1, m, 2);
    var s3 := SetFreshPort(topo, s2, back, 1);
    var s4 := TriggerOffers(topo, s3, l, m);
    es := [];
    Prepend(topo, s3, Trigger(l.src), s4, es, s4);
    es := [Trigger(l.src)] + es;
    Prepend(topo, s2, Change(back.dst, back.port, 1), s3, es, s4);
    es := [Change(back.dst, back.port, 1)] + es;
    Prepend(topo, s1, Change(m.dst, m.port, 2), s2, es, s4);
    es := [Change(m.dst, m.port, 2)] + es;
    Prepend(topo, s, Change(l.dst, l.port, 1), s1, es, s4);
    es := [Change(l.dst, l.port, 1)] + es;
    RunKeeps(topo, s, es);
  }

  // ---------- Exactly when the exchange stops ----------

  /** After some run from the start, the network alone moves, for ever or until nothing is in flight. */
  ghost predicate Scheduled(topo: Topology, s: Net, es: seq<Event>, run: nat -> Net) {
    && InitNet(topo, s) && NetShaped(topo, s) && Valid(topo, s, es)
    && run(0) == After(topo, s, es) && forall i: nat :: MovesAt(topo, run, i)
  }

  ghost predicate ComesToRest(run: nat -> Net) {
    exists j: nat :: run(j).wires == multiset{}
  }

  predicate HasBack(topo: Topology, l: Link) {
    exists back :: back in topo.links && back.src == l.dst && back.dst == l.src
  }

  predicate BothWays(topo: Topology) {
    forall l {:trigger HasBack(topo, l)} :: l in topo.links ==> HasBack(topo, l)
  }

  /** Where links come in both directions: every schedule after every run comes to rest if and only if there is one
      link between any two routers. */
  lemma RestsIffOneLinkPerPair(topo: Topology)
    requires WellWired(topo) && BothWays(topo)
    ensures (forall s, es, run :: Scheduled(topo, s, es, run) ==> ComesToRest(run)) <==> OneLinkPerPair(topo)
  {
    if OneLinkPerPair(topo) {
      forall s, es, run | Scheduled(topo, s, es, run)
        ensures ComesToRest(run)
      {
        ScheduleRests(topo, s, es, run);
      }
    } else {
      var l, m :| l in topo.links && m in topo.links && l.src == m.src && l.dst == m.dst && l != m;
      assert HasBack(topo, l);
      var back :| back in topo.links && back.src == l.dst && back.dst == l.src;
      var s, es, run := RestlessRun(topo, l, m, back);
    }
  }

  lemma ScheduleRests(topo: Topology, s: Net, es: seq<Event>, run: nat -> Net)
    requires OneLinkPerPair(topo) && Scheduled(topo, s, es, run)
    ensures ComesToRest(run)
  {
    InitOk(topo, s);
    RunKeeps(topo, s, es);
    var j := Quiesces(topo, run, 0);
  }

  function FreshNet(n: nat): (s: Net)
    requires n < MAXN
  {
    Net(seq(n + 1, u requires 0 <= u <= n => Router(Init(u), map[], map[], map[])), 0, multiset{})
  }

  lemma RestlessRun(topo: Topology, l: Link, m: Link, back: Link) returns (s: Net, es: seq<Event>, run: nat -> Net)
    requires WellWired(topo) && Parallel(topo, l, m, back)
    ensures Scheduled(topo, s, es, run) && !ComesToRest(run)
  {
    s := FreshNet(topo.n);
    es := ReachesChurn(topo, s, l, m, back);
    run := NeverSettles(topo, After(topo, s, es), l, m, back);
    forall i: nat
      ensures MovesAt(topo, run, i) && run(i).wires != multiset{}
    {
      assert RestlessAt(topo, run, i);
    }
  }
}
