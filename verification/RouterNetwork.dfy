/** The routers of lab 3 exchanging distance vectors: handling of DV and control messages, the version counter the
    routers share, and the vectors in flight. */
module RouterNetwork {
  import opened ShortestPaths
  import opened DistanceVector

  /** What `src` broadcasts reaches `dst` on its port `port`. */
  datatype Link = Link(src: nat, dst: nat, port: int)

  /** Any number of links may join two routers; a port is the end of one link. */
  datatype Topology = Topology(n: nat, links: set<Link>)

  ghost predicate WellWired(topo: Topology) {
    && 1 <= topo.n < MAXN
    && (forall l :: l in topo.links ==> 1 <= l.src <= topo.n && 1 <= l.dst <= topo.n && l.src != l.dst && l.port != 0)
    && forall l, m :: l in topo.links && m in topo.links && l.dst == m.dst && l.port == m.port ==> l == m
  }

  /** `portLen` holds the values set for ports, `portPeer` the router known behind a port, `peerPort` the port
      through which a router was last heard. */
  datatype Router = Router(dv: Table, portLen: map<int, int>, portPeer: map<int, nat>, peerPort: map<nat, int>)

  /** A distance vector on its way over a link. */
  datatype Wire = Wire(link: Link, version: nat, row: Row)

  /** Routers are numbered from 1; `newest` is lstChangeVersion. */
  datatype Net = Net(routers: seq<Router>, newest: nat, wires: multiset<Wire>)

  predicate WireShaped(topo: Topology, w: Wire) {
    w.link in topo.links && |w.row| == MAXN
  }

  ghost predicate NetShaped(topo: Topology, s: Net) {
    && WellWired(topo)
    && |s.routers| == topo.n + 1
    && (forall u {:trigger s.routers[u]} :: 1 <= u <= topo.n ==>
          Shaped(topo.n, s.routers[u].dv) && s.routers[u].dv.me == u && LegalPorts(topo, u, s.routers[u]))
    && forall w :: w in s.wires ==> WireShaped(topo, w)
  }

  /** Ports carry legal values, and the router known behind a port is the one that is there. */
  predicate LegalPorts(topo: Topology, u: nat, r: Router) {
    && (forall p :: p in r.portLen ==> LegalValue(r.portLen[p]))
    && (forall p :: p in r.portPeer ==> Link(r.portPeer[p], u, p) in topo.links)
    && forall v :: v in r.peerPort ==> Link(v, u, r.peerPort[v]) in topo.links
  }

  ghost predicate InitNet(topo: Topology, s: Net) {
    && WellWired(topo)
    && |s.routers| == topo.n + 1 && s.newest == 0 && s.wires == multiset{}
    && forall u :: 1 <= u <= topo.n ==> s.routers[u] == Router(Init(u), map[], map[], map[])
  }

  /** The vectors a broadcast puts in flight. */
  function Broadcast(topo: Topology, t: Table): multiset<Wire>
    requires t.me < |t.d|
  {
    multiset(set l | l in topo.links && l.src == t.me :: Wire(l, t.version, t.d[t.me]))
  }

  function PortValue(r: Router, port: int): int {
    if port in r.portLen then r.portLen[port] else -1
  }

  /** A router handles a DV message of router `x` that came in on `port`: its state after, the newest version, and
      whether it broadcasts. */
  function Hear(n: nat, r: Router, newest: nat, port: int, x: nat, row: Row, version: nat): (res: (Router, nat, bool))
    requires Shaped(n, r.dv) && 1 <= x <= n && |row| == MAXN
    ensures Shaped(n, res.0.dv) && res.0.dv.me == r.dv.me
  {
    var (dv1, newest', change) := UpdateCost(n, r.dv, newest, x, PortValue(r, port));
    var (dv2, changed) := UpdateFrom(n, dv1, x, row, version);
    (Router(dv2, r.portLen, r.portPeer[port := x], r.peerPort[x := port]), newest', changed || change != Same)
  }

  /** Control message PORT VALUE CHANGE. */
  function ChangePort(n: nat, r: Router, newest: nat, port: int, value: int): (Router, nat)
    requires Shaped(n, r.dv) && forall p :: p in r.portPeer ==> 1 <= r.portPeer[p] <= n
  {
    var r1 := r.(portLen := r.portLen[port := value]);
    if port !in r.portPeer then (r1, newest)
    else
      var (dv, newest', _) := UpdateCost(n, r.dv, newest, r.portPeer[port], value);
      (r1.(dv := dv, portPeer := if value == -1 then r.portPeer - {port} else r.portPeer), newest')
  }

  /** The port through which a packet for router `i` leaves; 1 is the controller. */
  function PortTowards(r: Router, i: nat): int
    requires i < |r.dv.next|
  {
    var x := r.dv.next[i];
    if x == 0 || x !in r.peerPort then 1 else r.peerPort[x]
  }

  /** A vector in flight reaches its router. A router never hears itself. */
  function Deliver(topo: Topology, s: Net, w: Wire): Net
    requires |s.routers| == topo.n + 1 && 1 <= w.link.dst <= topo.n && 1 <= w.link.src <= topo.n
    requires Shaped(topo.n, s.routers[w.link.dst].dv) && |w.row| == MAXN
  {
    var l := w.link;
    var (r, newest, sends) := Hear(topo.n, s.routers[l.dst], s.newest, l.port, l.src, w.row, w.version);
    Net(s.routers[l.dst := r], newest,
        s.wires - multiset{w} + if sends then Broadcast(topo, r.dv) else multiset{})
  }

  /** The value of a port of router `u` is changed. */
  function SetPort(topo: Topology, s: Net, u: nat, port: int, value: int): Net
    requires |s.routers| == topo.n + 1 && 1 <= u <= topo.n && Shaped(topo.n, s.routers[u].dv)
    requires forall p :: p in s.routers[u].portPeer ==> 1 <= s.routers[u].portPeer[p] <= topo.n
  {
    var (r, newest) := ChangePort(topo.n, s.routers[u], s.newest, port, value);
    s.(routers := s.routers[u := r], newest := newest)
  }

  datatype Event =
    | Arrive(wire: Wire)
    | Lose(wire: Wire)
    | Duplicate(wire: Wire)
    | Trigger(router: nat)
    | Change(router: nat, port: int, value: int)

  ghost predicate Enabled(topo: Topology, s: Net, e: Event) {
    match e
    case Arrive(w) => w in s.wires
    case Lose(w) => w in s.wires
    case Duplicate(w) => w in s.wires
    case Trigger(u) => 1 <= u <= topo.n
    case Change(u, _, value) => 1 <= u <= topo.n && LegalValue(value)
  }

  lemma DeliverShaped(topo: Topology, s: Net, w: Wire)
    requires NetShaped(topo, s) && w in s.wires
    ensures WireShaped(topo, w) && NetShaped(topo, Deliver(topo, s, w))
  {
    assert WireShaped(topo, w);
    var u := w.link.dst;
    assert LegalPorts(topo, u, s.routers[u]);
    var s' := Deliver(topo, s, w);
    assert LegalPorts(topo, u, s'.routers[u]);
    forall x | x in s'.wires
      ensures WireShaped(topo, x)
    {
      assert x in s.wires || x in Broadcast(topo, s'.routers[u].dv);
    }
  }

  lemma SetPortShaped(topo: Topology, s: Net, u: nat, port: int, value: int)
    requires NetShaped(topo, s) && 1 <= u <= topo.n && LegalValue(value)
    ensures LegalPorts(topo, u, s.routers[u]) && NetShaped(topo, SetPort(topo, s, u, port, value))
  {
    assert LegalPorts(topo, u, s.routers[u]);
    var s' := SetPort(topo, s, u, port, value);
    assert LegalPorts(topo, u, s'.routers[u]);
  }

  ghost function Apply(topo: Topology, s: Net, e: Event): (s': Net)
    requires NetShaped(topo, s) && Enabled(topo, s, e)
    ensures NetShaped(topo, s')
  {
    match e
    case Arrive(w) => DeliverShaped(topo, s, w); Deliver(topo, s, w)
    case Lose(w) => s.(wires := s.wires - multiset{w})
    case Duplicate(w) => s.(wires := s.wires + multiset{w})
    case Trigger(u) => s.(wires := s.wires + Broadcast(topo, s.routers[u].dv))
    case Change(u, port, value) => SetPortShaped(topo, s, u, port, value); SetPort(topo, s, u, port, value)
  }

  ghost predicate Valid(topo: Topology, s: Net, es: seq<Event>)
    requires NetShaped(topo, s)
    decreases |es|
  {
    es == [] || (Enabled(topo, s, es[0]) && Valid(topo, Apply(topo, s, es[0]), es[1..]))
  }

  ghost function After(topo: Topology, s: Net, es: seq<Event>): (s': Net)
    requires NetShaped(topo, s) && Valid(topo, s, es)
    ensures NetShaped(topo, s')
    decreases |es|
  {
    if es == [] then s else After(topo, Apply(topo, s, es[0]), es[1..])
  }
}
