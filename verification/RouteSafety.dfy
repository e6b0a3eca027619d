/** What holds of the routers' tables in every reachable state, whatever vectors are in flight, lost, repeated or
    reordered and whatever links change: routers at the newest version never under-estimate, following next hops never
    leads round in a cycle, and from a router at the newest version it leads to the destination. */
module RouteSafety {
  import opened ShortestPaths
  import opened DistanceVector
  import opened RouterNetwork

  /** What the other routers and the links look like from one router: link costs, own rows and versions. */
  datatype View = View(n: nat, newest: nat, g: Graph, rows: seq<Row>, vers: seq<nat>)

  ghost predicate ViewOk(e: View) {
    && e.n < MAXN && IsGraph(e.g, e.n) && |e.rows| == |e.vers| == e.n + 1
    && forall v {:trigger e.rows[v]} :: 1 <= v <= e.n ==> LegalRow(e.n, e.rows[v]) && e.rows[v][v] == 0
  }

  /** No entry of a row claimed by `v` is below the cost of a real walk. */
  ghost predicate Sound(e: View, v: nat, row: Row)
    requires ViewOk(e) && |row| > e.n
  {
    forall i :: 1 <= i <= e.n && row[i] < INF ==> Within(e.g, e.n, v, i, row[i])
  }

  /** A row received from `v` at version `k`: wherever it says anything, `v` has not gone back behind that version,
      and is no farther off than the row says unless it has gone on to a later one. */
  ghost predicate Behind(e: View, v: nat, row: Row, k: nat)
    requires ViewOk(e) && 1 <= v <= e.n && |row| > e.n
  {
    forall i :: 1 <= i <= e.n && row[i] < INF ==> k <= e.vers[v] && (e.vers[v] == k ==> e.rows[v][i] <= row[i])
  }

  /** The next hop towards `i` is over a link that is up, to `i` itself or to a router that is at a later version or
      nearer by the cost of that link. */
  ghost predicate HopOk(e: View, t: Table, i: nat)
    requires ViewOk(e) && InRange(e.n, t) && 1 <= i <= e.n
  {
    i != t.me && t.d[t.me][i] < INF ==>
      var v := t.next[i];
      && t.c[v] < INF
      && if v == i then t.c[v] <= t.d[t.me][i]
         else t.version <= e.vers[v] && (e.vers[v] == t.version ==> t.c[v] + e.rows[v][i] <= t.d[t.me][i])
  }

  ghost predicate TableOk(e: View, t: Table)
    requires ViewOk(e) && InRange(e.n, t)
  {
    && (t.version == e.newest ==> forall v :: 1 <= v <= e.n ==> Sound(e, v, t.d[v]))
    && (forall v :: 1 <= v <= e.n && v != t.me ==> Behind(e, v, t.d[v], t.version))
    && forall i :: 1 <= i <= e.n ==> HopOk(e, t, i)
  }

  ghost predicate VectorOk(e: View, w: Wire)
    requires ViewOk(e) && 1 <= w.link.src <= e.n
  {
    && LegalRow(e.n, w.row) && w.version <= e.newest && Behind(e, w.link.src, w.row, w.version)
    && (w.version == e.newest ==> Sound(e, w.link.src, w.row))
  }

  /** `f` is `e` after some routers have gone on to later versions, or got nearer to their destinations at the version
      they had; links get dearer only together with a newer version. */
  ghost predicate Improves(e: View, f: View)
    requires ViewOk(e) && ViewOk(f)
  {
    && f.n == e.n && e.newest <= f.newest && (f.newest == e.newest ==> Cheaper(f.g, e.g, e.n))
    && forall v {:trigger e.vers[v]} {:trigger f.vers[v]} :: 1 <= v <= e.n ==>
         e.vers[v] <= f.vers[v] &&
         (e.vers[v] == f.vers[v] ==> forall i :: 1 <= i <= e.n ==> f.rows[v][i] <= e.rows[v][i])
  }

  lemma SoundImproves(e: View, f: View, v: nat, row: Row)
    requires ViewOk(e) && ViewOk(f) && Improves(e, f) && f.newest == e.newest && |row| > e.n && Sound(e, v, row)
    ensures Sound(f, v, row)
  {
    forall i | 1 <= i <= e.n && row[i] < INF
      ensures Within(f.g, f.n, v, i, row[i])
    {
      CheaperWithin(f.g, e.g, e.n, v, i, row[i]);
    }
  }

  lemma BehindImproves(e: View, f: View, v: nat, row: Row, k: nat)
    requires ViewOk(e) && ViewOk(f) && Improves(e, f) && 1 <= v <= e.n && |row| > e.n && Behind(e, v, row, k)
    ensures Behind(f, v, row, k)
  {
    assert e.vers[v] <= f.vers[v];
  }

  lemma HopImproves(e: View, f: View, t: Table, i: nat)
    requires ViewOk(e) && ViewOk(f) && Improves(e, f) && InRange(e.n, t) && 1 <= i <= e.n && HopOk(e, t, i)
    ensures HopOk(f, t, i)
  {
    if i != t.me && t.d[t.me][i] < INF && t.next[i] != i {
      assert e.vers[t.next[i]] <= f.vers[t.next[i]];
    }
  }

  lemma TableImproves(e: View, f: View, t: Table)
    requires ViewOk(e) && ViewOk(f) && Improves(e, f) && InRange(e.n, t) && TableOk(e, t) && t.version <= e.newest
    ensures TableOk(f, t)
  {
    forall v | 1 <= v <= e.n
      ensures t.version == f.newest ==> Sound(f, v, t.d[v])
      ensures v != t.me ==> Behind(f, v, t.d[v], t.version)
    {
      assert LegalRow(e.n, t.d[v]);
      if t.version == f.newest {
        SoundImproves(e, f, v, t.d[v]);
      }
      if v != t.me {
        BehindImproves(e, f, v, t.d[v], t.version);
      }
    }
    forall i | 1 <= i <= e.n
      ensures HopOk(f, t, i)
    {
      HopImproves(e, f, t, i);
    }
  }

  lemma VectorImproves(e: View, f: View, w: Wire)
    requires ViewOk(e) && ViewOk(f) && Improves(e, f) && 1 <= w.link.src <= e.n && VectorOk(e, w)
    ensures VectorOk(f, w)
  {
    BehindImproves(e, f, w.link.src, w.row, w.version);
    if w.version == f.newest {
      SoundImproves(e, f, w.link.src, w.row);
    }
  }

  /** One entry computed by updateDV has a good next hop, and is sound at the newest version. */
  lemma UpdateEntryOk(e: View, t: Table, x: nat, i: nat)
    requires ViewOk(e) && InRange(e.n, t) && 1 <= x <= e.n && x != t.me && 1 <= i <= e.n
    requires forall v :: 1 <= v <= e.n ==> e.g[t.me][v] == t.c[v]
    requires TableOk(e, t) && InRange(e.n, Update(e.n, t, x).0)
    ensures var t' := Update(e.n, t, x).0;
      && (t.version == e.newest && t'.d[t.me][i] < INF ==> Within(e.g, e.n, t.me, i, t'.d[t.me][i]))
      && HopOk(e, t', i)
  {
    var t' := Update(e.n, t, x).0;
    UpdateOrigin(e.n, t, x, i);
    var own := t'.d[t.me][i];
    if own < INF {
      if own == t.d[t.me][i] && t'.next[i] == t.next[i] {
        assert (t.version == e.newest ==> Sound(e, t.me, t.d[t.me])) && HopOk(e, t, i);
      } else if own == t.c[i] && t'.next[i] == i {
        StayWithin(e.g, e.n, i);
        HopWithin(e.g, e.n, t.me, i, i, 0);
      } else {
        assert LegalRow(e.n, t.d[x]) && Behind(e, x, t.d[x], t.version);
        if t.version == e.newest {
          assert Sound(e, x, t.d[x]);
          HopWithin(e.g, e.n, t.me, x, i, t.d[x][i]);
        }
      }
    }
  }

  /** updateDV keeps a good table good. */
  lemma UpdateTableOk(e: View, t: Table, x: nat)
    requires ViewOk(e) && InRange(e.n, t) && 1 <= x <= e.n && x != t.me
    requires forall v :: 1 <= v <= e.n ==> e.g[t.me][v] == t.c[v]
    requires InRange(e.n, Update(e.n, t, x).0) && Lowered(t, Update(e.n, t, x).0)
    requires TableOk(e, t)
    ensures TableOk(e, Update(e.n, t, x).0)
  {
    var t' := Update(e.n, t, x).0;
    forall i | 1 <= i <= e.n
      ensures HopOk(e, t', i)
      ensures t.version == e.newest && t'.d[t.me][i] < INF ==> Within(e.g, e.n, t.me, i, t'.d[t.me][i])
    {
      UpdateEntryOk(e, t, x, i);
    }
    forall v | 1 <= v <= e.n
      ensures t.version == e.newest ==> Sound(e, v, t'.d[v])
      ensures v != t.me ==> Behind(e, v, t'.d[v], t.version)
    {
      if v != t.me {
        assert t'.d[v] == t.d[v] && Behind(e, v, t.d[v], t.version);
        assert t.version == e.newest ==> Sound(e, v, t.d[v]);
      }
    }
  }

  /** A table just cleared is good in any surroundings. */
  lemma ClearedTableOk(e: View, t: Table)
    requires ViewOk(e) && InRange(e.n, t) && t.d == Cleared(t.me)
    ensures TableOk(e, t)
  {
    StayWithin(e.g, e.n, t.me);
    forall v | 1 <= v <= e.n
      ensures Sound(e, v, t.d[v])
    {}
  }

  // ---------- The invariant of the whole network ----------

  function TableOf(s: Net, u: nat): Table
    requires u < |s.routers|
  {
    s.routers[u].dv
  }

  ghost predicate Tables(topo: Topology, s: Net) {
    && WellWired(topo) && |s.routers| == topo.n + 1
    && forall u :: 1 <= u <= topo.n ==> Settled(topo.n, TableOf(s, u)) && TableOf(s, u).me == u
  }

  ghost function ViewOf(topo: Topology, s: Net): (e: View)
    requires Tables(topo, s)
    ensures ViewOk(e) && e.n == topo.n && e.newest == s.newest
    ensures forall u :: 1 <= u <= topo.n ==>
      e.g[u] == TableOf(s, u).c && e.rows[u] == TableOf(s, u).d[u] && e.vers[u] == TableOf(s, u).version
  {
    var g := seq(topo.n + 1, u requires 0 <= u < |s.routers| => TableOf(s, u).c);
    var rows := seq(topo.n + 1, u requires 0 <= u < |s.routers| =>
                      if 1 <= u <= topo.n && Settled(topo.n, TableOf(s, u)) then TableOf(s, u).d[u] else []);
    assert IsGraph(g, topo.n) by {
      forall u, v | 1 <= u <= topo.n && 1 <= v <= topo.n
        ensures |g[u]| == MAXN && 0 <= g[u][v] <= INF
      {
        assert Settled(topo.n, TableOf(s, u));
      }
    }
    forall v | 1 <= v <= topo.n
      ensures LegalRow(topo.n, rows[v]) && rows[v][v] == 0
    {
      assert Settled(topo.n, TableOf(s, v));
      assert LegalRow(topo.n, TableOf(s, v).d[v]);
    }
    View(topo.n, s.newest, g, rows, seq(topo.n + 1, u requires 0 <= u < |s.routers| => TableOf(s, u).version))
  }

  ghost predicate RouterOk(topo: Topology, s: Net, u: nat)
    requires Tables(topo, s) && 1 <= u <= topo.n
  {
    TableOf(s, u).version <= s.newest && TableOk(ViewOf(topo, s), TableOf(s, u))
  }

  ghost predicate Core(topo: Topology, s: Net) {
    && Tables(topo, s)
    && (forall u :: 1 <= u <= topo.n ==> RouterOk(topo, s, u))
    && forall w :: w in s.wires ==> WireShaped(topo, w) && VectorOk(ViewOf(topo, s), w)
  }

  /** A router whose link to another is up has heard it: it knows the port. */
  ghost predicate Learned(topo: Topology, s: Net)
    requires Tables(topo, s)
  {
    forall u, v :: 1 <= u <= topo.n && 1 <= v <= topo.n && u != v && TableOf(s, u).c[v] < INF ==>
      v in s.routers[u].peerPort
  }

  ghost predicate PeersKnown(topo: Topology, s: Net)
    requires |s.routers| == topo.n + 1
  {
    forall u, port :: 1 <= u <= topo.n && port in s.routers[u].portPeer ==>
      s.routers[u].portPeer[port] in s.routers[u].peerPort
  }

  ghost predicate Inv(topo: Topology, s: Net) {
    NetShaped(topo, s) && Core(topo, s) && Learned(topo, s) && PeersKnown(topo, s)
  }

  function WithTable(s: Net, u: nat, t: Table, newest: nat): Net
    requires u < |s.routers|
  {
    s.(routers := s.routers[u := s.routers[u].(dv := t)], newest := newest)
  }

  /** One router's table is replaced by a good one, and the view of all improves. */
  lemma OneTableImproves(topo: Topology, s: Net, u: nat, t: Table, newest: nat)
    requires Core(topo, s) && 1 <= u <= topo.n && Settled(topo.n, t) && t.me == u && t.version <= newest
    requires Tables(topo, WithTable(s, u, t, newest))
    requires Improves(ViewOf(topo, s), ViewOf(topo, WithTable(s, u, t, newest)))
    requires TableOk(ViewOf(topo, WithTable(s, u, t, newest)), t)
    ensures Core(topo, WithTable(s, u, t, newest))
  {
    var s' := WithTable(s, u, t, newest);
    var e, f := ViewOf(topo, s), ViewOf(topo, s');
    forall v | 1 <= v <= topo.n
      ensures RouterOk(topo, s', v)
    {
      assert RouterOk(topo, s, v);
      if v != u {
        TableImproves(e, f, TableOf(s, v));
      }
    }
    forall w | w in s'.wires
      ensures WireShaped(topo, w) && VectorOk(f, w)
    {
      VectorImproves(e, f, w);
    }
  }

  lemma WithTableTables(topo: Topology, s: Net, u: nat, t: Table, newest: nat)
    requires Tables(topo, s) && 1 <= u <= topo.n && Settled(topo.n, t) && t.me == u
    ensures Tables(topo, WithTable(s, u, t, newest))
    ensures TableOf(WithTable(s, u, t, newest), u) == t
    ensures forall v :: 1 <= v <= topo.n && v != u ==> TableOf(WithTable(s, u, t, newest), v) == TableOf(s, v)
  {
    var s' := WithTable(s, u, t, newest);
    forall v | 1 <= v <= topo.n
      ensures Settled(topo.n, TableOf(s', v)) && TableOf(s', v).me == v
    {
      assert v != u ==> Settled(topo.n, TableOf(s, v));
    }
  }

  /** Replacing the table of `u` by one at a later version, or at the same with no greater distances, improves the
      view of all; its links may only be dearer at a newer version than any before. */
  lemma ReplacingImproves(topo: Topology, s: Net, u: nat, t: Table, newest: nat)
    requires Tables(topo, s) && 1 <= u <= topo.n && Settled(topo.n, t) && t.me == u && s.newest <= newest
    requires newest == s.newest ==> forall v :: 1 <= v <= topo.n ==> t.c[v] <= TableOf(s, u).c[v]
    requires TableOf(s, u).version <= t.version
    requires TableOf(s, u).version == t.version ==>
      forall i :: 1 <= i <= topo.n ==> t.d[u][i] <= TableOf(s, u).d[u][i]
    ensures Tables(topo, WithTable(s, u, t, newest))
    ensures Improves(ViewOf(topo, s), ViewOf(topo, WithTable(s, u, t, newest)))
  {
    WithTableTables(topo, s, u, t, newest);
    var s' := WithTable(s, u, t, newest);
    var e, f := ViewOf(topo, s), ViewOf(topo, s');
    forall v | 1 <= v <= topo.n
      ensures f.g[v] == TableOf(s', v).c && e.g[v] == TableOf(s, v).c
      ensures e.vers[v] <= f.vers[v]
      ensures e.vers[v] == f.vers[v] ==> forall i :: 1 <= i <= topo.n ==> f.rows[v][i] <= e.rows[v][i]
    {}
  }

  /** A link of `u` gets cheaper. */
  lemma LowerStep(topo: Topology, s: Net, u: nat, x: nat, value: int)
    requires Core(topo, s) && 1 <= u <= topo.n && 1 <= x <= topo.n && x != u && LegalValue(value)
    requires TableOf(s, u).c[x] > CostOf(value)
    ensures Core(topo, WithTable(s, u, UpdateCost(topo.n, TableOf(s, u), s.newest, x, value).0, s.newest))
  {
    var n, t := topo.n, TableOf(s, u);
    assert RouterOk(topo, s, u);
    var t2 := UpdateCost(n, t, s.newest, x, value).0;
    LoweredTable(n, t, s.newest, x, value);
    ReplacingImproves(topo, s, u, t2, s.newest);
    WithTableTables(topo, s, u, t2, s.newest);
    LowerTableOk(ViewOf(topo, s), ViewOf(topo, WithTable(s, u, t2, s.newest)), t, x, CostOf(value));
    OneTableImproves(topo, s, u, t2, s.newest);
  }

  lemma LoweredTable(n: nat, t: Table, newest: nat, x: nat, value: int)
    requires Settled(n, t) && 1 <= x <= n && x != t.me && LegalValue(value) && t.c[x] > CostOf(value)
    ensures var t' := UpdateCost(n, t, newest, x, value).0;
      && t' == Update(n, t.(c := t.c[x := CostOf(value)]), x).0
      && Settled(n, t') && t'.me == t.me && t'.version == t.version && t'.c == t.c[x := CostOf(value)]
      && forall i :: 1 <= i <= n ==> t'.d[t.me][i] <= t.d[t.me][i]
  {
    UpdateSettlesLower(n, t, x, CostOf(value));
  }

  lemma LowerTableOk(e: View, f: View, t: Table, x: nat, cost: int)
    requires ViewOk(e) && ViewOk(f) && Improves(e, f) && Settled(e.n, t) && TableOk(e, t) && t.version <= e.newest
    requires 1 <= x <= e.n && x != t.me && 1 <= cost < t.c[x]
    requires f.g[t.me] == t.c[x := cost]
    ensures InRange(e.n, Update(e.n, t.(c := t.c[x := cost]), x).0)
    ensures TableOk(f, Update(e.n, t.(c := t.c[x := cost]), x).0)
  {
    var t1 := t.(c := t.c[x := cost]);
    UpdateSettlesLower(e.n, t, x, cost);
    TableImproves(e, f, t);
    CheaperOwnLinks(f, t, t1);
    UpdateTableOk(f, t1, x);
  }

  lemma CheaperOwnLinks(e: View, t: Table, t1: Table)
    requires ViewOk(e) && InRange(e.n, t) && InRange(e.n, t1) && TableOk(e, t) && t1 == t.(c := t1.c)
    requires forall v :: 1 <= v <= e.n ==> t1.c[v] <= t.c[v]
    ensures TableOk(e, t1)
  {
    forall i | 1 <= i <= e.n
      ensures HopOk(e, t1, i)
    {
      assert HopOk(e, t, i);
    }
  }

  /** A link of `u` gets dearer: `u` alone is at the newest version, with nothing but its direct links. */
  lemma HigherStep(topo: Topology, s: Net, u: nat, x: nat, value: int)
    requires Core(topo, s) && 1 <= u <= topo.n && 1 <= x <= topo.n && x != u && LegalValue(value)
    requires TableOf(s, u).c[x] < CostOf(value)
    ensures Core(topo, WithTable(s, u, UpdateCost(topo.n, TableOf(s, u), s.newest, x, value).0, s.newest + 1))
  {
    var n, t := topo.n, TableOf(s, u);
    assert RouterOk(topo, s, u);
    var t2 := UpdateCost(n, t, s.newest, x, value).0;
    RaisedTable(n, t, s.newest, x, value);
    ReplacingImproves(topo, s, u, t2, s.newest + 1);
    WithTableTables(topo, s, u, t2, s.newest + 1);
    RaisedTableOk(ViewOf(topo, WithTable(s, u, t2, s.newest + 1)), t, s.newest, x, value);
    OneTableImproves(topo, s, u, t2, s.newest + 1);
  }

  lemma RaisedTable(n: nat, t: Table, newest: nat, x: nat, value: int)
    requires Settled(n, t) && 1 <= x <= n && x != t.me && LegalValue(value) && t.c[x] < CostOf(value)
    ensures var t' := UpdateCost(n, t, newest, x, value).0;
      && Settled(n, t') && t'.me == t.me && t'.version == newest + 1 && t'.c == t.c[x := CostOf(value)]
  {
    ResetSettles(n, t, newest + 1, t.c[x := CostOf(value)], x);
  }

  lemma RaisedTableOk(f: View, t: Table, newest: nat, x: nat, value: int)
    requires ViewOk(f) && Settled(f.n, t) && 1 <= x <= f.n && x != t.me && LegalValue(value)
    requires t.c[x] < CostOf(value) && f.g[t.me] == t.c[x := CostOf(value)]
    ensures InRange(f.n, UpdateCost(f.n, t, newest, x, value).0)
    ensures TableOk(f, UpdateCost(f.n, t, newest, x, value).0)
  {
    var t1 := Reset(t).(version := newest + 1, c := t.c[x := CostOf(value)]);
    ResetSettles(f.n, t, newest + 1, t1.c, x);
    ClearedTableOk(f, t1);
    UpdateTableOk(f, t1, x);
  }

  /** updateC in any of its three cases. */
  lemma CostStep(topo: Topology, s: Net, u: nat, x: nat, value: int)
    requires Core(topo, s) && 1 <= u <= topo.n && 1 <= x <= topo.n && x != u && LegalValue(value)
    ensures Settled(topo.n, TableOf(s, u))
    ensures var (t, newest, _) := UpdateCost(topo.n, TableOf(s, u), s.newest, x, value);
      Core(topo, WithTable(s, u, t, newest))
  {
    assert Settled(topo.n, TableOf(s, u));
    var t := TableOf(s, u);
    if t.c[x] > CostOf(value) {
      LowerStep(topo, s, u, x, value);
    } else if t.c[x] < CostOf(value) {
      HigherStep(topo, s, u, x, value);
    } else {
      assert s.routers[u := s.routers[u]] == s.routers;
      assert WithTable(s, u, t, s.newest) == s;
    }
  }

  /** updateDV(exRID, exDV, version) with a vector that is in order. */
  lemma HearStep(topo: Topology, s: Net, u: nat, w: Wire)
    requires Core(topo, s) && 1 <= u <= topo.n && 1 <= w.link.src <= topo.n && w.link.src != u
    requires VectorOk(ViewOf(topo, s), w)
    ensures Settled(topo.n, TableOf(s, u))
    ensures var (t, _) := UpdateFrom(topo.n, TableOf(s, u), w.link.src, w.row, w.version);
      Core(topo, WithTable(s, u, t, s.newest))
  {
    assert Settled(topo.n, TableOf(s, u));
    var n, t, x := topo.n, TableOf(s, u), w.link.src;
    if w.version < t.version {
      assert s.routers[u := s.routers[u]] == s.routers;
      assert WithTable(s, u, t, s.newest) == s;
    } else {
      assert RouterOk(topo, s, u);
      assert LegalRow(n, w.row);
      var t2 := UpdateFrom(n, t, x, w.row, w.version).0;
      HeardTable(n, t, x, w.row, w.version);
      ReplacingImproves(topo, s, u, t2, s.newest);
      WithTableTables(topo, s, u, t2, s.newest);
      HearTableOk(ViewOf(topo, s), ViewOf(topo, WithTable(s, u, t2, s.newest)), t, w);
      OneTableImproves(topo, s, u, t2, s.newest);
    }
  }

  lemma HeardTable(n: nat, t: Table, x: nat, row: Row, version: nat)
    requires Settled(n, t) && 1 <= x <= n && x != t.me && LegalRow(n, row) && version >= t.version
    ensures var t' := UpdateFrom(n, t, x, row, version).0;
      && Settled(n, t') && t'.me == t.me && t'.c == t.c && t'.version == version
      && (version == t.version ==> forall i :: 1 <= i <= n ==> t'.d[t.me][i] <= t.d[t.me][i])
  {
    StoreSettles(n, t, x, row, version);
  }

  lemma HearTableOk(e: View, f: View, t: Table, w: Wire)
    requires Shaped(e.n, t) && |w.row| == MAXN && 1 <= w.link.src <= e.n && w.link.src != t.me
    requires ViewOk(e) && ViewOk(f) && Improves(e, f) && e.g[t.me] == f.g[t.me] == t.c
    requires Settled(e.n, t) && TableOk(e, t) && VectorOk(e, w) && w.version >= t.version
    ensures InRange(e.n, UpdateFrom(e.n, t, w.link.src, w.row, w.version).0)
    ensures TableOk(f, UpdateFrom(e.n, t, w.link.src, w.row, w.version).0)
  {
    var x := w.link.src;
    StoreSettles(e.n, t, x, w.row, w.version);
    var t0 := if w.version > t.version then Reset(t).(version := w.version) else t;
    var t1 := t0.(d := t0.d[x := w.row]);
    if w.version > t.version {
      ClearedTableOk(e, t0);
    }
    StoreTableOk(e, t0, w);
    TableImproves(e, f, t1);
    UpdateTableOk(f, t1, x);
  }

  lemma StoreTableOk(e: View, t: Table, w: Wire)
    requires ViewOk(e) && InRange(e.n, t) && 1 <= w.link.src <= e.n && w.link.src != t.me
    requires TableOk(e, t) && t.version == w.version && VectorOk(e, w)
    requires InRange(e.n, t.(d := t.d[w.link.src := w.row]))
    ensures TableOk(e, t.(d := t.d[w.link.src := w.row]))
  {
    var t1 := t.(d := t.d[w.link.src := w.row]);
    forall v | 1 <= v <= e.n
      ensures t.version == e.newest ==> Sound(e, v, t1.d[v])
      ensures v != t.me ==> Behind(e, v, t1.d[v], t.version)
    {
      assert t.version == e.newest ==> Sound(e, v, t.d[v]);
      assert v != t.me ==> Behind(e, v, t.d[v], t.version);
    }
    forall i | 1 <= i <= e.n
      ensures HopOk(e, t1, i)
    {
      assert HopOk(e, t, i);
    }
  }

  // ---------- One event ----------

  /** Beyond the tables, the newest version and the vectors in flight nothing matters; a broadcast is in order. */
  lemma CoreDepends(topo: Topology, s: Net, s': Net, u: nat)
    requires Core(topo, s) && 1 <= u <= topo.n
    requires |s'.routers| == |s.routers| && s'.newest == s.newest
    requires forall v :: 0 <= v <= topo.n ==> TableOf(s', v) == TableOf(s, v)
    requires TableOf(s, u).me < |TableOf(s, u).d|
    requires forall w :: w in s'.wires ==> w in s.wires || w in Broadcast(topo, TableOf(s, u))
    ensures Core(topo, s')
  {
    var e, f := ViewOf(topo, s), ViewOf(topo, s');
    assert e.g == f.g && e.rows == f.rows && e.vers == f.vers;
    forall v | 1 <= v <= topo.n
      ensures RouterOk(topo, s', v)
    {
      assert RouterOk(topo, s, v);
    }
    forall w | w in s'.wires
      ensures WireShaped(topo, w) && VectorOk(f, w)
    {
      assert RouterOk(topo, s, u) && Settled(topo.n, TableOf(s, u));
      assert LegalRow(topo.n, TableOf(s, u).d[u]);
    }
  }

  /** A DV message keeps the tables in order. */
  lemma DeliverKeeps(topo: Topology, s: Net, w: Wire)
    requires NetShaped(topo, s) && Core(topo, s) && w in s.wires
    ensures WireShaped(topo, w) && Core(topo, Deliver(topo, s, w))
  {
    DeliverShaped(topo, s, w);
    var n, u, x := topo.n, w.link.dst, w.link.src;
    assert LegalPorts(topo, u, s.routers[u]);
    var value := PortValue(s.routers[u], w.link.port);
    CostStep(topo, s, u, x, value);
    var (t1, newest, change) := UpdateCost(n, TableOf(s, u), s.newest, x, value);
    var s1 := WithTable(s, u, t1, newest);
    assert VectorOk(ViewOf(topo, s1), w);
    HearStep(topo, s1, u, w);
    var (t2, changed) := UpdateFrom(n, t1, x, w.row, w.version);
    var s2 := WithTable(s1, u, t2, newest);
    CoreDepends(topo, s2, Deliver(topo, s, w), u);
  }

  lemma SetPortKeeps(topo: Topology, s: Net, u: nat, port: int, value: int)
    requires NetShaped(topo, s) && Core(topo, s) && 1 <= u <= topo.n && LegalValue(value)
    ensures LegalPorts(topo, u, s.routers[u]) && Core(topo, SetPort(topo, s, u, port, value))
  {
    SetPortShaped(topo, s, u, port, value);
    var r := s.routers[u];
    var s' := SetPort(topo, s, u, port, value);
    if port in r.portPeer {
      var x := r.portPeer[port];
      assert Link(x, u, port) in topo.links;
      CostStep(topo, s, u, x, value);
      var (t, newest, _) := UpdateCost(topo.n, r.dv, s.newest, x, value);
      CoreDepends(topo, WithTable(s, u, t, newest), s', u);
    } else {
      CoreDepends(topo, s, s', u);
    }
  }

  /** Only the cost of the link to `x` changes in updateC, and none in updateDV. */
  lemma CostsTouched(n: nat, t: Table, newest: nat, x: nat, value: int, row: Row, version: nat)
    requires Shaped(n, t) && 1 <= x <= n && |row| == MAXN
    ensures UpdateCost(n, t, newest, x, value).0.c == t.c[x := CostOf(value)]
    ensures UpdateFrom(n, t, x, row, version).0.c == t.c
  {}

  /** `Learned` and `PeersKnown` at one router. */
  predicate Knows(n: nat, r: Router)
    requires Shaped(n, r.dv)
  {
    && (forall v :: 1 <= v <= n && v != r.dv.me && r.dv.c[v] < INF ==> v in r.peerPort)
    && forall port :: port in r.portPeer ==> r.portPeer[port] in r.peerPort
  }

  lemma DeliverKnows(topo: Topology, s: Net, w: Wire)
    requires NetShaped(topo, s) && w in s.wires
    requires 1 <= w.link.dst <= topo.n && Knows(topo.n, s.routers[w.link.dst])
    ensures NetShaped(topo, Deliver(topo, s, w)) && Knows(topo.n, Deliver(topo, s, w).routers[w.link.dst])
  {
    DeliverShaped(topo, s, w);
    var r := s.routers[w.link.dst];
    var value := PortValue(r, w.link.port);
    var t1 := UpdateCost(topo.n, r.dv, s.newest, w.link.src, value).0;
    CostsTouched(topo.n, r.dv, s.newest, w.link.src, value, w.row, w.version);
    CostsTouched(topo.n, t1, s.newest, w.link.src, value, w.row, w.version);
  }

  lemma SetPortKnows(topo: Topology, s: Net, u: nat, port: int, value: int)
    requires NetShaped(topo, s) && 1 <= u <= topo.n && LegalValue(value) && Knows(topo.n, s.routers[u])
    ensures LegalPorts(topo, u, s.routers[u]) && NetShaped(topo, SetPort(topo, s, u, port, value))
    ensures Knows(topo.n, SetPort(topo, s, u, port, value).routers[u])
  {
    SetPortShaped(topo, s, u, port, value);
    var r := s.routers[u];
    if port in r.portPeer {
      CostsTouched(topo.n, r.dv, s.newest, r.portPeer[port], value, r.dv.c, 0);
    }
  }

  /** Where only one router's state changes, to one that `Knows`, the rest follows. */
  lemma KnowsAll(topo: Topology, s: Net, s': Net, u: nat)
    requires NetShaped(topo, s) && NetShaped(topo, s') && Tables(topo, s) && Tables(topo, s')
    requires Learned(topo, s) && PeersKnown(topo, s) && 1 <= u <= topo.n && Knows(topo.n, s'.routers[u])
    requires forall v :: 1 <= v <= topo.n && v != u ==> s'.routers[v] == s.routers[v]
    ensures Learned(topo, s') && PeersKnown(topo, s')
  {
    forall v, x | 1 <= v <= topo.n && 1 <= x <= topo.n && v != x && TableOf(s', v).c[x] < INF
      ensures x in s'.routers[v].peerPort
    {
      assert v != u ==> s'.routers[v] == s.routers[v];
      assert TableOf(s', v).me == v;
    }
    forall v, port | 1 <= v <= topo.n && port in s'.routers[v].portPeer
      ensures s'.routers[v].portPeer[port] in s'.routers[v].peerPort
    {
      assert v != u ==> s'.routers[v] == s.routers[v];
    }
  }

  lemma LearnedKeeps(topo: Topology, s: Net, e: Event)
    requires Inv(topo, s) && Enabled(topo, s, e) && Tables(topo, Apply(topo, s, e))
    ensures Learned(topo, Apply(topo, s, e)) && PeersKnown(topo, Apply(topo, s, e))
  {
    match e {
      case Arrive(w) =>
        assert WireShaped(topo, w);
        DeliverKnows(topo, s, w);
        KnowsAll(topo, s, Apply(topo, s, e), w.link.dst);
      case Change(u, port, value) =>
        SetPortKnows(topo, s, u, port, value);
        KnowsAll(topo, s, Apply(topo, s, e), u);
      case _ =>
    }
  }

  /** Every event keeps the invariant. */
  lemma StepKeeps(topo: Topology, s: Net, e: Event)
    requires Inv(topo, s) && Enabled(topo, s, e)
    ensures Inv(topo, Apply(topo, s, e))
  {
    match e {
      case Arrive(w) => DeliverKeeps(topo, s, w);
      case Change(u, port, value) => SetPortKeeps(topo, s, u, port, value);
      case Trigger(u) => CoreDepends(topo, s, Apply(topo, s, e), u);
      case _ => CoreDepends(topo, s, Apply(topo, s, e), 1);
    }
    LearnedKeeps(topo, s, e);
  }

  lemma {:induction false} RunKeeps(topo: Topology, s: Net, es: seq<Event>)
    requires Inv(topo, s) && Valid(topo, s, es)
    ensures Inv(topo, After(topo, s, es))
    decreases |es|
  {
    if es != [] {
      StepKeeps(topo, s, es[0]);
      RunKeeps(topo, Apply(topo, s, es[0]), es[1..]);
    }
  }

  lemma InitOk(topo: Topology, s: Net)
    requires InitNet(topo, s)
    ensures Inv(topo, s)
  {
    forall u | 1 <= u <= topo.n
      ensures Settled(topo.n, TableOf(s, u)) && TableOf(s, u).me == u
    {
      InitSettled(topo.n, u);
    }
    forall u | 1 <= u <= topo.n
      ensures RouterOk(topo, s, u)
    {
      ClearedTableOk(ViewOf(topo, s), TableOf(s, u));
    }
  }

  // ---------- The theorems ----------

  /** The current cost of every link, as the router at its near end knows it. */
  ghost function LinkCosts(topo: Topology, s: Net): (g: Graph)
    requires Tables(topo, s)
    ensures IsGraph(g, topo.n)
  {
    ViewOf(topo, s).g
  }

  /** In every run, each router's table satisfies the local Bellman invariant; and at a router at the newest
      version, or in a vector in flight that carries it, no finite distance is below the cost of some real walk
      over the links as they are now. */
  lemma NeverUnderestimates(topo: Topology, s: Net, es: seq<Event>, u: nat, i: nat)
    requires InitNet(topo, s) && NetShaped(topo, s) && Valid(topo, s, es) && 1 <= u <= topo.n && 1 <= i <= topo.n
    ensures var t := After(topo, s, es);
      && Tables(topo, t) && Settled(topo.n, TableOf(t, u))
      && (TableOf(t, u).version == t.newest && TableOf(t, u).d[u][i] < INF ==>
            Within(LinkCosts(topo, t), topo.n, u, i, TableOf(t, u).d[u][i]))
      && forall w :: w in t.wires ==>
           && LegalRow(topo.n, w.row)
           && (w.version == t.newest && w.row[i] < INF ==>
                 Within(LinkCosts(topo, t), topo.n, w.link.src, i, w.row[i]))
  {
    InitOk(topo, s);
    RunKeeps(topo, s, es);
    var t := After(topo, s, es);
    assert Settled(topo.n, TableOf(t, u)) && RouterOk(topo, t, u);
    if TableOf(t, u).version == t.newest {
      assert Sound(ViewOf(topo, t), u, TableOf(t, u).d[u]);
    }
  }

  /** `u` sends packets for `i` to router `v`, through a port at the end of a link from `v`. */
  ghost predicate ForwardsTo(topo: Topology, s: Net, u: nat, i: nat, v: nat)
    requires Tables(topo, s) && 1 <= u <= topo.n && 1 <= i <= topo.n
  {
    && u != i && Remaining(topo, s, u, i) < INF && v == TableOf(s, u).next[i]
    && v in s.routers[u].peerPort && Link(v, u, PortTowards(s.routers[u], i)) in topo.links
  }

  function Remaining(topo: Topology, s: Net, u: nat, i: nat): int
    requires Tables(topo, s) && 1 <= u <= topo.n && 1 <= i <= topo.n
  {
    assert Settled(topo.n, TableOf(s, u));
    TableOf(s, u).d[u][i]
  }

  /** One hop from any router, outdated or not: over a link that is up, to the destination itself, or to a router at a
      later version, or to one at the same version and strictly nearer. */
  lemma Hop(topo: Topology, s: Net, u: nat, i: nat)
    requires Inv(topo, s) && 1 <= u <= topo.n && 1 <= i <= topo.n && u != i && Remaining(topo, s, u, i) < INF
    ensures var v := TableOf(s, u).next[i]; var c := TableOf(s, u).c[v];
      && 1 <= v <= topo.n && ForwardsTo(topo, s, u, i, v)
      && 1 <= c < INF && c == LinkCosts(topo, s)[u][v]
      && if v == i then c <= Remaining(topo, s, u, i)
         else TableOf(s, u).version <= TableOf(s, v).version &&
              (TableOf(s, v).version == TableOf(s, u).version ==>
                 c + Remaining(topo, s, v, i) <= Remaining(topo, s, u, i))
  {
    var v := TableOf(s, u).next[i];
    assert Settled(topo.n, TableOf(s, u));
    HopInRange(topo.n, TableOf(s, u), i);
    assert RouterOk(topo, s, u);
    assert HopOk(ViewOf(topo, s), TableOf(s, u), i);
    HopPort(topo, s, u, i, v);
  }

  lemma HopInRange(n: nat, t: Table, i: nat)
    requires Settled(n, t) && 1 <= i <= n && i != t.me && t.d[t.me][i] < INF
    ensures 1 <= t.next[i] <= n && t.next[i] != t.me && 1 <= t.c[t.next[i]]
  {}

  lemma HopPort(topo: Topology, s: Net, u: nat, i: nat, v: nat)
    requires NetShaped(topo, s) && Tables(topo, s) && Learned(topo, s) && 1 <= u <= topo.n && 1 <= i <= topo.n
    requires u != i && Remaining(topo, s, u, i) < INF && v == TableOf(s, u).next[i] && 1 <= v <= topo.n && v != u
    requires TableOf(s, u).c[v] < INF
    ensures ForwardsTo(topo, s, u, i, v)
  {
    assert LegalPorts(topo, u, s.routers[u]);
  }

  // ---------- No cycle anywhere ----------

  /** Packets for `i` that come by `p[0]` go along `p`. */
  ghost predicate Route(topo: Topology, s: Net, p: seq<nat>, i: nat)
    requires Tables(topo, s) && 1 <= i <= topo.n
  {
    && (forall k :: 0 <= k < |p| ==> 1 <= p[k] <= topo.n)
    && forall k :: 0 <= k < |p| - 1 ==> ForwardsTo(topo, s, p[k], i, p[k + 1])
  }

  /** `v` comes after `u` on the way to `i`: it is the destination, or at a later version, or nearer at the same. */
  ghost predicate Onward(topo: Topology, s: Net, u: nat, v: nat, i: nat)
    requires Tables(topo, s) && 1 <= u <= topo.n && 1 <= v <= topo.n && 1 <= i <= topo.n
  {
    || v == i
    || TableOf(s, u).version < TableOf(s, v).version
    || (TableOf(s, u).version == TableOf(s, v).version && Remaining(topo, s, v, i) < Remaining(topo, s, u, i))
  }

  lemma {:induction false} RouteOnward(topo: Topology, s: Net, p: seq<nat>, i: nat, k: nat, l: nat)
    requires Inv(topo, s) && 1 <= i <= topo.n && Route(topo, s, p, i) && k < l < |p|
    ensures p[k] != i && Onward(topo, s, p[k], p[l], i)
    decreases l - k
  {
    assert ForwardsTo(topo, s, p[k], i, p[k + 1]);
    Hop(topo, s, p[k], i);
    if k + 1 < l {
      RouteOnward(topo, s, p, i, k + 1, l);
    }
  }

  /** In every reachable state, with routers at any versions and any vectors in flight, packets following next hops
      never come by the same router twice; along the way the version never falls, and while it stays the distance
      does. */
  lemma NeverCycles(topo: Topology, s: Net, es: seq<Event>, p: seq<nat>, i: nat)
    requires InitNet(topo, s) && NetShaped(topo, s) && Valid(topo, s, es) && 1 <= i <= topo.n
    requires Tables(topo, After(topo, s, es)) ==> Route(topo, After(topo, s, es), p, i)
    ensures var t := After(topo, s, es);
      && Tables(topo, t) && Route(topo, t, p, i)
      && forall k, l :: 0 <= k < l < |p| ==> p[k] != p[l] && Onward(topo, t, p[k], p[l], i)
  {
    InitOk(topo, s);
    RunKeeps(topo, s, es);
    forall k, l | 0 <= k < l < |p|
      ensures p[k] != p[l] && Onward(topo, After(topo, s, es), p[k], p[l], i)
    {
      RouteOnward(topo, After(topo, s, es), p, i, k, l);
    }
  }

  // ---------- At the newest version the destination is reached ----------

  /** All but the end of `p` are at the newest version. */
  ghost predicate Current(topo: Topology, s: Net, p: seq<nat>)
    requires Tables(topo, s)
  {
    forall k :: 0 <= k < |p| - 1 ==> 1 <= p[k] <= topo.n && TableOf(s, p[k]).version == s.newest
  }

  lemma RouteExtends(topo: Topology, s: Net, u: nat, q: seq<nat>, i: nat)
    requires Tables(topo, s) && 1 <= i <= topo.n && Route(topo, s, q, i) && |q| > 0 && 1 <= u <= topo.n
    requires ForwardsTo(topo, s, u, i, q[0]) && Current(topo, s, q) && TableOf(s, u).version == s.newest
    ensures Route(topo, s, [u] + q, i) && Current(topo, s, [u] + q)
  {
    var p := [u] + q;
    forall k | 0 <= k < |p| - 1
      ensures ForwardsTo(topo, s, p[k], i, p[k + 1]) && TableOf(s, p[k]).version == s.newest
    {
      if k > 0 {
        assert p[k] == q[k - 1] && p[k + 1] == q[k];
      }
    }
  }

  lemma {:induction false} Follow(topo: Topology, s: Net, u: nat, i: nat) returns (p: seq<nat>)
    requires Inv(topo, s) && 1 <= u <= topo.n && 1 <= i <= topo.n
    requires u != i ==> TableOf(s, u).version == s.newest && Remaining(topo, s, u, i) < INF
    ensures Walk(LinkCosts(topo, s), topo.n, p, u, i) && Route(topo, s, p, i) && Current(topo, s, p)
    ensures Cost(LinkCosts(topo, s), topo.n, p) <= Remaining(topo, s, u, i)
    decreases Remaining(topo, s, u, i)
  {
    assert Settled(topo.n, TableOf(s, u));
    if u == i {
      p := [u];
    } else {
      Hop(topo, s, u, i);
      var v := TableOf(s, u).next[i];
      HopCurrent(topo, s, v, i);
      var q := Follow(topo, s, v, i);
      RouteExtends(topo, s, u, q, i);
      WalkExtends(LinkCosts(topo, s), topo.n, u, q, v, i);
      p := [u] + q;
    }
  }

  lemma HopCurrent(topo: Topology, s: Net, v: nat, i: nat)
    requires Inv(topo, s) && 1 <= v <= topo.n && 1 <= i <= topo.n
    ensures TableOf(s, v).version <= s.newest && 0 <= Remaining(topo, s, v, i) && Remaining(topo, s, i, i) == 0
  {
    assert RouterOk(topo, s, v) && Settled(topo.n, TableOf(s, v)) && Settled(topo.n, TableOf(s, i));
    assert LegalRow(topo.n, TableOf(s, v).d[v]);
  }

  /** From any router at the newest version, in any reachable state, following the next hops for a destination at
      finite distance: stays among routers at the newest version until the destination is reached, gets strictly
      nearer at each hop, so meets no router twice, and costs at most the distance claimed at the start. */
  lemma LoopFree(topo: Topology, s: Net, es: seq<Event>, u: nat, i: nat) returns (p: seq<nat>)
    requires InitNet(topo, s) && NetShaped(topo, s) && Valid(topo, s, es) && 1 <= u <= topo.n && 1 <= i <= topo.n
    requires var t := After(topo, s, es);
      u != i ==> TableOf(t, u).version == t.newest && TableOf(t, u).d[u][i] < INF
    ensures var t := After(topo, s, es);
      && Tables(topo, t)
      && Walk(LinkCosts(topo, t), topo.n, p, u, i)
      && Cost(LinkCosts(topo, t), topo.n, p) <= TableOf(t, u).d[u][i]
      && Route(topo, t, p, i) && Current(topo, t, p)
      && forall k, l :: 0 <= k < l < |p| ==>
           p[k] != p[l] && Remaining(topo, t, p[l], i) < Remaining(topo, t, p[k], i)
  {
    InitOk(topo, s);
    RunKeeps(topo, s, es);
    var t := After(topo, s, es);
    p := Follow(topo, t, u, i);
    forall k, l | 0 <= k < l < |p|
      ensures p[k] != p[l] && Remaining(topo, t, p[l], i) < Remaining(topo, t, p[k], i)
    {
      RouteOnward(topo, t, p, i, k, l);
      RouteNearer(topo, t, p, i, k, l);
    }
  }

  lemma RouteNearer(topo: Topology, s: Net, p: seq<nat>, i: nat, k: nat, l: nat)
    requires Inv(topo, s) && 1 <= i <= topo.n && Route(topo, s, p, i) && Current(topo, s, p) && k < l < |p|
    requires p[k] != i && Onward(topo, s, p[k], p[l], i)
    ensures Remaining(topo, s, p[l], i) < Remaining(topo, s, p[k], i)
  {
    HopCurrent(topo, s, p[l], i);
    assert Settled(topo.n, TableOf(s, p[k]));
    assert 1 <= Remaining(topo, s, p[k], i);
  }

  // ---------- Exactness at quiescence ----------

  /** Every router is at the newest version and holds what each neighbour would send it now. */
  ghost predicate Quiescent(topo: Topology, s: Net)
    requires Tables(topo, s)
  {
    && (forall u :: 1 <= u <= topo.n ==> TableOf(s, u).version == s.newest)
    && forall u, v, i :: 1 <= u <= topo.n && 1 <= v <= topo.n && 1 <= i <= topo.n && LinkCosts(topo, s)[u][v] < INF ==>
         StoredRow(topo, s, u, v)[i] == Remaining(topo, s, v, i)
  }

  /** What `u` holds of the distances of `v`. */
  function StoredRow(topo: Topology, s: Net, u: nat, v: nat): (r: Row)
    requires Tables(topo, s) && 1 <= u <= topo.n && 1 <= v <= topo.n
    ensures |r| == MAXN
  {
    assert Settled(topo.n, TableOf(s, u));
    TableOf(s, u).d[v]
  }

  lemma {:induction false} QuiescentBounds(topo: Topology, s: Net, p: seq<nat>, u: nat, i: nat)
    requires Tables(topo, s) && Quiescent(topo, s) && 1 <= i <= topo.n && Walk(LinkCosts(topo, s), topo.n, p, u, i)
    ensures Remaining(topo, s, u, i) <= Cost(LinkCosts(topo, s), topo.n, p)
  {
    assert Settled(topo.n, TableOf(s, u));
    if |p| > 1 {
      var v := p[1];
      WalkTail(LinkCosts(topo, s), topo.n, p, u, i);
      QuiescentBounds(topo, s, p[1..], v, i);
      assert RelaxedVia(topo.n, TableOf(s, u), v);
      assert StoredRow(topo, s, u, v)[i] == Remaining(topo, s, v, i);
    }
  }

  /** In every reachable state that is quiescent, whatever is in flight, every distance is the exact one over the
      links as they are now. */
  lemma ExactAtQuiescence(topo: Topology, s: Net, es: seq<Event>, u: nat, i: nat)
    requires InitNet(topo, s) && NetShaped(topo, s) && Valid(topo, s, es) && 1 <= u <= topo.n && 1 <= i <= topo.n
    requires Tables(topo, After(topo, s, es)) ==> Quiescent(topo, After(topo, s, es))
    ensures var t := After(topo, s, es);
      Tables(topo, t) && Distance(LinkCosts(topo, t), topo.n, u, i, TableOf(t, u).d[u][i])
  {
    NeverUnderestimates(topo, s, es, u, i);
    var t := After(topo, s, es);
    assert LegalRow(topo.n, TableOf(t, u).d[u]);
    forall p | Walk(LinkCosts(topo, t), topo.n, p, u, i)
      ensures Remaining(topo, t, u, i) <= Cost(LinkCosts(topo, t), topo.n, p)
    {
      QuiescentBounds(topo, t, p, u, i);
    }
  }
}
