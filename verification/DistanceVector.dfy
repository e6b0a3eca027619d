/** The routing table of one router of lab 3 (`struct DV`) as a value, and what its methods do to it. */
module DistanceVector {
  import opened ShortestPaths

  const MAXN := 100

  type Row = seq<int>

  /** Rows are indexed by router number; entries outside 1..n are never read.
      `c` holds the costs of the own links, `d[me]` the own distances, `d[v]` what `v` last sent,
      `next` the next router towards each destination, 0 for none. */
  datatype Table = Table(me: nat, version: nat, c: Row, d: seq<Row>, next: seq<nat>)

  predicate Shaped(n: nat, t: Table) {
    && 1 <= t.me <= n < MAXN
    && |t.c| == |t.d| == |t.next| == MAXN
    && forall v {:trigger t.d[v]} :: 0 <= v < MAXN ==> |t.d[v]| == MAXN
  }

  const FAR: Row := seq(MAXN, _ => INF)

  function Cleared(me: nat): seq<Row>
    requires me < MAXN
  {
    seq(MAXN, v => if v == me then FAR[me := 0] else FAR)
  }

  function Init(me: nat): Table
    requires me < MAXN
  {
    Table(me, 0, FAR[me := 0], Cleared(me), seq(MAXN, _ => 0))
  }

  function Reset(t: Table): Table
    requires t.me < MAXN
  {
    t.(d := Cleared(t.me), next := seq(MAXN, _ => 0))
  }

  /** The own distances to 1..n lowered to what `offer` offers, reached through `hop` where that is lower. */
  function Relax(n: nat, t: Table, offer: Row, hop: seq<nat>): Table
    requires Shaped(n, t) && |offer| == |hop| == MAXN
  {
    var own := t.d[t.me];
    t.(d := t.d[t.me := seq(MAXN, i requires 0 <= i < MAXN =>
                              if 1 <= i <= n && offer[i] < own[i] then offer[i] else own[i])],
       next := seq(MAXN, i requires 0 <= i < MAXN =>
                     if 1 <= i <= n && offer[i] < own[i] then hop[i] else t.next[i]))
  }

  /** The loop over direct links. */
  function RelaxDirect(n: nat, t: Table): (t': Table)
    requires Shaped(n, t)
    ensures Shaped(n, t') && t'.me == t.me
  {
    Relax(n, t, t.c, seq(MAXN, i requires 0 <= i => i))
  }

  /** The loop over what router `x` can reach. */
  function RelaxVia(n: nat, t: Table, x: nat): (t': Table)
    requires Shaped(n, t) && 1 <= x <= n
    ensures Shaped(n, t') && t'.me == t.me
  {
    Relax(n, t, seq(MAXN, i requires 0 <= i < MAXN => t.c[x] + t.d[x][i]), seq(MAXN, _ => x))
  }

  /** updateDV(tgtRID): the new table, and whether an own distance changed. */
  function Update(n: nat, t: Table, x: nat): (r: (Table, bool))
    requires Shaped(n, t) && 1 <= x <= n
    ensures Shaped(n, r.0) && r.0.me == t.me
  {
    var t' := RelaxVia(n, RelaxDirect(n, t), x);
    (t', t'.d[t.me] != t.d[t.me])
  }

  /** updateDV(exRID, exDV, version): a vector arrives from router `x`. */
  function UpdateFrom(n: nat, t: Table, x: nat, row: Row, version: nat): (r: (Table, bool))
    requires Shaped(n, t) && 1 <= x <= n && |row| == MAXN
    ensures Shaped(n, r.0) && r.0.me == t.me
  {
    if version < t.version then (t, false)
    else
      var base := if version > t.version then Reset(t).(version := version) else t;
      Update(n, base.(d := base.d[x := row]), x)
  }

  datatype CostChange = Same | Lower | Higher

  function CostOf(value: int): int {
    if value == -1 then INF else value
  }

  /** updateC(tgtRID, value), where `newest` is the shared lstChangeVersion. */
  function UpdateCost(n: nat, t: Table, newest: nat, x: nat, value: int): (r: (Table, nat, CostChange))
    requires Shaped(n, t) && 1 <= x <= n
    ensures Shaped(n, r.0) && r.0.me == t.me
  {
    var cost := CostOf(value);
    if t.c[x] == cost then (t, newest, Same)
    else if t.c[x] > cost then (Update(n, t.(c := t.c[x := cost]), x).0, newest, Lower)
    else
      var base := Reset(t).(version := newest + 1, c := t.c[x := cost]);
      (Update(n, base, x).0, newest + 1, Higher)
  }

  // ---------- What the methods keep ----------

  /** A value the port of a link can be set to. */
  predicate LegalValue(value: int) {
    value == -1 || 1 <= value < INF
  }

  predicate LegalRow(n: nat, row: Row) {
    |row| == MAXN && n < MAXN && forall i :: 1 <= i <= n ==> 0 <= row[i] <= INF
  }

  /** Costs and distances lie in 0..INF, and only links to others cost something. */
  predicate InRange(n: nat, t: Table) {
    && Shaped(n, t)
    && t.c[t.me] == 0 && t.d[t.me][t.me] == 0
    && (forall v :: 1 <= v <= n && v != t.me ==> 1 <= t.c[v] <= INF)
    && (forall v {:trigger t.d[v]} :: 1 <= v <= n ==> LegalRow(n, t.d[v]))
    && (forall i :: 1 <= i <= n && i != t.me ==> 1 <= t.d[t.me][i])
    && t.next[t.me] == 0
    && forall i :: 1 <= i <= n && i != t.me ==>
         t.next[i] <= n && t.next[i] != t.me && (t.next[i] != 0 <==> t.d[t.me][i] < INF)
  }

  /** No distance can be improved through what `x` last sent. */
  predicate RelaxedVia(n: nat, t: Table, x: nat)
    requires Shaped(n, t) && 1 <= x <= n
  {
    forall i :: 1 <= i <= n ==> t.d[t.me][i] <= t.c[x] + t.d[x][i]
  }

  /** The local Bellman invariant: no distance can be improved by a direct link or through any neighbour. */
  predicate Settled(n: nat, t: Table) {
    && InRange(n, t)
    && (forall i :: 1 <= i <= n ==> t.d[t.me][i] <= t.c[i])
    && forall v :: 1 <= v <= n ==> RelaxedVia(n, t, v)
  }

  lemma RelaxKeepsRange(n: nat, t: Table, offer: Row, hop: seq<nat>)
    requires InRange(n, t) && |offer| == |hop| == MAXN
    requires forall i :: 1 <= i <= n ==>
      0 <= offer[i] && (i != t.me ==> 1 <= offer[i] && 1 <= hop[i] <= n && (offer[i] < INF ==> hop[i] != t.me))
    ensures InRange(n, Relax(n, t, offer, hop))
  {
    var t' := Relax(n, t, offer, hop);
    forall v | 1 <= v <= n
      ensures LegalRow(n, t'.d[v])
    {
      assert LegalRow(n, t.d[v]);
    }
  }

  /** `t'` is `t` with some own distances lowered. */
  predicate Lowered(t: Table, t': Table) {
    && t.me < MAXN && |t.d| == |t'.d| == MAXN
    && |t.d[t.me]| == |t'.d[t.me]| == MAXN
    && t'.me == t.me && t'.version == t.version && t'.c == t.c
    && (forall v :: 0 <= v < MAXN && v != t.me ==> t'.d[v] == t.d[v])
    && forall i :: 0 <= i < MAXN ==> t'.d[t.me][i] <= t.d[t.me][i]
  }

  lemma LoweredKeeps(n: nat, t: Table, t': Table, v: nat)
    requires Shaped(n, t) && Shaped(n, t') && Lowered(t, t') && 1 <= v <= n && v != t.me && RelaxedVia(n, t, v)
    ensures RelaxedVia(n, t', v)
  {
    assert t'.d[v] == t.d[v];
  }

  lemma DirectRelaxed(n: nat, t: Table)
    requires InRange(n, t)
    ensures var t' := RelaxDirect(n, t);
      InRange(n, t') && Lowered(t, t') && forall i :: 1 <= i <= n ==> t'.d[t.me][i] <= t.c[i]
  {
    RelaxKeepsRange(n, t, t.c, seq(MAXN, i requires 0 <= i => i));
  }

  lemma ViaRelaxed(n: nat, t: Table, x: nat)
    requires InRange(n, t) && 1 <= x <= n && x != t.me
    ensures var t' := RelaxVia(n, t, x); InRange(n, t') && Lowered(t, t') && RelaxedVia(n, t', x)
  {
    var offer := seq(MAXN, i requires 0 <= i < MAXN => t.c[x] + t.d[x][i]);
    assert LegalRow(n, t.d[x]);
    RelaxKeepsRange(n, t, offer, seq(MAXN, _ => x));
  }

  /** updateDV settles a table that was settled but for the direct links and the vector of `x`; no own distance
      grows. */
  lemma UpdateSettles(n: nat, t: Table, x: nat)
    requires InRange(n, t) && 1 <= x <= n && x != t.me
    requires forall v :: 1 <= v <= n && v != x ==> RelaxedVia(n, t, v)
    ensures Settled(n, Update(n, t, x).0) && Lowered(t, Update(n, t, x).0)
  {
    var t1 := RelaxDirect(n, t);
    var t' := RelaxVia(n, t1, x);
    DirectRelaxed(n, t);
    ViaRelaxed(n, t1, x);
    forall v | 1 <= v <= n
      ensures RelaxedVia(n, t', v)
    {
      if v != x && v != t.me {
        LoweredKeeps(n, t, t1, v);
        LoweredKeeps(n, t1, t', v);
      }
    }
  }

  /** Where an own distance after updateDV comes from: it is as before, or the direct link, or the sum through `x`;
      and `next` says which. */
  lemma UpdateOrigin(n: nat, t: Table, x: nat, i: nat)
    requires Shaped(n, t) && 1 <= x <= n && x != t.me && 1 <= i <= n
    ensures var t' := Update(n, t, x).0;
      || (t'.d[t.me][i] == t.d[t.me][i] && t'.next[i] == t.next[i])
      || (t'.d[t.me][i] == t.c[i] && t'.next[i] == i)
      || (t'.d[t.me][i] == t.c[x] + t.d[x][i] && t'.next[i] == x)
  {
    assert RelaxDirect(n, t).d[x] == t.d[x];
  }

  lemma ResetInRange(n: nat, t: Table)
    requires InRange(n, t)
    ensures InRange(n, Reset(t)) && forall v :: 1 <= v <= n && v != t.me ==> RelaxedVia(n, Reset(t), v)
    ensures RelaxedVia(n, Reset(t), t.me)
  {
    var t' := Reset(t);
    forall v | 1 <= v <= n
      ensures LegalRow(n, t'.d[v])
    {}
  }

  /** A vector stored spoils the invariant only for its own router. */
  lemma StoreInRange(n: nat, t: Table, x: nat, row: Row)
    requires InRange(n, t) && 1 <= x <= n && x != t.me && LegalRow(n, row)
    requires forall v :: 1 <= v <= n && v != x ==> RelaxedVia(n, t, v)
    ensures var t1 := t.(d := t.d[x := row]);
      InRange(n, t1) && forall v :: 1 <= v <= n && v != x ==> RelaxedVia(n, t1, v)
  {
    var t1 := t.(d := t.d[x := row]);
    forall v | 1 <= v <= n
      ensures LegalRow(n, t1.d[v])
      ensures v != x ==> RelaxedVia(n, t1, v)
    {
      assert LegalRow(n, t.d[v]);
      assert v != x ==> RelaxedVia(n, t, v);
    }
  }

  /** The table between storing the vector and updateDV, and after it. */
  lemma StoreSettles(n: nat, t: Table, x: nat, row: Row, version: nat)
    requires Settled(n, t) && 1 <= x <= n && x != t.me && LegalRow(n, row) && version >= t.version
    ensures var t0 := if version > t.version then Reset(t).(version := version) else t;
      var t1 := t0.(d := t0.d[x := row]);
      InRange(n, t0) && InRange(n, t1) && Settled(n, Update(n, t1, x).0) && Lowered(t1, Update(n, t1, x).0)
  {
    var t0 := t;
    if version > t.version {
      ResetInRange(n, t);
      t0 := Reset(t).(version := version);
      assert forall v :: 1 <= v <= n ==> RelaxedVia(n, Reset(t), v) ==> RelaxedVia(n, t0, v);
    }
    StoreInRange(n, t0, x, row);
    UpdateSettles(n, t0.(d := t0.d[x := row]), x);
  }

  /** A vector's arrival keeps the local Bellman invariant. */
  lemma UpdateFromSettles(n: nat, t: Table, x: nat, row: Row, version: nat)
    requires Settled(n, t) && 1 <= x <= n && x != t.me && LegalRow(n, row)
    ensures Settled(n, UpdateFrom(n, t, x, row, version).0)
  {
    if version >= t.version {
      StoreSettles(n, t, x, row, version);
    }
  }

  lemma UpdateSettlesLower(n: nat, t: Table, x: nat, cost: int)
    requires Settled(n, t) && 1 <= x <= n && x != t.me && 1 <= cost < t.c[x]
    ensures var t1 := t.(c := t.c[x := cost]);
      InRange(n, t1) && Settled(n, Update(n, t1, x).0) && Lowered(t1, Update(n, t1, x).0)
  {
    var t1 := t.(c := t.c[x := cost]);
    assert forall v :: 1 <= v <= n && v != x ==> RelaxedVia(n, t, v) ==> RelaxedVia(n, t1, v);
    UpdateSettles(n, t1, x);
  }

  lemma ResetSettles(n: nat, t: Table, version: nat, c: Row, x: nat)
    requires Settled(n, t) && 1 <= x <= n && x != t.me
    requires |c| == MAXN && c[t.me] == 0 && forall v :: 1 <= v <= n && v != t.me ==> 1 <= c[v] <= INF
    ensures var t1 := Reset(t).(version := version, c := c);
      InRange(n, t1) && Settled(n, Update(n, t1, x).0) && Lowered(t1, Update(n, t1, x).0)
  {
    ResetInRange(n, t);
    var t1 := Reset(t).(version := version, c := c);
    assert forall v :: 1 <= v <= n ==> LegalRow(n, Reset(t).d[v]);
    forall v | 1 <= v <= n
      ensures RelaxedVia(n, t1, v)
    {}
    UpdateSettles(n, t1, x);
  }

  /** A change of cost keeps the local Bellman invariant. */
  lemma UpdateCostSettles(n: nat, t: Table, newest: nat, x: nat, value: int)
    requires Settled(n, t) && 1 <= x <= n && x != t.me && LegalValue(value)
    ensures Settled(n, UpdateCost(n, t, newest, x, value).0)
  {
    var cost := CostOf(value);
    if t.c[x] > cost {
      UpdateSettlesLower(n, t, x, cost);
    } else if t.c[x] < cost {
      ResetSettles(n, t, newest + 1, t.c[x := cost], x);
    }
  }

  /** What updateC reports is what happens: the version is raised on an increase and on nothing else. */
  lemma ReportsChange(n: nat, t: Table, newest: nat, x: nat, value: int)
    requires Settled(n, t) && 1 <= x <= n && x != t.me && LegalValue(value)
    ensures var (t', newest', change) := UpdateCost(n, t, newest, x, value);
      && t'.c[x] == (if value == -1 then 0x3f3f3f3f else value)
      && (forall v :: 0 <= v < MAXN && v != x ==> t'.c[v] == t.c[v])
      && (change.Same? <==> t'.c[x] == t.c[x]) && (change.Same? ==> t' == t)
      && (change.Lower? <==> t'.c[x] < t.c[x]) && (change.Higher? <==> t.c[x] < t'.c[x])
      && (if change.Higher? then t'.version == newest' == newest + 1 else t'.version == t.version && newest' == newest)
  {
    UpdateCostSettles(n, t, newest, x, value);
  }

  lemma InitSettled(n: nat, me: nat)
    requires 1 <= me <= n < MAXN
    ensures Settled(n, Init(me))
  {}

  /** A settled table's sums stay far below 2^31, so `int` arithmetic in updateDV cannot overflow. */
  lemma NoOverflow(n: nat, t: Table, x: nat, i: nat)
    requires InRange(n, t) && 1 <= x <= n && 1 <= i <= n
    ensures 0 <= t.c[x] + t.d[x][i] < 0x80000000
  {
    assert LegalRow(n, t.d[x]);
  }
}
