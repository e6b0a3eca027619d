/** `struct DV` as it is written, on arrays updated in place, proved against module DistanceVector. */
module DistanceVectorLoops {
  import opened ShortestPaths
  import opened DistanceVector

  /** The static members the routers share. */
  class Shared {
    var totRouterNum: nat
    var lstChangeVersion: nat

    constructor ()
      ensures totRouterNum == 0 && lstChangeVersion == 0
    {
      totRouterNum, lstChangeVersion := 0, 0;
    }
  }

  /** The matrix held by a two-dimensional array. */
  ghost function Matrix(d: array2<int>): (m: seq<Row>)
    reads d
    ensures |m| == d.Length0
    ensures forall i :: 0 <= i < d.Length0 ==> |m[i]| == d.Length1
    ensures forall i, j :: 0 <= i < d.Length0 && 0 <= j < d.Length1 ==> m[i][j] == d[i, j]
  {
    seq(d.Length0, i requires 0 <= i < d.Length0 reads d =>
      seq(d.Length1, j requires 0 <= j < d.Length1 reads d => d[i, j]))
  }

  lemma MatrixIs(d: array2<int>, m: seq<Row>)
    requires |m| == d.Length0 && forall i :: 0 <= i < |m| ==> |m[i]| == d.Length1
    requires forall i, j :: 0 <= i < d.Length0 && 0 <= j < d.Length1 ==> m[i][j] == d[i, j]
    ensures Matrix(d) == m
  {
    forall i | 0 <= i < |m|
      ensures Matrix(d)[i] == m[i]
    {}
  }

  class DV {
    const shared: Shared
    const c: array<int>
    const d: array2<int>
    const nextRouter: array<nat>
    var routerID: nat
    var version: nat

    ghost predicate Sized()
      reads this
    {
      && c.Length == nextRouter.Length == d.Length0 == d.Length1 == MAXN
      && c as object != d && c as object != nextRouter && d as object != nextRouter
      && 1 <= routerID < MAXN
    }

    ghost predicate Valid()
      reads this, shared
    {
      Sized() && routerID <= shared.totRouterNum < MAXN
    }

    ghost function View(): (t: Table)
      reads this, c, d, nextRouter
    {
      Table(routerID, version, c[..], Matrix(d), nextRouter[..])
    }

    /** DV() followed by Init(mRouterID). */
    constructor (shared: Shared, mRouterID: nat)
      requires 1 <= mRouterID <= shared.totRouterNum < MAXN
      ensures Valid() && this.shared == shared && View() == Init(mRouterID)
      ensures fresh(c) && fresh(d) && fresh(nextRouter)
    {
      this.shared := shared;
      routerID := mRouterID;
      version := 0;
      c := new int[MAXN](_ => INF);
      d := new int[MAXN, MAXN]((_, _) => INF);
      nextRouter := new nat[MAXN](_ => 0);
      new;
      c[routerID] := 0;
      d[routerID, routerID] := 0;
      assert View().c == Init(mRouterID).c;
      MatrixIs(d, Cleared(mRouterID));
    }

    method Reset()
      requires Sized()
      modifies d, nextRouter
      ensures View() == DistanceVector.Reset(old(View()))
    {
      forall i, j | 0 <= i < MAXN && 0 <= j < MAXN {
        d[i, j] := INF;
      }
      forall i | 0 <= i < MAXN {
        nextRouter[i] := 0;
      }
      d[routerID, routerID] := 0;
      MatrixIs(d, Cleared(routerID));
    }

    /** The own row and the next hops are relaxed by `offer` and `hop` on 1..i-1 and as in `t` elsewhere. */
    ghost predicate RelaxedUpTo(t: Table, offer: Row, hop: seq<nat>, i: nat)
      requires Shaped(shared.totRouterNum, t) && |offer| == |hop| == MAXN
      reads this, shared, c, d, nextRouter
    {
      && Valid() && t.me == routerID && t.version == version && t.c == c[..]
      && var r := Relax(shared.totRouterNum, t, offer, hop);
      && (forall j :: 0 <= j < MAXN ==>
            && d[routerID, j] == (if j < i then r.d[t.me][j] else t.d[t.me][j])
            && nextRouter[j] == (if j < i then r.next[j] else t.next[j]))
      && forall v, j :: 0 <= v < MAXN && 0 <= j < MAXN && v != routerID ==> d[v, j] == t.d[v][j]
    }

    /** The first loop of updateDV(tgtRID). */
    method RelaxDirectLinks() returns (changed: bool)
      requires Valid()
      modifies d, nextRouter
      ensures View() == RelaxDirect(shared.totRouterNum, old(View()))
      ensures changed <==> View().d[routerID] != old(View().d[routerID])
    {
      ghost var t := View();
      ghost var hop := seq(MAXN, i requires 0 <= i => i);
      changed := false;
      var i := 1;
      while i <= shared.totRouterNum
        invariant 1 <= i <= shared.totRouterNum + 1
        invariant RelaxedUpTo(t, t.c, hop, i)
        invariant changed <==> exists j :: 0 <= j < i && d[routerID, j] != t.d[t.me][j]
      {
        if c[i] < d[routerID, i] {
          nextRouter[i] := i;
          d[routerID, i] := c[i];
          changed := true;
        }
        i := i + 1;
      }
      ghost var t' := RelaxDirect(shared.totRouterNum, t);
      MatrixIs(d, t'.d);
      assert nextRouter[..] == t'.next;
    }

    /** The second loop of updateDV(tgtRID). */
    method RelaxThrough(tgtRID: nat) returns (changed: bool)
      requires Valid() && 1 <= tgtRID <= shared.totRouterNum
      modifies d, nextRouter
      ensures View() == RelaxVia(shared.totRouterNum, old(View()), tgtRID)
      ensures changed <==> View().d[routerID] != old(View().d[routerID])
    {
      ghost var t := View();
      ghost var offer := seq(MAXN, i requires 0 <= i < MAXN => t.c[tgtRID] + t.d[tgtRID][i]);
      changed := false;
      var i := 1;
      while i <= shared.totRouterNum
        invariant 1 <= i <= shared.totRouterNum + 1
        invariant RelaxedUpTo(t, offer, seq(MAXN, _ => tgtRID), i)
        invariant changed <==> exists j :: 0 <= j < i && d[routerID, j] != t.d[t.me][j]
      {
        if c[tgtRID] + d[tgtRID, i] < d[routerID, i] {
          nextRouter[i] := tgtRID;
          d[routerID, i] := c[tgtRID] + d[tgtRID, i];
          changed := true;
        }
        i := i + 1;
      }
      ghost var t' := RelaxVia(shared.totRouterNum, t, tgtRID);
      MatrixIs(d, t'.d);
      assert nextRouter[..] == t'.next;
    }

    /** updateDV(tgtRID). */
    method UpdateDV(tgtRID: nat) returns (changed: bool)
      requires Valid() && 1 <= tgtRID <= shared.totRouterNum
      modifies d, nextRouter
      ensures (View(), changed) == Update(shared.totRouterNum, old(View()), tgtRID)
    {
      ghost var t := View();
      var direct := RelaxDirectLinks();
      ghost var t1 := View();
      var through := RelaxThrough(tgtRID);
      ghost var t2 := View();
      changed := direct || through;
      assert forall j :: 0 <= j < MAXN ==> t2.d[t.me][j] <= t1.d[t.me][j] <= t.d[t.me][j];
      if direct {
        ghost var j :| 0 <= j < MAXN && t1.d[t.me][j] != t.d[t.me][j];
        assert t2.d[t.me][j] < t.d[t.me][j];
      } else if through {
        assert t1.d[t.me] == t.d[t.me];
      }
    }

    /** The memcpy in updateDV(exRID, exDV, version). */
    method StoreRow(v: nat, row: array<int>)
      requires Sized() && v < MAXN && row.Length == MAXN && row as object != d
      modifies d
      ensures View() == old(View()).(d := old(View().d)[v := row[..]])
    {
      ghost var was, sent := View(), row[..];
      ghost var m := was.d[v := sent];
      forall j | 0 <= j < MAXN {
        d[v, j] := row[j];
      }
      forall i, j | 0 <= i < MAXN && 0 <= j < MAXN
        ensures m[i][j] == d[i, j]
      {}
      MatrixIs(d, m);
      assert row[..] == sent;
      assert c[..] == was.c;
      assert nextRouter[..] == was.next;
    }

    /** updateDV(exRID, exDV, version). */
    method UpdateDVFrom(exRID: nat, exDV: array<int>, newVersion: nat) returns (changed: bool)
      requires Valid() && 1 <= exRID <= shared.totRouterNum
      requires exDV.Length == MAXN && exDV != c && exDV as object != d && exDV as object != nextRouter
      modifies `version, d, nextRouter
      ensures (View(), changed) == UpdateFrom(shared.totRouterNum, old(View()), exRID, exDV[..], newVersion)
    {
      if newVersion < version {
        return false;
      }
      ghost var t := View();
      if newVersion > version {
        version := newVersion;
        Reset();
      }
      ghost var base := View();
      StoreRow(exRID, exDV);
      changed := UpdateDV(exRID);
    }

    /** updateC(tgtRID, value). */
    method UpdateC(tgtRID: nat, value: int) returns (change: CostChange)
      requires Valid() && 1 <= tgtRID <= shared.totRouterNum
      modifies `version, shared`lstChangeVersion, c, d, nextRouter
      ensures (View(), shared.lstChangeVersion, change) ==
              UpdateCost(shared.totRouterNum, old(View()), old(shared.lstChangeVersion), tgtRID, value)
    {
      var cost := if value == -1 then INF else value;
      if c[tgtRID] == cost {
        return Same;
      }
      if c[tgtRID] > cost {
        c[tgtRID] := cost;
        var _ := UpdateDV(tgtRID);
        return Lower;
      }
      shared.lstChangeVersion := shared.lstChangeVersion + 1;
      version := shared.lstChangeVersion;
      Reset();
      c[tgtRID] := cost;
      var _ := UpdateDV(tgtRID);
      return Higher;
    }
  }
}
