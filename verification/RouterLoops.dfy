/** The parts of `class Router` that handle routing messages, as written, proved against module RouterNetwork. */
module RouterLoops {
  import opened ShortestPaths
  import opened DistanceVector
  import opened DistanceVectorLoops
  import opened RouterNetwork

  class RouterNode {
    const dv: DV
    const routerID2Port: array<int>     // 0 for a router not heard yet
    var port2RouterID: map<int, nat>    // 0 for a port behind which no router is known
    var portLen: map<int, int>

    ghost predicate Valid()
      reads this, dv, dv.shared
    {
      && dv.Valid()
      && routerID2Port.Length == MAXN
      && routerID2Port != dv.c && routerID2Port as object != dv.d && routerID2Port as object != dv.nextRouter
      && forall p :: p in port2RouterID ==> port2RouterID[p] <= dv.shared.totRouterNum
    }

    ghost function Peers(): map<int, nat>
      reads this
    {
      map p | p in port2RouterID && port2RouterID[p] != 0 :: port2RouterID[p]
    }

    ghost function PeerPorts(): map<nat, int>
      reads routerID2Port
    {
      map v: nat | v < routerID2Port.Length && routerID2Port[v] != 0 :: routerID2Port[v]
    }

    /** The router as a value: a zero stands for no entry. */
    ghost function View(): (r: Router)
      reads this, dv, dv.c, dv.d, dv.nextRouter, routerID2Port
    {
      Router(dv.View(), portLen, Peers(), PeerPorts())
    }

    /** router_init, with the number the router was registered under. */
    constructor (shared: Shared, mRouterID: nat)
      requires 1 <= mRouterID <= shared.totRouterNum < MAXN
      ensures Valid() && dv.shared == shared && View() == Router(Init(mRouterID), map[], map[], map[])
      ensures fresh(dv) && fresh(dv.c) && fresh(dv.d) && fresh(dv.nextRouter) && fresh(routerID2Port)
    {
      dv := new DV(shared, mRouterID);
      routerID2Port := new int[MAXN](_ => 0);
      port2RouterID, portLen := map[], map[];
    }

    /** dvInfo: the vector the router broadcasts. */
    method DvInfo() returns (RID: nat, version: nat, row: seq<int>)
      requires Valid()
      ensures var t := View().dv;
        && RID == t.me && version == t.version && |row| == dv.shared.totRouterNum
        && forall i :: 1 <= i <= dv.shared.totRouterNum ==> row[i - 1] == t.d[t.me][i]
    {
      RID, version, row := dv.routerID, dv.version, [];
      var i := 1;
      while i <= dv.shared.totRouterNum
        invariant 1 <= i <= dv.shared.totRouterNum + 1 && |row| == i - 1
        invariant forall j :: 1 <= j < i ==> row[j - 1] == dv.d[dv.routerID, j]
      {
        row := row + [dv.d[dv.routerID, i]];
        i := i + 1;
      }
    }

    /** A DV message from router `RID` came in on `inPort`. */
    method OnVector(inPort: int, RID: nat, temdv: array<int>, version: nat) returns (sends: bool)
      requires Valid() && 1 <= RID <= dv.shared.totRouterNum && inPort != 0
      requires temdv.Length == MAXN && temdv != dv.c && temdv != routerID2Port
      requires temdv as object != dv.d && temdv as object != dv.nextRouter
      modifies this, dv`version, dv.shared`lstChangeVersion, dv.c, dv.d, dv.nextRouter, routerID2Port
      ensures Valid()
      ensures (View(), dv.shared.lstChangeVersion, sends) ==
              if RID == dv.routerID then (old(View()), old(dv.shared.lstChangeVersion), false)
              else Hear(dv.shared.totRouterNum, old(View()), old(dv.shared.lstChangeVersion),
                        inPort, RID, temdv[..], version)
    {
      if RID == dv.routerID {
        return false;
      }
      ghost var was := View();
      var portValue := if inPort in portLen then portLen[inPort] else -1;
      var updateEdge := dv.UpdateC(RID, portValue);
      routerID2Port[RID] := inPort;
      port2RouterID := port2RouterID[inPort := RID];
      var changed := dv.UpdateDVFrom(RID, temdv, version);
      sends := changed || updateEdge != Same;
      assert Peers() == was.portPeer[inPort := RID];
      assert PeerPorts() == was.peerPort[RID := inPort];
    }

    /** Control message PORT VALUE CHANGE. */
    method ChangePortValue(port: int, value: int)
      requires Valid()
      modifies this, dv`version, dv.shared`lstChangeVersion, dv.c, dv.d, dv.nextRouter
      ensures Valid()
      ensures (View(), dv.shared.lstChangeVersion) ==
              ChangePort(dv.shared.totRouterNum, old(View()), old(dv.shared.lstChangeVersion), port, value)
    {
      ghost var was := View();
      portLen := portLen[port := value];
      if port !in port2RouterID {
        port2RouterID := port2RouterID[port := 0];
      }
      var routerID := port2RouterID[port];
      if routerID == 0 {
        assert Peers() == was.portPeer;
        return;
      }
      var _ := dv.UpdateC(routerID, value);
      if value == -1 {
        port2RouterID := port2RouterID - {port};
      }
      assert Peers() == if value == -1 then was.portPeer - {port} else was.portPeer;
    }

    /** The port a data packet for another router leaves through. */
    method FindPort(dstRouterID: nat) returns (port: int)
      requires Valid() && dstRouterID < MAXN
      requires forall i :: 0 <= i < MAXN ==> dv.nextRouter[i] < MAXN
      ensures port == PortTowards(View(), dstRouterID)
    {
      var nextRouter := dv.nextRouter[dstRouterID];
      if nextRouter == 0 || routerID2Port[nextRouter] == 0 {
        return 1;
      }
      return routerID2Port[nextRouter];
    }
  }
}
