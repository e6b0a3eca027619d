/** The receiver's ring of 2*window slots does what an unbounded map of waiting packets would do. */
module TransportRing {
  import opened Common
  import opened Transport
  import opened TransportSafety

  /** The reference receiver: any number of packets can wait, each under its own number. */
  datatype Reassembler = Reassembler(first: nat, waiting: map<nat, Packet>, output: seq<byte>)

  function Flush(a: Reassembler): Reassembler
    decreases |a.waiting|
  {
    if a.first in a.waiting then
      Flush(Reassembler(a.first + 1, a.waiting - {a.first}, a.output + a.waiting[a.first].payload))
    else a
  }

  function Accept(window: nat, a: Reassembler, p: Packet): Reassembler {
    if !(a.first <= p.seqNum < a.first + window) then a
    else if p.seqNum in a.waiting then Flush(a)
    else Flush(a.(waiting := a.waiting[p.seqNum := p]))
  }

  /** The payloads of the packets lo, ..., hi-1, joined. */
  function Joined(waiting: map<nat, Packet>, lo: nat, hi: nat): seq<byte>
    requires lo <= hi && forall k :: lo <= k < hi ==> k in waiting
    decreases hi - lo
  {
    if lo == hi then [] else waiting[lo].payload + Joined(waiting, lo + 1, hi)
  }

  lemma {:induction false} JoinedSkips(waiting: map<nat, Packet>, x: nat, lo: nat, hi: nat)
    requires x < lo <= hi && forall k :: lo <= k < hi ==> k in waiting
    ensures Joined(waiting - {x}, lo, hi) == Joined(waiting, lo, hi)
    decreases hi - lo
  {
    if lo < hi {
      JoinedSkips(waiting, x, lo + 1, hi);
    }
  }

  /** Flushing appends exactly the longest run of consecutive waiting packets and keeps the others. */
  lemma {:induction false} FlushIsMaximalRun(a: Reassembler)
    ensures var b := Flush(a);
      && a.first <= b.first && b.first !in a.waiting
      && (forall k :: a.first <= k < b.first ==> k in a.waiting)
      && b.output == a.output + Joined(a.waiting, a.first, b.first)
      && b.waiting == map k | k in a.waiting && !(a.first <= k < b.first) :: a.waiting[k]
    decreases |a.waiting|
  {
    if a.first in a.waiting {
      var a' := Reassembler(a.first + 1, a.waiting - {a.first}, a.output + a.waiting[a.first].payload);
      var b := Flush(a');
      FlushIsMaximalRun(a');
      forall k | a'.first <= k < b.first
        ensures k in a.waiting
      {
        assert k in a'.waiting;
      }
      JoinedSkips(a.waiting, a.first, a'.first, b.first);
    }
  }

  /** Every packet in the ring is in its slot and in the window. */
  predicate Placed(cfg: Config, r: Receiver) {
    && 0 < cfg.window
    && |r.ring| == 2 * cfg.window
    && forall j {:trigger r.ring[j]} :: 0 <= j < |r.ring| && r.ring[j].Some? ==>
         r.ring[j].value.seqNum % |r.ring| == j && InWindow(cfg, r, r.ring[j].value.seqNum)
  }

  function Waiting(cfg: Config, r: Receiver): map<nat, Packet>
    requires |r.ring| > 0
  {
    map k: nat | r.first <= k < r.first + cfg.window && Buffered(r, k) :: r.ring[k % |r.ring|].value
  }

  function View(cfg: Config, r: Receiver): Reassembler
    requires |r.ring| > 0
  {
    Reassembler(r.first, Waiting(cfg, r), r.output)
  }

  lemma DownloadRefines(cfg: Config, r: Receiver)
    requires Placed(cfg, r) && CanDownload(r)
    ensures var r' := Download(r);
      && Placed(cfg, r') && r.first in Waiting(cfg, r)
      && View(cfg, r') == Reassembler(r.first + 1, Waiting(cfg, r) - {r.first},
                                      r.output + Waiting(cfg, r)[r.first].payload)
  {
    var r' := Download(r);
    var m := |r.ring|;
    SameSlot(r.ring[r.first % m].value.seqNum, r.first, m);
    forall k: nat
      ensures k in Waiting(cfg, r') <==> k in Waiting(cfg, r) - {r.first}
      ensures k in Waiting(cfg, r') ==> Waiting(cfg, r')[k] == Waiting(cfg, r)[k]
    {
      if r.first <= k <= r.first + cfg.window && k % m == r.first % m {
        SameSlot(k, r.first, m);
      }
    }
  }

  lemma {:induction false} DrainRefines(cfg: Config, r: Receiver)
    requires Placed(cfg, r)
    ensures Placed(cfg, Drain(r)) && View(cfg, Drain(r)) == Flush(View(cfg, r))
    decreases Occupied(r.ring)
  {
    if CanDownload(r) {
      DownloadRefines(cfg, r);
      DrainRefines(cfg, Download(r));
    }
  }

  /** An occupied slot met on arrival holds the same number, so a packet is dropped only as a repeat. */
  lemma StoreRefines(cfg: Config, r: Receiver, p: Packet)
    requires Placed(cfg, r) && InWindow(cfg, r, p.seqNum)
    ensures var r' := Store(r, p); var w := Waiting(cfg, r);
      && Placed(cfg, r')
      && (r.ring[p.seqNum % |r.ring|].Some? <==> p.seqNum in w)
      && View(cfg, r') == Reassembler(r.first, if p.seqNum in w then w else w[p.seqNum := p], r.output)
  {
    var r' := Store(r, p);
    var m := |r.ring|;
    if r.ring[p.seqNum % m].Some? {
      SameSlot(r.ring[p.seqNum % m].value.seqNum, p.seqNum, m);
    }
    forall k: nat | r.first <= k < r.first + cfg.window && k != p.seqNum
      ensures r'.ring[k % m] == r.ring[k % m]
    {
      if k % m == p.seqNum % m { SameSlot(k, p.seqNum, m); }
    }
    var w := Waiting(cfg, r);
    assert Waiting(cfg, r') == if p.seqNum in w then w else w[p.seqNum := p];
  }

  /** Arrival of any packet, genuine or not: the ring and the reference receiver stay in step. */
  lemma RingRefines(cfg: Config, r: Receiver, p: Packet)
    requires Placed(cfg, r)
    ensures var r' := OnData(cfg, r, p).0;
      Placed(cfg, r') && View(cfg, r') == Accept(cfg.window, View(cfg, r), p)
  {
    if InWindow(cfg, r, p.seqNum) {
      StoreRefines(cfg, r, p);
      DrainRefines(cfg, Store(r, p));
    }
  }
}
