/** What every run of the transfer keeps, in both modes, and what it means for the file written. */
module TransportSafety {
  import opened Common
  import opened Transport

  /** The packet is the file's chunk of its number. */
  predicate Genuine(cfg: Config, p: Packet) {
    p.seqNum < ChunkCount(cfg.file) && p.payload == Chunk(cfg.file, p.seqNum)
  }

  predicate SenderOk(cfg: Config, s: Sender) {
    && RingSized(cfg, s)
    && s.next <= |s.packets| <= s.base + cfg.window
    && |s.packets| <= ChunkCount(cfg.file)
    && s.pos == Min(|s.packets| * CHUNK, |cfg.file|)
    && (forall k :: 0 <= k < |s.packets| ==> s.packets[k].seqNum == k && Genuine(cfg, s.packets[k]))
    && s.freed == Upto(s.base)
    && (cfg.mode.Selective? ==> s.base <= s.next)
    && (s.phase.Resending? ==> s.base <= s.phase.k)
    && (s.phase.Finished? ==> s.base == |s.packets| == ChunkCount(cfg.file))
  }

  /** Slot `j` is empty or holds a sent packet of the receiver's window that belongs in slot `j`. */
  predicate SlotOk(cfg: Config, r: Receiver, next: nat, j: nat)
    requires |r.ring| == 2 * cfg.window && j < |r.ring|
  {
    r.ring[j].Some? ==>
      var p := r.ring[j].value;
      p.seqNum % |r.ring| == j && InWindow(cfg, r, p.seqNum) && p.seqNum < next && Genuine(cfg, p)
  }

  predicate RingOk(cfg: Config, r: Receiver, next: nat) {
    && 0 < cfg.window
    && |r.ring| == 2 * cfg.window
    && r.first <= next <= ChunkCount(cfg.file)
    && r.output == Prefix(cfg.file, r.first)
    && forall j :: 0 <= j < |r.ring| ==> SlotOk(cfg, r, next, j)
  }

  predicate Buffered(r: Receiver, k: nat)
    requires |r.ring| > 0
  {
    var j := k % |r.ring|;
    r.ring[j].Some? && r.ring[j].value.seqNum == k
  }

  predicate Received(r: Receiver, k: nat)
    requires |r.ring| > 0
  {
    k < r.first || Buffered(r, k)
  }

  /** An acknowledgement the receiver can have sent. */
  predicate AckOk(cfg: Config, s: System, a: nat)
    requires |s.rcv.ring| > 0
  {
    match cfg.mode
    case Cumulative => a <= s.rcv.first
    case Selective => a < s.snd.next && Received(s.rcv, a)
  }

  predicate NetOk(cfg: Config, s: System, strays: set<nat>)
    requires |s.rcv.ring| > 0
  {
    forall m :: m in s.net ==>
      match m
      case Data(p) => p.seqNum < s.snd.next && Genuine(cfg, p)
      case Ack(a) => a in strays || AckOk(cfg, s, a) || (s.snd.phase.Finished? && a == ChunkCount(cfg.file))
      case End(n) => s.snd.phase.Finished? && n == ChunkCount(cfg.file)
  }

  /** What the sender takes as acknowledged has been received, stray acknowledgements apart. */
  predicate AckedOk(cfg: Config, s: System, strays: set<nat>)
    requires Shaped(cfg, s)
  {
    match cfg.mode
    case Cumulative => s.snd.base <= s.rcv.first || s.snd.base in strays
    case Selective =>
      && (forall k :: 0 <= k < s.snd.base ==> k in strays || Received(s.rcv, k))
      && (forall k :: s.snd.base <= k < s.snd.next && s.snd.acked[Slot(cfg, k)] ==>
            k in strays || Received(s.rcv, k))
  }

  /** The ring of ack bits is exactly the set of acknowledgements consumed, on the packets in flight. */
  predicate HeardOk(cfg: Config, s: System)
    requires Shaped(cfg, s)
  {
    cfg.mode.Selective? ==>
      forall k :: s.snd.base <= k < s.snd.next ==> (s.snd.acked[Slot(cfg, k)] <==> k in s.heard)
  }

  predicate Inv(cfg: Config, s: System, strays: set<nat>) {
    && Shaped(cfg, s)
    && SenderOk(cfg, s.snd)
    && RingOk(cfg, s.rcv, s.snd.next)
    && !CanDownload(s.rcv)
    && (s.rcv.gotEnd ==> s.snd.phase.Finished?)
    && NetOk(cfg, s, strays)
    && AckedOk(cfg, s, strays)
    && HeardOk(cfg, s)
  }

  // ---------- The receiver's ring ----------

  /** Draining keeps the ring in order, loses nothing received and leaves slot `first` empty. */
  lemma {:induction false} DrainKeeps(cfg: Config, r: Receiver, next: nat)
    requires RingOk(cfg, r, next)
    ensures RingOk(cfg, Drain(r), next)
    ensures r.first <= Drain(r).first
    ensures forall k: nat :: Received(r, k) <==> Received(Drain(r), k)
    ensures Drain(r).gotEnd == r.gotEnd && Drain(r).closed == r.closed
    decreases Occupied(r.ring)
  {
    if CanDownload(r) {
      var r' := Download(r);
      DownloadKeeps(cfg, r, next);
      DrainKeeps(cfg, r', next);
    }
  }

  lemma DownloadKeeps(cfg: Config, r: Receiver, next: nat)
    requires RingOk(cfg, r, next) && CanDownload(r)
    ensures RingOk(cfg, Download(r), next)
    ensures forall k: nat :: Received(r, k) <==> Received(Download(r), k)
  {
    var r' := Download(r);
    var j := r.first % |r.ring|;
    assert SlotOk(cfg, r, next, j);
    var p := r.ring[j].value;
    SameSlot(p.seqNum, r.first, |r.ring|);
    PrefixStep(cfg.file, r.first);
    forall i | 0 <= i < |r'.ring|
      ensures SlotOk(cfg, r', next, i)
    {
      assert SlotOk(cfg, r, next, i);
    }
  }

  /** Arrival of a genuine packet: the ring stays in order, and what is received grows by just that packet when it
      is in the window. */
  lemma OnDataKeeps(cfg: Config, r: Receiver, next: nat, p: Packet)
    requires RingOk(cfg, r, next) && !CanDownload(r)
    requires p.seqNum < next && Genuine(cfg, p)
    ensures var (r', replies) := OnData(cfg, r, p);
      && RingOk(cfg, r', next) && !CanDownload(r') && r.first <= r'.first
      && r'.gotEnd == r.gotEnd && r'.closed == r.closed
      && (forall k: nat :: Received(r', k) <==> Received(r, k) || (InWindow(cfg, r, k) && k == p.seqNum))
  {
    if InWindow(cfg, r, p.seqNum) {
      var j := p.seqNum % |r.ring|;
      assert SlotOk(cfg, r, next, j);
      if r.ring[j].Some? {
        SameSlot(r.ring[j].value.seqNum, p.seqNum, |r.ring|);
      }
      var r1 := Store(r, p);
      forall i | 0 <= i < |r1.ring|
        ensures SlotOk(cfg, r1, next, i)
      {
        assert SlotOk(cfg, r, next, i);
      }
      forall k: nat
        ensures Received(r1, k) <==> Received(r, k) || k == p.seqNum
      {}
      DrainKeeps(cfg, r1, next);
    }
  }

  // ---------- One step ----------

  lemma FillKeeps(cfg: Config, s: System, strays: set<nat>)
    requires Inv(cfg, s, strays) && CanWork(cfg, s.snd) && s.snd.phase.Filling?
    ensures Inv(cfg, DoWork(cfg, s), strays)
  {
    var s' := DoWork(cfg, s);
    forall j | 0 <= j < |s.rcv.ring|
      ensures SlotOk(cfg, s'.rcv, s'.snd.next, j)
    {
      assert SlotOk(cfg, s.rcv, s.snd.next, j);
    }
  }

  lemma SendKeeps(cfg: Config, s: System, strays: set<nat>)
    requires Inv(cfg, s, strays) && CanWork(cfg, s.snd) && s.snd.phase.Sending?
    ensures Inv(cfg, DoWork(cfg, s), strays)
  {
    var s' := DoWork(cfg, s);
    var i := s.snd.next;
    assert i < |s.snd.packets| ==> s.snd.packets[i].seqNum == i && Genuine(cfg, s.snd.packets[i]);
    forall j | 0 <= j < |s.rcv.ring|
      ensures SlotOk(cfg, s'.rcv, s'.snd.next, j)
    {
      assert SlotOk(cfg, s.rcv, s.snd.next, j);
    }
    forall k | s.snd.base <= k < s.snd.next
      ensures cfg.mode.Selective? ==> s'.snd.acked[Slot(cfg, k)] == s.snd.acked[Slot(cfg, k)]
    {
      if Slot(cfg, k) == Slot(cfg, i) { SameSlot(k, i, 2 * cfg.window); }
    }
  }

  lemma TakeAckKeeps(cfg: Config, s: System, strays: set<nat>, a: nat)
    requires Inv(cfg, s, strays) && Enabled(cfg, s, TakeAck(a))
    ensures Inv(cfg, Apply(cfg, s, TakeAck(a)), strays)
  {
    var s' := Apply(cfg, s, TakeAck(a));
    assert Ack(a) in s.net;
    if cfg.mode.Selective? && s.snd.base <= a < s.snd.base + cfg.window {
      forall k | s.snd.base <= k < s.snd.next && k != a
        ensures s'.snd.acked[Slot(cfg, k)] == s.snd.acked[Slot(cfg, k)]
      {
        if Slot(cfg, k) == Slot(cfg, a) { SameSlot(k, a, 2 * cfg.window); }
      }
    }
    assert s'.snd.freed == Upto(s'.snd.base);
  }

  lemma SlideKeeps(cfg: Config, s: System, strays: set<nat>)
    requires Inv(cfg, s, strays) && CanWork(cfg, s.snd) && s.snd.phase.Sliding?
    ensures Inv(cfg, DoWork(cfg, s), strays)
  {
    var s' := DoWork(cfg, s);
    assert s'.snd.freed == Upto(s'.snd.base);
  }

  lemma TakeDataKeeps(cfg: Config, s: System, strays: set<nat>, p: Packet)
    requires Inv(cfg, s, strays) && Enabled(cfg, s, TakeData(p))
    ensures Inv(cfg, Apply(cfg, s, TakeData(p)), strays)
  {
    assert Data(p) in s.net;
    OnDataKeeps(cfg, s.rcv, s.snd.next, p);
  }

  lemma ResendKeeps(cfg: Config, s: System, strays: set<nat>)
    requires Inv(cfg, s, strays) && CanWork(cfg, s.snd) && s.snd.phase.Resending?
    ensures Inv(cfg, DoWork(cfg, s), strays)
  {
    var k := s.snd.phase.k;
    if k < s.snd.next {
      assert s.snd.packets[k].seqNum == k && Genuine(cfg, s.snd.packets[k]);
    }
  }

  lemma ClosingKeeps(cfg: Config, s: System, strays: set<nat>, e: Event)
    requires e.TakeEnd? || e.TimeOut? || e.NoAck? || e.Clock?
    requires Inv(cfg, s, strays) && Enabled(cfg, s, e)
    ensures Inv(cfg, Apply(cfg, s, e), strays)
  {
    if e.TakeEnd? {
      assert End(e.endNum) in s.net;
    }
    var s' := Apply(cfg, s, e);
    forall j | 0 <= j < |s.rcv.ring|
      ensures SlotOk(cfg, s'.rcv, s'.snd.next, j)
    {
      assert SlotOk(cfg, s.rcv, s.snd.next, j);
    }
  }

  lemma NetworkKeeps(cfg: Config, s: System, strays: set<nat>, e: Event)
    requires e.Lose? || e.Duplicate?
    requires Inv(cfg, s, strays) && Enabled(cfg, s, e)
    ensures Inv(cfg, Apply(cfg, s, e), strays)
  {
    var s' := Apply(cfg, s, e);
    assert forall m :: m in s'.net ==> m in s.net;
  }

  /** Every step keeps the invariant. */
  lemma StepKeeps(cfg: Config, s: System, strays: set<nat>, e: Event)
    requires Inv(cfg, s, strays) && Enabled(cfg, s, e)
    ensures Inv(cfg, Apply(cfg, s, e), strays)
  {
    match e
    case WorkOn =>
      match s.snd.phase {
        case Filling => FillKeeps(cfg, s, strays);
        case Sending => SendKeeps(cfg, s, strays);
        case Sliding => SlideKeeps(cfg, s, strays);
        case Resending(_) => ResendKeeps(cfg, s, strays);
        case _ => assert false;
      }
    case TakeAck(a) => TakeAckKeeps(cfg, s, strays, a);
    case TakeData(p) => TakeDataKeeps(cfg, s, strays, p);
    case Lose(_) => NetworkKeeps(cfg, s, strays, e);
    case Duplicate(_) => NetworkKeeps(cfg, s, strays, e);
    case _ => ClosingKeeps(cfg, s, strays, e);
  }

  lemma {:induction false} RunKeeps(cfg: Config, s: System, strays: set<nat>, es: seq<Event>)
    requires Inv(cfg, s, strays) && Valid(cfg, s, es)
    ensures Inv(cfg, After(cfg, s, es), strays)
    decreases |es|
  {
    if es != [] {
      StepKeeps(cfg, s, strays, es[0]);
      RunKeeps(cfg, Apply(cfg, s, es[0]), strays, es[1..]);
    }
  }

  lemma InitOk(cfg: Config, s: System, strays: set<nat>)
    requires 0 < cfg.window && Init(cfg, s, strays)
    ensures Inv(cfg, s, strays)
  {
    assert s.snd.freed == Upto(0);
    assert forall m :: m in s.net ==> m.Ack?;
  }

  // ---------- The theorems, when the handshake leaves no acknowledgement behind ----------

  /** Without strays the two windows overlap: the sender's base never passes the receiver's. */
  lemma WindowsOrdered(cfg: Config, s: System)
    requires Inv(cfg, s, {})
    ensures s.snd.base <= s.rcv.first <= s.snd.next <= |s.snd.packets| <= s.snd.base + cfg.window
  {
    assert !Received(s.rcv, s.rcv.first);
  }

  /** In every run of the cumulative mode, and also after the sender has left its loop, no acknowledgement in flight is
      above what has been written. */
  lemma CumulativeAcksBounded(cfg: Config, s: System, es: seq<Event>)
    requires 0 < cfg.window && cfg.mode.Cumulative? && Init(cfg, s, {}) && Valid(cfg, s, es)
    ensures forall a: nat :: Ack(a) in After(cfg, s, es).net ==> a <= After(cfg, s, es).rcv.first
  {
    InitOk(cfg, s, {});
    RunKeeps(cfg, s, {}, es);
    WindowsOrdered(cfg, After(cfg, s, es));
  }

  /** In every run, over a network that loses, repeats and reorders messages: what has been written is always the
      first `first` chunks of the file; it is the whole file once the sender has left its loop, and so for a
      receiver that stopped on END. */
  lemma EndToEnd(cfg: Config, s: System, es: seq<Event>)
    requires 0 < cfg.window && Init(cfg, s, {}) && Valid(cfg, s, es)
    ensures var t := After(cfg, s, es);
      && t.snd.base <= t.rcv.first <= t.snd.next <= |t.snd.packets| <= t.snd.base + cfg.window
      && (cfg.mode.Cumulative? ==> forall a: nat :: Ack(a) in t.net ==> a <= t.rcv.first)
      && t.rcv.output == Prefix(cfg.file, t.rcv.first)
      && (t.snd.phase.Finished? ==> t.rcv.output == cfg.file)
      && (t.rcv.gotEnd ==> t.snd.phase.Finished? && t.rcv.output == cfg.file)
  {
    InitOk(cfg, s, {});
    RunKeeps(cfg, s, {}, es);
    WindowsOrdered(cfg, After(cfg, s, es));
    PrefixAll(cfg.file);
    if cfg.mode.Cumulative? {
      CumulativeAcksBounded(cfg, s, es);
    }
  }

  /** In every run of the selective mode, on the packets in flight the ring of ack bits, though never initialised
      and reused every lap, is exactly the set of acknowledgements consumed since the packet was first sent, and a
      set bit means the packet was received. Only the equivalence survives stray acknowledgements. */
  lemma AckRingExact(cfg: Config, s: System, strays: set<nat>, es: seq<Event>, k: nat)
    requires 0 < cfg.window && cfg.mode.Selective? && Init(cfg, s, strays) && Valid(cfg, s, es)
    requires After(cfg, s, es).snd.base <= k < After(cfg, s, es).snd.next
    ensures var t := After(cfg, s, es);
      && (t.snd.acked[Slot(cfg, k)] <==> k in t.heard)
      && (t.snd.acked[Slot(cfg, k)] && k !in strays ==> Received(t.rcv, k))
  {
    InitOk(cfg, s, strays);
    RunKeeps(cfg, s, strays, es);
  }

  /** In every run the packets freed are 0, 1, ..., base-1, each once, and exist; whatever is sent or sent again is
      not freed; every packet is freed when the sender is done. */
  lemma PacketsOwned(cfg: Config, s: System, es: seq<Event>)
    requires 0 < cfg.window && Init(cfg, s, {}) && Valid(cfg, s, es)
    ensures var t := After(cfg, s, es);
      && t.snd.freed == Upto(t.snd.base) && t.snd.base <= |t.snd.packets|
      && (t.snd.phase.Sending? ==> t.snd.next !in t.snd.freed)
      && (t.snd.phase.Resending? ==> t.snd.phase.k !in t.snd.freed)
      && (t.snd.phase.Finished? ==> t.snd.freed == Upto(|t.snd.packets|))
  {
    InitOk(cfg, s, {});
    RunKeeps(cfg, s, {}, es);
    WindowsOrdered(cfg, After(cfg, s, es));
  }
}
