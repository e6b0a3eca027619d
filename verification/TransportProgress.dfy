/** When no acknowledgement is ever lost, a transfer can always be completed from where it stands. */
module TransportProgress {
  import opened Common
  import opened Transport
  import opened TransportSafety

  /** The sender waits for nothing whose acknowledgement has vanished. */
  predicate Live(cfg: Config, s: System)
    requires Shaped(cfg, s)
  {
    match cfg.mode
    case Cumulative => s.snd.base == s.rcv.first || Ack(s.rcv.first) in s.net
    case Selective =>
      forall k :: s.snd.base <= k < s.snd.next && Received(s.rcv, k) ==>
        s.snd.acked[Slot(cfg, k)] || Ack(k) in s.net
  }

  predicate LosesAck(e: Event) {
    e.Lose? && e.message.Ack?
  }

  /** Every step but the loss of an acknowledgement keeps `Live`. */
  lemma LiveKeeps(cfg: Config, s: System, e: Event)
    requires Inv(cfg, s, {}) && Enabled(cfg, s, e) && !LosesAck(e) && Live(cfg, s)
    ensures Live(cfg, Apply(cfg, s, e))
  {
    match e
    case WorkOn => WorkLive(cfg, s);
    case TakeAck(a) => TakeAckLive(cfg, s, a);
    case TakeData(p) => TakeDataLive(cfg, s, p);
    case _ => OtherLive(cfg, s, e);
  }

  lemma OtherLive(cfg: Config, s: System, e: Event)
    requires Inv(cfg, s, {}) && Enabled(cfg, s, e) && !LosesAck(e) && Live(cfg, s)
    requires !e.WorkOn? && !e.TakeAck? && !e.TakeData?
    ensures Live(cfg, Apply(cfg, s, e))
  {
    var s' := Apply(cfg, s, e);
    assert forall k: nat :: Ack(k) in s.net ==> Ack(k) in s'.net;
    assert s'.rcv.first == s.rcv.first && s'.rcv.ring == s.rcv.ring;
  }

  lemma WorkLive(cfg: Config, s: System)
    requires Inv(cfg, s, {}) && Live(cfg, s) && CanWork(cfg, s.snd)
    ensures Live(cfg, DoWork(cfg, s))
  {
    if s.snd.phase.Sending? {
      SendLive(cfg, s);
    }
  }

  lemma SendLive(cfg: Config, s: System)
    requires Inv(cfg, s, {}) && Live(cfg, s) && CanWork(cfg, s.snd) && s.snd.phase.Sending?
    ensures Live(cfg, DoWork(cfg, s))
  {
    var s' := DoWork(cfg, s);
    var i := s.snd.next;
    if cfg.mode.Selective? {
      forall k | s.snd.base <= k < i && Received(s.rcv, k)
        ensures s'.snd.acked[Slot(cfg, k)] || Ack(k) in s'.net
      {
        if Slot(cfg, k) == Slot(cfg, i) { SameSlot(k, i, 2 * cfg.window); }
      }
      assert !Received(s.rcv, i) by {
        assert SlotOk(cfg, s.rcv, i, i % |s.rcv.ring|);
      }
    }
  }

  lemma TakeAckLive(cfg: Config, s: System, a: nat)
    requires Inv(cfg, s, {}) && Enabled(cfg, s, TakeAck(a)) && Live(cfg, s)
    ensures Live(cfg, Apply(cfg, s, TakeAck(a)))
  {
    assert Ack(a) in s.net;
    var s' := Apply(cfg, s, TakeAck(a));
    forall m | m in s.net && m != Ack(a)
      ensures m in s'.net
    {}
  }

  lemma TakeDataLive(cfg: Config, s: System, p: Packet)
    requires Inv(cfg, s, {}) && Enabled(cfg, s, TakeData(p)) && Live(cfg, s)
    ensures Live(cfg, Apply(cfg, s, TakeData(p)))
  {
    assert Data(p) in s.net;
    var s' := Apply(cfg, s, TakeData(p));
    OnDataKeeps(cfg, s.rcv, s.snd.next, p);
    if InWindow(cfg, s.rcv, p.seqNum) {
      assert Ack(if cfg.mode.Cumulative? then s'.rcv.first else p.seqNum) in s'.net;
    }
  }

  // ---------- Runs of the loops alone ----------

  /** A step of the loops, without timeout: nothing is lost or repeated. */
  predicate Working(e: Event) {
    !e.Lose? && !e.Duplicate? && !e.TimeOut?
  }

  /** The receiver is in its loop. */
  predicate Underway(cfg: Config, s: System, strays: set<nat>) {
    Inv(cfg, s, strays) && Running(s.rcv)
  }

  /** Steps the sender takes without hearing anything. */
  predicate Alone(es: seq<Event>) {
    forall e :: e in es ==> e.WorkOn? || e.NoAck? || e.Clock?
  }

  predicate Reaches(cfg: Config, s: System, es: seq<Event>, t: System)
    requires Shaped(cfg, s)
  {
    Valid(cfg, s, es) && After(cfg, s, es) == t && (forall e :: e in es ==> Working(e)) && Orderly(cfg, s, es)
  }

  lemma Step(cfg: Config, s: System, strays: set<nat>, e: Event) returns (t: System)
    requires Underway(cfg, s, strays) && Enabled(cfg, s, e) && Working(e) && !e.TakeEnd? && InBounds(cfg, s, e)
    ensures t == Apply(cfg, s, e) && Underway(cfg, t, strays) && Reaches(cfg, s, [e], t)
  {
    t := Apply(cfg, s, e);
    OneStep(cfg, s, e);
    StepKeeps(cfg, s, strays, e);
    if e.TakeData? {
      assert Data(e.packet) in s.net;
      OnDataKeeps(cfg, s.rcv, s.snd.next, e.packet);
    }
  }

  lemma Joins(cfg: Config, s: System, es: seq<Event>, t: System, fs: seq<Event>, u: System)
    requires Shaped(cfg, s) && Reaches(cfg, s, es, t) && Reaches(cfg, t, fs, u)
    ensures Reaches(cfg, s, es + fs, u)
  {
    Concat(cfg, s, es, fs);
  }

  lemma StayPut(cfg: Config, s: System)
    requires Shaped(cfg, s)
    ensures Reaches(cfg, s, [], s)
  {}

  /** Runs of the loops alone lose no acknowledgement. */
  lemma ReachesLive(cfg: Config, s: System, es: seq<Event>, t: System)
    requires Inv(cfg, s, {}) && Live(cfg, s) && Reaches(cfg, s, es, t)
    ensures Live(cfg, t)
  {
    RunLive(cfg, s, es);
  }

  /** The sender alone went from `s` to `t`: `base` stayed, and the packets first sent on the way are in flight and
      not marked acknowledged. */
  predicate Extends(cfg: Config, s: System, t: System) {
    && Shaped(cfg, s) && Shaped(cfg, t)
    && t.rcv == s.rcv && s.net <= t.net
    && t.snd.base == s.snd.base && s.snd.next <= t.snd.next <= |t.snd.packets| && s.snd.packets <= t.snd.packets
    && (forall k :: s.snd.next <= k < t.snd.next ==> Data(t.snd.packets[k]) in t.net)
    && (cfg.mode.Selective? ==>
          && (forall k :: s.snd.base <= k < s.snd.next ==> t.snd.acked[Slot(cfg, k)] == s.snd.acked[Slot(cfg, k)])
          && (forall k :: s.snd.next <= k < t.snd.next ==> !t.snd.acked[Slot(cfg, k)]))
  }

  lemma ExtendsFurther(cfg: Config, s: System, t: System, u: System)
    requires Extends(cfg, s, t) && Extends(cfg, t, u) && s.snd.base <= s.snd.next
    ensures Extends(cfg, s, u)
  {
    forall k | s.snd.next <= k < t.snd.next
      ensures Data(u.snd.packets[k]) in u.net
    {
      assert Data(t.snd.packets[k]) in t.net;
    }
  }

  /** If the sender has left its loop, its END message is on the way. */
  predicate EndOffered(cfg: Config, s: System) {
    s.snd.phase.Finished? ==> End(ChunkCount(cfg.file)) in s.net
  }

  /** The fill loop, run to its end and out of it. */
  lemma {:induction false} Fill(cfg: Config, s: System, strays: set<nat>) returns (es: seq<Event>, t: System)
    requires Underway(cfg, s, strays) && s.snd.phase.Filling?
    ensures Underway(cfg, t, strays) && Reaches(cfg, s, es, t) && Extends(cfg, s, t)
    ensures t.snd.phase == if t.snd.base == |t.snd.packets| then Finished else Sending
    ensures !CanRead(cfg, t.snd) && t.snd.next == s.snd.next && EndOffered(cfg, t) && Alone(es)
    decreases |cfg.file| - s.snd.pos
  {
    t := Step(cfg, s, strays, WorkOn);
    es := [WorkOn];
    if t.snd.phase.Filling? {
      var fs, u := Fill(cfg, t, strays);
      Joins(cfg, s, es, t, fs, u);
      es, t := es + fs, u;
    }
  }

  lemma SendStep(cfg: Config, s: System, strays: set<nat>) returns (t: System)
    requires Underway(cfg, s, strays) && s.snd.phase.Sending? && CanSend(cfg, s.snd) && s.snd.base <= s.snd.next
    ensures t == DoWork(cfg, s) && Underway(cfg, t, strays) && Reaches(cfg, s, [WorkOn], t) && Extends(cfg, s, t)
  {
    t := Step(cfg, s, strays, WorkOn);
    var i := s.snd.next;
    assert Data(s.snd.packets[i]) in t.net;
    forall k | s.snd.base <= k < i && cfg.mode.Selective?
      ensures t.snd.acked[Slot(cfg, k)] == s.snd.acked[Slot(cfg, k)]
    {
      if Slot(cfg, k) == Slot(cfg, i) { SameSlot(k, i, 2 * cfg.window); }
    }
  }

  /** The loop of first sends, run to its end and out of it. */
  lemma {:induction false} SendAll(cfg: Config, s: System, strays: set<nat>) returns (es: seq<Event>, t: System)
    requires Underway(cfg, s, strays) && s.snd.phase.Sending? && s.snd.base <= s.snd.next
    ensures Underway(cfg, t, strays) && Reaches(cfg, s, es, t) && Extends(cfg, s, t)
    ensures t.snd.phase.Waiting? && t.snd.packets == s.snd.packets && t.snd.next == |t.snd.packets| && Alone(es)
    decreases |s.snd.packets| - s.snd.next
  {
    if CanSend(cfg, s.snd) {
      var u := SendStep(cfg, s, strays);
      var fs;
      fs, t := SendAll(cfg, u, strays);
      Joins(cfg, s, [WorkOn], u, fs, t);
      ExtendsFurther(cfg, s, u, t);
      es := [WorkOn] + fs;
    } else {
      t := Step(cfg, s, strays, WorkOn);
      es := [WorkOn];
    }
  }

  /** From the top of the loop to the wait for an acknowledgement, or out of the loop. */
  lemma Offer(cfg: Config, s: System, strays: set<nat>) returns (es: seq<Event>, t: System)
    requires Underway(cfg, s, strays) && s.snd.phase.Filling? && s.snd.base <= s.snd.next
    ensures Underway(cfg, t, strays) && Reaches(cfg, s, es, t) && Extends(cfg, s, t) && !CanRead(cfg, t.snd)
    ensures EndOffered(cfg, t) && Alone(es)
    ensures if t.snd.base == |t.snd.packets| then t.snd.phase.Finished? && t.snd.next == s.snd.next
            else t.snd.phase.Waiting? && t.snd.base < t.snd.next == |t.snd.packets|
  {
    es, t := Fill(cfg, s, strays);
    if t.snd.phase.Sending? {
      var fs, u := SendAll(cfg, t, strays);
      Joins(cfg, s, es, t, fs, u);
      ExtendsFurther(cfg, s, t, u);
      es, t := es + fs, u;
    }
  }

  /** The slide loop, run to its end. */
  lemma {:induction false} SlideDown(cfg: Config, s: System, strays: set<nat>) returns (es: seq<Event>, t: System)
    requires Underway(cfg, s, strays) && s.snd.phase.Sliding?
    ensures Underway(cfg, t, strays) && Reaches(cfg, s, es, t) && t.snd.phase.Sliding? && !CanSlide(cfg, t.snd)
    ensures t.rcv == s.rcv && t.net == s.net && t.snd.next == s.snd.next && Alone(es)
    ensures s.snd.base <= t.snd.base && (CanSlide(cfg, s.snd) ==> s.snd.base < t.snd.base)
    decreases s.snd.next - s.snd.base
  {
    if CanSlide(cfg, s.snd) {
      var u := Step(cfg, s, strays, WorkOn);
      var fs;
      fs, t := SlideDown(cfg, u, strays);
      Joins(cfg, s, [WorkOn], u, fs, t);
      es := [WorkOn] + fs;
    } else {
      es, t := [], s;
      StayPut(cfg, s);
    }
  }

  /** From the slide loop to the top of the loop body. */
  lemma SlideOut(cfg: Config, s: System, strays: set<nat>) returns (es: seq<Event>, t: System)
    requires Underway(cfg, s, strays) && s.snd.phase.Sliding?
    ensures Underway(cfg, t, strays) && Reaches(cfg, s, es, t) && t.snd.phase.Filling? && t.rcv == s.rcv
    ensures s.snd.base <= t.snd.base && (CanSlide(cfg, s.snd) ==> s.snd.base < t.snd.base) && Alone(es)
  {
    var u;
    es, u := SlideDown(cfg, s, strays);
    t := Step(cfg, u, strays, Clock(false));
    Joins(cfg, s, es, u, [Clock(false)], t);
    es := es + [Clock(false)];
  }

  /** The retransmission loop, run to its end: every packet in flight from the present one on is sent again, in
      selective mode if not acknowledged. */
  lemma {:induction false} ResendOut(cfg: Config, s: System, strays: set<nat>) returns (es: seq<Event>, t: System)
    requires Underway(cfg, s, strays) && s.snd.phase.Resending?
    ensures Underway(cfg, t, strays) && Reaches(cfg, s, es, t) && t.rcv == s.rcv && s.net <= t.net && Alone(es)
    ensures t.snd == s.snd.(phase := Filling) && Resent(cfg, s.snd, s.snd.phase.k, t.net)
    decreases s.snd.next - s.snd.phase.k
  {
    var u := ResendStep(cfg, s, strays);
    es, t := [WorkOn], u;
    if u.snd.phase.Resending? {
      var fs;
      fs, t := ResendOut(cfg, u, strays);
      Joins(cfg, s, [WorkOn], u, fs, t);
      es := [WorkOn] + fs;
      ResentFrom(cfg, s.snd, s.snd.phase.k, u.net, t.net);
    }
  }

  predicate Resent(cfg: Config, s: Sender, k: nat, net: multiset<Message>)
    requires RingSized(cfg, s) && s.next <= |s.packets|
  {
    forall j :: k <= j < s.next && Resends(cfg, s, j) ==> Data(s.packets[j]) in net
  }

  lemma ResentFrom(cfg: Config, s: Sender, k: nat, net: multiset<Message>, more: multiset<Message>)
    requires RingSized(cfg, s) && s.next <= |s.packets| && k < s.next && net <= more
    requires (Resends(cfg, s, k) ==> Data(s.packets[k]) in net) && Resent(cfg, s, k + 1, more)
    ensures Resent(cfg, s, k, more)
  {}

  lemma ResendStep(cfg: Config, s: System, strays: set<nat>) returns (t: System)
    requires Underway(cfg, s, strays) && s.snd.phase.Resending?
    ensures Underway(cfg, t, strays) && Reaches(cfg, s, [WorkOn], t) && t.rcv == s.rcv && s.net <= t.net
    ensures var k := s.snd.phase.k;
      if k < s.snd.next then
        t.snd == s.snd.(phase := Resending(k + 1)) && (Resends(cfg, s.snd, k) ==> Data(s.snd.packets[k]) in t.net)
      else t.snd == s.snd.(phase := Filling)
  {
    t := Step(cfg, s, strays, WorkOn);
  }

  /** The sender can be brought to the top of its loop body, whatever it is doing. */
  lemma ToTop(cfg: Config, s: System) returns (es: seq<Event>, t: System)
    requires Underway(cfg, s, {}) && !s.snd.phase.Finished?
    ensures Underway(cfg, t, {}) && Reaches(cfg, s, es, t) && t.snd.phase.Filling?
    ensures s.snd.base <= t.snd.base && t.rcv == s.rcv && Alone(es)
  {
    WindowsOrdered(cfg, s);
    es, t := [], s;
    StayPut(cfg, s);
    if t.snd.phase.Sending? {
      es, t := SendAll(cfg, s, {});
    }
    if t.snd.phase.Waiting? {
      var u := Step(cfg, t, {}, NoAck);
      Joins(cfg, s, es, t, [NoAck], u);
      es, t := es + [NoAck], u;
    }
    if t.snd.phase.Sliding? {
      var fs, u := SlideOut(cfg, t, {});
      Joins(cfg, s, es, t, fs, u);
      es, t := es + fs, u;
    } else if t.snd.phase.Resending? {
      var fs, u := ResendOut(cfg, t, {});
      Joins(cfg, s, es, t, fs, u);
      es, t := es + fs, u;
    }
  }

  /** The sender can be brought to wait for an acknowledgement with the whole window sent, or out of its loop. */
  lemma ToWait(cfg: Config, s: System) returns (es: seq<Event>, t: System)
    requires Underway(cfg, s, {}) && !s.snd.phase.Finished?
    ensures Underway(cfg, t, {}) && Reaches(cfg, s, es, t) && t.rcv == s.rcv && s.snd.base <= t.snd.base
    ensures EndOffered(cfg, t) && Alone(es)
    ensures if t.snd.base == ChunkCount(cfg.file) then t.snd.phase.Finished?
            else t.snd.phase.Waiting? && t.snd.base < t.snd.next == |t.snd.packets| && !CanRead(cfg, t.snd)
  {
    var fs, u := ToTop(cfg, s);
    WindowsOrdered(cfg, u);
    es, t := Offer(cfg, u, {});
    Joins(cfg, s, fs, u, es, t);
    es := fs + es;
  }

  // ---------- Completing the transfer ----------

  /** The receiver has the packet the sender's window starts with. */
  predicate BaseReceived(s: System)
    requires |s.rcv.ring| > 0
  {
    Received(s.rcv, s.snd.base)
  }

  /** A waiting sender whose timer expires retransmits the first packet of its window, which gets through. */
  lemma GetBaseReceived(cfg: Config, s: System) returns (es: seq<Event>, t: System)
    requires Underway(cfg, s, {}) && s.snd.phase.Waiting? && s.snd.base < s.snd.next && !BaseReceived(s)
    ensures Underway(cfg, t, {}) && Reaches(cfg, s, es, t) && !t.snd.phase.Finished?
    ensures t.snd.base == s.snd.base && BaseReceived(t)
  {
    WindowsOrdered(cfg, s);
    var p := s.snd.packets[s.snd.base];
    assert p.seqNum == s.snd.base;
    var s1 := Step(cfg, s, {}, NoAck);
    var s2 := Step(cfg, s1, {}, Clock(true));
    Joins(cfg, s, [NoAck], s1, [Clock(true)], s2);
    var s3 := Step(cfg, s2, {}, WorkOn);
    Joins(cfg, s, [NoAck] + [Clock(true)], s2, [WorkOn], s3);
    assert Data(p) in s3.net;
    t := Step(cfg, s3, {}, TakeData(p));
    es := [NoAck] + [Clock(true)] + [WorkOn] + [TakeData(p)];
    Joins(cfg, s, [NoAck] + [Clock(true)] + [WorkOn], s3, [TakeData(p)], t);
    OnDataKeeps(cfg, s3.rcv, s3.snd.next, p);
  }

  /** Once that packet is received, its acknowledgement reaches a waiting sender and moves `base` up. */
  lemma GetBaseAcked(cfg: Config, s: System) returns (es: seq<Event>, t: System)
    requires Underway(cfg, s, {}) && Live(cfg, s)
    requires s.snd.phase.Waiting? && s.snd.base < s.snd.next && BaseReceived(s)
    ensures Underway(cfg, t, {}) && Reaches(cfg, s, es, t) && !t.snd.phase.Finished?
    ensures s.snd.base < t.snd.base
  {
    WindowsOrdered(cfg, s);
    assert !Received(s.rcv, s.rcv.first);
    var a := if cfg.mode.Cumulative? then s.rcv.first else s.snd.base;
    var e := if cfg.mode.Selective? && s.snd.acked[Slot(cfg, a)] then NoAck else TakeAck(a);
    var u := Step(cfg, s, {}, e);
    var fs;
    fs, t := SlideOut(cfg, u, {});
    Joins(cfg, s, [e], u, fs, t);
    es := [e] + fs;
  }

  /** While chunks are unacknowledged, some steps of the loops move `base` up. */
  lemma Advance(cfg: Config, s: System) returns (es: seq<Event>, t: System)
    requires Underway(cfg, s, {}) && Live(cfg, s) && !s.snd.phase.Finished? && s.snd.base < ChunkCount(cfg.file)
    ensures Underway(cfg, t, {}) && Reaches(cfg, s, es, t)
    ensures s.snd.base < t.snd.base && EndOffered(cfg, t)
  {
    es, t := ToWait(cfg, s);
    if t.snd.base == s.snd.base {
      if !BaseReceived(t) {
        var fs, u := GetBaseReceived(cfg, t);
        Joins(cfg, s, es, t, fs, u);
        var gs, w := ToWait(cfg, u);
        Joins(cfg, s, es + fs, u, gs, w);
        es, t := es + fs + gs, w;
      }
      if t.snd.base == s.snd.base {
        ReachesLive(cfg, s, es, t);
        var fs, u := GetBaseAcked(cfg, t);
        Joins(cfg, s, es, t, fs, u);
        es, t := es + fs, u;
      }
    }
  }

  /** From any state in which the sender waits for nothing that has vanished, the loops alone can finish the transfer:
      the receiver stops on END holding the whole file. */
  lemma {:induction false} CanComplete(cfg: Config, s: System) returns (es: seq<Event>, t: System)
    requires Underway(cfg, s, {}) && EndOffered(cfg, s) && (s.snd.phase.Finished? || Live(cfg, s))
    ensures Reaches(cfg, s, es, t)
    ensures t.snd.phase.Finished? && t.rcv.gotEnd && t.rcv.output == cfg.file
    decreases ChunkCount(cfg.file) - s.snd.base, !s.snd.phase.Finished?
  {
    WindowsOrdered(cfg, s);
    var n := ChunkCount(cfg.file);
    if s.snd.phase.Finished? {
      t := Apply(cfg, s, TakeEnd(n));
      es := [TakeEnd(n)];
      OneStep(cfg, s, es[0]);
      PrefixAll(cfg.file);
    } else {
      var fs, u;
      if s.snd.base < n {
        fs, u := Advance(cfg, s);
      } else {
        fs, u := ToWait(cfg, s);
      }
      WindowsOrdered(cfg, u);
      ReachesLive(cfg, s, fs, u);
      es, t := CanComplete(cfg, u);
      Joins(cfg, s, fs, u, es, t);
      es := fs + es;
    }
  }

  lemma {:induction false} RunLive(cfg: Config, s: System, es: seq<Event>)
    requires Inv(cfg, s, {}) && Live(cfg, s) && Valid(cfg, s, es)
    requires forall e :: e in es ==> !LosesAck(e)
    ensures Live(cfg, After(cfg, s, es)) && Inv(cfg, After(cfg, s, es), {})
    decreases |es|
  {
    if es != [] {
      StepKeeps(cfg, s, {}, es[0]);
      LiveKeeps(cfg, s, es[0]);
      RunLive(cfg, Apply(cfg, s, es[0]), es[1..]);
    }
  }

  /** In every run that loses no acknowledgement, whatever else the network does, the transfer can be completed by
      the loops alone from the state reached, unless the receiver has timed out or the sender has already left its
      loop. Steps that lose acknowledgements are excluded because the receiver never acknowledges again a packet
      below its window. */
  lemma ProgressWithoutAckLoss(cfg: Config, s: System, es: seq<Event>) returns (fs: seq<Event>)
    requires 0 < cfg.window && Init(cfg, s, {}) && Valid(cfg, s, es)
    requires forall e :: e in es ==> !LosesAck(e)
    requires !After(cfg, s, es).snd.phase.Finished? && Running(After(cfg, s, es).rcv)
    ensures Valid(cfg, s, es + fs) && (forall e :: e in fs ==> Working(e))
    ensures var t := After(cfg, s, es + fs); t.snd.phase.Finished? && t.rcv.gotEnd && t.rcv.output == cfg.file
  {
    InitOk(cfg, s, {});
    RunLive(cfg, s, es);
    var t;
    fs, t := CanComplete(cfg, After(cfg, s, es));
    Concat(cfg, s, es, fs);
  }
}
