/** From which states a transfer can still be completed, exactly: the receiver acknowledges nothing below its window a
    second time, so some losses of acknowledgements are final and others are made good by retransmission. */
module TransportRecovery {
  import opened Common
  import opened Transport
  import opened TransportSafety
  import opened TransportProgress

  ghost predicate AckAbove(s: System, a: nat) {
    exists b: nat :: a < b && Ack(b) in s.net
  }

  /** The sender in its loop can still get through. Cumulative mode: it knows of all that is written, or the
      acknowledgement saying so is in flight, or the next packet to be written can still be sent, at once or after an
      acknowledgement in flight has moved the window. Selective mode: of each packet written out of its window it
      knows, or the acknowledgement is in flight. */
  ghost predicate Recoverable(cfg: Config, s: System)
    requires Shaped(cfg, s)
  {
    match cfg.mode
    case Cumulative =>
      || s.snd.base == s.rcv.first
      || Ack(s.rcv.first) in s.net
      || (s.rcv.first < ChunkCount(cfg.file) &&
          (s.rcv.first < s.snd.base + cfg.window || AckAbove(s, s.snd.base)))
    case Selective =>
      forall k :: s.snd.base <= k < s.rcv.first ==> s.snd.acked[Slot(cfg, k)] || Ack(k) in s.net
  }

  /** The receiver has stopped on END; or it is in its loop, and END is in flight or the sender can get through. */
  ghost predicate Completable(cfg: Config, s: System)
    requires Shaped(cfg, s)
  {
    || s.rcv.gotEnd
    || (Running(s.rcv) &&
        if s.snd.phase.Finished? then End(ChunkCount(cfg.file)) in s.net else Recoverable(cfg, s))
  }

  // ---------- What is lost stays lost ----------

  lemma StuckCumulative(cfg: Config, s: System, e: Event)
    requires Inv(cfg, s, {}) && cfg.mode.Cumulative? && !s.snd.phase.Finished? && Running(s.rcv)
    requires !Recoverable(cfg, s) && Enabled(cfg, s, e)
    ensures !Recoverable(cfg, Apply(cfg, s, e))
  {
    match e
    case WorkOn => NothingGained(cfg, s, DoWork(cfg, s));
    case TakeAck(a) => StuckAck(cfg, s, a);
    case TakeData(p) => StuckData(cfg, s, p);
    case TakeEnd(n) => assert false;
    case _ => NothingGained(cfg, s, Apply(cfg, s, e));
  }

  lemma StuckAck(cfg: Config, s: System, a: nat)
    requires Inv(cfg, s, {}) && cfg.mode.Cumulative? && !Recoverable(cfg, s) && Enabled(cfg, s, TakeAck(a))
    requires !s.snd.phase.Finished?
    ensures !Recoverable(cfg, Apply(cfg, s, TakeAck(a)))
  {
    WindowsOrdered(cfg, s);
    var s' := Apply(cfg, s, TakeAck(a));
    assert Ack(a) in s.net;
    assert forall b: nat :: Ack(b) in s'.net ==> Ack(b) in s.net;
    NothingGained(cfg, s, s');
  }

  lemma StuckData(cfg: Config, s: System, p: Packet)
    requires Inv(cfg, s, {}) && cfg.mode.Cumulative? && !Recoverable(cfg, s) && Enabled(cfg, s, TakeData(p))
    ensures !Recoverable(cfg, Apply(cfg, s, TakeData(p)))
  {
    WindowsOrdered(cfg, s);
    assert Data(p) in s.net;
    assert OnData(cfg, s.rcv, p) == (s.rcv, []);
    NothingGained(cfg, s, Apply(cfg, s, TakeData(p)));
  }

  /** Nothing new is written or acknowledged, and the sender learns less than it would have to. */
  lemma NothingGained(cfg: Config, s: System, s': System)
    requires Shaped(cfg, s) && Shaped(cfg, s') && cfg.mode.Cumulative? && !Recoverable(cfg, s)
    requires s'.rcv.first == s.rcv.first && forall a: nat :: Ack(a) in s'.net ==> Ack(a) in s.net
    requires s'.snd.base == s.snd.base ||
             (s'.snd.base < s.rcv.first && s.rcv.first >= ChunkCount(cfg.file))
    ensures !Recoverable(cfg, s')
  {}

  /** Packet `k` is written, the sender does not know and will not hear. */
  predicate Forgotten(cfg: Config, s: System, k: nat)
    requires Shaped(cfg, s) && cfg.mode.Selective?
  {
    s.snd.base <= k < s.rcv.first && !s.snd.acked[Slot(cfg, k)] && Ack(k) !in s.net
  }

  lemma StuckSelective(cfg: Config, s: System, e: Event, k: nat)
    requires Inv(cfg, s, {}) && cfg.mode.Selective? && !s.snd.phase.Finished? && Running(s.rcv)
    requires Forgotten(cfg, s, k) && Enabled(cfg, s, e)
    ensures Forgotten(cfg, Apply(cfg, s, e), k)
  {
    WindowsOrdered(cfg, s);
    match e
    case WorkOn =>
      if Slot(cfg, k) == Slot(cfg, s.snd.next) { SameSlot(k, s.snd.next, 2 * cfg.window); }
    case TakeAck(a) => ForgottenAck(cfg, s, a, k);
    case TakeData(p) => ForgottenData(cfg, s, p, k);
    case _ =>
  }

  lemma ForgottenAck(cfg: Config, s: System, a: nat, k: nat)
    requires Inv(cfg, s, {}) && cfg.mode.Selective? && Forgotten(cfg, s, k) && Enabled(cfg, s, TakeAck(a))
    ensures Forgotten(cfg, Apply(cfg, s, TakeAck(a)), k)
  {
    WindowsOrdered(cfg, s);
    assert Ack(a) in s.net;
    if s.snd.base <= a < s.snd.base + cfg.window && Slot(cfg, k) == Slot(cfg, a) {
      SameSlot(k, a, 2 * cfg.window);
    }
  }

  lemma ForgottenData(cfg: Config, s: System, p: Packet, k: nat)
    requires Inv(cfg, s, {}) && cfg.mode.Selective? && Forgotten(cfg, s, k) && Enabled(cfg, s, TakeData(p))
    ensures Forgotten(cfg, Apply(cfg, s, TakeData(p)), k)
  {
    assert Data(p) in s.net;
    OnDataKeeps(cfg, s.rcv, s.snd.next, p);
  }

  lemma StuckInLoop(cfg: Config, s: System, e: Event)
    requires Inv(cfg, s, {}) && !s.snd.phase.Finished? && Running(s.rcv) && !Recoverable(cfg, s) && Enabled(cfg, s, e)
    ensures !Recoverable(cfg, Apply(cfg, s, e))
  {
    if cfg.mode.Cumulative? {
      StuckCumulative(cfg, s, e);
    } else {
      var k: nat :| s.snd.base <= k < s.rcv.first && !s.snd.acked[Slot(cfg, k)] && Ack(k) !in s.net;
      StuckSelective(cfg, s, e, k);
    }
  }

  lemma StuckOutside(cfg: Config, s: System, e: Event)
    requires Inv(cfg, s, {}) && !s.rcv.gotEnd && Enabled(cfg, s, e)
    requires s.rcv.closed || (s.snd.phase.Finished? && End(ChunkCount(cfg.file)) !in s.net)
    ensures !Completable(cfg, Apply(cfg, s, e))
  {
    if e.TakeData? {
      assert Data(e.packet) in s.net;
      OnDataKeeps(cfg, s.rcv, s.snd.next, e.packet);
    }
  }

  /** No step, of the loops or of the network, makes a completion possible again. */
  lemma StuckKeeps(cfg: Config, s: System, e: Event)
    requires Inv(cfg, s, {}) && !Completable(cfg, s) && Enabled(cfg, s, e)
    ensures !Completable(cfg, Apply(cfg, s, e))
  {
    if s.rcv.closed || s.snd.phase.Finished? {
      StuckOutside(cfg, s, e);
    } else {
      var s' := Apply(cfg, s, e);
      StepKeeps(cfg, s, {}, e);
      StuckInLoop(cfg, s, e);
      NoEndYet(cfg, s, e);
      if s'.snd.phase.Finished? {
        DoneIsRecoverable(cfg, s');
      }
    }
  }

  /** END is only under way once the sender has left its loop. */
  lemma NoEndYet(cfg: Config, s: System, e: Event)
    requires Inv(cfg, s, {}) && !s.snd.phase.Finished? && Running(s.rcv) && Enabled(cfg, s, e)
    ensures !Apply(cfg, s, e).rcv.gotEnd
  {
    if e.TakeData? {
      assert Data(e.packet) in s.net;
      OnDataKeeps(cfg, s.rcv, s.snd.next, e.packet);
    }
  }

  lemma DoneIsRecoverable(cfg: Config, s: System)
    requires Inv(cfg, s, {}) && s.snd.phase.Finished?
    ensures Recoverable(cfg, s)
  {
    WindowsOrdered(cfg, s);
  }

  lemma {:induction false} StuckForEver(cfg: Config, s: System, es: seq<Event>)
    requires Inv(cfg, s, {}) && !Completable(cfg, s) && Valid(cfg, s, es)
    ensures !Completable(cfg, After(cfg, s, es))
    decreases |es|
  {
    if es != [] {
      StepKeeps(cfg, s, {}, es[0]);
      StuckKeeps(cfg, s, es[0]);
      StuckForEver(cfg, Apply(cfg, s, es[0]), es[1..]);
    }
  }

  // ---------- What is not lost can be regained ----------

  /** Steps the sender takes by itself spoil nothing. */
  lemma AloneStep(cfg: Config, s: System, e: Event)
    requires Inv(cfg, s, {}) && Recoverable(cfg, s) && Enabled(cfg, s, e) && (e.WorkOn? || e.NoAck? || e.Clock?)
    ensures Recoverable(cfg, Apply(cfg, s, e))
  {
    WindowsOrdered(cfg, s);
    var s' := Apply(cfg, s, e);
    forall a: nat | Ack(a) in s.net
      ensures Ack(a) in s'.net
    {}
    if cfg.mode.Selective? {
      forall k | s'.snd.base <= k < s'.rcv.first
        ensures s'.snd.acked[Slot(cfg, k)] == s.snd.acked[Slot(cfg, k)]
      {
        if Slot(cfg, k) == Slot(cfg, s.snd.next) { SameSlot(k, s.snd.next, 2 * cfg.window); }
      }
    }
  }

  lemma {:induction false} AloneRun(cfg: Config, s: System, es: seq<Event>)
    requires Inv(cfg, s, {}) && Recoverable(cfg, s) && Valid(cfg, s, es) && Alone(es)
    ensures Recoverable(cfg, After(cfg, s, es))
    decreases |es|
  {
    if es != [] {
      StepKeeps(cfg, s, {}, es[0]);
      AloneStep(cfg, s, es[0]);
      assert forall e :: e in es[1..] ==> e in es;
      AloneRun(cfg, Apply(cfg, s, es[0]), es[1..]);
    }
  }

  /** A sender that waits retransmits what it does not know to be received. */
  lemma Resend(cfg: Config, s: System) returns (es: seq<Event>, t: System)
    requires Underway(cfg, s, {}) && s.snd.phase.Waiting?
    ensures Underway(cfg, t, {}) && Reaches(cfg, s, es, t) && Alone(es) && t.rcv == s.rcv && s.net <= t.net
    ensures t.snd.phase.Filling? && s.snd.base <= t.snd.base && t.snd.next == s.snd.next
    ensures forall k :: t.snd.base <= k < t.snd.next && Resends(cfg, t.snd, k) ==> Data(t.snd.packets[k]) in t.net
  {
    var s1 := Step(cfg, s, {}, NoAck);
    var fs, s2 := SlideDown(cfg, s1, {});
    Joins(cfg, s, [NoAck], s1, fs, s2);
    var s3 := Step(cfg, s2, {}, Clock(true));
    Joins(cfg, s, [NoAck] + fs, s2, [Clock(true)], s3);
    var gs;
    gs, t := ResendOut(cfg, s3, {});
    Joins(cfg, s, [NoAck] + fs + [Clock(true)], s3, gs, t);
    es := [NoAck] + fs + [Clock(true)] + gs;
  }

  // ---------- Cumulative mode ----------

  /** The next packet to be written is sent and gets through, and what is then written is acknowledged. */
  lemma DeliverFirst(cfg: Config, s: System) returns (es: seq<Event>, t: System)
    requires Underway(cfg, s, {}) && cfg.mode.Cumulative? && s.snd.phase.Waiting?
    requires s.rcv.first < s.snd.next && s.snd.base <= s.rcv.first
    ensures Underway(cfg, t, {}) && Reaches(cfg, s, es, t) && !t.snd.phase.Finished? && Live(cfg, t)
  {
    var u;
    es, u := Resend(cfg, s);
    WindowsOrdered(cfg, u);
    var p := u.snd.packets[u.rcv.first];
    assert p.seqNum == u.rcv.first && Resends(cfg, u.snd, u.rcv.first) && Data(p) in u.net;
    t := Step(cfg, u, {}, TakeData(p));
    Joins(cfg, s, es, u, [TakeData(p)], t);
    es := es + [TakeData(p)];
    assert Ack(t.rcv.first) in t.net;
  }

  /** An acknowledgement above `base` moves the window, and the window is filled and sent again. */
  lemma TakeAbove(cfg: Config, s: System) returns (es: seq<Event>, t: System)
    requires Underway(cfg, s, {}) && cfg.mode.Cumulative? && s.snd.phase.Waiting?
    requires AckAbove(s, s.snd.base) && s.rcv.first < ChunkCount(cfg.file)
    ensures Underway(cfg, t, {}) && Reaches(cfg, s, es, t) && t.rcv == s.rcv
    ensures t.snd.phase.Waiting? && t.rcv.first < t.snd.next
  {
    WindowsOrdered(cfg, s);
    var a: nat :| s.snd.base < a && Ack(a) in s.net;
    var s1 := Step(cfg, s, {}, TakeAck(a));
    var s2 := Step(cfg, s1, {}, Clock(false));
    Joins(cfg, s, [TakeAck(a)], s1, [Clock(false)], s2);
    WindowsOrdered(cfg, s2);
    var fs;
    fs, t := Offer(cfg, s2, {});
    Joins(cfg, s, [TakeAck(a)] + [Clock(false)], s2, fs, t);
    es := [TakeAck(a)] + [Clock(false)] + fs;
    FullWindow(cfg, t);
  }

  /** A window that cannot be filled further holds the next packet to be written, if there is one. */
  lemma FullWindow(cfg: Config, s: System)
    requires Inv(cfg, s, {}) && !CanRead(cfg, s.snd) && s.rcv.first < ChunkCount(cfg.file)
    requires s.rcv.first < s.snd.base + cfg.window
    ensures s.rcv.first < |s.snd.packets|
  {}

  lemma RegainCumulative(cfg: Config, s: System) returns (es: seq<Event>, t: System)
    requires Underway(cfg, s, {}) && cfg.mode.Cumulative? && Recoverable(cfg, s) && !s.snd.phase.Finished?
    ensures Underway(cfg, t, {}) && Reaches(cfg, s, es, t) && Live(cfg, t) && EndOffered(cfg, t)
  {
    es, t := ToWait(cfg, s);
    AloneRun(cfg, s, es);
    WindowsOrdered(cfg, t);
    if !Live(cfg, t) {
      if AckAbove(t, t.snd.base) {
        var fs, u := TakeAbove(cfg, t);
        Joins(cfg, s, es, t, fs, u);
        es, t := es + fs, u;
        WindowsOrdered(cfg, t);
      } else {
        FullWindow(cfg, t);
      }
      var fs, u := DeliverFirst(cfg, t);
      Joins(cfg, s, es, t, fs, u);
      es, t := es + fs, u;
    }
  }

  // ---------- Selective mode ----------

  /** Of every packet below `k` that is received the sender knows or will hear; the others are on the way again. */
  predicate HeardBelow(cfg: Config, s: System, k: nat)
    requires Shaped(cfg, s) && cfg.mode.Selective?
  {
    && s.snd.base <= s.snd.next <= |s.snd.packets|
    && (forall j :: s.snd.base <= j < s.snd.next && j < k && Received(s.rcv, j) ==>
          s.snd.acked[Slot(cfg, j)] || Ack(j) in s.net)
    && forall j :: s.snd.base <= j < s.snd.next && k <= j && !s.snd.acked[Slot(cfg, j)] ==>
         Data(s.snd.packets[j]) in s.net
  }

  /** A packet waiting in the ring is acknowledged again when it comes again; the ring stays as it is. */
  lemma RepeatAcknowledged(cfg: Config, r: Receiver, next: nat, p: Packet)
    requires RingOk(cfg, r, next) && !CanDownload(r) && cfg.mode.Selective?
    requires InWindow(cfg, r, p.seqNum) && Received(r, p.seqNum)
    ensures OnData(cfg, r, p) == (r, [Ack(p.seqNum)])
  {
    assert Store(r, p) == r && Drain(r) == r;
  }

  lemma Reacknowledge(cfg: Config, s: System, k: nat) returns (t: System)
    requires Underway(cfg, s, {}) && cfg.mode.Selective? && !s.snd.phase.Finished? && HeardBelow(cfg, s, k)
    requires s.rcv.first <= k < s.snd.next && Received(s.rcv, k) && !s.snd.acked[Slot(cfg, k)]
    ensures k < |s.snd.packets| && Underway(cfg, t, {}) && Reaches(cfg, s, [TakeData(s.snd.packets[k])], t)
    ensures t.snd == s.snd && t.rcv == s.rcv && HeardBelow(cfg, t, k + 1)
  {
    WindowsOrdered(cfg, s);
    var p := s.snd.packets[k];
    assert p.seqNum == k && Data(p) in s.net && InWindow(cfg, s.rcv, k);
    RepeatAcknowledged(cfg, s.rcv, s.snd.next, p);
    t := Step(cfg, s, {}, TakeData(p));
    HeardBelowNext(cfg, s, t, k);
  }

  lemma HeardBelowNext(cfg: Config, s: System, t: System, k: nat)
    requires Shaped(cfg, s) && cfg.mode.Selective? && HeardBelow(cfg, s, k) && s.snd.base <= k < s.snd.next
    requires forall j :: s.snd.base <= j < s.snd.next ==> s.snd.packets[j].seqNum == j
    requires t == s.(net := s.net - multiset{Data(s.snd.packets[k])} + multiset{Ack(k)})
    ensures HeardBelow(cfg, t, k + 1)
  {
    forall m | m in s.net && m != Data(s.snd.packets[k])
      ensures m in t.net
    {}
    forall j | s.snd.base <= j < s.snd.next && k < j && !s.snd.acked[Slot(cfg, j)]
      ensures Data(s.snd.packets[j]) in t.net
    {
      assert s.snd.packets[j].seqNum == j;
    }
  }

  lemma {:induction false} ReacknowledgeAll(cfg: Config, s: System, k: nat) returns (es: seq<Event>, t: System)
    requires Underway(cfg, s, {}) && cfg.mode.Selective? && !s.snd.phase.Finished? && HeardBelow(cfg, s, k)
    requires s.rcv.first <= k <= s.snd.next
    ensures Underway(cfg, t, {}) && Reaches(cfg, s, es, t) && t.snd == s.snd && Live(cfg, t)
    decreases s.snd.next - k
  {
    if k == s.snd.next {
      es, t := [], s;
      StayPut(cfg, s);
    } else if Received(s.rcv, k) && !s.snd.acked[Slot(cfg, k)] {
      var e := TakeData(s.snd.packets[k]);
      var u := Reacknowledge(cfg, s, k);
      es, t := ReacknowledgeAll(cfg, u, k + 1);
      Joins(cfg, s, [e], u, es, t);
      es := [e] + es;
    } else {
      es, t := ReacknowledgeAll(cfg, s, k + 1);
    }
  }

  lemma RegainSelective(cfg: Config, s: System) returns (es: seq<Event>, t: System)
    requires Underway(cfg, s, {}) && cfg.mode.Selective? && Recoverable(cfg, s) && !s.snd.phase.Finished?
    ensures Underway(cfg, t, {}) && Reaches(cfg, s, es, t) && Live(cfg, t) && EndOffered(cfg, t)
  {
    es, t := ToWait(cfg, s);
    if t.snd.phase.Waiting? {
      var fs, u := Resend(cfg, t);
      Joins(cfg, s, es, t, fs, u);
      es := es + fs;
      AloneRun(cfg, s, es);
      WindowsOrdered(cfg, u);
      assert HeardBelow(cfg, u, u.rcv.first);
      var gs;
      gs, t := ReacknowledgeAll(cfg, u, u.rcv.first);
      Joins(cfg, s, es, u, gs, t);
      es := es + gs;
    }
  }

  // ---------- The theorem ----------

  lemma Complete(cfg: Config, s: System) returns (es: seq<Event>, t: System)
    requires Inv(cfg, s, {}) && Completable(cfg, s) && !s.rcv.gotEnd
    ensures Reaches(cfg, s, es, t) && t.rcv.gotEnd && t.rcv.output == cfg.file
  {
    if s.snd.phase.Finished? {
      es, t := CanComplete(cfg, s);
    } else {
      var u, fs;
      if cfg.mode.Cumulative? {
        es, u := RegainCumulative(cfg, s);
      } else {
        es, u := RegainSelective(cfg, s);
      }
      fs, t := CanComplete(cfg, u);
      Joins(cfg, s, es, u, fs, t);
      es := es + fs;
    }
  }

  /** The steps `fs` complete the transfer. */
  predicate Completes(cfg: Config, s: System, fs: seq<Event>)
    requires Shaped(cfg, s)
  {
    Valid(cfg, s, fs) && After(cfg, s, fs).rcv.gotEnd && After(cfg, s, fs).rcv.output == cfg.file
  }

  /** After every run whatever, acknowledgements lost or not: some steps complete the transfer if and only if the state
      reached is completable; and then steps of the loops alone do, with nothing more lost. */
  lemma CompletableExactly(cfg: Config, s: System, es: seq<Event>)
    requires 0 < cfg.window && Init(cfg, s, {}) && Valid(cfg, s, es)
    ensures var t := After(cfg, s, es);
      && ((exists fs :: Completes(cfg, t, fs)) <==> Completable(cfg, t))
      && (Completable(cfg, t) ==> exists fs :: Completes(cfg, t, fs) && forall e :: e in fs ==> Working(e))
  {
    InitOk(cfg, s, {});
    RunKeeps(cfg, s, {}, es);
    var t := After(cfg, s, es);
    if Completable(cfg, t) {
      var fs := CompletingRun(cfg, t);
    } else {
      forall fs | Valid(cfg, t, fs)
        ensures !Completes(cfg, t, fs)
      {
        StuckForEver(cfg, t, fs);
      }
    }
  }

  lemma CompletingRun(cfg: Config, s: System) returns (fs: seq<Event>)
    requires Inv(cfg, s, {}) && Completable(cfg, s)
    ensures Completes(cfg, s, fs) && forall e :: e in fs ==> Working(e)
  {
    if s.rcv.gotEnd {
      fs := [];
      WindowsOrdered(cfg, s);
      PrefixAll(cfg.file);
    } else {
      var t;
      fs, t := Complete(cfg, s);
    }
  }

  /** Where nothing the sender waits for has vanished, as after every run that has lost no acknowledgement, the transfer
      is recoverable; the converse fails wherever retransmission makes a loss good. */
  lemma LiveIsRecoverable(cfg: Config, s: System)
    requires Inv(cfg, s, {}) && Live(cfg, s)
    ensures Recoverable(cfg, s)
  {
    WindowsOrdered(cfg, s);
  }
}
