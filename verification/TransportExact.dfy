/** Exactly what the loops send and how far they go, in every reachable state, told from the file, the numbers known to
    the sender and the acknowledgements it has consumed. */
module TransportExact {
  import opened Common
  import opened Transport
  import opened TransportSafety
  import opened TransportLoops

  /** `sent` is the chunks whose numbers lie in lo, ..., hi-1 and not in `known`, each once and in order. */
  ghost predicate SendsChunks(file: seq<byte>, sent: seq<Message>, lo: int, hi: int, known: set<nat>)
    requires hi <= ChunkCount(file)
  {
    && (forall i :: 0 <= i < |sent| ==>
          && sent[i].Data? && var p := sent[i].packet;
             lo <= p.seqNum < hi && p.seqNum !in known && p.payload == Chunk(file, p.seqNum))
    && (forall i, j :: 0 <= i < j < |sent| ==>
          sent[i].Data? && sent[j].Data? && sent[i].packet.seqNum < sent[j].packet.seqNum)
    && forall k: nat :: lo <= k < hi && k !in known ==> Data(Packet(k, Chunk(file, k))) in sent
  }

  lemma NothingSent(file: seq<byte>, lo: int, known: set<nat>)
    requires lo <= ChunkCount(file)
    ensures SendsChunks(file, [], lo, lo, known)
  {}

  /** One more number: its chunk comes first, unless it is known. */
  lemma SentFirst(file: seq<byte>, now: seq<Message>, sent: seq<Message>, lo: nat, hi: nat, known: set<nat>)
    requires lo < hi <= ChunkCount(file) && SendsChunks(file, sent, lo + 1, hi, known)
    requires now == if lo in known then [] else [Data(Packet(lo, Chunk(file, lo)))]
    ensures SendsChunks(file, now + sent, lo, hi, known)
  {
    if lo in known {
      SentSkips(file, sent, lo, hi, known);
      assert now + sent == sent;
    } else {
      var p := Packet(lo, Chunk(file, lo));
      SentBefore(file, p, sent, lo, hi, known);
      assert now == [Data(p)];
    }
  }

  lemma SentSkips(file: seq<byte>, sent: seq<Message>, lo: nat, hi: nat, known: set<nat>)
    requires lo < hi <= ChunkCount(file) && SendsChunks(file, sent, lo + 1, hi, known) && lo in known
    ensures SendsChunks(file, sent, lo, hi, known)
  {}

  lemma SentBefore(file: seq<byte>, p: Packet, sent: seq<Message>, lo: nat, hi: nat, known: set<nat>)
    requires lo < hi <= ChunkCount(file) && SendsChunks(file, sent, lo + 1, hi, known) && lo !in known
    requires p == Packet(lo, Chunk(file, lo))
    ensures SendsChunks(file, [Data(p)] + sent, lo, hi, known)
  {
    var all := [Data(p)] + sent;
    assert all[0] == Data(p);
    assert forall i :: 1 <= i < |all| ==> all[i] == sent[i - 1];
    assert forall m :: m in sent ==> m in all;
  }

  // ---------- The fill loop ----------

  lemma {:induction false} FillLoop(cfg: Config, s: Sender)
    requires RingSized(cfg, s) && s.phase.Filling? && s.next <= |s.packets|
    ensures var (t, sent) := RunLoop(cfg, s);
      && !CanRead(cfg, t) && t.base == s.base && t.next == s.next && t.acked == s.acked && t.freed == s.freed
      && if t.base == |t.packets| then t.phase.Finished? && sent == [End(|t.packets|)]
         else t.phase.Sending? && sent == []
    decreases LoopRank(cfg, s)
  {
    if CanRead(cfg, s) {
      FillLoop(cfg, ReadChunk(cfg, s));
    }
  }

  /** A window that cannot be filled further is full, or holds the rest of the file. */
  lemma Filled(cfg: Config, s: Sender)
    requires SenderOk(cfg, s) && !CanRead(cfg, s) && s.base <= |s.packets|
    ensures |s.packets| == Min(s.base + cfg.window, ChunkCount(cfg.file))
  {}

  // ---------- The loop of first sends ----------

  lemma {:induction false} SendLoop(cfg: Config, s: Sender)
    requires SenderOk(cfg, s) && s.phase.Sending?
    ensures var (t, sent) := RunLoop(cfg, s);
      && t.phase.Waiting? && t.base == s.base && t.packets == s.packets && t.next == |s.packets| && t.freed == s.freed
      && SendsChunks(cfg.file, sent, s.next, t.next, {})
    decreases LoopRank(cfg, s)
  {
    if CanSend(cfg, s) {
      var u := SendNext(cfg, s);
      assert s.packets[s.next].seqNum == s.next && Genuine(cfg, s.packets[s.next]);
      if !CanWork(cfg, u) { assert false; }
      SendLoop(cfg, u);
      SentFirst(cfg.file, [Data(s.packets[s.next])], RunLoop(cfg, u).1, s.next, |s.packets|, {});
    } else {
      NothingSent(cfg.file, s.next, {});
    }
  }

  /** What a loop leaves is in order again. */
  lemma LoopKeeps(cfg: Config, s: System)
    requires Inv(cfg, s, {}) && CanWork(cfg, s.snd)
    ensures var t := RunLoop(cfg, s.snd).0; SenderOk(cfg, t) && t.base <= |t.packets|
  {
    var es := RunLoopIsRun(cfg, s);
    RunKeeps(cfg, s, {}, es);
    WindowsOrdered(cfg, After(cfg, s, es));
  }

  /** From the top of the loop body to the receive: the transfer is over exactly when every chunk is acknowledged, and
      then END with the chunk count is all that is sent; otherwise the window is filled as far as it or the file goes,
      and its packets not sent before are sent, each once and in order. */
  ghost predicate FillsAndSends(cfg: Config, s: Sender, t: Sender, sent: seq<Message>) {
    var n := ChunkCount(cfg.file);
    && t.base == s.base && t.freed == s.freed
    && if s.base == n then t.phase.Finished? && sent == [End(n)]
       else
         && t.phase.Waiting? && t.next == |t.packets| == Min(s.base + cfg.window, n)
         && t.next <= n && SendsChunks(cfg.file, sent, s.next, t.next, {})
  }

  lemma HeadFrom(cfg: Config, s: System)
    requires Inv(cfg, s, {}) && s.snd.phase.Filling? && s.snd.next <= |s.snd.packets|
    ensures FillsAndSends(cfg, s.snd, Head(cfg, s.snd).0, Head(cfg, s.snd).1)
  {
    FillLoop(cfg, s.snd);
    LoopKeeps(cfg, s);
    var t := RunLoop(cfg, s.snd).0;
    Filled(cfg, t);
    if t.phase.Sending? {
      SendLoop(cfg, t);
      assert [] + RunLoop(cfg, t).1 == RunLoop(cfg, t).1;
    }
  }

  /** After any run that has brought the sender to the top of its loop body. */
  lemma HeadExact(cfg: Config, s: System, es: seq<Event>)
    requires 0 < cfg.window && Init(cfg, s, {}) && Valid(cfg, s, es) && After(cfg, s, es).snd.phase.Filling?
    ensures var t := After(cfg, s, es).snd;
      t.next <= |t.packets| && FillsAndSends(cfg, t, Head(cfg, t).0, Head(cfg, t).1)
  {
    InitOk(cfg, s, {});
    RunKeeps(cfg, s, {}, es);
    HeadFrom(cfg, After(cfg, s, es));
  }

  // ---------- The slide loop ----------

  lemma {:induction false} SlideLoop(cfg: Config, s: Sender)
    requires RingSized(cfg, s) && s.phase.Sliding? && s.next <= |s.packets|
    ensures var t := SlideAll(cfg, s);
      && t == s.(base := t.base, freed := t.freed) && s.base <= t.base && !CanSlide(cfg, t)
      && (cfg.mode.Cumulative? ==> t == s)
      && (cfg.mode.Selective? ==>
            (s.base <= s.next ==> t.base <= s.next) && forall k :: s.base <= k < t.base ==> s.acked[Slot(cfg, k)])
    decreases LoopRank(cfg, s)
  {
    if CanSlide(cfg, s) {
      SlideLoop(cfg, SlideOne(s));
    }
  }

  // ---------- The retransmission loop ----------

  lemma {:induction false} ResendLoop(cfg: Config, s: Sender, known: set<nat>)
    requires SenderOk(cfg, s) && s.phase.Resending?
    requires forall k :: s.phase.k <= k < s.next ==> (Resends(cfg, s, k) <==> k !in known)
    ensures var (t, sent) := RunLoop(cfg, s);
      t == s.(phase := Filling) &&
      (s.phase.k <= s.next ==> SendsChunks(cfg.file, sent, s.phase.k, s.next, known)) &&
      (s.phase.k >= s.next ==> sent == [])
    decreases LoopRank(cfg, s)
  {
    var k := s.phase.k;
    if k < s.next {
      var u, now := Work(cfg, s).0, Work(cfg, s).1;
      assert s.packets[k].seqNum == k && Genuine(cfg, s.packets[k]);
      ResendLoop(cfg, u, known);
      if k + 1 == s.next {
        NothingSent(cfg.file, k + 1, known);
      }
      SentFirst(cfg.file, now, RunLoop(cfg, u).1, k, s.next, known);
    } else {
      NothingSent(cfg.file, s.next, known);
    }
  }

  /** The packets in flight the sender knows to be received. */
  function Known(cfg: Config, heard: set<nat>): set<nat> {
    if cfg.mode.Cumulative? then {} else heard
  }

  /** A timeout at any moment: of the packets in flight exactly those are sent again whose acknowledgement has not been
      consumed (in cumulative mode all), each once and in order. */
  lemma TimeoutExact(cfg: Config, s: System, strays: set<nat>)
    requires Inv(cfg, s, strays) && s.snd.phase.Resending?
    ensures var (t, sent) := RunLoop(cfg, s.snd);
      t == s.snd.(phase := Filling) &&
      if s.snd.phase.k <= s.snd.next
        then SendsChunks(cfg.file, sent, s.snd.phase.k, s.snd.next, Known(cfg, s.heard)) else sent == []
  {
    ResendLoop(cfg, s.snd, Known(cfg, s.heard));
  }

  /** One step of the retransmission loop, in every reachable state: packet `k` is put in flight exactly if the sender
      does not know it to be received, and nothing else happens. */
  lemma ResendExact(cfg: Config, s: System, strays: set<nat>, k: nat)
    requires Inv(cfg, s, strays) && s.snd.phase == Resending(k) && k < s.snd.next
    ensures k < ChunkCount(cfg.file) && CanWork(cfg, s.snd)
    ensures DoWork(cfg, s) == s.(
      snd := s.snd.(phase := Resending(k + 1)),
      net := s.net + if k in Known(cfg, s.heard) then multiset{} else multiset{Data(Packet(k, Chunk(cfg.file, k)))})
  {
    assert s.snd.packets[k].seqNum == k && Genuine(cfg, s.snd.packets[k]);
  }

  // ---------- From the receive on ----------

  /** The base after an acknowledgement, or none, has been taken: in cumulative mode the greater of the two numbers; in
      selective mode the first number in flight whose acknowledgement has not been consumed. */
  ghost predicate MovesBase(cfg: Config, s: Sender, heard: set<nat>, ack: Option<nat>, base: nat) {
    match cfg.mode
    case Cumulative => base == if ack.Some? && ack.value > s.base then ack.value else s.base
    case Selective =>
      && s.base <= base <= s.next && (base < s.next ==> base !in heard)
      && forall k :: s.base <= k < base ==> k in heard
  }

  /** From the receive on: the base moves as it must, and what it passes is freed; if the timer has expired, exactly the
      packets in flight not known to be received are sent again, each once and in order; nothing else is sent. */
  ghost predicate MovesAndResends(cfg: Config, s: Sender, heard: set<nat>, ack: Option<nat>, expired: bool,
                                  t: Sender, sent: seq<Message>) {
    && t.phase.Filling? && t.next == s.next && t.packets == s.packets
    && MovesBase(cfg, s, heard, ack, t.base) && t.base <= t.next <= ChunkCount(cfg.file)
    && t.freed == Upto(t.base)
    && (if expired then SendsChunks(cfg.file, sent, t.base, t.next, Known(cfg, heard)) else sent == [])
  }

  lemma TailFrom(cfg: Config, s: System, ack: Option<nat>, expired: bool)
    requires Inv(cfg, s, {}) && s.snd.phase.Waiting? && (ack.Some? ==> Ack(ack.value) in s.net)
    requires s.snd.next <= |s.snd.packets|
    ensures var heard := if ack.Some? then s.heard + {ack.value} else s.heard;
      var (t, sent) := Tail(cfg, s.snd, ack, expired);
      MovesAndResends(cfg, s.snd, heard, ack, expired, t, sent)
  {
    var e := if ack.Some? then TakeAck(ack.value) else NoAck;
    var u := Apply(cfg, s, e);
    StepKeeps(cfg, s, {}, e);
    AfterAckExact(cfg, u, expired);
    MovedBase(cfg, s, ack, SlideAll(cfg, u.snd).base);
  }

  /** After any run that has brought the sender to the receive. */
  lemma TailExact(cfg: Config, s: System, es: seq<Event>, ack: Option<nat>, expired: bool)
    requires 0 < cfg.window && Init(cfg, s, {}) && Valid(cfg, s, es) && After(cfg, s, es).snd.phase.Waiting?
    requires ack.Some? ==> Ack(ack.value) in After(cfg, s, es).net
    ensures var t := After(cfg, s, es);
      var heard := if ack.Some? then t.heard + {ack.value} else t.heard;
      && t.snd.next <= |t.snd.packets|
      && var (snd, sent) := Tail(cfg, t.snd, ack, expired);
         MovesAndResends(cfg, t.snd, heard, ack, expired, snd, sent)
  {
    InitOk(cfg, s, {});
    RunKeeps(cfg, s, {}, es);
    TailFrom(cfg, After(cfg, s, es), ack, expired);
  }

  lemma MovedBase(cfg: Config, s: System, ack: Option<nat>, base: nat)
    requires Inv(cfg, s, {}) && s.snd.phase.Waiting? && (ack.Some? ==> Ack(ack.value) in s.net)
    requires var e := if ack.Some? then TakeAck(ack.value) else NoAck;
      Slid(cfg, Apply(cfg, s, e), base)
    ensures MovesBase(cfg, s.snd, if ack.Some? then s.heard + {ack.value} else s.heard, ack, base)
  {}

  /** How far the slide loop goes. */
  ghost predicate Slid(cfg: Config, s: System, base: nat) {
    match cfg.mode
    case Cumulative => base == s.snd.base
    case Selective =>
      && s.snd.base <= base <= s.snd.next && (base < s.snd.next ==> base !in s.heard)
      && forall k :: s.snd.base <= k < base ==> k in s.heard
  }

  lemma AfterAckExact(cfg: Config, s: System, expired: bool)
    requires Inv(cfg, s, {}) && s.snd.phase.Sliding? && s.snd.next <= |s.snd.packets|
    ensures var t := ReadClock(SlideAll(cfg, s.snd), expired);
      var (snd, sent) := if expired then RunLoop(cfg, t) else (t, []);
      && snd.phase.Filling? && snd.next == s.snd.next && snd.packets == s.snd.packets
      && snd.base == SlideAll(cfg, s.snd).base && Slid(cfg, s, snd.base)
      && snd.base <= snd.next <= ChunkCount(cfg.file) && snd.freed == Upto(snd.base)
      && if expired then SendsChunks(cfg.file, sent, snd.base, snd.next, Known(cfg, s.heard)) else sent == []
  {
    var fs := SlideIsRun(cfg, s);
    RunKeeps(cfg, s, {}, fs);
    var u := After(cfg, s, fs);
    WindowsOrdered(cfg, s);
    WindowsOrdered(cfg, u);
    SlideLoop(cfg, s.snd);
    if expired {
      ResendLoop(cfg, ReadClock(u.snd, true), Known(cfg, s.heard));
    }
  }

  // ---------- The receiver ----------

  /** A data packet arrives, after any run: outside the window nothing happens; inside exactly one acknowledgement is
      sent, in selective mode of the packet itself, in cumulative mode of the first chunk that is then not written. */
  lemma TakeDataExact(cfg: Config, s: System, es: seq<Event>, p: Packet)
    requires 0 < cfg.window && Init(cfg, s, {}) && Valid(cfg, s, es)
    requires Enabled(cfg, After(cfg, s, es), TakeData(p))
    ensures var t := After(cfg, s, es);
      var t' := Apply(cfg, t, TakeData(p));
      && t'.snd == t.snd
      && if t.rcv.first <= p.seqNum < t.rcv.first + cfg.window then
           exists a: nat ::
             && t'.net == t.net - multiset{Data(p)} + multiset{Ack(a)}
             && (cfg.mode.Selective? ==> a == p.seqNum)
             && (cfg.mode.Cumulative? ==> t'.rcv.output == Prefix(cfg.file, a) && !Received(t'.rcv, a))
         else t'.rcv == t.rcv && t'.net == t.net - multiset{Data(p)}
  {
    InitOk(cfg, s, {});
    RunKeeps(cfg, s, {}, es);
    var t := After(cfg, s, es);
    assert Data(p) in t.net;
    OnDataKeeps(cfg, t.rcv, t.snd.next, p);
    var t' := Apply(cfg, t, TakeData(p));
    if InWindow(cfg, t.rcv, p.seqNum) {
      var a := if cfg.mode.Cumulative? then t'.rcv.first else p.seqNum;
      assert t'.net == t.net - multiset{Data(p)} + multiset{Ack(a)};
    }
  }

  /** END arrives, after any run: it carries the chunk count, the file is written, END is acknowledged with its own
      number, and the receiver leaves its loop. */
  lemma TakeEndExact(cfg: Config, s: System, es: seq<Event>, n: nat)
    requires 0 < cfg.window && Init(cfg, s, {}) && Valid(cfg, s, es)
    requires Enabled(cfg, After(cfg, s, es), TakeEnd(n))
    ensures var t := After(cfg, s, es);
      && n == ChunkCount(cfg.file) && t.rcv.output == cfg.file
      && Apply(cfg, t, TakeEnd(n)) == t.(rcv := t.rcv.(gotEnd := true),
                                         net := t.net - multiset{End(n)} + multiset{Ack(n)})
  {
    InitOk(cfg, s, {});
    RunKeeps(cfg, s, {}, es);
    var t := After(cfg, s, es);
    assert End(n) in t.net;
    WindowsOrdered(cfg, t);
    PrefixAll(cfg.file);
  }
}
