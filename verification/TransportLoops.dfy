/** The loops of the sender and of the receiver as they are written, on variables and ring buffers updated in place,
    proved against the steps of module Transport. */
module TransportLoops {
  import opened Common
  import opened Transport

  // ---------- What a whole inner loop does ----------

  /** Both states are in the same inner loop. */
  predicate SameLoop(a: Phase, b: Phase) {
    || (a.Filling? && b.Filling?)
    || (a.Sending? && b.Sending?)
    || (a.Sliding? && b.Sliding?)
    || (a.Resending? && b.Resending?)
  }

  function LoopRank(cfg: Config, s: Sender): int {
    match s.phase
    case Filling => |cfg.file| - s.pos
    case Sending => |s.packets| - s.next
    case Sliding => s.next - s.base
    case Resending(k) => s.next - k
    case _ => 0
  }

  /** Work until the inner loop the sender is in is left or has nothing more to do. */
  function RunLoop(cfg: Config, s: Sender): (r: (Sender, seq<Message>))
    requires RingSized(cfg, s) && CanWork(cfg, s)
    ensures RingSized(cfg, r.0) && r.0.next <= |r.0.packets|
    decreases LoopRank(cfg, s)
  {
    var (t, sent) := Work(cfg, s);
    if SameLoop(s.phase, t.phase) && CanWork(cfg, t) then
      var (u, more) := RunLoop(cfg, t);
      (u, sent + more)
    else (t, sent)
  }

  /** The part of the loop body before the receive: fill, test for the end, send. */
  function Head(cfg: Config, s: Sender): (r: (Sender, seq<Message>))
    requires RingSized(cfg, s) && s.phase.Filling? && s.next <= |s.packets|
    ensures RingSized(cfg, r.0) && r.0.next <= |r.0.packets|
  {
    var (t, sent) := RunLoop(cfg, s);
    if t.phase.Sending? then
      var (u, more) := RunLoop(cfg, t);
      (u, sent + more)
    else (t, sent)
  }

  /** What the receive does: `ack` is the number of the acknowledgement received, if one was. */
  function Receive(cfg: Config, s: Sender, ack: Option<nat>): (t: Sender)
    requires RingSized(cfg, s)
    ensures RingSized(cfg, t)
  {
    (if ack.Some? then OnAck(cfg, s, ack.value) else s).(phase := Sliding)
  }

  function SlideAll(cfg: Config, s: Sender): (t: Sender)
    requires RingSized(cfg, s) && s.phase.Sliding? && s.next <= |s.packets|
    ensures RingSized(cfg, t) && t.next <= |t.packets|
  {
    if CanSlide(cfg, s) then RunLoop(cfg, s).0 else s
  }

  /** The part of the loop body after the receive: take the acknowledgement, slide, retransmit if the timer says so. */
  function Tail(cfg: Config, s: Sender, ack: Option<nat>, expired: bool): (r: (Sender, seq<Message>))
    requires RingSized(cfg, s) && s.next <= |s.packets|
    ensures RingSized(cfg, r.0) && r.0.next <= |r.0.packets|
  {
    var t := ReadClock(SlideAll(cfg, Receive(cfg, s, ack)), expired);
    if expired then RunLoop(cfg, t) else (t, [])
  }

  // ---------- The loops are runs of the whole system ----------

  /** The steps `es` take the system from `s` to a state with this sender, having put these messages in flight, and
      leave the receiver alone. */
  ghost predicate Takes(cfg: Config, s: System, es: seq<Event>, snd: Sender, sent: seq<Message>)
    requires Shaped(cfg, s)
  {
    && Valid(cfg, s, es)
    && var t := After(cfg, s, es); t.snd == snd && t.rcv == s.rcv && t.net == s.net + multiset(sent)
  }

  lemma TakesJoin(cfg: Config, s: System, es: seq<Event>, mid: Sender, sent: seq<Message>,
                  fs: seq<Event>, snd: Sender, more: seq<Message>)
    requires Shaped(cfg, s) && Takes(cfg, s, es, mid, sent) && Takes(cfg, After(cfg, s, es), fs, snd, more)
    ensures Takes(cfg, s, es + fs, snd, sent + more)
  {
    Concat(cfg, s, es, fs);
    assert multiset(sent + more) == multiset(sent) + multiset(more);
  }

  lemma {:induction false} RunLoopIsRun(cfg: Config, s: System) returns (es: seq<Event>)
    requires Shaped(cfg, s) && CanWork(cfg, s.snd)
    ensures Takes(cfg, s, es, RunLoop(cfg, s.snd).0, RunLoop(cfg, s.snd).1)
    decreases LoopRank(cfg, s.snd)
  {
    var (t, sent) := Work(cfg, s.snd);
    es := [WorkOn];
    OneStep(cfg, s, WorkOn);
    if SameLoop(s.snd.phase, t.phase) && CanWork(cfg, t) {
      var fs := RunLoopIsRun(cfg, DoWork(cfg, s));
      TakesJoin(cfg, s, es, t, sent, fs, RunLoop(cfg, t).0, RunLoop(cfg, t).1);
      es := es + fs;
    }
  }

  /** The loop body before the receive is a run of the system. */
  lemma HeadIsRun(cfg: Config, s: System) returns (es: seq<Event>)
    requires Shaped(cfg, s) && s.snd.phase.Filling? && s.snd.next <= |s.snd.packets|
    ensures Takes(cfg, s, es, Head(cfg, s.snd).0, Head(cfg, s.snd).1)
  {
    es := RunLoopIsRun(cfg, s);
    var (t, sent) := RunLoop(cfg, s.snd);
    if t.phase.Sending? {
      var fs := RunLoopIsRun(cfg, After(cfg, s, es));
      TakesJoin(cfg, s, es, t, sent, fs, RunLoop(cfg, t).0, RunLoop(cfg, t).1);
      es := es + fs;
    }
  }

  /** The loop body from the receive on is a run of the system, once the acknowledgement received is out of the
      network. */
  lemma TailIsRun(cfg: Config, s: System, ack: Option<nat>, expired: bool) returns (es: seq<Event>)
    requires Shaped(cfg, s) && s.snd.phase.Waiting? && s.snd.next <= |s.snd.packets|
    requires ack.Some? ==> Ack(ack.value) in s.net
    ensures Valid(cfg, s, es)
    ensures var t := After(cfg, s, es); var (snd, sent) := Tail(cfg, s.snd, ack, expired);
      && t.snd == snd && t.rcv == s.rcv
      && t.net == (if ack.Some? then s.net - multiset{Ack(ack.value)} else s.net) + multiset(sent)
  {
    var e := if ack.Some? then TakeAck(ack.value) else NoAck;
    var u := Apply(cfg, s, e);
    OneStep(cfg, s, e);
    var fs := AfterAckIsRun(cfg, u, expired);
    Concat(cfg, s, [e], fs);
    es := [e] + fs;
  }

  /** The slide loop and what follows it, as a run. */
  lemma AfterAckIsRun(cfg: Config, s: System, expired: bool) returns (es: seq<Event>)
    requires Shaped(cfg, s) && s.snd.phase.Sliding? && s.snd.next <= |s.snd.packets|
    ensures var t := ReadClock(SlideAll(cfg, s.snd), expired);
      var (snd, sent) := if expired then RunLoop(cfg, t) else (t, []);
      Takes(cfg, s, es, snd, sent)
  {
    var fs := SlideIsRun(cfg, s);
    var u := After(cfg, s, fs);
    var t := ReadClock(SlideAll(cfg, s.snd), expired);
    var last := if expired then RunLoop(cfg, t) else (t, []);
    var gs := TimerIsRun(cfg, u, expired);
    TakesJoin(cfg, s, fs, u.snd, [], gs, last.0, last.1);
    assert [] + last.1 == last.1;
    es := fs + gs;
  }

  lemma SlideIsRun(cfg: Config, s: System) returns (es: seq<Event>)
    requires Shaped(cfg, s) && s.snd.phase.Sliding? && s.snd.next <= |s.snd.packets|
    ensures Takes(cfg, s, es, SlideAll(cfg, s.snd), [])
    ensures SlideAll(cfg, s.snd).phase.Sliding? && !CanSlide(cfg, SlideAll(cfg, s.snd))
  {
    SlideSilent(cfg, s.snd);
    es := [];
    if CanSlide(cfg, s.snd) {
      es := RunLoopIsRun(cfg, s);
    }
  }

  lemma {:induction false} SlideSilent(cfg: Config, s: Sender)
    requires RingSized(cfg, s) && s.phase.Sliding? && s.next <= |s.packets|
    ensures CanSlide(cfg, s) ==> RunLoop(cfg, s).1 == []
    ensures var t := SlideAll(cfg, s); t.phase.Sliding? && !CanSlide(cfg, t)
    decreases LoopRank(cfg, s)
  {
    if CanSlide(cfg, s) {
      SlideSilent(cfg, Work(cfg, s).0);
    }
  }

  lemma TimerIsRun(cfg: Config, s: System, expired: bool) returns (es: seq<Event>)
    requires Shaped(cfg, s) && s.snd.phase.Sliding? && !CanSlide(cfg, s.snd) && s.snd.next <= |s.snd.packets|
    ensures var t := ReadClock(s.snd, expired);
      var (snd, sent) := if expired then RunLoop(cfg, t) else (t, []);
      Takes(cfg, s, es, snd, sent)
  {
    var t := Apply(cfg, s, Clock(expired));
    OneStep(cfg, s, Clock(expired));
    es := [Clock(expired)];
    if expired {
      var fs := RunLoopIsRun(cfg, t);
      TakesJoin(cfg, s, es, t.snd, [], fs, RunLoop(cfg, t.snd).0, RunLoop(cfg, t.snd).1);
      assert [] + RunLoop(cfg, t.snd).1 == RunLoop(cfg, t.snd).1;
      es := es + fs;
    }
  }

  // ---------- The sender's loop body ----------

  class SenderLoop {
    const cfg: Config
    var base: nat
    var nextseqnum: nat
    var totseq: nat
    var seqNum: nat
    var packs: seq<Packet>
    var pos: nat
    var acked: array<bool>
    var freed: seq<nat>

    ghost predicate Valid()
      reads this
    {
      0 < cfg.window && acked.Length == 2 * cfg.window && totseq == seqNum == |packs| && nextseqnum <= totseq
    }

    /** The state, for a sender at the given point of its loop body. */
    ghost function View(phase: Phase): (s: Sender)
      requires Valid()
      reads this, acked
      ensures RingSized(cfg, s)
    {
      Sender(phase, base, nextseqnum, packs, pos, acked[..], freed)
    }

    constructor (cfg: Config)
      requires 0 < cfg.window
      ensures Valid() && this.cfg == cfg && fresh(acked)
      ensures View(Filling).(acked := []) == Sender(Filling, 0, 0, [], 0, [], [])
    {
      this.cfg := cfg;
      base, nextseqnum, totseq, seqNum, packs, pos, freed := 0, 0, 0, 0, [], 0, [];
      acked := new bool[2 * cfg.window];
    }

    /** Fill the window from the file, then test for the end of the transfer. */
    method FillWindow() returns (finished: bool, sent: seq<Message>)
      requires Valid()
      modifies this
      ensures Valid() && acked == old(acked)
      ensures (View(if finished then Finished else Sending), sent) == RunLoop(cfg, old(View(Filling)))
    {
      ghost var whole := RunLoop(cfg, View(Filling));
      while totseq < base + cfg.window
        invariant Valid() && acked == old(acked)
        invariant RunLoop(cfg, View(Filling)) == whole
        decreases |cfg.file| - pos, base + cfg.window - totseq
      {
        var len := if pos <= |cfg.file| then Min(CHUNK, |cfg.file| - pos) else 0;
        if len == 0 {
          break;
        }
        ghost var next := ReadChunk(cfg, View(Filling));
        packs := packs + [Packet(seqNum, cfg.file[pos..pos + len])];
        seqNum := seqNum + 1;
        pos := pos + len;
        totseq := totseq + 1;
        assert View(Filling) == next;
        assert RunLoop(cfg, next).1 == [] + RunLoop(cfg, next).1;
      }
      finished := base == totseq;
      sent := if finished then [End(|packs|)] else [];
    }

    /** Send what the window has room for, for the first time. */
    method SendWindow() returns (sent: seq<Message>)
      requires Valid()
      modifies this, acked
      ensures Valid() && acked == old(acked)
      ensures (View(Waiting), sent) == RunLoop(cfg, old(View(Sending)))
    {
      ghost var whole := RunLoop(cfg, View(Sending));
      sent := [];
      while nextseqnum < totseq && nextseqnum < base + cfg.window
        invariant Valid() && acked == old(acked)
        invariant Resumes(whole, sent, RunLoop(cfg, View(Sending)))
        decreases totseq - nextseqnum
      {
        ghost var step := Work(cfg, View(Sending));
        ghost var rest := RunLoop(cfg, step.0);
        ResumesLater(whole, sent, step.1, rest);
        sent := sent + [Data(packs[nextseqnum])];
        if cfg.mode.Selective? {
          acked[nextseqnum % (2 * cfg.window)] := false;
        }
        nextseqnum := nextseqnum + 1;
        assert View(Sending) == step.0;
      }
      assert sent + [] == sent;
    }

    /** Take an acknowledgement, if one was received. */
    method TakeAck(ack: Option<nat>)
      requires Valid()
      modifies this, acked
      ensures Valid() && acked == old(acked)
      ensures View(Sliding) == Receive(cfg, old(View(Waiting)), ack)
    {
      if ack.Some? {
        match cfg.mode
        case Cumulative =>
          if ack.value > base {
            ghost var from := base;
            var i := base;
            while i < ack.value
              invariant from <= i <= ack.value
              invariant base == from && Valid() && acked == old(acked) && acked[..] == old(acked[..])
              invariant View(Sliding).(freed := old(freed)) == old(View(Sliding))
              invariant freed == old(freed) + Range(from, i)
            {
              freed := freed + [i];
              i := i + 1;
            }
            base := ack.value;
          }
        case Selective =>
          if base <= ack.value < base + cfg.window {
            acked[ack.value % (2 * cfg.window)] := true;
          }
      }
    }

    /** The slide loop of the selective mode; the cumulative mode has none. */
    method SlideWindow()
      requires Valid()
      modifies this
      ensures Valid() && acked == old(acked)
      ensures View(Sliding) == SlideAll(cfg, old(View(Sliding)))
    {
      if cfg.mode.Selective? {
        ghost var whole := SlideAll(cfg, View(Sliding));
        while base < nextseqnum && acked[base % (2 * cfg.window)]
          invariant Valid() && acked == old(acked)
          invariant SlideAll(cfg, View(Sliding)) == whole
          decreases nextseqnum - base
        {
          ghost var next := Work(cfg, View(Sliding)).0;
          freed := freed + [base];
          base := base + 1;
          assert View(Sliding) == next;
        }
      }
    }

    /** The retransmission loop. */
    method Retransmit() returns (sent: seq<Message>)
      requires Valid()
      ensures (View(Filling), sent) == RunLoop(cfg, View(Resending(base)))
    {
      ghost var s := View(Filling);
      ghost var whole := RunLoop(cfg, s.(phase := Resending(base)));
      sent := [];
      var i := base;
      while i < nextseqnum
        invariant Resumes(whole, sent, RunLoop(cfg, s.(phase := Resending(i))))
        decreases nextseqnum - i
      {
        ghost var step := Work(cfg, s.(phase := Resending(i)));
        assert step.0 == s.(phase := Resending(i + 1));
        ResumesLater(whole, sent, step.1, RunLoop(cfg, step.0));
        if cfg.mode.Cumulative? || !acked[i % (2 * cfg.window)] {
          sent := sent + [Data(packs[i])];
        } else {
          assert sent + [] == sent;
        }
        i := i + 1;
      }
      assert sent + [] == sent;
    }

    /** The loop body up to the receive. */
    method BeforeReceive() returns (finished: bool, sent: seq<Message>)
      requires Valid()
      modifies this, acked
      ensures Valid() && acked == old(acked)
      ensures (View(if finished then Finished else Waiting), sent) == Head(cfg, old(View(Filling)))
    {
      finished, sent := FillWindow();
      if !finished {
        var more := SendWindow();
        sent := sent + more;
      }
    }

    /** The loop body from the receive on. */
    method AfterReceive(ack: Option<nat>, expired: bool) returns (sent: seq<Message>)
      requires Valid()
      modifies this, acked
      ensures Valid() && acked == old(acked)
      ensures (View(Filling), sent) == Tail(cfg, old(View(Waiting)), ack, expired)
    {
      TakeAck(ack);
      SlideWindow();
      sent := [];
      if expired {
        sent := Retransmit();
      }
    }
  }

  /** `sent` followed by what `rest` sends is what `whole` sends, and both end alike. */
  ghost predicate Resumes(whole: (Sender, seq<Message>), sent: seq<Message>, rest: (Sender, seq<Message>)) {
    whole.0 == rest.0 && whole.1 == sent + rest.1
  }

  lemma ResumesLater(whole: (Sender, seq<Message>), sent: seq<Message>, now: seq<Message>,
                     rest: (Sender, seq<Message>))
    requires Resumes(whole, sent, (rest.0, now + rest.1))
    ensures Resumes(whole, sent + now, rest)
  {
    assert sent + (now + rest.1) == sent + now + rest.1;
  }

  // ---------- The receiver's loop body ----------

  class ReceiverLoop {
    const cfg: Config
    var firstneedrecv: nat
    var packBuf: array<Option<Packet>>
    var output: seq<byte>
    var gotEnd: bool

    ghost predicate Valid()
      reads this
    {
      0 < cfg.window && packBuf.Length == 2 * cfg.window
    }

    /** The state of a receiver that has not timed out. */
    ghost function View(): Receiver
      reads this, packBuf
    {
      Receiver(firstneedrecv, packBuf[..], output, gotEnd, false)
    }

    constructor (cfg: Config)
      requires 0 < cfg.window
      ensures Valid() && this.cfg == cfg && fresh(packBuf)
      ensures View() == Receiver(0, seq(2 * cfg.window, _ => None), [], false, false)
    {
      this.cfg := cfg;
      firstneedrecv, output, gotEnd := 0, [], false;
      packBuf := new Option<Packet>[2 * cfg.window](_ => None);
    }

    /** Download: write the packet in a slot to the file and empty the slot. */
    method WriteSlot(j: nat)
      requires Valid() && j < packBuf.Length && packBuf[j].Some?
      modifies this`output, packBuf
      ensures output == old(output) + old(packBuf[j]).value.payload
      ensures packBuf[..] == old(packBuf[..])[j := None]
    {
      var pack := packBuf[j].value;
      packBuf[j] := None;
      output := output + pack.payload;
    }

    /** A packet of type DATA arrives: the acknowledgement sent, if any. */
    method OnPacket(p: Packet) returns (replies: seq<Message>)
      requires Valid()
      modifies this, packBuf
      ensures Valid() && packBuf == old(packBuf)
      ensures (View(), replies) == OnData(cfg, old(View()), p)
    {
      if p.seqNum < firstneedrecv || p.seqNum >= firstneedrecv + cfg.window {
        return [];
      }
      ghost var stored := Store(View(), p);
      var buffidx := p.seqNum % packBuf.Length;
      if packBuf[buffidx] == None {
        packBuf[buffidx] := Some(p);
      }
      assert View() == stored;
      while packBuf[firstneedrecv % packBuf.Length] != None
        invariant Valid() && packBuf == old(packBuf)
        invariant Drain(View()) == Drain(stored)
        decreases Occupied(packBuf[..])
      {
        ghost var next := Download(View());
        WriteSlot(firstneedrecv % packBuf.Length);
        firstneedrecv := firstneedrecv + 1;
        assert View() == next;
      }
      replies := [Ack(if cfg.mode.Cumulative? then firstneedrecv else p.seqNum)];
    }

    /** The loop body, once a message has come in intact: END is acknowledged and ends the loop. */
    method OnMessage(m: Message) returns (replies: seq<Message>)
      requires Valid()
      modifies this, packBuf
      ensures Valid() && packBuf == old(packBuf)
      ensures (View(), replies) == Transport.OnMessage(cfg, old(View()), m)
    {
      replies := [];
      match m
      case End(n) =>
        replies := [Ack(n)];
        gotEnd := true;
      case Data(p) =>
        replies := OnPacket(p);
      case Ack(_) =>
    }
  }
}
