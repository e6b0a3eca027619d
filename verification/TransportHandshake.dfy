/** What copies of the acknowledgement of START, still in flight when the transfer begins, can do to it.

    Neither sender checks that an acknowledgement answers something it sent, so END can be sent with the file
    incomplete. This module says exactly for which stray numbers that is possible. */
module TransportHandshake {
  import opened Common
  import opened Transport
  import opened TransportSafety
  import opened TransportProgress

  /** In cumulative mode a stray number equal to the chunk count can end the transfer early. In selective mode a
      stray number marks its chunk as received; the transfer still ends if every chunk beyond the window that
      starts there is marked as well. With a single stray `m`: the chunk count is above `m`, by at most the window. */
  ghost predicate Misled(cfg: Config, strays: set<nat>) {
    var n := ChunkCount(cfg.file);
    match cfg.mode
    case Cumulative => 0 < n && n in strays
    case Selective => exists m :: m in strays && LeavesGap(cfg, strays, m)
  }

  predicate LeavesGap(cfg: Config, strays: set<nat>, m: nat) {
    var n := ChunkCount(cfg.file);
    m < n && forall k :: m + cfg.window <= k < n ==> k in strays
  }

  /** Unless the strays are of that kind, the file is complete whenever the sender has left its loop. */
  lemma SafeUnlessMisled(cfg: Config, s: System, strays: set<nat>)
    requires Inv(cfg, s, strays) && s.snd.phase.Finished? && !Misled(cfg, strays)
    ensures s.rcv.output == cfg.file
  {
    var n := ChunkCount(cfg.file);
    var m := s.rcv.first;
    PrefixAll(cfg.file);
    if cfg.mode.Selective? && m < n {
      assert !Received(s.rcv, m);
      assert m in strays;
      forall k | m + cfg.window <= k < n
        ensures k in strays
      {
        assert !Received(s.rcv, k) by {
          assert SlotOk(cfg, s.rcv, s.snd.next, k % |s.rcv.ring|);
        }
      }
      assert LeavesGap(cfg, strays, m);
    }
  }

  lemma PrefixShort(file: seq<byte>, k: nat)
    requires k < ChunkCount(file)
    ensures Prefix(file, k) != file
  {
    assert |Prefix(file, k)| < |file|;
  }

  // ---------- Cumulative mode: the run that ends with chunks missing ----------

  /** The sender waits with `i` chunks acknowledged and the window in flight; the receiver has just those chunks; the
      stray that carries the chunk count is still to come. */
  ghost predicate InStep(cfg: Config, s: System, strays: set<nat>, i: nat) {
    && Underway(cfg, s, strays) && s.snd.phase.Waiting? && cfg.mode.Cumulative? && !CanRead(cfg, s.snd)
    && s.snd.base == i == s.rcv.first && i < s.snd.next == |s.snd.packets|
    && (forall k: nat :: Received(s.rcv, k) ==> k < i)
    && (forall k :: i <= k < s.snd.next ==> Data(s.snd.packets[k]) in s.net)
    && Ack(ChunkCount(cfg.file)) in s.net
  }

  /** The first packet of the window gets through. */
  lemma StepData(cfg: Config, s: System, strays: set<nat>, i: nat) returns (es: seq<Event>, t: System)
    requires InStep(cfg, s, strays, i)
    ensures Underway(cfg, t, strays) && Reaches(cfg, s, es, t) && t.snd == s.snd && t.rcv.first == i + 1
    ensures forall k: nat :: Received(t.rcv, k) ==> k < i + 1
    ensures t.net == s.net - multiset{Data(s.snd.packets[i])} + multiset{Ack(i + 1)}
  {
    var p := s.snd.packets[i];
    assert p.seqNum == i && Data(p) in s.net;
    es := [TakeData(p)];
    OnDataKeeps(cfg, s.rcv, s.snd.next, p);
    var r := OnData(cfg, s.rcv, p).0;
    assert Received(r, i) && !Received(r, r.first);
    if r.first > i + 1 {
      assert Received(r, i + 1);
    }
    t := Step(cfg, s, strays, TakeData(p));
  }

  /** Its acknowledgement moves the window on by one. */
  lemma StepAck(cfg: Config, s: System, strays: set<nat>, i: nat) returns (es: seq<Event>, t: System)
    requires Underway(cfg, s, strays) && s.snd.phase.Waiting? && cfg.mode.Cumulative?
    requires s.snd.base == i < |s.snd.packets| && Ack(i + 1) in s.net
    ensures Underway(cfg, t, strays) && Reaches(cfg, s, es, t) && t.rcv == s.rcv && t.snd.phase.Filling?
    ensures t.snd.base == i + 1 && t.snd.next == s.snd.next && t.snd.packets == s.snd.packets
    ensures t.net == s.net - multiset{Ack(i + 1)}
  {
    var u := Step(cfg, s, strays, TakeAck(i + 1));
    t := Step(cfg, u, strays, Clock(false));
    es := [TakeAck(i + 1)] + [Clock(false)];
    Joins(cfg, s, [TakeAck(i + 1)], u, [Clock(false)], t);
  }

  lemma StepOn(cfg: Config, s: System, strays: set<nat>, i: nat) returns (es: seq<Event>, t: System)
    requires InStep(cfg, s, strays, i) && |s.snd.packets| < ChunkCount(cfg.file)
    ensures Reaches(cfg, s, es, t) && InStep(cfg, t, strays, i + 1)
  {
    var s1, s2, fs, gs;
    es, s1 := StepData(cfg, s, strays, i);
    fs, s2 := StepAck(cfg, s1, strays, i);
    Joins(cfg, s, es, s1, fs, s2);
    gs, t := Offer(cfg, s2, strays);
    Joins(cfg, s, es + fs, s2, gs, t);
    es := es + fs + gs;
    StillOffered(cfg, s, s2, t, i);
  }

  lemma StillOffered(cfg: Config, s: System, u: System, t: System, i: nat)
    requires Shaped(cfg, s) && Extends(cfg, u, t) && i < s.snd.next <= |s.snd.packets|
    requires u.snd.packets == s.snd.packets && u.snd.next == s.snd.next
    requires u.net == s.net - multiset{Data(s.snd.packets[i])} + multiset{Ack(i + 1)} - multiset{Ack(i + 1)}
    requires forall k :: 0 <= k < |s.snd.packets| ==> s.snd.packets[k].seqNum == k
    requires forall k :: i <= k < s.snd.next ==> Data(s.snd.packets[k]) in s.net
    ensures forall k :: i < k < t.snd.next ==> Data(t.snd.packets[k]) in t.net
    ensures forall a: nat :: Ack(a) in s.net ==> Ack(a) in t.net
  {
    forall k | i < k < s.snd.next
      ensures Data(t.snd.packets[k]) in t.net
    {
      assert s.snd.packets[k].seqNum == k && s.snd.packets[i].seqNum == i;
      assert Data(s.snd.packets[k]) in u.net;
    }
    forall a: nat | Ack(a) in s.net
      ensures Ack(a) in t.net
    {
      assert Ack(a) in u.net;
    }
  }

  /** Until the last chunk is in the window. */
  lemma {:induction false} StepUp(cfg: Config, s: System, strays: set<nat>, i: nat)
    returns (es: seq<Event>, t: System, j: nat)
    requires InStep(cfg, s, strays, i)
    ensures Reaches(cfg, s, es, t) && InStep(cfg, t, strays, j) && |t.snd.packets| == ChunkCount(cfg.file)
    decreases ChunkCount(cfg.file) - i
  {
    if |s.snd.packets| == ChunkCount(cfg.file) {
      es, t, j := [], s, i;
      StayPut(cfg, s);
    } else {
      var fs, u := StepOn(cfg, s, strays, i);
      es, t, j := StepUp(cfg, u, strays, i + 1);
      Joins(cfg, s, fs, u, es, t);
      es := fs + es;
    }
  }

  /** Then the stray is taken for the acknowledgement of everything. */
  lemma EndEarly(cfg: Config, s: System, strays: set<nat>, i: nat) returns (es: seq<Event>, t: System)
    requires InStep(cfg, s, strays, i) && |s.snd.packets| == ChunkCount(cfg.file)
    ensures Reaches(cfg, s, es, t) && t.snd.phase.Finished? && t.rcv.output != cfg.file
  {
    var n := ChunkCount(cfg.file);
    var s1 := Step(cfg, s, strays, TakeAck(n));
    var s2 := Step(cfg, s1, strays, Clock(false));
    Joins(cfg, s, [TakeAck(n)], s1, [Clock(false)], s2);
    t := Step(cfg, s2, strays, WorkOn);
    es := [TakeAck(n)] + [Clock(false)] + [WorkOn];
    Joins(cfg, s, [TakeAck(n)] + [Clock(false)], s2, [WorkOn], t);
    PrefixShort(cfg.file, i);
  }

  lemma CumulativeRun(cfg: Config, s: System, strays: set<nat>) returns (es: seq<Event>, t: System)
    requires 0 < cfg.window && Init(cfg, s, strays) && (forall k :: k in strays ==> Ack(k) in s.net)
    requires cfg.mode.Cumulative? && Misled(cfg, strays)
    ensures Reaches(cfg, s, es, t) && t.snd.phase.Finished? && t.rcv.output != cfg.file
  {
    InitOk(cfg, s, strays);
    var s1, s2, i, fs, gs;
    es, s1 := Offer(cfg, s, strays);
    assert InStep(cfg, s1, strays, 0);
    fs, s2, i := StepUp(cfg, s1, strays, 0);
    Joins(cfg, s, es, s1, fs, s2);
    gs, t := EndEarly(cfg, s2, strays, i);
    Joins(cfg, s, es + fs, s2, gs, t);
    es := es + fs + gs;
  }

  // ---------- Selective mode: the run that leaves out chunk m ----------

  /** The sender waits with `i` at the base of its window, the whole window in flight and nothing in it marked
      acknowledged; the receiver has no chunk from `i` on, and not `m`. */
  ghost predicate Canonical(cfg: Config, s: System, strays: set<nat>, m: nat, i: nat) {
    && Underway(cfg, s, strays) && s.snd.phase.Waiting? && cfg.mode.Selective?
    && s.snd.base == i < s.snd.next == |s.snd.packets|
    && (forall k :: i <= k < s.snd.next ==> !s.snd.acked[Slot(cfg, k)] && Data(s.snd.packets[k]) in s.net)
    && StraysLeft(s, strays, i)
    && Gap(s, m, i)
  }

  predicate StraysLeft(s: System, strays: set<nat>, i: nat) {
    forall k :: k in strays && i <= k ==> Ack(k) in s.net
  }

  ghost predicate Gap(s: System, m: nat, i: nat)
    requires |s.rcv.ring| > 0
  {
    && s.rcv.first == Min(i, m)
    && forall k: nat :: Received(s.rcv, k) ==> k < i && k != m
  }

  /** Chunk `i` gets acknowledged: by delivering it where the receiver can take it, else by a stray. */
  lemma Deliver(cfg: Config, s: System, strays: set<nat>, m: nat, i: nat) returns (es: seq<Event>, t: System)
    requires Canonical(cfg, s, strays, m, i) && m in strays && LeavesGap(cfg, strays, m)
    ensures Underway(cfg, t, strays) && Reaches(cfg, s, es, t) && t.snd == s.snd
    ensures Gap(t, m, i + 1) && Ack(i) in t.net && StraysLeft(t, strays, i + 1)
    ensures forall k :: i < k < s.snd.next ==> Data(s.snd.packets[k]) in t.net
  {
    if i < m || m < i < m + cfg.window {
      es, t := DeliverData(cfg, s, strays, m, i);
    } else {
      es, t := [], s;
      assert Valid(cfg, s, []) && After(cfg, s, []) == s;
    }
  }

  lemma DeliverData(cfg: Config, s: System, strays: set<nat>, m: nat, i: nat) returns (es: seq<Event>, t: System)
    requires Canonical(cfg, s, strays, m, i) && (i < m || m < i < m + cfg.window)
    ensures Underway(cfg, t, strays) && Reaches(cfg, s, es, t) && t.snd == s.snd
    ensures Gap(t, m, i + 1) && Ack(i) in t.net && StraysLeft(t, strays, i + 1)
    ensures forall k :: i < k < s.snd.next ==> Data(s.snd.packets[k]) in t.net
  {
    var p := s.snd.packets[i];
    assert p.seqNum == i && Data(p) in s.net;
    t := Step(cfg, s, strays, TakeData(p));
    es := [TakeData(p)];
    OnDataKeeps(cfg, s.rcv, s.snd.next, p);
    assert t.net == s.net - multiset{Data(p)} + multiset{Ack(i)};
    forall msg | msg in s.net && msg != Data(p)
      ensures msg in t.net
    {}
    forall k | i < k < s.snd.next
      ensures Data(s.snd.packets[k]) in t.net
    {
      assert s.snd.packets[k].seqNum == k && Data(s.snd.packets[k]) in s.net;
    }
    assert !Received(t.rcv, t.rcv.first) && Received(t.rcv, i) && !Received(t.rcv, m);
    if t.rcv.first > i {
      assert Received(t.rcv, t.rcv.first - 1);
    }
  }

  /** The sender consumes that acknowledgement, slides by one and refills its window. */
  lemma SlideByOne(cfg: Config, s: System, strays: set<nat>, i: nat) returns (es: seq<Event>, t: System)
    requires Underway(cfg, s, strays) && s.snd.phase.Waiting? && cfg.mode.Selective?
    requires s.snd.base == i < s.snd.next && Ack(i) in s.net
    requires forall k :: i <= k < s.snd.next ==> !s.snd.acked[Slot(cfg, k)]
    ensures Underway(cfg, t, strays) && Reaches(cfg, s, es, t) && t.snd.phase.Filling?
    ensures t.snd.base == i + 1 && t.snd.next == s.snd.next && t.snd.packets == s.snd.packets && t.rcv == s.rcv
    ensures forall k :: i < k < s.snd.next ==> !t.snd.acked[Slot(cfg, k)]
    ensures t.net == s.net - multiset{Ack(i)}
  {
    var s1 := Step(cfg, s, strays, TakeAck(i));
    forall k | i < k < s.snd.next
      ensures !s1.snd.acked[Slot(cfg, k)]
    {
      if Slot(cfg, k) == Slot(cfg, i) { SameSlot(k, i, 2 * cfg.window); }
    }
    var s2 := Step(cfg, s1, strays, WorkOn);
    Joins(cfg, s, [TakeAck(i)], s1, [WorkOn], s2);
    t := Step(cfg, s2, strays, Clock(false));
    Joins(cfg, s, [TakeAck(i)] + [WorkOn], s2, [Clock(false)], t);
    es := [TakeAck(i)] + [WorkOn] + [Clock(false)];
  }

  /** From `i` at the base of the window to `i+1`, or out of the loop after the last chunk. */
  lemma Pass(cfg: Config, s: System, strays: set<nat>, m: nat, i: nat) returns (es: seq<Event>, t: System)
    requires Canonical(cfg, s, strays, m, i) && m in strays && LeavesGap(cfg, strays, m)
    ensures Reaches(cfg, s, es, t) && Underway(cfg, t, strays)
    ensures if i + 1 < ChunkCount(cfg.file) then Canonical(cfg, t, strays, m, i + 1)
            else t.snd.phase.Finished? && t.rcv.first == m
  {
    var s1, s2, fs, gs;
    es, s1 := Deliver(cfg, s, strays, m, i);
    fs, s2 := SlideByOne(cfg, s1, strays, i);
    Joins(cfg, s, es, s1, fs, s2);
    gs, t := Offer(cfg, s2, strays);
    Joins(cfg, s, es + fs, s2, gs, t);
    es := es + fs + gs;
    assert StraysLeft(s2, strays, i + 1);
    forall k | i < k < s.snd.next
      ensures Data(t.snd.packets[k]) in t.net
    {
      assert Data(s.snd.packets[k]) in s2.net;
    }
  }

  lemma {:induction false} PassAll(cfg: Config, s: System, strays: set<nat>, m: nat, i: nat)
    returns (es: seq<Event>, t: System)
    requires Canonical(cfg, s, strays, m, i) && m in strays && LeavesGap(cfg, strays, m)
    ensures Reaches(cfg, s, es, t) && Inv(cfg, t, strays) && t.snd.phase.Finished? && t.rcv.first == m
    decreases ChunkCount(cfg.file) - i
  {
    es, t := Pass(cfg, s, strays, m, i);
    if i + 1 < ChunkCount(cfg.file) {
      var fs, u := PassAll(cfg, t, strays, m, i + 1);
      Joins(cfg, s, es, t, fs, u);
      es, t := es + fs, u;
    }
  }

  lemma SelectiveRun(cfg: Config, s: System, strays: set<nat>) returns (es: seq<Event>, t: System)
    requires 0 < cfg.window && Init(cfg, s, strays) && (forall k :: k in strays ==> Ack(k) in s.net)
    requires cfg.mode.Selective? && Misled(cfg, strays)
    ensures Reaches(cfg, s, es, t) && t.snd.phase.Finished? && t.rcv.output != cfg.file
  {
    var m :| m in strays && LeavesGap(cfg, strays, m);
    InitOk(cfg, s, strays);
    var u, fs;
    es, u := Offer(cfg, s, strays);
    assert Canonical(cfg, u, strays, m, 0);
    fs, t := PassAll(cfg, u, strays, m, 0);
    Joins(cfg, s, es, u, fs, t);
    es := es + fs;
    PrefixShort(cfg.file, m);
  }

  ghost predicate EndsComplete(cfg: Config, s: System, es: seq<Event>)
    requires Shaped(cfg, s)
  {
    Valid(cfg, s, es) && After(cfg, s, es).snd.phase.Finished? ==> After(cfg, s, es).rcv.output == cfg.file
  }

  /** From a start with exactly these stray acknowledgements in flight: every run that takes the sender out of its
      loop leaves the receiver with the whole file if and only if the strays do not mislead the sender. The same holds of
      the orderly runs alone, in which no stray makes the code free packets that do not exist. */
  lemma CompleteIffNotMisled(cfg: Config, s: System, strays: set<nat>)
    requires 0 < cfg.window && Init(cfg, s, strays) && forall k :: k in strays ==> Ack(k) in s.net
    ensures (forall es :: EndsComplete(cfg, s, es)) <==> !Misled(cfg, strays)
    ensures (forall es :: Valid(cfg, s, es) && Orderly(cfg, s, es) ==> EndsComplete(cfg, s, es)) <==>
            !Misled(cfg, strays)
  {
    if Misled(cfg, strays) {
      var es, t;
      if cfg.mode.Cumulative? {
        es, t := CumulativeRun(cfg, s, strays);
      } else {
        es, t := SelectiveRun(cfg, s, strays);
      }
      assert Orderly(cfg, s, es) && !EndsComplete(cfg, s, es);
    } else {
      forall es
        ensures EndsComplete(cfg, s, es)
      {
        if Valid(cfg, s, es) && After(cfg, s, es).snd.phase.Finished? {
          InitOk(cfg, s, strays);
          RunKeeps(cfg, s, strays, es);
          SafeUnlessMisled(cfg, After(cfg, s, es), strays);
        }
      }
    }
  }
}
