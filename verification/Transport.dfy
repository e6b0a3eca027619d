/** The sliding-window file transfer of lab 2 as values: the sender's and the receiver's state, what each
    iteration of their loops does to it, and the network between them.

    Both sender loops and both receiver loops differ only where `Mode` says so: `Cumulative` is sendMessage with
    recvMessage, `Selective` is sendMessageOpt with recvMessageOpt. */
module Transport {
  import opened Common

  datatype Mode = Cumulative | Selective

  /** What a transfer is started with. */
  datatype Config = Config(mode: Mode, window: nat, file: seq<byte>)

  datatype Packet = Packet(seqNum: nat, payload: seq<byte>)

  datatype Message = Data(packet: Packet) | Ack(seqNum: nat) | End(seqNum: nat)

  // ---------- The file as chunks ----------

  const CHUNK := PAYLOAD_SIZE - 1

  function ChunkCount(file: seq<byte>): nat {
    (|file| + CHUNK - 1) / CHUNK
  }

  /** The first `k` chunks of the file. */
  function Prefix(file: seq<byte>, k: nat): seq<byte> {
    file[..Min(k * CHUNK, |file|)]
  }

  function Chunk(file: seq<byte>, k: nat): seq<byte>
    requires k < ChunkCount(file)
  {
    file[k * CHUNK..Min((k + 1) * CHUNK, |file|)]
  }

  lemma PrefixStep(file: seq<byte>, k: nat)
    requires k < ChunkCount(file)
    ensures Prefix(file, k + 1) == Prefix(file, k) + Chunk(file, k)
  {}

  lemma PrefixAll(file: seq<byte>)
    ensures Prefix(file, ChunkCount(file)) == file
  {}

  /** The first `k` chunks, one after the other. */
  function ChunksJoined(file: seq<byte>, k: nat): seq<byte>
    requires k <= ChunkCount(file)
  {
    if k == 0 then [] else ChunksJoined(file, k - 1) + Chunk(file, k - 1)
  }

  lemma {:induction false} ChunksJoinedIsPrefix(file: seq<byte>, k: nat)
    requires k <= ChunkCount(file)
    ensures ChunksJoined(file, k) == Prefix(file, k)
  {
    if k > 0 {
      ChunksJoinedIsPrefix(file, k - 1);
      PrefixStep(file, k - 1);
    }
  }

  /** The chunks, each of 1 to 1460 bytes and all but the last of 1460, are together the file, and each leaves room for
      the terminating zero in a packet. */
  lemma ChunksAreFile(file: seq<byte>)
    ensures ChunksJoined(file, ChunkCount(file)) == file
    ensures forall k :: 0 <= k < ChunkCount(file) ==>
      1 <= |Chunk(file, k)| <= 1460 < PAYLOAD_SIZE && (k + 1 < ChunkCount(file) ==> |Chunk(file, k)| == 1460)
  {
    ChunksJoinedIsPrefix(file, ChunkCount(file));
    PrefixAll(file);
  }

  // ---------- The sender ----------

  /** Where the sender stands in its loop body; `Resending(k)` is about to look at packet `k`. */
  datatype Phase = Filling | Sending | Waiting | Sliding | Resending(k: nat) | Finished

  /** `packets` is the vector `packs`; `totseq` and the next sequence number are always its length.
      `pos` is the file position, `freed` the packets deleted so far in the order of their deletion. */
  datatype Sender = Sender(
    phase: Phase, base: nat, next: nat, packets: seq<Packet>, pos: nat, acked: seq<bool>, freed: seq<nat>)

  function Slot(cfg: Config, k: nat): nat
    requires 0 < cfg.window
  {
    k % (2 * cfg.window)
  }

  /** The ack bits have the ring's size: none are kept in cumulative mode. */
  predicate RingSized(cfg: Config, s: Sender) {
    0 < cfg.window && (cfg.mode.Selective? ==> |s.acked| == 2 * cfg.window)
  }

  /** Guard and body of the loop that fills the window from the file. */
  predicate CanRead(cfg: Config, s: Sender) {
    |s.packets| < s.base + cfg.window && s.pos < |cfg.file|
  }

  function ReadChunk(cfg: Config, s: Sender): Sender
    requires CanRead(cfg, s)
  {
    var end := Min(s.pos + CHUNK, |cfg.file|);
    s.(packets := s.packets + [Packet(|s.packets|, cfg.file[s.pos..end])], pos := end)
  }

  /** Guard and body of the loop that sends packets for the first time. */
  predicate CanSend(cfg: Config, s: Sender) {
    s.next < |s.packets| && s.next < s.base + cfg.window
  }

  function SendNext(cfg: Config, s: Sender): Sender
    requires CanSend(cfg, s) && RingSized(cfg, s)
  {
    s.(next := s.next + 1,
       acked := if cfg.mode.Selective? then s.acked[Slot(cfg, s.next) := false] else s.acked)
  }

  /** The numbers lo, lo+1, ..., hi-1. */
  function Range(lo: nat, hi: nat): seq<nat>
    requires lo <= hi
  {
    seq(hi - lo, k requires 0 <= k => lo + k)
  }

  /** A message of type ACK carrying `a` arrives. */
  function OnAck(cfg: Config, s: Sender, a: nat): Sender
    requires RingSized(cfg, s)
  {
    match cfg.mode
    case Cumulative =>
      if a > s.base then s.(base := a, freed := s.freed + Range(s.base, a)) else s
    case Selective =>
      if s.base <= a < s.base + cfg.window then s.(acked := s.acked[Slot(cfg, a) := true]) else s
  }

  /** Guard and body of the loop that advances `base` over acknowledged packets and frees them. */
  predicate CanSlide(cfg: Config, s: Sender)
    requires RingSized(cfg, s)
  {
    cfg.mode.Selective? && s.base < s.next && s.acked[Slot(cfg, s.base)]
  }

  function SlideOne(s: Sender): Sender {
    s.(base := s.base + 1, freed := s.freed + [s.base])
  }

  /** Whether the retransmission loop sends packet `k`: the selective one leaves out the acknowledged. */
  predicate Resends(cfg: Config, s: Sender, k: nat)
    requires RingSized(cfg, s)
  {
    cfg.mode.Selective? ==> !s.acked[Slot(cfg, k)]
  }

  /** The sender has something to do that needs neither a message nor the clock. */
  predicate CanWork(cfg: Config, s: Sender)
    requires RingSized(cfg, s)
  {
    && s.next <= |s.packets|
    && match s.phase
       case Filling => true
       case Sending => true
       case Waiting => false
       case Sliding => CanSlide(cfg, s)
       case Resending(_) => true
       case Finished => false
  }

  /** One iteration of the loop the sender is in, or the step out of that loop, with the messages sent. */
  function Work(cfg: Config, s: Sender): (r: (Sender, seq<Message>))
    requires RingSized(cfg, s) && CanWork(cfg, s)
    ensures RingSized(cfg, r.0) && r.0.next <= |r.0.packets|
  {
    match s.phase
    case Filling =>
      if CanRead(cfg, s) then (ReadChunk(cfg, s), [])
      else if s.base == |s.packets| then (s.(phase := Finished), [End(|s.packets|)])
      else (s.(phase := Sending), [])
    case Sending =>
      if CanSend(cfg, s) then (SendNext(cfg, s), [Data(s.packets[s.next])])
      else (s.(phase := Waiting), [])
    case Sliding => (SlideOne(s), [])
    case Resending(k) =>
      if k < s.next then
        (s.(phase := Resending(k + 1)), if Resends(cfg, s, k) then [Data(s.packets[k])] else [])
      else (s.(phase := Filling), [])
  }

  /** After the slide loop the clock is read: retransmit, or go round again. */
  function ReadClock(s: Sender, expired: bool): Sender {
    s.(phase := if expired then Resending(s.base) else Filling)
  }

  // ---------- The receiver ----------

  /** `gotEnd`: left the loop on an END message; `closed`: left it on the ten-second timeout. */
  datatype Receiver = Receiver(
    first: nat, ring: seq<Option<Packet>>, output: seq<byte>, gotEnd: bool, closed: bool)

  function Occupied(ring: seq<Option<Packet>>): (n: nat)
    ensures n <= |ring|
    ensures (exists j :: 0 <= j < |ring| && ring[j].Some?) ==> n > 0
  {
    if ring == [] then 0 else (if ring[|ring| - 1].Some? then 1 else 0) + Occupied(ring[..|ring| - 1])
  }

  lemma {:induction false} OccupiedUpdate(ring: seq<Option<Packet>>, j: nat)
    requires j < |ring| && ring[j].Some?
    ensures Occupied(ring[j := None]) == Occupied(ring) - 1
  {
    var n := |ring| - 1;
    if j == n {
      assert ring[j := None][..n] == ring[..n];
    } else {
      OccupiedUpdate(ring[..n], j);
      assert ring[j := None][..n] == ring[..n][j := None];
    }
  }

  predicate CanDownload(r: Receiver)
    requires |r.ring| > 0
  {
    r.ring[r.first % |r.ring|].Some?
  }

  /** One iteration of the drain loop: write the packet in slot `first` to the file and empty the slot. */
  function Download(r: Receiver): (r': Receiver)
    requires |r.ring| > 0 && CanDownload(r)
    ensures |r'.ring| == |r.ring| && Occupied(r'.ring) == Occupied(r.ring) - 1
  {
    var j := r.first % |r.ring|;
    OccupiedUpdate(r.ring, j);
    r.(first := r.first + 1, ring := r.ring[j := None], output := r.output + r.ring[j].value.payload)
  }

  function Drain(r: Receiver): (r': Receiver)
    requires |r.ring| > 0
    ensures |r'.ring| == |r.ring| && !CanDownload(r')
    decreases Occupied(r.ring)
  {
    if CanDownload(r) then Drain(Download(r)) else r
  }

  predicate InWindow(cfg: Config, r: Receiver, k: nat) {
    r.first <= k < r.first + cfg.window
  }

  function Store(r: Receiver, p: Packet): Receiver
    requires |r.ring| > 0
  {
    var j := p.seqNum % |r.ring|;
    if r.ring[j].None? then r.(ring := r.ring[j := Some(p)]) else r
  }

  /** A message of type DATA arrives: the new state and the acknowledgements sent. */
  function OnData(cfg: Config, r: Receiver, p: Packet): (Receiver, seq<Message>)
    requires |r.ring| == 2 * cfg.window
  {
    if !InWindow(cfg, r, p.seqNum) then (r, [])
    else
      var r' := Drain(Store(r, p));
      (r', [Ack(if cfg.mode.Cumulative? then r'.first else p.seqNum)])
  }

  /** A message of type END arrives. */
  function OnEnd(r: Receiver, n: nat): (Receiver, seq<Message>) {
    (r.(gotEnd := true), [Ack(n)])
  }

  /** Any intact message arrives; of other types the receiver takes no notice. */
  function OnMessage(cfg: Config, r: Receiver, m: Message): (Receiver, seq<Message>)
    requires |r.ring| == 2 * cfg.window
  {
    match m
    case Data(p) => OnData(cfg, r, p)
    case End(n) => OnEnd(r, n)
    case Ack(_) => (r, [])
  }

  // ---------- The two ends and the network ----------

  /** `heard` records, for the theorems only, the numbers for which the sender has consumed an acknowledgement
      since it first sent that packet. */
  datatype System = System(snd: Sender, rcv: Receiver, net: multiset<Message>, heard: set<nat>)

  /** `acked` is allocated without being initialised, so its first value is arbitrary. The handshake may leave
      copies of the acknowledgement of START in flight; `strays` holds the numbers such copies can carry. */
  predicate Init(cfg: Config, s: System, strays: set<nat>) {
    && s.snd.(acked := []) == Sender(Filling, 0, 0, [], 0, [], [])
    && RingSized(cfg, s.snd)
    && s.rcv == Receiver(0, seq(2 * cfg.window, _ => None), [], false, false)
    && s.heard == {}
    && forall m :: m in s.net ==> m.Ack? && m.seqNum in strays
  }

  /** Steps of the two loops, and what the network does. Losing a message covers damaging it; `NoAck` is a receive
      that times out or yields nothing usable. */
  datatype Event =
    | WorkOn
    | TakeAck(seqNum: nat)
    | NoAck
    | Clock(expired: bool)
    | TakeData(packet: Packet)
    | TakeEnd(endNum: nat)
    | TimeOut
    | Lose(message: Message)
    | Duplicate(message: Message)

  predicate Enabled(cfg: Config, s: System, e: Event)
    requires RingSized(cfg, s.snd)
  {
    match e
    case WorkOn => CanWork(cfg, s.snd)
    case TakeAck(a) => s.snd.phase.Waiting? && Ack(a) in s.net
    case NoAck => s.snd.phase.Waiting?
    case Clock(_) => s.snd.phase.Sliding? && !CanSlide(cfg, s.snd)
    case TakeData(p) => Running(s.rcv) && Data(p) in s.net
    case TakeEnd(n) => Running(s.rcv) && End(n) in s.net
    case TimeOut => Running(s.rcv)
    case Lose(m) => m in s.net
    case Duplicate(m) => m in s.net
  }

  predicate Running(r: Receiver) {
    !r.gotEnd && !r.closed
  }

  function DoWork(cfg: Config, s: System): (s': System)
    requires RingSized(cfg, s.snd) && CanWork(cfg, s.snd)
  {
    var (snd, sent) := Work(cfg, s.snd);
    System(snd, s.rcv, s.net + multiset(sent), if snd.next > s.snd.next then s.heard - {s.snd.next} else s.heard)
  }

  function Apply(cfg: Config, s: System, e: Event): (s': System)
    requires Shaped(cfg, s) && Enabled(cfg, s, e)
    ensures Shaped(cfg, s')
  {
    match e
    case WorkOn => DoWork(cfg, s)
    case TakeAck(a) =>
      s.(snd := OnAck(cfg, s.snd, a).(phase := Sliding), net := s.net - multiset{Ack(a)}, heard := s.heard + {a})
    case NoAck => s.(snd := s.snd.(phase := Sliding))
    case Clock(expired) => s.(snd := ReadClock(s.snd, expired))
    case TakeData(p) =>
      var (r, replies) := OnData(cfg, s.rcv, p);
      s.(rcv := r, net := s.net - multiset{Data(p)} + multiset(replies))
    case TakeEnd(n) =>
      var (r, replies) := OnEnd(s.rcv, n);
      s.(rcv := r, net := s.net - multiset{End(n)} + multiset(replies))
    case TimeOut => s.(rcv := s.rcv.(closed := true))
    case Lose(m) => s.(net := s.net - multiset{m})
    case Duplicate(m) => s.(net := s.net + multiset{m})
  }

  /** The state is of a shape the steps apply to. */
  predicate Shaped(cfg: Config, s: System) {
    RingSized(cfg, s.snd) && |s.rcv.ring| == 2 * cfg.window
  }

  /** `es` is a possible sequence of steps from `s`. */
  predicate Valid(cfg: Config, s: System, es: seq<Event>)
    requires Shaped(cfg, s)
    decreases |es|
  {
    es == [] || (Enabled(cfg, s, es[0]) && Valid(cfg, Apply(cfg, s, es[0]), es[1..]))
  }

  /** The state `es` leads to. */
  function After(cfg: Config, s: System, es: seq<Event>): (s': System)
    requires Shaped(cfg, s) && Valid(cfg, s, es)
    ensures Shaped(cfg, s')
    decreases |es|
  {
    if es == [] then s else After(cfg, Apply(cfg, s, es[0]), es[1..])
  }

  /** What taking a cumulative acknowledgement frees exists: beyond the packets made so far the code's loop over
      `packs` would run off the end of the vector. */
  predicate InBounds(cfg: Config, s: System, e: Event) {
    cfg.mode.Cumulative? && e.TakeAck? ==> e.seqNum <= |s.snd.packets|
  }

  /** No step of the run takes the code outside its data. */
  predicate Orderly(cfg: Config, s: System, es: seq<Event>)
    requires Shaped(cfg, s) && Valid(cfg, s, es)
    decreases |es|
  {
    es == [] || (InBounds(cfg, s, es[0]) && Orderly(cfg, Apply(cfg, s, es[0]), es[1..]))
  }

  lemma OneStep(cfg: Config, s: System, e: Event)
    requires Shaped(cfg, s) && Enabled(cfg, s, e)
    ensures Valid(cfg, s, [e]) && After(cfg, s, [e]) == Apply(cfg, s, e)
    ensures Orderly(cfg, s, [e]) <==> InBounds(cfg, s, e)
  {
    var t := Apply(cfg, s, e);
    assert [e][1..] == [];
    assert Valid(cfg, t, []) && After(cfg, t, []) == t;
  }

  lemma Prepend(cfg: Config, s: System, e: Event, es: seq<Event>)
    requires Shaped(cfg, s) && Enabled(cfg, s, e) && Valid(cfg, Apply(cfg, s, e), es)
    ensures Valid(cfg, s, [e] + es) && After(cfg, s, [e] + es) == After(cfg, Apply(cfg, s, e), es)
    ensures Orderly(cfg, s, [e] + es) <==> InBounds(cfg, s, e) && Orderly(cfg, Apply(cfg, s, e), es)
  {
    assert ([e] + es)[1..] == es;
  }

  lemma {:induction false} Concat(cfg: Config, s: System, es: seq<Event>, fs: seq<Event>)
    requires Shaped(cfg, s) && Valid(cfg, s, es) && Valid(cfg, After(cfg, s, es), fs)
    ensures Valid(cfg, s, es + fs) && After(cfg, s, es + fs) == After(cfg, After(cfg, s, es), fs)
    ensures Orderly(cfg, s, es + fs) <==> Orderly(cfg, s, es) && Orderly(cfg, After(cfg, s, es), fs)
    decreases |es|
  {
    if es == [] {
      assert es + fs == fs;
    } else {
      var e, rest := es[0], es[1..];
      Uncons(es, fs);
      Concat(cfg, Apply(cfg, s, e), rest, fs);
      Prepend(cfg, s, e, rest + fs);
    }
  }
}
