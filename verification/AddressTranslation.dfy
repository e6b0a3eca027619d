/** Address translation at a router of lab 3: the pool of available external addresses and the two maps between hosts
    and the external addresses they hold. Addresses are the values of unsigned 32-bit integers. */
module AddressTranslation {
  import opened Common

  type Address = nat

  /** `stack` is the allocator's vector, its end the top. */
  datatype Pool = Pool(stack: seq<Address>, external: map<Address, Address>, host: map<Address, Address>)

  /** The `n` addresses from `lo` on. */
  function Block(lo: Address, n: nat): (s: seq<Address>)
    ensures |s| == n && forall i :: 0 <= i < n ==> s[i] == lo + i
  {
    seq(n, i requires 0 <= i => lo + i)
  }

  /** Init resizes the vector before it appends the addresses, so as many zeros lie below them. */
  function InitPool(lo: Address, hi: Address): Pool
    requires lo <= hi + 1
  {
    Pool(seq(hi + 1 - lo, _ => 0) + Block(lo, hi + 1 - lo), map[], map[])
  }

  function Alloc(stack: seq<Address>): (Address, seq<Address>) {
    if stack == [] then (0, []) else (stack[|stack| - 1], stack[..|stack| - 1])
  }

  /** A host sends to the outside: the new pool and the source address the packet gets, 0 if it is dropped. */
  function Outgoing(p: Pool, h: Address): (Pool, Address) {
    var (e, stack) := if h in p.external then (p.external[h], p.stack) else Alloc(p.stack);
    if e == 0 then (p.(stack := stack), 0)
    else (Pool(stack, p.external[h := e], p.host[e := h]), e)
  }

  /** A packet from the outside: the host it goes to, if any. */
  function Incoming(p: Pool, e: Address): Option<Address> {
    if e in p.host then Some(p.host[e]) else None
  }

  function Release(p: Pool, h: Address): Pool {
    if h !in p.external then p
    else
      var e := p.external[h];
      Pool(p.stack + [e], p.external - {h}, p.host - {e})
  }

  datatype Event = Send(h: Address) | Receive(e: Address) | Drop(h: Address)

  function Apply(p: Pool, ev: Event): Pool {
    match ev
    case Send(h) => Outgoing(p, h).0
    case Receive(_) => p
    case Drop(h) => Release(p, h)
  }

  function After(p: Pool, evs: seq<Event>): Pool
    decreases |evs|
  {
    if evs == [] then p else After(Apply(p, evs[0]), evs[1..])
  }

  // ---------- The invariant ----------

  /** The stack without the zeros at its bottom: the free addresses. */
  function Free(stack: seq<Address>): seq<Address> {
    if stack != [] && stack[0] == 0 then Free(stack[1..]) else stack
  }

  predicate Distinct(s: seq<Address>) {
    forall i, j :: 0 <= i < j < |s| ==> s[i] != s[j]
  }

  /** The two maps undo each other. */
  predicate Inverse(p: Pool) {
    && (forall h :: h in p.external ==> p.external[h] in p.host && p.host[p.external[h]] == h)
    && forall e :: e in p.host ==> p.host[e] in p.external && p.external[p.host[e]] == e
  }

  /** Every address of the range is either free, once, or held by one host, and no other address is either. */
  ghost predicate Conserved(p: Pool, lo: Address, hi: Address) {
    && Distinct(Free(p.stack))
    && (forall a :: a in Free(p.stack) ==> lo <= a <= hi && a !in p.host)
    && (forall a :: a in p.host ==> lo <= a <= hi)
    && forall a :: lo <= a <= hi ==> a in Free(p.stack) || a in p.host
  }

  ghost predicate Inv(p: Pool, lo: Address, hi: Address) {
    0 < lo && Inverse(p) && Conserved(p, lo, hi)
  }

  lemma {:induction false} FreePush(stack: seq<Address>, a: Address)
    requires a != 0
    ensures Free(stack + [a]) == Free(stack) + [a]
    decreases |stack|
  {
    if stack != [] && stack[0] == 0 {
      assert (stack + [a])[1..] == stack[1..] + [a];
      FreePush(stack[1..], a);
    }
  }

  /** The top of the stack is a free address exactly when there is one. */
  lemma {:induction false} AllocFree(stack: seq<Address>)
    requires 0 !in Free(stack)
    ensures var (a, rest) := Alloc(stack);
      && (a == 0 <==> Free(stack) == [])
      && (if a == 0 then Free(rest) == [] else Free(stack) == Free(rest) + [a])
    decreases |stack|
  {
    if stack != [] {
      var rest := stack[..|stack| - 1];
      assert stack == rest + [stack[|stack| - 1]];
      if stack[|stack| - 1] != 0 {
        FreePush(rest, stack[|stack| - 1]);
      } else {
        AllZero(stack);
      }
    }
  }

  lemma {:induction false} AllZero(stack: seq<Address>)
    requires stack != [] && stack[|stack| - 1] == 0 && 0 !in Free(stack)
    ensures Free(stack) == [] && Free(stack[..|stack| - 1]) == []
    decreases |stack|
  {
    assert stack[0] != 0 ==> Free(stack) == stack;
    if |stack| > 1 {
      AllZero(stack[1..]);
      assert stack[..|stack| - 1][1..] == stack[1..][..|stack| - 2];
    }
  }

  lemma {:induction false} FreeAfterZeros(k: nat, s: seq<Address>)
    requires 0 !in s
    ensures Free(seq(k, _ => 0) + s) == s
  {
    var z := seq(k, _ => 0) + s;
    if k > 0 {
      assert z[1..] == seq(k - 1, _ => 0) + s;
      FreeAfterZeros(k - 1, s);
    }
  }

  lemma InitInv(lo: Address, hi: Address)
    requires 0 < lo <= hi + 1
    ensures Inv(InitPool(lo, hi), lo, hi) && Free(InitPool(lo, hi).stack) == Block(lo, hi + 1 - lo)
    ensures |InitPool(lo, hi).stack| == 2 * (hi + 1 - lo)
  {
    var block := Block(lo, hi + 1 - lo);
    FreeAfterZeros(hi + 1 - lo, block);
    forall a | lo <= a <= hi
      ensures a in block
    {
      assert block[a - lo] == a;
    }
  }

  lemma OutgoingKeeps(p: Pool, h: Address, lo: Address, hi: Address)
    requires Inv(p, lo, hi)
    ensures Inv(Outgoing(p, h).0, lo, hi)
    ensures Outgoing(p, h).1 == 0 <==> h !in p.external && Free(p.stack) == []
  {
    if h in p.external {
      assert p.external[h] in p.host;
      assert p.external[h := p.external[h]] == p.external && p.host[p.external[h] := h] == p.host;
    } else {
      AllocFree(p.stack);
      var (e, stack) := Alloc(p.stack);
      if e != 0 {
        var free, rest := Free(p.stack), Free(stack);
        assert free[|rest|] == e && e in free;
        assert forall i :: 0 <= i < |rest| ==> rest[i] == free[i];
        forall a | a in rest
          ensures a != e && a in free
        {
          var i :| 0 <= i < |rest| && rest[i] == a;
          assert free[i] == a && free[i] != free[|rest|];
        }
        forall a | lo <= a <= hi && a != e && a !in p.host
          ensures a in rest
        {
          assert a in free;
        }
      } else {
        assert Free(stack) == Free(p.stack);
      }
    }
  }

  lemma ReleaseKeeps(p: Pool, h: Address, lo: Address, hi: Address)
    requires Inv(p, lo, hi)
    ensures Inv(Release(p, h), lo, hi)
  {
    if h in p.external {
      var e := p.external[h];
      FreePush(p.stack, e);
      var free := Free(p.stack) + [e];
      assert e in free && forall a :: a in Free(p.stack) ==> a in free;
    }
  }

  lemma EventKeeps(p: Pool, ev: Event, lo: Address, hi: Address)
    requires Inv(p, lo, hi)
    ensures Inv(Apply(p, ev), lo, hi)
  {
    match ev
    case Send(h) => OutgoingKeeps(p, h, lo, hi);
    case Receive(_) =>
    case Drop(h) => ReleaseKeeps(p, h, lo, hi);
  }

  /** In every run from the start the two maps are mutual inverses and every address of the range is free once or held
      by one host. */
  lemma {:induction false} RunKeeps(p: Pool, evs: seq<Event>, lo: Address, hi: Address)
    requires Inv(p, lo, hi)
    ensures Inv(After(p, evs), lo, hi)
    decreases |evs|
  {
    if evs != [] {
      EventKeeps(p, evs[0], lo, hi);
      RunKeeps(Apply(p, evs[0]), evs[1..], lo, hi);
    }
  }

  // ---------- The theorems ----------

  lemma AddressesConserved(lo: Address, hi: Address, evs: seq<Event>)
    requires 0 < lo <= hi + 1
    ensures var p := After(InitPool(lo, hi), evs); Inverse(p) && Conserved(p, lo, hi)
  {
    InitInv(lo, hi);
    RunKeeps(InitPool(lo, hi), evs, lo, hi);
  }

  /** In every run a packet to the outside is dropped exactly when its host holds no address and every address of the
      range is held by another. */
  lemma DroppedIffExhausted(lo: Address, hi: Address, evs: seq<Event>, h: Address)
    requires 0 < lo <= hi + 1
    ensures var p := After(InitPool(lo, hi), evs);
      Outgoing(p, h).1 == 0 <==> h !in p.external && forall a :: lo <= a <= hi ==> a in p.host
  {
    AddressesConserved(lo, hi, evs);
    var p := After(InitPool(lo, hi), evs);
    OutgoingKeeps(p, h, lo, hi);
    if Free(p.stack) != [] {
      assert Free(p.stack)[0] in Free(p.stack);
    }
  }

  /** As long as host `h` is not released, its address stays its own. */
  lemma {:induction false} HeldUntilReleased(p: Pool, evs: seq<Event>, h: Address, lo: Address, hi: Address)
    requires Inv(p, lo, hi) && h in p.external && Drop(h) !in evs
    ensures h in After(p, evs).external && After(p, evs).external[h] == p.external[h]
    decreases |evs|
  {
    if evs != [] {
      EventKeeps(p, evs[0], lo, hi);
      assert evs[0] in evs && forall e :: e in evs[1..] ==> e in evs;
      HeldUntilReleased(Apply(p, evs[0]), evs[1..], h, lo, hi);
    }
  }

  /** In every run: once a packet of host `h` has gone out under address `e`, and until `h` is released, replies to
      `e` reach `h`, and further packets of `h` go out under `e`. */
  lemma RepliesReachHost(lo: Address, hi: Address, evs: seq<Event>, h: Address, later: seq<Event>)
    requires 0 < lo <= hi + 1 && Drop(h) !in later
    requires Outgoing(After(InitPool(lo, hi), evs), h).1 != 0
    ensures var (p, e) := Outgoing(After(InitPool(lo, hi), evs), h);
      Incoming(After(p, later), e) == Some(h) && Outgoing(After(p, later), h).1 == e
  {
    InitInv(lo, hi);
    var p0 := After(InitPool(lo, hi), evs);
    RunKeeps(InitPool(lo, hi), evs, lo, hi);
    OutgoingKeeps(p0, h, lo, hi);
    var (p, e) := Outgoing(p0, h);
    HeldUntilReleased(p, later, h, lo, hi);
    RunKeeps(p, later, lo, hi);
  }

  lemma {:induction false} OneMore(p: Pool, evs: seq<Event>, ev: Event)
    ensures After(p, evs + [ev]) == Apply(After(p, evs), ev)
    decreases |evs|
  {
    if evs == [] {
      assert [] + [ev] == [ev] && [ev][1..] == [];
    } else {
      assert (evs + [ev])[0] == evs[0] && (evs + [ev])[1..] == evs[1..] + [ev];
      OneMore(Apply(p, evs[0]), evs[1..], ev);
    }
  }

  /** A host that holds an address keeps using it; another gets the address freed last, if any is free; no other host is
      touched. */
  ghost predicate Serves(p: Pool, h: Address, q: Pool, e: Address) {
    if h in p.external then q == p && e == p.external[h]
    else if Free(p.stack) == [] then
      e == 0 && q.external == p.external && q.host == p.host && Free(q.stack) == []
    else
      var k := |Free(p.stack)| - 1;
      && e == Free(p.stack)[k] && Free(q.stack) == Free(p.stack)[..k]
      && q.external == p.external[h := e] && q.host == p.host[e := h]
  }

  lemma OutgoingServes(p: Pool, h: Address, lo: Address, hi: Address)
    requires Inv(p, lo, hi)
    ensures Serves(p, h, Outgoing(p, h).0, Outgoing(p, h).1)
  {
    if h in p.external {
      assert p.external[h := p.external[h]] == p.external && p.host[p.external[h] := h] == p.host;
      assert p.external[h] in p.host;
    } else {
      AllocFree(p.stack);
    }
  }

  /** In every run, a packet of `h` to the outside. */
  lemma SendExact(lo: Address, hi: Address, evs: seq<Event>, h: Address)
    requires 0 < lo <= hi + 1
    ensures var p := After(InitPool(lo, hi), evs); Serves(p, h, Outgoing(p, h).0, Outgoing(p, h).1)
    ensures After(InitPool(lo, hi), evs + [Send(h)]) == Outgoing(After(InitPool(lo, hi), evs), h).0
  {
    InitInv(lo, hi);
    RunKeeps(InitPool(lo, hi), evs, lo, hi);
    OutgoingServes(After(InitPool(lo, hi), evs), h, lo, hi);
    OneMore(InitPool(lo, hi), evs, Send(h));
  }

  /** In every run, the release of `h`: it holds no address any more, and every other host holds what it held. If it held
      none nothing changes; if it held `e`, nothing that comes in for `e` is delivered any more, what comes in for other
      addresses is delivered as before, and `e` is free and goes to the next host that needs one. */
  lemma ReleaseExact(lo: Address, hi: Address, evs: seq<Event>, h: Address)
    requires 0 < lo <= hi + 1
    ensures Frees(After(InitPool(lo, hi), evs), h, After(InitPool(lo, hi), evs + [Drop(h)]), lo, hi)
  {
    InitInv(lo, hi);
    RunKeeps(InitPool(lo, hi), evs, lo, hi);
    OneMore(InitPool(lo, hi), evs, Drop(h));
    ReleaseFrees(After(InitPool(lo, hi), evs), h, lo, hi);
  }

  ghost predicate Frees(p: Pool, h: Address, q: Pool, lo: Address, hi: Address) {
    && h !in q.external
    && (forall g :: g != h ==> (g in q.external <==> g in p.external))
    && (forall g :: g != h && g in p.external && g in q.external ==> q.external[g] == p.external[g])
    && if h !in p.external then q == p
       else
         var e := p.external[h];
         && lo <= e <= hi && Incoming(q, e) == None && e in Free(q.stack)
         && (forall a :: a != e ==> Incoming(q, a) == Incoming(p, a))
         && forall g :: g !in q.external ==> Outgoing(q, g).1 == e
  }

  lemma ReleaseFrees(p: Pool, h: Address, lo: Address, hi: Address)
    requires Inv(p, lo, hi)
    ensures Frees(p, h, Release(p, h), lo, hi)
  {
    if h in p.external {
      var e := p.external[h];
      assert e in p.host;
      FreePush(p.stack, e);
      assert (Free(p.stack) + [e])[|Free(p.stack)|] == e;
    }
  }

  // ---------- The code ----------

  /** What happens to the addresses of a data packet before it is forwarded. */
  datatype Outcome = ToController | Discarded | Forwarded(src: Address, dst: Address)

  /** What a router does with the addresses of a data packet, given the port it came in on. */
  function Translate(p: Pool, externalPort: int, exMin: Address, exMax: Address,
                     inPort: int, src: Address, dst: Address): (Pool, Outcome) {
    if dst == 0 then (p, ToController)
    else if inPort == externalPort then
      (p, if Incoming(p, dst).Some? then Forwarded(src, Incoming(p, dst).value) else Discarded)
    else if !(exMin <= dst <= exMax) then (p, Forwarded(src, dst))
    else if externalPort == 0 then (p, Discarded)
    else
      var (p', e) := Outgoing(p, src);
      (p', if e == 0 then Discarded else Forwarded(e, dst))
  }

  /** A packet of host `h` to the external network of this router leaves under an address of the range, or is dropped
      because all are taken; any answer to that address from outside, until `h` is released, is sent on to `h` with its
      source unchanged. */
  lemma AnswersComeBack(lo: Address, hi: Address, evs: seq<Event>, externalPort: int, exMin: Address, exMax: Address,
                        inPort: int, h: Address, dst: Address, later: seq<Event>, from: Address)
    requires 0 < lo <= hi + 1 && Drop(h) !in later
    requires externalPort != 0 && inPort != externalPort && dst != 0 && exMin <= dst <= exMax
    ensures var p0 := After(InitPool(lo, hi), evs);
      var (p, out) := Translate(p0, externalPort, exMin, exMax, inPort, h, dst);
      if out.Forwarded? then
        && lo <= out.src <= hi && out.dst == dst
        && Translate(After(p, later), externalPort, exMin, exMax, externalPort, from, out.src).1 == Forwarded(from, h)
      else
        out.Discarded? && forall a :: lo <= a <= hi ==> a in p0.host
  {
    var p0 := After(InitPool(lo, hi), evs);
    DroppedIffExhausted(lo, hi, evs, h);
    var (p, e) := Outgoing(p0, h);
    if e != 0 {
      RepliesReachHost(lo, hi, evs, h, later);
      AddressesConserved(lo, hi, evs);
      OutgoingKeeps(p0, h, lo, hi);
      assert e in p.host;
    }
  }

  /** In every run, for every data packet: what is discarded, what goes to the controller, which address is replaced by
      which, and when the pool changes. */
  lemma TranslateExact(lo: Address, hi: Address, evs: seq<Event>, externalPort: int, exMin: Address, exMax: Address,
                       inPort: int, src: Address, dst: Address)
    requires 0 < lo <= hi + 1
    ensures var p := After(InitPool(lo, hi), evs);
      var (q, out) := Translate(p, externalPort, exMin, exMax, inPort, src, dst);
      var inward := inPort == externalPort;
      var outward := !inward && exMin <= dst <= exMax;
      && (dst == 0 <==> out == ToController)
      && (dst != 0 ==>
            (out.Discarded? <==>
               || (inward && forall h :: h in p.external ==> p.external[h] != dst)
               || (outward && (externalPort == 0 || (src !in p.external && forall a :: lo <= a <= hi ==> a in p.host)))))
      && (out.Forwarded? && inward ==> out.src == src && out.dst in p.external && p.external[out.dst] == dst)
      && (out.Forwarded? && outward ==> out.dst == dst && src in q.external && q.external[src] == out.src)
      && (out.Forwarded? && !inward && !outward ==> out == Forwarded(src, dst))
      && (if dst != 0 && outward && externalPort != 0 then Serves(p, src, q, if out.Forwarded? then out.src else 0)
          else q == p)
  {
    InitInv(lo, hi);
    RunKeeps(InitPool(lo, hi), evs, lo, hi);
    DroppedIffExhausted(lo, hi, evs, src);
    OutgoingServes(After(InitPool(lo, hi), evs), src, lo, hi);
  }

  class Translator {
    const externalPort: int
    const externalIPMin: Address
    const externalIPMax: Address
    var address: seq<Address>
    var host2ExternIP: map<Address, Address>
    var externIP2Host: map<Address, Address>

    function View(): Pool
      reads this
    {
      Pool(address, host2ExternIP, externIP2Host)
    }

    /** router_init with the range of available addresses. The loop in the allocator's Init ends because the range
        stops short of the largest 32-bit value. */
    constructor (externalPort: int, exMin: Address, exMax: Address, ipMin: Address, ipMax: Address)
      requires ipMin <= ipMax < 0xffffffff
      ensures View() == InitPool(ipMin, ipMax)
      ensures this.externalPort == externalPort && externalIPMin == exMin && externalIPMax == exMax
    {
      this.externalPort, externalIPMin, externalIPMax := externalPort, exMin, exMax;
      host2ExternIP, externIP2Host := map[], map[];
      address := seq(ipMax - ipMin + 1, _ => 0);
      new;
      ghost var zeros := address;
      var ip := ipMin;
      while ip <= ipMax
        invariant ipMin <= ip <= ipMax + 1
        invariant address == zeros + Block(ipMin, ip - ipMin)
        invariant host2ExternIP == map[] && externIP2Host == map[]
      {
        address := address + [ip];
        ip := ip + 1;
      }
    }

    method AllocAddress() returns (a: Address)
      modifies this`address
      ensures (a, address) == Alloc(old(address))
    {
      if |address| == 0 {
        return 0;
      }
      a := address[|address| - 1];
      address := address[..|address| - 1];
    }

    method ReleaseNATItem(internalIP: Address)
      modifies this
      ensures View() == Release(old(View()), internalIP)
    {
      if internalIP !in host2ExternIP {
        return;
      }
      var externalIP := host2ExternIP[internalIP];
      address := address + [externalIP];
      externIP2Host := externIP2Host - {externalIP};
      host2ExternIP := host2ExternIP - {internalIP};
    }

    /** The translation part of the handling of a data packet. */
    method TranslateData(inPort: int, src: Address, dst: Address) returns (outcome: Outcome)
      modifies this
      ensures (View(), outcome) ==
              Translate(old(View()), externalPort, externalIPMin, externalIPMax, inPort, src, dst)
    {
      if dst == 0 {
        return ToController;
      }
      if inPort == externalPort {
        if dst !in externIP2Host {
          return Discarded;
        }
        return Forwarded(src, externIP2Host[dst]);
      }
      if externalIPMin <= dst <= externalIPMax {
        if externalPort == 0 {
          return Discarded;
        }
        var externalIP;
        if src in host2ExternIP {
          externalIP := host2ExternIP[src];
        } else {
          externalIP := AllocAddress();
        }
        if externalIP == 0 {
          return Discarded;
        }
        externIP2Host := externIP2Host[externalIP := src];
        host2ExternIP := host2ExternIP[src := externalIP];
        return Forwarded(externalIP, dst);
      }
      return Forwarded(src, dst);
    }
  }
}
