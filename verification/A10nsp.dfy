/**
 The A10NSP responder: the far end of a PPPoE session, which rewrites each
 request into its replies, and the allocator of the addresses it hands out.
 */
module A10nsp {
  import opened Types
  import ClientSpec

  const POOL := 16000000
  const MOCK_IP_LOCAL := 167772170
  const MOCK_DNS1 := 134744072
  const MOCK_DNS2 := 16843009
  const DEFAULT_MRU := 1492
  const SERVICE_NAME: seq<Byte> := [97, 99, 99, 101, 115, 115]   // "access"

  // ---- Address allocation

  // htobe32 on a little-endian host
  function Swap32(x: nat): nat {
    x % 256 * 16777216 + x / 256 % 256 * 65536 + x / 65536 % 256 * 256 + x / 16777216 % 256
  }

  function NextIndex(index: nat): nat {
    if index + 1 > POOL then 1 else index + 1
  }

  function Address(index: nat): nat {
    Swap32((MOCK_IP_LOCAL + index) % WORD)
  }

  // The index after `calls` allocations from a fresh start.
  function IndexAfter(calls: nat): nat {
    if calls == 0 then 0 else NextIndex(IndexAfter(calls - 1))
  }

  // The address returned by the n-th allocation, counting from one.
  function Allocated(n: nat): nat {
    Address(IndexAfter(n))
  }

  lemma {:induction false} IndexClosedForm(calls: nat)
    requires calls > 0
    ensures IndexAfter(calls) == (calls - 1) % POOL + 1
  {
    if calls > 1 {
      IndexClosedForm(calls - 1);
    } else {
      assert IndexAfter(1) == NextIndex(IndexAfter(0));
    }
  }

  lemma SwapDigits(a: nat, b: nat, c: nat, d: nat)
    requires a < 256 && b < 256 && c < 256 && d < 256
    ensures Swap32(a * 16777216 + b * 65536 + c * 256 + d) == d * 16777216 + c * 65536 + b * 256 + a
  {
    var x := a * 16777216 + b * 65536 + c * 256 + d;
    Digit((a * 256 + b) * 256 + c, d);
    Digit(a * 256 + b, c);
    Digit(a, b);
    Nested(x);
  }

  lemma Digit(q: nat, r: nat)
    requires r < 256
    ensures (q * 256 + r) / 256 == q && (q * 256 + r) % 256 == r
  {
  }

  lemma Nested(x: nat)
    ensures x / 65536 == x / 256 / 256 && x / 16777216 == x / 256 / 256 / 256
  {
  }

  // Swapping the bytes of a 32-bit word twice gives it back.
  lemma SwapInvolution(x: nat)
    requires x < WORD
    ensures Swap32(Swap32(x)) == x
  {
    var d, c, b, a := x % 256, x / 256 % 256, x / 65536 % 256, x / 16777216;
    Nested(x);
    assert x == a * 16777216 + b * 65536 + c * 256 + d;
    assert a % 256 == a;
    SwapDigits(a, b, c, d);
    SwapDigits(d, c, b, a);
  }

  lemma AddressInjective(i: nat, j: nat)
    requires i <= POOL && j <= POOL && Address(i) == Address(j)
    ensures i == j
  {
    hide Swap32;
    SwapInvolution(MOCK_IP_LOCAL + i);
    SwapInvolution(MOCK_IP_LOCAL + j);
  }

  lemma CongruentIndex(m: nat, n: nat)
    requires m > 0 && n > 0
    ensures (m - 1) % POOL == (n - 1) % POOL <==> m % POOL == n % POOL
  {
  }

  // Two allocations coincide exactly when their call numbers are congruent
  // modulo the size of the pool.
  lemma AllocatedEqualIff(m: nat, n: nat)
    requires m > 0 && n > 0
    ensures Allocated(m) == Allocated(n) <==> m % POOL == n % POOL
  {
    hide Address, IndexAfter;
    IndexClosedForm(m);
    IndexClosedForm(n);
    CongruentIndex(m, n);
    if Allocated(m) == Allocated(n) {
      AddressInjective(IndexAfter(m), IndexAfter(n));
    }
  }

  // Any POOL consecutive allocations are pairwise distinct.
  lemma ConsecutiveDistinct(m: nat, n: nat)
    requires 0 < m < n < m + POOL
    ensures Allocated(m) != Allocated(n)
  {
    hide Allocated;
    AllocatedEqualIff(m, n);
    assert (n - m) % POOL == n - m;
  }

  lemma AllocatedNonZero(n: nat)
    requires n > 0
    ensures Allocated(n) != 0
  {
    hide Swap32, IndexAfter;
    IndexClosedForm(n);
    SwapInvolution(MOCK_IP_LOCAL + IndexAfter(n));
    SwapZero();
  }

  lemma SwapZero()
    ensures Swap32(0) == 0
  {
  }

  // ---- Replies

  function ReplyDiscovery(sessionId: nat, cookie: seq<Byte>, mac: Mac, d: DiscoveryPacket): seq<Packet> {
    if d.code == PADI then [Discovery(d.(code := PADO, src := mac, cookie := cookie, service := SERVICE_NAME))]
    else if d.code == PADR then
      [Discovery(d.(code := PADS, src := mac, sessionId := sessionId % 65536, service := SERVICE_NAME))]
    else []
  }

  // The responder's own LCP request: it always asks for PAP.
  function OwnLcpRequest(magic: nat): LcpPacket {
    LcpPacket(CONF_REQUEST, 1, auth := PROTOCOL_PAP, mru := DEFAULT_MRU, magic := magic,
              options := ClientSpec.LcpOptionBytes(DEFAULT_MRU, PROTOCOL_PAP, magic))
  }

  function ReplyLcp(p: LcpPacket): seq<Packet> {
    if p.code == CONF_REQUEST then [Lcp(p.(code := CONF_ACK)), Lcp(OwnLcpRequest((p.magic + 1) % WORD))]
    else if p.code == ECHO_REQUEST then [Lcp(p.(code := ECHO_REPLY))]
    else if p.code == TERM_REQUEST then [Lcp(p.(code := TERM_ACK))]
    else []
  }

  function OwnIpcpRequest(): IpcpPacket {
    IpcpPacket(CONF_REQUEST, 1, address := Some(MOCK_IP_LOCAL),
               options := ClientSpec.AddressOption(3, Some(MOCK_IP_LOCAL)))
  }

  function IpcpNak(address: nat, p: IpcpPacket): IpcpPacket {
    var dns1 := if p.dns1.Some? then Some(MOCK_DNS1) else None;
    var dns2 := if p.dns2.Some? then Some(MOCK_DNS2) else None;
    IpcpPacket(CONF_NAK, p.id, address := Some(address), dns1 := dns1, dns2 := dns2,
               options := ClientSpec.AddressOption(3, Some(address)) + ClientSpec.AddressOption(129, dns1)
                          + ClientSpec.AddressOption(131, dns2))
  }

  function ReplyIpcp(address: nat, p: IpcpPacket): seq<Packet> {
    if p.code == CONF_REQUEST then
      [Ipcp(if OrZero(p.address) == address then p.(code := CONF_ACK) else IpcpNak(address, p)),
       Ipcp(OwnIpcpRequest())]
    else if p.code == TERM_REQUEST then [Ipcp(p.(code := TERM_ACK))]
    else []
  }

  function OwnIp6cpRequest(): Ip6cpPacket {
    Ip6cpPacket(CONF_REQUEST, 1, options := ClientSpec.InterfaceOption(1), interfaceId := 1)
  }

  function ReplyIp6cp(p: Ip6cpPacket): seq<Packet> {
    if p.code == CONF_REQUEST then
      [Ip6cp(p.(code := CONF_ACK)),
       Ip6cp(OwnIp6cpRequest())]
    else if p.code == TERM_REQUEST then [Ip6cp(p.(code := TERM_ACK))]
    else []
  }

  // The replies to one packet of the session with this identifier and address.
  function Replies(sessionId: nat, address: nat, cookie: seq<Byte>, mac: Mac, p: Packet): seq<Packet> {
    match p
    case Discovery(d) => ReplyDiscovery(sessionId, cookie, mac, d)
    case Lcp(l) => ReplyLcp(l)
    case Pap(_, id, _) => [Pap(PAP_ACK, id, false)]
    case Ipcp(i) => ReplyIpcp(address, i)
    case Ip6cp(i) => ReplyIp6cp(i)
    case Chap(_, _, _, _) => []
    case RouterSolicitation => []
  }

  // ---- The responder as the program keeps it

  datatype Entry = Entry(address: nat, packetsRx: nat, packetsTx: nat)

  // Every session holds the address of its own allocation.
  ghost predicate Ticketed(calls: nat, ticket: map<nat, nat>, table: map<nat, Entry>) {
    && ticket.Keys == table.Keys
    && (forall id <- table :: 0 < ticket[id] <= calls && table[id].address == Allocated(ticket[id]))
    && (forall id <- table, other <- table :: id != other ==> ticket[id] != ticket[other])
  }

  lemma TicketedUpdate(calls: nat, ticket: map<nat, nat>, table: map<nat, Entry>, id: nat, entry: Entry)
    requires Ticketed(calls, ticket, table) && id in table && entry.address == table[id].address
    ensures Ticketed(calls, ticket, table[id := entry])
  {
    hide Allocated;
    assert table[id := entry].Keys == table.Keys;
  }

  class Responder {
    const mac: Mac
    var index: nat
    var table: map<nat, Entry>     // sessions of the responder by session identifier
    ghost var calls: nat           // allocations so far
    ghost var ticket: map<nat, nat>  // the allocation each live session got

    ghost predicate Valid()
      reads this
    {
      index == IndexAfter(calls) && Ticketed(calls, ticket, table)
    }

    // Live sessions have different addresses unless the pool has wrapped between them.
    lemma LiveDistinct(id: nat, other: nat)
      requires Valid() && id in table && other in table && ticket[id] < ticket[other] < ticket[id] + POOL
      ensures table[id].address != table[other].address
    {
      hide Allocated, IndexAfter;
      ConsecutiveDistinct(ticket[id], ticket[other]);
    }

    constructor (mac: Mac)
      ensures Valid() && calls == 0 && table == map[] && this.mac == mac
    {
      this.mac := mac;
      index, table := 0, map[];
      calls, ticket := 0, map[];
    }

    // bbl_a10nsp_ipv4_address
    method NextAddress() returns (address: nat)
      requires Valid()
      modifies this`index, this`calls
      ensures Valid() && calls == old(calls) + 1 && address == Allocated(calls)
    {
      index := index + 1;
      if index > POOL {
        index := 1;
      }
      calls := calls + 1;
      address := Address(index);
    }

    // A session is created on first contact.
    method Contact(id: nat)
      requires Valid()
      modifies this
      ensures Valid()
      ensures if id in old(table) then table == old(table) && calls == old(calls)
              else calls == old(calls) + 1 && table == old(table)[id := Entry(Allocated(calls), 0, 0)]
    {
      if id !in table {
        var address := NextAddress();
        table := table[id := Entry(address, 0, 0)];
        ticket := ticket[id := calls];
      }
    }

    // bbl_a10nsp_rx: dispatch to the protocol handlers.
    method Handle(id: nat, address: nat, p: Packet, cookie: seq<Byte>) returns (replies: seq<Packet>)
      ensures replies == Replies(id, address, cookie, mac, p)
    {
      match p {
        case Discovery(d) => replies := HandleDiscovery(id, cookie, d);
        case Lcp(l) => replies := HandleLcp(l);
        case Pap(_, papId, _) => replies := [Pap(PAP_ACK, papId, false)];
        case Ipcp(i) => replies := HandleIpcp(address, i);
        case Ip6cp(i) => replies := HandleIp6cp(i);
        case Chap(_, _, _, _) => replies := [];
        case RouterSolicitation => replies := [];
      }
    }

    // A session keeps the address of its first contact; other sessions are untouched.
    method Rx(id: nat, p: Packet, cookie: seq<Byte>) returns (replies: seq<Packet>)
      requires Valid()
      modifies this
      ensures Valid()
      ensures calls == if id in old(table) then old(calls) else old(calls) + 1
      ensures var before := if id in old(table) then old(table)[id] else Entry(Allocated(calls), 0, 0);
        && replies == Replies(id, before.address, cookie, mac, p)
        && table == old(table)[id := Entry(before.address, before.packetsRx + 1, before.packetsTx + |replies|)]
    {
      hide Replies, Allocated, IndexAfter, Ticketed;
      Contact(id);
      var entry := table[id];
      replies := Handle(id, entry.address, p, cookie);
      TicketedUpdate(calls, ticket, table, id,
                     entry.(packetsRx := entry.packetsRx + 1, packetsTx := entry.packetsTx + |replies|));
      table := table[id := entry.(packetsRx := entry.packetsRx + 1, packetsTx := entry.packetsTx + |replies|)];
    }

    // bbl_a10nsp_session_free
    method Free(id: nat)
      requires Valid()
      modifies this`table, this`ticket
      ensures Valid() && table == old(table) - {id}
    {
      table := table - {id};
      ticket := ticket - {id};
    }

    method HandleDiscovery(id: nat, cookie: seq<Byte>, d: DiscoveryPacket) returns (replies: seq<Packet>)
      ensures replies == ReplyDiscovery(id, cookie, mac, d)
    {
      var reply := d;
      if d.code == PADI {
        reply := reply.(code := PADO, cookie := cookie);
      } else if d.code == PADR {
        reply := reply.(code := PADS, sessionId := id % 65536);
      } else {
        return [];
      }
      reply := reply.(src := mac, service := SERVICE_NAME);
      return [Discovery(reply)];
    }

    method HandleLcp(p: LcpPacket) returns (replies: seq<Packet>)
      ensures replies == ReplyLcp(p)
    {
      replies := [];
      if p.code == CONF_REQUEST {
        replies := replies + [Lcp(p.(code := CONF_ACK))];
        replies := replies + [Lcp(OwnLcpRequest((p.magic + 1) % WORD))];
      } else if p.code == ECHO_REQUEST {
        replies := [Lcp(p.(code := ECHO_REPLY))];
      } else if p.code == TERM_REQUEST {
        replies := [Lcp(p.(code := TERM_ACK))];
      }
    }

    method HandleIpcp(address: nat, p: IpcpPacket) returns (replies: seq<Packet>)
      ensures replies == ReplyIpcp(address, p)
    {
      replies := [];
      if p.code == CONF_REQUEST {
        var reply := p;
        if OrZero(p.address) == address {
          reply := reply.(code := CONF_ACK);
        } else {
          reply := IpcpNak(address, p);
        }
        replies := replies + [Ipcp(reply)];
        replies := replies + [Ipcp(OwnIpcpRequest())];
      } else if p.code == TERM_REQUEST {
        replies := [Ipcp(p.(code := TERM_ACK))];
      }
    }

    method HandleIp6cp(p: Ip6cpPacket) returns (replies: seq<Packet>)
      ensures replies == ReplyIp6cp(p)
    {
      replies := [];
      if p.code == CONF_REQUEST {
        replies := replies + [Ip6cp(p.(code := CONF_ACK))];
        replies := replies + [Ip6cp(OwnIp6cpRequest())];
      } else if p.code == TERM_REQUEST {
        replies := [Ip6cp(p.(code := TERM_ACK))];
      }
    }
  }
}
