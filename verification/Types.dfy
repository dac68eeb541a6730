/**
 Values shared by both ends of a PPPoE session: the phases of a session, the
 state of one PPP control protocol, the packets exchanged, the configuration
 and the record of one subscriber session.

 Multi-byte fields that the program copies as raw memory (addresses, magic
 numbers, interface identifiers) are the unsigned value a little-endian host
 reads from those bytes.
 */
module Types {

  type Byte = x: int | 0 <= x < 256
  type Mac = seq<Byte>

  datatype Option<+T> = None | Some(value: T)

  // Session phases, in the order of the enumeration the program compares with.
  datatype SessionState =
    | Idle | IpoeSetup | PppoeInit | PppoeRequest | PppLink | PppAuth
    | PppNetwork | Established | PppTerminating | Terminating | Terminated

  function Rank(s: SessionState): nat {
    match s
    case Idle => 0
    case IpoeSetup => 1
    case PppoeInit => 2
    case PppoeRequest => 3
    case PppLink => 4
    case PppAuth => 5
    case PppNetwork => 6
    case Established => 7
    case PppTerminating => 8
    case Terminating => 9
    case Terminated => 10
  }

  // A session that was started and has neither come up nor been given up.
  predicate InSetup(s: SessionState) {
    Rank(Idle) < Rank(s) < Rank(Established)
  }

  // State of LCP, IPCP or IP6CP.
  datatype PppState = Disabled | Rejected | Closed | Init | LocalAck | PeerAck | Opened | Terminate

  // Bits of the send mask, in the order in which they are served.
  datatype SendBit =
    | SendDiscovery | SendLcpRequest | SendLcpResponse | SendPap | SendChap
    | SendIpcpRequest | SendIpcpResponse | SendIp6cpRequest | SendIp6cpResponse | SendRs

  const VENDOR_SPECIFIC: Byte := 0
  const CONF_REQUEST: Byte := 1
  const CONF_ACK: Byte := 2
  const CONF_NAK: Byte := 3
  const CONF_REJECT: Byte := 4
  const TERM_REQUEST: Byte := 5
  const TERM_ACK: Byte := 6
  const CODE_REJECT: Byte := 7
  const PROT_REJECT: Byte := 8
  const ECHO_REQUEST: Byte := 9
  const ECHO_REPLY: Byte := 10

  const PAP_REQUEST: Byte := 1
  const PAP_ACK: Byte := 2
  const CHAP_CHALLENGE: Byte := 1
  const CHAP_RESPONSE: Byte := 2
  const CHAP_SUCCESS: Byte := 3

  const PADI: Byte := 0x09
  const PADO: Byte := 0x07
  const PADR: Byte := 0x19
  const PADS: Byte := 0x65
  const PADT: Byte := 0xa7

  const PROTOCOL_PAP := 0xc023
  const PROTOCOL_CHAP := 0xc223
  const PROTOCOL_IPCP := 0x8021
  const PROTOCOL_IP6CP := 0x8057

  const OPTIONS_BUFFER := 64

  // The range of a 32-bit word.
  const WORD := 0x1_0000_0000

  datatype DiscoveryPacket = DiscoveryPacket(
    code: Byte, nameonly src: Mac := [], nameonly sessionId: nat := 0,
    nameonly cookie: seq<Byte> := [], nameonly service: seq<Byte> := [],
    nameonly hostUniq: Option<nat> := None)  // None: absent or not eight bytes long

  datatype LcpPacket = LcpPacket(
    code: Byte, id: Byte, nameonly options: seq<Byte> := [],
    nameonly mru: nat := 0, nameonly auth: nat := 0, nameonly magic: nat := 0,
    nameonly unknownOptions: bool := false, nameonly protocol: nat := 0,
    nameonly vendorOui: seq<Byte> := [], nameonly vendorKind: Byte := 0, nameonly vendorValueLen: nat := 0,
    nameonly raw: seq<Byte> := [])

  datatype IpcpPacket = IpcpPacket(
    code: Byte, id: Byte, nameonly options: seq<Byte> := [],
    nameonly address: Option<nat> := None, nameonly dns1: Option<nat> := None,
    nameonly dns2: Option<nat> := None, nameonly unknownOptions: bool := false)

  datatype Ip6cpPacket = Ip6cpPacket(
    code: Byte, id: Byte, nameonly options: seq<Byte> := [], nameonly interfaceId: nat := 0)

  datatype Packet =
    | Discovery(d: DiscoveryPacket)
    | Lcp(lcp: LcpPacket)
    | Pap(papCode: Byte, papId: Byte, papL2tp: bool)
    | Chap(chapCode: Byte, chapId: Byte, challengeLen: nat, chapL2tp: bool)
    | Ipcp(ipcp: IpcpPacket)
    | Ip6cp(ip6cp: Ip6cpPacket)
    | RouterSolicitation

  // The value of an optional field that is zero when absent.
  function OrZero(o: Option<nat>): nat {
    if o.Some? then o.value else 0
  }

  datatype Config = Config(
    authentication: nat,      // 0, PROTOCOL_PAP or PROTOCOL_CHAP of the access profile
    ipcpEnable: bool,         // access profile
    ip6cpEnable: bool,
    ipcpGlobal: bool,         // global switch consulted on reception
    ip6cpGlobal: bool,
    requestIp: bool,
    requestDns1: bool,
    requestDns2: bool,
    ipcpRejectIgnore: bool,
    vendorIgnore: bool,
    connectionStatus: bool,
    echoRequestIgnore: bool,
    serviceName: seq<Byte>,   // configured service name, empty when unset
    hostUniq: nat,            // 0 when unset
    mru: nat,
    keepaliveRetry: nat,
    authRetry: nat,
    lcpRetry: nat,
    ipcpRetry: nat,
    ip6cpRetry: nat,
    discoveryRetry: nat)

  // The part of a session that LCP, IPCP and IP6CP each have.
  datatype Cp = Cp(
    state: PppState, requestCode: Byte, responseCode: Byte,
    options: seq<Byte>, id: Byte, peerId: Byte, retries: Byte)

  // What discovery settled.
  datatype Pppoe = Pppoe(serverMac: Mac, sessionId: nat, cookie: seq<Byte>, service: seq<Byte>, retries: Byte)

  datatype Link = Link(mru: nat, peerMru: nat, magic: nat, peerMagic: nat)

  datatype Login = Login(retries: Byte, chapId: Byte, l2tp: bool)

  datatype Ip = Ip(wantDns1: bool, wantDns2: bool, address: nat, peerAddress: nat, dns1: nat, dns2: nat)

  datatype Ip6 = Ip6(interfaceId: nat, peerInterfaceId: nat)

  datatype Session = Session(
    state: SessionState,
    send: set<SendBit>,
    pppoe: Pppoe,
    lcp: Cp,
    link: Link,
    auth: nat,          // negotiated authentication protocol
    login: Login,
    ipcp: Cp,
    ip: Ip,
    ip6cp: Cp,
    ip6: Ip6)

  function Bump(b: Byte): (r: Byte) {
    (b + 1) % 256
  }

  // The four bytes of a raw 32-bit field, as a little-endian host stores them.
  function Bytes32(x: nat): seq<Byte> {
    [x % 256, x / 256 % 256, x / 65536 % 256, x / 16777216 % 256]
  }

  // The eight bytes of a raw 64-bit field.
  function Bytes64(x: nat): seq<Byte> {
    Bytes32(x % WORD) + Bytes32(x / WORD)
  }

  // The two bytes of a 16-bit field in network order.
  function Net16(x: nat): seq<Byte> {
    [x / 256 % 256, x % 256]
  }
}
