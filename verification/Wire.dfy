/**
 What the frames of the client say: the values it was told last, in option bytes from
 which a decoder reads them back.
 */
module Wire {
  import opened Types
  import opened ClientSpec
  import opened Skeleton
  import opened ClientRuns
  import opened Responses
  import opened Requests
  import opened Learned
  import opened Options

  // ---- Reading options

  // The first option of a kind.
  function Find(os: seq<Tlv>, kind: Byte): Option<seq<Byte>> {
    if os == [] then None else if os[0].kind == kind then Some(os[0].body) else Find(os[1..], kind)
  }

  // A number in network order, and one as a little-endian host stores it.
  function Big(b: seq<Byte>): nat {
    if b == [] then 0 else Big(b[..|b| - 1]) * 256 + b[|b| - 1]
  }

  function Little(b: seq<Byte>): nat {
    if b == [] then 0 else b[0] + 256 * Little(b[1..])
  }

  // What the decoder finds in the options of LCP: the MRU, the authentication protocol
  // (the first two bytes of its option) and the magic number.
  ghost predicate ReadsLcp(b: seq<Byte>, mru: nat, auth: nat, magic: nat) {
    && WellFormed(b)
    && var os := Parse(b);
    && (if mru == 0 then Find(os, 1) == None else Find(os, 1).Some? && |Find(os, 1).value| == 2 && Big(Find(os, 1).value) == mru)
    && (if auth == 0 then Find(os, 3) == None
        else Find(os, 3).Some? && |Find(os, 3).value| >= 2 && Big(Find(os, 3).value[..2]) == auth)
    && (if magic == 0 then Find(os, 5) == None
        else Find(os, 5).Some? && |Find(os, 5).value| == 4 && Little(Find(os, 5).value) == magic)
  }

  ghost predicate ReadsAddress(os: seq<Tlv>, kind: Byte, o: Option<nat>) {
    match o
    case None => Find(os, kind) == None
    case Some(a) => Find(os, kind).Some? && |Find(os, kind).value| == 4 && Little(Find(os, kind).value) == a
  }

  // In those of IPCP: the address and the two DNS servers (option 3 of RFC 1332, options
  // 129 and 131 of RFC 1877).
  ghost predicate ReadsIpcp(b: seq<Byte>, address: Option<nat>, dns1: Option<nat>, dns2: Option<nat>) {
    && WellFormed(b)
    && ReadsAddress(Parse(b), 3, address) && ReadsAddress(Parse(b), 129, dns1) && ReadsAddress(Parse(b), 131, dns2)
  }

  // In those of IP6CP: the interface identifier.
  ghost predicate ReadsIp6cp(b: seq<Byte>, interfaceId: nat) {
    && WellFormed(b)
    && var o := Find(Parse(b), 1);
    o.Some? && |o.value| == 8 && Little(o.value) == interfaceId
  }

  lemma BigNet16(x: nat)
    requires x < 65536
    ensures |Net16(x)| == 2 && Big(Net16(x)) == x
  {
    var b := Net16(x);
    assert b[..1] == [b[0]] && [b[0]][..0] == [];
    assert Big([b[0]]) == b[0];
  }

  lemma LittleBytes32(x: nat)
    requires x < WORD
    ensures |Bytes32(x)| == 4 && Little(Bytes32(x)) == x
  {
    Little4(Bytes32(x));
    var a := x / 256;
    var b := a / 256;
    var c := b / 256;
    Quotients(x);
    assert c < 256 && c % 256 == c;
    assert x == x % 256 + 256 * a && a == a % 256 + 256 * b && b == b % 256 + 256 * c;
  }

  lemma Quotients(x: nat)
    ensures x / 256 / 256 == x / 65536 && x / 256 / 256 / 256 == x / 16777216
  {
  }

  lemma Little4(b: seq<Byte>)
    requires |b| == 4
    ensures Little(b) == b[0] as int + b[1] as int * 256 + b[2] as int * 65536 + b[3] as int * 16777216
  {
    var c := b[1..];
    var d := c[1..];
    var e := d[1..];
    assert e[1..] == [];
    assert Little(e) == e[0];
  }

  lemma LittleConcat(a: seq<Byte>, b: seq<Byte>)
    requires |a| == 4
    ensures Little(a + b) == Little(a) + WORD * Little(b)
  {
    var c := a + b;
    var d := c[1..];
    var e := d[1..];
    var f := e[1..];
    assert f[1..] == b;
    Little4(a);
    assert c[0] == a[0] && d[0] == a[1] && e[0] == a[2] && f[0] == a[3];
    assert Little(f) == f[0] as int + 256 * Little(b);
    assert Little(e) == e[0] as int + 256 * Little(f);
    assert Little(d) == d[0] as int + 256 * Little(e);
  }

  lemma LittleBytes64(x: nat)
    requires x < WORD * WORD
    ensures |Bytes64(x)| == 8 && Little(Bytes64(x)) == x
  {
    LittleBytes32(x % WORD);
    LittleBytes32(x / WORD);
    hide Bytes32;
    LittleConcat(Bytes32(x % WORD), Bytes32(x / WORD));
  }

  // ---- Writing options

  function If(c: bool, kind: Byte, body: seq<Byte>): seq<Tlv> {
    if c then [Tlv(kind, body)] else []
  }

  lemma ParseOne(kind: Byte, body: seq<Byte>, rest: seq<Byte>)
    requires |body| <= 253 && WellFormed(rest)
    ensures WellFormed([kind, 2 + |body|] + body + rest)
    ensures Parse([kind, 2 + |body|] + body + rest) == [Tlv(kind, body)] + Parse(rest)
  {
    var b := [kind, 2 + |body|] + body + rest;
    assert b[2 + |body|..] == rest && b[2..2 + |body|] == body;
  }

  lemma Lengths(x: nat, y: nat, z: nat)
    ensures |Net16(x)| == 2 && |Bytes32(y)| == 4 && |Bytes64(z)| == 8
  {
  }

  lemma ParseEmpty()
    ensures WellFormed([]) && Parse([]) == []
  {
  }

  // An option that is written or not.
  function Maybe(c: bool, kind: Byte, body: seq<Byte>): seq<Byte>
    requires |body| <= 253
  {
    if c then [kind, 2 + |body|] + body else []
  }

  lemma ParseMaybe(c: bool, kind: Byte, body: seq<Byte>, rest: seq<Byte>)
    requires |body| <= 253 && WellFormed(rest)
    ensures var b := Maybe(c, kind, body) + rest;
      WellFormed(b) && Parse(b) == If(c, kind, body) + Parse(rest)
  {
    hide WellFormed, Parse;
    if c {
      ParseOne(kind, body, rest);
    } else {
      assert [] + rest == rest;
      assert [] + Parse(rest) == Parse(rest);
    }
  }

  lemma ParseThree(c1: bool, k1: Byte, b1: seq<Byte>, c2: bool, k2: Byte, b2: seq<Byte>, c3: bool, k3: Byte, b3: seq<Byte>)
    requires |b1| <= 253 && |b2| <= 253 && |b3| <= 253
    ensures var b := Maybe(c1, k1, b1) + Maybe(c2, k2, b2) + Maybe(c3, k3, b3);
      WellFormed(b) && Parse(b) == If(c1, k1, b1) + (If(c2, k2, b2) + If(c3, k3, b3))
  {
    hide WellFormed, Parse, Maybe, If;
    ParseEmpty();
    var z, y, x := Maybe(c3, k3, b3), Maybe(c2, k2, b2), Maybe(c1, k1, b1);
    ParseMaybe(c3, k3, b3, []);
    assert z + [] == z && If(c3, k3, b3) + [] == If(c3, k3, b3);
    ParseMaybe(c2, k2, b2, z);
    ParseMaybe(c1, k1, b1, y + z);
    assert x + y + z == x + (y + z);
  }

  lemma FindThree(a: seq<Tlv>, b: seq<Tlv>, c: seq<Tlv>, kind: Byte)
    requires |a| <= 1 && |b| <= 1 && |c| <= 1
    ensures Find(a + (b + c), kind)
         == if a != [] && a[0].kind == kind then Some(a[0].body)
            else if b != [] && b[0].kind == kind then Some(b[0].body)
            else if c != [] && c[0].kind == kind then Some(c[0].body) else None
  {
    FindCons(a, b + c, kind);
    FindCons(b, c, kind);
    FindCons(c, [], kind);
    assert c + [] == c;
  }

  lemma FindCons(a: seq<Tlv>, b: seq<Tlv>, kind: Byte)
    requires |a| <= 1
    ensures Find(a + b, kind) == if a != [] && a[0].kind == kind then Some(a[0].body) else Find(b, kind)
  {
    if a == [] {
      assert a + b == b;
    } else {
      assert (a + b)[1..] == b;
    }
  }

  lemma LcpOptionsParse(mru: nat, auth: nat, magic: nat)
    ensures var b := LcpOptionBytes(mru, auth, magic);
      WellFormed(b) && Parse(b) == If(mru != 0, 1, Net16(mru)) + (If(auth != 0, 3, Net16(auth)) + If(magic != 0, 5, Bytes32(magic)))
  {
    hide Net16, Bytes32, WellFormed, Parse;
    Lengths(mru, magic, 0);
    Lengths(auth, 0, 0);
    ParseThree(mru != 0, 1, Net16(mru), auth != 0, 3, Net16(auth), magic != 0, 5, Bytes32(magic));
  }

  lemma LcpOptionsRead(mru: nat, auth: nat, magic: nat)
    requires mru < 65536 && auth < 65536 && magic < WORD
    ensures ReadsLcp(LcpOptionBytes(mru, auth, magic), mru, auth, magic)
  {
    hide LcpOptionBytes, Net16, Bytes32, Big, Little, WellFormed, Parse;
    LcpOptionsParse(mru, auth, magic);
    BigNet16(mru);
    BigNet16(auth);
    LittleBytes32(magic);
    var a, b, c := If(mru != 0, 1, Net16(mru)), If(auth != 0, 3, Net16(auth)), If(magic != 0, 5, Bytes32(magic));
    FindThree(a, b, c, 1);
    FindThree(a, b, c, 3);
    FindThree(a, b, c, 5);
    assert Net16(auth)[..2] == Net16(auth);
  }

  function AddressBody(o: Option<nat>): seq<Byte> {
    if o.Some? then Bytes32(o.value) else []
  }

  lemma IpcpOptionsParse(x: Option<nat>, y: Option<nat>, z: Option<nat>)
    ensures var b := AddressOption(3, x) + AddressOption(129, y) + AddressOption(131, z);
      WellFormed(b) && Parse(b) == If(x.Some?, 3, AddressBody(x)) + (If(y.Some?, 129, AddressBody(y)) + If(z.Some?, 131, AddressBody(z)))
  {
    hide Bytes32, WellFormed, Parse;
    Lengths(0, OrZero(x), 0);
    Lengths(0, OrZero(y), 0);
    Lengths(0, OrZero(z), 0);
    ParseThree(x.Some?, 3, AddressBody(x), y.Some?, 129, AddressBody(y), z.Some?, 131, AddressBody(z));
  }

  predicate InWord(o: Option<nat>) {
    o.Some? ==> o.value < WORD
  }

  lemma IpcpOptionsRead(x: Option<nat>, y: Option<nat>, z: Option<nat>)
    requires InWord(x) && InWord(y) && InWord(z)
    ensures ReadsIpcp(AddressOption(3, x) + AddressOption(129, y) + AddressOption(131, z), x, y, z)
  {
    hide AddressOption, Bytes32, Little, WellFormed, Parse;
    IpcpOptionsParse(x, y, z);
    LittleBytes32(OrZero(x));
    LittleBytes32(OrZero(y));
    LittleBytes32(OrZero(z));
    var a, b, c := If(x.Some?, 3, AddressBody(x)), If(y.Some?, 129, AddressBody(y)), If(z.Some?, 131, AddressBody(z));
    FindThree(a, b, c, 3);
    FindThree(a, b, c, 129);
    FindThree(a, b, c, 131);
  }

  lemma Ip6cpOptionsRead(x: nat)
    requires x < WORD * WORD
    ensures ReadsIp6cp(InterfaceOption(x), x)
  {
    hide Bytes64, Little;
    Lengths(0, 0, x);
    LittleBytes64(x);
    ParseEmpty();
    ParseOne(1, Bytes64(x), []);
    assert [1, 10] + Bytes64(x) + [] == InterfaceOption(x);
    assert [Tlv(1, Bytes64(x))] + [] == [Tlv(1, Bytes64(x))];
  }

  // ---- What a request says

  // The values that the fields of the program can hold.
  predicate InRange(s: Session) {
    && s.link.mru < 65536 && s.link.magic < WORD && s.ip6.interfaceId < WORD * WORD
    && s.ip.address < WORD && s.ip.dns1 < WORD && s.ip.dns2 < WORD
  }

  lemma LcpRequestSays(cfg: Config, s: Session)
    requires Served(s) == Some(SendLcpRequest) && InRange(s)
    ensures |Frame(cfg, s)| == 1 && Frame(cfg, s)[0].Lcp?
    ensures var p := Frame(cfg, s)[0].lcp;
      && (p.code == CONF_REQUEST ==>
            && Number(p.mru) == Get(s, Mru) && Number(p.magic) == Get(s, Magic) && p.auth == 0
            && ReadsLcp(p.options, p.mru, 0, p.magic))
      && (p.code == ECHO_REQUEST ==> Number(p.magic) == Get(s, Magic))
      && (p.code != CONF_REQUEST ==> p.options == [])
  {
    hide LcpOptionBytes, ReadsLcp, Served, IpcpRequest, Ip6cpRequest, Ip6cpResponse, DiscoveryFrame, LcpResponse;
    LcpOptionsRead(s.link.mru, 0, s.link.magic);
  }

  // An address is asked for when one is known or wanted, a DNS server when it is wanted.
  lemma IpcpRequestSays(cfg: Config, s: Session)
    requires Served(s) == Some(SendIpcpRequest) && InRange(s) && !s.ipcp.state.Closed? && !s.ipcp.state.Opened?
    ensures |Frame(cfg, s)| == 1 && Frame(cfg, s)[0].Ipcp?
    ensures var p := Frame(cfg, s)[0].ipcp;
      if p.code == CONF_REQUEST then
        && (p.address.Some? <==> cfg.requestIp || s.ip.address > 0)
        && (p.address.Some? ==> Number(p.address.value) == Get(s, Field.Address))
        && (Flag(p.dns1.Some?) == Get(s, AsksDns1) && (p.dns1.Some? ==> Number(p.dns1.value) == Get(s, Dns1)))
        && (Flag(p.dns2.Some?) == Get(s, AsksDns2) && (p.dns2.Some? ==> Number(p.dns2.value) == Get(s, Dns2)))
        && ReadsIpcp(p.options, p.address, p.dns1, p.dns2)
      else p.options == [] && p.address == None && p.dns1 == None && p.dns2 == None
  {
    hide AddressOption, ReadsIpcp, Served, LcpRequest, LcpResponse, Ip6cpRequest, Ip6cpResponse, DiscoveryFrame;
    if s.ipcp.requestCode == CONF_REQUEST {
      IpcpOptionsRead(if s.ip.address != 0 || cfg.requestIp then Some(s.ip.address) else None,
                      if s.ip.wantDns1 then Some(s.ip.dns1) else None, if s.ip.wantDns2 then Some(s.ip.dns2) else None);
    }
  }

  lemma Ip6cpRequestSays(cfg: Config, s: Session)
    requires Served(s) == Some(SendIp6cpRequest) && InRange(s) && !s.ip6cp.state.Closed? && !s.ip6cp.state.Opened?
    ensures |Frame(cfg, s)| == 1 && Frame(cfg, s)[0].Ip6cp?
    ensures var p := Frame(cfg, s)[0].ip6cp;
      && ReadsIp6cp(p.options, p.interfaceId)
      && (if p.code == CONF_REQUEST then Number(p.interfaceId) == Get(s, InterfaceId) else p.interfaceId == 0)
  {
    hide InterfaceOption, ReadsIp6cp, Served, IpcpRequest, LcpRequest, LcpResponse, DiscoveryFrame;
    Ip6cpOptionsRead(s.ip6.interfaceId);
    Ip6cpOptionsRead(0);
  }

  // A response of IP6CP without options of its own names the own interface identifier.
  lemma Ip6cpResponseSays(cfg: Config, s: Session)
    requires Served(s) == Some(SendIp6cpResponse) && InRange(s) && s.ip6cp.options == []
    ensures |Frame(cfg, s)| == 1 && Frame(cfg, s)[0].Ip6cp?
    ensures var p := Frame(cfg, s)[0].ip6cp;
      ReadsIp6cp(p.options, p.interfaceId) && Number(p.interfaceId) == Get(s, InterfaceId)
  {
    hide InterfaceOption, ReadsIp6cp, Served, IpcpRequest, LcpRequest, LcpResponse, DiscoveryFrame;
    Ip6cpOptionsRead(s.ip6.interfaceId);
  }

  // ---- Over runs: what was told is what is said

  ghost predicate Untold(cfg: Config, s: Session, es: seq<Event>, fs: set<Field>)
    requires AllProper(es)
  {
    forall f <- fs :: NobodyTells(cfg, s, es, f)
  }

  lemma StillKnows(cfg: Config, s: Session, es: seq<Event>, fs: set<Field>)
    requires AllProper(es) && Untold(cfg, s, es, fs)
    ensures forall f <- fs :: Get(Run(cfg, s, FRESH, es).0, f) == Get(s, f)
  {
    hide Run, Get, NobodyTells, AllProper;
    forall f <- fs ensures Get(Run(cfg, s, FRESH, es).0, f) == Get(s, f) {
      KnowsNothingElse(cfg, s, es, f);
    }
  }

  function Corrected(told: Option<nat>, own: nat): nat {
    if told == None || told == Some(0) then own else told.value
  }

  const IPCP_VALUES := {Field.Address, Dns1, Dns2, AsksDns1, AsksDns2}

  // After an IPCP Conf-Nak, whatever happens before the next Configure-Request, that
  // request asks for exactly the values suggested: the address for the address, and each
  // DNS server in its own place (section 3.3 of RFC 1332).
  lemma IpcpNakHeeded(cfg: Config, s: Session, n: IpcpPacket, es: seq<Event>)
    requires Attentive(s) && s.lcp.state.Opened? && cfg.ipcpGlobal && n.code == CONF_NAK
    requires AllProper(es) && Untold(cfg, Step(cfg, s, Rx(Ipcp(n))), es, IPCP_VALUES)
    requires var u := Run(cfg, Step(cfg, s, Rx(Ipcp(n))), FRESH, es).0;
      && Served(u) == Some(SendIpcpRequest) && InRange(u) && u.ipcp.requestCode == CONF_REQUEST
      && !u.ipcp.state.Closed? && !u.ipcp.state.Opened?
    ensures var u := Run(cfg, Step(cfg, s, Rx(Ipcp(n))), FRESH, es).0;
      && |Frame(cfg, u)| == 1 && Frame(cfg, u)[0].Ipcp?
      && var p := Frame(cfg, u)[0].ipcp;
      && p.code == CONF_REQUEST
      && (p.address.Some? ==> p.address.value == Corrected(n.address, s.ip.address))
      && (cfg.requestIp || Corrected(n.address, s.ip.address) > 0 ==> p.address.Some?)
      && p.dns1 == (if s.ip.wantDns1 then Some(Corrected(n.dns1, s.ip.dns1)) else None)
      && p.dns2 == (if s.ip.wantDns2 then Some(Corrected(n.dns2, s.ip.dns2)) else None)
      && ReadsIpcp(p.options, p.address, p.dns1, p.dns2)
  {
    var t := Step(cfg, s, Rx(Ipcp(n)));
    var u := Run(cfg, t, FRESH, es).0;
    hide Run, Step, Served, Frame, Get, InRange, Untold, ReadsIpcp, AllProper;
    IpcpLearns(cfg, s, n);
    StillKnows(cfg, t, es, IPCP_VALUES);
    GetIpcp(u);
    IpcpRequestSays(cfg, u);
    RequestSays(cfg, u, ForIpcp);
  }

  lemma GetIpcp(s: Session)
    ensures Get(s, Field.Address) == Number(s.ip.address) && Get(s, Dns1) == Number(s.ip.dns1) && Get(s, Dns2) == Number(s.ip.dns2)
    ensures Get(s, AsksDns1) == Flag(s.ip.wantDns1) && Get(s, AsksDns2) == Flag(s.ip.wantDns2)
  {
  }

  lemma IpcpLearns(cfg: Config, s: Session, n: IpcpPacket)
    requires Attentive(s) && s.lcp.state.Opened? && cfg.ipcpGlobal && n.code == CONF_NAK
    ensures var t := Step(cfg, s, Rx(Ipcp(n)));
      && Get(t, Field.Address) == Number(Corrected(n.address, s.ip.address))
      && Get(t, Dns1) == Number(Corrected(n.dns1, s.ip.dns1)) && Get(t, Dns2) == Number(Corrected(n.dns2, s.ip.dns2))
      && Get(t, AsksDns1) == Flag(s.ip.wantDns1) && Get(t, AsksDns2) == Flag(s.ip.wantDns2)
  {
    hide Step;
    LearnStep(cfg, s, Rx(Ipcp(n)), Field.Address);
    LearnStep(cfg, s, Rx(Ipcp(n)), Dns1);
    LearnStep(cfg, s, Rx(Ipcp(n)), Dns2);
    LearnStep(cfg, s, Rx(Ipcp(n)), AsksDns1);
    LearnStep(cfg, s, Rx(Ipcp(n)), AsksDns2);
  }

  // The same for LCP, with the MRU and the magic number.
  lemma LcpNakHeeded(cfg: Config, s: Session, n: LcpPacket, es: seq<Event>)
    requires Attentive(s) && Listening(s.state) && n.code == CONF_NAK
    requires AllProper(es) && Untold(cfg, Step(cfg, s, Rx(Lcp(n))), es, {Mru, Magic})
    requires var u := Run(cfg, Step(cfg, s, Rx(Lcp(n))), FRESH, es).0;
      Served(u) == Some(SendLcpRequest) && InRange(u) && u.lcp.requestCode == CONF_REQUEST
    ensures var u := Run(cfg, Step(cfg, s, Rx(Lcp(n))), FRESH, es).0;
      && |Frame(cfg, u)| == 1 && Frame(cfg, u)[0].Lcp?
      && var p := Frame(cfg, u)[0].lcp;
      && p.code == CONF_REQUEST
      && p.mru == Corrected(Some(n.mru), s.link.mru) && p.magic == Corrected(Some(n.magic), s.link.magic)
      && ReadsLcp(p.options, p.mru, 0, p.magic)
  {
    var t := Step(cfg, s, Rx(Lcp(n)));
    var u := Run(cfg, t, FRESH, es).0;
    hide Run, Step, Served, Frame, InRange, Untold, ReadsLcp, AllProper, Get;
    LcpLearns(cfg, s, n);
    StillKnows(cfg, t, es, {Mru, Magic});
    LcpRequestSays(cfg, u);
    RequestSays(cfg, u, ForLcp);
  }

  lemma LcpLearns(cfg: Config, s: Session, n: LcpPacket)
    requires Attentive(s) && Listening(s.state) && n.code == CONF_NAK
    ensures var t := Step(cfg, s, Rx(Lcp(n)));
      && Get(t, Mru) == Number(Corrected(Some(n.mru), s.link.mru)) && Get(t, Magic) == Number(Corrected(Some(n.magic), s.link.magic))
  {
    hide Step;
    LearnStep(cfg, s, Rx(Lcp(n)), Mru);
    LearnStep(cfg, s, Rx(Lcp(n)), Magic);
  }

  // And for IP6CP, with the interface identifier.
  lemma Ip6cpNakHeeded(cfg: Config, s: Session, n: Ip6cpPacket, es: seq<Event>)
    requires Attentive(s) && s.lcp.state.Opened? && cfg.ip6cpGlobal && n.code == CONF_NAK
    requires AllProper(es) && Untold(cfg, Step(cfg, s, Rx(Ip6cp(n))), es, {InterfaceId})
    requires var u := Run(cfg, Step(cfg, s, Rx(Ip6cp(n))), FRESH, es).0;
      && Served(u) == Some(SendIp6cpRequest) && InRange(u) && u.ip6cp.requestCode == CONF_REQUEST
      && !u.ip6cp.state.Closed? && !u.ip6cp.state.Opened?
    ensures var u := Run(cfg, Step(cfg, s, Rx(Ip6cp(n))), FRESH, es).0;
      && |Frame(cfg, u)| == 1 && Frame(cfg, u)[0].Ip6cp?
      && var p := Frame(cfg, u)[0].ip6cp;
      && p.code == CONF_REQUEST && p.interfaceId == Corrected(Some(n.interfaceId), s.ip6.interfaceId)
      && ReadsIp6cp(p.options, p.interfaceId)
  {
    var t := Step(cfg, s, Rx(Ip6cp(n)));
    var u := Run(cfg, t, FRESH, es).0;
    hide Run, Step, Served, Frame, InRange, Untold, ReadsIp6cp, AllProper, Get;
    Ip6cpLearns(cfg, s, n);
    StillKnows(cfg, t, es, {InterfaceId});
    Ip6cpRequestSays(cfg, u);
    RequestSays(cfg, u, ForIp6cp);
  }

  lemma Ip6cpLearns(cfg: Config, s: Session, n: Ip6cpPacket)
    requires Attentive(s) && s.lcp.state.Opened? && cfg.ip6cpGlobal && n.code == CONF_NAK
    ensures Get(Step(cfg, s, Rx(Ip6cp(n))), InterfaceId) == Number(Corrected(Some(n.interfaceId), s.ip6.interfaceId))
  {
    hide Step;
    LearnStep(cfg, s, Rx(Ip6cp(n)), InterfaceId);
  }

  // ---- Discovery

  // The session id, from an accepted PADS until the next one or a reconnect: it is not
  // zero, and the PADT that ends the session names it.
  lemma SessionIdLasts(cfg: Config, s: Session, es: seq<Event>, k: nat)
    requires AllProper(es) && k < |es| && GetsSession(cfg, Run(cfg, s, FRESH, es[..k]).0, es[k])
    requires forall j :: k < j < |es| ==> !RenewsId(cfg, s, es, j)
    ensures var t := Run(cfg, s, FRESH, es).0;
      && t.pppoe.sessionId == es[k].packet.d.sessionId != 0
      && (t.state.Terminating? && Served(t) == Some(SendDiscovery) ==>
            |Frame(cfg, t)| == 1 && Frame(cfg, t)[0].Discovery?
            && Frame(cfg, t)[0].d.code == PADT && Frame(cfg, t)[0].d.sessionId == es[k].packet.d.sessionId)
  {
    hide Run, Served, AllProper;
    forall j | k <= j < |es| ensures TellsAt(cfg, s, es, j, SessionId).Some? <==> RenewsId(cfg, s, es, j) {
    }
    KnowsWhatItWasTold(cfg, s, es, k, SessionId);
  }

  // Event j brings another PADS, or is a reconnect.
  ghost predicate RenewsId(cfg: Config, s: Session, es: seq<Event>, j: nat)
    requires AllProper(es) && j < |es|
  {
    var t := Run(cfg, s, FRESH, es[..j]).0;
    GetsSession(cfg, t, es[j]) || (es[j].Restart? && t.state.Terminated?)
  }

  // The PADR that follows an accepted PADO names its service and brings its cookie back
  // (section 5.3 of RFC 2516), and what is sent goes to its sender.
  lemma PadrEchoes(cfg: Config, s: Session, d: DiscoveryPacket, es: seq<Event>)
    requires GetsOffer(cfg, s, Rx(Discovery(d)))
    requires AllProper(es) && Untold(cfg, Step(cfg, s, Rx(Discovery(d))), es, {Cookie, Service, ServerMac})
    ensures var u := Run(cfg, Step(cfg, s, Rx(Discovery(d))), FRESH, es).0;
      && u.pppoe.serverMac == d.src
      && (u.state.PppoeRequest? && Served(u) == Some(SendDiscovery) ==>
            |Frame(cfg, u)| == 1 && Frame(cfg, u)[0].Discovery?
            && var r := Frame(cfg, u)[0].d;
            && r.code == PADR && r.service == d.service
            && r.cookie == (if d.cookie == [] then s.pppoe.cookie else d.cookie)
            && (cfg.hostUniq != 0 ==> r.hostUniq == Some(cfg.hostUniq)))
  {
    var t := Step(cfg, s, Rx(Discovery(d)));
    hide Run, Step, Served, AllProper, Untold;
    LearnStep(cfg, s, Rx(Discovery(d)), Cookie);
    LearnStep(cfg, s, Rx(Discovery(d)), Service);
    LearnStep(cfg, s, Rx(Discovery(d)), ServerMac);
    StillKnows(cfg, t, es, {Cookie, Service, ServerMac});
  }

  // A PADI asks for the service of the session.
  lemma PadiAsks(cfg: Config, s: Session, es: seq<Event>)
    requires AllProper(es) && Untold(cfg, s, es, {Service})
    ensures var u := Run(cfg, s, FRESH, es).0;
      u.state.PppoeInit? && Served(u) == Some(SendDiscovery) ==>
        |Frame(cfg, u)| == 1 && Frame(cfg, u)[0].Discovery?
        && Frame(cfg, u)[0].d.code == PADI && Frame(cfg, u)[0].d.service == s.pppoe.service
        && (cfg.hostUniq != 0 ==> Frame(cfg, u)[0].d.hostUniq == Some(cfg.hostUniq))
  {
    hide Run, Served, AllProper, Untold;
    StillKnows(cfg, s, es, {Service});
  }

  // ---- Login

  // A CHAP response has the identifier of the last challenge (section 4.1 of RFC 1994).
  lemma ChapAnswers(cfg: Config, s: Session, c: Packet, es: seq<Event>)
    requires s.state.PppAuth? && c.Chap? && c.chapCode == CHAP_CHALLENGE && c.challengeLen > 0
    requires AllProper(es) && Untold(cfg, Step(cfg, s, Rx(c)), es, {ChapChallenge})
    ensures var u := Run(cfg, Step(cfg, s, Rx(c)), FRESH, es).0;
      Served(u) == Some(SendChap) ==>
        |Frame(cfg, u)| == 1 && Frame(cfg, u)[0].Chap?
        && Frame(cfg, u)[0].chapCode == CHAP_RESPONSE && Frame(cfg, u)[0].chapId == c.chapId
  {
    hide Run, Step, Served, AllProper, Untold;
    LearnStep(cfg, s, Rx(c), ChapChallenge);
    StillKnows(cfg, Step(cfg, s, Rx(c)), es, {ChapChallenge});
  }

  // The protocol that a Conf-Nak of the client suggests.
  ghost function SuggestedIn(b: seq<Byte>): nat
    requires WellFormed(b)
  {
    var o := Find(Parse(b), 3);
    if o.Some? && |o.value| >= 2 then Big(o.value[..2]) else 0
  }

  lemma SuggestionReads(cfg: Config)
    ensures WellFormed(SuggestedAuth(cfg)) && Find(Parse(SuggestedAuth(cfg)), 3).Some?
    ensures SuggestedIn(SuggestedAuth(cfg)) == if cfg.authentication == PROTOCOL_CHAP then PROTOCOL_CHAP else PROTOCOL_PAP
    ensures cfg.authentication == PROTOCOL_CHAP ==> Find(Parse(SuggestedAuth(cfg)), 3).value[2..] == [5]
  {
    BigNet16(PROTOCOL_CHAP);
    BigNet16(PROTOCOL_PAP);
    hide Net16, Big;
    Lengths(PROTOCOL_CHAP, 0, 0);
    Lengths(PROTOCOL_PAP, 0, 0);
    ParseEmpty();
    var body := if cfg.authentication == PROTOCOL_CHAP then Net16(PROTOCOL_CHAP) + [5] else Net16(PROTOCOL_PAP);
    ParseOne(3, body, []);
    assert SuggestedAuth(cfg) == [3, 2 + |body|] + body + [];
    assert [Tlv(3, body)] + [] == [Tlv(3, body)];
    assert body[..2] == if cfg.authentication == PROTOCOL_CHAP then Net16(PROTOCOL_CHAP) else Net16(PROTOCOL_PAP);
  }

  // A refused Configure-Request is answered with a protocol to ask for, and the same
  // request with that protocol is acknowledged.
  lemma SuggestionIsAcceptable(cfg: Config, s: Session, p: LcpPacket)
    requires ValidConfig(cfg) && Decoded(Lcp(p)) && p.code == CONF_REQUEST && Attentive(s) && Listening(s.state)
    requires !p.unknownOptions && !AcceptsAuth(cfg, p.auth)
    ensures var t := Step(cfg, s, Rx(Lcp(p)));
      && t.lcp.responseCode == CONF_NAK && t.lcp.peerId == p.id && SendLcpResponse in t.send
      && WellFormed(t.lcp.options) && Listening(t.state)
      && var q := p.(auth := SuggestedIn(t.lcp.options));
      && AcceptsAuth(cfg, q.auth)
      && Step(cfg, t, Rx(Lcp(q))).lcp.responseCode == CONF_ACK
  {
    SuggestionReads(cfg);
    AuthAgrees(cfg, p);
    hide WellFormed, SuggestedIn, SuggestedAuth, Step, NaksAuth;
    var t := Step(cfg, s, Rx(Lcp(p)));
    SlotStep(cfg, s, ForLcp, Rx(Lcp(p)));
    BitStep(cfg, s, ForLcp, Rx(Lcp(p)));
    RefusalKeepsPhase(cfg, s, p);
    var q := p.(auth := SuggestedIn(t.lcp.options));
    AuthAgrees(cfg, q);
    SlotStep(cfg, t, ForLcp, Rx(Lcp(q)));
  }

  lemma RefusalKeepsPhase(cfg: Config, s: Session, p: LcpPacket)
    requires Decoded(Lcp(p)) && p.code == CONF_REQUEST && Attentive(s) && Listening(s.state)
    requires !p.unknownOptions && NaksAuth(cfg, p)
    ensures Step(cfg, s, Rx(Lcp(p))).state == s.state
  {
    hide NaksAuth, Options.WellFormed, SuggestedAuth, LcpOpened;
  }
}
