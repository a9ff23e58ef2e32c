/** The experiment packet: the 32-byte header the sender writes, and the two parsers that
    must read it alike, the XDP classifier's (BPF/xdp_kern.c) and the AF_XDP receiver's
    (BPF/afxdp_recv.c). */
module Packets {
  import opened Wrappers

  const MAGIC := 0x41434531
  const VERSION := 1
  const HEADER_SIZE := 32
  const PASS_PORT := 9000
  const RT_PORT := 9001
  const XSK_PORT := 9002
  const ETHERTYPE_IPV4 := 0x0800
  const PROTOCOL_UDP := 17

  // ----- network byte order

  function Value(b: seq<Octet>): (n: nat) {
    if b == [] then 0 else 256 * Value(b[..|b| - 1]) + b[|b| - 1]
  }

  function Octets(n: nat, width: nat): (b: seq<Octet>)
    ensures |b| == width
  {
    if width == 0 then [] else Octets(n / 256, width - 1) + [n % 256]
  }

  function Power256(width: nat): (p: nat)
    ensures p > 0
  {
    if width == 0 then 1 else 256 * Power256(width - 1)
  }

  lemma {:induction false} ValueOfOctets(n: nat, width: nat)
    requires n < Power256(width)
    ensures Value(Octets(n, width)) == n
    decreases width
  {
    if width > 0 {
      var b := Octets(n, width);
      assert b[..|b| - 1] == Octets(n / 256, width - 1);
      ValueOfOctets(n / 256, width - 1);
    }
  }

  lemma {:induction false} OctetsOfValue(b: seq<Octet>)
    ensures Value(b) < Power256(|b|) && Octets(Value(b), |b|) == b
    decreases |b|
  {
    if b != [] {
      OctetsOfValue(b[..|b| - 1]);
      assert b == b[..|b| - 1] + [b[|b| - 1]];
    }
  }

  /** `width` octets at `at`, in network order. */
  function Field(p: seq<Octet>, at: nat, width: nat): (n: nat)
    requires at + width <= |p|
  {
    Value(p[at..at + width])
  }

  // ----- the experiment header

  datatype Key = Key(flow: nat, sequence: nat)
  datatype Header = Header(key: Key, txTime: int)

  /** The cast of an unsigned 64-bit value to a signed one. */
  function Signed64(n: nat): (r: int) {
    if 2 * n < Power256(8) then n else n - Power256(8)
  }

  /** ... and back. */
  function Unsigned64(x: int): (n: nat)
    requires 0 <= Power256(8) + 2 * x < 2 * Power256(8)
    ensures n < Power256(8) && Signed64(n) == x
  {
    if x >= 0 then x else x + Power256(8)
  }

  predicate HeaderOk(h: Header) {
    h.key.flow < Power256(4) && h.key.sequence < Power256(8) && 0 <= Power256(8) + 2 * h.txTime < 2 * Power256(8)
  }

  /** What the sender puts in front of every datagram payload. */
  function Encode(h: Header): (b: seq<Octet>)
    requires HeaderOk(h)
    ensures |b| == HEADER_SIZE
  {
    Octets(MAGIC, 4) + Octets(VERSION, 2) + Octets(HEADER_SIZE, 2) + Octets(h.key.flow, 4) + Octets(0, 4)
    + Octets(h.key.sequence, 8) + Octets(Unsigned64(h.txTime), 8)
  }

  predicate EnvelopeOk(p: seq<Octet>, at: nat)
    requires at + HEADER_SIZE <= |p|
  {
    && Field(p, at, 4) == MAGIC
    && Field(p, at + 4, 2) == VERSION
    && Field(p, at + 6, 2) == HEADER_SIZE
    && Field(p, at + 12, 4) == 0
  }

  function KeyAt(p: seq<Octet>, at: nat): (k: Key)
    requires at + HEADER_SIZE <= |p|
  {
    Key(Field(p, at + 8, 4), Field(p, at + 16, 8))
  }

  // ----- the XDP classifier's parser

  datatype Path = Pass | Cpumap | Xsk

  /** The first three outcomes go to the stack unclassified, two of them counted. */
  datatype Parsed = Unrelated | InvalidIpv4 | Fragment | BadHeader | Experiment(path: Path, key: Key)

  function ParseXdp(p: seq<Octet>): (r: Parsed) {
    if |p| < 14 || Field(p, 12, 2) != ETHERTYPE_IPV4 then Unrelated
    else if |p| < 34 || p[14] / 16 != 4 || p[14] % 16 < 5 then InvalidIpv4
    else
      var ihl := 4 * (p[14] % 16);
      var ipLen := Field(p, 16, 2);
      if ipLen < ihl || 14 + ihl > |p| || 14 + ipLen > |p| then InvalidIpv4
      else if Field(p, 20, 2) % 0x4000 != 0 then Fragment
      else if p[23] != PROTOCOL_UDP then Unrelated
      else if ipLen < ihl + 8 then InvalidIpv4
      else ParseXdpUdp(p, ihl, ipLen)
  }

  function ParseXdpUdp(p: seq<Octet>, ihl: nat, ipLen: nat): (r: Parsed)
    requires ihl + 8 <= ipLen && 14 + ipLen <= |p|
  {
    var udp := 14 + ihl;
    var udpLen := Field(p, udp + 4, 2);
    if udpLen < 8 || udpLen > ipLen - ihl || udp + udpLen > |p| then InvalidIpv4
    else
      var dest := Field(p, udp + 2, 2);
      if dest == PASS_PORT then ParseXdpHeader(p, udp + 8, udpLen, Pass)
      else if dest == RT_PORT then ParseXdpHeader(p, udp + 8, udpLen, Cpumap)
      else if dest == XSK_PORT then ParseXdpHeader(p, udp + 8, udpLen, Xsk)
      else Unrelated
  }

  function ParseXdpHeader(p: seq<Octet>, payload: nat, udpLen: nat, path: Path): (r: Parsed) {
    if udpLen < 8 + HEADER_SIZE || payload + HEADER_SIZE > |p| then BadHeader
    else if !EnvelopeOk(p, payload) then BadHeader
    else Experiment(path, KeyAt(p, payload))
  }

  // ----- the receiver's parser

  datatype UdpInfo = UdpInfo(payload: nat, length: nat, port: nat)

  function PacketUdpInfo(p: seq<Octet>): (r: Option<UdpInfo>)
    ensures r.Some? ==> r.value.payload + r.value.length <= |p|
  {
    if |p| < 14 || Field(p, 12, 2) != ETHERTYPE_IPV4 || |p| < 34 then None
    else if p[14] / 16 != 4 || p[14] % 16 < 5 || p[23] != PROTOCOL_UDP then None
    else if Field(p, 20, 2) % 0x4000 != 0 then None
    else
      var ihl := 4 * (p[14] % 16);
      var ipLen := Field(p, 16, 2);
      if |p| < 14 + ihl + 8 || ipLen < ihl + 8 || ipLen > |p| - 14 then None
      else
        var udpLen := Field(p, 14 + ihl + 4, 2);
        if udpLen < 8 || udpLen > ipLen - ihl then None
        else Some(UdpInfo(14 + ihl + 8, udpLen - 8, Field(p, 14 + ihl + 2, 2)))
  }

  function ExperimentId(p: seq<Octet>, info: UdpInfo): (r: Option<Header>)
    requires info.payload + info.length <= |p|
  {
    if info.length < HEADER_SIZE || !EnvelopeOk(p, info.payload) then None
    else Some(Header(KeyAt(p, info.payload), Signed64(Field(p, info.payload + 24, 8))))
  }

  /** The UDP receiver's check of a datagram (udp_socket/src/receiver.c). */
  function UdpReceiverAccepts(d: seq<Octet>, expectedSize: nat, flow: nat): (r: Option<Header>)
    requires expectedSize >= HEADER_SIZE
  {
    if |d| != expectedSize || !EnvelopeOk(d, 0) || KeyAt(d, 0).flow != flow then None
    else Some(Header(KeyAt(d, 0), Signed64(Field(d, 24, 8))))
  }

  // ----- what a frame is, independently of either parser

  /** An Ethernet frame whose IPv4 packet (section 3.1 of RFC 791), unfragmented and with
      `ihl` octets of header, carries a UDP datagram (RFC 768) for `port`. */
  predicate CarriesUdp(p: seq<Octet>, ihl: nat, port: nat, payload: seq<Octet>) {
    && ihl % 4 == 0 && 20 <= ihl <= 60
    && 14 + ihl + 8 + |payload| <= |p|
    && Field(p, 12, 2) == ETHERTYPE_IPV4
    && p[14] == 0x40 + ihl / 4
    && ihl + 8 + |payload| <= Field(p, 16, 2) <= |p| - 14
    && Field(p, 20, 2) % 0x4000 == 0
    && p[23] == PROTOCOL_UDP
    && Field(p, 14 + ihl + 2, 2) == port
    && Field(p, 14 + ihl + 4, 2) == 8 + |payload|
    && p[14 + ihl + 8..14 + ihl + 8 + |payload|] == payload
  }

  /** The receiver's parser accepts exactly such frames. */
  lemma UserParserExact(p: seq<Octet>, info: UdpInfo)
    ensures PacketUdpInfo(p) == Some(info) <==>
              && 22 <= info.payload && info.payload + info.length <= |p|
              && CarriesUdp(p, info.payload - 22, info.port, p[info.payload..info.payload + info.length])
  {
    if |p| >= 34 {
      assert p[14] / 16 == 4 ==> p[14] == 0x40 + p[14] % 16;
    }
  }

  predicate ExperimentPort(port: nat) {
    port in {PASS_PORT, RT_PORT, XSK_PORT}
  }

  function PathOf(port: nat): (path: Path) {
    if port == RT_PORT then Cpumap else if port == XSK_PORT then Xsk else Pass
  }

  /** For every frame the classifier's verdict is the one the receiver's parsers give. */
  function Verdict(p: seq<Octet>): (r: Option<Parsed>) {
    var info := PacketUdpInfo(p);
    if info.None? || !ExperimentPort(info.value.port) then None
    else
      var id := ExperimentId(p, info.value);
      if id.None? then Some(BadHeader) else Some(Experiment(PathOf(info.value.port), id.value.key))
  }

  /** An unfragmented IPv4 packet, complete in the frame, with room for a UDP header. */
  predicate IpUdp(p: seq<Octet>) {
    && |p| >= 34 && Field(p, 12, 2) == ETHERTYPE_IPV4 && p[14] / 16 == 4 && p[14] % 16 >= 5
    && Field(p, 20, 2) % 0x4000 == 0 && p[23] == PROTOCOL_UDP
    && 4 * (p[14] % 16) + 8 <= Field(p, 16, 2) <= |p| - 14
  }

  lemma ClassifierNeedsIp(p: seq<Octet>)
    ensures if IpUdp(p) then ParseXdp(p) == ParseXdpUdp(p, 4 * (p[14] % 16), Field(p, 16, 2))
            else !ParseXdp(p).Experiment? && !ParseXdp(p).BadHeader?
  {
  }

  /** The UDP part of the receiver's parser. */
  function UdpPart(p: seq<Octet>, ihl: nat, ipLen: nat): Option<UdpInfo>
    requires ihl + 8 <= ipLen && 14 + ipLen <= |p|
  {
    var udpLen := Field(p, 14 + ihl + 4, 2);
    if udpLen < 8 || udpLen > ipLen - ihl then None else Some(UdpInfo(14 + ihl + 8, udpLen - 8, Field(p, 14 + ihl + 2, 2)))
  }

  lemma ReceiverNeedsIp(p: seq<Octet>)
    ensures PacketUdpInfo(p) == if IpUdp(p) then UdpPart(p, 4 * (p[14] % 16), Field(p, 16, 2)) else None
  {
  }

  lemma UdpPartsAgree(p: seq<Octet>, ihl: nat, ipLen: nat)
    requires ihl + 8 <= ipLen && 14 + ipLen <= |p|
    ensures var x, info := ParseXdpUdp(p, ihl, ipLen), UdpPart(p, ihl, ipLen);
            if info.None? || !ExperimentPort(info.value.port) then !x.Experiment? && !x.BadHeader?
            else
              info.value.payload + info.value.length <= |p|
              && var id := ExperimentId(p, info.value);
                 x == if id.None? then BadHeader else Experiment(PathOf(info.value.port), id.value.key)
  {
  }

  lemma ParsersAgree(p: seq<Octet>)
    ensures ParseXdp(p).Experiment? || ParseXdp(p).BadHeader? ==> Verdict(p) == Some(ParseXdp(p))
    ensures Verdict(p).Some? ==> ParseXdp(p) == Verdict(p).value
  {
    ClassifierNeedsIp(p);
    ReceiverNeedsIp(p);
    if IpUdp(p) {
      UdpPartsAgree(p, 4 * (p[14] % 16), Field(p, 16, 2));
    }
  }

  // ----- the verdicts on everything else

  /** The EtherType says IPv4. */
  predicate SaysIpv4(p: seq<Octet>) { |p| >= 14 && p[12] == 0x08 && p[13] == 0x00 }

  function Word(hi: int, lo: int): int { 256 * hi + lo }

  /** The header length an IPv4 version octet from 0x45 to 0x4f announces. */
  function HeaderLength(first: int): int { 4 * (first - 0x40) }

  /** A complete IPv4 packet: version 4, a header of at least 20 octets, and a total length that
      covers the header and lies inside the frame. */
  predicate WholeIpv4(p: seq<Octet>) {
    && SaysIpv4(p) && |p| >= 34 && 0x45 <= p[14] <= 0x4f
    && HeaderLength(p[14]) <= Word(p[16], p[17]) <= |p| - 14
  }

  /** More fragments follow, or this is not the first one. */
  predicate IsFragment(p: seq<Octet>)
    requires |p| >= 34
  {
    p[20] % 0x40 != 0 || p[21] != 0
  }

  predicate IsUdp(p: seq<Octet>)
    requires |p| >= 34
  {
    p[23] == 17
  }

  /** A UDP header and a datagram length inside the IPv4 packet. */
  predicate WholeUdp(p: seq<Octet>)
    requires WholeIpv4(p)
  {
    var at, end := 14 + HeaderLength(p[14]), 14 + Word(p[16], p[17]);
    at + 8 <= end && 8 <= Word(p[at + 4], p[at + 5]) <= end - at
  }

  function DestinationPort(p: seq<Octet>): nat
    requires WholeIpv4(p) && WholeUdp(p)
  {
    var at := 14 + HeaderLength(p[14]);
    Word(p[at + 2], p[at + 3])
  }

  lemma TwoOctets(p: seq<Octet>, at: nat)
    requires at + 2 <= |p|
    ensures Field(p, at, 2) == Word(p[at], p[at + 1])
  {
    var b := p[at..at + 2];
    assert b[..1] == [p[at]] && [p[at]][..0] == [];
    assert Value(b[..1]) == 256 * Value([]) + p[at];
  }

  lemma FragmentBits(hi: int, lo: int)
    requires 0 <= hi < 256 && 0 <= lo < 256
    ensures Word(hi, lo) % 0x4000 == 0 <==> hi % 0x40 == 0 && lo == 0
  {
    Remainder(hi / 0x40, Word(hi % 0x40, lo));
    assert Word(hi, lo) == 0x4000 * (hi / 0x40) + Word(hi % 0x40, lo);
  }

  lemma Remainder(q: int, x: int)
    requires 0 <= x < 0x4000
    ensures (0x4000 * q + x) % 0x4000 == x
  {
  }

  /** The classifier's verdict on every frame, octet by octet: malformed, a fragment, none of
      its business, or carrying something for an experiment port. */
  lemma VerdictMeans(p: seq<Octet>)
    ensures ParseXdp(p) == Fragment <==> WholeIpv4(p) && IsFragment(p)
    ensures ParseXdp(p) == InvalidIpv4 <==>
              SaysIpv4(p) && (!WholeIpv4(p) || (!IsFragment(p) && IsUdp(p) && !WholeUdp(p)))
    ensures ParseXdp(p) == Unrelated <==>
              || !SaysIpv4(p)
              || (WholeIpv4(p) && !IsFragment(p) && (!IsUdp(p) || (WholeUdp(p) && !ExperimentPort(DestinationPort(p)))))
  {
    if |p| >= 14 {
      TwoOctets(p, 12);
    }
    if |p| >= 34 && SaysIpv4(p) {
      TwoOctets(p, 16);
      TwoOctets(p, 20);
      FragmentBits(p[20], p[21]);
      LengthsMean(p[14]);
      if WholeIpv4(p) && !IsFragment(p) && IsUdp(p) {
        UdpVerdictMeans(p);
      }
    }
  }

  lemma LengthsMean(b: int)
    requires 0 <= b < 256
    ensures b / 16 == 4 && b % 16 >= 5 <==> 0x45 <= b <= 0x4f
    ensures b / 16 == 4 ==> 4 * (b % 16) == HeaderLength(b)
  {
  }

  lemma UdpVerdictMeans(p: seq<Octet>)
    requires WholeIpv4(p) && !IsFragment(p) && IsUdp(p)
    ensures ParseXdp(p) == InvalidIpv4 <==> !WholeUdp(p)
    ensures ParseXdp(p) == Unrelated <==> WholeUdp(p) && !ExperimentPort(DestinationPort(p))
    ensures ParseXdp(p) != Fragment
  {
    TwoOctets(p, 12);
    TwoOctets(p, 16);
    TwoOctets(p, 20);
    FragmentBits(p[20], p[21]);
    LengthsMean(p[14]);
    var ihl, ipLen := 4 * (p[14] % 16), Field(p, 16, 2);
    if ihl + 8 <= ipLen {
      TwoOctets(p, 14 + ihl + 2);
      TwoOctets(p, 14 + ihl + 4);
      ClassifierNeedsIp(p);
    }
  }

  // ----- the header survives the trip

  lemma FieldOf(p: seq<Octet>, at: nat, n: nat, width: nat)
    requires at + width <= |p| && p[at..at + width] == Octets(n, width) && n < Power256(width)
    ensures Field(p, at, width) == n
  {
    ValueOfOctets(n, width);
  }

  lemma Powers()
    ensures Power256(2) == 0x1_0000 && Power256(4) == 0x1_0000_0000 && Power256(8) == 0x1_0000_0000_0000_0000
  {
    assert Power256(1) == 256;
    assert Power256(3) == 256 * Power256(2);
    assert Power256(5) == 256 * Power256(4);
    assert Power256(6) == 256 * Power256(5);
    assert Power256(7) == 256 * Power256(6);
  }

  /** Seven pieces laid end to end. */
  lemma Pieces(a: seq<Octet>, b: seq<Octet>, c: seq<Octet>, d: seq<Octet>, e: seq<Octet>, f: seq<Octet>, g: seq<Octet>)
    requires |a| == |d| == |e| == 4 && |b| == |c| == 2 && |f| == |g| == 8
    ensures var w := a + b + c + d + e + f + g;
            && w[..4] == a && w[4..6] == b && w[6..8] == c && w[8..12] == d
            && w[12..16] == e && w[16..24] == f && w[24..32] == g
  {
  }

  lemma SliceOfSlice(p: seq<Octet>, at: nat, e: seq<Octet>, i: nat, j: nat)
    requires at + |e| <= |p| && p[at..at + |e|] == e && i <= j <= |e|
    ensures p[at + i..at + j] == e[i..j]
  {
    forall k | 0 <= k < j - i
      ensures p[at + i..at + j][k] == e[i..j][k]
    {
      assert p[at..at + |e|][i + k] == e[i + k];
    }
  }

  /** The parts of an encoded header, wherever it lies. */
  lemma EncodedParts(h: Header, p: seq<Octet>, at: nat)
    requires HeaderOk(h) && at + HEADER_SIZE <= |p| && p[at..at + HEADER_SIZE] == Encode(h)
    ensures p[at..at + 4] == Octets(MAGIC, 4) && p[at + 4..at + 6] == Octets(VERSION, 2)
    ensures p[at + 6..at + 8] == Octets(HEADER_SIZE, 2) && p[at + 8..at + 12] == Octets(h.key.flow, 4)
    ensures p[at + 12..at + 16] == Octets(0, 4) && p[at + 16..at + 24] == Octets(h.key.sequence, 8)
    ensures p[at + 24..at + 32] == Octets(Unsigned64(h.txTime), 8)
  {
    var e := Encode(h);
    Pieces(Octets(MAGIC, 4), Octets(VERSION, 2), Octets(HEADER_SIZE, 2), Octets(h.key.flow, 4), Octets(0, 4),
           Octets(h.key.sequence, 8), Octets(Unsigned64(h.txTime), 8));
    SliceOfSlice(p, at, e, 0, 4);
    SliceOfSlice(p, at, e, 4, 6);
    SliceOfSlice(p, at, e, 6, 8);
    SliceOfSlice(p, at, e, 8, 12);
    SliceOfSlice(p, at, e, 12, 16);
    SliceOfSlice(p, at, e, 16, 24);
    SliceOfSlice(p, at, e, 24, 32);
  }

  lemma EncodedHeaderReads(h: Header, p: seq<Octet>, at: nat)
    requires HeaderOk(h) && at + HEADER_SIZE <= |p| && p[at..at + HEADER_SIZE] == Encode(h)
    ensures EnvelopeOk(p, at) && KeyAt(p, at) == h.key && Signed64(Field(p, at + 24, 8)) == h.txTime
  {
    EncodedParts(h, p, at);
    Powers();
    FieldOf(p, at, MAGIC, 4);
    FieldOf(p, at + 4, VERSION, 2);
    FieldOf(p, at + 6, HEADER_SIZE, 2);
    FieldOf(p, at + 8, h.key.flow, 4);
    FieldOf(p, at + 12, 0, 4);
    FieldOf(p, at + 16, h.key.sequence, 8);
    FieldOf(p, at + 24, Unsigned64(h.txTime), 8);
  }

  lemma CarriedInfo(p: seq<Octet>, ihl: nat, port: nat, d: seq<Octet>)
    requires CarriesUdp(p, ihl, port, d)
    ensures PacketUdpInfo(p) == Some(UdpInfo(14 + ihl + 8, |d|, port))
  {
    UserParserExact(p, UdpInfo(14 + ihl + 8, |d|, port));
  }

  lemma IdOfHeader(p: seq<Octet>, info: UdpInfo, h: Header)
    requires info.payload + info.length <= |p| && info.length >= HEADER_SIZE
    requires EnvelopeOk(p, info.payload) && KeyAt(p, info.payload) == h.key && Signed64(Field(p, info.payload + 24, 8)) == h.txTime
    ensures ExperimentId(p, info) == Some(h)
  {
  }

  lemma VerdictOf(p: seq<Octet>, info: UdpInfo, h: Header)
    requires PacketUdpInfo(p) == Some(info) && ExperimentPort(info.port) && ExperimentId(p, info) == Some(h)
    ensures ParseXdp(p) == Experiment(PathOf(info.port), h.key)
  {
    assert Verdict(p) == Some(Experiment(PathOf(info.port), h.key));
    ParsersAgree(p);
  }

  /** A header written by the sender, followed by any filler, decodes to the same flow,
      sequence and send time at the classifier, the AF_XDP receiver and the UDP receiver,
      and a UDP receiver of another flow refuses it. */
  lemma HeaderRoundTrip(h: Header, d: seq<Octet>, p: seq<Octet>, ihl: nat, port: nat, flow: nat)
    requires HeaderOk(h) && ExperimentPort(port) && CarriesUdp(p, ihl, port, d)
    requires |d| >= HEADER_SIZE && d[..HEADER_SIZE] == Encode(h)
    ensures ParseXdp(p) == Experiment(PathOf(port), h.key)
    ensures PacketUdpInfo(p).Some? && ExperimentId(p, PacketUdpInfo(p).value) == Some(h)
    ensures UdpReceiverAccepts(d, |d|, flow) == if flow == h.key.flow then Some(h) else None
  {
    CarriedInfo(p, ihl, port, d);
    CarriedHeaderReads(h, d, p, ihl, port);
    VerdictOf(p, UdpInfo(14 + ihl + 8, |d|, port), h);
    UdpReaderAccepts(h, d, flow);
  }

  lemma CarriedHeaderReads(h: Header, d: seq<Octet>, p: seq<Octet>, ihl: nat, port: nat)
    requires HeaderOk(h) && |d| >= HEADER_SIZE && d[..HEADER_SIZE] == Encode(h)
    requires 14 + ihl + 8 + |d| <= |p| && p[14 + ihl + 8..14 + ihl + 8 + |d|] == d
    ensures ExperimentId(p, UdpInfo(14 + ihl + 8, |d|, port)) == Some(h)
  {
    var at := 14 + ihl + 8;
    HeaderSlice(h, d, p, at);
    EncodedHeaderReads(h, p, at);
    IdOfHeader(p, UdpInfo(at, |d|, port), h);
  }

  lemma HeaderSlice(h: Header, d: seq<Octet>, p: seq<Octet>, at: nat)
    requires HeaderOk(h) && |d| >= HEADER_SIZE && d[..HEADER_SIZE] == Encode(h)
    requires at + |d| <= |p| && p[at..at + |d|] == d
    ensures p[at..at + HEADER_SIZE] == Encode(h)
  {
    SliceOfSlice(p, at, d, 0, HEADER_SIZE);
  }

  lemma UdpReaderAccepts(h: Header, d: seq<Octet>, flow: nat)
    requires HeaderOk(h) && |d| >= HEADER_SIZE && d[..HEADER_SIZE] == Encode(h)
    ensures UdpReceiverAccepts(d, |d|, flow) == if flow == h.key.flow then Some(h) else None
  {
    EncodedHeaderReads(h, d, 0);
  }

  /** What lies at `at` is an encoded header with this key, up to its send time. */
  predicate KeyEncodedAt(p: seq<Octet>, at: nat, key: Key) {
    && at + HEADER_SIZE <= |p|
    && p[at..at + 4] == Octets(MAGIC, 4) && p[at + 4..at + 6] == Octets(VERSION, 2)
    && p[at + 6..at + 8] == Octets(HEADER_SIZE, 2) && p[at + 8..at + 12] == Octets(key.flow, 4)
    && p[at + 12..at + 16] == Octets(0, 4) && p[at + 16..at + 24] == Octets(key.sequence, 8)
  }

  lemma EnvelopeIsEncoded(p: seq<Octet>, at: nat)
    requires at + HEADER_SIZE <= |p| && EnvelopeOk(p, at)
    ensures KeyEncodedAt(p, at, KeyAt(p, at))
  {
    OctetsOfValue(p[at..at + 4]);
    OctetsOfValue(p[at + 4..at + 6]);
    OctetsOfValue(p[at + 6..at + 8]);
    OctetsOfValue(p[at + 8..at + 12]);
    OctetsOfValue(p[at + 12..at + 16]);
    OctetsOfValue(p[at + 16..at + 24]);
  }

  /** Conversely, whatever the classifier accepts is a UDP datagram for an experiment port
      that carries the encoding of that key, octet by octet, and of some send time. */
  lemma AcceptedPacketsAreEncodings(p: seq<Octet>)
    requires ParseXdp(p).Experiment?
    ensures PacketUdpInfo(p).Some?
    ensures var info := PacketUdpInfo(p).value;
            && info.length >= HEADER_SIZE && ExperimentPort(info.port) && ParseXdp(p).path == PathOf(info.port)
            && KeyEncodedAt(p, info.payload, ParseXdp(p).key)
  {
    ParsersAgree(p);
    EnvelopeIsEncoded(p, PacketUdpInfo(p).value.payload);
  }

  /** The octets of a header determine what is read from them. */
  lemma KeyEncodedReads(p: seq<Octet>, at: nat, key: Key)
    requires KeyEncodedAt(p, at, key) && key.flow < Power256(4) && key.sequence < Power256(8)
    ensures EnvelopeOk(p, at) && KeyAt(p, at) == key
  {
    Powers();
    FieldOf(p, at, MAGIC, 4);
    FieldOf(p, at + 4, VERSION, 2);
    FieldOf(p, at + 6, HEADER_SIZE, 2);
    FieldOf(p, at + 8, key.flow, 4);
    FieldOf(p, at + 12, 0, 4);
    FieldOf(p, at + 16, key.sequence, 8);
  }

  /** Whatever the UDP receiver takes has the expected size and carries the header of its own flow,
      and it takes every such datagram. */
  lemma UdpReceiverExact(d: seq<Octet>, expectedSize: nat, flow: nat)
    requires expectedSize >= HEADER_SIZE && flow < Power256(4)
    ensures UdpReceiverAccepts(d, expectedSize, flow).Some? <==>
              |d| == expectedSize && exists sequence: nat :: sequence < Power256(8) && KeyEncodedAt(d, 0, Key(flow, sequence))
    ensures UdpReceiverAccepts(d, expectedSize, flow).Some? ==>
              UdpReceiverAccepts(d, expectedSize, flow).value.key.flow == flow
  {
    if |d| == expectedSize && EnvelopeOk(d, 0) && KeyAt(d, 0).flow == flow {
      EnvelopeIsEncoded(d, 0);
      OctetsOfValue(d[16..24]);
      assert KeyEncodedAt(d, 0, Key(flow, KeyAt(d, 0).sequence));
    }
    forall sequence: nat | |d| == expectedSize && sequence < Power256(8) && KeyEncodedAt(d, 0, Key(flow, sequence))
      ensures UdpReceiverAccepts(d, expectedSize, flow).Some?
    {
      KeyEncodedReads(d, 0, Key(flow, sequence));
    }
  }

  /** The classifier accepts a frame for a key exactly if it is a UDP datagram for an experiment
      port that starts with that key's header. */
  lemma ClassifierExact(p: seq<Octet>, path: Path, key: Key)
    requires key.flow < Power256(4) && key.sequence < Power256(8)
    ensures ParseXdp(p) == Experiment(path, key) <==>
              && PacketUdpInfo(p).Some?
              && var info := PacketUdpInfo(p).value;
                 info.length >= HEADER_SIZE && ExperimentPort(info.port) && path == PathOf(info.port) && KeyEncodedAt(p, info.payload, key)
  {
    if ParseXdp(p) == Experiment(path, key) {
      AcceptedPacketsAreEncodings(p);
    }
    if PacketUdpInfo(p).Some? && PacketUdpInfo(p).value.length >= HEADER_SIZE && KeyEncodedAt(p, PacketUdpInfo(p).value.payload, key) {
      KeyEncodedReads(p, PacketUdpInfo(p).value.payload, key);
      ParsersAgree(p);
    }
  }
}
