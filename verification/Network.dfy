/** The UDP path of the network service (userspace/src/bin/network_service.rs): frames are built and
    taken apart inside one shared buffer. */
module Network {
  import opened Basics
  import opened Checksum

  const OUR_IP: seq<Byte> := [10, 0, 2, 15]
  const BROADCAST_IP: seq<Byte> := [255, 255, 255, 255]

  const MSG_NET_TX: nat := 101
  const MSG_UDP_RECV: nat := 105
  const CAP_NIC_DRIVER_EP: nat := 11

  /** The shared buffer: received frames at its start, frames to send in the middle, payloads behind. */
  const BUFFER_BYTES: nat := 4096
  const TX: nat := 2048
  const PAYLOAD: nat := 3072

  function Be16(x: nat): (b: seq<Byte>)
    requires x < 65536
    ensures |b| == 2
  {
    [x / 256, x % 256]
  }

  function From16(b: seq<Byte>, i: nat): (x: nat)
    requires i + 1 < |b|
    ensures x < 65536
  {
    b[i] as int * 256 + b[i + 1]
  }

  function Be32(x: nat): (b: seq<Byte>)
    requires x < U32
    ensures |b| == 4
  {
    [x / 16777216, x / 65536 % 256, x / 256 % 256, x % 256]
  }

  function From32(b: seq<Byte>): nat
    requires |b| == 4
  {
    b[0] as int * 16777216 + b[1] as int * 65536 + b[2] as int * 256 + b[3]
  }

  lemma Be32Reads(x: nat)
    requires x < U32
    ensures From32(Be32(x)) == x
  {
    var high, mid := x / 65536, x / 256;
    assert high == x / 16777216 * 256 + high % 256;
    assert mid == high * 256 + mid % 256;
    assert x == mid * 256 + x % 256;
  }

  // ---- frames ----

  function IpFields(total: nat, dest: seq<Byte>): (h: seq<Byte>)
    requires total < 65536 && |dest| == 4
    ensures |h| == 20
  {
    [0x45, 0] + Be16(total) + [0, 0, 0x40, 0, 64, 17, 0, 0] + OUR_IP + dest
  }

  /** The IPv4 header with its checksum in place. */
  function IpHeader(total: nat, dest: seq<Byte>): (h: seq<Byte>)
    requires total < 65536 && |dest| == 4
    ensures |h| == 20
  {
    var fields := IpFields(total, dest);
    Stored(fields, 10, 65535 - OnesSum(fields, 0))
  }

  function UdpHeader(srcPort: nat, destPort: nat, len: nat): (h: seq<Byte>)
    requires srcPort < 65536 && destPort < 65536 && len < 65536
    ensures |h| == 8
  {
    Be16(srcPort) + Be16(destPort) + Be16(len) + [0, 0]
  }

  function EthHeader(dest: seq<Byte>, src: seq<Byte>): (h: seq<Byte>)
    requires |dest| == 6 && |src| == 6
    ensures |h| == 14
  {
    dest + src + [8, 0]
  }

  /** The headers of a frame that carries `len` bytes; the length fields hold what fits into sixteen bits. */
  function Headers(gateway: seq<Byte>, mac: seq<Byte>, destIp: seq<Byte>, destPort: nat, srcPort: nat,
                   len: nat): (h: seq<Byte>)
    requires |gateway| == 6 && |mac| == 6 && |destIp| == 4 && destPort < 65536 && srcPort < 65536
    ensures |h| == 42
  {
    EthHeader(gateway, mac) + IpHeader((28 + len) % 65536, destIp) + UdpHeader(srcPort, destPort, (8 + len) % 65536)
  }

  /** A complete frame. */
  function UdpFrame(gateway: seq<Byte>, mac: seq<Byte>, destIp: seq<Byte>, destPort: nat, srcPort: nat,
                    payload: seq<Byte>): (f: seq<Byte>)
    requires |gateway| == 6 && |mac| == 6 && |destIp| == 4 && destPort < 65536 && srcPort < 65536 && |payload| < 65508
    ensures |f| == 42 + |payload|
  {
    Headers(gateway, mac, destIp, destPort, srcPort, |payload|) + payload
  }

  /** The header checksum of every frame verifies to zero (section 3.1 of RFC 791). */
  lemma IpHeaderVerifies(total: nat, dest: seq<Byte>)
    requires total < 65536 && |dest| == 4
    ensures 65535 - OnesSum(IpHeader(total, dest), 0) == 0
  {
    StoredChecksumVerifies(IpFields(total, dest), 10);
  }

  /** The headers byte by byte: Ethernet, IPv4 with a checksum that makes the ones' complement sum of the header all
      ones, and UDP without a checksum. */
  ghost predicate WireHeaders(h: seq<Byte>, gateway: seq<Byte>, mac: seq<Byte>, destIp: nat, destPort: nat,
                              srcPort: nat, len: nat) {
    && |h| == 42 && h[0..6] == gateway && h[6..12] == mac && h[12] == 8 && h[13] == 0
    && h[14] == 0x45 && h[15] == 0 && h[16] as int * 256 + h[17] as int == (28 + len) % 65536
    && h[18] == 0 && h[19] == 0 && h[20] == 0x40 && h[21] == 0 && h[22] == 64 && h[23] == 17
    && OnesSum(h[14..34], 0) == 65535
    && h[26] == 10 && h[27] == 0 && h[28] == 2 && h[29] == 15
    && h[30] as int * 16777216 + h[31] as int * 65536 + h[32] as int * 256 + h[33] as int == destIp
    && h[34] as int * 256 + h[35] as int == srcPort && h[36] as int * 256 + h[37] as int == destPort
    && h[38] as int * 256 + h[39] as int == (8 + len) % 65536 && h[40] == 0 && h[41] == 0
  }

  lemma HeadersOnWire(gateway: seq<Byte>, mac: seq<Byte>, destIp: nat, destPort: nat, srcPort: nat, len: nat)
    requires |gateway| == 6 && |mac| == 6 && destIp < U32 && destPort < 65536 && srcPort < 65536
    ensures WireHeaders(Headers(gateway, mac, Be32(destIp), destPort, srcPort, len), gateway, mac, destIp, destPort,
                        srcPort, len)
  {
    var total, udpLen, h := (28 + len) % 65536, (8 + len) % 65536,
        Headers(gateway, mac, Be32(destIp), destPort, srcPort, len);
    var eth, ip, udp := EthHeader(gateway, mac), IpHeader(total, Be32(destIp)), UdpHeader(srcPort, destPort, udpLen);
    assert h[14..34] == ip;
    IpHeaderVerifies(total, Be32(destIp));
    IpOnWire(total, Be32(destIp));
    Be32Reads(destIp);
    assert h[..14] == eth && h[34..] == udp;
    assert forall i :: 0 <= i < 20 ==> h[14 + i] == ip[i];
    assert forall i :: 0 <= i < 8 ==> h[34 + i] == udp[i];
  }

  lemma IpOnWire(total: nat, dest: seq<Byte>)
    requires total < 65536 && |dest| == 4
    ensures var h := IpHeader(total, dest);
            && h[0] == 0x45 && h[1] == 0 && h[2] as int * 256 + h[3] as int == total
            && h[4] == 0 && h[5] == 0 && h[6] == 0x40 && h[7] == 0 && h[8] == 64 && h[9] == 17
            && h[12] == 10 && h[13] == 0 && h[14] == 2 && h[15] == 15
            && h[16] == dest[0] && h[17] == dest[1] && h[18] == dest[2] && h[19] == dest[3]
  {
  }

  // ---- taking a frame apart ----

  /** `Panicked` is the out-of-range slice taken when the header length exceeds the packet; `at` is where the
      payload starts in the bytes given. */
  datatype Received =
    | Ignored
    | Panicked
    | Datagram(payload: seq<Byte>, srcIp: nat, srcPort: nat, destPort: nat, at: nat)

  function ParseUdp(packet: seq<Byte>, srcIp: seq<Byte>, at: nat): Received
    requires |srcIp| == 4
  {
    if |packet| < 8 then Ignored
    else
      var length := From16(packet, 4);
      if length > |packet| || length < 8 then Ignored
      else Datagram(packet[8..length], From32(srcIp), From16(packet, 0), From16(packet, 2), at + 8)
  }

  function ParseIpv4(packet: seq<Byte>, at: nat): Received {
    if |packet| < 20 then Ignored
    else if packet[16..20] != OUR_IP && packet[16..20] != BROADCAST_IP then Ignored
    else if packet[9] != 17 then Ignored
    else
      var ihl := packet[0] % 16 * 4;
      if ihl > |packet| then Panicked else ParseUdp(packet[ihl..], packet[12..16], at + ihl)
  }

  /** Frames of other types, address resolution included, are not datagrams. */
  function ParseFrame(packet: seq<Byte>): Received {
    if |packet| < 14 then Ignored
    else if From16(packet, 12) == 0x0800 then ParseIpv4(packet[14..], 14)
    else Ignored
  }

  /** The bytes of a frame that make it an IPv4 packet for us or for everyone carrying UDP. */
  predicate ForUs(packet: seq<Byte>) {
    && |packet| >= 34 && packet[12] == 8 && packet[13] == 0 && packet[23] == 17
    && (packet[30..34] == [10, 0, 2, 15] || packet[30..34] == [255, 255, 255, 255])
  }

  /** Where the UDP header starts, and its length field. */
  function UdpStart(packet: seq<Byte>): nat
    requires |packet| >= 34
  {
    14 + packet[14] % 16 * 4
  }

  predicate HasDatagram(packet: seq<Byte>) {
    ForUs(packet) &&
    var u := UdpStart(packet);
    u + 8 <= |packet| && 8 <= packet[u + 4] as int * 256 + packet[u + 5] as int <= |packet| - u
  }

  /** Every frame, byte by byte: which ones hold a datagram, what it is, and which ones panic. */
  lemma ReceivedExact(packet: seq<Byte>)
    ensures ParseFrame(packet).Panicked? <==> ForUs(packet) && UdpStart(packet) > |packet|
    ensures ParseFrame(packet).Datagram? <==> HasDatagram(packet)
    ensures HasDatagram(packet) ==>
              var d, u := ParseFrame(packet), UdpStart(packet);
              && d.payload == packet[u + 8..u + (packet[u + 4] as int * 256 + packet[u + 5] as int)]
              && d.srcIp == packet[26] as int * 16777216 + packet[27] as int * 65536 + packet[28] as int * 256
                            + packet[29] as int
              && d.srcPort == packet[u] as int * 256 + packet[u + 1] as int
              && d.destPort == packet[u + 2] as int * 256 + packet[u + 3] as int
              && d.at == u + 8
  {
    if |packet| >= 34 {
      var ip := packet[14..];
      assert ip[16..20] == packet[30..34] && ip[12..16] == packet[26..30];
      var u := UdpStart(packet);
      if u <= |packet| {
        var udp := ip[u - 14..];
        assert udp == packet[u..];
        assert From32(packet[26..30]) == packet[26] as int * 16777216 + packet[27] as int * 65536
                                         + packet[28] as int * 256 + packet[29] as int;
      }
    }
  }

  lemma UdpReads(srcPort: nat, destPort: nat, payload: seq<Byte>, pad: seq<Byte>, srcIp: seq<Byte>, at: nat)
    requires srcPort < 65536 && destPort < 65536 && |payload| < 65508 && |srcIp| == 4
    ensures ParseUdp(UdpHeader(srcPort, destPort, 8 + |payload|) + payload + pad, srcIp, at)
         == Datagram(payload, From32(srcIp), srcPort, destPort, at + 8)
  {
  }

  lemma Ipv4Reads(total: nat, dest: seq<Byte>, body: seq<Byte>, at: nat)
    requires total < 65536 && |dest| == 4
    ensures ParseIpv4(IpHeader(total, dest) + body, at)
         == if dest == OUR_IP || dest == BROADCAST_IP then ParseUdp(body, OUR_IP, at + 20) else Ignored
  {
    var h := IpHeader(total, dest);
    var packet := h + body;
    assert packet[0] == 0x45 && packet[9] == 17;
    assert packet[12..16] == OUR_IP;
    assert packet[16..20] == dest;
    assert packet[20..] == body;
  }

  /** A frame that `send_udp` builds, fed back with any padding, is received as the datagram that was sent if
      it is addressed to us or to everyone, and is ignored otherwise. */
  lemma UdpRoundTrip(gateway: seq<Byte>, mac: seq<Byte>, destIp: seq<Byte>, destPort: nat, srcPort: nat,
                     payload: seq<Byte>, pad: seq<Byte>)
    requires |gateway| == 6 && |mac| == 6 && |destIp| == 4 && destPort < 65536 && srcPort < 65536 && |payload| < 65508
    ensures ParseFrame(UdpFrame(gateway, mac, destIp, destPort, srcPort, payload) + pad)
         == if destIp == OUR_IP || destIp == BROADCAST_IP
            then Datagram(payload, From32(OUR_IP), srcPort, destPort, 42) else Ignored
  {
    assert (28 + |payload|) % 65536 == 28 + |payload| && (8 + |payload|) % 65536 == 8 + |payload|;
    var eth, ip := EthHeader(gateway, mac), IpHeader(28 + |payload|, destIp);
    var udp := UdpHeader(srcPort, destPort, 8 + |payload|);
    var packet := UdpFrame(gateway, mac, destIp, destPort, srcPort, payload) + pad;
    var body := udp + payload + pad;
    assert packet[14..] == ip + body;
    assert packet[12] == 8 && packet[13] == 0;
    Ipv4Reads(28 + |payload|, destIp, body, 14);
    UdpReads(srcPort, destPort, payload, pad, OUR_IP, 34);
  }

  // ---- the service ----

  function Overwrite(s: seq<Byte>, at: nat, bytes: seq<Byte>): (r: seq<Byte>)
    requires at + |bytes| <= |s|
    ensures |r| == |s|
    ensures forall i :: 0 <= i < |s| ==> r[i] == if at <= i < at + |bytes| then bytes[i - at] else s[i]
  {
    s[..at] + bytes + s[at + |bytes|..]
  }

  lemma OverwriteNext(s: seq<Byte>, at: nat, a: seq<Byte>, b: seq<Byte>)
    requires at + |a| + |b| <= |s|
    ensures Overwrite(Overwrite(s, at, a), at + |a|, b) == Overwrite(s, at, a + b)
  {
  }

  lemma OverwriteInside(s: seq<Byte>, at: nat, a: seq<Byte>, k: nat, b: seq<Byte>)
    requires at + |a| <= |s| && k + |b| <= |a|
    ensures Overwrite(Overwrite(s, at, a), at + k, b) == Overwrite(s, at, Overwrite(a, k, b))
  {
  }

  lemma ReadBack(s: seq<Byte>, at: nat, a: seq<Byte>)
    requires at + |a| <= |s|
    ensures Overwrite(s, at, a)[at..at + |a|] == a
  {
  }

  lemma ChecksumInPlace(fields: seq<Byte>, sum: nat)
    requires |fields| == 20 && sum < 65536
    ensures Overwrite(fields, 10, Be16(sum)) == Stored(fields, 10, sum)
  {
  }

  lemma PayloadKept(s: seq<Byte>, a: seq<Byte>, len: nat)
    requires |s| == BUFFER_BYTES && TX + |a| <= PAYLOAD && PAYLOAD + len <= BUFFER_BYTES
    ensures Overwrite(s, TX, a)[PAYLOAD..PAYLOAD + len] == s[PAYLOAD..PAYLOAD + len]
  {
  }

  /** What sending comes to. `Overlapping`: the copy of the payload runs into its own source. `PastBuffer`: the
      payload is read from behind the buffer. Both leave the bytes copied undefined, and the frame is sent all the
      same. `OutOfRange`: the frame exceeds 1500 bytes, which panics once the headers are written. */
  datatype Sending = NoGateway | Sent | Overlapping | PastBuffer | OutOfRange

  const TX_BYTES: nat := 1500

  /** Byte `i` of the buffer is written by the copy of a payload of `len` bytes, or read by it. */
  predicate Copied(len: nat, i: nat) { TX + 42 <= i < TX + 42 + len }
  predicate CopiedFrom(len: nat, i: nat) { PAYLOAD <= i < PAYLOAD + len }

  ghost function SendingOf(resolved: bool, len: nat): Sending {
    if !resolved then NoGateway
    else if 42 + len > TX_BYTES then OutOfRange
    else if exists i: nat :: CopiedFrom(len, i) && i >= BUFFER_BYTES then PastBuffer
    else if exists i: nat :: Copied(len, i) && CopiedFrom(len, i) then Overlapping
    else Sent
  }

  /** The copy is clear of its source if and only if the payload has at most 982 bytes, and inside the buffer if
      and only if it has at most 1024. */
  lemma SendingExact(len: nat)
    ensures (forall i: nat :: !(Copied(len, i) && CopiedFrom(len, i))) <==> len <= 982
    ensures (forall i: nat :: CopiedFrom(len, i) ==> i < BUFFER_BYTES) <==> len <= 1024
    ensures SendingOf(true, len) == if len <= 982 then Sent else if len <= 1024 then Overlapping
                                    else if len <= 1458 then PastBuffer else OutOfRange
  {
    if len > 982 {
      assert Copied(len, PAYLOAD) && CopiedFrom(len, PAYLOAD);
    }
    if len > 1024 {
      assert CopiedFrom(len, BUFFER_BYTES);
    }
  }

  /** With one byte more the last byte of the frame falls on the first byte of the payload. */
  lemma FirstOverlap()
    ensures Copied(983, PAYLOAD) && CopiedFrom(983, PAYLOAD) && SendingOf(true, 983) == Overlapping
    ensures !Copied(982, PAYLOAD) && SendingOf(true, 982) == Sent
  {
    SendingExact(982);
    SendingExact(983);
  }

  /** What a received frame comes to. `Overrun`: the copy of the payload runs past the end of the buffer, where the
      fault on the next page ends the service; what it has written by then is undefined. */
  datatype Receiving = Nothing | Crashed | Overrun | Delivered(payload: seq<Byte>, notice: (nat, Message))

  const PAYLOAD_BYTES: nat := BUFFER_BYTES - PAYLOAD

  /** The copy of `n` bytes from offset `at` to the payload area stays in the buffer and clear of its source. */
  predicate CopyFits(at: nat, n: nat) {
    n == 0 || (PAYLOAD + n <= BUFFER_BYTES && (at + n <= PAYLOAD || PAYLOAD + n <= at))
  }

  /** A datagram is delivered if and only if it is for the bound port, an endpoint is bound and its payload fits. */
  function ReceivingOf(received: Received, boundPort: nat, boundEp: nat): Receiving {
    match received
    case Ignored => Nothing
    case Panicked => Crashed
    case Datagram(payload, srcIp, srcPort, destPort, at) =>
      if destPort != boundPort || boundEp == 0 then Nothing
      else if !CopyFits(at, |payload|) then Overrun
      else Delivered(payload, (boundEp, Message(MSG_UDP_RECV, |payload|, srcIp, srcPort, 0, 0)))
  }

  /** In every frame the payload starts within the first 82 bytes, so the copy is sound if and only if the payload
      has at most 1024 bytes. */
  lemma CopyFitsExact(packet: seq<Byte>)
    requires ParseFrame(packet).Datagram?
    ensures var d := ParseFrame(packet); d.at <= 82 && (CopyFits(d.at, |d.payload|) <==> |d.payload| <= PAYLOAD_BYTES)
  {
  }

  /** The two addresses accepted, as words. */
  lemma AcceptedAddress(ip: nat)
    requires ip < U32
    ensures Be32(ip) == OUR_IP || Be32(ip) == BROADCAST_IP <==> ip == 0x0A00020F || ip == 0xFFFFFFFF
    ensures From32(OUR_IP) == 0x0A00020F
  {
    Be32Reads(ip);
    assert Be32(0x0A00020F) == OUR_IP && Be32(0xFFFFFFFF) == BROADCAST_IP;
  }

  /** A frame for us or for everyone, to the bound port, delivers its payload as it was sent, with its length, source
      address and port, if and only if the payload has at most 1024 bytes; a longer one ends the service; a frame for
      another address or port is not delivered. */
  lemma UdpDelivered(gateway: seq<Byte>, mac: seq<Byte>, destIp: nat, destPort: nat, srcPort: nat,
                     payload: seq<Byte>, pad: seq<Byte>, boundPort: nat, boundEp: nat)
    requires |gateway| == 6 && |mac| == 6 && destIp < U32 && destPort < 65536 && srcPort < 65536 && |payload| < 65508
    ensures var frame := UdpFrame(gateway, mac, Be32(destIp), destPort, srcPort, payload) + pad;
            var accepted := (destIp == 0x0A00020F || destIp == 0xFFFFFFFF) && destPort == boundPort && boundEp != 0;
            ReceivingOf(ParseFrame(frame), boundPort, boundEp)
            == if !accepted then Nothing
               else if |payload| > 1024 then Overrun
               else Delivered(payload, (boundEp, Message(105, |payload|, 0x0A00020F, srcPort, 0, 0)))
  {
    UdpRoundTrip(gateway, mac, Be32(destIp), destPort, srcPort, payload, pad);
    AcceptedAddress(destIp);
  }

  /** The length of the payload a frame with a datagram declares. */
  function DeclaredLength(packet: seq<Byte>): nat
    requires HasDatagram(packet)
  {
    var u := UdpStart(packet);
    packet[u + 4] as int * 256 + packet[u + 5] as int - 8
  }

  /** The frame has a datagram for the bound port, and an endpoint is bound. */
  predicate Wanted(packet: seq<Byte>, boundPort: nat, boundEp: nat) {
    HasDatagram(packet) && boundEp != 0 &&
    var u := UdpStart(packet);
    packet[u + 2] as int * 256 + packet[u + 3] as int == boundPort
  }

  /** What every frame comes to, byte by byte. */
  lemma DeliveredExact(packet: seq<Byte>, boundPort: nat, boundEp: nat)
    ensures var r := ReceivingOf(ParseFrame(packet), boundPort, boundEp);
            && (r.Delivered? <==> Wanted(packet, boundPort, boundEp) && DeclaredLength(packet) <= 1024)
            && (r.Overrun? <==> Wanted(packet, boundPort, boundEp) && DeclaredLength(packet) > 1024)
            && (r.Crashed? <==> ForUs(packet) && UdpStart(packet) > |packet|)
            && (r.Delivered? ==>
                  var u, n := UdpStart(packet), DeclaredLength(packet);
                  var srcIp := packet[26] as int * 16777216 + packet[27] as int * 65536 + packet[28] as int * 256
                               + packet[29] as int;
                  && r.payload == packet[u + 8..u + 8 + n]
                  && r.notice
                     == (boundEp, Message(105, n, srcIp, packet[u] as int * 256 + packet[u + 1] as int, 0, 0)))
  {
    ReceivedExact(packet);
    if HasDatagram(packet) {
      CopyFitsExact(packet);
    }
  }

  /** With one byte more than 1024 a datagram for the bound port is not delivered but ends the service. */
  lemma FirstOverrun(gateway: seq<Byte>, mac: seq<Byte>, destPort: nat, srcPort: nat, payload: seq<Byte>, boundEp: nat)
    requires |gateway| == 6 && |mac| == 6 && destPort < 65536 && srcPort < 65536 && |payload| == 1025 && boundEp != 0
    ensures ReceivingOf(ParseFrame(UdpFrame(gateway, mac, OUR_IP, destPort, srcPort, payload)), destPort, boundEp)
            == Overrun
    ensures ReceivingOf(ParseFrame(UdpFrame(gateway, mac, OUR_IP, destPort, srcPort, payload[1..])), destPort,
                        boundEp).Delivered?
  {
    UdpRoundTrip(gateway, mac, OUR_IP, destPort, srcPort, payload, []);
    UdpRoundTrip(gateway, mac, OUR_IP, destPort, srcPort, payload[1..], []);
    var long, short := UdpFrame(gateway, mac, OUR_IP, destPort, srcPort, payload),
        UdpFrame(gateway, mac, OUR_IP, destPort, srcPort, payload[1..]);
    assert long + [] == long && short + [] == short;
  }

  /** Only the frame area changed, and it holds the frame: the headers, then the payload. */
  ghost predicate OnWire(before: seq<Byte>, after: seq<Byte>, gateway: seq<Byte>, mac: seq<Byte>, destIp: nat,
                         destPort: nat, srcPort: nat, payload: seq<Byte>) {
    && |before| == 4096 && |after| == 4096 && 2090 + |payload| <= 4096
    && after[..2048] == before[..2048] && after[2090 + |payload|..] == before[2090 + |payload|..]
    && WireHeaders(after[2048..2090], gateway, mac, destIp, destPort, srcPort, |payload|)
    && after[2090..2090 + |payload|] == payload
  }

  /** The buffer after a frame was built in it. */
  ghost predicate Built(before: seq<Byte>, after: seq<Byte>, gateway: seq<Byte>, mac: seq<Byte>, destIp: nat,
                        destPort: nat, srcPort: nat, payload: seq<Byte>)
    requires |gateway| == 6 && |mac| == 6 && destIp < U32 && destPort < 65536 && srcPort < 65536
    requires |before| == BUFFER_BYTES && |payload| <= 1458
  {
    && after == Overwrite(before, TX, UdpFrame(gateway, mac, Be32(destIp), destPort, srcPort, payload))
    && OnWire(before, after, gateway, mac, destIp, destPort, srcPort, payload)
  }

  lemma FrameOnWire(before: seq<Byte>, gateway: seq<Byte>, mac: seq<Byte>, destIp: nat, destPort: nat, srcPort: nat,
                    payload: seq<Byte>)
    requires |gateway| == 6 && |mac| == 6 && destIp < U32 && destPort < 65536 && srcPort < 65536
    requires |before| == BUFFER_BYTES && |payload| <= 1458
    ensures Built(before, Overwrite(before, TX, UdpFrame(gateway, mac, Be32(destIp), destPort, srcPort, payload)),
                  gateway, mac, destIp, destPort, srcPort, payload)
  {
    var headers := Headers(gateway, mac, Be32(destIp), destPort, srcPort, |payload|);
    var after := Overwrite(before, TX, UdpFrame(gateway, mac, Be32(destIp), destPort, srcPort, payload));
    HeadersOnWire(gateway, mac, destIp, destPort, srcPort, |payload|);
    assert after[2048..2090] == headers;
  }

  class NetworkService {
    var buf: array<Byte>
    var ourMac: seq<Byte>
    var gatewayMac: seq<Byte>
    var gatewayResolved: bool
    var boundPort: nat
    var boundEp: nat
    /** Messages sent, with the endpoint handle used. */
    var outbox: seq<(nat, Message)>

    ghost predicate Valid()
      reads this
    {
      buf.Length == BUFFER_BYTES && |ourMac| == 6 && |gatewayMac| == 6
    }

    constructor ()
      ensures Valid() && fresh(buf) && !gatewayResolved && boundPort == 0 && boundEp == 0 && outbox == []
    {
      buf := new Byte[BUFFER_BYTES](_ => 0);
      ourMac, gatewayMac, gatewayResolved := [0, 0, 0, 0, 0, 0], [0, 0, 0, 0, 0, 0], false;
      boundPort, boundEp, outbox := 0, 0, [];
    }

    method Write(at: nat, bytes: seq<Byte>)
      requires at + |bytes| <= buf.Length
      modifies buf
      ensures buf[..] == Overwrite(old(buf[..]), at, bytes)
    {
      var i := 0;
      while i < |bytes|
        invariant i <= |bytes|
        invariant buf[..] == Overwrite(old(buf[..]), at, bytes[..i])
      {
        buf[at + i] := bytes[i];
        i := i + 1;
      }
      assert bytes[..|bytes|] == bytes;
    }

    method WriteEthHeader()
      requires Valid()
      modifies buf
      ensures buf[..] == Overwrite(old(buf[..]), TX, EthHeader(gatewayMac, ourMac))
    {
      ghost var start := buf[..];
      Write(TX, gatewayMac);
      Write(TX + 6, ourMac);
      OverwriteNext(start, TX, gatewayMac, ourMac);
      Write(TX + 12, [8, 0]);
      OverwriteNext(start, TX, gatewayMac + ourMac, [8, 0]);
    }

    /** The fields with a zero checksum first, then the checksum of what is in the buffer. */
    method WriteIpHeader(total: nat, destIp: nat)
      requires Valid() && destIp < U32 && total < 65536
      modifies buf
      ensures buf[..] == Overwrite(old(buf[..]), TX + 14, IpHeader(total, Be32(destIp)))
    {
      ghost var start := buf[..];
      var fields := IpFields(total, Be32(destIp));
      Write(TX + 14, fields);
      ReadBack(start, TX + 14, fields);
      var sum := ComputeChecksum(buf[TX + 14..TX + 34]);
      ChecksumIsOnesComplement(fields);
      Write(TX + 24, Be16(sum));
      OverwriteInside(start, TX + 14, fields, 10, Be16(sum));
      ChecksumInPlace(fields, sum);
    }

    method WriteHeaders(destIp: nat, destPort: nat, srcPort: nat, len: nat)
      requires Valid() && destIp < U32 && destPort < 65536 && srcPort < 65536
      modifies buf
      ensures buf[..] == Overwrite(old(buf[..]), TX, Headers(gatewayMac, ourMac, Be32(destIp), destPort, srcPort, len))
    {
      ghost var start := buf[..];
      var total, udpLen := (28 + len) % 65536, (8 + len) % 65536;
      WriteEthHeader();
      WriteIpHeader(total, destIp);
      ghost var eth, ip := EthHeader(gatewayMac, ourMac), IpHeader(total, Be32(destIp));
      OverwriteNext(start, TX, eth, ip);
      Write(TX + 34, UdpHeader(srcPort, destPort, udpLen));
      OverwriteNext(start, TX, eth + ip, UdpHeader(srcPort, destPort, udpLen));
    }

    /** The payload goes behind the headers, which completes the frame. */
    method AppendPayload(ghost start: seq<Byte>, ghost destIp: nat, ghost destPort: nat, ghost srcPort: nat,
                         payload: seq<Byte>)
      requires Valid() && destIp < U32 && destPort < 65536 && srcPort < 65536
      requires |payload| <= 1458 && |start| == BUFFER_BYTES
      requires buf[..]
            == Overwrite(start, TX, Headers(gatewayMac, ourMac, Be32(destIp), destPort, srcPort, |payload|))
      modifies buf
      ensures Built(start, buf[..], gatewayMac, ourMac, destIp, destPort, srcPort, payload)
    {
      Write(TX + 42, payload);
      OverwriteNext(start, TX, Headers(gatewayMac, ourMac, Be32(destIp), destPort, srcPort, |payload|), payload);
      FrameOnWire(start, gatewayMac, ourMac, destIp, destPort, srcPort, payload);
    }

    /** Builds the frame in the transmit area from the payload the application left behind it and sends it;
        `undefined` is what the copy produces where it is undefined. */
    method SendUdp(destIp: nat, destPort: nat, srcPort: nat, len: nat, undefined: seq<Byte>) returns (ghost r: Sending)
      requires Valid() && destIp < U32 && destPort < 65536 && srcPort < 65536 && |undefined| == len
      modifies buf, this`outbox
      ensures r == SendingOf(gatewayResolved, len)
      ensures r == NoGateway || r == OutOfRange ==> outbox == old(outbox)
      ensures r == NoGateway ==> buf[..] == old(buf[..])
      ensures r == OutOfRange ==>
        buf[..] == Overwrite(old(buf[..]), TX, Headers(gatewayMac, ourMac, Be32(destIp), destPort, srcPort, len))
      ensures r == Sent ==>
        && len <= 982
        && Built(old(buf[..]), buf[..], gatewayMac, ourMac, destIp, destPort, srcPort, old(buf[3072..3072 + len]))
      ensures r == Overlapping || r == PastBuffer ==>
        && len <= 1458
        && Built(old(buf[..]), buf[..], gatewayMac, ourMac, destIp, destPort, srcPort, undefined)
      ensures r == Sent || r == Overlapping || r == PastBuffer ==>
        outbox == old(outbox) + [(11, Message(101, 42 + len, 0, 0, 0, 0))]
    {
      r := SendingOf(gatewayResolved, len);
      SendingExact(len);
      if !gatewayResolved {
        return;
      }
      ghost var start, headers := buf[..], Headers(gatewayMac, ourMac, Be32(destIp), destPort, srcPort, len);
      WriteHeaders(destIp, destPort, srcPort, len);
      if 42 + len > TX_BYTES {
        return;
      }
      var payload := undefined;
      if len <= 982 {
        PayloadKept(start, headers, len);
        payload := buf[PAYLOAD..PAYLOAD + len];
      }
      AppendPayload(start, destIp, destPort, srcPort, payload);
      outbox := outbox + [(CAP_NIC_DRIVER_EP, Message(MSG_NET_TX, 42 + len, 0, 0, 0, 0))];
    }

    /** What a frame leaves in the buffer and the outbox; `undefined` is what an overrun leaves in the payload area. */
    ghost predicate Handled(r: Receiving, undefined: seq<Byte>, before: seq<Byte>, sent: seq<(nat, Message)>)
      requires Valid() && |before| == BUFFER_BYTES && |undefined| == PAYLOAD_BYTES
      requires r.Delivered? ==> |r.payload| <= BUFFER_BYTES - PAYLOAD
      reads this, buf
    {
      if r.Delivered? then buf[..] == Overwrite(before, PAYLOAD, r.payload) && outbox == sent + [r.notice]
      else if r.Overrun? then buf[..] == Overwrite(before, PAYLOAD, undefined) && outbox == sent
      else buf[..] == before && outbox == sent
    }

    method HandleUdp(packet: seq<Byte>, srcIp: seq<Byte>, at: nat, undefined: seq<Byte>) returns (r: Receiving)
      requires Valid() && |srcIp| == 4 && |undefined| == PAYLOAD_BYTES
      modifies buf, this`outbox
      ensures r == ReceivingOf(ParseUdp(packet, srcIp, at), boundPort, boundEp)
      ensures Handled(r, undefined, old(buf[..]), old(outbox))
    {
      if |packet| < 8 {
        return Nothing;
      }
      var length := From16(packet, 4);
      if length > |packet| || length < 8 {
        return Nothing;
      }
      if boundPort != From16(packet, 2) || boundEp == 0 {
        return Nothing;
      }
      if !CopyFits(at + 8, length - 8) {
        Write(PAYLOAD, undefined);
        return Overrun;
      }
      Write(PAYLOAD, packet[8..length]);
      var notice := (boundEp, Message(MSG_UDP_RECV, length - 8, From32(srcIp), From16(packet, 0), 0, 0));
      outbox := outbox + [notice];
      r := Delivered(packet[8..length], notice);
    }

    method HandleIpv4(packet: seq<Byte>, at: nat, undefined: seq<Byte>) returns (r: Receiving)
      requires Valid() && |undefined| == PAYLOAD_BYTES
      modifies buf, this`outbox
      ensures r == ReceivingOf(ParseIpv4(packet, at), boundPort, boundEp)
      ensures Handled(r, undefined, old(buf[..]), old(outbox))
    {
      if |packet| < 20 {
        return Nothing;
      }
      if packet[16..20] != OUR_IP && packet[16..20] != BROADCAST_IP {
        return Nothing;
      }
      if packet[9] != 17 {
        return Nothing;
      }
      var ihl := packet[0] % 16 * 4;
      if ihl > |packet| {
        return Crashed;
      }
      r := HandleUdp(packet[ihl..], packet[12..16], at + ihl, undefined);
    }

    /** A received frame of `length` bytes lies at the start of the buffer and, if it is longer, in the memory
        `behind` it. Its payload is copied to the payload area and announced to the bound endpoint. */
    method HandleRx(length: nat, behind: seq<Byte>, undefined: seq<Byte>) returns (r: Receiving)
      requires Valid() && length <= BUFFER_BYTES + |behind| && |undefined| == PAYLOAD_BYTES
      modifies buf, this`outbox
      ensures r == ReceivingOf(ParseFrame((old(buf[..]) + behind)[..length]), boundPort, boundEp)
      ensures Handled(r, undefined, old(buf[..]), old(outbox))
    {
      var packet := (buf[..] + behind)[..length];
      if length < 14 || From16(packet, 12) != 0x0800 {
        return Nothing;
      }
      r := HandleIpv4(packet[14..], 14, undefined);
    }
  }
}
