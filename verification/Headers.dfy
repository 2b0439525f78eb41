/**
 * Ethernet, IPv4, IPv6 and GRE headers as records, and what the kernel programs read and write in
 * them. The layouts are those of RFC 791, RFC 8200 and RFC 2784, written out byte by byte.
 */
module Headers {
  import opened Addresses
  import opened Checksum
  import opened Packets
  import opened DataPlane
  import Runs = DataPlaneRuns

  type Octets2 = o: seq<Byte> | |o| == 2 witness [0, 0]
  type Octets8 = o: seq<Byte> | |o| == 8 witness [0, 0, 0, 0, 0, 0, 0, 0]

  datatype Ether = Ether(dmac: Mac, smac: Mac)

  /** `start` runs from the version to the fragment offset. */
  datatype Ip4 = Ip4(start: Octets8, ttl: Byte, protocol: Byte, check: Octets2, src: Octets4, dst: Octets4)

  /** `start` is version, traffic class and flow label. */
  datatype Ip6 = Ip6(start: Octets4, length: Octets2, next: Byte, hop: Byte, src: Octets16, dst: Octets16)

  function Bytes4(h: Ip4): seq<Byte> {
    h.start + [h.ttl] + [h.protocol] + h.check + h.src + h.dst
  }

  function Bytes6(h: Ip6): seq<Byte> {
    h.start + h.length + [h.next] + [h.hop] + h.src + h.dst
  }

  function Frame(e: Ether, kind: Octets2, body: seq<Byte>): seq<Byte> {
    e.dmac + e.smac + kind + body
  }

  function Frame4(e: Ether, h: Ip4, payload: seq<Byte>): seq<Byte> {
    Frame(e, [0x08, 0x00], Bytes4(h) + payload)
  }

  function Frame6(e: Ether, h: Ip6, payload: seq<Byte>): seq<Byte> {
    Frame(e, [0x86, 0xDD], Bytes6(h) + payload)
  }

  // Reading packets that leave

  lemma FieldsOf4(e: Ether, h: Ip4, payload: seq<Byte>)
    ensures var d := Frame4(e, h, payload);
            && |d| == 34 + |payload| && d[12..14] == [0x08, 0x00] && d[22] == h.ttl && d[23] == h.protocol
            && d[24..26] == h.check && d[26..30] == h.src && d[30..34] == h.dst
  {
  }

  lemma FieldsOf6(e: Ether, h: Ip6, payload: seq<Byte>)
    ensures var d := Frame6(e, h, payload);
            && |d| == 54 + |payload| && d[12..14] == [0x86, 0xDD] && d[20] == h.next && d[21] == h.hop
            && d[22..38] == h.src && d[38..54] == h.dst && d[54..] == payload
  {
  }

  /** The packets that are steered: ICMP, TCP and UDP. */
  const STEERED: set<Byte> := {1, 6, 17}

  /** IPv4 packets are looked up by their destination, mapped into IPv6 (section 2.5.5.2 of RFC 4291). */
  lemma Reads4(e: Ether, h: Ip4, payload: seq<Byte>)
    ensures var d := Frame4(e, h, payload);
            && ParseEncap(d, 0x0800) ==
                 (if h.protocol in STEERED then Destined(0x0800, [0, 0, 0, 0, 0, 0, 0, 0, 0, 0, 0xff, 0xff] + h.dst)
                  else Skipped(EncapL4))
            && LoadSource(d, 0x0800) == Some([0, 0, 0, 0, 0, 0, 0, 0, 0, 0, 0xff, 0xff] + h.src)
  {
    FieldsOf4(e, h, payload);
  }

  lemma Reads6(e: Ether, h: Ip6, payload: seq<Byte>)
    ensures var d := Frame6(e, h, payload);
            && ParseEncap(d, 0x86DD) == (if h.next in STEERED then Destined(0x86DD, h.dst) else Skipped(EncapL4))
            && LoadSource(d, 0x86DD) == Some(h.src)
  {
    FieldsOf6(e, h, payload);
  }

  /** Why a packet is skipped: not IP, too short for its protocol or destination, or of another protocol. */
  lemma SkipsExactly(data: seq<Byte>, protocol: nat)
    ensures ParseEncap(data, protocol) == Skipped(EncapL3) <==> protocol != 0x0800 && protocol != 0x86DD
    ensures protocol == 0x0800 ==>
              && (ParseEncap(data, protocol) == Skipped(EncapL4Load) <==> |data| < 24)
              && (ParseEncap(data, protocol) == Skipped(EncapL4) <==> |data| >= 24 && data[23] !in STEERED)
              && (ParseEncap(data, protocol) == Skipped(EncapDestinationLoad) <==> 24 <= |data| < 34 && data[23] in STEERED)
    ensures protocol == 0x86DD ==>
              && (ParseEncap(data, protocol) == Skipped(EncapL4Load) <==> |data| < 21)
              && (ParseEncap(data, protocol) == Skipped(EncapL4) <==> |data| >= 21 && data[20] !in STEERED)
              && (ParseEncap(data, protocol) == Skipped(EncapDestinationLoad) <==> 21 <= |data| < 54 && data[20] in STEERED)
  {
  }

  // The tunnel

  function Word(n: nat): Octets2 {
    [n / 256 % 256, n % 256]
  }

  /** The GRE header without checksum, key or sequence number, in front of the inner packet. */
  function Gre(l3: nat, inner: seq<Byte>): seq<Byte> {
    [0, 0] + Word(l3) + inner
  }

  /**
   * What goes out is the inner packet behind an IPv6 header of version 6 with next header 47 and hop
   * limit 255, from the packet's source to the nexthop, and a GRE header.
   */
  lemma OuterHeaders(frame: seq<Byte>, data: seq<Byte>, l3: nat, source: Octets16, nexthop: Octets16, room: Room)
    returns (e: Ether, start: Octets4)
    requires Tunnels(frame, data, l3, source, nexthop, room)
    ensures e.dmac == data[..6] && e.smac == data[6..12] && start[0] / 16 == 6 && start[1..] == room[1..4]
    ensures frame == Frame6(e, Ip6(start, Word(|data| - 10), 47, 255, source, nexthop), Gre(l3, data[14..]))
  {
    e, start := Ether(data[..6], data[6..12]), [0x60 + room[0] % 16] + room[1..4];
    assert data[0..12] == e.dmac + e.smac;
    Pieces(frame);
    assert data[14..] == data[14..|data|];
    var h := Ip6(start, Word(|data| - 10), 47, 255, source, nexthop);
    assert Bytes6(h) == [0x60 + room[0] % 16] + room[1..4] + Word(|data| - 10) + [47] + [255] + source + nexthop;
  }

  lemma Pieces(frame: seq<Byte>)
    requires |frame| >= 58
    ensures frame == frame[0..12] + frame[12..14]
                     + (frame[14..15] + frame[15..18] + frame[18..20] + frame[20..21] + frame[21..22] + frame[22..38] + frame[38..54]
                        + (frame[54..56] + frame[56..58] + frame[58..|frame|]))
  {
  }

  /** So the outer header reads back as sent from the source to the nexthop. */
  lemma OuterIsAddressed(frame: seq<Byte>, data: seq<Byte>, l3: nat, source: Octets16, nexthop: Octets16, room: Room)
    requires Tunnels(frame, data, l3, source, nexthop, room)
    ensures LoadDestination(frame, 0x86DD) == Some(nexthop) && LoadSource(frame, 0x86DD) == Some(source)
  {
    var e, start := OuterHeaders(frame, data, l3, source, nexthop, room);
    FieldsOf6(e, Ip6(start, Word(|data| - 10), 47, 255, source, nexthop), Gre(l3, data[14..]));
  }

  /** What the far end takes for a tunnel, and what it makes of it. */
  lemma ReadsTunnel(e: Ether, h: Ip6, l3: nat, inner: seq<Byte>)
    requires l3 < 0x1_0000
    ensures var d := Frame6(e, h, Gre(l3, inner));
            && ParseDecap(d) == (if h.next != 47 then WrongOuterL4
                                 else if l3 == 0x0800 || l3 == 0x86DD then Tunnelled(l3, h.dst) else WrongInnerL3)
            && Packets.Decapsulated(d, l3) == Frame(e, Word(l3), inner)
  {
    var d := Frame6(e, h, Gre(l3, inner));
    FieldsOf6(e, h, Gre(l3, inner));
    assert d[56] == Word(l3)[0] && d[57] == Word(l3)[1] by {
      assert d[54..][2] == d[56] && d[54..][3] == d[57];
    }
    assert ReadU16(d, 56) == l3;
    assert d[12] == d[12..14][0] && d[13] == d[12..14][1];
    assert d[58..] == inner by {
      assert d[58..] == d[54..][4..];
    }
    assert d[..12] == e.dmac + e.smac;
  }

  lemma NoTunnelExactly(data: seq<Byte>)
    ensures ParseDecap(data) == ShortPacket <==> |data| < 58
    ensures ParseDecap(data) == WrongOuterL3 <==> |data| >= 58 && !(data[12] == 0x86 && data[13] == 0xDD)
  {
  }

  // Forwarding

  /** Forwarding an IPv4 packet lowers its TTL by one and rewrites its check field, and nothing else. */
  lemma Lowers4(e: Ether, h: Ip4, payload: seq<Byte>, big: bool) returns (check: Octets2)
    ensures WithLowerTtl(Frame4(e, h, payload), 0x0800, big) ==
              if h.ttl <= 1 then None else Some(Frame4(e, h.(ttl := h.ttl - 1, check := check), payload))
    ensures big && h.ttl > 1 ==>
              || ReadU16(check, 0) == ReadU16(h.check, 0) + 0x100
              || ReadU16(check, 0) == ReadU16(h.check, 0) + 0x100 - 0xffff
  {
    check := h.check;
    FieldsOf4(e, h, payload);
    if h.ttl > 1 {
      var d := Frame4(e, h, payload);
      assert d[22] == d[14..][8] && d[24..26] == d[14..][10..12];
      var h' := Decremented(d[14..], big);
      check := h'[10..12];
      var lowered := Frame4(e, h.(ttl := h.ttl - 1, check := check), payload);
      FieldsOf4(e, h.(ttl := h.ttl - 1, check := check), payload);
      assert d[..14] + h' == lowered by {
        forall i | 0 <= i < |d|
          ensures (d[..14] + h')[i] == lowered[i]
        {
          LoweredByte(e, h, payload, check, i);
        }
      }
      CheckOf(d, h.check, check, big);
    }
  }

  /** Apart from the TTL and the check field the two frames are the same. */
  lemma LoweredByte(e: Ether, h: Ip4, payload: seq<Byte>, check: Octets2, i: nat)
    requires h.ttl > 1 && i < 34 + |payload|
    ensures |Frame4(e, h, payload)| == |Frame4(e, h.(ttl := h.ttl - 1, check := check), payload)| == 34 + |payload|
    ensures Frame4(e, h.(ttl := h.ttl - 1, check := check), payload)[i] ==
              if i == 22 then h.ttl - 1 else if i == 24 then check[0] else if i == 25 then check[1]
              else Frame4(e, h, payload)[i]
  {
  }

  lemma CheckOf(d: seq<Byte>, before: Octets2, after: Octets2, big: bool)
    requires |d| >= 34 && d[14..][8] > 0 && d[14..][10..12] == before && Decremented(d[14..], big)[10..12] == after
    ensures big ==>
              || ReadU16(after, 0) == ReadU16(before, 0) + 0x100
              || ReadU16(after, 0) == ReadU16(before, 0) + 0x100 - 0xffff
  {
    assert before[0] == d[14..][10] && before[1] == d[14..][11];
    var h' := Decremented(d[14..], big);
    assert after[0] == h'[10] && after[1] == h'[11];
    if big {
      var check := NewCheck(WordOf(before[0], before[1], true), true);
      Bytes(check);
      assert after[0] == check / 256 && after[1] == check % 256;
    }
  }

  lemma Bytes(n: nat)
    ensures 256 * (n / 256) + n % 256 == n
  {
  }

  /** Forwarding an IPv6 packet lowers its hop limit by one, and nothing else. */
  lemma Lowers6(e: Ether, h: Ip6, payload: seq<Byte>, big: bool)
    ensures WithLowerTtl(Frame6(e, h, payload), 0x86DD, big) ==
              if h.hop <= 1 then None else Some(Frame6(e, h.(hop := h.hop - 1), payload))
  {
    FieldsOf6(e, h, payload);
    if h.hop > 1 {
      AroundHop(e, h, payload);
      AroundHop(e, h.(hop := h.hop - 1), payload);
      UpdatedAt(BeforeHop(e, h), h.hop, h.src + h.dst + payload, h.hop - 1);
    }
  }

  function BeforeHop(e: Ether, h: Ip6): seq<Byte> {
    e.dmac + e.smac + [0x86, 0xDD] + h.start + h.length + [h.next]
  }

  lemma AroundHop(e: Ether, h: Ip6, payload: seq<Byte>)
    ensures Frame6(e, h, payload) == BeforeHop(e, h) + [h.hop] + (h.src + h.dst + payload)
    ensures |BeforeHop(e, h)| == 21
  {
  }

  lemma UpdatedAt(before: seq<Byte>, x: Byte, after: seq<Byte>, y: Byte)
    ensures (before + [x] + after)[|before| := y] == before + [y] + after
  {
  }

  lemma Redirects(e: Ether, kind: Octets2, body: seq<Byte>, egress: Egress)
    ensures Switched(Frame(e, kind, body), egress) == Frame(Ether(egress.dmac, egress.smac), kind, body)
  {
  }

  /**
   * End to end on records: an IPv4 packet that is sent into the tunnel leaves the far end with the
   * addresses of the egress, its TTL one lower and a new check field, and otherwise as it was.
   */
  lemma Delivers4(s: State, e: Ether, h: Ip4, payload: seq<Byte>, socket: Option<Socket>, tc: TcHelpers, s': State,
                  out: TcOutcome, far: State, x: XdpHelpers, egress: Egress) returns (check: Octets2)
    requires EncapStep(s, Skb(Frame4(e, h, payload), 0x0800, socket), tc, s', out) && out.Sent? && h.ttl > 1
    requires x.metrics && x.adjusts && x.redirects && egress.ifindex != x.ingress
    requires FromOctets(out.nexthop) in x.routes && x.routes[FromOctets(out.nexthop)] == egress
    ensures Decapped(far, out.frame, x).verdict == XdpRedirect(egress.ifindex)
    ensures Decapped(far, out.frame, x).data
         == Frame4(Ether(egress.dmac, egress.smac), h.(ttl := h.ttl - 1, check := check), payload)
  {
    check := Lowers4(e, h, payload, x.big);
    FieldsOf4(e, h, payload);
    var d := Frame4(e, h, payload);
    assert d[12] == d[12..14][0] && d[13] == d[12..14][1];
    Runs.TunnelIsTransparent(s, Skb(d, 0x0800, socket), tc, s', out, far, x, egress);
    var lowered := h.(ttl := h.ttl - 1, check := check);
    Redirects(e, [0x08, 0x00], Bytes4(lowered) + payload, egress);
  }

  /** The same for an IPv6 packet, whose hop limit goes down. */
  lemma Delivers6(s: State, e: Ether, h: Ip6, payload: seq<Byte>, socket: Option<Socket>, tc: TcHelpers, s': State,
                  out: TcOutcome, far: State, x: XdpHelpers, egress: Egress)
    requires EncapStep(s, Skb(Frame6(e, h, payload), 0x86DD, socket), tc, s', out) && out.Sent? && h.hop > 1
    requires x.metrics && x.adjusts && x.redirects && egress.ifindex != x.ingress
    requires FromOctets(out.nexthop) in x.routes && x.routes[FromOctets(out.nexthop)] == egress
    ensures Decapped(far, out.frame, x).verdict == XdpRedirect(egress.ifindex)
    ensures Decapped(far, out.frame, x).data
         == Frame6(Ether(egress.dmac, egress.smac), h.(hop := h.hop - 1), payload)
  {
    Lowers6(e, h, payload, x.big);
    FieldsOf6(e, h, payload);
    var d := Frame6(e, h, payload);
    assert d[12] == d[12..14][0] && d[13] == d[12..14][1];
    Runs.TunnelIsTransparent(s, Skb(d, 0x86DD, socket), tc, s', out, far, x, egress);
    Redirects(e, [0x86, 0xDD], Bytes6(h.(hop := h.hop - 1)) + payload, egress);
  }
}
