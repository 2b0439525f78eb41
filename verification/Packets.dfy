/** Ethernet frames as byte strings: parsing them, and tunnelling them in IPv6 and GRE. */
module Packets {
  import opened Addresses
  import opened Checksum

  const ETH_HLEN: nat := 14
  const ETH_ALEN: nat := 6
  const IPV4_HLEN: nat := 20
  const IPV6_HLEN: nat := 40
  const GRE_HLEN: nat := 4
  const ENCAP_LEN: nat := IPV6_HLEN + GRE_HLEN

  const ETH_P_IP: nat := 0x0800
  const ETH_P_IPV6: nat := 0x86DD
  const IPPROTO_ICMP: Byte := 1
  const IPPROTO_TCP: Byte := 6
  const IPPROTO_UDP: Byte := 17
  const IPPROTO_GRE: Byte := 47

  /** What the kernel leaves in the room it makes for the outer headers: any bytes. */
  type Room = r: seq<Byte> | |r| == ENCAP_LEN witness seq(ENCAP_LEN, _ => 0)
  type Mac = m: seq<Byte> | |m| == ETH_ALEN witness [0, 0, 0, 0, 0, 0]

  /** The low sixteen bits of a number, in network order. */
  function U16(x: nat): seq<Byte> {
    [x / 256 % 256, x % 256]
  }

  function ReadU16(data: seq<Byte>, offset: nat): nat
    requires offset + 2 <= |data|
  {
    256 * (data[offset] as int) + data[offset + 1] as int
  }

  /** Loading bytes fails beyond the end of the packet. */
  function Load(data: seq<Byte>, offset: nat, len: nat): Option<seq<Byte>> {
    if offset + len <= |data| then Some(data[offset..offset + len]) else None
  }

  function Stored(data: seq<Byte>, offset: nat, bytes: seq<Byte>): seq<Byte>
    requires offset + |bytes| <= |data|
  {
    data[..offset] + bytes + data[offset + |bytes|..]
  }

  /** Bytes outside the written stretch keep their value, those inside get theirs. */
  ghost predicate Overwrites(data: seq<Byte>, offset: nat, bytes: seq<Byte>, data': seq<Byte>) {
    && |data'| == |data| >= offset + |bytes|
    && data'[offset..offset + |bytes|] == bytes
    && (forall lo, hi :: 0 <= lo <= hi <= offset ==> data'[lo..hi] == data[lo..hi])
    && (forall lo, hi :: offset + |bytes| <= lo <= hi <= |data| ==> data'[lo..hi] == data[lo..hi])
  }

  lemma StoredOverwrites(data: seq<Byte>, offset: nat, bytes: seq<Byte>)
    requires offset + |bytes| <= |data|
    ensures Overwrites(data, offset, bytes, Stored(data, offset, bytes))
  {
  }

  /** A packet buffer that programs rewrite in place. */
  class Buffer {
    var data: seq<Byte>

    constructor (data: seq<Byte>)
      ensures this.data == data
    {
      this.data := data;
    }

    method Store(offset: nat, bytes: seq<Byte>)
      requires offset + |bytes| <= |data|
      modifies this
      ensures data == Stored(old(data), offset, bytes)
      ensures Overwrites(old(data), offset, bytes, data)
    {
      StoredOverwrites(data, offset, bytes);
      data := data[..offset] + bytes + data[offset + |bytes|..];
    }
  }

  // Parsing packets that leave

  predicate SupportedL3(proto: nat) {
    proto == ETH_P_IP || proto == ETH_P_IPV6
  }

  predicate SupportedL4(proto: Byte) {
    proto == IPPROTO_TCP || proto == IPPROTO_UDP || proto == IPPROTO_ICMP
  }

  function LoadL4(data: seq<Byte>, l3: nat): Option<Byte> {
    var offset := ETH_HLEN + if l3 == ETH_P_IP then 9 else 6;
    if offset < |data| then Some(data[offset]) else None
  }

  /** Loads an address, mapping IPv4 ones. */
  function LoadAddress(data: seq<Byte>, l3: nat, v4Offset: nat, v6Offset: nat): Option<Octets16> {
    if l3 == ETH_P_IP then
      match Load(data, ETH_HLEN + v4Offset, 4)
      case None => None
      case Some(o) => Some(MAPPED_PREFIX + o)
    else
      match Load(data, ETH_HLEN + v6Offset, 16)
      case None => None
      case Some(o) => Some(o)
  }

  function LoadDestination(data: seq<Byte>, l3: nat): Option<Octets16> {
    LoadAddress(data, l3, 16, 24)
  }

  function LoadSource(data: seq<Byte>, l3: nat): Option<Octets16> {
    LoadAddress(data, l3, 12, 8)
  }

  /** A destination that could be loaded leaves a source that can be. */
  lemma SourceLoads(data: seq<Byte>, l3: nat)
    requires LoadDestination(data, l3).Some?
    ensures LoadSource(data, l3).Some? && |data| >= ETH_HLEN
  {
  }

  // Encapsulation

  /** The outer IPv6 header, field by field. */
  ghost predicate Ipv6Header(frame: seq<Byte>, payload: nat, source: Octets16, nexthop: Octets16, room: Room)
    requires |frame| >= ETH_HLEN + ENCAP_LEN
  {
    && frame[14..15] == [0x60 + room[0] % 16] && frame[15..18] == room[1..4]
    && frame[18..20] == U16(payload)
    && frame[20..21] == [IPPROTO_GRE] && frame[21..22] == [255]
    && frame[22..38] == source && frame[38..54] == nexthop
  }

  /** `frame` carries `data` to a nexthop: the layout of all its bytes. */
  ghost predicate Tunnels(frame: seq<Byte>, data: seq<Byte>, l3: nat, source: Octets16, nexthop: Octets16, room: Room) {
    && |data| >= ETH_HLEN && |frame| == |data| + ENCAP_LEN
    && frame[0..12] == data[0..12] && frame[12..14] == U16(ETH_P_IPV6)
    && Ipv6Header(frame, |data| - ETH_HLEN + GRE_HLEN, source, nexthop, room)
    && frame[54..56] == [0, 0] && frame[56..58] == U16(l3)
    && frame[58..|frame|] == data[ETH_HLEN..|data|]
  }

  function WithRoom(data: seq<Byte>, room: Room): seq<Byte>
    requires |data| >= ETH_HLEN
  {
    data[..ETH_HLEN] + room + data[ETH_HLEN..]
  }

  lemma RoomSlices(data: seq<Byte>, room: Room)
    requires |data| >= ETH_HLEN
    ensures var roomy := WithRoom(data, room);
            && |roomy| == |data| + ENCAP_LEN
            && roomy[0..12] == data[0..12] && roomy[14] == room[0] && roomy[15..18] == room[1..4]
            && roomy[58..|roomy|] == data[ETH_HLEN..|data|]
  {
  }

  /** Writing the outer IPv6 header, one field after the other. */
  method WriteIpv6(buffer: Buffer, source: Octets16, nexthop: Octets16, ghost room: Room)
    requires |buffer.data| >= ETH_HLEN + ENCAP_LEN && buffer.data[14] == room[0] && buffer.data[15..18] == room[1..4]
    modifies buffer
    ensures |buffer.data| == |old(buffer.data)|
    ensures Ipv6Header(buffer.data, |buffer.data| - ETH_HLEN - IPV6_HLEN, source, nexthop, room)
    ensures buffer.data[0..12] == old(buffer.data)[0..12] && buffer.data[12..14] == old(buffer.data)[12..14]
    ensures buffer.data[58..|buffer.data|] == old(buffer.data)[58..|buffer.data|]
  {
    buffer.Store(14, [0x60 + buffer.data[14] % 16]);
    buffer.Store(21, [255]);
    buffer.Store(20, [IPPROTO_GRE]);
    buffer.Store(22, source);
    buffer.Store(38, nexthop);
    buffer.Store(18, U16(|buffer.data| - ETH_HLEN - IPV6_HLEN));
  }

  /** Filling the room behind the Ethernet header with the outer headers. */
  method WriteOuter(buffer: Buffer, l3: nat, source: Octets16, nexthop: Octets16,
                    ghost data: seq<Byte>, ghost room: Room)
    requires |data| >= ETH_HLEN && buffer.data == WithRoom(data, room)
    modifies buffer
    ensures Tunnels(buffer.data, data, l3, source, nexthop, room)
  {
    RoomSlices(data, room);
    buffer.Store(12, U16(ETH_P_IPV6));
    assert buffer.data[14..15] == WithRoom(data, room)[14..15];
    assert buffer.data[14] == buffer.data[14..15][0] == WithRoom(data, room)[14..15][0];
    WriteIpv6(buffer, source, nexthop, room);
    buffer.Store(54, [0, 0]);
    buffer.Store(56, U16(l3));
  }

  /**
   * Making room behind the Ethernet header and filling it. The room may be refused, or not be
   * directly accessible; the packet is then left as it is at that point.
   */
  method Encapsulate(buffer: Buffer, l3: nat, nexthop: Octets16, room: Option<Room>, linear: nat) returns (ok: bool)
    modifies buffer
    ensures ok <==> LoadSource(old(buffer.data), l3).Some? && room.Some? && linear >= ETH_HLEN + ENCAP_LEN
    ensures ok ==> Tunnels(buffer.data, old(buffer.data), l3, LoadSource(old(buffer.data), l3).value, nexthop, room.value)
  {
    var source := LoadSource(buffer.data, l3);
    if source.None? || room.None? {
      return false;
    }
    ghost var data := buffer.data;
    buffer.data := WithRoom(buffer.data, room.value);
    if linear < ETH_HLEN + ENCAP_LEN {
      return false;
    }
    WriteOuter(buffer, l3, source.value, nexthop, data, room.value);
    ok := true;
  }

  // Decapsulation

  datatype DecapParse = ShortPacket | WrongOuterL3 | WrongOuterL4 | WrongInnerL3 | Tunnelled(l3: nat, nexthop: Octets16)

  function ParseDecap(data: seq<Byte>): DecapParse {
    if |data| < ETH_HLEN + ENCAP_LEN then ShortPacket
    else if ReadU16(data, 12) != ETH_P_IPV6 then WrongOuterL3
    else if data[20] != IPPROTO_GRE then WrongOuterL4
    else if !SupportedL3(ReadU16(data, 56)) then WrongInnerL3
    else Tunnelled(ReadU16(data, 56), data[38..54])
  }

  /** The inner packet behind the Ethernet header it came with. */
  function Decapsulated(data: seq<Byte>, l3: nat): seq<Byte>
    requires |data| >= ETH_HLEN + ENCAP_LEN
  {
    data[..12] + U16(l3) + data[ETH_HLEN + ENCAP_LEN..]
  }

  /** Moves the Ethernet header over the outer headers and drops what is in front of it. */
  method Decapsulate(buffer: Buffer, l3: nat, adjusts: bool) returns (ok: bool)
    modifies buffer
    ensures ok <==> |old(buffer.data)| >= ETH_HLEN + ENCAP_LEN && adjusts
    ensures ok ==> buffer.data == Decapsulated(old(buffer.data), l3)
  {
    if |buffer.data| < ETH_HLEN + ENCAP_LEN {
      return false;
    }
    buffer.Store(12, U16(l3));
    ghost var typed := buffer.data;
    buffer.Store(ENCAP_LEN, buffer.data[..ETH_HLEN]);
    if !adjusts {
      return false;
    }
    buffer.data := buffer.data[ENCAP_LEN..];
    assert buffer.data == typed[..ETH_HLEN] + old(buffer.data)[ETH_HLEN + ENCAP_LEN..];
    assert typed[..ETH_HLEN] == old(buffer.data)[..12] + U16(l3);
    ok := true;
  }

  lemma ReadSlice(data: seq<Byte>, offset: nat, x: nat)
    requires offset + 2 <= |data| && data[offset..offset + 2] == U16(x)
    ensures ReadU16(data, offset) == x % 0x1_0000
  {
    assert data[offset] == data[offset..offset + 2][0] && data[offset + 1] == data[offset..offset + 2][1];
  }

  lemma ByteSlice(data: seq<Byte>, offset: nat, b: Byte)
    requires offset < |data| && data[offset..offset + 1] == [b]
    ensures data[offset] == b
  {
    assert data[offset] == data[offset..offset + 1][0];
  }

  lemma TypeOf(data: seq<Byte>, l3: nat)
    requires |data| >= ETH_HLEN && l3 < 0x1_0000
    ensures data[..12] + U16(l3) + data[ETH_HLEN..] == data <==> ReadU16(data, 12) == l3
  {
    assert data == data[..12] + data[12..14] + data[14..];
    if ReadU16(data, 12) == l3 {
      assert data[12..14] == U16(l3);
    } else {
      var other := data[..12] + U16(l3) + data[ETH_HLEN..];
      assert other[12..14] == U16(l3);
      ReadSlice(other, 12, l3);
    }
  }

  /** The far end reads the protocol and nexthop the near end wrote. */
  lemma TunnelParses(frame: seq<Byte>, data: seq<Byte>, l3: nat, source: Octets16, nexthop: Octets16, room: Room)
    requires Tunnels(frame, data, l3, source, nexthop, room) && SupportedL3(l3)
    ensures ParseDecap(frame) == Tunnelled(l3, nexthop)
  {
    ReadSlice(frame, 12, ETH_P_IPV6);
    ReadSlice(frame, 56, l3);
    ByteSlice(frame, 20, IPPROTO_GRE);
  }

  /**
   * Decapsulation undoes encapsulation exactly when the frame's Ethernet type is the protocol the
   * kernel reported for it.
   */
  lemma DecapUndoesEncap(frame: seq<Byte>, data: seq<Byte>, l3: nat, source: Octets16, nexthop: Octets16, room: Room)
    requires Tunnels(frame, data, l3, source, nexthop, room) && SupportedL3(l3)
    ensures Decapsulated(frame, l3) == data <==> ReadU16(data, 12) == l3
  {
    assert frame[..12] == frame[0..12] && data[..12] == data[0..12];
    assert frame[58..] == frame[58..|frame|] && data[ETH_HLEN..] == data[ETH_HLEN..|data|];
    TypeOf(data, l3);
  }

  /** The payload length is that of the GRE header and the inner packet exactly when that fits 16 bits. */
  lemma PayloadLength(frame: seq<Byte>, data: seq<Byte>, l3: nat, source: Octets16, nexthop: Octets16, room: Room)
    requires Tunnels(frame, data, l3, source, nexthop, room)
    ensures ReadU16(frame, 18) == |data| - ETH_HLEN + GRE_HLEN <==> |data| - ETH_HLEN + GRE_HLEN < 0x1_0000
    ensures frame[14] / 16 == 6
  {
    ReadSlice(frame, 18, |data| - ETH_HLEN + GRE_HLEN);
    ByteSlice(frame, 14, 0x60 + room[0] % 16);
  }

  // Decrementing the inner TTL

  /** The frame with its TTL or hop limit one lower, unless it is too short or about to expire. */
  function WithLowerTtl(data: seq<Byte>, l3: nat, big: bool): Option<seq<Byte>> {
    if l3 == ETH_P_IP then
      if |data| < ETH_HLEN + IPV4_HLEN || data[ETH_HLEN + TTL] <= 1 then None
      else Some(data[..ETH_HLEN] + Decremented(data[ETH_HLEN..], big))
    else if l3 == ETH_P_IPV6 then
      if |data| < ETH_HLEN + IPV6_HLEN || data[ETH_HLEN + 7] <= 1 then None
      else Some(data[ETH_HLEN + 7 := data[ETH_HLEN + 7] - 1])
    else None
  }

  method LowerTtl(buffer: Buffer, l3: nat, big: bool) returns (ok: bool)
    modifies buffer
    ensures ok <==> WithLowerTtl(old(buffer.data), l3, big).Some?
    ensures buffer.data == if ok then WithLowerTtl(old(buffer.data), l3, big).value else old(buffer.data)
  {
    if l3 == ETH_P_IP {
      if |buffer.data| < ETH_HLEN + IPV4_HLEN {
        return false;
      }
      var ip := ETH_HLEN;
      if buffer.data[ip + TTL] <= 1 {
        return false;
      }
      ghost var h := buffer.data[ip..];
      buffer.data := buffer.data[ip + TTL := buffer.data[ip + TTL] - 1];
      var check := NewCheck(WordOf(buffer.data[ip + CHECK], buffer.data[ip + CHECK + 1], big), big);
      var first: Byte, second: Byte := check / 256, check % 256;
      buffer.data := buffer.data[ip + CHECK := if big then first else second]
                                [ip + CHECK + 1 := if big then second else first];
      assert buffer.data == old(buffer.data)[..ip] + Decremented(h, big);
      return true;
    }
    if l3 == ETH_P_IPV6 {
      if |buffer.data| < ETH_HLEN + IPV6_HLEN || buffer.data[ETH_HLEN + 7] <= 1 {
        return false;
      }
      buffer.data := buffer.data[ETH_HLEN + 7 := buffer.data[ETH_HLEN + 7] - 1];
      return true;
    }
    return false;
  }

  /** The IPv4 header of a frame, with as many words as it says it has. */
  function Ipv4Header(data: seq<Byte>): seq<Byte>
    requires |data| >= ETH_HLEN + IPV4_HLEN && ETH_HLEN + 4 * (data[ETH_HLEN] as int % 16) <= |data|
  {
    data[ETH_HLEN..ETH_HLEN + 4 * (data[ETH_HLEN] as int % 16)]
  }

  ghost predicate HasIpv4Header(data: seq<Byte>) {
    && |data| >= ETH_HLEN + IPV4_HLEN
    && IPV4_HLEN <= 4 * (data[ETH_HLEN] as int % 16) <= |data| - ETH_HLEN
  }

  lemma DecrementedPrefix(h: seq<Byte>, len: nat, big: bool)
    requires IPV4_HLEN <= len <= |h| && h[TTL] > 0
    ensures Decremented(h, big)[..len] == Decremented(h[..len], big)
    ensures Decremented(h, big)[0] == h[0]
  {
  }

  /** Forwarding keeps valid IPv4 headers valid and corrupt ones corrupt, options included. */
  lemma LowerTtlKeepsHeader(data: seq<Byte>, host: bool, big: bool)
    requires HasIpv4Header(data) && WithLowerTtl(data, ETH_P_IP, host).Some?
    ensures var lowered := WithLowerTtl(data, ETH_P_IP, host).value;
            HasIpv4Header(lowered) && |lowered| == |data|
            && (ValidHeader(Ipv4Header(lowered), big) <==> ValidHeader(Ipv4Header(data), big))
  {
    var lowered := WithLowerTtl(data, ETH_P_IP, host).value;
    var len := 4 * (data[ETH_HLEN] as int % 16);
    var h := data[ETH_HLEN..];
    DecrementedPrefix(h, len, host);
    assert lowered[ETH_HLEN..] == Decremented(h, host);
    assert lowered[ETH_HLEN] == h[0];
    assert Ipv4Header(lowered) == Decremented(h, host)[..len];
    assert Ipv4Header(data) == h[..len];
    DecrementKeepsValidity(h[..len], host, big);
  }
}
