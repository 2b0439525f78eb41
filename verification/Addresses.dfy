/** Addresses and prefixes, and the 128-bit keys the kernel's routing table uses for them. */
module Addresses {

  datatype Option<+T> = None | Some(value: T)

  type Byte = b: int | 0 <= b < 256
  type Octets4 = o: seq<Byte> | |o| == 4 witness [0, 0, 0, 0]
  type Octets16 = o: seq<Byte> | |o| == 16 witness [0, 0, 0, 0, 0, 0, 0, 0, 0, 0, 0, 0, 0, 0, 0, 0]

  datatype IpAddr = V4(octets4: Octets4) | V6(octets6: Octets16)

  /** A BGP prefix. */
  datatype Prefix = Prefix(addr: IpAddr, len: nat) {
    predicate Valid() {
      len <= if addr.V4? then 32 else 128
    }
  }
  type Nlri = p: Prefix | p.Valid() witness Prefix(V4([0, 0, 0, 0]), 0)

  /** A prefix as the kernel's longest-prefix-match trie stores it. */
  datatype CNlri = CNlri(prefixLen: nat, address: Octets16)

  const MAPPED_PREFIX: seq<Byte> := [0, 0, 0, 0, 0, 0, 0, 0, 0, 0, 0xff, 0xff]

  predicate IsMapped(o: Octets16) {
    o[..12] == MAPPED_PREFIX
  }

  /** IPv4 addresses become IPv4-mapped IPv6 addresses (section 2.5.5.2 of RFC 4291). */
  function ToOctets(addr: IpAddr): Octets16 {
    match addr
    case V4(o) => MAPPED_PREFIX + o
    case V6(o) => o
  }

  function FromOctets(o: Octets16): IpAddr {
    if IsMapped(o) then V4(o[12..]) else V6(o)
  }

  function ToKey(n: Nlri): CNlri {
    CNlri(if n.addr.V4? then n.len + 96 else n.len, ToOctets(n.addr))
  }

  function FromKey(c: CNlri): Option<Nlri> {
    if IsMapped(c.address) then
      if c.prefixLen < 96 || c.prefixLen - 96 > 32 then None
      else Some(Prefix(V4(c.address[12..]), c.prefixLen - 96))
    else if c.prefixLen > 128 then None
    else Some(Prefix(V6(c.address), c.prefixLen))
  }

  /** An IPv6 prefix whose address lies in the range reserved for mapped IPv4 addresses. */
  predicate IsMappedV6(n: Nlri) {
    n.addr.V6? && IsMapped(n.addr.octets6)
  }

  lemma AddressRoundTrip(addr: IpAddr)
    ensures FromOctets(ToOctets(addr)) == addr <==> !(addr.V6? && IsMapped(addr.octets6))
    ensures ToOctets(FromOctets(ToOctets(addr))) == ToOctets(addr)
  {
    var o := ToOctets(addr);
    assert addr.V4? ==> o[..12] == MAPPED_PREFIX && o[12..] == addr.octets4;
    assert o == o[..12] + o[12..];
  }

  /** Keys read back as the prefix they were made from, except for IPv6 prefixes in the mapped range. */
  lemma KeyRoundTrip(n: Nlri)
    ensures FromKey(ToKey(n)) == Some(n) <==> !IsMappedV6(n)
  {
    var o := ToKey(n).address;
    assert n.addr.V4? ==> o[..12] == MAPPED_PREFIX && o[12..] == n.addr.octets4;
  }

  /** Keys can be read at all unless they come from an IPv6 prefix in the mapped range shorter than 96 bits. */
  lemma KeyReadable(n: Nlri)
    ensures FromKey(ToKey(n)).Some? <==> !(IsMappedV6(n) && n.len < 96)
  {
    assert n.addr.V4? ==> ToOctets(n.addr)[..12] == MAPPED_PREFIX;
  }

  lemma KeyReadsBack(c: CNlri)
    requires FromKey(c).Some?
    ensures ToKey(FromKey(c).value) == c
  {
    assert c.address == c.address[..12] + c.address[12..];
  }

  /** Two different prefixes share a key only if one of them is an IPv6 prefix in the mapped range. */
  lemma KeyInjective(n: Nlri, n': Nlri)
    requires ToKey(n) == ToKey(n') && !IsMappedV6(n) && !IsMappedV6(n')
    ensures n == n'
  {
    KeyRoundTrip(n);
    KeyRoundTrip(n');
  }

  /** In the mapped range keys do clash: 10.0.0.0/8 and ::ffff:10.0.0.0/104 are one key. */
  lemma KeysClash(n: Nlri)
    requires n.addr.V4?
    ensures var n6: Nlri := Prefix(V6(ToOctets(n.addr)), n.len + 96);
            n6 != n && IsMappedV6(n6) && ToKey(n6) == ToKey(n)
  {
    assert ToOctets(n.addr)[..12] == MAPPED_PREFIX;
  }
}

/** The kernel's longest-prefix-match trie over 128-bit keys, against matching per address family. */
module LongestPrefix {
  import opened Addresses

  const BIT_VALUES: seq<int> := [128, 64, 32, 16, 8, 4, 2, 1]

  /** Bit `i` of a string of octets, most significant bit first. */
  predicate Bit(o: seq<Byte>, i: nat)
    requires i < 8 * |o|
  {
    (o[i / 8] / BIT_VALUES[i % 8]) % 2 == 1
  }

  predicate Agree(a: seq<Byte>, b: seq<Byte>, len: nat)
    requires len <= 8 * |a| && len <= 8 * |b|
  {
    forall i :: 0 <= i < len ==> Bit(a, i) == Bit(b, i)
  }

  /** A node of the trie: the bits of a key up to its prefix length. Host bits are not looked at. */
  type Node = seq<bool>

  function KeyNode(c: CNlri): Node
    requires c.prefixLen <= 128
  {
    seq(c.prefixLen, i requires 0 <= i < c.prefixLen => Bit(c.address, i))
  }

  /** The node that holds the entry of a prefix. */
  function NodeOf(n: Nlri): Node {
    KeyNode(ToKey(n))
  }

  /** The trie's notion of a match. */
  predicate NodeMatches(k: Node, dest: Octets16) {
    |k| <= 128 && forall i :: 0 <= i < |k| ==> k[i] == Bit(dest, i)
  }

  /** A prefix covers an address of its own family. */
  predicate Covers(n: Nlri, dest: IpAddr) {
    match (n.addr, dest)
    case (V4(p), V4(d)) => Agree(p, d, n.len)
    case (V6(p), V6(d)) => Agree(p, d, n.len)
    case _ => false
  }

  /** `k` is what a lookup of `dest` finds. */
  ghost predicate LongestMatch(table: set<Node>, dest: Octets16, k: Node) {
    k in table && NodeMatches(k, dest) &&
    forall m :: m in table && NodeMatches(m, dest) ==> |m| <= |k|
  }

  ghost function Nodes(table: set<Nlri>): set<Node> {
    set n | n in table :: NodeOf(n)
  }

  /** Numbers with the same half and the same last bit are the same. */
  lemma SameHalf(x: nat, y: nat)
    requires x / 2 == y / 2 && x % 2 == y % 2
    ensures x == y
  {
  }

  lemma HighHalves(a: Byte)
    ensures a / 128 == a / 64 / 2 && a / 64 == a / 32 / 2 && a / 32 == a / 16 / 2
    ensures 0 <= a / 128 < 2
  {
  }

  lemma LowHalves(a: Byte)
    ensures a / 16 == a / 8 / 2 && a / 8 == a / 4 / 2 && a / 4 == a / 2 / 2
  {
  }

  lemma HighFromBits(a: Byte, b: Byte)
    requires a / 128 % 2 == b / 128 % 2 && a / 64 % 2 == b / 64 % 2 && a / 32 % 2 == b / 32 % 2 && a / 16 % 2 == b / 16 % 2
    ensures a / 16 == b / 16
  {
    HighHalves(a);
    HighHalves(b);
    SameHalf(a / 64, b / 64);
    SameHalf(a / 32, b / 32);
    SameHalf(a / 16, b / 16);
  }

  lemma LowFromBits(a: Byte, b: Byte)
    requires a / 16 == b / 16
    requires a / 8 % 2 == b / 8 % 2 && a / 4 % 2 == b / 4 % 2 && a / 2 % 2 == b / 2 % 2 && a % 2 == b % 2
    ensures a == b
  {
    LowHalves(a);
    LowHalves(b);
    SameHalf(a / 8, b / 8);
    SameHalf(a / 4, b / 4);
    SameHalf(a / 2, b / 2);
    SameHalf(a, b);
  }

  /** A byte is determined by its bits. */
  lemma ByteFromBits(a: Byte, b: Byte)
    requires forall j :: 0 <= j < 8 ==> (a / BIT_VALUES[j]) % 2 == (b / BIT_VALUES[j]) % 2
    ensures a == b
  {
    assert BIT_VALUES[0] == 128 && BIT_VALUES[1] == 64 && BIT_VALUES[2] == 32 && BIT_VALUES[3] == 16;
    assert BIT_VALUES[4] == 8 && BIT_VALUES[5] == 4 && BIT_VALUES[6] == 2 && BIT_VALUES[7] == 1;
    HighFromBits(a, b);
    LowFromBits(a, b);
  }

  lemma AgreeOnOctet(a: seq<Byte>, b: seq<Byte>, len: nat, k: nat)
    requires len <= 8 * |a| && len <= 8 * |b| && Agree(a, b, len) && 8 * k + 8 <= len
    ensures a[k] == b[k]
  {
    forall j | 0 <= j < 8
      ensures (a[k] / BIT_VALUES[j]) % 2 == (b[k] / BIT_VALUES[j]) % 2
    {
      var i := 8 * k + j;
      assert i / 8 == k && i % 8 == j;
      assert Bit(a, i) == Bit(b, i);
    }
    ByteFromBits(a[k], b[k]);
  }

  // The same as arithmetic, without bits

  function ShiftRight(x: nat, n: nat): nat {
    if n == 0 then x else ShiftRight(x / 2, n - 1)
  }

  function ShiftLeft(x: nat, n: nat): nat
    decreases n
  {
    if n == 0 then x else ShiftLeft(2 * x, n - 1)
  }

  lemma {:induction false} ShiftOneMore(x: nat, n: nat)
    ensures ShiftRight(x, n + 1) == ShiftRight(x, n) / 2
  {
    if n == 0 {
      assert ShiftRight(x, 1) == ShiftRight(x / 2, 0);
    } else {
      ShiftOneMore(x / 2, n - 1);
    }
  }

  lemma ShiftsOf(a: Byte)
    ensures ShiftRight(a, 1) == a / 2 && ShiftRight(a, 2) == a / 4 && ShiftRight(a, 3) == a / 8
    ensures ShiftRight(a, 4) == a / 16 && ShiftRight(a, 5) == a / 32 && ShiftRight(a, 6) == a / 64
    ensures ShiftRight(a, 7) == a / 128 && ShiftRight(a, 8) == 0
  {
    ShiftOneMore(a, 0);
    ShiftOneMore(a, 1);
    ShiftOneMore(a, 2);
    ShiftOneMore(a, 3);
    ShiftOneMore(a, 4);
    ShiftOneMore(a, 5);
    ShiftOneMore(a, 6);
    ShiftOneMore(a, 7);
    HighHalves(a);
    LowHalves(a);
  }

  /** Bit `j` is the last one left when the `7 - j` bits behind it are shifted out. */
  lemma BitByShift(a: Byte, j: nat)
    requires j < 8
    ensures a / BIT_VALUES[j] == ShiftRight(a, 7 - j)
  {
    assert BIT_VALUES[0] == 128 && BIT_VALUES[1] == 64 && BIT_VALUES[2] == 32 && BIT_VALUES[3] == 16;
    assert BIT_VALUES[4] == 8 && BIT_VALUES[5] == 4 && BIT_VALUES[6] == 2 && BIT_VALUES[7] == 1;
    ShiftsOf(a);
  }

  /** The first `r` bits of two octets agree exactly when the octets are equal with the others shifted out. */
  lemma {:induction false} TopBits(a: Byte, b: Byte, r: nat)
    requires r <= 8
    ensures (forall j :: 0 <= j < r ==> (a / BIT_VALUES[j]) % 2 == (b / BIT_VALUES[j]) % 2)
       <==> ShiftRight(a, 8 - r) == ShiftRight(b, 8 - r)
  {
    if r == 0 {
      ShiftsOf(a);
      ShiftsOf(b);
    } else {
      TopBits(a, b, r - 1);
      BitByShift(a, r - 1);
      BitByShift(b, r - 1);
      ShiftOneMore(a, 8 - r);
      ShiftOneMore(b, 8 - r);
      var x, y := ShiftRight(a, 8 - r), ShiftRight(b, 8 - r);
      if x / 2 == y / 2 && x % 2 == y % 2 {
        SameHalf(x, y);
      }
    }
  }

  lemma BitAt(o: seq<Byte>, k: nat, j: nat)
    requires k < |o| && j < 8
    ensures Bit(o, 8 * k + j) <==> (o[k] / BIT_VALUES[j]) % 2 == 1
  {
    assert (8 * k + j) / 8 == k && (8 * k + j) % 8 == j;
  }

  /**
   * Agreeing up to a length as arithmetic: the whole octets are equal, and so is what is left of the
   * next one when its other bits are shifted out.
   */
  lemma AgreeAsNumbers(a: seq<Byte>, b: seq<Byte>, len: nat)
    requires len <= 8 * |a| && len <= 8 * |b|
    ensures var k, r := len / 8, len % 8;
            Agree(a, b, len) <==> a[..k] == b[..k] && (r > 0 ==> ShiftRight(a[k], 8 - r) == ShiftRight(b[k], 8 - r))
  {
    var k, r := len / 8, len % 8;
    if Agree(a, b, len) {
      forall i | 0 <= i < k
        ensures a[i] == b[i]
      {
        AgreeOnOctet(a, b, len, i);
      }
      if r > 0 {
        forall j | 0 <= j < r
          ensures (a[k] / BIT_VALUES[j]) % 2 == (b[k] / BIT_VALUES[j]) % 2
        {
          assert Bit(a, 8 * k + j) == Bit(b, 8 * k + j);
          BitAt(a, k, j);
          BitAt(b, k, j);
        }
        TopBits(a[k], b[k], r);
      }
    }
    if a[..k] == b[..k] && (r > 0 ==> ShiftRight(a[k], 8 - r) == ShiftRight(b[k], 8 - r)) {
      forall i | 0 <= i < len
        ensures Bit(a, i) == Bit(b, i)
      {
        if i / 8 < k {
          assert a[i / 8] == a[..k][i / 8] == b[..k][i / 8] == b[i / 8];
        } else {
          TopBits(a[k], b[k], r);
          assert i / 8 == k && i % 8 < r;
        }
      }
    }
  }

  lemma {:induction false} ShiftLeftGrows(x: nat, y: nat, n: nat)
    requires x < y
    ensures ShiftLeft(x, n) < ShiftLeft(y, n)
    decreases n
  {
    if n == 0 {
    } else {
      ShiftLeftGrows(2 * x, 2 * y, n - 1);
    }
  }

  /** All bits from `r` on are zero exactly when shifting them out and back in changes nothing. */
  lemma {:induction false} LowBitsZero(a: Byte, r: nat)
    requires r <= 8
    ensures (forall j :: r <= j < 8 ==> (a / BIT_VALUES[j]) % 2 == 0) <==> ShiftLeft(ShiftRight(a, 8 - r), 8 - r) == a
    ensures ShiftLeft(ShiftRight(a, 8 - r), 8 - r) <= a
    decreases 8 - r
  {
    if r == 8 {
    } else {
      LowBitsZero(a, r + 1);
      BitByShift(a, r);
      var n := 7 - r;
      var x := ShiftRight(a, n);
      ShiftOneMore(a, n);
      assert ShiftLeft(x / 2, n + 1) == ShiftLeft(2 * (x / 2), n);
      if x % 2 == 0 {
        assert 2 * (x / 2) == x;
      } else {
        ShiftLeftGrows(2 * (x / 2), x, n);
      }
    }
  }

  /** Host bits being zero, as arithmetic. */
  lemma CanonicalAsNumbers(c: CNlri)
    requires c.prefixLen <= 128
    ensures var k, r := c.prefixLen / 8, c.prefixLen % 8;
            Canonical(c) <==> (r > 0 ==> ShiftLeft(ShiftRight(c.address[k], 8 - r), 8 - r) == c.address[k])
                              && forall i :: (if r > 0 then k + 1 else k) <= i < 16 ==> c.address[i] == 0
  {
    var o, k, r := c.address, c.prefixLen / 8, c.prefixLen % 8;
    forall i | 0 <= i < 16
      ensures o[i] == 0 <==> ShiftLeft(ShiftRight(o[i], 8), 8) == o[i]
    {
      ShiftsOf(o[i]);
    }
    if Canonical(c) {
      forall i | (if r > 0 then k + 1 else k) <= i < 16
        ensures o[i] == 0
      {
        forall j | 0 <= j < 8
          ensures (o[i] / BIT_VALUES[j]) % 2 == 0
        {
          BitAt(o, i, j);
          assert !Bit(o, 8 * i + j);
        }
        LowBitsZero(o[i], 0);
      }
      if r > 0 {
        forall j | r <= j < 8
          ensures (o[k] / BIT_VALUES[j]) % 2 == 0
        {
          BitAt(o, k, j);
          assert !Bit(o, 8 * k + j);
        }
        LowBitsZero(o[k], r);
      }
    }
    if (r > 0 ==> ShiftLeft(ShiftRight(o[k], 8 - r), 8 - r) == o[k]) && forall i :: (if r > 0 then k + 1 else k) <= i < 16 ==> o[i] == 0 {
      forall i | c.prefixLen <= i < 128
        ensures !Bit(o, i)
      {
        if i / 8 == k {
          LowBitsZero(o[k], r);
        } else {
          LowBitsZero(o[i / 8], 0);
        }
      }
    }
  }

  /** Covering, as arithmetic on the octets of a family. */
  lemma CoversAsNumbers(n: Nlri, dest: IpAddr)
    ensures var k, r := n.len / 8, n.len % 8;
            Covers(n, dest) <==>
              match (n.addr, dest)
              case (V4(p), V4(d)) => p[..k] == d[..k] && (r > 0 ==> ShiftRight(p[k], 8 - r) == ShiftRight(d[k], 8 - r))
              case (V6(p), V6(d)) => p[..k] == d[..k] && (r > 0 ==> ShiftRight(p[k], 8 - r) == ShiftRight(d[k], 8 - r))
              case _ => false
  {
    match (n.addr, dest)
    case (V4(p), V4(d)) => AgreeAsNumbers(p, d, n.len);
    case (V6(p), V6(d)) => AgreeAsNumbers(p, d, n.len);
    case _ =>
  }

  /** Agreement beyond the first 96 bits means being mapped together. */
  lemma AgreeMapped(a: Octets16, b: Octets16, len: nat)
    requires 96 <= len <= 128 && Agree(a, b, len)
    ensures IsMapped(a) <==> IsMapped(b)
  {
    forall k | 0 <= k < 12
      ensures a[k] == b[k]
    {
      AgreeOnOctet(a, b, len, k);
    }
    assert a[..12] == b[..12];
  }

  lemma MappedAgree(p: Octets4, d: Octets4, len: nat)
    requires len <= 32
    ensures Agree(MAPPED_PREFIX + p, MAPPED_PREFIX + d, len + 96) <==> Agree(p, d, len)
  {
    var P, D := MAPPED_PREFIX + p, MAPPED_PREFIX + d;
    forall i | 0 <= i < len
      ensures Bit(P, i + 96) == Bit(p, i) && Bit(D, i + 96) == Bit(d, i)
    {
      assert (i + 96) / 8 == i / 8 + 12 && (i + 96) % 8 == i % 8;
    }
    if Agree(P, D, len + 96) {
      forall i | 0 <= i < len
        ensures Bit(p, i) == Bit(d, i)
      {
        assert Bit(P, i + 96) == Bit(D, i + 96);
      }
    }
    if Agree(p, d, len) {
      forall i | 0 <= i < len + 96
        ensures Bit(P, i) == Bit(D, i)
      {
        if i >= 96 {
          assert Bit(p, i - 96) == Bit(d, i - 96);
        }
      }
    }
  }

  /** Prefixes share a node exactly when their keys have one length and agree that far. */
  lemma SharedNode(n: Nlri, m: Nlri)
    ensures NodeOf(n) == NodeOf(m)
       <==> ToKey(n).prefixLen == ToKey(m).prefixLen && Agree(ToKey(n).address, ToKey(m).address, ToKey(n).prefixLen)
  {
    var a, b := ToKey(n), ToKey(m);
    if NodeOf(n) == NodeOf(m) {
      assert |NodeOf(n)| == |NodeOf(m)|;
      forall i | 0 <= i < a.prefixLen
        ensures Bit(a.address, i) == Bit(b.address, i)
      {
        assert NodeOf(n)[i] == NodeOf(m)[i];
      }
    }
  }

  lemma MappedByFamily(addr: IpAddr)
    ensures IsMapped(ToOctets(addr)) <==> addr.V4? || IsMapped(addr.octets6)
  {
    assert addr.V4? ==> ToOctets(addr)[..12] == MAPPED_PREFIX;
  }

  /** Outside the mapped range only prefixes of one family share a node, and only if they differ in host bits alone. */
  lemma SharedByFamily(n: Nlri, m: Nlri)
    requires !IsMappedV6(n) && !IsMappedV6(m)
    ensures NodeOf(n) == NodeOf(m) <==> n.len == m.len && Covers(n, m.addr)
  {
    SharedNode(n, m);
    MappedByFamily(n.addr);
    MappedByFamily(m.addr);
    if n.addr.V4? && m.addr.V4? {
      MappedAgree(n.addr.octets4, m.addr.octets4, n.len);
    } else if n.addr.V4? != m.addr.V4? && NodeOf(n) == NodeOf(m) {
      AgreeMapped(ToKey(n).address, ToKey(m).address, ToKey(n).prefixLen);
    }
  }

  lemma NodeMatchesKey(n: Nlri, dest: Octets16)
    ensures NodeMatches(NodeOf(n), dest) <==> Agree(ToKey(n).address, dest, ToKey(n).prefixLen)
  {
    var k, c := NodeOf(n), ToKey(n);
    assert |k| == c.prefixLen && forall i :: 0 <= i < |k| ==> k[i] == Bit(c.address, i);
  }

  /**
   * How a node matches, family by family: the trie agrees with per-family matching, an IPv4 prefix
   * matches nothing outside the mapped range, and an IPv6 prefix outside the mapped range matches
   * inside it only with fewer than 96 bits.
   */
  lemma NodeMatchesByFamily(n: Nlri, dest: IpAddr)
    requires !IsMappedV6(n) && !(dest.V6? && IsMapped(dest.octets6))
    ensures n.addr.V4? == dest.V4? ==> (NodeMatches(NodeOf(n), ToOctets(dest)) <==> Covers(n, dest))
    ensures n.addr.V4? && dest.V6? ==> !NodeMatches(NodeOf(n), ToOctets(dest))
    ensures n.addr.V6? && dest.V4? && NodeMatches(NodeOf(n), ToOctets(dest)) ==> n.len < 96
  {
    var c, o := ToKey(n), ToOctets(dest);
    NodeMatchesKey(n, o);
    MappedByFamily(n.addr);
    MappedByFamily(dest);
    if n.addr.V4? && dest.V4? {
      MappedAgree(n.addr.octets4, dest.octets4, n.len);
    } else if n.addr.V4? != dest.V4? && Agree(c.address, o, c.prefixLen) && c.prefixLen >= 96 {
      AgreeMapped(c.address, o, c.prefixLen);
    }
  }

  ghost predicate NoMappedV6(table: set<Nlri>) {
    forall n :: n in table ==> !IsMappedV6(n)
  }

  ghost predicate Covered(table: set<Nlri>, dest: IpAddr) {
    exists k :: k in table && Covers(k, dest)
  }

  ghost predicate LongestCover(table: set<Nlri>, dest: IpAddr, n: Nlri) {
    n in table && Covers(n, dest) && forall k :: k in table && Covers(k, dest) ==> k.len <= n.len
  }

  /**
   * An IPv4 destination gets its longest IPv4 prefix exactly when some IPv4 prefix covers it;
   * otherwise it falls through to an IPv6 prefix shorter than 96 bits.
   */
  lemma LookupV4(table: set<Nlri>, dest: IpAddr, k: Node, n: Nlri)
    requires NoMappedV6(table) && dest.V4?
    requires LongestMatch(Nodes(table), ToOctets(dest), k) && n in table && NodeOf(n) == k
    ensures Covered(table, dest) <==> n.addr.V4?
    ensures Covered(table, dest) ==> LongestCover(table, dest, n)
    ensures !Covered(table, dest) ==> n.len < 96
  {
    NodeMatchesByFamily(n, dest);
    forall m | m in table && Covers(m, dest)
      ensures n.addr.V4? && m.len <= n.len
    {
      NodeMatchesByFamily(m, dest);
      assert NodeOf(m) in Nodes(table);
      assert |NodeOf(m)| == m.len + 96 && |NodeOf(n)| == ToKey(n).prefixLen;
    }
  }

  /** An IPv6 destination outside the mapped range is only ever matched by IPv6 prefixes, longest first. */
  lemma LookupV6(table: set<Nlri>, dest: IpAddr, k: Node, n: Nlri)
    requires NoMappedV6(table) && dest.V6? && !IsMapped(dest.octets6)
    requires LongestMatch(Nodes(table), ToOctets(dest), k) && n in table && NodeOf(n) == k
    ensures n.addr.V6? && LongestCover(table, dest, n)
  {
    NodeMatchesByFamily(n, dest);
    forall m | m in table && Covers(m, dest)
      ensures m.len <= n.len
    {
      NodeMatchesByFamily(m, dest);
      assert NodeOf(m) in Nodes(table);
      assert |NodeOf(m)| == m.len && |NodeOf(n)| == n.len;
    }
  }

  /** A lookup has only one possible answer. */
  lemma LookupUnique(table: set<Node>, dest: Octets16, k: Node, k': Node)
    requires LongestMatch(table, dest, k) && LongestMatch(table, dest, k')
    ensures k == k'
  {
    assert |k| == |k'|;
    assert forall i :: 0 <= i < |k| ==> k[i] == Bit(dest, i) == k'[i];
  }

  /** A key whose host bits are zero. */
  predicate Canonical(c: CNlri) {
    c.prefixLen <= 128 && forall i :: c.prefixLen <= i < 128 ==> !Bit(c.address, i)
  }

  /** In the mapped range bit 95 is set, so a canonical key there has at least 96 bits. */
  lemma CanonicalIsReadable(c: CNlri)
    requires Canonical(c)
    ensures FromKey(c).Some?
  {
    if IsMapped(c.address) {
      assert c.address[11] == c.address[..12][11] == 255;
      assert BIT_VALUES[7] == 1 && Bit(c.address, 95);
    }
  }

  lemma SameOctets16(a: Octets16, b: Octets16)
    requires Agree(a, b, 128)
    ensures a == b
  {
    forall k | 0 <= k < 16
      ensures a[k] == b[k]
    {
      AgreeOnOctet(a, b, 128, k);
    }
  }

  /** With host bits zero every key has a node of its own, and so does every prefix outside the mapped range. */
  lemma NodeInjective(n: Nlri, m: Nlri)
    requires NodeOf(n) == NodeOf(m) && Canonical(ToKey(n)) && Canonical(ToKey(m))
    ensures ToKey(n) == ToKey(m)
    ensures !IsMappedV6(n) && !IsMappedV6(m) ==> n == m
  {
    SharedNode(n, m);
    forall i | 0 <= i < 128
      ensures Bit(ToKey(n).address, i) == Bit(ToKey(m).address, i)
    {
    }
    SameOctets16(ToKey(n).address, ToKey(m).address);
    if !IsMappedV6(n) && !IsMappedV6(m) {
      KeyInjective(n, m);
    }
  }

  /** Prefixes that differ only in host bits clash: 10.1.32.0/20 and 10.1.47.0/20 are one node. */
  lemma HostBitsClash()
    ensures NodeOf(Prefix(V4([10, 1, 32, 0]), 20)) == NodeOf(Prefix(V4([10, 1, 47, 0]), 20))
  {
    var n: Nlri, m: Nlri := Prefix(V4([10, 1, 32, 0]), 20), Prefix(V4([10, 1, 47, 0]), 20);
    forall i | 0 <= i < 20
      ensures Bit(n.addr.octets4, i) == Bit(m.addr.octets4, i)
    {
      if i < 16 {
        assert i / 8 == 0 || i / 8 == 1;
      } else {
        assert i / 8 == 2;
        SameTopBits(i % 8);
      }
    }
    assert Covers(n, m.addr);
    SharedByFamily(n, m);
  }

  /** 32 and 47 agree in their first four bits. */
  lemma SameTopBits(j: nat)
    requires j < 4
    ensures (32 / BIT_VALUES[j]) % 2 == (47 / BIT_VALUES[j]) % 2
  {
    assert BIT_VALUES[0] == 128 && BIT_VALUES[1] == 64 && BIT_VALUES[2] == 32 && BIT_VALUES[3] == 16;
  }
}
