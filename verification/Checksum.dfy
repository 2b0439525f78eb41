/** The Internet checksum of RFC 1071, and its incremental update when a TTL is decremented. */
module Checksum {
  import opened Addresses
  import opened Apportionment

  /** A 16-bit word in network order, or in the order of a little-endian host. */
  function WordOf(first: Byte, second: Byte, big: bool): nat {
    if big then 256 * first + second else 256 * second + first
  }

  function Words(h: seq<Byte>, big: bool): seq<int> {
    seq(|h| / 2, i requires 0 <= i < |h| / 2 => WordOf(h[2 * i], h[2 * i + 1], big))
  }

  /** The sum of all words, before folding carries. */
  function RawSum(h: seq<Byte>, big: bool): int {
    SumInt(Words(h, big))
  }

  /** Folding carries until the sum fits 16 bits. */
  function Fold(s: nat): nat {
    if s < 0x1_0000 then s else Fold(s / 0x1_0000 + s % 0x1_0000)
  }

  /** A header is valid when the ones'-complement sum of its words is all ones. */
  ghost predicate ValidHeader(h: seq<Byte>, big: bool) {
    RawSum(h, big) >= 0 && Fold(RawSum(h, big)) == 0xffff
  }

  lemma {:induction false} FoldIsModular(s: nat)
    ensures Fold(s) < 0x1_0000
    ensures Fold(s) % 0xffff == s % 0xffff
    ensures Fold(s) == 0 <==> s == 0
  {
    if s < 0x1_0000 {
    } else {
      var q, r := s / 0x1_0000, s % 0x1_0000;
      FoldIsModular(q + r);
      SameRemainder(q + r, q);
    }
  }

  lemma SameRemainder(x: nat, q: nat)
    ensures (x + 0xffff * q) % 0xffff == x % 0xffff
  {
  }

  lemma FoldsToOnes(s: nat)
    ensures Fold(s) == 0xffff <==> s > 0 && s % 0xffff == 0
  {
    FoldIsModular(s);
  }

  // Byte order does not matter

  /** A word with its two bytes swapped. */
  function Swap(w: int): int {
    256 * (w % 256) + w / 256
  }

  ghost predicate Swapped(x: seq<int>, y: seq<int>) {
    |x| == |y| && forall i :: 0 <= i < |x| ==> 0 <= x[i] < 0x1_0000 && y[i] == Swap(x[i])
  }

  /** Swapping the bytes of every word multiplies the sum by 256, modulo 0xffff. */
  lemma {:induction false} SwappedSum(x: seq<int>, y: seq<int>) returns (k: int)
    requires Swapped(x, y)
    ensures 256 * SumInt(x) == SumInt(y) + 0xffff * k
    ensures SumInt(y) == 0 ==> SumInt(x) == 0
    ensures SumInt(x) >= 0 && SumInt(y) >= 0
  {
    if x == [] {
      k := 0;
    } else {
      var rest := SwappedSum(x[1..], y[1..]);
      SwapWord(x[0]);
      k := rest + x[0] / 256;
    }
  }

  lemma SwapWord(w: nat)
    requires w < 0x1_0000
    ensures 256 * w == Swap(w) + 0xffff * (w / 256)
    ensures Swap(w) >= 0 && (Swap(w) == 0 ==> w == 0)
  {
    assert w == 256 * (w / 256) + w % 256;
  }

  lemma ZeroRemainder(s: nat, t: nat, k: int)
    requires 256 * s == t + 0xffff * k && s % 0xffff == 0
    ensures t % 0xffff == 0
  {
    var q := s / 0xffff;
    assert s == 0xffff * q;
    assert t == 0xffff * (256 * q - k);
    MultipleRemainder(256 * q - k);
  }

  lemma MultipleRemainder(m: int)
    ensures (0xffff * m) % 0xffff == 0
  {
  }

  lemma WordsSwapped(h: seq<Byte>, big: bool)
    ensures Swapped(Words(h, big), Words(h, !big))
  {
    forall i | 0 <= i < |h| / 2
      ensures WordOf(h[2 * i], h[2 * i + 1], !big) == Swap(WordOf(h[2 * i], h[2 * i + 1], big))
    {
      SwapOf(h[2 * i], h[2 * i + 1], big);
    }
  }

  lemma SwapOf(first: Byte, second: Byte, big: bool)
    ensures WordOf(first, second, !big) == Swap(WordOf(first, second, big))
  {
  }

  lemma ValidInOtherOrder(h: seq<Byte>, big: bool)
    requires ValidHeader(h, big)
    ensures ValidHeader(h, !big)
  {
    WordsSwapped(h, big);
    var k := SwappedSum(Words(h, big), Words(h, !big));
    FoldsToOnes(RawSum(h, big));
    FoldsToOnes(RawSum(h, !big));
    ZeroRemainder(RawSum(h, big), RawSum(h, !big), k);
  }

  /** The same header is valid whichever order its words are read in (section 2 of RFC 1071). */
  lemma ByteOrderIndependent(h: seq<Byte>)
    ensures ValidHeader(h, true) <==> ValidHeader(h, false)
  {
    if ValidHeader(h, true) {
      ValidInOtherOrder(h, true);
    }
    if ValidHeader(h, false) {
      ValidInOtherOrder(h, false);
    }
  }

  // Decrementing the TTL

  const TTL: nat := 8
  const CHECK: nat := 10

  /** The check field after a TTL decrement, computed in the order of the host. */
  function NewCheck(check: nat, big: bool): nat {
    var sum := check + Unit(big);
    (sum + if sum >= 0xffff then 1 else 0) % 0x1_0000
  }

  /** A header with its TTL decremented and its check field updated. */
  function Decremented(h: seq<Byte>, big: bool): seq<Byte>
    requires |h| >= 20 && h[TTL] > 0
  {
    var check := NewCheck(WordOf(h[CHECK], h[CHECK + 1], big), big);
    var high: Byte, low: Byte := check / 256, check % 256;
    h[TTL := h[TTL] - 1][CHECK := if big then high else low][CHECK + 1 := if big then low else high]
  }

  lemma {:induction false} SumIntUpdate(x: seq<int>, k: nat, v: int)
    requires k < |x|
    ensures SumInt(x[k := v]) == SumInt(x) - x[k] + v
  {
    if k == 0 {
      assert x[0 := v][1..] == x[1..];
    } else {
      assert x[k := v][1..] == x[1..][k - 1 := v];
      SumIntUpdate(x[1..], k - 1, v);
    }
  }

  /** How much the TTL word loses, and the check word is meant to gain. */
  function Unit(big: bool): nat {
    if big then 0x0100 else 0x0001
  }

  lemma DecrementedWords(h: seq<Byte>, big: bool)
    requires |h| >= 20 && h[TTL] > 0
    ensures var x := Words(h, big);
            Words(Decremented(h, big), big) == x[4 := x[4] - Unit(big)][5 := NewCheck(x[5], big)]
  {
    var x, h' := Words(h, big), Decremented(h, big);
    forall i | 0 <= i < |x|
      ensures Words(h', big)[i] == x[4 := x[4] - Unit(big)][5 := NewCheck(x[5], big)][i]
    {
    }
  }

  /** The update is exact up to one end-around carry. */
  lemma NewCheckBound(check: nat, big: bool)
    requires check < 0x1_0000
    ensures NewCheck(check, big) == check + Unit(big) || NewCheck(check, big) == check + Unit(big) - 0xffff
  {
  }

  /** Decrementing leaves the sum of the words unchanged, up to one end-around carry. */
  lemma DecrementedSum(h: seq<Byte>, big: bool)
    requires |h| >= 20 && h[TTL] > 0
    ensures RawSum(Decremented(h, big), big) == RawSum(h, big)
         || RawSum(Decremented(h, big), big) == RawSum(h, big) - 0xffff
  {
    var x := Words(h, big);
    var y := x[4 := x[4] - Unit(big)];
    DecrementedWords(h, big);
    SumIntUpdate(x, 4, x[4] - Unit(big));
    SumIntUpdate(y, 5, NewCheck(x[5], big));
    NewCheckBound(x[5], big);
  }

  lemma {:induction false} SumAboveWord(x: seq<int>, k: nat)
    requires k < |x| && forall i :: 0 <= i < |x| ==> x[i] >= 0
    ensures SumInt(x) >= x[k]
  {
    if k > 0 {
      SumAboveWord(x[1..], k - 1);
    } else if |x| > 1 {
      SumAboveWord(x[1..], 0);
    }
  }

  /** A TTL that is not zero keeps the sum of the words above zero. */
  lemma PositiveSum(h: seq<Byte>, big: bool)
    requires |h| >= 20 && h[TTL] > 0
    ensures RawSum(h, big) > 0
  {
    SumAboveWord(Words(h, big), 4);
    assert Words(h, big)[4] == WordOf(h[TTL], h[TTL + 1], big);
  }

  lemma ModularStep(s: nat, t: nat)
    requires t == s || t == s - 0xffff
    ensures s % 0xffff == 0 <==> t % 0xffff == 0
  {
  }

  /**
   * As long as the TTL was above one, a valid header stays valid and a corrupt one stays corrupt,
   * in either byte order, on a host of either byte order and with any number of options.
   */
  lemma DecrementKeepsValidity(h: seq<Byte>, host: bool, big: bool)
    requires |h| >= 20 && h[TTL] > 1
    ensures ValidHeader(Decremented(h, host), big) <==> ValidHeader(h, big)
  {
    ByteOrderIndependent(h);
    var h' := Decremented(h, host);
    DecrementedSum(h, host);
    PositiveSum(h, host);
    PositiveSum(h', host);
    FoldsToOnes(RawSum(h, host));
    FoldsToOnes(RawSum(h', host));
    ModularStep(RawSum(h, host), RawSum(h', host));
    ByteOrderIndependent(h');
  }
}
