/** Bit strings kept in bytes, bit `i` of the string being bit `i % 8`, counted from the
    low end, of byte `i / 8`. */
module BitOps {

  /** `_BIT_SET_N`: the byte with only bit `n % 8` set. */
  function BitSetN(n: nat): bv8 {
    var k := n % 8;
    if k == 0 then 0x01 else if k == 1 then 0x02 else if k == 2 then 0x04 else if k == 3 then 0x08
    else if k == 4 then 0x10 else if k == 5 then 0x20 else if k == 6 then 0x40 else 0x80
  }

  /** `_BIT_MSK_N`: the byte with the bits from `n % 8` upwards set. */
  function BitMskN(n: nat): bv8 {
    var k := n % 8;
    if k == 0 then 0xFF else if k == 1 then 0xFE else if k == 2 then 0xFC else if k == 3 then 0xF8
    else if k == 4 then 0xF0 else if k == 5 then 0xE0 else if k == 6 then 0xC0 else 0x80
  }

  /** The byte has a bit of the mask set. */
  predicate Hits(b: bv8, mask: bv8) {
    b & mask != 0
  }

  predicate Test(b: bv8, n: nat) {
    Hits(b, BitSetN(n))
  }

  function Changed(b: bv8, n: nat, on: bool): bv8 {
    if on then b | BitSetN(n) else b & !BitSetN(n)
  }

  predicate BitAt(s: seq<bv8>, i: nat)
    requires i / 8 < |s|
  {
    Test(s[i / 8], i)
  }

  lemma ChangedBits(b: bv8, n: nat, on: bool, i: nat)
    ensures Test(Changed(b, n, on), i) == if i % 8 == n % 8 then on else Test(b, i)
  {
  }

  /** Exactly bit `offset` of the string becomes `on`. */
  ghost predicate OneBitChanged(was: seq<bv8>, now: seq<bv8>, offset: nat, on: bool) {
    && |now| == |was|
    && forall i: nat :: i < 8 * |was| ==> BitAt(now, i) == if i == offset then on else BitAt(was, i)
  }

  lemma ByteChanged(was: seq<bv8>, offset: nat, on: bool)
    requires offset / 8 < |was|
    ensures OneBitChanged(was, was[offset / 8 := Changed(was[offset / 8], offset, on)], offset, on)
  {
    hide Test, Changed;
    var now := was[offset / 8 := Changed(was[offset / 8], offset, on)];
    forall i: nat | i < 8 * |was| ensures BitAt(now, i) == if i == offset then on else BitAt(was, i) {
      if i / 8 == offset / 8 {
        ChangedBits(was[offset / 8], offset, on, i);
      }
    }
  }

  method BitSet(base: array<bv8>, offset: int)
    requires offset / 8 < base.Length
    modifies base
    ensures if offset < 0 then base[..] == old(base[..]) else OneBitChanged(old(base[..]), base[..], offset, true)
  {
    hide OneBitChanged;
    if offset >= 0 {
      ByteChanged(base[..], offset, true);
      base[offset / 8] := base[offset / 8] | BitSetN(offset);
      assert base[..] == old(base[..])[offset / 8 := Changed(old(base[offset / 8]), offset, true)];
    }
  }

  method BitClr(base: array<bv8>, offset: int)
    requires offset / 8 < base.Length
    modifies base
    ensures if offset < 0 then base[..] == old(base[..]) else OneBitChanged(old(base[..]), base[..], offset, false)
  {
    hide OneBitChanged;
    if offset >= 0 {
      ByteChanged(base[..], offset, false);
      base[offset / 8] := base[offset / 8] & !BitSetN(offset);
      assert base[..] == old(base[..])[offset / 8 := Changed(old(base[offset / 8]), offset, false)];
    }
  }

  /** The bytes reach as far as the bits asked for; no byte beyond them is read. */
  ghost predicate Covers(s: seq<bv8>, offset: int, width: int) {
    offset >= 0 && width > 0 ==> (offset + width - 1) / 8 < |s|
  }

  /** No bit from `from` up to `to` equals `wanted`. */
  ghost predicate NoMatch(s: seq<bv8>, from: nat, to: int, wanted: bool)
    requires from < to ==> (to - 1) / 8 < |s|
  {
    forall i: nat :: from <= i < to ==> BitAt(s, i) != wanted
  }

  /** What a scan bit by bit would return: the distance from `offset` of the first bit
      equal to `wanted` among the next `width` bits, or -1. */
  ghost predicate FirstMatch(s: seq<bv8>, offset: int, width: int, wanted: bool, r: int)
    requires Covers(s, offset, width)
  {
    if offset < 0 || width < 0 then r == -1 else
    && (r == -1 || 0 <= r < width)
    && (r >= 0 ==> BitAt(s, offset + r) == wanted)
    && NoMatch(s, offset, offset + if r >= 0 then r else width, wanted)
  }

  lemma FirstMatchIsUnique(s: seq<bv8>, offset: int, width: int, wanted: bool, r: int, r': int)
    requires Covers(s, offset, width)
    requires FirstMatch(s, offset, width, wanted, r) && FirstMatch(s, offset, width, wanted, r')
    ensures r == r'
  {
    hide BitAt;
    assert r >= 0 ==> BitAt(s, offset + r) == wanted;
    assert r' >= 0 ==> BitAt(s, offset + r') == wanted;
  }

  /** The byte has a bit equal to `wanted` at position `n % 8` or above it. */
  ghost predicate MatchFrom(b: bv8, n: nat, wanted: bool) {
    Hits(if wanted then b else !b, BitMskN(n))
  }

  lemma LaterMatch(b: bv8, n: nat, wanted: bool)
    requires MatchFrom(b, n, wanted) && Test(b, n) != wanted
    ensures n % 8 < 7 && (n + 1) / 8 == n / 8
    ensures MatchFrom(b, n + 1, wanted) && BitSetN(n) << 1 == BitSetN(n + 1)
  {
    assert n % 8 < 7 ==> (n + 1) % 8 == n % 8 + 1;
  }

  lemma NoLaterMatch(b: bv8, n: nat, wanted: bool, i: nat)
    requires !MatchFrom(b, n, wanted) && n <= i && i / 8 == n / 8
    ensures Test(b, i) != wanted
  {
    assert n % 8 <= i % 8;
  }

  /** The scan inside one byte that is known to contain a match at or after bit `at`. */
  method ScanByte(b: bv8, at: nat, wanted: bool, ghost s: seq<bv8>) returns (found: nat)
    requires at / 8 < |s| && s[at / 8] == b && MatchFrom(b, at, wanted)
    ensures at <= found && found / 8 == at / 8
    ensures BitAt(s, found) == wanted && NoMatch(s, at, found, wanted)
  {
    hide BitSetN, MatchFrom, Hits;
    var mask := BitSetN(at);
    found := at;
    while Hits(b, mask) != wanted
      invariant at <= found && found / 8 == at / 8 && mask == BitSetN(found)
      invariant MatchFrom(b, found, wanted)
      invariant NoMatch(s, at, found, wanted)
      decreases 8 - found % 8
    {
      LaterMatch(b, found, wanted);
      mask := mask << 1;
      found := found + 1;
    }
  }

  /** A byte without a match from bit `at` upwards can be skipped. */
  lemma SkipByte(s: seq<bv8>, at: nat, to: nat, wanted: bool)
    requires at / 8 < |s| && !MatchFrom(s[at / 8], at, wanted)
    requires at <= to && (to == at || (to - 1) / 8 == at / 8)
    ensures NoMatch(s, at, to, wanted)
  {
    hide Test, MatchFrom;
    forall i: nat | at <= i < to ensures BitAt(s, i) != wanted {
      NoLaterMatch(s[at / 8], at, wanted, i);
    }
  }

  /** The byte has a zero outside the mask. */
  predicate Misses(b: bv8, mask: bv8) {
    b | mask != 0xFF
  }

  /** `~_BIT_MSK_N`: the byte with the bits below `n % 8` set. */
  function BitLowN(n: nat): bv8 {
    !BitMskN(n)
  }

  lemma ZeroSeen(b: bv8, n: nat)
    ensures Misses(b, BitLowN(n)) <==> MatchFrom(b, n, false)
  {
  }

  function Min(a: int, b: int): int {
    if a <= b then a else b
  }

  /** How far the byte-wise scan has come: nothing found before `position`, which is 0 or
      the start of a byte. */
  ghost predicate Scanned(s: seq<bv8>, offset: nat, width: nat, wanted: bool, position: nat, cp: nat) {
    && Covers(s, offset, width)
    && NoMatch(s, offset, offset + Min(position, width), wanted)
    && cp == (offset + position) / 8
    && (position == 0 || (offset + position) % 8 == 0)
  }

  lemma NextByte(s: seq<bv8>, offset: nat, width: nat, wanted: bool, position: nat, cp: nat)
    requires Scanned(s, offset, width, wanted, position, cp) && position < width
    requires !MatchFrom(s[cp], offset + position, wanted)
    ensures Scanned(s, offset, width, wanted, if position != 0 then position + 8 else 8 - offset % 8, cp + 1)
  {
    hide BitAt, MatchFrom;
    var next := if position != 0 then position + 8 else 8 - offset % 8;
    assert (offset + next) / 8 == cp + 1 && (offset + next) % 8 == 0;
    SkipByte(s, offset + position, offset + Min(next, width), wanted);
  }

  lemma FoundInByte(s: seq<bv8>, offset: nat, width: nat, wanted: bool, position: nat, cp: nat, found: nat)
    requires Scanned(s, offset, width, wanted, position, cp) && position < width
    requires offset + position <= found && found / 8 == cp
    requires BitAt(s, found) == wanted && NoMatch(s, offset + position, found, wanted)
    ensures FirstMatch(s, offset, width, wanted, if found - offset < width then found - offset else -1)
  {
    hide BitAt;
  }

  method BitSearch1(base: array<bv8>, offset: int, width: int) returns (r: int)
    requires Covers(base[..], offset, width)
    ensures FirstMatch(base[..], offset, width, true, r)
  {
    if offset < 0 || width < 0 {
      return -1;
    }
    ghost var s := base[..];
    var cp, position, cpmask := offset / 8, 0, BitMskN(offset);
    hide BitAt, BitMskN, Hits;
    while position < width
      invariant position >= 0 && cp >= 0 && Scanned(s, offset, width, true, position, cp) && s == base[..]
      invariant cpmask == BitMskN(offset + position)
      decreases width - position
    {
      assert base[cp] == s[cp];
      if Hits(base[cp], cpmask) {
        var found := ScanByte(base[cp], offset + position, true, s);
        FoundInByte(s, offset, width, true, position, cp, found);
        return if found - offset < width then found - offset else -1;
      }
      NextByte(s, offset, width, true, position, cp);
      position := if position != 0 then position + 8 else 8 - offset % 8;
      cp := cp + 1;
      cpmask := BitMskN(0);
      WholeByte(offset + position);
    }
    return -1;
  }

  lemma WholeByte(n: nat)
    requires n % 8 == 0
    ensures BitMskN(n) == BitMskN(0) && BitLowN(n) == BitLowN(0)
  {
  }

  method BitSearch0(base: array<bv8>, offset: int, width: int) returns (r: int)
    requires Covers(base[..], offset, width)
    ensures FirstMatch(base[..], offset, width, false, r)
  {
    if offset < 0 || width < 0 {
      return -1;
    }
    ghost var s := base[..];
    var cp, position, cpmask := offset / 8, 0, BitLowN(offset);
    hide BitAt, BitMskN, BitLowN, Misses, MatchFrom;
    while position < width
      invariant position >= 0 && cp >= 0 && Scanned(s, offset, width, false, position, cp) && s == base[..]
      invariant cpmask == BitLowN(offset + position)
      decreases width - position
    {
      assert base[cp] == s[cp];
      ZeroSeen(s[cp], offset + position);
      if Misses(base[cp], cpmask) {
        var found := ScanByte(base[cp], offset + position, false, s);
        FoundInByte(s, offset, width, false, position, cp, found);
        return if found - offset < width then found - offset else -1;
      }
      NextByte(s, offset, width, false, position, cp);
      position := if position != 0 then position + 8 else 8 - offset % 8;
      cp := cp + 1;
      cpmask := BitLowN(0);
      WholeByte(offset + position);
    }
    return -1;
  }
}
