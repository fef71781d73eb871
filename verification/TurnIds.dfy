/** Time-ordered turn ids: UUID version 7 over a clock that may go back. */
module TurnIds {
  import opened Prelude

  const DIGITS := "0123456789abcdef"
  const MS_LIMIT := 0x1_0000_0000_0000

  // ----- hexadecimal -----

  function Digit(n: nat): char
    requires n < 16
  {
    DIGITS[n]
  }

  /** The last `width` hexadecimal digits of n. */
  function Hex(n: nat, width: nat): (s: string)
    ensures |s| == width
  {
    if width == 0 then "" else Hex(n / 16, width - 1) + [Digit(n % 16)]
  }

  predicate IsByte(b: int) {
    0 <= b < 256
  }

  predicate AreBytes(bytes: seq<int>) {
    forall i | 0 <= i < |bytes| :: IsByte(bytes[i])
  }

  function HexOfBytes(bytes: seq<int>): (s: string)
    requires AreBytes(bytes)
    ensures |s| == 2 * |bytes|
  {
    if bytes == [] then ""
    else
      var b := bytes[|bytes| - 1];
      HexOfBytes(bytes[..|bytes| - 1]) + [Digit(b / 16), Digit(b % 16)]
  }

  method EncodeHex(bytes: seq<int>) returns (s: string)
    requires AreBytes(bytes)
    ensures s == HexOfBytes(bytes)
  {
    s := "";
    for i := 0 to |bytes|
      invariant s == HexOfBytes(bytes[..i])
    {
      assert bytes[..i + 1][..i] == bytes[..i];
      s := s + [Digit(bytes[i] / 16), Digit(bytes[i] % 16)];
    }
    assert bytes[..|bytes|] == bytes;
  }

  /** The number that big-endian bytes stand for. */
  function Decoded(bytes: seq<int>): int {
    if bytes == [] then 0 else 256 * Decoded(bytes[..|bytes| - 1]) + bytes[|bytes| - 1]
  }

  // ----- the id -----

  function TimeBytes(ms: nat): seq<int> {
    [ms / 0x100_0000_0000 % 256, ms / 0x1_0000_0000 % 256, ms / 0x100_0000 % 256, ms / 0x1_0000 % 256, ms / 0x100 % 256, ms % 256]
  }

  /** Ten random bytes with the version in the high half of the first and the variant in the top bits of the third. */
  function Tail(random: seq<int>): seq<int>
    requires |random| == 10 && AreBytes(random)
  {
    [0x70 + random[0] % 16, random[1], 0x80 + random[2] % 64] + random[3..]
  }

  function Dashed(hex: string): string
    requires |hex| == 32
  {
    hex[..8] + "-" + hex[8..12] + "-" + hex[12..16] + "-" + hex[16..20] + "-" + hex[20..]
  }

  function Undashed(id: string): string
    requires |id| == 36
  {
    id[..8] + id[9..13] + id[14..18] + id[19..23] + id[24..]
  }

  lemma DashesComeOff(hex: string)
    requires |hex| == 32
    ensures |Dashed(hex)| == 36 && Undashed(Dashed(hex)) == hex
    ensures var id := Dashed(hex); id[8] == id[13] == id[18] == id[23] == '-'
  {
    var id := Dashed(hex);
    assert id[..8] == hex[..8] && id[9..13] == hex[8..12] && id[14..18] == hex[12..16];
    assert id[19..23] == hex[16..20] && id[24..] == hex[20..];
  }

  /** The sixteen bytes of an id minted at a clamped time. */
  function IdBytes(ms: nat, random: seq<int>): seq<int>
    requires |random| == 10 && AreBytes(random)
  {
    TimeBytes(ms) + Tail(random)
  }

  class Minter {
    var lastMs: nat

    constructor ()
      ensures lastMs == 0
    {
      lastMs := 0;
    }

    /** The high-water mark moves even when no random bytes can be read. */
    method MintTurnID(clock: int, random: Option<seq<int>>) returns (id: Option<string>)
      requires random.Some? ==> |random.value| == 10 && AreBytes(random.value)
      modifies this
      ensures lastMs == Clamped(old(lastMs), clock)
      ensures id.Some? <==> random.Some?
      ensures id.Some? ==> Mints(id.value, lastMs, random.value)
    {
      var now := clock;
      if now <= lastMs {
        now := lastMs;
      }
      lastMs := now;
      if random.None? {
        return None;
      }
      var r := random.value;
      var b := [now / 0x100_0000_0000 % 256, now / 0x1_0000_0000 % 256, now / 0x100_0000 % 256, now / 0x1_0000 % 256,
                now / 0x100 % 256, now % 256];
      b := b + [0x70 + r[0] % 16, r[1], 0x80 + r[2] % 64];
      b := b + r[3..10];
      assert b == IdBytes(now, r);
      var hex := EncodeHex(b);
      id := Some(hex[0..8] + "-" + hex[8..12] + "-" + hex[12..16] + "-" + hex[16..20] + "-" + hex[20..32]);
      assert id.value == Dashed(hex);
    }
  }

  function Clamped(last: nat, clock: int): nat {
    if clock <= last then last else clock
  }

  predicate Mints(id: string, ms: nat, random: seq<int>) {
    && |random| == 10 && AreBytes(random) && AreBytes(IdBytes(ms, random))
    && id == Dashed(HexOfBytes(IdBytes(ms, random)))
  }

  // ----- layout -----

  function Power(width: nat): nat {
    if width == 0 then 1 else 256 * Power(width - 1)
  }

  function BigEndian(n: nat, width: nat): (bytes: seq<int>)
    ensures |bytes| == width && AreBytes(bytes)
  {
    if width == 0 then [] else BigEndian(n / 256, width - 1) + [n % 256]
  }

  lemma TimeIsBigEndian(ms: nat)
    ensures TimeBytes(ms) == BigEndian(ms, 6) && Power(6) == MS_LIMIT
  {
    var a, b, c, d, e := ms / 0x100, ms / 0x1_0000, ms / 0x100_0000, ms / 0x1_0000_0000, ms / 0x100_0000_0000;
    assert b == a / 256 && c == b / 256 && d == c / 256 && e == d / 256;
    assert BigEndian(e / 256, 0) == [] && BigEndian(e, 1) == [e % 256] && BigEndian(d, 2) == [e % 256, d % 256];
    assert BigEndian(c, 3) == [e % 256, d % 256, c % 256] && BigEndian(b, 4) == [e % 256, d % 256, c % 256, b % 256];
    assert BigEndian(a, 5) == [e % 256, d % 256, c % 256, b % 256, a % 256];
    assert Power(1) == 0x100 && Power(2) == 0x1_0000 && Power(3) == 0x100_0000 && Power(4) == 0x1_0000_0000;
  }

  lemma {:induction false} BigEndianDecodes(n: nat, width: nat)
    ensures 0 <= Decoded(BigEndian(n, width)) < Power(width)
    ensures n < Power(width) ==> Decoded(BigEndian(n, width)) == n
  {
    if width > 0 {
      BigEndianDecodes(n / 256, width - 1);
      var bytes := BigEndian(n, width);
      assert bytes[..width - 1] == BigEndian(n / 256, width - 1);
    }
  }

  lemma DigitsOfByte(n: nat)
    ensures n / 16 / 16 == n / 256 && n % 256 / 16 == n / 16 % 16 && n % 256 % 16 == n % 16
  {
  }

  lemma TwoDigits(n: nat, width: nat)
    ensures Hex(n, width + 2) == Hex(n / 256, width) + [Digit(n % 256 / 16), Digit(n % 256 % 16)]
  {
    DigitsOfByte(n);
    assert Hex(n, width + 2) == Hex(n / 16, width + 1) + [Digit(n % 16)];
    assert Hex(n / 16, width + 1) == Hex(n / 16 / 16, width) + [Digit(n / 16 % 16)];
  }

  lemma {:induction false} HexOfBigEndian(n: nat, width: nat)
    ensures HexOfBytes(BigEndian(n, width)) == Hex(n, 2 * width)
  {
    if width > 0 {
      HexOfBigEndian(n / 256, width - 1);
      OneMoreByte(BigEndian(n / 256, width - 1), n % 256);
      TwoDigits(n, 2 * width - 2);
    }
  }

  lemma OneMoreByte(bytes: seq<int>, b: int)
    requires AreBytes(bytes) && IsByte(b)
    ensures AreBytes(bytes + [b]) && HexOfBytes(bytes + [b]) == HexOfBytes(bytes) + [Digit(b / 16), Digit(b % 16)]
  {
    assert (bytes + [b])[..|bytes|] == bytes;
  }

  lemma {:induction false} HexOfConcat(a: seq<int>, b: seq<int>)
    requires AreBytes(a) && AreBytes(b)
    ensures AreBytes(a + b) && HexOfBytes(a + b) == HexOfBytes(a) + HexOfBytes(b)
  {
    if b == [] {
      assert a + b == a;
    } else {
      var n := |b| - 1;
      var init, last, pair := b[..n], b[n], [Digit(b[n] / 16), Digit(b[n] % 16)];
      HexOfConcat(a, init);
      OneMoreByte(a + init, last);
      assert a + b == (a + init) + [last];
      calc {
        HexOfBytes(a + b);
        HexOfBytes(a + init) + pair;
        (HexOfBytes(a) + HexOfBytes(init)) + pair;
        HexOfBytes(a) + (HexOfBytes(init) + pair);
        HexOfBytes(a) + HexOfBytes(b);
      }
    }
  }

  lemma {:induction false} HexDigitOf(bytes: seq<int>, i: nat)
    requires AreBytes(bytes) && i < |bytes|
    ensures HexOfBytes(bytes)[2 * i] == Digit(bytes[i] / 16) && HexOfBytes(bytes)[2 * i + 1] == Digit(bytes[i] % 16)
  {
    if i < |bytes| - 1 {
      HexDigitOf(bytes[..|bytes| - 1], i);
    }
  }

  /** The first eight and the next four hexadecimal digits of an id. */
  function TimePrefix(id: string): string
    requires |id| == 36
  {
    id[..8] + id[9..13]
  }

  lemma VersionAndVariant(random: seq<int>, ms: nat)
    requires |random| == 10 && AreBytes(random) && AreBytes(IdBytes(ms, random))
    ensures var bytes, hex := IdBytes(ms, random), HexOfBytes(IdBytes(ms, random));
      |bytes| == 16 && bytes[6] / 16 == 7 && bytes[8] / 64 == 2 && hex[12] == '7' && hex[16] in "89ab"
  {
    var bytes := IdBytes(ms, random);
    HexDigitOf(bytes, 6);
    HexDigitOf(bytes, 8);
    assert bytes[6] == 0x70 + random[0] % 16 && bytes[8] == 0x80 + random[2] % 64;
    var n := bytes[8] / 16;
    assert 8 <= n < 12 && Digit(n) == "89ab"[n - 8];
  }

  lemma TimeComesFirst(random: seq<int>, ms: nat)
    requires |random| == 10 && AreBytes(random) && AreBytes(IdBytes(ms, random))
    ensures Decoded(IdBytes(ms, random)[..6]) == ms <==> ms < MS_LIMIT
    ensures HexOfBytes(IdBytes(ms, random))[..12] == Hex(ms, 12)
  {
    TimeIsBigEndian(ms);
    BigEndianDecodes(ms, 6);
    assert IdBytes(ms, random)[..6] == TimeBytes(ms);
    HexOfBigEndian(ms, 6);
    HexOfConcat(TimeBytes(ms), Tail(random));
  }

  /** An id is version 7 and variant 10, and starts with the clamped time, which decodes exactly while it fits 48 bits. */
  lemma IdIsVersionSeven(id: string, ms: nat, random: seq<int>)
    requires Mints(id, ms, random)
    ensures |id| == 36 && id[14] == '7' && id[19] in "89ab"
    ensures var bytes := IdBytes(ms, random);
      && Undashed(id) == HexOfBytes(bytes) && |bytes| == 16
      && bytes[6] / 16 == 7 && bytes[8] / 64 == 2 && (Decoded(bytes[..6]) == ms <==> ms < MS_LIMIT)
    ensures TimePrefix(id) == Hex(ms, 12)
  {
    var hex := HexOfBytes(IdBytes(ms, random));
    DashesComeOff(hex);
    VersionAndVariant(random, ms);
    TimeComesFirst(random, ms);
    assert id[14] == hex[12] && id[19] == hex[16];
    assert TimePrefix(id) == hex[..12];
  }

  // ----- reading an id back -----

  /** The value of a lower-case hexadecimal digit. */
  function DigitValue(c: char): int {
    if '0' <= c <= '9' then c as int - '0' as int else if 'a' <= c <= 'f' then c as int - 'a' as int + 10 else -1
  }

  /** The bytes that a text of hexadecimal pairs stands for. */
  function BytesOf(hex: string): (bytes: seq<int>)
    ensures |bytes| == |hex| / 2
  {
    seq(|hex| / 2, (i: nat) requires i < |hex| / 2 => 16 * DigitValue(hex[2 * i]) + DigitValue(hex[2 * i + 1]))
  }

  lemma DigitReadsBack(n: nat)
    requires n < 16
    ensures DigitValue(Digit(n)) == n
  {
    assert n < 10 ==> Digit(n) as int == '0' as int + n;
    assert n >= 10 ==> Digit(n) as int == 'a' as int + (n - 10);
  }

  lemma PairReadsBack(b: int)
    requires IsByte(b)
    ensures 16 * DigitValue(Digit(b / 16)) + DigitValue(Digit(b % 16)) == b
  {
    DigitReadsBack(b / 16);
    DigitReadsBack(b % 16);
  }

  lemma HexReadsBack(bytes: seq<int>)
    requires AreBytes(bytes)
    ensures BytesOf(HexOfBytes(bytes)) == bytes
  {
    forall i | 0 <= i < |bytes| ensures BytesOf(HexOfBytes(bytes))[i] == bytes[i] {
      HexDigitOf(bytes, i);
      PairReadsBack(bytes[i]);
    }
  }

  /**
    * Without its dashes an id reads back as sixteen bytes: the 48 lowest bits of the clamped time, and all the random bits
    * but those that the version and the variant take.
    */
  lemma IdReadsBack(id: string, ms: nat, random: seq<int>)
    requires Mints(id, ms, random)
    ensures |id| == 36
    ensures var bytes := BytesOf(id[..8] + id[9..13] + id[14..18] + id[19..23] + id[24..]);
      && |bytes| == 16 && 0 <= Decoded(bytes[..6]) < 0x1_0000_0000_0000 && (Decoded(bytes[..6]) == ms <==> ms < 0x1_0000_0000_0000)
      && bytes[6] == 0x70 + random[0] % 16 && bytes[7] == random[1]
      && bytes[8] == 0x80 + random[2] % 64 && bytes[9..] == random[3..]
  {
    IdIsVersionSeven(id, ms, random);
    var bytes := IdBytes(ms, random);
    HexReadsBack(bytes);
    assert BytesOf(Undashed(id)) == bytes;
    TimeIsBigEndian(ms);
    BigEndianDecodes(ms, 6);
    assert bytes[..6] == TimeBytes(ms) && bytes[6..] == Tail(random);
    assert bytes[9..] == Tail(random)[3..] == random[3..];
  }

  // ----- order -----

  /** Lexicographic order of texts of equal length. */
  predicate LexLess(s: string, t: string)
    requires |s| == |t|
  {
    exists i | 0 <= i < |s| :: s[..i] == t[..i] && s[i] < t[i]
  }

  lemma DigitsAscend(m: nat, n: nat)
    requires m < n < 16
    ensures Digit(m) < Digit(n)
  {
  }

  /** Hexadecimal texts of one width order as their numbers. */
  lemma {:induction false} HexAscends(m: nat, n: nat, width: nat)
    requires m < n < Power16(width)
    ensures LexLess(Hex(m, width), Hex(n, width))
  {
    var s, t := Hex(m, width), Hex(n, width);
    if m / 16 < n / 16 {
      HexAscends(m / 16, n / 16, width - 1);
      var s', t' := Hex(m / 16, width - 1), Hex(n / 16, width - 1);
      var i :| 0 <= i < |s'| && s'[..i] == t'[..i] && s'[i] < t'[i];
      assert s[..i] == s'[..i] && t[..i] == t'[..i] && s[i] == s'[i] && t[i] == t'[i];
    } else {
      DigitsAscend(m % 16, n % 16);
      assert s[..width - 1] == t[..width - 1];
    }
  }

  function Power16(width: nat): nat {
    if width == 0 then 1 else 16 * Power16(width - 1)
  }

  lemma TwelveDigits()
    ensures Power16(12) == MS_LIMIT
  {
    assert Power16(4) == 0x1_0000 by {
      assert Power16(2) == 0x100;
    }
    assert Power16(8) == 0x1_0000_0000 by {
      assert Power16(6) == 0x100_0000;
    }
    assert Power16(10) == 0x100_0000_0000;
  }

  /** The clamped times of successive mints, whatever the clock shows. */
  function Marks(last: nat, clocks: seq<int>): seq<nat> {
    if clocks == [] then []
    else
      var front := Marks(last, clocks[..|clocks| - 1]);
      front + [Clamped(if front == [] then last else front[|front| - 1], clocks[|clocks| - 1])]
  }

  lemma {:induction false} MarksNeverFall(last: nat, clocks: seq<int>, i: nat, j: nat)
    requires i <= j < |clocks|
    ensures |Marks(last, clocks)| == |clocks| && last <= Marks(last, clocks)[i] <= Marks(last, clocks)[j]
    ensures clocks[j] <= Marks(last, clocks)[j]
  {
    var n := |clocks| - 1;
    if n > 0 {
      MarksNeverFall(last, clocks[..n], if i < n then i else n - 1, if j < n then j else n - 1);
    }
  }

  lemma TimesSort(m: nat, n: nat)
    requires m <= n < MS_LIMIT
    ensures Hex(m, 12) == Hex(n, 12) || LexLess(Hex(m, 12), Hex(n, 12))
  {
    if m < n {
      TwelveDigits();
      HexAscends(m, n, 12);
    }
  }

  /** Later ids never sort before earlier ones, however the clock jumps. */
  lemma LaterIdsSortLater(last: nat, clocks: seq<int>, i: nat, j: nat, earlier: string, later: string,
                          random: seq<int>, moreRandom: seq<int>)
    requires i <= j < |clocks| == |Marks(last, clocks)| && Marks(last, clocks)[j] < MS_LIMIT
    requires Mints(earlier, Marks(last, clocks)[i], random) && Mints(later, Marks(last, clocks)[j], moreRandom)
    ensures |earlier| == 36 && |later| == 36
    ensures TimePrefix(earlier) == TimePrefix(later) || LexLess(TimePrefix(earlier), TimePrefix(later))
  {
    MarksNeverFall(last, clocks, i, j);
    IdIsVersionSeven(earlier, Marks(last, clocks)[i], random);
    IdIsVersionSeven(later, Marks(last, clocks)[j], moreRandom);
    TimesSort(Marks(last, clocks)[i], Marks(last, clocks)[j]);
  }
}
