/**
 Event identifiers, `uuidV7` in backend/internal/normalization/normalizer.go:41-66: version 7
 UUIDs (section 5.7 of RFC 9562) whose text order is the order of their times.
 */
module UuidV7 {

  type Byte = x: int | 0 <= x < 256

  const TWO48 := 0x1_0000_0000_0000

  /** Byte `j` of the 48-bit time, the most significant first. */
  function TimeByte(ms: nat, j: nat): Byte
    requires j < 6
  {
    match j
    case 0 => ms / 0x100_0000_0000 % 256
    case 1 => ms / 0x1_0000_0000 % 256
    case 2 => ms / 0x100_0000 % 256
    case 3 => ms / 0x1_0000 % 256
    case 4 => ms / 0x100 % 256
    case 5 => ms % 256
  }

  /** The sixteen bytes: time, then random bits with version 7 and variant 10 written over. */
  function Stamped(ms: nat, random: seq<Byte>): (b: seq<Byte>)
    requires |random| == 16
    ensures |b| == 16
  {
    seq(16, i requires 0 <= i < 16 =>
      if i < 6 then TimeByte(ms, i)
      else if i == 6 then 0x70 + random[6] % 16
      else if i == 8 then 0x80 + random[8] % 64
      else random[i])
  }

  /** Masking with 0x0f and 0x3f keeps the remainder; the bits set above it just add. */
  lemma VersionMask(b: bv8)
    ensures ((b & 0x0f) | 0x70) as int == 0x70 + b as int % 16
  {
    assert (b & 0x0f) | 0x70 == 0x70 + b % 16;
    assert b % 16 < 16;
  }

  lemma VariantMask(b: bv8)
    ensures ((b & 0x3f) | 0x80) as int == 0x80 + b as int % 64
  {
    assert (b & 0x3f) | 0x80 == 0x80 + b % 64;
    assert b % 64 < 64;
  }

  function HexDigit(n: int): char
    requires 0 <= n < 16
  {
    if n < 10 then '0' + n as char else 'a' + (n - 10) as char
  }

  /** The high (0) or low (1) hex digit of a byte. */
  function Nibble(b: Byte, which: int): char {
    HexDigit(if which == 0 then b / 16 else b % 16)
  }

  /** The character at a place of the text: hex groups of 4, 2, 2, 2 and 6 bytes. */
  function CharAt(b: seq<Byte>, p: nat): char
    requires |b| == 16 && p < 36
  {
    if p < 8 then Nibble(b[p / 2], p % 2)
    else if p == 8 || p == 13 || p == 18 || p == 23 then '-'
    else if p < 13 then Nibble(b[4 + (p - 9) / 2], (p - 9) % 2)
    else if p < 18 then Nibble(b[6 + (p - 14) / 2], (p - 14) % 2)
    else if p < 23 then Nibble(b[8 + (p - 19) / 2], (p - 19) % 2)
    else Nibble(b[10 + (p - 24) / 2], (p - 24) % 2)
  }

  function Text(b: seq<Byte>): (s: string)
    requires |b| == 16
    ensures |s| == 36 && forall p :: 0 <= p < 36 ==> s[p] == CharAt(b, p)
  {
    seq(36, p requires 0 <= p < 36 => CharAt(b, p))
  }

  /* ---------- The generator ---------- */

  /** `hex.Encode` into a slice of the buffer. */
  method EncodeHex(buf: array<char>, at: nat, b: seq<Byte>, from: nat, n: nat)
    requires at + 2 * n <= buf.Length && from + n <= |b|
    modifies buf
    ensures forall k :: at <= k < at + 2 * n ==> buf[k] == Nibble(b[from + (k - at) / 2], (k - at) % 2)
    ensures forall k :: 0 <= k < at || at + 2 * n <= k < buf.Length ==> buf[k] == old(buf[k])
  {
    for i := 0 to n
      invariant forall k :: at <= k < at + 2 * i ==> buf[k] == Nibble(b[from + (k - at) / 2], (k - at) % 2)
      invariant forall k :: 0 <= k < at || at + 2 * i <= k < buf.Length ==> buf[k] == old(buf[k])
    {
      buf[at + 2 * i] := Nibble(b[from + i], 0);
      buf[at + 2 * i + 1] := Nibble(b[from + i], 1);
    }
  }

  /** The numbers that random bytes stand for. */
  function Numbers(random: seq<bv8>): (b: seq<Byte>)
    ensures |b| == |random| && forall i :: 0 <= i < |b| ==> b[i] == random[i] as int
  {
    seq(|random|, i requires 0 <= i < |random| => random[i] as int)
  }

  /** Overwrites time, version and variant in place, as the source does. The masks work on the
      bits of bytes 6 and 8, which are still random. */
  method StampBytes(b: array<Byte>, ms: nat, random: seq<bv8>)
    requires b.Length == |random| == 16 && b[..] == Numbers(random)
    modifies b
    ensures b[..] == Stamped(ms, old(b[..]))
  {
    ghost var before := b[..];
    StampTime(b, ms);
    assert before[6] == random[6] as int && before[8] == random[8] as int;
    var version := MaskVersion(random[6]);
    var variant := MaskVariant(random[8]);
    b[6], b[8] := version, variant;
  }

  method MaskVersion(b: bv8) returns (y: int)
    ensures y == 0x70 + b as int % 16
  {
    VersionMask(b);
    y := ((b & 0x0f) | 0x70) as int;
  }

  method MaskVariant(b: bv8) returns (y: int)
    ensures y == 0x80 + b as int % 64
  {
    VariantMask(b);
    y := ((b & 0x3f) | 0x80) as int;
  }

  method StampTime(b: array<Byte>, ms: nat)
    requires b.Length == 16
    modifies b
    ensures forall i :: 0 <= i < 6 ==> b[i] == TimeByte(ms, i)
    ensures forall i :: 6 <= i < 16 ==> b[i] == old(b[i])
  {
    b[0] := TimeByte(ms, 0);
    b[1] := TimeByte(ms, 1);
    b[2] := TimeByte(ms, 2);
    b[3] := TimeByte(ms, 3);
    b[4] := TimeByte(ms, 4);
    b[5] := TimeByte(ms, 5);
  }

  method Generate(ms: nat, random: seq<bv8>) returns (id: string)
    requires |random| == 16
    ensures id == Text(Stamped(ms, Numbers(random)))
  {
    var numbers := Numbers(random);
    var b := new Byte[16](i requires 0 <= i < 16 => numbers[i]);
    assert b[..] == numbers;
    StampBytes(b, ms, random);
    id := Format(b[..]);
  }

  method WriteHead(buf: array<char>, b: seq<Byte>)
    requires |b| == 16 && buf.Length == 36
    modifies buf
    ensures forall p :: 0 <= p < 14 ==> buf[p] == CharAt(b, p)
  {
    EncodeHex(buf, 0, b, 0, 4);
    buf[8] := '-';
    EncodeHex(buf, 9, b, 4, 2);
    buf[13] := '-';
  }

  method WriteTail(buf: array<char>, b: seq<Byte>)
    requires |b| == 16 && buf.Length == 36
    modifies buf
    ensures forall p :: 0 <= p < 14 ==> buf[p] == old(buf[p])
    ensures forall p :: 14 <= p < 36 ==> buf[p] == CharAt(b, p)
  {
    EncodeHex(buf, 14, b, 6, 2);
    buf[18] := '-';
    EncodeHex(buf, 19, b, 8, 2);
    buf[23] := '-';
    assert forall p :: 14 <= p < 24 ==> buf[p] == CharAt(b, p);
    EncodeHex(buf, 24, b, 10, 6);
  }

  method Format(b: seq<Byte>) returns (id: string)
    requires |b| == 16
    ensures id == Text(b)
  {
    var buf := new char[36];
    WriteHead(buf, b);
    WriteTail(buf, b);
    return buf[..];
  }

  /* ---------- Order, time and version ---------- */

  /** Where the two digits of byte `i` stand in the text. */
  function At(i: nat): nat {
    2 * i + (if i < 4 then 0 else if i < 6 then 1 else if i < 8 then 2 else if i < 10 then 3 else 4)
  }

  lemma TextAt(b: seq<Byte>, i: nat)
    requires |b| == 16 && i < 16
    ensures At(i) + 1 < 36
    ensures Text(b)[At(i)] == HexDigit(b[i] / 16) && Text(b)[At(i) + 1] == HexDigit(b[i] % 16)
  {
    HighDigitAt(b, i);
    LowDigitAt(b, i);
  }

  lemma HighDigitAt(b: seq<Byte>, i: nat)
    requires |b| == 16 && i < 16
    ensures At(i) < 36 && CharAt(b, At(i)) == Nibble(b[i], 0)
  {
  }

  lemma LowDigitAt(b: seq<Byte>, i: nat)
    requires |b| == 16 && i < 16
    ensures At(i) + 1 < 36 && CharAt(b, At(i) + 1) == Nibble(b[i], 1)
  {
  }

  /** The text has hyphens at four places and lower-case hex digits everywhere else. */
  lemma TextIsHexWithHyphens(b: seq<Byte>, p: nat)
    requires |b| == 16 && p < 36
    ensures Text(b)[p] == '-' <==> p == 8 || p == 13 || p == 18 || p == 23
    ensures Text(b)[p] == '-' || '0' <= Text(b)[p] <= '9' || 'a' <= Text(b)[p] <= 'f'
  {
  }

  /** Lexicographic order of strings of one length. */
  ghost predicate Smaller(s: string, t: string) {
    exists p :: 0 <= p < |s| && p < |t| && s[..p] == t[..p] && s[p] < t[p]
  }

  lemma HexDigitGrows(m: int, n: int)
    requires 0 <= m < n < 16
    ensures HexDigit(m) < HexDigit(n)
  {
  }

  /** The six bytes are the digits of the time in base 256. */
  lemma TimeIsItsBytes(ms: nat)
    requires ms < TWO48
    ensures ms == TimeByte(ms, 0) * 0x100_0000_0000 + TimeByte(ms, 1) * 0x1_0000_0000 + TimeByte(ms, 2) * 0x100_0000
                  + TimeByte(ms, 3) * 0x1_0000 + TimeByte(ms, 4) * 0x100 + TimeByte(ms, 5)
  {
    var q1 := ms / 0x100;
    var q2 := q1 / 0x100;
    var q3 := q2 / 0x100;
    var q4 := q3 / 0x100;
    var q5 := q4 / 0x100;
    assert q2 == ms / 0x1_0000 && q3 == ms / 0x100_0000;
    assert q4 == ms / 0x1_0000_0000 && q5 == ms / 0x100_0000_0000 && q5 < 0x100;
  }

  /** Two different times differ first in a byte that is smaller in the earlier one. */
  lemma FirstDifference(m: nat, n: nat) returns (j: nat)
    requires m < n < TWO48
    ensures j < 6 && TimeByte(m, j) < TimeByte(n, j)
    ensures forall i :: 0 <= i < j ==> TimeByte(m, i) == TimeByte(n, i)
  {
    TimeIsItsBytes(m);
    TimeIsItsBytes(n);
    j := 0;
    if TimeByte(m, 0) == TimeByte(n, 0) {
      j := 1;
      if TimeByte(m, 1) == TimeByte(n, 1) {
        j := 2;
        if TimeByte(m, 2) == TimeByte(n, 2) {
          j := 3;
          if TimeByte(m, 3) == TimeByte(n, 3) {
            j := 4;
            if TimeByte(m, 4) == TimeByte(n, 4) {
              j := 5;
            }
          }
        }
      }
    }
  }

  /** Texts agree up to the first byte in which they differ. */
  lemma SamePrefix(b: seq<Byte>, c: seq<Byte>, j: nat)
    requires |b| == |c| == 16 && j < 6 && forall i :: 0 <= i < j ==> b[i] == c[i]
    ensures Text(b)[..At(j)] == Text(c)[..At(j)]
  {
    forall p | 0 <= p < At(j) ensures CharAt(b, p) == CharAt(c, p) {
      assert p < 8 ==> p / 2 < j;
      assert 8 < p ==> p < 13 && 4 + (p - 9) / 2 < j;
    }
  }

  /** One text is smaller if it agrees with the other up to a byte that is smaller. */
  lemma SmallerByte(b: seq<Byte>, c: seq<Byte>, j: nat)
    requires |b| == |c| == 16 && j < 6 && b[j] < c[j] && forall i :: 0 <= i < j ==> b[i] == c[i]
    ensures Smaller(Text(b), Text(c))
  {
    SamePrefix(b, c, j);
    TextAt(b, j);
    TextAt(c, j);
    var p := At(j);
    if b[j] / 16 < c[j] / 16 {
      HexDigitGrows(b[j] / 16, c[j] / 16);
      assert Text(b)[p] < Text(c)[p];
    } else {
      HexDigitGrows(b[j] % 16, c[j] % 16);
      assert Text(b)[..p + 1] == Text(b)[..p] + [Text(b)[p]];
      assert Text(c)[..p + 1] == Text(c)[..p] + [Text(c)[p]];
      assert Text(b)[p + 1] < Text(c)[p + 1];
    }
  }

  /** Whatever the random bytes, an earlier time gives a lexicographically smaller text. */
  lemma TextOrderIsTimeOrder(m: nat, n: nat, r: seq<Byte>, s: seq<Byte>)
    requires m < n < TWO48 && |r| == |s| == 16
    ensures Smaller(Text(Stamped(m, r)), Text(Stamped(n, s)))
  {
    var j := FirstDifference(m, n);
    SmallerByte(Stamped(m, r), Stamped(n, s), j);
  }

  /* ---------- Reading a text back ---------- */

  function Digit(c: char): int {
    if '0' <= c <= '9' then (c - '0') as int else if 'a' <= c <= 'f' then (c - 'a') as int + 10 else 0
  }

  /** The byte at a place of the text. */
  function ByteOf(s: string, i: nat): int
    requires |s| == 36 && i < 16
  {
    Digit(s[At(i)]) * 16 + Digit(s[At(i) + 1])
  }

  function TimeOf(s: string): int
    requires |s| == 36
  {
    ByteOf(s, 0) * 0x100_0000_0000 + ByteOf(s, 1) * 0x1_0000_0000 + ByteOf(s, 2) * 0x100_0000
    + ByteOf(s, 3) * 0x1_0000 + ByteOf(s, 4) * 0x100 + ByteOf(s, 5)
  }

  lemma TextReads(b: seq<Byte>, i: nat)
    requires |b| == 16 && i < 16
    ensures ByteOf(Text(b), i) == b[i]
  {
    TextAt(b, i);
    DigitReads(b[i] / 16);
    DigitReads(b[i] % 16);
  }

  lemma DigitReads(n: int)
    requires 0 <= n < 16
    ensures Digit(HexDigit(n)) == n
  {
  }

  /** The time can be read back from the text. */
  lemma TextKeepsTime(ms: nat, random: seq<Byte>)
    requires ms < TWO48 && |random| == 16
    ensures TimeOf(Text(Stamped(ms, random))) == ms
  {
    var b := Stamped(ms, random);
    TextReads(b, 0);
    TextReads(b, 1);
    TextReads(b, 2);
    TextReads(b, 3);
    TextReads(b, 4);
    TextReads(b, 5);
    TimeIsItsBytes(ms);
  }

  /** The version digit is 7, the variant bits are 10, and every other random bit is kept. */
  lemma TextKeepsRandomBits(ms: nat, random: seq<Byte>, i: nat)
    requires |random| == 16 && 6 <= i < 16
    ensures var s := Text(Stamped(ms, random));
            && s[14] == '7' && (s[19] == '8' || s[19] == '9' || s[19] == 'a' || s[19] == 'b')
            && (i == 6 ==> ByteOf(s, i) == 0x70 + random[i] % 16)
            && (i == 8 ==> ByteOf(s, i) == 0x80 + random[i] % 64)
            && (i != 6 && i != 8 ==> ByteOf(s, i) == random[i])
  {
    var b := Stamped(ms, random);
    TextReads(b, i);
    TextAt(b, 6);
    TextAt(b, 8);
    assert b[6] / 16 == 7;
    assert b[8] / 16 == 8 + random[8] % 64 / 16;
  }
}
