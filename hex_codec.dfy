/** Hexadecimal text to integer (funcHex2Int) and digest bytes to hexadecimal text
    (the output loop of funcGenSHA512). */
module HexCodec {
  import opened OtpConstants
  import opened Buffers

  /** `gcMapHex`: the sixteen lower-case digits, then the six upper-case letters. */
  const HEX_MAP: string := "0123456789abcdefABCDEF"

  /** The C string terminator. */
  const NUL: char := '\0'

  predicate IsHexChar(c: char) {
    '0' <= c <= '9' || 'a' <= c <= 'f' || 'A' <= c <= 'F'
  }

  predicate IsLowerHexChar(c: char) {
    '0' <= c <= '9' || 'a' <= c <= 'f'
  }

  predicate AllHex(s: seq<char>) {
    forall k :: 0 <= k < |s| ==> IsHexChar(s[k])
  }

  /** The value of a hex character, defined from the character codes alone. */
  function NibbleOf(c: char): (n: nat)
    requires IsHexChar(c)
    ensures n < 16
  {
    if c <= '9' then c as int - '0' as int
    else if c >= 'a' then c as int - 'a' as int + 10
    else c as int - 'A' as int + 10
  }

  /** What HEX_MAP holds at each position. */
  lemma HexMapAt(k: nat)
    requires k < |HEX_MAP|
    ensures k < 10 ==> HEX_MAP[k] as int == '0' as int + k
    ensures 10 <= k < 16 ==> HEX_MAP[k] as int == 'a' as int + k - 10
    ensures 16 <= k ==> HEX_MAP[k] as int == 'A' as int + k - 16
  {
  }

  /** The inner search of funcHex2Int: the position of `c` in `gcMapHex`, or the
      position of the map's terminator when `c` is not there. */
  method MapPosition(c: char) returns (j: nat)
    ensures j <= |HEX_MAP|
    ensures j < |HEX_MAP| <==> IsHexChar(c)
    ensures j < |HEX_MAP| ==> HEX_MAP[j] == c && (if j >= 16 then j - 6 else j) == NibbleOf(c)
  {
    j := 0;
    while j < |HEX_MAP| && HEX_MAP[j] != c
      invariant j <= |HEX_MAP|
      invariant c !in HEX_MAP[..j]
    {
      j := j + 1;
    }
    if IsHexChar(c) {
      // The character's own position bounds the search.
      var k := if c <= '9' then c as int - '0' as int
               else if c >= 'a' then c as int - 'a' as int + 10
               else c as int - 'A' as int + 16;
      HexMapAt(k);
    }
    if j < |HEX_MAP| {
      HexMapAt(j);
    }
  }

  /** Length of the longest leading run of hex characters. */
  function HexRunLength(s: seq<char>): (n: nat)
    ensures n <= |s|
    ensures forall k :: 0 <= k < n ==> IsHexChar(s[k])
    ensures n < |s| ==> !IsHexChar(s[n])
  {
    if s == [] || !IsHexChar(s[0]) then 0 else 1 + HexRunLength(s[1..])
  }

  /** The value of a string of hex characters, read most significant first. */
  function HexValue(s: seq<char>): nat
    requires AllHex(s)
  {
    if s == [] then 0 else HexValue(s[..|s| - 1]) * 16 + NibbleOf(s[|s| - 1])
  }

  /** What funcHex2Int reports for the C string `s`: ERR_INVALID_HEX when it does not
      start with a hex character, ERR_OVERFLOW when its leading hex run is worth more than
      INT_MAX, and otherwise that value; whatever follows the run is ignored. */
  function DecodeHexInt(s: seq<char>): (r: int)
    ensures r == ERR_INVALID_HEX <==> (s == [] || !IsHexChar(s[0]))
    ensures r == ERR_OVERFLOW <==> (s != [] && IsHexChar(s[0]) && HexValue(s[..HexRunLength(s)]) > INT_MAX)
    ensures r == ERR_OVERFLOW || r == ERR_INVALID_HEX || 0 <= r <= INT_MAX
  {
    var n := HexRunLength(s);
    if n == 0 then ERR_INVALID_HEX
    else if HexValue(s[..n]) > INT_MAX then ERR_OVERFLOW
    else HexValue(s[..n])
  }

  lemma HexValueStep(s: seq<char>, i: nat)
    requires i < |s| && AllHex(s[..i + 1])
    ensures AllHex(s[..i]) && HexValue(s[..i + 1]) == HexValue(s[..i]) * 16 + NibbleOf(s[i])
  {
    assert s[..i + 1][..i] == s[..i];
  }

  /** A longer prefix of a hex string is worth at least as much as a shorter one. */
  lemma {:induction false} HexValueMonotone(s: seq<char>, i: nat, j: nat)
    requires i <= j <= |s| && AllHex(s[..j])
    ensures AllHex(s[..i]) && HexValue(s[..i]) <= HexValue(s[..j])
  {
    if i < j {
      HexValueStep(s, j - 1);
      HexValueMonotone(s, i, j - 1);
    }
  }

  /** funcHex2Int: accumulate `value * 16 + nibble` left to right, checking the value
      against INT_MAX / 16 before each multiplication. The C loop's `bEoCA` flag is
      `endOfHex`; its read position and its digit counter `iI` always agree, so both
      are `i` here. A position at or past the end reads the terminator. */
  method Hex2Int(s: seq<char>) returns (value: int)
    ensures value == DecodeHexInt(s)
  {
    value := 0;
    var i := 0;
    var endOfHex := false;
    while !endOfHex
      invariant 0 <= i <= |s|
      invariant forall k :: 0 <= k < i ==> IsHexChar(s[k])
      invariant !endOfHex ==> value == HexValue(s[..i]) <= INT_MAX
      invariant endOfHex ==> value == DecodeHexInt(s)
      decreases |s| - i, !endOfHex
    {
      var c := if i < |s| then s[i] else NUL;
      var j := MapPosition(c);
      if j == |HEX_MAP| {
        // Not a hex character (or the terminator): the end of the run.
        assert HexRunLength(s) == i;
        assert s[..i][..HexRunLength(s)] == s[..i];
        if i == 0 {
          value := ERR_INVALID_HEX;
        }
        endOfHex := true;
      } else {
        var nibble := if j >= 16 then j - 6 else j;
        HexValueStep(s, i);
        if value <= INT_MAX / 16 {
          value := value * 16 + nibble;
          i := i + 1;
        } else {
          // The run so far, followed by this character, is already worth more than INT_MAX.
          var n := HexRunLength(s);
          assert s[..n][..i + 1] == s[..i + 1];
          assert s[..n][..n] == s[..n];
          HexValueMonotone(s[..n], i + 1, n);
          assert HexValue(s[..i + 1]) > INT_MAX;
          value := ERR_OVERFLOW;
          endOfHex := true;
        }
      }
    }
  }

  /** Characters after the first non-hex character are never looked at. */
  lemma IgnoresTail(s: seq<char>, t: seq<char>)
    requires AllHex(s)
    requires t == [] || !IsHexChar(t[0])
    ensures DecodeHexInt(s + t) == DecodeHexInt(s)
  {
    RunOfAllHex(s);
    RunOfHexThenStop(s, t);
    assert (s + t)[..|s|] == s;
    assert s[..|s|] == s;
  }

  lemma {:induction false} RunOfAllHex(s: seq<char>)
    requires AllHex(s)
    ensures HexRunLength(s) == |s|
  {
    if s != [] {
      RunOfAllHex(s[1..]);
    }
  }

  lemma {:induction false} RunOfHexThenStop(s: seq<char>, t: seq<char>)
    requires AllHex(s)
    requires t == [] || !IsHexChar(t[0])
    ensures HexRunLength(s + t) == |s|
  {
    if s != [] {
      assert (s + t)[1..] == s[1..] + t;
      RunOfHexThenStop(s[1..], t);
    }
  }

  /** Upper-case hex letters mapped to lower case; every other character unchanged. */
  function LowerHexLetter(c: char): char {
    if 'A' <= c <= 'F' then (c as int - 'A' as int + 'a' as int) as char else c
  }

  function ToLowerHex(s: seq<char>): (r: seq<char>)
    ensures |r| == |s|
    ensures forall k :: 0 <= k < |s| ==> r[k] == LowerHexLetter(s[k])
  {
    seq(|s|, k requires 0 <= k < |s| => LowerHexLetter(s[k]))
  }

  lemma {:induction false} RunLengthIgnoresCase(s: seq<char>)
    ensures HexRunLength(ToLowerHex(s)) == HexRunLength(s)
  {
    if s != [] {
      assert ToLowerHex(s)[1..] == ToLowerHex(s[1..]);
      RunLengthIgnoresCase(s[1..]);
    }
  }

  lemma {:induction false} ValueIgnoresCase(s: seq<char>)
    requires AllHex(s)
    ensures AllHex(ToLowerHex(s)) && HexValue(ToLowerHex(s)) == HexValue(s)
  {
    if s != [] {
      assert ToLowerHex(s)[..|s| - 1] == ToLowerHex(s[..|s| - 1]);
      ValueIgnoresCase(s[..|s| - 1]);
    }
  }

  /** 'A'..'F' decode exactly as 'a'..'f'. */
  lemma CaseInsensitive(s: seq<char>)
    ensures DecodeHexInt(ToLowerHex(s)) == DecodeHexInt(s)
  {
    RunLengthIgnoresCase(s);
    var n := HexRunLength(s);
    assert ToLowerHex(s)[..n] == ToLowerHex(s[..n]);
    ValueIgnoresCase(s[..n]);
  }

  // ---------------------------------------------------------------------------
  // Encoding direction
  // ---------------------------------------------------------------------------

  newtype byte = x: int | 0 <= x < 0x100

  /** A SHA-512 digest: 64 bytes. */
  type Digest = d: seq<byte> | |d| == DIGEST_LEN witness seq(DIGEST_LEN, _ => 0)

  /** The OpenSSL SHA-512 computation, taken as a parameter: any function from text to
      a 64-byte digest. */
  type Sha512 = seq<char> -> Digest

  /** The two characters of one byte: `gcMapHex[(b >> 4) & 0x0f]`, `gcMapHex[b & 0x0f]`. */
  function HexOfByte(b: byte): string {
    [HEX_MAP[b as int / 16], HEX_MAP[b as int % 16]]
  }

  /** Hex text of a byte string, two characters per byte, high nibble first. */
  function HexEncode(bs: seq<byte>): (h: string)
    ensures |h| == 2 * |bs|
  {
    if bs == [] then [] else HexEncode(bs[..|bs| - 1]) + HexOfByte(bs[|bs| - 1])
  }

  lemma LowerHexMap(k: nat)
    requires k < 16
    ensures IsLowerHexChar(HEX_MAP[k]) && IsHexChar(HEX_MAP[k]) && NibbleOf(HEX_MAP[k]) == k
  {
    HexMapAt(k);
  }

  /** The encoding uses only `0-9a-f`. */
  lemma EncodedIsLowerHex(bs: seq<byte>)
    ensures forall k :: 0 <= k < |HexEncode(bs)| ==> IsLowerHexChar(HexEncode(bs)[k])
  {
    var h := HexEncode(bs);
    forall k | 0 <= k < |h| ensures IsLowerHexChar(h[k]) {
      var i := k / 2;
      HexEncodeAt(bs, i);
      LowerHexMap(bs[i] as int / 16);
      LowerHexMap(bs[i] as int % 16);
    }
  }

  /** Big-endian value of a byte string. */
  function BigEndian(bs: seq<byte>): nat {
    if bs == [] then 0 else BigEndian(bs[..|bs| - 1]) * 256 + bs[|bs| - 1] as int
  }

  lemma HexValueSnoc(e: seq<char>, c: char)
    requires AllHex(e) && IsHexChar(c)
    ensures AllHex(e + [c]) && HexValue(e + [c]) == HexValue(e) * 16 + NibbleOf(c)
  {
    assert (e + [c])[..|e|] == e;
  }

  /** Reading the encoding back as hex gives the big-endian value of the bytes. */
  lemma {:induction false} EncodedValue(bs: seq<byte>)
    ensures AllHex(HexEncode(bs)) && HexValue(HexEncode(bs)) == BigEndian(bs)
  {
    if bs != [] {
      var front := bs[..|bs| - 1];
      var b := bs[|bs| - 1];
      var e := HexEncode(front);
      var hi, lo := HEX_MAP[b as int / 16], HEX_MAP[b as int % 16];
      EncodedValue(front);
      LowerHexMap(b as int / 16);
      LowerHexMap(b as int % 16);
      assert HexEncode(bs) == (e + [hi]) + [lo];
      HexValueSnoc(e, hi);
      HexValueSnoc(e + [hi], lo);
      assert HexValue(HexEncode(bs)) == (BigEndian(front) * 16 + b as int / 16) * 16 + b as int % 16;
    }
  }

  /** funcHex2Int undoes the encoding of any non-empty byte string worth at most INT_MAX. */
  lemma EncodeDecodeRoundTrip(bs: seq<byte>)
    requires bs != [] && BigEndian(bs) <= INT_MAX
    ensures DecodeHexInt(HexEncode(bs)) == BigEndian(bs)
  {
    var h := HexEncode(bs);
    EncodedValue(bs);
    RunOfAllHex(h);
    assert h[..|h|] == h;
  }

  /** In particular each two-character pair decodes back to its byte. */
  lemma ByteRoundTrip(b: byte)
    ensures DecodeHexInt(HexOfByte(b)) == b as int
  {
    assert [b][..0] == [];
    assert HexEncode([b]) == HexOfByte(b);
    EncodeDecodeRoundTrip([b]);
  }

  /** Position 2i of the hex text holds the high nibble of byte i, position 2i + 1 its
      low nibble. */
  lemma {:induction false} HexEncodeAt(bs: seq<byte>, i: nat)
    requires i < |bs|
    ensures HexEncode(bs)[2 * i] == HEX_MAP[bs[i] as int / 16]
    ensures HexEncode(bs)[2 * i + 1] == HEX_MAP[bs[i] as int % 16]
  {
    if i < |bs| - 1 {
      HexEncodeAt(bs[..|bs| - 1], i);
    }
  }

  lemma HexEncodeSnoc(bs: seq<byte>, i: nat)
    requires i < |bs|
    ensures HexEncode(bs[..i + 1]) == HexEncode(bs[..i]) + HexOfByte(bs[i])
  {
    assert bs[..i + 1][..i] == bs[..i];
  }

  /** The loop of funcGenSHA512: each digest byte becomes two hex characters, high
      nibble first, written through a position that advances by two. */
  method EncodeDigest(digest: Digest, hexFull: array<char>)
    requires hexFull.Length >= DIGEST_HEX_LEN
    modifies hexFull
    ensures hexFull[..] == Overwrite(old(hexFull[..]), HexEncode(digest))
  {
    var i := 0;
    var pos := 0;
    while i < DIGEST_LEN
      invariant 0 <= i <= DIGEST_LEN && pos == 2 * i
      invariant hexFull[..] == Overwrite(old(hexFull[..]), HexEncode(digest[..i]))
    {
      var hi, lo := digest[i] as int / 16, digest[i] as int % 16;
      OverwritePair(old(hexFull[..]), HexEncode(digest[..i]), HEX_MAP[hi], HEX_MAP[lo]);
      ghost var cells := hexFull[..];
      hexFull[pos] := HEX_MAP[hi];
      assert hexFull[..] == cells[pos := HEX_MAP[hi]];
      hexFull[pos + 1] := HEX_MAP[lo];
      assert hexFull[..] == cells[pos := HEX_MAP[hi]][pos + 1 := HEX_MAP[lo]];
      HexEncodeSnoc(digest, i);
      pos := pos + 2;
      i := i + 1;
    }
    assert digest[..DIGEST_LEN] == digest;
  }

  /** funcGenSHA512: hash `plain`, write the digest as hex into the caller's buffer and
      terminate it. The buffer then holds the 128 hex characters and the terminator, and
      is unchanged after them. */
  method GenSHA512(sha: Sha512, plain: seq<char>, hexFull: array<char>)
    requires hexFull.Length >= DIGEST_HEX_LEN
    modifies hexFull
    ensures hexFull[..] == Overwrite(old(hexFull[..]), HexEncode(sha(plain)) + [NUL])
  {
    var digest := sha(plain);
    hexFull[0] := NUL;
    ghost var start := hexFull[..];
    EncodeDigest(digest, hexFull);
    ghost var cells := hexFull[..];
    hexFull[2 * DIGEST_LEN] := NUL;
    assert hexFull[..] == cells[2 * DIGEST_LEN := NUL];
    OverwriteNext(start, HexEncode(digest), NUL);
    OverwriteHides(old(hexFull[..]), HexEncode(digest) + [NUL], 0, NUL);
  }
}
