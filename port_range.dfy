/** funcUpdateInvalidPort: a port outside [min, max] is replaced, digit by digit, by a
    number derived from the out-of-range (OOR) hash, read backwards through a cursor. */
module PortRange {
  import opened OtpConstants
  import opened HexCodec
  import opened Decimal
  import opened Buffers

  /** Status, cursor and port after one correction: the three results the C function
      hands back through its return value, `*piInitHashPos` and `*piPort`. */
  datatype Correction = Correction(status: int, cursor: int, port: int)

  /** The outcome of re-rolling the digits: the new offset and the cursor after it, or
      the error code and the cursor at the character that could not be decoded. */
  datatype Reroll = Rerolled(value: int, cursor: int) | RerollFailed(code: int, cursor: int)

  /** Reading `count` characters backwards from position `|oor| + cursor` stays inside
      the string and its terminator. */
  predicate OorReadable(oorLen: nat, cursor: int, count: nat) {
    cursor <= 0 && oorLen + cursor + 1 >= count
  }

  /** The one-character string copied from `oor + index`; at the terminator it is empty. */
  function OorChar(oor: seq<char>, index: nat): seq<char>
    requires index <= |oor|
  {
    if index < |oor| then [oor[index]] else []
  }

  /** A character that decodes as hex sits at `index`. */
  predicate HexAt(oor: seq<char>, index: int) {
    0 <= index < |oor| && IsHexChar(oor[index])
  }

  /** What funcHex2Int makes of the one-character string copied from `oor + index`
      (OorCharDecode): the nibble of a hex character, ERR_INVALID_HEX otherwise. */
  function OorNibble(oor: seq<char>, index: int): int {
    if HexAt(oor, index) then NibbleOf(oor[index]) else ERR_INVALID_HEX
  }

  /** Line 387: the random digit that replaces the range digit `d`. */
  function RollDigit(nibble: int, d: int): (m: int)
    requires 0 <= d
    ensures 0 <= nibble ==> 0 <= m <= d
  {
    nibble % (d + 1)
  }

  /** Each digit `d` of the range is replaced by `nibble % (d + 1)`, where the nibble is
      read at `|oor| + cursor` and the cursor then moves one character to the left. */
  function RerollDigits(ds: seq<int>, oor: seq<char>, cursor: int, acc: int): Reroll
    requires forall k :: 0 <= k < |ds| ==> 0 <= ds[k] <= 9
    requires OorReadable(|oor|, cursor, |ds|)
    decreases |ds|
  {
    if ds == [] then Rerolled(acc, cursor)
    else
      var v := OorNibble(oor, |oor| + cursor);
      if v < 0 then RerollFailed(v, cursor)
      else RerollDigits(ds[1..], oor, cursor - 1, 10 * acc + RollDigit(v, ds[0]))
  }

  /** The digits actually produced: each at most the range digit it replaces. */
  lemma {:induction false} RerollBound(ds: seq<int>, oor: seq<char>, cursor: int, acc: int)
    requires forall k :: 0 <= k < |ds| ==> 0 <= ds[k] <= 9
    requires OorReadable(|oor|, cursor, |ds|)
    requires 0 <= acc
    ensures var r := RerollDigits(ds, oor, cursor, acc);
            r.Rerolled? ==> 0 <= r.value <= FoldDigits(acc, ds) && r.cursor == cursor - |ds|
    decreases |ds|
  {
    if ds != [] {
      var v := OorNibble(oor, |oor| + cursor);
      if v >= 0 {
        var m := RollDigit(v, ds[0]);
        RerollBound(ds[1..], oor, cursor - 1, 10 * acc + m);
        FoldDigitsMonotone(10 * acc + m, acc * 10 + ds[0], ds[1..], ds[1..]);
      }
    }
  }

  /** The one-character string read at `index` decodes to the character's nibble when
      it is a hex character, and to ERR_INVALID_HEX otherwise (the terminator included). */
  lemma OorCharDecode(oor: seq<char>, index: nat)
    requires index <= |oor|
    ensures DecodeHexInt(OorChar(oor, index)) == OorNibble(oor, index)
  {
    if HexAt(oor, index) {
      var s := OorChar(oor, index);
      assert HexRunLength(s[1..]) == 0;
      assert HexRunLength(s) == 1;
      assert s[..1] == s && s[..0] == [];
      assert HexValue(s) == NibbleOf(oor[index]);
    }
  }

  /** Re-rolling succeeds exactly when every character it reads, at positions
      `|oor| + cursor` down to `|oor| + cursor - |ds| + 1`, is a hex character. A failure
      is always ERR_INVALID_HEX, with the cursor at the first character that is not. */
  lemma {:induction false} RerollSucceedsIff(ds: seq<int>, oor: seq<char>, cursor: int, acc: int)
    requires forall k :: 0 <= k < |ds| ==> 0 <= ds[k] <= 9
    requires OorReadable(|oor|, cursor, |ds|)
    ensures var r := RerollDigits(ds, oor, cursor, acc);
            r.Rerolled? <==> forall j :: |oor| + cursor - |ds| < j <= |oor| + cursor ==> HexAt(oor, j)
    ensures var r := RerollDigits(ds, oor, cursor, acc);
            r.RerollFailed? ==>
              && r.code == ERR_INVALID_HEX
              && cursor - |ds| < r.cursor <= cursor
              && !HexAt(oor, |oor| + r.cursor)
              && forall j :: |oor| + r.cursor < j <= |oor| + cursor ==> HexAt(oor, j)
    decreases |ds|
  {
    if ds != [] {
      if HexAt(oor, |oor| + cursor) {
        var v := NibbleOf(oor[|oor| + cursor]);
        RerollSucceedsIff(ds[1..], oor, cursor - 1, 10 * acc + RollDigit(v, ds[0]));
      }
    }
  }

  /** One step of the re-roll, at digit i, given the decoded character `v`. */
  lemma RerollStep(ds: seq<int>, i: nat, oor: seq<char>, cursor: int, acc: int, v: int)
    requires i < |ds|
    requires forall k :: 0 <= k < |ds| ==> 0 <= ds[k] <= 9
    requires OorReadable(|oor|, cursor, |ds| - i)
    requires v == OorNibble(oor, |oor| + cursor)
    ensures v < 0 ==> RerollDigits(ds[i..], oor, cursor, acc) == RerollFailed(v, cursor)
    ensures v >= 0 ==> RerollDigits(ds[i..], oor, cursor, acc) == RerollDigits(ds[i + 1..], oor, cursor - 1, 10 * acc + RollDigit(v, ds[i]))
  {
    assert ds[i..][1..] == ds[i + 1..];
  }

  /** Lines 371-378 of funcUpdateInvalidPort: copy the one character at `index` into a
      two-character buffer and decode it with funcHex2Int. */
  method ReadOorNibble(oor: seq<char>, index: nat) returns (offset: int)
    requires index <= |oor|
    ensures offset == DecodeHexInt(OorChar(oor, index))
    ensures offset == OorNibble(oor, index)
  {
    var cOffset := OorChar(oor, index);
    offset := Hex2Int(cOffset);
    OorCharDecode(oor, index);
  }

  /** What funcUpdateInvalidPort computes. */
  function UpdateInvalidPortSpec(portMin: int, portMax: int, oor: seq<char>, cursor: int, port: int): Correction
    requires 0 <= portMin <= portMax
    requires !(portMin <= port <= portMax) ==> OorReadable(|oor|, cursor, LenInt(portMax - portMin))
  {
    if port < portMin || port > portMax then
      match RerollDigits(DigitsOf(portMax - portMin), oor, cursor, 0)
      case Rerolled(v, c) => Correction(0, c, portMin + v)
      case RerollFailed(code, c) => Correction(code, c, port)
    else
      Correction(0, cursor, port)
  }

  /** A successful call always leaves a port inside [portMin, portMax]: an out-of-range
      port is moved into the range and the cursor lowered by the digit count of
      `portMax - portMin`. A failure is ERR_INVALID_HEX and leaves the port alone. */
  lemma CorrectionInRange(portMin: int, portMax: int, oor: seq<char>, cursor: int, port: int)
    requires 0 <= portMin <= portMax
    requires !(portMin <= port <= portMax) ==> OorReadable(|oor|, cursor, LenInt(portMax - portMin))
    ensures var c := UpdateInvalidPortSpec(portMin, portMax, oor, cursor, port);
            && (c.status == 0 || c.status == ERR_INVALID_HEX)
            && (c.status == 0 ==> portMin <= c.port <= portMax)
            && (c.status != 0 ==> c.port == port)
            && (c.status == 0 && !(portMin <= port <= portMax) ==> c.cursor == cursor - LenInt(portMax - portMin))
  {
    if port < portMin || port > portMax {
      var ds := DigitsOf(portMax - portMin);
      RerollBound(ds, oor, cursor, 0);
      RerollSucceedsIff(ds, oor, cursor, 0);
      DigitsOfValue(portMax - portMin);
    }
  }

  /** With the cursor at 0 the first character read is the terminator, so any
      out-of-range port fails with ERR_INVALID_HEX. */
  lemma TerminatorReadFails(portMin: int, portMax: int, oor: seq<char>, port: int)
    requires 0 <= portMin <= portMax
    requires !(portMin <= port <= portMax)
    requires OorReadable(|oor|, 0, LenInt(portMax - portMin))
    ensures UpdateInvalidPortSpec(portMin, portMax, oor, 0, port) == Correction(ERR_INVALID_HEX, 0, port)
  {
  }

  /** Taking the last digit of n off its digit string. */
  lemma DigitsOfPeel(n: nat, suffix: seq<int>)
    ensures n >= 10 ==> DigitsOf(n / 10) + ([n % 10] + suffix) == DigitsOf(n) + suffix
    ensures n < 10 ==> [n % 10] + suffix == DigitsOf(n) + suffix
  {
    if n >= 10 {
      ConcatAssoc(DigitsOf(n / 10), [n % 10], suffix);
    }
  }

  /** The first loop of funcUpdateInvalidPort: the digits of n stored into a fresh array,
      filled from the last position while n is divided by ten. */
  method SplitDigits(n: nat) returns (digits: array<int>)
    ensures fresh(digits)
    ensures digits[..] == DigitsOf(n)
  {
    var len := LenInt(n);
    digits := new int[len];
    ghost var init := digits[..];
    ghost var suffix: seq<int> := [];
    var i := len - 1;
    var rest: nat := n;
    while i >= 0
      invariant -1 <= i < len
      invariant |suffix| == len - 1 - i
      invariant digits[..] == Backfill(init, suffix)
      invariant i >= 0 ==> DigitCount(rest) == i + 1
      invariant i >= 0 ==> DigitsOf(rest) + suffix == DigitsOf(n)
      invariant i == -1 ==> suffix == DigitsOf(n)
    {
      BackfillNext(init, suffix, rest % 10);
      DigitsOfPeel(rest, suffix);
      ghost var cells := digits[..];
      digits[i] := rest % 10;
      assert digits[..] == cells[i := rest % 10];
      suffix := [rest % 10] + suffix;
      i, rest := i - 1, rest / 10;
    }
  }

  /** The body of funcUpdateInvalidPort for an out-of-range port, up to the addition of
      `portMin`: the digits of `portMax - portMin` are stored in an array, then one OOR
      character per digit is decoded with funcHex2Int and the cursor moved left. On a
      decoding error the C function returns at once, the cursor keeping the decrements
      already made. */
  method RerollPort(portMin: int, portMax: int, oor: seq<char>, cursor: int)
    returns (status: int, newCursor: int, rerolled: int)
    requires 0 <= portMin <= portMax <= INT_MAX
    requires OorReadable(|oor|, cursor, LenInt(portMax - portMin))
    ensures RerollDigits(DigitsOf(portMax - portMin), oor, cursor, 0)
            == if status == 0 then Rerolled(rerolled, newCursor) else RerollFailed(status, newCursor)
  {
    var portDiff := portMax - portMin;
    var diffDigits := SplitDigits(portDiff);
    status, newCursor, rerolled := RerollArray(diffDigits, oor, cursor);
  }

  /** Lines 356-395: the loop over the stored digits of the range. */
  method RerollArray(diffDigits: array<int>, oor: seq<char>, cursor: int)
    returns (status: int, newCursor: int, rerolled: int)
    requires forall k :: 0 <= k < diffDigits.Length ==> 0 <= diffDigits[k] <= 9
    requires OorReadable(|oor|, cursor, diffDigits.Length)
    ensures RerollDigits(diffDigits[..], oor, cursor, 0)
            == if status == 0 then Rerolled(rerolled, newCursor) else RerollFailed(status, newCursor)
  {
    ghost var ds := diffDigits[..];
    status, newCursor, rerolled := 0, cursor, 0;
    var i := 0;
    while i < diffDigits.Length
      invariant 0 <= i <= diffDigits.Length
      invariant newCursor == cursor - i
      invariant RerollDigits(ds, oor, cursor, 0) == RerollDigits(ds[i..], oor, newCursor, rerolled)
    {
      var diffVal := diffDigits[i] + 1;
      var offset := ReadOorNibble(oor, |oor| + newCursor);
      RerollStep(ds, i, oor, newCursor, rerolled, offset);
      if offset < 0 {
        status := offset;
        return;
      }
      var iMod := offset % diffVal;
      assert iMod == RollDigit(offset, ds[i]);
      rerolled := 10 * rerolled + iMod;
      newCursor := newCursor - 1;
      i := i + 1;
    }
    assert ds[i..] == [];
  }

  /** funcUpdateInvalidPort: an in-range port is left alone; otherwise it is re-rolled
      and `portMin` added. On an error the port is not written. */
  method UpdateInvalidPort(portMin: int, portMax: int, oor: seq<char>, cursor: int, port: int)
    returns (status: int, newCursor: int, newPort: int)
    requires 0 <= portMin <= portMax <= INT_MAX
    requires NUL !in oor
    requires !(portMin <= port <= portMax) ==> OorReadable(|oor|, cursor, LenInt(portMax - portMin))
    ensures Correction(status, newCursor, newPort) == UpdateInvalidPortSpec(portMin, portMax, oor, cursor, port)
    ensures portMin <= port <= portMax ==> status == 0 && newCursor == cursor && newPort == port
    ensures status == 0 ==> portMin <= newPort <= portMax
    ensures status != 0 ==> status == ERR_INVALID_HEX && newPort == port
  {
    CorrectionInRange(portMin, portMax, oor, cursor, port);
    status, newCursor, newPort := 0, cursor, port;
    if port < portMin || port > portMax {
      var rerolled;
      status, newCursor, rerolled := RerollPort(portMin, portMax, oor, cursor);
      if status < 0 {
        return;
      }
      newPort := rerolled + portMin;
    }
  }
}
