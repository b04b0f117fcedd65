/** funcGenOTP: the password digest and the current time slot are hashed into the init
    hash; a hex character of it picks where the OTP hash starts, the OOR hash is cut from
    its right-hand end, and the decoder turns the two into the door list. */
module OtpGenerator {
  import opened OtpConstants
  import opened SharedStructs
  import opened HexCodec
  import opened Decimal
  import opened PortRange
  import opened SegmentDecoder
  import opened Buffers

  function Abs(x: int): nat {
    if x < 0 then -x else x
  }

  /** C's `/` on ints: the quotient of the magnitudes, negated when the signs differ. */
  function CDiv(a: int, b: int): int
    requires b != 0
  {
    if b > 0 then (if a >= 0 then a / b else -((-a) / b))
    else (if a >= 0 then -(a / (-b)) else (-a) / (-b))
  }

  lemma DivMod(x: int, y: int)
    requires 0 <= x && 0 < y
    ensures x == (x / y) * y + x % y && 0 <= x % y < y
  {
  }

  lemma MulNeg(x: int, y: int)
    ensures (-x) * y == -(x * y) && x * (-y) == -(x * y)
  {
  }

  /** C's division rounds toward zero: the remainder is smaller than the divisor in
      magnitude and, when not zero, has the sign of the dividend. */
  lemma CDivRemainder(a: int, b: int)
    requires b != 0
    ensures var r := a - CDiv(a, b) * b; Abs(r) < Abs(b) && (r == 0 || (r < 0 <==> a < 0))
  {
    var A: int, B: int := Abs(a), Abs(b);
    DivMod(A, B);
    MulNeg(A / B, B);
    MulNeg(-(A / B), B);
    if b > 0 && a < 0 {
      assert CDiv(a, b) * b == -((A / B) * B);
    } else if b < 0 && a >= 0 {
      assert CDiv(a, b) * b == (-(A / B)) * (-B);
    } else if b < 0 && a < 0 {
      assert CDiv(a, b) * b == (A / B) * (-B);
    }
  }

  /** The clock value and rotation period for which `iTimeUTC / *piSecsRotate` is defined
      on 32-bit ints. */
  predicate SlotDefined(nowUtc: int, rotate: int) {
    && -INT_MAX - 1 <= nowUtc <= INT_MAX
    && -INT_MAX - 1 <= rotate <= INT_MAX
    && rotate != 0
    && !(nowUtc == -INT_MAX - 1 && rotate == -1)
  }

  /** funcGetTimeSlotStart with the clock reading as a parameter. */
  function TimeSlotStart(nowUtc: int, rotate: int): (slot: int)
    requires SlotDefined(nowUtc, rotate)
    ensures -INT_MAX - 1 <= slot <= INT_MAX
  {
    CDivMagnitude(nowUtc, rotate);
    QuotientBound(Abs(nowUtc), Abs(rotate));
    CDiv(nowUtc, rotate)
  }

  /** The magnitude of C's quotient is the quotient of the magnitudes. */
  lemma CDivMagnitude(a: int, b: int)
    requires b != 0
    ensures Abs(CDiv(a, b)) == Abs(a) / Abs(b)
  {
    var A: int, B: int := Abs(a), Abs(b);
    DivMod(A, B);
    var q := A / B;
    assert 0 <= q;
    if b > 0 {
      if a >= 0 { assert CDiv(a, b) == q; } else { assert CDiv(a, b) == -q; }
    } else {
      if a >= 0 { assert CDiv(a, b) == -q; } else { assert CDiv(a, b) == q; }
    }
  }

  lemma QuotientBound(x: nat, y: nat)
    requires 1 <= y
    ensures x / y <= x
    ensures 2 <= y ==> 2 * (x / y) <= x
  {
    DivMod(x, y);
    MulAtLeast(x / y, if 2 <= y then 2 else 1, y);
  }

  lemma MulAtLeast(q: nat, c: nat, y: nat)
    requires c <= y
    ensures q * c <= q * y
  {
  }

  /** For a clock at or after the epoch the slot is the floor of the quotient; before it
      the C division rounds up: every second of the rotation period before the epoch is
      still slot 0, where the floor would give -1. */
  lemma SlotIsQuotient(nowUtc: int, rotate: int)
    requires SlotDefined(nowUtc, rotate)
    ensures 0 <= nowUtc && 0 < rotate ==> TimeSlotStart(nowUtc, rotate) == nowUtc / rotate
    ensures 0 < rotate && -rotate < nowUtc < 0 ==> TimeSlotStart(nowUtc, rotate) == 0 && nowUtc / rotate == -1
  {
    if 0 < rotate && -rotate < nowUtc < 0 {
      assert (-nowUtc) / rotate == 0;
      assert nowUtc == -1 * rotate + (rotate + nowUtc);
      assert 0 <= rotate + nowUtc < rotate;
    }
  }

  /** The text the decoder parses in place of the double step (funcHex2Dbl of the OTP
      hash, then funcDbl2Char), or the negative status `(int) dOTP` it returns on a
      decoding error. */
  datatype RenderResult = Rendered(digits: string) | RenderFailed(code: int)

  /** The double step, taken as a parameter. */
  type Renderer = string -> RenderResult

  /** Lines 567-600: the init hash, the hex digest of the password digest followed by the
      hex digest of the time slot's decimal text. It is 128 lower-case hex characters. */
  function InitHash(sha: Sha512, pw: string, slot: int): (h: string)
    ensures |h| == 2 * DIGEST_LEN
    ensures forall k :: 0 <= k < |h| ==> IsLowerHexChar(h[k])
  {
    var timeHash := HexEncode(sha(IntToDecimal(slot)));
    EncodedIsLowerHex(sha(pw + timeHash));
    HexEncode(sha(pw + timeHash))
  }

  /** Lines 604-615: funcHex2Int of the one character at `DIGEST_LEN + initHashPos`. */
  function OtpStartOffset(init: string, initHashPos: int): int
    requires -(DIGEST_LEN as int) <= initHashPos <= 0
  {
    DecodeHexInt(CopyField(init, DIGEST_LEN + initHashPos, 1))
  }

  /** Lines 621-626: `6 * numPorts` characters of the init hash from the start offset,
      fewer when the hash ends first. */
  function OtpHash(init: string, start: nat, numPorts: nat): (h: string)
    ensures |h| <= 6 * numPorts
    ensures start + 6 * numPorts <= |init| ==> |h| == 6 * numPorts
    ensures forall k :: 0 <= k < |h| ==> start + k < |init| && h[k] == init[start + k]
  {
    CopyField(init, start, 6 * numPorts)
  }

  /** Lines 630-641: the `5 * numPorts` characters of the init hash that end just before
      index `2 * DIGEST_LEN + initHashPos`. */
  function OorHash(init: string, initHashPos: int, numPorts: nat): string
    requires 5 * numPorts <= 2 * DIGEST_LEN + initHashPos
  {
    CopyField(init, DIGEST_HEX_LEN + ((initHashPos - 5 * numPorts) - 1), 5 * numPorts)
  }

  /** What is known of the double step on the OTP hash, lower-case hex text of at most
      128 characters. funcHex2Dbl (lines 157-218) rejects such text exactly when it is
      empty, with ERR_INVALID_HEX, because its first character is then the terminator;
      sixteen to the 128th power is far below DBL_MAX / 16, so ERR_OVERFLOW never arises.
      A success is a digit string holding the start of every door's segment. */
  predicate RenderFits(res: RenderResult, hash: string, cfg: Knock) {
    match res
    case RenderFailed(code) => hash == [] && code == ERR_INVALID_HEX
    case Rendered(digits) =>
      && hash != []
      && IsDigits(digits)
      && (cfg.numPorts == 0 || Mul(cfg.numPorts - 1, SegmentWidth(cfg.proto, cfg.protoFlags)) <= |digits|)
  }

  /** What funcGenOTP demands for its buffers and reads to stay in bounds: a password
      digest that fits the concatenation buffer, a start-offset index inside the init
      hash, an OOR hash that starts inside it, a valid range, rendered digits the decoder
      can cut into segments, and OOR reads of the doors that need correcting that stay
      inside the OOR hash. */
  predicate GenRequirements(sha: Sha512, render: Renderer, pw: string, cfg: Knock, slot: int) {
    && |pw| <= 2 * DIGEST_LEN && NUL !in pw
    && -(DIGEST_LEN as int) <= cfg.initHashPos <= 0
    && 5 * cfg.numPorts <= 2 * DIGEST_LEN + cfg.initHashPos
    && 0 <= cfg.portMin <= cfg.portMax <= INT_MAX
    && var init := InitHash(sha, pw, slot);
       var start := OtpStartOffset(init, cfg.initHashPos);
       start >= 0 ==>
         var hash := OtpHash(init, start, cfg.numPorts);
         var res := render(hash);
         && RenderFits(res, hash, cfg)
         && (res.Rendered? ==>
               ReadsFit(OorHash(init, cfg.initHashPos, cfg.numPorts), RawDoors(res.digits, cfg, cfg.numPorts),
                        cfg, 0, cfg.initHashPos))
  }

  /** A derivation's status and the doors it wrote. */
  datatype Derivation = Derivation(status: int, doors: seq<DoorPort>)

  /** What funcGenOTP computes for a time slot. */
  function GenOtpSpec(sha: Sha512, render: Renderer, pw: string, cfg: Knock, slot: int): Derivation
    requires GenRequirements(sha, render, pw, cfg, slot)
  {
    var init := InitHash(sha, pw, slot);
    var start := OtpStartOffset(init, cfg.initHashPos);
    if start < 0 then Derivation(start, [])
    else
      var oor := OorHash(init, cfg.initHashPos, cfg.numPorts);
      match render(OtpHash(init, start, cfg.numPorts))
      case RenderFailed(code) => Derivation(code, [])
      case Rendered(digits) =>
        var r := ParseDoors(digits, oor, cfg);
        Derivation(r.status, r.doors)
  }

  /** The start offset is the nibble of a lower-case hex character, so it lies in
      [0, 15] and its decoding never fails, whatever the password digest holds. */
  lemma StartOffsetIsNibble(sha: Sha512, pw: string, slot: int, initHashPos: int)
    requires -(DIGEST_LEN as int) <= initHashPos <= 0
    ensures var init := InitHash(sha, pw, slot);
            && IsHexChar(init[DIGEST_LEN + initHashPos])
            && OtpStartOffset(init, initHashPos) == NibbleOf(init[DIGEST_LEN + initHashPos])
            && 0 <= OtpStartOffset(init, initHashPos) < 16
  {
    var init := InitHash(sha, pw, slot);
    var index := DIGEST_LEN + initHashPos;
    assert CopyField(init, index, 1) == OorChar(init, index);
    OorCharDecode(init, index);
  }

  /** The OTP hash is the window of the init hash from the start offset, cut short at
      its end. */
  lemma OtpHashWindow(init: string, start: nat, numPorts: nat)
    requires start <= |init|
    ensures var end := if start + 6 * numPorts <= |init| then start + 6 * numPorts else |init|;
            OtpHash(init, start, numPorts) == init[start..end]
  {
  }

  /** The OTP hash is empty exactly when there are no doors, for a start offset inside
      the init hash. */
  lemma OtpHashEmpty(init: string, start: nat, numPorts: nat)
    requires start < |init|
    ensures OtpHash(init, start, numPorts) == [] <==> numPorts == 0
  {
    OtpHashWindow(init, start, numPorts);
  }

  /** The OOR hash is exactly the `5 * numPorts` characters before index
      `2 * DIGEST_LEN + initHashPos`, all of them lower-case hex. */
  lemma OorHashWindow(sha: Sha512, pw: string, slot: int, initHashPos: int, numPorts: nat)
    requires initHashPos <= 0
    requires 5 * numPorts <= 2 * DIGEST_LEN + initHashPos
    ensures var init := InitHash(sha, pw, slot);
            var oor := OorHash(init, initHashPos, numPorts);
            && |oor| == 5 * numPorts
            && oor == init[2 * DIGEST_LEN + initHashPos - 5 * numPorts .. 2 * DIGEST_LEN + initHashPos]
            && (forall k :: 0 <= k < |oor| ==> IsLowerHexChar(oor[k]))
            && NUL !in oor
  {
    var init := InitHash(sha, pw, slot);
    var oor := OorHash(init, initHashPos, numPorts);
    assert forall k :: 0 <= k < |oor| ==> IsLowerHexChar(oor[k]);
  }

  /** The OOR hash holds five characters per door, enough for every door to need
      correcting exactly when each correction reads at most five and the cursor starts at
      -1 or 0; with a five-digit range, -1 and 0 are the only starts that work. */
  lemma OorBudget(numPorts: nat, initHashPos: int, portMin: int, portMax: int)
    requires 0 <= portMin <= portMax
    ensures portMax - portMin < 100000 && -1 <= initHashPos <= 0 ==>
              OorReadable(5 * numPorts, initHashPos, Mul(numPorts, LenInt(portMax - portMin)))
    ensures numPorts >= 1 && 10000 <= portMax - portMin < 100000 ==>
              (OorReadable(5 * numPorts, initHashPos, Mul(numPorts, LenInt(portMax - portMin))) <==> -1 <= initHashPos <= 0)
  {
    var len := LenInt(portMax - portMin);
    MulIsProduct(numPorts, len);
    if portMax - portMin < 100000 {
      assert Pow10(5) == 100000;
      PowMonotone(5, if len > 5 then len - 1 else 5);
      assert numPorts * len <= numPorts * 5;
    }
    if 10000 <= portMax - portMin < 100000 {
      assert Pow10(4) == 10000;
      PowMonotone(if len < 4 then len else 4, 4);
    }
  }

  /** The worst-case budget is enough: when the OOR hash could serve every door needing
      correcting, it serves the doors that actually do. */
  lemma {:induction false} WorstCaseSuffices(oor: seq<char>, raws: seq<RawDoor>, cfg: Knock, cursor: int)
    requires OorReadable(|oor|, cursor, Mul(|raws|, LenInt(cfg.portMax - cfg.portMin)))
    ensures ReadsFit(oor, raws, cfg, 0, cursor)
  {
    MulMonotone(OutOfRange(raws, cfg, 0), |raws|, LenInt(cfg.portMax - cfg.portMin));
  }

  lemma {:induction false} MulMonotone(a: nat, c: nat, b: nat)
    requires a <= c
    ensures Mul(a, b) <= Mul(c, b)
    decreases c
  {
    if a < c {
      MulMonotone(a, c - 1, b);
    }
  }

  /** Every completed derivation writes all its doors; each has a single-bit protocol
      mask and, when the range fits an unsigned short, a port inside it. The only failure
      is ERR_INVALID_HEX: with no doors configured the OTP hash is empty and the double
      step rejects it (line 650); otherwise it comes from a correction, with the doors
      before it. ERR_OVERFLOW never arises. */
  lemma DerivedDoors(sha: Sha512, render: Renderer, pw: string, cfg: Knock, slot: int)
    requires GenRequirements(sha, render, pw, cfg, slot)
    ensures var r := GenOtpSpec(sha, render, pw, cfg, slot);
            && (r.status == 0 || r.status == ERR_INVALID_HEX)
            && r.status != ERR_OVERFLOW
            && (cfg.numPorts == 0 ==> r.status == ERR_INVALID_HEX && r.doors == [])
            && (cfg.numPorts >= 1 ==> (r.status == 0 <==> |r.doors| == cfg.numPorts))
            && (r.status == 0 ==> |r.doors| == cfg.numPorts)
            && (r.status != 0 ==> |r.doors| < cfg.numPorts || r.doors == [])
            && forall j :: 0 <= j < |r.doors| ==>
                 && r.doors[j].usProto in {1, 2, 4}
                 && (cfg.portMax < 0x1_0000 ==> cfg.portMin <= r.doors[j].usPort as int <= cfg.portMax)
  {
    var init := InitHash(sha, pw, slot);
    StartOffsetIsNibble(sha, pw, slot, cfg.initHashPos);
    var start := OtpStartOffset(init, cfg.initHashPos);
    var oor := OorHash(init, cfg.initHashPos, cfg.numPorts);
    OorHashWindow(sha, pw, slot, cfg.initHashPos, cfg.numPorts);
    OtpHashEmpty(init, start, cfg.numPorts);
    match render(OtpHash(init, start, cfg.numPorts))
    case RenderFailed(code) =>
    case Rendered(digits) =>
      DecodedDoors(digits, oor, cfg);
      var r := ParseDoors(digits, oor, cfg);
      forall j | 0 <= j < |r.doors|
        ensures r.doors[j].usProto in {1, 2, 4}
        ensures cfg.portMax < 0x1_0000 ==> cfg.portMin <= r.doors[j].usPort as int <= cfg.portMax
      {
        DoorFields(r.doors[j], RawDoorAt(digits, cfg, j), cfg);
      }
  }

  /** The text of a hex buffer filled by funcGenSHA512: the characters before its
      terminator. */
  lemma BufferText(orig: seq<char>, digest: Digest)
    requires |orig| >= DIGEST_HEX_LEN
    ensures Overwrite(orig, HexEncode(digest) + [NUL])[..2 * DIGEST_LEN] == HexEncode(digest)
  {
    var cells := Overwrite(orig, HexEncode(digest) + [NUL]);
    assert cells[..2 * DIGEST_LEN] == cells[..2 * DIGEST_LEN + 1][..2 * DIGEST_LEN];
  }

  /** Lines 567-600: hash the decimal text of the time slot into one buffer, concatenate
      the password digest and that hex text, and hash the result into a second buffer. */
  method HashInit(sha: Sha512, pw: string, slot: int) returns (init: string)
    requires |pw| <= 2 * DIGEST_LEN && NUL !in pw
    ensures init == InitHash(sha, pw, slot)
  {
    var cTimeSlotStart := IntToDecimal(slot);
    var cHashTimeSlotStart := new char[DIGEST_HEX_LEN];
    ghost var blank := cHashTimeSlotStart[..];
    GenSHA512(sha, cTimeSlotStart, cHashTimeSlotStart);
    BufferText(blank, sha(cTimeSlotStart));
    var cHashConcat := pw + cHashTimeSlotStart[..2 * DIGEST_LEN];
    var cHashOTPInit := new char[DIGEST_HEX_LEN];
    blank := cHashOTPInit[..];
    GenSHA512(sha, cHashConcat, cHashOTPInit);
    BufferText(blank, sha(cHashConcat));
    init := cHashOTPInit[..2 * DIGEST_LEN];
  }

  /** funcGenOTP, with the clock reading and the double step as parameters. On every
      error it returns the negative status with only the doors before the failing one
      written. */
  method GenOtp(sha: Sha512, render: Renderer, pw: string, cfg: Knock, nowUtc: int, rotate: int,
                ports: array<DoorPort>)
    returns (status: int)
    requires SlotDefined(nowUtc, rotate)
    requires GenRequirements(sha, render, pw, cfg, TimeSlotStart(nowUtc, rotate))
    requires ports.Length >= cfg.numPorts
    modifies ports
    ensures var r := GenOtpSpec(sha, render, pw, cfg, TimeSlotStart(nowUtc, rotate));
            && status == r.status
            && |r.doors| <= ports.Length
            && ports[..] == Overwrite(old(ports[..]), r.doors)
  {
    var timeSlotStart := TimeSlotStart(nowUtc, rotate);
    var init := HashInit(sha, pw, timeSlotStart);
    var iOTPStartPos := Hex2Int(CopyField(init, DIGEST_LEN + cfg.initHashPos, 1));
    if iOTPStartPos < 0 {
      assert old(ports[..])[0..] == old(ports[..]);
      return iOTPStartPos;
    }
    var cHashOTP := CopyField(init, iOTPStartPos, cfg.numPorts * 6);
    var iLenPorts := cfg.numPorts * 5 + 1;
    var cHashOOR := CopyField(init, DIGEST_HEX_LEN + ((cfg.initHashPos - (iLenPorts - 1)) - 1), iLenPorts - 1);
    assert cHashOTP == OtpHash(init, iOTPStartPos, cfg.numPorts);
    assert cHashOOR == OorHash(init, cfg.initHashPos, cfg.numPorts);

    match render(cHashOTP)
    case RenderFailed(code) =>
      assert old(ports[..])[0..] == old(ports[..]);
      status := code;
    case Rendered(digits) =>
      OorHashWindow(sha, pw, timeSlotStart, cfg.initHashPos, cfg.numPorts);
      status := ParseDbl2OTP(digits, cHashOOR, cfg, ports);
  }
}
