# knockd one-time-port derivation, modelled in Dafny

This project models the door-derivation core of `src/otp.c`. That code turns a hashed
shared password and the current time slot into a list of `tDoorPort` records
(`usPort`, `usProto`, `usProtoFlags`) that a knock must hit. It models these pieces:

- `funcHex2Int`: hex text to `int`, with the `INT_MAX / 16` guard and the in-band error
  codes.
- The output loop of `funcGenSHA512`: digest bytes to lower-case hex in a caller's buffer.
- `funcLenInt`, `funcInt2Char` and `funcChar2Int`: decimal rendering of ints and scanning
  of digit strings.
- `funcUpdateInvalidPort`: re-rolling an out-of-range port from the out-of-range (OOR)
  hash, read backwards through a cursor.
- `funcParseDbl2OTP`: fed the decimal digit string that its double step would produce.
  It cuts the string into fixed-width segments and reads two selectors and a port from
  each. It corrects the port, encodes the selectors as bit masks and writes the doors
  into the caller's array.
- `funcGenOTP`: the time slot, the two hashing steps, the start-offset character, and
  the OTP and OOR substrings. It then calls the decoder.

Files and modules:

| file | module | contents |
|---|---|---|
| `constants.dfy` | `OtpConstants` | error codes, field widths, digest sizes, protocol and flag constants |
| `shared_structs.dfy` | `SharedStructs` | `uint16`, `ToUShort`, `DoorPort` |
| `buffers.dfy` | `Buffers` | a C buffer after a prefix or suffix has been written over it |
| `hex_codec.dfy` | `HexCodec` | `funcHex2Int`, the `funcGenSHA512` loop |
| `decimal.dfy` | `Decimal` | `funcLenInt`, `funcInt2Char`, `funcChar2Int` |
| `port_range.dfy` | `PortRange` | `funcUpdateInvalidPort` |
| `segments.dfy` | `SegmentDecoder` | `funcParseDbl2OTP` |
| `otp.dfy` | `OtpGenerator` | `funcGetTimeSlotStart`, `funcGenOTP` |

Each modelled loop of the C code is a Dafny `method` with its loop and invariants. Each method is
proved equal to a specification function, for example `Hex2Int` to `DecodeHexInt`,
`UpdateInvalidPort` to `UpdateInvalidPortSpec`, `ParseDbl2OTP` to `ParseDoors` and
`GenOtp` to `GenOtpSpec`. The properties of the source are then proved as lemmas about
those functions. Buffers the C code writes in place (the hex buffer of `funcGenSHA512`,
`iaPortDiff`, the caller's `tDoorPort` array) stay Dafny arrays. Their new contents are
stated with `Buffers.Overwrite` or `Buffers.Backfill`.

A C string is modelled as the sequence of characters before its terminator. Reading at
its length reads the terminator, which never decodes as hex.

### Behaviour of the code worth knowing

- A configured (non-negative) protocol or flags value is never used for a door. The code
  only skips that digit, so the raw selector stays 0. The stored mask is then 1 (TCP, or
  flags value 0), whatever was configured: see `SegmentDecoder.ConfiguredFieldsIgnored`.
- The OTP hash is at most `6 * numPorts` characters. It is fewer when the window from the
  start offset runs off the end of the init hash. It is never shortened for a configured
  field.
- The password digest is hashed as text and never hex-decoded. A non-hex character such
  as `g` in it does not make the derivation fail. The one hex character decoded by
  `funcGenOTP` comes from the init hash, which is always lower-case hex:
  see `OtpGenerator.StartOffsetIsNibble`.
- The OOR hash holds `5 * numPorts` characters. The `+ 1` in its length is the
  terminator.
- The time slot uses C's `/`, which rounds toward zero rather than taking the floor. One
  second before the epoch is slot 0, not -1: see `OtpGenerator.SlotIsQuotient`.
- With `initHashPos == 0`, the first OOR read hits the terminator. Any door whose port
  needs correcting then fails with `ERR_INVALID_HEX`: see
  `SegmentDecoder.ZeroStartFails`.
- The OOR hash holds five characters per door. Each correction reads one character per
  digit of `portMax - portMin`, moving the cursor down from `initHashPos`. With a
  five-digit range and every door needing correction, any `initHashPos <= -2` makes the
  last reads fall in front of the OOR hash (lines 373 and 630-640). Only -1 and 0 stay
  inside it, and with 0 the first read is the terminator: see `OtpGenerator.OorBudget`.
  The model asks only that the reads of the doors which do need correcting stay inside
  the OOR hash (`SegmentDecoder.ReadsFit`), and `OtpGenerator.WorstCaseSuffices` shows
  the worst-case budget implies it.
- A later non-hex character ends `funcHex2Int` without an error. Only a non-hex first
  character, including the terminator of an empty string, is an error.

## Model

| member | source | states |
|---|---|---|
| HexCodec.NibbleOf | src/otp.c:240-268 | the value of a hex character is below 16 (definition; `MapPosition` proves it is the `gcMapHex` position, less 6 for upper case) |
| HexCodec.MapPosition | src/otp.c:237-261 | the inner search finds `c` in `gcMapHex` exactly when `c` is a hex character, at a position whose value, less 6 for upper case, is the character's nibble |
| HexCodec.HexMapAt | src/otp.c:42 | `gcMapHex` holds `0-9`, then `a-f`, then `A-F` |
| HexCodec.HexRunLength | src/otp.c:235-264 | the length of the leading run of hex characters: every character before it is hex, the one at it is not |
| HexCodec.HexValue | src/otp.c:270-282 | definition: the base-16 value of an all-hex string, accumulated as `value * 16 + nibble`; `HexValueMonotone` and `EncodedValue` are its properties |
| HexCodec.DecodeHexInt | src/otp.c:227-288 | `ERR_INVALID_HEX` exactly when the first character is missing or not hex; `ERR_OVERFLOW` exactly when the leading run is worth more than `INT_MAX`; otherwise a value in `[0, INT_MAX]` |
| HexCodec.Hex2Int | src/otp.c:227-288 | the C loop, with its `INT_MAX / 16` guard, `bEoCA` flag and in-band codes, returns `DecodeHexInt` of its input |
| HexCodec.IgnoresTail | src/otp.c:235-264 | a run of hex characters followed by the end of the string or by a non-hex character decodes as the run alone |
| HexCodec.CaseInsensitive | src/otp.c:266-268 | `A-F` decode exactly as `a-f` |
| HexCodec.HexValueMonotone | src/otp.c:270-282 | a longer hex prefix is worth at least as much, so overflowing a prefix means overflowing the whole run |
| HexCodec.HexOfByte | src/otp.c:320-321 | definition: the two `gcMapHex` characters of a byte, high nibble first; `ByteRoundTrip` inverts it |
| HexCodec.HexEncode | src/otp.c:318-322 | the encoding is twice as long as the digest; `HexEncodeAt`, `EncodedValue` and `EncodeDecodeRoundTrip` characterise it |
| HexCodec.HexEncodeAt | src/otp.c:318-322 | byte `i` of the digest is at positions `2i` (high nibble) and `2i+1` (low nibble) |
| HexCodec.EncodedIsLowerHex | src/otp.c:318-322 | the encoding uses only `0-9a-f` |
| HexCodec.EncodedValue | src/otp.c:318-322 | read back as hex, the encoding is worth the big-endian value of the bytes |
| HexCodec.EncodeDecodeRoundTrip | src/otp.c:227-325 | `funcHex2Int` of the encoding of a non-empty byte string worth at most `INT_MAX` gives that value back |
| HexCodec.ByteRoundTrip | src/otp.c:318-322 | each two-character pair decodes back to its byte |
| HexCodec.EncodeDigest | src/otp.c:315-322 | the loop writes the hex encoding of the digest over the first 128 cells and leaves the rest alone |
| HexCodec.GenSHA512 | src/otp.c:298-325 | the buffer ends up holding the 128 hex characters of the digest, then a terminator, then its old contents |
| Decimal.LenInt | src/otp.c:66-70 | at least 1, at least 2 for a negative int, and `-10^(len-1) < i < 10^len`; `IntToDecimal` proves it is the length of the `%d` text |
| Decimal.DigitCount | src/otp.c:66-70 | `10^(len-1) <= n < 10^len` |
| Decimal.IntToDecimal | src/otp.c:116-120 | `%d` text of `i`, as long as `funcLenInt` says, with a leading minus exactly for a negative `i` |
| Decimal.NatToDecimal | src/otp.c:116-120 | a digit string of `DigitCount(n)` characters |
| Decimal.DecimalRoundTrip | src/otp.c:116-148 | scanning the printed form of `n` gives `n` |
| Decimal.DecimalValue | src/otp.c:145-148 | definition: the value of a digit string, most significant digit first; `DecimalRoundTrip` and `PrintScanRoundTrip` make it the inverse of printing |
| Decimal.ScanInt | src/otp.c:145-148 | `sscanf("%d")` of a digit string of at most 9 digits: an empty string leaves the target at its prior value, otherwise a value below `10^len` |
| Decimal.PrintScanRoundTrip | src/otp.c:116-148 | printing then scanning a non-negative int below `10^9` is the identity |
| Decimal.LeadingZero | src/otp.c:508-510 | leading zeros add nothing to a scanned port |
| Decimal.DigitsOf | src/otp.c:351-354 | definition: the decimal digits of `n`, most significant first, `DigitCount(n)` of them, each in `[0, 9]`; `SplitDigits` is proved to fill its array with them and `DigitsOfValue` makes them fold back to `n` |
| Decimal.FoldDigits | src/otp.c:391 | definition: digits appended to an accumulator by `acc * 10 + d`, the step `iPort = (10 * iPort) + iMod`; `FoldDigitsSnoc`, `FoldDigitsMonotone`, `DigitsOfValue` and `RerollBound` are its properties |
| Decimal.DigitsOfValue | src/otp.c:350-354 | folding the decimal digits of `n` gives `n` |
| PortRange.SplitDigits | src/otp.c:345-354 | the array holds the decimal digits of `max - min`, most significant first |
| PortRange.OorCharDecode | src/otp.c:371-378 | decoding the one-character copy at an index gives the nibble of a hex character and `ERR_INVALID_HEX` for anything else |
| PortRange.ReadOorNibble | src/otp.c:370-378 | the one-character copy at `strlen(oor) + cursor` decodes to that character's nibble, or to `ERR_INVALID_HEX` (the terminator included) |
| PortRange.RollDigit | src/otp.c:387 | the new digit `nibble % (d + 1)` is at most the range digit `d` |
| PortRange.RerollDigits | src/otp.c:360-395 | definition: each range digit `d` becomes the nibble read at the cursor modulo `d + 1`, appended in decimal, with the cursor moving down one per digit; the first non-hex read stops it with that code; `RerollBound` and `RerollSucceedsIff` are its properties |
| PortRange.RerollArray | src/otp.c:360-395 | the loop returns what `RerollDigits` computes: the re-rolled number and the cursor, or the failing code and the cursor where decoding stopped |
| PortRange.RerollPort | src/otp.c:345-395 | the digits of `max - min` are split and re-rolled as `RerollDigits` says |
| PortRange.RerollBound | src/otp.c:360-395 | a re-rolled number lies between 0 and the number the range digits spell, and the cursor has moved down by the digit count |
| PortRange.RerollSucceedsIff | src/otp.c:370-394 | re-rolling succeeds exactly when all the characters it reads are hex; a failure is `ERR_INVALID_HEX`, with the cursor at the first character that is not |
| PortRange.UpdateInvalidPortSpec | src/otp.c:339-405 | definition: an in-range port is kept; otherwise `portMin` plus the re-rolled range digits, or the failing code with the port unchanged; `CorrectionInRange` and `TerminatorReadFails` are its properties |
| PortRange.CorrectionInRange | src/otp.c:339-405 | the status is 0 or `ERR_INVALID_HEX`; on success the port is in `[min, max]` and an out-of-range port moved the cursor down by the digit count of `max - min`; on failure the port is unchanged |
| PortRange.UpdateInvalidPort | src/otp.c:339-405 | equals `UpdateInvalidPortSpec`; an in-range port leaves port and cursor alone; success puts the port in range; an error leaves the port unwritten |
| PortRange.TerminatorReadFails | src/otp.c:373-380 | with the cursor at 0 any out-of-range port fails with `ERR_INVALID_HEX` |
| SegmentDecoder.SegmentWidth | src/otp.c:443-449 | definition: the segment is `LEN_SINGLE_OTP` digits less one for each configured field, so it holds the dynamic selector digits plus `LEN_PORT` |
| SegmentDecoder.CopyField | src/otp.c:466-467 | `strncpy` of `n` characters from `start`: at most `n`, fewer at the end of the string, each equal to the source character |
| SegmentDecoder.ParseSegment | src/otp.c:470-510 | both selectors are single digits and the port is below `10^LEN_PORT` |
| SegmentDecoder.ParseSegmentFields | src/otp.c:470-510 | reading the fields with an advancing `iStartPos` gives `ParseSegment` |
| SegmentDecoder.FullSegmentFields | src/otp.c:470-510 | on a full segment: the protocol selector is the first digit, the flags selector the next, each only when dynamic, and the port is the decimal value of the last `LEN_PORT` digits |
| SegmentDecoder.ProtoOf | src/otp.c:517 | the protocol selector reduces to a supported protocol |
| SegmentDecoder.FlagsModulus | src/otp.c:518-526 | the flags modulus is positive; it is 1 for a protocol without flags |
| SegmentDecoder.MakeDoor | src/otp.c:517-537 | definition: the door with the port given and the masks `2^proto` and `2^flags` of the reduced selectors; `DoorMasks` is its property |
| SegmentDecoder.DoorMasks | src/otp.c:517-537 | `usProto` is 1, 2 or 4; TCP has flag masks 1..32, UDP only 1, ICMP 1..64 |
| SegmentDecoder.MulIsProduct | src/otp.c:466 | the recursive product used for segment starts and OOR budgets is `a * b` |
| SegmentDecoder.RawDoorAt | src/otp.c:466-510 | definition: the fields of the segment of door `i`, cut at `i * width` for up to `width` digits |
| SegmentDecoder.OutOfRange | src/otp.c:529-532 | the number of doors from `i` on whose parsed port is outside the range, each of which reads the OOR hash; at most the number of doors left |
| SegmentDecoder.NoCorrectionNoReads | src/otp.c:529-532 | when every parsed port from door `i` on is in range, no OOR read is made, and the reads fit for any OOR hash and any start position |
| SegmentDecoder.DoorCorrection | src/otp.c:529-532 | a door's port check fails only with `ERR_INVALID_HEX`; on success the OOR hash left still serves the later doors that need correcting |
| SegmentDecoder.DoorStep | src/otp.c:462-537 | one door: its status is 0 or `ERR_INVALID_HEX`, and on success the OOR reads of the later doors still fit |
| SegmentDecoder.RawDoors | src/otp.c:460-510 | one raw field triple per door |
| SegmentDecoder.ParseFrom | src/otp.c:460-538 | definition of the door loop from door `i`: an error stops it with the doors so far, a success stores the door and goes on with the new cursor; `ParseFromShape`, `ParseFromDoors` and `ParseFromCursor` are its properties |
| SegmentDecoder.ParseFromShape | src/otp.c:460-541 | status 0 with every door, or `ERR_INVALID_HEX` with the doors before the failing one |
| SegmentDecoder.StepFacts | src/otp.c:529-537 | a stored door is built from its segment with a port in range, and the cursor moves only when the port needed correcting |
| SegmentDecoder.ParseFromDoors | src/otp.c:460-538 | every door written comes from its own segment, with a port in range that is the parsed one whenever that was in range |
| SegmentDecoder.ParseFromCursor | src/otp.c:456-537 | one cursor is shared by all doors: on success it has moved down by the range's digit count once per corrected door |
| SegmentDecoder.ParseDoors | src/otp.c:421-541 | definition: the door loop from door 0 with the cursor at `initHashPos`; `DecodedDoors` is its property |
| SegmentDecoder.DecodedDoors | src/otp.c:421-541 | the whole decoder: the shape of the result, where each door comes from, and the final cursor |
| SegmentDecoder.DoorFields | src/otp.c:517-537 | a decoded door has a single-bit protocol mask and a port in the range when the range fits an unsigned short; a parsed in-range port is kept |
| SegmentDecoder.ConfiguredFieldsIgnored | src/otp.c:443-537 | a configured protocol gives `usProto == 1` and configured flags give `usProtoFlags == 1` for every door |
| SegmentDecoder.ZeroStartFails | src/otp.c:456-532 | with `initHashPos == 0` and the first door out of range, the decoder fails at once and writes no door |
| SegmentDecoder.DecodeDoor | src/otp.c:462-537 | one iteration of the door loop computes `DoorStep` for segment `i` |
| SegmentDecoder.ParseDbl2OTP | src/otp.c:421-541 | returns the status of `ParseDoors` and writes its doors over the front of the caller's array, leaving the rest alone |
| SharedStructs.ToUShort | src/otp.c:535-537 | the conversion to `unsigned short` leaves a value already in `[0, 65535]` unchanged |
| OtpGenerator.CDiv | src/otp.c:101-105 | definition of C's `/` on ints: the quotient of the magnitudes, negated when the signs differ; `CDivRemainder` and `CDivMagnitude` are its properties |
| OtpGenerator.CDivMagnitude | src/otp.c:101-105 | the magnitude of C's quotient is the quotient of the magnitudes |
| OtpGenerator.TimeSlotStart | src/otp.c:101-105 | the time slot, the C quotient of the clock by the rotation period, always fits a 32-bit int |
| OtpGenerator.CDivRemainder | src/otp.c:101-105 | C division rounds toward zero: the remainder is smaller than the divisor and has the sign of the dividend |
| OtpGenerator.SlotIsQuotient | src/otp.c:101-105 | from the epoch on, the slot is the floor quotient; for every positive period, each second of the period before the epoch is slot 0, where the floor would give -1 |
| OtpGenerator.InitHash | src/otp.c:567-600 | the init hash is 128 lower-case hex characters |
| OtpGenerator.HashInit | src/otp.c:567-600 | hashing the time slot's text, concatenating and hashing again yields `InitHash` |
| OtpGenerator.StartOffsetIsNibble | src/otp.c:604-615 | the start-offset character is hex, so the offset is its nibble in `[0, 15]` and the error return is never taken |
| OtpGenerator.OtpStartOffset | src/otp.c:604-615 | definition: `funcHex2Int` of the one character at `64 + initHashPos`; `StartOffsetIsNibble` is its property |
| OtpGenerator.OtpHash | src/otp.c:621-626 | at most `6 * numPorts` characters, exactly that many when the init hash is long enough, each equal to the init hash's character from the start offset on |
| OtpGenerator.OorHash | src/otp.c:630-641 | definition: the `strncpy` window of `5 * numPorts` characters at `128 + initHashPos - 5 * numPorts`; `OorHashWindow` is its property |
| OtpGenerator.OorHashWindow | src/otp.c:630-641 | the OOR hash is the `5 * numPorts` characters just before `128 + initHashPos`, all lower-case hex |
| OtpGenerator.OorBudget | src/otp.c:630-640 | the worst-case budget, with every door corrected, fits the `5 * numPorts` OOR hash when the range has at most five digits and the cursor starts at -1 or 0; for a five-digit range exactly those two starts fit |
| OtpGenerator.WorstCaseSuffices | src/otp.c:630-640 | when the OOR hash could serve every door needing correction, it serves the doors that actually do |
| OtpGenerator.DerivedDoors | src/otp.c:565-662 | a derivation succeeds with all its doors or fails with `ERR_INVALID_HEX`, never `ERR_OVERFLOW`; with no doors configured it always fails with `ERR_INVALID_HEX` and no doors, the empty OTP hash rejected at line 650; with at least one door it succeeds exactly when every door is written, a failure coming from a correction with the doors before it; every door has a single-bit protocol mask, and a port in the range when the range fits an unsigned short |
| OtpGenerator.OtpHashEmpty | src/otp.c:621-626 | for a start offset inside the init hash, the OTP hash is empty exactly when no doors are configured |
| OtpGenerator.GenOtpSpec | src/otp.c:565-662 | definition: a failed start offset or double step returns its code with no doors, otherwise the decoder's status and doors; `DerivedDoors` is its property |
| OtpGenerator.GenOtp | src/otp.c:565-662 | returns the status of `GenOtpSpec` and writes its doors over the front of the caller's array |

## Left out

- SHA-512 (`SHA512_Init/Update/Final`, OpenSSL) is a function-typed parameter `Sha512` that returns 64 bytes. Only the hex loop around it is modelled.
- The clock (`funcGetTimeUTC`) is a parameter of `GenOtp`. Only the division of `funcGetTimeSlotStart` is modelled.
- The floating-point step is a parameter `render` of type `Renderer`. That step is `funcHex2Dbl`, `funcLenDbl`, `funcDbl2Char` and `dOTP`. Its precision is not modelled, but its outcome is constrained: `OtpGenerator.RenderFits` requires the step to fail exactly on an empty OTP hash, with `ERR_INVALID_HEX`, as `funcHex2Dbl` (lines 157-218) does on lower-case hex text. Overflow cannot happen there, since 128 hex digits stay far below `DBL_MAX / 16`. A success is a digit string.
- `OtpGenerator.GenRequirements` makes these C out-of-bounds cases preconditions:
  - the start-offset index;
  - the start of the OOR hash;
  - every OOR read made by a door whose parsed port needs correcting;
  - every segment start inside the rendered digits;
  - a password digest of at most 128 characters.
- The one-past-the-end write `cHashOTPInit2[giDigestHexLen]` (line 638) is not modelled. Neither is the copy buffer it belongs to: the OOR hash is cut from the init hash directly.
- `printf` diagnostics and `bzero` scrubbing are not modelled: they do not change any result.
- `strncpy`, `strncat` and `sscanf` are modelled only as used here: `CopyField` for the substrings, and `ScanInt` on digit strings.
- `IntToDecimal` covers general `%d` (negative values included). `ScanInt` covers `%d` scans of up to nine digits.
- Every buffer except the hex buffers, `iaPortDiff` and the door array is a sequence rather than a C array.
- `LEN_PORT`, `KNOCK_SUPP_PROTOS`, `KNOCK_PROTO_TCP`, `KNOCK_PROTO_ICMP`, `FLAG_SUPP_TCP`, `FLAG_SUPP_ICMP` and `FLAG_ENC_BASE` come from a header that is not part of this model. The model fixes them as `LEN_PORT` = 5, `KNOCK_SUPP_PROTOS` = 3, TCP = 0, ICMP = 2, six TCP and seven ICMP flag values, and base 2.
- `SharedStructs.ToUShort`: states only that values already in `[0, 65535]` are kept. `unsigned short` wrap-around is the modulo itself and is not separately characterised.
- Integer overflow of `10 * iPort` and `portMin + iPort` in `funcUpdateInvalidPort` is excluded by the range `0 <= min <= max <= INT_MAX`. The re-rolled value never exceeds `max - min`. The model requires `portMin <= portMax`, and the C does not check it. With `min > max`, `iPortDiff` is negative, so its digits are negative. A digit of -1 makes `iDiffVal` zero, and `iOffset % 0` is undefined (lines 351-353 and 388).
