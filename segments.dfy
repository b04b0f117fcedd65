/** funcParseDbl2OTP, starting from the decimal digit string of the OTP value: one
    fixed-width segment per door yields a protocol selector, a flags selector and a port;
    out-of-range ports are corrected from the OOR hash with one cursor shared by all doors. */
module SegmentDecoder {
  import opened OtpConstants
  import opened SharedStructs
  import opened HexCodec
  import opened Decimal
  import opened PortRange
  import opened Buffers

  /** The knock configuration the decoder reads. A negative `proto` or `protoFlags`
      means the field is derived per door; a non-negative one means it is configured. */
  datatype Knock = Knock(numPorts: nat, initHashPos: int, portMin: int, portMax: int, proto: int, protoFlags: int)

  /** `iLenSingleOTP`: digits per door, one fewer for each configured field. */
  function SegmentWidth(proto: int, protoFlags: int): nat {
    LEN_SINGLE_OTP - (if proto >= 0 then LEN_PROTO else 0) - (if protoFlags >= 0 then LEN_PROTO_FLAGS else 0)
  }

  /** The width always leaves room for the port after the dynamic selector digits. */
  lemma SegmentLayout(proto: int, protoFlags: int)
    ensures SegmentWidth(proto, protoFlags)
            == (if proto < 0 then LEN_PROTO else 0) + (if protoFlags < 0 then LEN_PROTO_FLAGS else 0) + LEN_PORT
  {
  }

  /** `strncpy(dst, s + start, n)` followed by a terminator at position n, where `s + start`
      lies inside a zero-filled buffer: at most n characters, fewer when the string ends. */
  function CopyField(s: seq<char>, start: nat, n: nat): (r: seq<char>)
    ensures |r| == if start >= |s| then 0 else if start + n <= |s| then n else |s| - start
    ensures forall k :: 0 <= k < |r| ==> r[k] == s[start + k]
  {
    if start >= |s| then [] else s[start .. if start + n <= |s| then start + n else |s|]
  }

  lemma CopyDigits(s: seq<char>, start: nat, n: nat)
    requires IsDigits(s)
    ensures IsDigits(CopyField(s, start, n)) && |CopyField(s, start, n)| <= n
  {
  }

  /** The raw selectors and the parsed port of one door. */
  datatype RawDoor = RawDoor(protoRaw: int, flagsRaw: int, port: int)

  /** Lines 470-510: the proto digit (when derived), then the flags digit (when derived),
      then up to LEN_PORT digits of port. A field that is configured, or that falls past
      the end of the segment, keeps its initial 0. */
  function ParseSegment(seg: seq<char>, proto: int, protoFlags: int): (r: RawDoor)
    requires IsDigits(seg)
    ensures 0 <= r.protoRaw <= 9 && 0 <= r.flagsRaw <= 9 && 0 <= r.port < Pow10(LEN_PORT)
  {
    var flagsStart := if proto < 0 then LEN_PROTO else 0;
    var portStart := flagsStart + (if protoFlags < 0 then LEN_PROTO_FLAGS else 0);
    CopyDigits(seg, 0, LEN_PROTO);
    CopyDigits(seg, flagsStart, LEN_PROTO_FLAGS);
    CopyDigits(seg, portStart, LEN_PORT);
    RawDoor(
      if proto < 0 then ScanInt(CopyField(seg, 0, LEN_PROTO), 0) else 0,
      if protoFlags < 0 then ScanInt(CopyField(seg, flagsStart, LEN_PROTO_FLAGS), 0) else 0,
      ScanInt(CopyField(seg, portStart, LEN_PORT), 0))
  }

  /** Lines 470-510 as the C code runs them, advancing `iStartPos` past each field read. */
  method ParseSegmentFields(seg: seq<char>, proto: int, protoFlags: int)
    returns (protoRaw: int, flagsRaw: int, port: int)
    requires IsDigits(seg)
    ensures RawDoor(protoRaw, flagsRaw, port) == ParseSegment(seg, proto, protoFlags)
  {
    protoRaw, flagsRaw, port := 0, 0, 0;
    var startPos := 0;
    if proto < 0 {
      CopyDigits(seg, startPos, LEN_PROTO);
      protoRaw := ScanInt(CopyField(seg, startPos, LEN_PROTO), protoRaw);
      startPos := startPos + LEN_PROTO;
    }
    if protoFlags < 0 {
      CopyDigits(seg, startPos, LEN_PROTO_FLAGS);
      flagsRaw := ScanInt(CopyField(seg, startPos, LEN_PROTO_FLAGS), flagsRaw);
      startPos := startPos + LEN_PROTO_FLAGS;
    }
    CopyDigits(seg, startPos, LEN_PORT);
    port := ScanInt(CopyField(seg, startPos, LEN_PORT), port);
  }

  function DigitValue(c: char): int {
    c as int - '0' as int
  }

  /** On a full-width segment, the proto selector is the first digit, the flags selector
      the next one (each only when derived), and the port is the decimal value of the
      remaining LEN_PORT digits, leading zeros included. */
  lemma FullSegmentFields(seg: seq<char>, proto: int, protoFlags: int)
    requires IsDigits(seg) && |seg| == SegmentWidth(proto, protoFlags)
    ensures var r := ParseSegment(seg, proto, protoFlags);
            var portStart := (if proto < 0 then 1 else 0) + (if protoFlags < 0 then 1 else 0);
            && r.protoRaw == (if proto < 0 then DigitValue(seg[0]) else 0)
            && r.flagsRaw == (if protoFlags < 0 then DigitValue(seg[if proto < 0 then 1 else 0]) else 0)
            && portStart + LEN_PORT == |seg|
            && r.port == DecimalValue(seg[portStart..])
  {
    var flagsStart := if proto < 0 then LEN_PROTO else 0;
    var portStart := flagsStart + (if protoFlags < 0 then LEN_PROTO_FLAGS else 0);
    assert CopyField(seg, portStart, LEN_PORT) == seg[portStart..];
    if proto < 0 {
      var f := CopyField(seg, 0, LEN_PROTO);
      assert f == [seg[0]] && f[..0] == [];
    }
    if protoFlags < 0 {
      var f := CopyField(seg, flagsStart, LEN_PROTO_FLAGS);
      assert f == [seg[flagsStart]] && f[..0] == [];
    }
  }

  /** The protocol selector reduced to a supported protocol (line 517). */
  function ProtoOf(protoRaw: int): (p: nat)
    ensures p < KNOCK_SUPP_PROTOS
  {
    protoRaw % KNOCK_SUPP_PROTOS
  }

  /** The number of flag values of a protocol (lines 521-526); 1 for a protocol without
      flags, so that its flags selector always reduces to 0. */
  function FlagsModulus(proto: nat): (m: nat)
    ensures m >= 1
  {
    if proto == KNOCK_PROTO_TCP then FLAG_SUPP_TCP
    else if proto == KNOCK_PROTO_ICMP then FLAG_SUPP_ICMP
    else 1
  }

  function Pow(b: nat, e: nat): nat {
    if e == 0 then 1 else b * Pow(b, e - 1)
  }

  /** Lines 517-537: the door built from the raw selectors and the checked port. The
      protocol and the flags are stored as FLAG_ENC_BASE raised to their value. */
  function MakeDoor(raw: RawDoor, port: int): DoorPort {
    var proto := ProtoOf(raw.protoRaw);
    var flags := raw.flagsRaw % FlagsModulus(proto);
    DoorPort(ToUShort(port), ToUShort(Pow(FLAG_ENC_BASE, proto)), ToUShort(Pow(FLAG_ENC_BASE, flags)))
  }

  /** The masks are single bits: TCP (1) has six flag values, UDP (2) none, ICMP (4) seven. */
  lemma DoorMasks(raw: RawDoor, port: int)
    ensures var d := MakeDoor(raw, port);
            && d.usProto in {1, 2, 4}
            && (d.usProto == 1 ==> d.usProtoFlags in {1, 2, 4, 8, 16, 32})
            && (d.usProto == 2 ==> d.usProtoFlags == 1)
            && (d.usProto == 4 ==> d.usProtoFlags in {1, 2, 4, 8, 16, 32, 64})
  {
    var proto := ProtoOf(raw.protoRaw);
    var flags := raw.flagsRaw % FlagsModulus(proto);
    assert Pow(2, 1) == 2 && Pow(2, 2) == 4 && Pow(2, 3) == 8;
    assert Pow(2, 4) == 16 && Pow(2, 5) == 32 && Pow(2, 6) == 64;
  }

  /** The outcome of the decoder: its status, the doors written (all of them on success,
      those before the failing one otherwise) and the final OOR cursor. */
  datatype ParseOutcome = ParseOutcome(status: int, doors: seq<DoorPort>, cursor: int)

  /** a * b as repeated addition: the OOR characters that a corrections of b reads each
      may consume, and the start of segment a when segments are b digits wide. Keeping it
      recursive keeps the loop proofs in linear arithmetic. */
  function Mul(a: nat, b: nat): nat {
    if a == 0 then 0 else Mul(a - 1, b) + b
  }

  lemma {:induction false} MulIsProduct(a: nat, b: nat)
    ensures Mul(a, b) == a * b
  {
    if a > 0 {
      MulIsProduct(a - 1, b);
    }
  }

  /** What the decoder needs of its inputs: a digit string, a non-empty range of ints, a
      start position for every door's segment inside the digit string, and OOR reads of
      the doors that need correcting that stay inside the OOR hash. */
  predicate ParseRequirements(digits: seq<char>, oor: seq<char>, cfg: Knock) {
    && IsDigits(digits)
    && 0 <= cfg.portMin <= cfg.portMax <= INT_MAX
    && (cfg.numPorts == 0 || Mul(cfg.numPorts - 1, SegmentWidth(cfg.proto, cfg.protoFlags)) <= |digits|)
    && ReadsFit(oor, RawDoors(digits, cfg, cfg.numPorts), cfg, 0, cfg.initHashPos)
  }

  /** Door i's raw fields, read from digits [i*w, (i+1)*w). */
  function RawDoorAt(digits: seq<char>, cfg: Knock, i: nat): RawDoor
    requires IsDigits(digits)
  {
    var w := SegmentWidth(cfg.proto, cfg.protoFlags);
    CopyDigits(digits, Mul(i, w), w);
    ParseSegment(CopyField(digits, Mul(i, w), w), cfg.proto, cfg.protoFlags)
  }


  /** Doors i .. |raws| - 1 whose parsed port is outside [portMin, portMax]: the doors
      whose check reads the OOR hash. */
  function OutOfRange(raws: seq<RawDoor>, cfg: Knock, i: nat): (k: nat)
    requires i <= |raws|
    ensures k <= |raws| - i
    decreases |raws| - i
  {
    if i == |raws| then 0
    else (if cfg.portMin <= raws[i].port <= cfg.portMax then 0 else 1) + OutOfRange(raws, cfg, i + 1)
  }

  /** From `cursor` on, the OOR reads of the doors among i .. |raws| - 1 that need
      correcting stay inside the OOR hash. When none does, nothing is read. */
  predicate ReadsFit(oor: seq<char>, raws: seq<RawDoor>, cfg: Knock, i: nat, cursor: int)
    requires i <= |raws|
  {
    var k := OutOfRange(raws, cfg, i);
    k == 0 || OorReadable(|oor|, cursor, Mul(k, LenInt(cfg.portMax - cfg.portMin)))
  }

  /** When no door's parsed port needs correcting, nothing is read from the OOR hash, so
      any OOR hash and any start position will do. */
  lemma {:induction false} NoCorrectionNoReads(oor: seq<char>, raws: seq<RawDoor>, cfg: Knock, i: nat, cursor: int)
    requires i <= |raws|
    requires forall j :: i <= j < |raws| ==> cfg.portMin <= raws[j].port <= cfg.portMax
    ensures OutOfRange(raws, cfg, i) == 0 && ReadsFit(oor, raws, cfg, i, cursor)
    decreases |raws| - i
  {
    if i < |raws| {
      NoCorrectionNoReads(oor, raws, cfg, i + 1, cursor);
    }
  }

  /** The reads of doors i .. are door i's, if it needs correcting, plus those after it. */
  lemma ReadCost(raws: seq<RawDoor>, cfg: Knock, i: nat, len: nat)
    requires i < |raws|
    ensures Mul(OutOfRange(raws, cfg, i), len)
            == Mul(OutOfRange(raws, cfg, i + 1), len) + (if cfg.portMin <= raws[i].port <= cfg.portMax then 0 else len)
  {
    if !(cfg.portMin <= raws[i].port <= cfg.portMax) {
      assert OutOfRange(raws, cfg, i) == OutOfRange(raws, cfg, i + 1) + 1;
    }
  }

  /** Door i's share of the reads: an in-range port reads nothing; an out-of-range one
      reads `len` characters from the cursor and leaves the rest for the later doors. */
  lemma ReadsFitNext(oor: seq<char>, raws: seq<RawDoor>, cfg: Knock, i: nat, cursor: int)
    requires i < |raws|
    requires ReadsFit(oor, raws, cfg, i, cursor)
    ensures var len := LenInt(cfg.portMax - cfg.portMin);
            if cfg.portMin <= raws[i].port <= cfg.portMax then ReadsFit(oor, raws, cfg, i + 1, cursor)
            else OorReadable(|oor|, cursor, len) && ReadsFit(oor, raws, cfg, i + 1, cursor - len)
  {
    ReadCost(raws, cfg, i, LenInt(cfg.portMax - cfg.portMin));
  }

  /** The port check of door i, made with the OOR cursor left by the doors before it. */
  function DoorCorrection(raws: seq<RawDoor>, oor: seq<char>, cfg: Knock, i: nat, cursor: int): (c: Correction)
    requires i < |raws|
    requires 0 <= cfg.portMin <= cfg.portMax
    requires ReadsFit(oor, raws, cfg, i, cursor)
    ensures c.status == 0 || c.status == ERR_INVALID_HEX
    ensures c.status == 0 ==> ReadsFit(oor, raws, cfg, i + 1, c.cursor)
  {
    ReadsFitNext(oor, raws, cfg, i, cursor);
    CorrectionInRange(cfg.portMin, cfg.portMax, oor, cursor, raws[i].port);
    UpdateInvalidPortSpec(cfg.portMin, cfg.portMax, oor, cursor, raws[i].port)
  }

  /** The raw fields of doors 0 .. k - 1. Door i's segment does not depend on the OOR
      cursor, so the decoder is the correction pass over this list. */
  function RawDoors(digits: seq<char>, cfg: Knock, k: nat): (raws: seq<RawDoor>)
    requires IsDigits(digits)
    ensures |raws| == k
  {
    seq(k, j requires 0 <= j => RawDoorAt(digits, cfg, j))
  }

  /** The result of one door: the correction status, the cursor after it, and the door
      that is stored when the status is 0. */
  datatype Step = Step(status: int, cursor: int, door: DoorPort)

  /** Door i, checked with the cursor left by the doors before it. */
  function DoorStep(raws: seq<RawDoor>, oor: seq<char>, cfg: Knock, i: nat, cursor: int): (st: Step)
    requires i < |raws|
    requires 0 <= cfg.portMin <= cfg.portMax
    requires ReadsFit(oor, raws, cfg, i, cursor)
    ensures st.status == 0 || st.status == ERR_INVALID_HEX
    ensures st.status == 0 ==> ReadsFit(oor, raws, cfg, i + 1, st.cursor)
  {
    var c := DoorCorrection(raws, oor, cfg, i, cursor);
    Step(c.status, c.cursor, MakeDoor(raws[i], c.port))
  }

  /** Doors i .. numPorts - 1 of the raw list, starting from `cursor`, after the doors `acc`. */
  function ParseFrom(raws: seq<RawDoor>, oor: seq<char>, cfg: Knock, i: nat, cursor: int, acc: seq<DoorPort>): ParseOutcome
    requires i <= cfg.numPorts == |raws|
    requires 0 <= cfg.portMin <= cfg.portMax
    requires ReadsFit(oor, raws, cfg, i, cursor)
    decreases cfg.numPorts - i
  {
    if i == cfg.numPorts then ParseOutcome(0, acc, cursor)
    else
      var st := DoorStep(raws, oor, cfg, i, cursor);
      if st.status < 0 then ParseOutcome(st.status, acc, st.cursor)
      else ParseFrom(raws, oor, cfg, i + 1, st.cursor, acc + [st.door])
  }

  /** ParseFrom at a door that exists, in terms of that door's step. */
  lemma ParseFromStep(raws: seq<RawDoor>, oor: seq<char>, cfg: Knock, i: nat, cursor: int, acc: seq<DoorPort>,
                      status: int, next: int, door: DoorPort)
    requires i < cfg.numPorts == |raws|
    requires 0 <= cfg.portMin <= cfg.portMax
    requires ReadsFit(oor, raws, cfg, i, cursor)
    requires Step(status, next, door) == DoorStep(raws, oor, cfg, i, cursor)
    ensures status < 0 ==> ParseFrom(raws, oor, cfg, i, cursor, acc) == ParseOutcome(status, acc, next)
    ensures status >= 0 ==>
              && ReadsFit(oor, raws, cfg, i + 1, next)
              && ParseFrom(raws, oor, cfg, i, cursor, acc) == ParseFrom(raws, oor, cfg, i + 1, next, acc + [door])
  {
  }

  /** What funcParseDbl2OTP computes for the whole door list. */
  function ParseDoors(digits: seq<char>, oor: seq<char>, cfg: Knock): ParseOutcome
    requires ParseRequirements(digits, oor, cfg)
  {
    ParseFrom(RawDoors(digits, cfg, cfg.numPorts), oor, cfg, 0, cfg.initHashPos, [])
  }

  /** The outcome always has one of two shapes: status 0 with every door written, or
      ERR_INVALID_HEX with the doors before the failing one; the doors already written
      are kept as they are. */
  lemma {:induction false} ParseFromShape(raws: seq<RawDoor>, oor: seq<char>, cfg: Knock, i: nat, cursor: int, acc: seq<DoorPort>)
    requires i <= cfg.numPorts == |raws| && |acc| == i
    requires 0 <= cfg.portMin <= cfg.portMax
    requires ReadsFit(oor, raws, cfg, i, cursor)
    ensures var r := ParseFrom(raws, oor, cfg, i, cursor, acc);
            && (r.status == 0 || r.status == ERR_INVALID_HEX)
            && i <= |r.doors| <= cfg.numPorts
            && r.doors[..i] == acc
            && (r.status == 0 <==> |r.doors| == cfg.numPorts)
    decreases cfg.numPorts - i
  {
    if i < cfg.numPorts {
      var st := DoorStep(raws, oor, cfg, i, cursor);
      if st.status >= 0 {
        ParseFromShape(raws, oor, cfg, i + 1, st.cursor, acc + [st.door]);
        var r := ParseFrom(raws, oor, cfg, i + 1, st.cursor, acc + [st.door]);
        assert r.doors[..i] == r.doors[..i + 1][..i];
      }
    }
  }

  /** `d` is the door built from `raw` with a port inside [portMin, portMax], and with
      the parsed port itself when that was already inside the range. */
  ghost predicate DoorFrom(d: DoorPort, raw: RawDoor, cfg: Knock) {
    exists p :: && cfg.portMin <= p <= cfg.portMax
                && (cfg.portMin <= raw.port <= cfg.portMax ==> p == raw.port)
                && d == MakeDoor(raw, p)
  }

  /** One successful step: the door comes from its raw fields with a port in the range,
      and the cursor moves down by the digit count of the range only when the parsed
      port needed correcting. */
  lemma StepFacts(raws: seq<RawDoor>, oor: seq<char>, cfg: Knock, i: nat, cursor: int)
    requires i < |raws|
    requires 0 <= cfg.portMin <= cfg.portMax
    requires ReadsFit(oor, raws, cfg, i, cursor)
    ensures var st := DoorStep(raws, oor, cfg, i, cursor);
            st.status >= 0 ==>
              && DoorFrom(st.door, raws[i], cfg)
              && st.cursor == cursor - (if cfg.portMin <= raws[i].port <= cfg.portMax then 0 else LenInt(cfg.portMax - cfg.portMin))
  {
    var raw := raws[i];
    var c := DoorCorrection(raws, oor, cfg, i, cursor);
    ReadsFitNext(oor, raws, cfg, i, cursor);
    CorrectionInRange(cfg.portMin, cfg.portMax, oor, cursor, raw.port);
    if c.status >= 0 {
      assert DoorStep(raws, oor, cfg, i, cursor).door == MakeDoor(raw, c.port);
    }
  }

  lemma DoorsFromSnoc(acc: seq<DoorPort>, raws: seq<RawDoor>, cfg: Knock, d: DoorPort)
    requires |acc| < |raws|
    requires forall j :: 0 <= j < |acc| ==> DoorFrom(acc[j], raws[j], cfg)
    requires DoorFrom(d, raws[|acc|], cfg)
    ensures forall j :: 0 <= j < |acc| + 1 ==> DoorFrom((acc + [d])[j], raws[j], cfg)
  {
    forall j | 0 <= j < |acc| + 1
      ensures DoorFrom((acc + [d])[j], raws[j], cfg)
    {
      if j < |acc| {
        assert (acc + [d])[j] == acc[j];
      }
    }
  }

  lemma {:induction false} ParseFromDoors(raws: seq<RawDoor>, oor: seq<char>, cfg: Knock, i: nat, cursor: int, acc: seq<DoorPort>)
    requires i <= cfg.numPorts == |raws| && |acc| == i
    requires 0 <= cfg.portMin <= cfg.portMax
    requires ReadsFit(oor, raws, cfg, i, cursor)
    requires forall j :: 0 <= j < i ==> DoorFrom(acc[j], raws[j], cfg)
    ensures |ParseFrom(raws, oor, cfg, i, cursor, acc).doors| <= |raws|
    ensures var r := ParseFrom(raws, oor, cfg, i, cursor, acc);
            forall j :: 0 <= j < |r.doors| ==> DoorFrom(r.doors[j], raws[j], cfg)
    decreases cfg.numPorts - i
  {
    ParseFromShape(raws, oor, cfg, i, cursor, acc);
    if i < cfg.numPorts {
      var st := DoorStep(raws, oor, cfg, i, cursor);
      if st.status >= 0 {
        StepFacts(raws, oor, cfg, i, cursor);
        DoorsFromSnoc(acc, raws, cfg, st.door);
        ParseFromDoors(raws, oor, cfg, i + 1, st.cursor, acc + [st.door]);
      }
    }
  }

  lemma {:induction false} ParseFromCursor(raws: seq<RawDoor>, oor: seq<char>, cfg: Knock, i: nat, cursor: int, acc: seq<DoorPort>)
    requires i <= cfg.numPorts == |raws|
    requires 0 <= cfg.portMin <= cfg.portMax
    requires ReadsFit(oor, raws, cfg, i, cursor)
    ensures var r := ParseFrom(raws, oor, cfg, i, cursor, acc);
            r.status == 0 ==> r.cursor == cursor - Mul(OutOfRange(raws, cfg, i), LenInt(cfg.portMax - cfg.portMin))
    decreases cfg.numPorts - i
  {
    if i < cfg.numPorts {
      var st := DoorStep(raws, oor, cfg, i, cursor);
      var len := LenInt(cfg.portMax - cfg.portMin);
      var moved := if cfg.portMin <= raws[i].port <= cfg.portMax then 0 else len;
      StepFacts(raws, oor, cfg, i, cursor);
      ParseFromStep(raws, oor, cfg, i, cursor, acc, st.status, st.cursor, st.door);
      if st.status >= 0 {
        assert st.cursor == cursor - moved;
        ParseFromCursor(raws, oor, cfg, i + 1, st.cursor, acc + [st.door]);
        ReadCost(raws, cfg, i, len);
      }
    }
  }

  /** The decoder's result, door by door: success means every door was written; each
      written door comes from its own segment with a port moved into the range only when
      the parsed one was outside it; the cursor has moved down by the digit count of
      `portMax - portMin` once per corrected door. */
  lemma DecodedDoors(digits: seq<char>, oor: seq<char>, cfg: Knock)
    requires ParseRequirements(digits, oor, cfg)
    ensures var r := ParseDoors(digits, oor, cfg);
            && (r.status == 0 || r.status == ERR_INVALID_HEX)
            && |r.doors| <= cfg.numPorts
            && (r.status == 0 <==> |r.doors| == cfg.numPorts)
            && (forall j :: 0 <= j < |r.doors| ==> DoorFrom(r.doors[j], RawDoorAt(digits, cfg, j), cfg))
            && (r.status == 0 ==>
                  r.cursor == cfg.initHashPos - OutOfRange(RawDoors(digits, cfg, cfg.numPorts), cfg, 0) * LenInt(cfg.portMax - cfg.portMin))
  {
    var raws := RawDoors(digits, cfg, cfg.numPorts);
    ParseFromShape(raws, oor, cfg, 0, cfg.initHashPos, []);
    ParseFromDoors(raws, oor, cfg, 0, cfg.initHashPos, []);
    ParseFromCursor(raws, oor, cfg, 0, cfg.initHashPos, []);
    MulIsProduct(OutOfRange(raws, cfg, 0), LenInt(cfg.portMax - cfg.portMin));
  }

  /** A door from DoorFrom has single-bit masks, and its port lies in the configured range
      whenever that range fits an unsigned short; a parsed port already in range is kept. */
  lemma DoorFields(d: DoorPort, raw: RawDoor, cfg: Knock)
    requires DoorFrom(d, raw, cfg)
    ensures d.usProto in {1, 2, 4}
    ensures 0 <= cfg.portMin && cfg.portMax < 0x1_0000 ==> cfg.portMin <= d.usPort as int <= cfg.portMax
    ensures cfg.portMin <= raw.port <= cfg.portMax && 0 <= raw.port < 0x1_0000 ==> d.usPort as int == raw.port
  {
    var p :| && cfg.portMin <= p <= cfg.portMax
             && (cfg.portMin <= raw.port <= cfg.portMax ==> p == raw.port)
             && d == MakeDoor(raw, p);
    DoorMasks(raw, p);
  }

  /** A protocol or flags value given in the configuration is not used for the door: the
      raw selector of a configured field stays 0, so the stored mask is 1 (for the protocol,
      the TCP mask) whatever value was configured. */
  lemma ConfiguredFieldsIgnored(digits: seq<char>, oor: seq<char>, cfg: Knock)
    requires ParseRequirements(digits, oor, cfg)
    ensures var r := ParseDoors(digits, oor, cfg);
            && (cfg.proto >= 0 ==> forall j :: 0 <= j < |r.doors| ==> r.doors[j].usProto == 1)
            && (cfg.protoFlags >= 0 ==> forall j :: 0 <= j < |r.doors| ==> r.doors[j].usProtoFlags == 1)
  {
    DecodedDoors(digits, oor, cfg);
    var r := ParseDoors(digits, oor, cfg);
    forall j | 0 <= j < |r.doors|
      ensures cfg.proto >= 0 ==> r.doors[j].usProto == 1
      ensures cfg.protoFlags >= 0 ==> r.doors[j].usProtoFlags == 1
    {
      ConfiguredMasks(r.doors[j], RawDoorAt(digits, cfg, j), cfg);
    }
  }

  lemma ConfiguredMasks(d: DoorPort, raw: RawDoor, cfg: Knock)
    requires DoorFrom(d, raw, cfg)
    requires cfg.proto >= 0 ==> raw.protoRaw == 0
    requires cfg.protoFlags >= 0 ==> raw.flagsRaw == 0
    ensures cfg.proto >= 0 ==> d.usProto == 1
    ensures cfg.protoFlags >= 0 ==> d.usProtoFlags == 1
  {
    var p :| && cfg.portMin <= p <= cfg.portMax
             && (cfg.portMin <= raw.port <= cfg.portMax ==> p == raw.port)
             && d == MakeDoor(raw, p);
  }

  /** With the OOR cursor starting at 0 the first read is the terminator: when the first
      door's port needs correcting, the decoder fails at once and writes no door. */
  lemma ZeroStartFails(digits: seq<char>, oor: seq<char>, cfg: Knock)
    requires ParseRequirements(digits, oor, cfg)
    requires cfg.initHashPos == 0 && cfg.numPorts >= 1
    requires !(cfg.portMin <= RawDoorAt(digits, cfg, 0).port <= cfg.portMax)
    ensures ParseDoors(digits, oor, cfg) == ParseOutcome(ERR_INVALID_HEX, [], 0)
  {
    var raws := RawDoors(digits, cfg, cfg.numPorts);
    ReadsFitNext(oor, raws, cfg, 0, 0);
    TerminatorReadFails(cfg.portMin, cfg.portMax, oor, raws[0].port);
  }

  /** One iteration of the door loop (lines 462-532): cut segment i out of the digit
      string, read its fields, reduce the selectors and check the port. */
  method DecodeDoor(digits: seq<char>, oor: seq<char>, cfg: Knock, i: nat, cursor: int)
    returns (ret: int, newCursor: int, door: DoorPort)
    requires i < cfg.numPorts
    requires IsDigits(digits) && 0 <= cfg.portMin <= cfg.portMax <= INT_MAX && NUL !in oor
    requires ReadsFit(oor, RawDoors(digits, cfg, cfg.numPorts), cfg, i, cursor)
    ensures Step(ret, newCursor, door) == DoorStep(RawDoors(digits, cfg, cfg.numPorts), oor, cfg, i, cursor)
  {
    var lenSingleOTP := SegmentWidth(cfg.proto, cfg.protoFlags);
    MulIsProduct(i, lenSingleOTP);
    CopyDigits(digits, i * lenSingleOTP, lenSingleOTP);
    var singleOTP := CopyField(digits, i * lenSingleOTP, lenSingleOTP);
    var protoRaw, protoFlagsRaw, port := ParseSegmentFields(singleOTP, cfg.proto, cfg.protoFlags);
    var iProto := protoRaw % KNOCK_SUPP_PROTOS;
    var iProtoFlags := protoFlagsRaw % FlagsModulus(iProto);
    ghost var raws := RawDoors(digits, cfg, cfg.numPorts);
    ReadsFitNext(oor, raws, cfg, i, cursor);
    var newPort;
    ret, newCursor, newPort := UpdateInvalidPort(cfg.portMin, cfg.portMax, oor, cursor, port);
    door := DoorPort(ToUShort(newPort), ToUShort(Pow(FLAG_ENC_BASE, iProto)), ToUShort(Pow(FLAG_ENC_BASE, iProtoFlags)));
  }

  /** funcParseDbl2OTP. The doors are written into the caller's array; on a correction
      error it returns at once with only the earlier doors written. */
  method ParseDbl2OTP(digits: seq<char>, oor: seq<char>, cfg: Knock, ports: array<DoorPort>)
    returns (status: int)
    requires ParseRequirements(digits, oor, cfg)
    requires NUL !in oor
    requires ports.Length >= cfg.numPorts
    modifies ports
    ensures var r := ParseDoors(digits, oor, cfg);
            && status == r.status
            && |r.doors| <= ports.Length
            && ports[..] == Overwrite(old(ports[..]), r.doors)
  {
    var oorCursor := cfg.initHashPos;
    var i := 0;
    ghost var acc: seq<DoorPort> := [];
    ghost var raws := RawDoors(digits, cfg, cfg.numPorts);
    while i < cfg.numPorts
      invariant 0 <= i <= cfg.numPorts && |acc| == i
      invariant ReadsFit(oor, raws, cfg, i, oorCursor)
      invariant ParseDoors(digits, oor, cfg) == ParseFrom(raws, oor, cfg, i, oorCursor, acc)
      invariant ports[..] == Overwrite(old(ports[..]), acc)
    {
      var ret, newCursor, door := DecodeDoor(digits, oor, cfg, i, oorCursor);
      ParseFromStep(raws, oor, cfg, i, oorCursor, acc, ret, newCursor, door);
      if ret < 0 {
        return ret;
      }
      OverwriteNext(old(ports[..]), acc, door);
      ports[i] := door;
      acc := acc + [door];
      oorCursor := newCursor;
      i := i + 1;
    }
    assert ParseDoors(digits, oor, cfg) == ParseOutcome(0, acc, oorCursor);
    status := 0;
  }
}
