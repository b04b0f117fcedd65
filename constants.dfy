/** Constants of the door-derivation scheme (src/otp.c and the knock headers). */
module OtpConstants {

  /** In-band error codes returned by the decoding functions. */
  const ERR_OVERFLOW: int := -1
  const ERR_INVALID_HEX: int := -2

  /** The largest value of a 32-bit C `int`. */
  const INT_MAX: int := 0x7fff_ffff

  /** Number of decimal digits each field of a door takes in the OTP digit string. */
  const LEN_PROTO: nat := 1
  const LEN_PROTO_FLAGS: nat := 1
  const LEN_SINGLE_OTP: nat := 7
  const LEN_PORT: nat := 5

  /** SHA-512 digest length in bytes, and the size of its hex buffer (two characters
      per byte plus the terminator). */
  const DIGEST_LEN: nat := 64
  const DIGEST_HEX_LEN: nat := 2 * DIGEST_LEN + 1

  /** Supported protocols: TCP (0), UDP (1) and ICMP (2), selected by a digit modulo
      their count. */
  const KNOCK_SUPP_PROTOS: nat := 3
  const KNOCK_PROTO_TCP: nat := 0
  const KNOCK_PROTO_ICMP: nat := 2

  /** Number of flag values each protocol supports; UDP has none. */
  const FLAG_SUPP_TCP: nat := 6
  const FLAG_SUPP_ICMP: nat := 7

  /** Protocols and flags are reported as powers of this base (bit masks). */
  const FLAG_ENC_BASE: nat := 2
}
