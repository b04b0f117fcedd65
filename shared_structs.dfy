/** The door record handed back to the knock client and server. */
module SharedStructs {

  /** C `unsigned short`. */
  newtype uint16 = x: int | 0 <= x < 0x1_0000

  /** Conversion of a C `int` to `unsigned short`: the value modulo 2^16. */
  function ToUShort(n: int): (r: uint16)
    ensures 0 <= n < 0x1_0000 ==> r as int == n
  {
    (n % 0x1_0000) as uint16
  }

  /** `tDoorPort`: a port with its protocol mask and protocol-flags mask. */
  datatype DoorPort = DoorPort(usPort: uint16, usProto: uint16, usProtoFlags: uint16)
}
