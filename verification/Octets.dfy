/** Bytes, as disks and files hold them. */
module Octets {
  type Byte = b: nat | b < 256

  // The byte as a number.
  function Num(b: Byte): nat {
    b
  }
}
