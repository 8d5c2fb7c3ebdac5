/** `Specification.Version`: the release number of the server as one long,
    major version in the top byte, minor version below it, and the patch date
    (day, month, year) in the low 32 bits. */
module Specification {

  const MAJOR: bv64 := 0x0A00_0000_0000_0000
  const MINOR: bv64 := 0x0000_0000_0000_0000
  const PATCH: bv64 := 0x0000_0000_0505_07DC

  /** `Version.release()`: major, minor and patch together. */
  function Release(): (r: bv64)
    ensures r >> 56 == 0x0A
    ensures r & 0xFFFF_FFFF == PATCH
    ensures r & 0xFFFF_FFFF_0000_0000 == SerialVersionUID()
    ensures r == SerialVersionUID() | PATCH
  {
    MAJOR | MINOR | PATCH
  }

  /** `Version.serialVersionUID()`: the release without its patch date, so that
      patches of one version share a serialization id. */
  function SerialVersionUID(): (r: bv64)
    ensures r >> 56 == 0x0A
    ensures r & 0xFFFF_FFFF == 0
  {
    MAJOR | MINOR
  }

  /** The patch field reads 05|05|2012: day, month, then a 16-bit year. */
  lemma PatchDate()
    ensures PATCH >> 24 == 5
    ensures (PATCH >> 16) & 0xFF == 5
    ensures PATCH & 0xFFFF == 2012
  {
  }
}
