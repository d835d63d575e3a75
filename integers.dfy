/** The fixed-width C integer types the model needs. */
module Integers {

  /** C `int`, the type of face and material indices in both mesh parsers. */
  newtype int32 = x: int | -0x8000_0000 <= x < 0x8000_0000

  /** `uint32_t`, the type of a random number generator's output. */
  newtype uint32 = x: int | 0 <= x < 0x1_0000_0000

  /** `nanoem_u8_t`, a byte. */
  newtype uint8 = x: int | 0 <= x < 0x100
}
