/**
 * Fixed-width integer types and the coordinate triple shared by all
 * circuit elements (include/types.h).
 */
module Types {

  /** Conventional optional value; `None` also stands for a null link. */
  datatype Option<+T> = None | Some(value: T)

  /** `L = uint8_t`: the metal layer as stored in every element. */
  type U8 = x: int | 0 <= x < 0x100

  /** `X = Y = uint32_t`, and each slot of `NodeCoords`. */
  type U32 = x: int | 0 <= x < 0x1_0000_0000

  /** Largest `unsigned long`: 32 bits on the Windows target the program is built for. */
  const ULONG_MAX: nat := 0xFFFF_FFFF

  /** `NodeCoords = std::array<uint32_t, 3>`: slot 0 is the layer, slots 1 and 2 are x and y. */
  datatype NodeCoords = NodeCoords(layer: U32, x: U32, y: U32)

  /** The `(uint8_t)` cast applied to a layer slot. */
  function Truncate8(v: U32): (r: U8)
    ensures v < 0x100 ==> r == v
    ensures (r - v) % 0x100 == 0
  {
    v % 0x100
  }
}
