/**
 * Machine integer helpers shared by the rasterizer (RDP) and coprocessor (RSP) models.
 *
 * The driver is C on a 32-bit big-endian CPU: command and register words are 32 bits,
 * texture-cache fields are 8 and 16 bits wide, and `int` arithmetic wraps in two's
 * complement.  Words are modelled as `bv32`; C values are mathematical integers that are
 * converted explicitly where the C code narrows or reinterprets them.
 */
module Words {

  type u8 = x: int | 0 <= x < 0x100
  type u16 = x: int | 0 <= x < 0x1_0000
  type u32 = x: int | 0 <= x < 0x1_0000_0000

  /** One 32-bit command or register word. */
  type Word = bv32

  datatype Option<T> = None | Some(value: T)

  /** Two's-complement reinterpretation of a C integer as a 32-bit word (a cast to uint32_t). */
  function W(x: int): Word
  {
    Bits(x % 0x1_0000_0000, 32)
  }

  /** The low `k` bits of `n`, least significant last. */
  function Bits(n: nat, k: nat): Word
    requires k <= 32
  {
    if k == 0 then 0 else (Bits(n / 2, k - 1) << 1) | (if n % 2 == 1 then 1 else 0)
  }

  /** Truncation to `uint16_t`. */
  function U16(x: int): (r: u16)
    ensures r == x % 0x1_0000
  {
    x % 0x1_0000
  }

  /** Truncation to `uint8_t`. */
  function U8(x: int): (r: u8)
    ensures r == x % 0x100
  {
    x % 0x100
  }

  /** Truncation to `uint32_t`, as an integer. */
  function U32(x: int): (r: u32)
    ensures r == x % 0x1_0000_0000
  {
    x % 0x1_0000_0000
  }

  /** Truncation to `int16_t` (two's complement). */
  function I16(x: int): (r: int)
    ensures -0x8000 <= r < 0x8000
    ensures (r - x) % 0x1_0000 == 0
  {
    (x + 0x8000) % 0x1_0000 - 0x8000
  }
}
