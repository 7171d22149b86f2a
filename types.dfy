/** Fixed-width machine integers and the error-carrying wrappers used throughout the model. */
module Types {

  /** An unsigned 8-bit value (`uint8_t`): registers, memory cells, timers, the stack pointer. */
  newtype byte = x: int | 0 <= x < 0x100

  /** An unsigned 16-bit value (`uint16_t`): the program counter, the index register, the opcode. */
  newtype word = x: int | 0 <= x < 0x1_0000

  /** A 4-bit opcode field: a register number or a sprite height. */
  newtype nibble = x: int | 0 <= x < 0x10

  /** The 12-bit address field `nnn` of an opcode. */
  newtype addr = x: int | 0 <= x < 0x1000

  /** A framebuffer cell (`uint32_t`). */
  type cell = bv32

  datatype Option<T> = None | Some(value: T)

  datatype Result<T, E> = Ok(value: T) | Err(error: E)

  /** Truncation of an integer to `uint8_t`, as C++ does on assignment. */
  function Wrap8(n: int): (b: byte)
    ensures b as int == n % 0x100
  {
    (n % 0x100) as byte
  }

  /** Truncation of an integer to `uint16_t`, as C++ does on assignment. */
  function Wrap16(n: int): (w: word)
    ensures w as int == n % 0x1_0000
  {
    (n % 0x1_0000) as word
  }
}
