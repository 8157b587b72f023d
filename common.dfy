/** Vocabulary shared by every module: C pointers, the fixed-width integers the
    library stores, and the library's error codes. */
module Common {

  /** A C pointer: 0 is NULL, every other value is an opaque address. Record
      addresses and the addresses of tracked user blocks share this type. */
  type Ptr = nat
  const NULL: Ptr := 0

  /** uint8_t and uint16_t. */
  newtype u8 = x: int | 0 <= x < 0x100
  newtype u16 = x: int | 0 <= x < 0x1_0000

  /** size_t on a 64-bit target: arithmetic on it wraps modulo SIZE_MOD. */
  const SIZE_MOD: int := 0x1_0000_0000_0000_0000
  type usize = x: int | 0 <= x < SIZE_MOD

  datatype Option<T> = None | Some(value: T)

  /** `x++` on a uint8_t: 255 wraps round to 0. */
  function WrapInc8(x: u8): u8
  {
    if x == 255 then 0 else x + 1
  }

  /** Why a call ends the program instead of returning: the two sn_crash
      codes the core raises, and undefined behaviour (a NULL dereference, an
      index past the end of an array, a read of a destroyed record). */
  datatype Fault = SysFail | Catastrophic | UndefinedBehaviour

  /** How a call that may crash ends. */
  datatype Outcome<T> = Returned(value: T) | Crashed(fault: Fault)

  /** The library's last-error codes (sn_error_codes_e). */
  datatype ErrorCode =
    | ErrOk
    | ErrNullPtr
    | ErrNoSize
    | ErrBadSize
    | ErrBadAlloc
    | ErrNoAdderFound
    | ErrBadBlockId
    | WarnDubFree
}
