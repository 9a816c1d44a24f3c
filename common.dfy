/** Types shared by the runtime module model and the Python utilities: the failure
    wrappers, TVM's data type triple and the fixed-width integer ranges of C++. */
module Common {

  datatype Option<+T> = None | Some(value: T)

  datatype Result<+T, +E> = Ok(value: T) | Err(error: E)

  /** Type codes of DLPack / TVM data types (kDLInt = 0, kDLUInt = 1, kDLFloat = 2, ...). */
  datatype TypeCode = Int | UInt | Float | OpaqueHandle | BFloat

  /** A TVM data type: element kind, element width in bits and lane count. */
  datatype DataType = DataType(code: TypeCode, bits: nat, lanes: nat)

  const SIZE_T_MODULUS: int := 0x1_0000_0000_0000_0000
  const INT32_MIN: int := -0x8000_0000
  const INT32_MAX: int := 0x7fff_ffff

  /** `size_t` values. */
  type SizeT = x: int | 0 <= x < SIZE_T_MODULUS

  /** `int` values on the targets the runtime is built for. */
  type Int32 = x: int | INT32_MIN <= x <= INT32_MAX

  /** The conversion of a (signed or unbounded) integer to `size_t`: reduction modulo 2^64. */
  function ToSizeT(x: int): (r: SizeT)
    ensures 0 <= x < SIZE_T_MODULUS ==> r == x
    ensures INT32_MIN <= x < 0 ==> r == x + SIZE_T_MODULUS
  {
    x % SIZE_T_MODULUS
  }

  /** Two's-complement wrap-around of a 32-bit `int` result. */
  function WrapInt32(x: int): (r: Int32)
    ensures INT32_MIN <= x <= INT32_MAX ==> r == x
    ensures (r - x) % 0x1_0000_0000 == 0
  {
    (x - INT32_MIN) % 0x1_0000_0000 + INT32_MIN
  }
}
