/** Option, the optional value used where the C++ code passes a pointer that may be null. */
module Wrappers {
  datatype Option<+T> = None | Some(value: T)
}

/** The status codes shared by the engine, the plugin host and their collaborators (mp::Result). */
module Codes {
  datatype Result =
    | Success
    | AlreadyInitialized
    | NotInitialized
    | InvalidParameter
    | InvalidState
    | FileNotFound
    | NotSupported
    | Error
}

/** Fixed-width unsigned integers of C++ and their wrap-around arithmetic. */
module Ints {
  const U8: nat := 0x100
  const U16: nat := 0x1_0000
  const U32: nat := 0x1_0000_0000
  const U64: nat := 0x1_0000_0000_0000_0000

  type u8 = x: nat | x < U8
  type u16 = x: nat | x < U16
  type u32 = x: nat | x < U32
  type u64 = x: nat | x < U64

  /** uint64 addition, wrapping modulo 2^64. */
  function Add64(a: u64, b: u64): (r: u64)
    ensures a + b < U64 ==> r == a + b
    ensures a + b >= U64 ==> r == a + b - U64
  {
    (a + b) % U64
  }

  /** uint64 subtraction, wrapping modulo 2^64 when b > a. */
  function Sub64(a: u64, b: u64): (r: u64)
    ensures b <= a ==> r == a - b
    ensures a < b ==> r == a + U64 - b && r > a
  {
    (a - b) % U64
  }

  /** uint64 multiplication, wrapping modulo 2^64. */
  function Mul64(a: u64, b: u64): (r: u64)
    ensures a * b < U64 ==> r == a * b
  {
    (a * b) % U64
  }
}
