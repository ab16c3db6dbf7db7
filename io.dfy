/** Shared vocabulary for both socket components: the fixed-width integer
    types of the C interfaces, and the `io::Result` / `io::Error` shapes the
    wrappers return. */
module Io {

  /** `u8` / `c_char` bit pattern of one path byte. */
  type byte = x: int | 0 <= x < 0x100
  /** `c_ushort` */
  type u16 = x: int | 0 <= x < 0x1_0000
  /** `socklen_t`, `c_ulong` and `DWORD` on Windows, `u32` */
  type u32 = x: int | 0 <= x < 0x1_0000_0000
  /** `c_int`, `i32` */
  type i32 = x: int | -0x8000_0000 <= x < 0x8000_0000
  /** `c_char` on Windows (signed) */
  type i8 = x: int | -0x80 <= x < 0x80
  /** `u64` */
  type u64 = x: int | 0 <= x < 0x1_0000_0000_0000_0000

  const I32_MAX: i32 := 0x7FFF_FFFF
  const U16_MODULUS: int := 0x1_0000
  const U32_MODULUS: int := 0x1_0000_0000

  /** The kinds of `io::ErrorKind` this core distinguishes. */
  datatype ErrorKind = InvalidInput | WouldBlock | Other

  /** `io::Error`: either one built by the library from a kind and a message,
      or one reported by the operating system (`last_os_error`), which carries
      the platform error code and the kind the standard library maps it to. */
  datatype IoError =
    | Custom(kind: ErrorKind, message: string)
    | Os(code: int, kind: ErrorKind)

  /** `io::Result<T>` */
  datatype Result<T> = Ok(value: T) | Err(error: IoError)

  /** `Option<T>` */
  datatype Option<T> = None | Some(value: T)
}
