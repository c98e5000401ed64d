/**
 * Types shared by every part of the firmware model: bytes, C strings,
 * ESP-IDF error codes and FreeRTOS event-group bits.
 */
module Esp {

  /** An octet as the C code sees a `uint8_t`. */
  type Byte = b: int | 0 <= b < 256

  /** The contents of a NUL-terminated C string, without its terminator. */
  type CString = s: seq<Byte> | forall i :: 0 <= i < |s| ==> s[i] != 0

  /** A bit index of a FreeRTOS event group (24 usable bits with 32-bit ticks). */
  type Bit = b: nat | b < 24

  datatype Option<T> = None | Some(value: T)

  /** The application events posted on the default event loop (`AppEventID`). */
  datatype AppEvent = DevNameChanged | PowerDown | PowerOn | PowerLow

  /** The `esp_err_t` values that the modelled code produces or passes on. */
  datatype Err =
    | Ok
    | Fail
    | NoMem
    | InvalidArg
    | InvalidSize
    | NotFound
    | NotSupported
    | Timeout
    | NotFinished
    | WifiNotInit
    | WifiPassword
    | NvsNotFound
    | NvsInvalidLength
    | Other(code: int)   // an error reported by a collaborator outside the model

  /** Numeric value of the generic codes (esp_err.h). */
  function Code(e: Err): int
  {
    match e
    case Ok => 0
    case Fail => -1
    case NoMem => 0x101
    case InvalidArg => 0x102
    case InvalidSize => 0x104
    case NotFound => 0x105
    case NotSupported => 0x106
    case Timeout => 0x107
    case NotFinished => 0x10C
    case WifiNotInit => 0x3001
    case WifiPassword => 0x300B
    case NvsNotFound => 0x1102
    case NvsInvalidLength => 0x110C
    case Other(c) => c
  }

  /** Index of the first NUL of a buffer, as `strlen` computes it. */
  function Strlen(buf: seq<Byte>): (n: nat)
    requires 0 in buf
    ensures n < |buf| && buf[n] == 0
    ensures forall i :: 0 <= i < n ==> buf[i] != 0
  {
    if buf[0] == 0 then 0 else 1 + Strlen(buf[1..])
  }

  /** The bytes of an ASCII string literal. */
  function Ascii(s: string): (r: seq<Byte>)
    ensures |r| == |s|
  {
    seq(|s|, i requires 0 <= i < |s| => (s[i] as int) % 256)
  }
}
