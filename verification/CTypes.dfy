/** The machine types and result types the other modules share. */
module CTypes {
  const INT_MAX: int := 0x7FFF_FFFF
  const INT_MIN: int := -0x8000_0000

  /** A C `int`. Overflow is undefined in C, so every assignment to one is proved to fit. */
  type int32 = x: int | INT_MIN <= x <= INT_MAX

  type byte = x: int | 0 <= x < 0x100
  type uint16 = x: int | 0 <= x < 0x1_0000
  type uint32 = x: int | 0 <= x < 0x1_0000_0000

  datatype Option<+T> = None | Some(value: T) {
    function GetOr(default: T): T {
      match this
      case Some(v) => v
      case None => default
    }
  }

  /** Either the program goes on, or it has printed an error and left. */
  datatype Outcome = Continue | Exit

  /** Ports are 0 .. RANGE_PORT - 1; scan types are 1 .. TOTAL_TYPE - 1. */
  const RANGE_PORT: nat := 65536
  const TOTAL_TYPE: nat := 7

  const SYN: nat := 1
  const NUL: nat := 2
  const FIN: nat := 3
  const XMAS: nat := 4
  const ACK: nat := 5
  const UDP: nat := 6
}
