/** The configuration constants and the status codes shared by every component. */
module Config {
  /** Number of priority levels; level 0 is the most urgent. */
  const PRIORITY_COUNT: nat := 8
  /** The idle task alone runs at the last level. */
  const IDLE_PRIORITY: nat := PRIORITY_COUNT - 1
  const MAX_TASKS: nat := 8
  const TIME_SLICE_TICKS: nat := 1

  /** Number of distinct values of the 32-bit tick counter. */
  const TICK_RANGE: nat := 0x1_0000_0000
  const WAIT_FOREVER: nat := 0xFFFF_FFFF
  const NO_WAIT: nat := 0
  const UINT32_MAX: nat := 0xFFFF_FFFF
  const INT32_MAX: nat := 0x7FFF_FFFF

  /** A 32-bit unsigned quantity. */
  type Word32 = x: nat | x < 0x1_0000_0000

  datatype Option<+T> = None | Some(value: T)

  datatype Status =
    | Ok
    | InvalidArgument
    | InvalidState
    | Timeout
    | QueueFull
    | QueueEmpty
    | NoMemory
    | NotOwner
    | FromIsr
    | NotSupported
    | Internal
    | SemaphoreEmpty
    | SemaphoreFull
    | MutexBusy
    | Overflow
}
