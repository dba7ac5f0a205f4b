/** Vocabulary shared by every part of the model. */
module Prelude {
  datatype Option<+T> = None | Some(value: T)

  /** How one store write ends, seen from the caller. A write can fail without
      effect, and it can also take effect while its reply is lost, in which case
      the caller sees an error although the store has changed. */
  datatype WriteFault = NoFault | FailedBefore | ReplyLost {
    predicate Applied() { !FailedBefore? }
    predicate Reported() { !NoFault? }
  }

  const TWO63: int := 0x8000_0000_0000_0000
  const TWO64: int := 0x1_0000_0000_0000_0000

  predicate IsInt64(x: int) { -TWO63 <= x < TWO63 }

  /** The int64 that a result is stored as. */
  function Wrap64(x: int): int { (x + TWO63) % TWO64 - TWO63 }
}
