/** Vocabulary shared by the whole model: results, options, machine bounds and the error codes of the native core. */
module Prelude {

  datatype Option<+T> = None | Some(value: T)

  datatype Result<+T> = Ok(value: T) | Err(code: ErrorCode)

  /** The `code` strings carried by the error structs of the native modules. */
  datatype ErrorCode =
    | AudioFailed
    | AudioTooLarge
    | BadFrame
    | CounterOverflow
    | EncoderFailed
    | InvalidArgument
    | InvalidClockFit
    | InvalidDropAccounting
    | InvalidSession
    | InvalidState
    | InvalidTimeEvidence
    | InvalidTimestamp
    | MetricsOverflow
    | NonMonotonicTime
    | RawFrameUnavailable
    | SegmentInvalid
    | SequenceRegression
    | SourceSequenceGap
    | TimestampRegression
    | WriteFailed

  type Byte = b: int | 0 <= b < 256

  const U16_MAX: int := 0xffff
  const U32_MAX: int := 0xffff_ffff
  const U64_MAX: int := 0xffff_ffff_ffff_ffff

  function Min(a: int, b: int): int { if a <= b then a else b }

  function Max(a: int, b: int): int { if a >= b then a else b }

  function AbsReal(x: real): real { if x >= 0.0 then x else -x }

  /** The least integer at or above x, as `f64::ceil`. */
  function Ceil(x: real): int { -((-x).Floor) }
}
