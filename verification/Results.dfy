/** The source raises `ValueError`; the model returns the reason. */
module Results {

  datatype Error =
    | Misaligned | Empty | NotBinary | NonPositiveK
    | MissingMetric | UndeclaredMetric | MissingPrimary | OutsideRange | WrongWeights | NoWeight | PrimaryMismatch
    | BadFraction | BadRatio | BadRows | BadBatch | BadBuckets | BadOrder | RecordTooLong

  datatype Option<+T> = None | Some(value: T)

  datatype Result<+T> = Ok(value: T) | Err(error: Error)
}
