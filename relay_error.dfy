/** The relay's error type (relay-server/src/error.rs). */
module RelayError {

  /** What the bounded bincode codec reports. */
  datatype BincodeFailure = SizeLimit | Malformed

  /** The rusqlite errors the core tells apart. */
  datatype SqlFailure = ConstraintViolation | QueryReturnedNoRows | EngineFailure

  /** A QUIC stream could not be opened on the connection. */
  datatype QuicFailure = StreamOpenFailed

  datatype Error =
    | QuicError(quic: QuicFailure)
    | SqliteError(sql: SqlFailure)
    | UserAlreadyExists
    | BincodeError(bincode: BincodeFailure)
    | InsufficientLenBytes
    | PrematureClosure
}
