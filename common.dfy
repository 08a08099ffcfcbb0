/** Values shared by every part of the aggregator model: optional values,
    results carrying the error the source throws, and the scalar types of the
    database columns. */
module Common {

  /** A nullable value: a SQL NULL, a JavaScript `undefined`, or a row a select did not find. */
  datatype Option<T> = None | Some(value: T)

  /** The outcome of an operation that may throw. */
  datatype Result<T> = Ok(value: T) | Err(error: Error)

  /** The errors the aggregator raises or lets through. */
  datatype Error =
    | StoreUnavailable              // the database could not be reached
    | UniqueViolation               // a UNIQUE constraint rejected the row
    | ForeignKeyViolation           // the referenced user or feed does not exist
    | NotNullViolation              // a NOT NULL column received no value
    | InvalidTimestamp              // an Invalid Date reached a timestamp column
    | NetworkError                  // the HTTP request or the XML parse failed
    | MissingChannel                // the parsed document has no rss.channel
    | InvalidDuration(input: string)
    | UsageError                    // a command was called without its argument
    | CommandNotFound(name: string)
    | NotCallable(name: string)      // the value looked up under the name is not a function
    | NotLoggedIn
    | UnknownUser(name: string)

  /** Primary keys. The database draws random UUIDs; the model draws fresh numbers. */
  type Id = nat

  /** A point in time, in milliseconds. */
  type Timestamp = int

  function Min(a: int, b: int): int
  {
    if a <= b then a else b
  }
}
