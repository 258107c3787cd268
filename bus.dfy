/**
 * Vocabulary of the Kafka message bus as the core sees it: a record is a
 * routing key plus a body, and reading the bus either fails (a timeout or
 * another client error) or yields a record.
 */
module Bus {
  import opened Models

  /**
   * A record read from a topic. `body` is the decoded JSON value: None when
   * the bytes did not decode into T.
   */
  datatype Record<T> = Record(key: string, body: Option<T>)

  /** The outcome of one ReadMessage call. */
  datatype Read<T> = ReadError | Received(record: Record<T>)
}
