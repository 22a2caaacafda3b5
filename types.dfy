/** Values shared by the virtual machine executor and the transaction pool. */
module Types {

  datatype Option<T> = None | Some(value: T)

  /** The outcome of an operation that can fail with an error of type E. */
  datatype Result<T, E> = Ok(value: T) | Err(error: E)

  /** Milliseconds since the epoch, as `Date.now()` gives them. */
  type Timestamp = int

  /** The sender is an address record in the system; here it is kept opaque as a string. */
  datatype TransactionHeader = TransactionHeader(version: int, sender: string, timestamp: Timestamp)

  datatype TransactionBody = TransactionBody(contractAddress: string, payload: string)

  /** An immutable transaction: a header and a body addressed to one contract. */
  datatype Transaction = Transaction(header: TransactionHeader, body: TransactionBody)
}
