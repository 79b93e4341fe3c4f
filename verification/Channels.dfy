/** Go's buffered channels as values: what is buffered, and whether closed. */
module Channels {
  datatype Chan<T> = Chan(buffer: seq<T>, closed: bool) {
    /** `select { case c <- x: default: }` goes through; on a closed channel it panics. */
    predicate Accepts(capacity: nat) {
      !closed && |buffer| < capacity
    }

    function Push(x: T): Chan<T> {
      Chan(buffer + [x], closed)
    }

    /** Closing keeps what is buffered; closing twice panics. */
    function Shut(): Chan<T> {
      Chan(buffer, true)
    }

    function Pop(): Chan<T>
      requires buffer != []
    {
      Chan(buffer[1..], closed)
    }
  }
}
