/** The operating system's answers to send on a stream socket. */
module Sockets {

  /** Accept(room) takes the next min(room, length) bytes of the range offered, so
      Accept(0), like an empty range, makes send return 0. The other three are the
      ways send returns -1: EINTR, EAGAIN or EWOULDBLOCK, and every other errno. */
  datatype SendOutcome = Accept(room: nat) | Interrupted | WouldBlock | Broken

  /** The answers a sender gives up on: an error, or nothing taken. */
  predicate Fatal(o: SendOutcome) {
    o == Broken || o == Accept(0)
  }

  /** A finite list of answers. A call that uses them all up has not returned yet. */
  type Script = seq<SendOutcome>
}
