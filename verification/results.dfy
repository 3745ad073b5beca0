/** Carriers shared by both canisters: bytes, Rust's `Option` and `Result`,
    how a canister call ends, and what an inter-canister caller gets back. */
module Results {

  /** Rust's `u8`. */
  type byte = b: int | 0 <= b < 256

  datatype Option<+T> = None | Some(value: T)

  datatype Result<+T, +E> = Ok(value: T) | Err(error: E)

  /** How a call on a canister ends: the handler returned a value, a guard
      function refused the call before the handler ran, or the handler
      panicked (the runtime traps and discards the call's state changes). */
  datatype Reply<+T> = Replied(value: T) | Rejected(reason: string) | Trapped

  /** What `ic::call(...).await` yields to the calling canister: the callee's
      reply, or an error when no reply came back (the callee rejected or
      trapped, or the message could not be delivered). */
  datatype CallOutcome<+T> = Delivered(value: T) | TransportFailed

  /** The caller's view of a callee's reply. */
  function Deliver<T>(r: Reply<T>): (o: CallOutcome<T>)
    ensures o.Delivered? <==> r.Replied?
    ensures o.Delivered? ==> o.value == r.value
  {
    match r
    case Replied(v) => Delivered(v)
    case _ => TransportFailed
  }
}
