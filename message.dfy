/**
 * Network addresses as opaque values. A valid address is one that
 * `message_isAddr` accepts; a NULL pointer and an invalid address are the
 * same value here, and `message_eqAddr` is equality.
 */
module Message {
  datatype Addr = NoAddr | Addr(id: nat)

  predicate IsAddr(a: Addr) { a.Addr? }

  /** The messages the server sends to a client, by kind, before they are turned into text. */
  datatype Notice =
    | Ok(letter: char)
    | GridSize(nrows: int, ncols: int)
    | Gold(collected: int, purse: int, remaining: int)
    | Display(board: string)
    | Quit(explanation: string)
    | Error(explanation: string)

  /** One `message_send`: a notice and the address it goes to. */
  datatype Mail = Mail(to: Addr, notice: Notice)
}
