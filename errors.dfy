/** Failures raised by the card engine and the call estimator, as values. */
module Errors {

  /** The exceptions the source raises. */
  datatype Error =
    | InvalidFace(face: string)      // make_card: face name not among the 13 face names
    | InvalidSuit(suit: string)      // make_card: suit name not among the 4 suit names
    | IllegalOperation               // think_to_play called for a human player
    | NotImplemented                 // wait_until_human_plays: no human input source
    | EmptySequence                  // Python's min()/max() of an empty sequence (ValueError)
    | ZeroDivision                   // division or modulo by zero (no trials, no players)
    | IndexOutOfRange                // indexing an empty list (no players to start a round)

  datatype Result<T> = Ok(value: T) | Err(error: Error)

  datatype Option<T> = None | Some(value: T)
}
