/** The optional-value wrapper used for C#'s nullable results (`Question?`, `Player?`, `GameSession?`). */
module Wrappers {
  datatype Option<+T> = None | Some(value: T)
}
