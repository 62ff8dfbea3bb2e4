/** The optional value used for the automaton's start state. */
module Wrappers {

  datatype Option<+T> = None | Some(value: T)
}
