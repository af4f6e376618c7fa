// The optional value the lexer's iterator and the tree dump use.
module Wrappers {
  datatype Option<+T> = None | Some(value: T)
}
