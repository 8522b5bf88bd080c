/** The usual optional-value datatype, used by the parsers that invert the renderings. */
module Wrappers {
  datatype Option<+T> = None | Some(value: T)
}
