/** The optional value the TypeScript code writes as `T | undefined`. */
module Wrappers {
  datatype Option<+T> = None | Some(value: T)
}
