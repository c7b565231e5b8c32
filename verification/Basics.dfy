/** What the standard library would otherwise be asked for. */
module Basics {
  datatype Option<+T> = None | Some(value: T)

  function Listed(keys: seq<string>): set<string> {
    set k | k in keys
  }
}
