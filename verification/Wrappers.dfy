module Wrappers {
  datatype Option<+T> = None | Some(value: T)

  function Flatten<T>(s: seq<seq<T>>): seq<T> {
    if s == [] then [] else Flatten(s[..|s| - 1]) + s[|s| - 1]
  }
}
