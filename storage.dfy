/** The browser's local storage as the program sees it when it starts: under a
    key there is nothing (or an empty string), a value that fails to parse, or
    a value that parses. Reading, writing and JSON revival are not modelled. */
module Storage {
  datatype Stored<T> = Missing | Corrupt | Saved(value: T)

  /** The initial state read from storage: the saved value if there is one
      that parses, the fallback otherwise. */
  function Restore<T>(stored: Stored<T>, fallback: T): (r: T)
    ensures stored.Saved? ==> r == stored.value
    ensures !stored.Saved? ==> r == fallback
  {
    match stored
    case Saved(v) => v
    case _ => fallback
  }
}
