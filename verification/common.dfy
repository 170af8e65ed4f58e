/** Small types shared by every component of the model. */
module Common {

  /** A value the program represents with `None` or a value. */
  datatype Option<+T> = None | Some(value: T)

  /** A call that either returns a value or raises. */
  datatype Result<+T, +E> = Ok(value: T) | Raised(error: E)

  predicate Distinct(s: seq<string>)
  {
    forall i, j :: 0 <= i < j < |s| ==> s[i] != s[j]
  }

  /** The elements of a sequence, as a set. */
  function KeysOf(s: seq<string>): set<string>
  {
    set i | 0 <= i < |s| :: s[i]
  }
}
