/** Types shared by every component of the model. */
module Common {
  datatype Option<+T> = None | Some(value: T)

  /** Clock readings, in seconds. */
  type Time = real

  /** The four ordered risk levels of the risk classifier. */
  datatype Risk = Low | Medium | High | Critical {
    function Rank(): nat {
      match this
      case Low => 0
      case Medium => 1
      case High => 2
      case Critical => 3
    }
  }

  predicate EndsWith<T(==)>(xs: seq<T>, end: seq<T>) {
    |end| <= |xs| && end == xs[|xs| - |end|..]
  }
}
