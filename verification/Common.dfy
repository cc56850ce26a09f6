/** Small value types shared by every module. */
module Common {

  /** A value that may be absent: the source's `T | None`. */
  datatype Option<+T> = None | Some(value: T) {
    function GetOr(default: T): T {
      match this
      case Some(v) => v
      case None => default
    }
  }

  /** A normal return or a raised exception. */
  datatype Result<+T, +E> = Ok(value: T) | Err(error: E)

  /** Microseconds since the epoch, in UTC. */
  type Time = int

  /** The successive readings of the clock during one call. */
  type Clock = nat -> Time

  const MICROSECONDS_PER_DAY: int := 86_400_000_000

  /** The UTC date of a time, as a day number. */
  function DateOf(t: Time): int {
    t / MICROSECONDS_PER_DAY
  }

  function Max(a: int, b: int): int {
    if a < b then b else a
  }

  function Min(a: int, b: int): int {
    if a < b then a else b
  }

  ghost predicate NoDuplicates<T>(s: seq<T>) {
    forall i, j :: 0 <= i < j < |s| ==> s[i] != s[j]
  }
}
