/** Small value types shared by every module of the capacity tracker model. */
module Common {

  /** Python's optional value: an absent attribute, key or argument is None. */
  datatype Option<T> = None | Some(value: T) {
    /** The value, or `default` when absent (Python's `dict.get(key, default)`). */
    function GetOr(default: T): T {
      if Some? then value else default
    }
  }

  /** A validation outcome: the accepted value or the reason it was rejected. */
  datatype Result<T, E> = Ok(value: T) | Err(error: E)

  /** What a store call hands back to its caller: a value, Python's None
      (the area was not found), or an exception raised with a short reason. */
  datatype Reply<T> = Done(value: T) | NotFound | Raised(reason: string)

  /** An ISO timestamp; the clock is outside the model, so every timestamp is
      supplied by the caller and never inspected. */
  type Timestamp = string

  /** `str.lower()` on one character, restricted to ASCII letters. */
  function LowerChar(c: char): (r: char)
    ensures 'A' <= c <= 'Z' ==> 'a' <= r <= 'z' && r as int - c as int == 32
    ensures !('A' <= c <= 'Z') ==> r == c
  {
    if 'A' <= c <= 'Z' then (c as int + 32) as char else c
  }

  /** `str.lower()`: lower-cases every character and keeps the length. */
  function Lower(s: string): (r: string)
    ensures |r| == |s|
    ensures forall i :: 0 <= i < |s| ==> r[i] == LowerChar(s[i])
  {
    if s == [] then [] else [LowerChar(s[0])] + Lower(s[1..])
  }
}
