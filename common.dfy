/** Values shared by every page: optional values, failures, and the
    empty-string/null conventions the forms use. */
module Common {

  /** A nullable column or an absent lookup result. */
  datatype Option<+T> = None | Some(value: T)

  /** An operation that either produces a value or fails with a message. */
  datatype Result<+T> = Success(value: T) | Failure(error: string)

  /** `s || null`: an empty form field is stored as null, any other text as is. */
  function NullIfEmpty(s: string): (r: Option<string>)
    ensures r.None? <==> s == ""
    ensures EmptyIfNull(r) == s
  {
    if s == "" then None else Some(s)
  }

  /** `value || ''`: a null column is shown in a form as the empty string. */
  function EmptyIfNull(o: Option<string>): string
  {
    match o
    case None => ""
    case Some(s) => s
  }

  /** Reading a column into a form field and storing the field again gives
      the column back, except that a stored empty string comes back as null. */
  lemma NullRoundTrip(o: Option<string>)
    ensures NullIfEmpty(EmptyIfNull(o)) == (if o == Some("") then None else o)
  {
  }

  /** `Math.round(x)`: the nearest integer, halves rounded up. */
  function Round(x: real): (r: int)
    ensures r as real - 0.5 <= x < r as real + 0.5
  {
    (x + 0.5).Floor
  }

  function Min(a: int, b: int): int
  {
    if a <= b then a else b
  }

  function Max(a: int, b: int): int
  {
    if a >= b then a else b
  }
}
