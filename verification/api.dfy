/** Values and failures shared by every endpoint of the store's backend. */
module Api {

  /** An optional value: `None` stands for an absent request field (`undefined`)
      or for SQL NULL, `Some` for a present one. */
  datatype Option<+T> = None | Some(value: T)

  /** The categorised failures an endpoint raises to its caller. */
  datatype ApiError = InvalidArgument | NotFound | Internal

  /** The outcome of an endpoint: a response, or the failure it raised. */
  datatype Result<+T> = Ok(value: T) | Err(error: ApiError)

  /** JavaScript truthiness of an optional string: absent and "" are falsy. */
  predicate Truthy(s: Option<string>) {
    s.Some? && s.value != ""
  }

  /** JavaScript `s || undefined` (and `s || null`) on an optional string:
      a falsy value becomes absent, a truthy one is kept. */
  function Absent(s: Option<string>): (r: Option<string>)
    ensures r.Some? <==> Truthy(s)
    ensures r.Some? ==> r == s
  {
    if Truthy(s) then s else None
  }

  /** JavaScript `v || d` on an optional number: absent and 0 fall back to `d`. */
  function NumberOr(v: Option<int>, d: int): (r: int)
    ensures v.Some? && v.value != 0 ==> r == v.value
    ensures v.None? || v.value == 0 ==> r == d
  {
    if v.Some? && v.value != 0 then v.value else d
  }

  function Min(a: int, b: int): int {
    if a <= b then a else b
  }
}
