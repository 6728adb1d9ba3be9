/** Shared vocabulary of the forum backend model: optional values, results,
    identifiers and the JavaScript notions of "truthy string" and
    `String.prototype.startsWith`. */
module Common {

  /** A database identifier as it travels in requests and documents. */
  type Id = string

  datatype Option<+T> = None | Some(value: T)

  datatype Result<+T, +E> = Ok(value: T) | Err(error: E)

  /** A request field in JavaScript is "truthy" when it is present and not
      the empty string: `!field` is the negation of this. */
  predicate Present(field: Option<string>) {
    field.Some? && field.value != ""
  }

  /** `field || fallback` on an optional string. */
  function OrElse(field: Option<string>, fallback: string): (r: string)
    ensures Present(field) ==> r == field.value
    ensures !Present(field) ==> r == fallback
  {
    if Present(field) then field.value else fallback
  }

  /** `field || null` on an optional string: the empty string becomes null. */
  function OrNull(field: Option<string>): (r: Option<string>)
    ensures r.Some? <==> Present(field)
    ensures r.Some? ==> r == field
  {
    if Present(field) then field else None
  }

  predicate StartsWith(s: string, prefix: string) {
    |prefix| <= |s| && s[..|prefix|] == prefix
  }

  lemma StartsWithConcat(a: string, b: string, prefix: string)
    requires StartsWith(a, prefix)
    ensures StartsWith(a + b, prefix)
  {
    assert (a + b)[..|prefix|] == a[..|prefix|];
  }
}
