/** Optional values: a JSON field that may be absent, a lookup that may find nothing,
    and the request replies of the HTTP handlers. */
module Wrappers {

  datatype Option<+T> = None | Some(value: T)

  /** A handler's reply: the JSON body on success, or an HTTP status with its error text. */
  datatype Reply<+T> = Ok(value: T) | Fail(status: nat, error: string)

  /** JavaScript truthiness of an optional string field of a JSON body:
      an absent field and the empty string are both falsy. */
  predicate Truthy(field: Option<string>) {
    field.Some? && field.value != ""
  }

  /** `a || b` on optional strings: the first operand when truthy, otherwise the second. */
  function OrElse(field: Option<string>, fallback: string): (r: string)
    ensures Truthy(field) ==> r == field.value
    ensures !Truthy(field) ==> r == fallback
  {
    if Truthy(field) then field.value else fallback
  }
}
