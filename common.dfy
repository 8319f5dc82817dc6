/** Values shared by the backend handlers and the frontend forms. */
module Common {

  /** Record ids. The database generates them; the model treats them as opaque numbers. */
  type Id = nat

  datatype Option<+T> = None | Some(value: T) {
    /** JavaScript's `x || default` for a value that is either absent or present. */
    function GetOr(default: T): T {
      if Some? then value else default
    }
  }

  /** The outcome of `parseInt` or `parseFloat`: NaN, or a number. */
  datatype Parsed<+T> = NaN | Num(value: T)

  /** An HTTP reply: a 2xx status with its JSON body, or an error status with its message. */
  datatype Reply<+T> = Ok(status: nat, value: T) | Fail(status: nat, message: string)

  /** JavaScript truthiness of an optional string field: `undefined` and `""` are falsy. */
  predicate Truthy(v: Option<string>) {
    v.Some? && v.value != []
  }
}
