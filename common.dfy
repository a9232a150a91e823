/** Shared vocabulary of the backend model: identifiers, optional values and replies. */
module Common {

  /** Store identifiers. The handlers compare ids through their string form
      (`x.toString() === userId.toString()`), so an id is its string. */
  type Id = string

  datatype Option<+T> = None | Some(value: T)

  /** JavaScript truthiness of an optional string: an absent value and "" are falsy. */
  predicate Truthy(o: Option<string>)
  {
    o.Some? && o.value != ""
  }

  /** The message of the TypeError a handler's catch turns into a 400 reply
      when it calls `toString` on a field the record does not have. */
  const TypeErrorMessage: string := "Cannot read properties of undefined (reading 'toString')"

  /** An HTTP reply: status code, message and an optional payload. */
  datatype Reply<+T> = Reply(code: nat, message: string, data: Option<T>)
}
