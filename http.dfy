/** The JSON responses the Express handlers send: a status code and a body
    that is a value, an `{ error }` object or a `{ message }` object. */
module Http {

  datatype Payload<T> = Value(value: T) | Error(error: string) | Message(message: string)

  datatype Response<T> = Response(status: nat, body: Payload<T>)

  /** `res.json(value)`, which answers with status 200. */
  function Json<T>(value: T): Response<T> {
    Response(200, Value(value))
  }
}
