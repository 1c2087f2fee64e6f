/**
 * The slice of Go's net/http and net/url the handlers use: status codes,
 * a written response (status and body, with the JSON value left as data),
 * query lookup and http.Error.
 */
module Http {
  import opened Models

  const StatusOK := 200
  const StatusCreated := 201
  const StatusNoContent := 204
  const StatusBadRequest := 400
  const StatusNotFound := 404
  const StatusMethodNotAllowed := 405
  const StatusInternalServerError := 500

  /** What a handler wrote after its status line. */
  datatype Body =
    | NoBody
    | ErrorJson(code: GoString, message: GoString)
    | ProductJson(product: Product)
    | ProductsJson(products: seq<Product>)
    | Text(text: GoString)

  datatype Response = Response(status: int, body: Body)

  /** url.Values: every query key with its values in order. */
  type Query = map<GoString, seq<GoString>>

  /** url.Values.Get: the first value for the key, or "" when there is none. */
  function QueryGet(q: Query, key: GoString): (v: GoString)
    ensures key !in q ==> v == []
    ensures key in q && q[key] != [] ==> v == q[key][0]
  {
    if key in q && q[key] != [] then q[key][0] else []
  }

  /** http.Error: the status and the message as a plain-text line. */
  function Error(message: GoString, status: int): (r: Response)
    ensures r.status == status && r.body == Text(message + "\n")
  {
    Response(status, Text(message + "\n"))
  }
}
