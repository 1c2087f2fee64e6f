/** Values shared by every layer: the Product record and small wrappers. */
module Models {

  /** One byte of a Go string. Go strings are byte strings and `len` counts bytes. */
  type Byte = c: char | c as int < 256

  /** A Go `string`: its length in the model is Go's `len`. */
  type GoString = seq<Byte>

  /** The only entity: a product row (models.Product and main.Product have this shape). */
  datatype Product = Product(id: int, name: GoString, description: GoString, price: int)

  /** `None` also stands for Go's nil error where a member returns only an error. */
  datatype Option<+T> = None | Some(value: T)

  datatype Result<+T, +E> = Ok(value: T) | Err(error: E)
}
