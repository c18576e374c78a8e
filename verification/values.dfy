/** Value types shared by the handlers: the 64-bit identifiers of the store,
    optional columns, store outcomes and HTTP responses. */
module Values {

  const MinI64: int := -0x8000_0000_0000_0000
  const MaxI64: int := 0x7FFF_FFFF_FFFF_FFFF

  /** A primary or foreign key of the store (`i64` in the handlers). */
  type Id = x: int | MinI64 <= x <= MaxI64

  /** A nullable column or an optional field. */
  datatype Option<+T> = None | Some(value: T)

  /** The outcome of one store call: the rows or the driver's diagnostic text. */
  datatype StoreResult<+T> = Fetched(value: T) | StoreError(message: string)

  /** An HTTP response of a handler: `HttpResponse::Ok()` with a body, or
      `HttpResponse::InternalServerError()` with a textual diagnostic. */
  datatype Response<+T> = Ok(body: T) | InternalServerError(message: string)

  /** `Option<String>::unwrap_or_else(|| "".to_string())`. */
  function OrEmpty(s: Option<string>): string
  {
    match s
    case Some(v) => v
    case None => ""
  }

  /** `Option<f64>::unwrap_or_default()`. */
  function OrZero(x: Option<real>): real
  {
    match x
    case Some(v) => v
    case None => 0.0
  }
}
