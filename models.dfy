/** The records the handlers exchange (server/src/api.rs, server/src/models.rs)
    and the document database they read and write (server/src/db.rs), with
    fixed-width integers written out as subset types. */
module Models {

  newtype byte = x: int | 0 <= x < 0x100
  newtype u16 = x: int | 0 <= x < 0x1_0000
  newtype i64 = x: int | -0x8000_0000_0000_0000 <= x < 0x8000_0000_0000_0000
  newtype usize = x: int | 0 <= x < 0x1_0000_0000_0000_0000

  /** An HTTP status code as axum sends it. */
  type StatusCode = int

  const OK: StatusCode := 200
  const BAD_REQUEST: StatusCode := 400
  const UNAUTHORIZED: StatusCode := 401
  const NOT_FOUND: StatusCode := 404
  const INTERNAL_SERVER_ERROR: StatusCode := 500

  /** `ApiResponse<T>`: the JSON body of every handler. */
  datatype ApiResponse<T> = Success(content: T) | Error(errorMsg: string)

  /** The `(StatusCode, Json<ApiResponse<T>>)` pair a handler returns. */
  datatype Response<T> = Response(status: StatusCode, body: ApiResponse<T>)

  /** `generate_error` paired with its status. */
  function Failure<T>(status: StatusCode, msg: string): Response<T> {
    Response(status, Error(msg))
  }

  /** A floating-point price: the model only copies it, so it is kept as the
      64-bit pattern of the `f64`. */
  datatype Price = Price(bits: bv64)

  /** A `NaiveDateTime`, kept as the instant it names. */
  datatype DateTime = DateTime(seconds: int, nanos: nat)

  /** The `_key`, `_rev` and `_id` every stored document carries; the
      database assigns them. */
  datatype DocMeta = DocMeta(key: string, rev: string, id: string)

  datatype Role = CUSTOMER | VENDOR

  datatype User = User(
    meta: DocMeta,
    firstName: string,
    lastName: string,
    email: string,
    password: string,
    role: Role)

  datatype Order = Order(
    meta: DocMeta,
    date: DateTime,
    userId: string,
    itemId: string,
    itemName: string,
    quantity: i64,
    price: Price)

  datatype Item = Item(
    meta: DocMeta,
    name: string,
    userId: string,
    description: string,
    price: Price,
    quantity: i64)

  /** What an `INSERT ... RETURN NEW` query gave back: a database error, an
      empty result, or the new document's metadata. */
  datatype InsertOutcome = InsertError(msg: string) | InsertedNothing | Inserted(meta: DocMeta)

  /** The three collections the core touches. Items are keyed by `_key`;
      users and orders are kept in insertion order. */
  class Database {
    var users: seq<User>
    var items: map<string, Item>
    var orders: seq<Order>

    constructor (users: seq<User>, items: map<string, Item>, orders: seq<Order>)
      ensures this.users == users && this.items == items && this.orders == orders
    {
      this.users := users;
      this.items := items;
      this.orders := orders;
    }
  }
}
