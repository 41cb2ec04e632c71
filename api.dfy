/** What the two create endpoints share: their replies and the store calls that may throw. */
module Api {

  /** The HTTP reply of a create endpoint: 201 with the created row, 400, or 500. */
  datatype Reply<Row> = Created(id: nat, row: Row) | BadRequest | ServerError

  /** The HTTP status the endpoint answers with. */
  function StatusCode<Row>(reply: Reply<Row>): int {
    match reply
    case Created(_, _) => 201
    case BadRequest => 400
    case ServerError => 500
  }

  /** Which of the endpoint's two store calls throws (connection loss, constraint violation, ...). */
  datatype WriteFaults = WriteFaults(upsertThrows: bool, createThrows: bool)
}
