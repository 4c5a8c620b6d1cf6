/** The cinema ("bioskop") record, the decoded request body and the HTTP
    response shape shared by both versions of the service. */
module Records {

  datatype Option<+T> = None | Some(value: T)

  /** One row of table `bioskop`: id, nama (name), lokasi (location), rating.
      The rating is a float32 in the service; only comparisons are made on it,
      so it is a real here. */
  datatype Bioskop = Bioskop(id: int, nama: string, lokasi: string, rating: real)

  /** What JSON binding makes of a request body: a record (fields missing from
      the JSON keep their zero values, an `id` in the body is carried along)
      or a body that does not bind. */
  datatype Body = Decoded(input: Bioskop) | Malformed

  // Status codes used by the handlers (section 15 of RFC 9110).
  const StatusOK := 200
  const StatusCreated := 201
  const StatusBadRequest := 400
  const StatusNotFound := 404
  const StatusInternalServerError := 500

  /** The `message` or `error` text of a response, as a tag. */
  datatype Message =
    | InvalidJson            // body does not bind
    | NameLocationRequired   // nama or lokasi empty
    | RatingOutOfRange       // rating outside [0, 5]
    | IdNotNumeric           // path id rejected by Atoi
    | SaveFailed             // INSERT failed
    | Created                // INSERT succeeded
    | FetchFailed            // SELECT failed
    | NoDataYet              // SELECT returned no rows
    | Fetched                // SELECT succeeded
    | NotFound               // no row with that id
    | CheckFailed            // existence check failed
    | UpdateFailed           // UPDATE failed
    | NothingUpdated         // UPDATE affected no row
    | Updated                // UPDATE succeeded
    | DeleteFailed           // DELETE failed
    | NothingDeleted         // DELETE affected no row
    | Deleted                // DELETE succeeded

  /** The `data` field of a response: absent, one record, or a list. */
  datatype Payload = NoData | Record(record: Bioskop) | Rows(list: seq<Bioskop>)

  /** A response: status, message, data and the optional `total` field. */
  datatype Response = Response(status: int, message: Message, data: Payload, total: Option<nat>)

  /** An error response: it carries no data and no total. */
  function Failure(status: int, message: Message): Response
  {
    Response(status, message, NoData, None)
  }
}
