/** The earlier, create-only service (main.go). Its single handler binds
    the body and requires nama and lokasi, but has no rating check: any
    rating reaches the INSERT. */
module CreateOnly {
  import opened Records
  import opened Store
  import Crud

  /** POST /bioskop in the create-only version. */
  function Create(db: Db, body: Body, insertFails: bool): (o: Outcome)
    requires db.Valid()
    ensures o.db.Valid()
    ensures o.response.status in {StatusCreated, StatusBadRequest, StatusInternalServerError}
    ensures o.response.status == StatusBadRequest <==>
              body.Malformed? || body.input.nama == "" || body.input.lokasi == ""
    ensures body.Malformed? ==> o.response.message == InvalidJson
    ensures body.Decoded? && (body.input.nama == "" || body.input.lokasi == "") ==>
              o.response.message == NameLocationRequired
    ensures o.response.status == StatusInternalServerError <==>
              body.Decoded? && body.input.nama != "" && body.input.lokasi != "" && insertFails
    ensures o.response.status != StatusCreated ==> o.db == db && o.response.data == NoData
    ensures o.response.total == None
    ensures o.response.status == StatusInternalServerError ==> o.response.message == SaveFailed
    ensures o.response.status == StatusCreated ==> o.response.message == Created
    ensures o.response.status == StatusCreated ==>
              && o.response.data.Record?
              && var r := o.response.data.record;
              && r == body.input.(id := r.id)
              && r.id == db.nextId
              && r.id !in db.rows
              && o.db.rows == db.rows[r.id := r]
              && o.db.nextId == db.nextId + 1
  {
    match body
    case Malformed => Outcome(Failure(StatusBadRequest, InvalidJson), db)
    case Decoded(input) =>
      if input.nama == "" || input.lokasi == "" then
        Outcome(Failure(StatusBadRequest, NameLocationRequired), db)
      else if insertFails then Outcome(Failure(StatusInternalServerError, SaveFailed), db)
      else
        var created := input.(id := db.nextId);
        Outcome(Response(StatusCreated, Created, Record(created), None),
                Db(db.rows[created.id := created], db.nextId + 1))
  }

  /** createBioskop of the create-only version. */
  method CreateBioskop(db: Table, body: Body, insertFails: bool) returns (resp: Response)
    requires db.Valid()
    modifies db
    ensures db.Valid()
    ensures Outcome(resp, db.State()) == Create(old(db.State()), body, insertFails)
  {
    if body.Malformed? {
      return Failure(StatusBadRequest, InvalidJson);
    }
    var input := body.input;
    if input.nama == "" || input.lokasi == "" {
      return Failure(StatusBadRequest, NameLocationRequired);
    }
    var newId := db.Insert(input.nama, input.lokasi, input.rating, insertFails);
    if newId.None? {
      return Failure(StatusInternalServerError, SaveFailed);
    }
    input := input.(id := newId.value);
    return Response(StatusCreated, Created, Record(input), None);
  }

  /** On every request whose rating lies in [0, 5], or whose body does not
      bind, the two versions of create answer alike and leave the same table. */
  lemma AgreesWithCrudInRange(db: Db, body: Body, insertFails: bool)
    requires db.Valid()
    requires body.Decoded? ==> 0.0 <= body.input.rating <= 5.0
    ensures Create(db, body, insertFails) == Crud.Create(db, body, insertFails)
  {
  }

  /** With a rating outside [0, 5] and non-empty nama and lokasi, this version
      stores the row while the CRUD version rejects the request. */
  lemma DiffersFromCrudOutOfRange(db: Db, input: Bioskop)
    requires db.Valid()
    requires input.nama != "" && input.lokasi != ""
    requires input.rating < 0.0 || input.rating > 5.0
    ensures Create(db, Decoded(input), false).response.status == StatusCreated
    ensures Create(db, Decoded(input), false).db.rows[db.nextId] == input.(id := db.nextId)
    ensures Crud.Create(db, Decoded(input), false) == Outcome(Failure(StatusBadRequest, RatingOutOfRange), db)
  {
  }
}
