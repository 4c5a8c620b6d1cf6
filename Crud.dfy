/** The full CRUD service (main14.go): the five handlers of resource
    `/bioskop`. Each handler is given twice: as a function from the table
    and the request to the response and the new table (its specification),
    and as a method that runs the handler's steps against the shared
    `Table` and is proved to agree with that function. */
module Crud {
  import opened Records
  import opened Strconv
  import opened Store

  /** The field checks of create and update, in the order they run. */
  datatype Verdict = Accepted | Rejected(reason: Message)

  /** Validation: nama and lokasi must be non-empty (compared literally,
      no trimming), and only then is the rating required to lie in [0, 5]. */
  function Validate(b: Bioskop): (v: Verdict)
    ensures v == Accepted <==> b.nama != "" && b.lokasi != "" && 0.0 <= b.rating <= 5.0
    ensures b.nama == "" || b.lokasi == "" ==> v == Rejected(NameLocationRequired)
    ensures b.nama != "" && b.lokasi != "" && (b.rating < 0.0 || b.rating > 5.0) ==>
              v == Rejected(RatingOutOfRange)
  {
    if b.nama == "" || b.lokasi == "" then Rejected(NameLocationRequired)
    else if b.rating < 0.0 || b.rating > 5.0 then Rejected(RatingOutOfRange)
    else Accepted
  }

  /** The failures a mutating request can meet in the store: the existence
      check fails, another request deletes the row between the check and
      the mutation, the UPDATE or DELETE itself fails. */
  datatype StoreFaults = StoreFaults(checkFails: bool, deletedMeanwhile: bool, mutationFails: bool)

  /** POST /bioskop. */
  function Create(db: Db, body: Body, insertFails: bool): (o: Outcome)
    requires db.Valid()
    ensures o.db.Valid()
    ensures o.response.status in {StatusCreated, StatusBadRequest, StatusInternalServerError}
    ensures o.response.status == StatusBadRequest <==> body.Malformed? || Validate(body.input).Rejected?
    ensures body.Malformed? ==> o.response.message == InvalidJson
    ensures body.Decoded? && Validate(body.input).Rejected? ==>
              o.response.message == Validate(body.input).reason
    ensures o.response.status == StatusInternalServerError <==>
              body.Decoded? && Validate(body.input).Accepted? && insertFails
    ensures o.response.status != StatusCreated ==> o.db == db && o.response.data == NoData
    ensures o.response.total == None
    ensures o.response.status == StatusInternalServerError ==> o.response.message == SaveFailed
    ensures o.response.status == StatusCreated ==> o.response.message == Created
    ensures o.response.status == StatusCreated ==>
              && o.response.data.Record?
              && var r := o.response.data.record;
              && r == body.input.(id := r.id)
              && r.id == db.nextId
              && r.id !in db.rows
              && o.db.rows == db.rows[r.id := r]
              && o.db.nextId == db.nextId + 1
  {
    match body
    case Malformed => Outcome(Failure(StatusBadRequest, InvalidJson), db)
    case Decoded(input) =>
      match Validate(input)
      case Rejected(reason) => Outcome(Failure(StatusBadRequest, reason), db)
      case Accepted =>
        if insertFails then Outcome(Failure(StatusInternalServerError, SaveFailed), db)
        else
          var created := input.(id := db.nextId);
          Outcome(Response(StatusCreated, Created, Record(created), None),
                  Db(db.rows[created.id := created], db.nextId + 1))
  }

  /** GET /bioskop. */
  function List(db: Db, selectFails: bool): (r: Response)
    requires db.Valid()
    ensures r.status == StatusInternalServerError <==> selectFails
    ensures r.status == StatusOK <==> !selectFails
    ensures !selectFails ==> r.data == Rows(OrderedRows(db))
    ensures !selectFails && db.rows == map[] ==> r.data.list == [] && r.total == None
    ensures !selectFails && db.rows != map[] ==> r.total == Some(|db.rows|)
    ensures selectFails ==> r.message == FetchFailed && r.data == NoData && r.total == None
    ensures !selectFails ==> r.message == if db.rows == map[] then NoDataYet else Fetched
  {
    if selectFails then Failure(StatusInternalServerError, FetchFailed)
    else
      var list := OrderedRows(db);
      if |list| == 0 then Response(StatusOK, NoDataYet, Rows([]), None)
      else Response(StatusOK, Fetched, Rows(list), Some(|list|))
  }

  /** GET /bioskop/{id}. */
  function Get(db: Db, idParam: string, fetchFails: bool): (r: Response)
    requires db.Valid()
    ensures r.status in {StatusOK, StatusBadRequest, StatusNotFound, StatusInternalServerError}
    ensures r.status == StatusBadRequest <==> Atoi(idParam).None?
    ensures Atoi(idParam).None? ==> r.message == IdNotNumeric
    ensures r.status == StatusInternalServerError <==> Atoi(idParam).Some? && fetchFails
    ensures r.status == StatusNotFound <==>
              Atoi(idParam).Some? && !fetchFails && Atoi(idParam).value !in db.rows
    ensures r.status == StatusOK ==>
              && r.data.Record?
              && r.data.record.id == Atoi(idParam).value
              && r.data.record.id in db.rows
              && db.rows[r.data.record.id] == r.data.record
    ensures r.status == StatusOK ==> r.message == Fetched && r.total == None
    ensures r.status == StatusNotFound ==> r.message == NotFound
    ensures r.status == StatusInternalServerError ==> r.message == FetchFailed
    ensures r.status != StatusOK ==> r.data == NoData && r.total == None
  {
    match Atoi(idParam)
    case None => Failure(StatusBadRequest, IdNotNumeric)
    case Some(id) =>
      if fetchFails then Failure(StatusInternalServerError, FetchFailed)
      else if id !in db.rows then Failure(StatusNotFound, NotFound)
      else Response(StatusOK, Fetched, Record(db.rows[id]), None)
  }

  /** The request passes the checks that precede any store access on update:
      a numeric id, a body that binds, and valid fields. */
  predicate Admitted(idParam: string, body: Body) {
    Atoi(idParam).Some? && body.Decoded? && Validate(body.input).Accepted?
  }

  /** The table after another request has deleted row `id`, if it did. */
  function AfterInterference(db: Db, id: int, faults: StoreFaults): Db {
    if faults.deletedMeanwhile then db.(rows := db.rows - {id}) else db
  }

  /** PUT /bioskop/{id}. */
  function Update(db: Db, idParam: string, body: Body, faults: StoreFaults): (o: Outcome)
    requires db.Valid()
    ensures o.db.Valid() && o.db.nextId == db.nextId
    ensures o.response.status in {StatusOK, StatusBadRequest, StatusNotFound, StatusInternalServerError}
    ensures o.response.status == StatusBadRequest <==> !Admitted(idParam, body)
    ensures Atoi(idParam).None? ==> o.response.message == IdNotNumeric
    ensures Atoi(idParam).Some? && body.Malformed? ==> o.response.message == InvalidJson
    ensures Atoi(idParam).Some? && body.Decoded? && Validate(body.input).Rejected? ==>
              o.response.message == Validate(body.input).reason
    ensures Admitted(idParam, body) && !faults.checkFails && Atoi(idParam).value !in db.rows ==>
              o == Outcome(Failure(StatusNotFound, NotFound), db)
    ensures o.response.status == StatusInternalServerError <==>
              Admitted(idParam, body) &&
              (faults.checkFails || (Atoi(idParam).value in db.rows && faults.mutationFails))
    ensures o.response.status == StatusOK <==>
              Admitted(idParam, body) && !faults.checkFails && Atoi(idParam).value in db.rows &&
              !faults.deletedMeanwhile && !faults.mutationFails
    ensures o.response.message == NothingUpdated <==>
              Admitted(idParam, body) && !faults.checkFails && Atoi(idParam).value in db.rows &&
              faults.deletedMeanwhile && !faults.mutationFails
    ensures o.response.status == StatusNotFound <==>
              Admitted(idParam, body) && !faults.checkFails &&
              (Atoi(idParam).value !in db.rows || (faults.deletedMeanwhile && !faults.mutationFails))
    ensures Admitted(idParam, body) && faults.checkFails ==> o.response.message == CheckFailed
    ensures Admitted(idParam, body) && !faults.checkFails && Atoi(idParam).value in db.rows &&
            faults.mutationFails
            ==> o.response.message == UpdateFailed
    ensures o.response.status != StatusOK ==> o.response.data == NoData && o.response.total == None
    ensures o.response.status == StatusOK ==> o.response.message == Updated && o.response.total == None
    ensures o.response.status != StatusOK ==>
              if Admitted(idParam, body) && !faults.checkFails && Atoi(idParam).value in db.rows &&
                 faults.deletedMeanwhile
              then o.db.rows == db.rows - {Atoi(idParam).value}
              else o.db == db
    ensures o.response.status == StatusOK ==>
              && var id := Atoi(idParam).value;
              && o.response.data == Record(body.input.(id := id))
              && o.db.rows == db.rows[id := body.input.(id := id)]
  {
    match Atoi(idParam)
    case None => Outcome(Failure(StatusBadRequest, IdNotNumeric), db)
    case Some(id) =>
      match body
      case Malformed => Outcome(Failure(StatusBadRequest, InvalidJson), db)
      case Decoded(input) =>
        match Validate(input)
        case Rejected(reason) => Outcome(Failure(StatusBadRequest, reason), db)
        case Accepted =>
          if faults.checkFails then Outcome(Failure(StatusInternalServerError, CheckFailed), db)
          else if id !in db.rows then Outcome(Failure(StatusNotFound, NotFound), db)
          else
            var now := AfterInterference(db, id, faults);
            if faults.mutationFails then Outcome(Failure(StatusInternalServerError, UpdateFailed), now)
            else if id !in now.rows then Outcome(Failure(StatusNotFound, NothingUpdated), now)
            else
              var updated := input.(id := id);
              Outcome(Response(StatusOK, Updated, Record(updated), None),
                      now.(rows := now.rows[id := updated]))
  }

  /** DELETE /bioskop/{id}. */
  function Delete(db: Db, idParam: string, faults: StoreFaults): (o: Outcome)
    requires db.Valid()
    ensures o.db.Valid() && o.db.nextId == db.nextId
    ensures o.response.status in {StatusOK, StatusBadRequest, StatusNotFound, StatusInternalServerError}
    ensures Atoi(idParam).None? <==> o == Outcome(Failure(StatusBadRequest, IdNotNumeric), db)
    ensures Atoi(idParam).Some? && !faults.checkFails && Atoi(idParam).value !in db.rows ==>
              o == Outcome(Failure(StatusNotFound, NotFound), db)
    ensures o.response.status == StatusInternalServerError <==>
              Atoi(idParam).Some? &&
              (faults.checkFails || (Atoi(idParam).value in db.rows && faults.mutationFails))
    ensures o.response.status == StatusOK <==>
              Atoi(idParam).Some? && !faults.checkFails && Atoi(idParam).value in db.rows &&
              !faults.deletedMeanwhile && !faults.mutationFails
    ensures o.response.message == NothingDeleted <==>
              Atoi(idParam).Some? && !faults.checkFails && Atoi(idParam).value in db.rows &&
              faults.deletedMeanwhile && !faults.mutationFails
    ensures o.response.status == StatusBadRequest <==> Atoi(idParam).None?
    ensures o.response.status == StatusNotFound <==>
              Atoi(idParam).Some? && !faults.checkFails &&
              (Atoi(idParam).value !in db.rows || (faults.deletedMeanwhile && !faults.mutationFails))
    ensures Atoi(idParam).Some? && faults.checkFails ==> o.response.message == CheckFailed
    ensures Atoi(idParam).Some? && !faults.checkFails && Atoi(idParam).value in db.rows &&
            faults.mutationFails
            ==> o.response.message == DeleteFailed
    ensures o.response.status != StatusOK ==> o.response.data == NoData && o.response.total == None
    ensures o.response.status == StatusOK ==> o.response.message == Deleted && o.response.total == None
    ensures o.response.status != StatusOK ==>
              if Atoi(idParam).Some? && !faults.checkFails && Atoi(idParam).value in db.rows &&
                 faults.deletedMeanwhile
              then o.db.rows == db.rows - {Atoi(idParam).value}
              else o.db == db
    ensures o.response.status == StatusOK ==>
              && var id := Atoi(idParam).value;
              && id in db.rows
              && o.response.data == Record(db.rows[id])
              && o.db.rows == db.rows - {id}
  {
    match Atoi(idParam)
    case None => Outcome(Failure(StatusBadRequest, IdNotNumeric), db)
    case Some(id) =>
      if faults.checkFails then Outcome(Failure(StatusInternalServerError, CheckFailed), db)
      else if id !in db.rows then Outcome(Failure(StatusNotFound, NotFound), db)
      else
        var snapshot := db.rows[id];
        var now := AfterInterference(db, id, faults);
        if faults.mutationFails then Outcome(Failure(StatusInternalServerError, DeleteFailed), now)
        else if id !in now.rows then Outcome(Failure(StatusNotFound, NothingDeleted), now)
        else Outcome(Response(StatusOK, Deleted, Record(snapshot), None), now.(rows := now.rows - {id}))
  }

  /** createBioskop: bind, check the fields, insert, answer with the input
      carrying the id the store assigned. */
  method CreateBioskop(db: Table, body: Body, insertFails: bool) returns (resp: Response)
    requires db.Valid()
    modifies db
    ensures db.Valid()
    ensures Outcome(resp, db.State()) == Create(old(db.State()), body, insertFails)
  {
    if body.Malformed? {
      return Failure(StatusBadRequest, InvalidJson);
    }
    var input := body.input;
    if input.nama == "" || input.lokasi == "" {
      return Failure(StatusBadRequest, NameLocationRequired);
    }
    if input.rating < 0.0 || input.rating > 5.0 {
      return Failure(StatusBadRequest, RatingOutOfRange);
    }
    var newId := db.Insert(input.nama, input.lokasi, input.rating, insertFails);
    if newId.None? {
      return Failure(StatusInternalServerError, SaveFailed);
    }
    input := input.(id := newId.value);
    return Response(StatusCreated, Created, Record(input), None);
  }

  /** getAllBioskop: one ordered SELECT; an empty result is not an error. */
  method GetAllBioskop(db: Table, selectFails: bool) returns (resp: Response)
    requires db.Valid()
    ensures resp == List(db.State(), selectFails)
  {
    var list := db.SelectAll(selectFails);
    if list.None? {
      return Failure(StatusInternalServerError, FetchFailed);
    }
    if |list.value| == 0 {
      return Response(StatusOK, NoDataYet, Rows([]), None);
    }
    return Response(StatusOK, Fetched, Rows(list.value), Some(|list.value|));
  }

  /** getBioskopByID: parse the id, fetch the row, map ErrNoRows to 404. */
  method GetBioskopByID(db: Table, idParam: string, fetchFails: bool) returns (resp: Response)
    requires db.Valid()
    ensures resp == Get(db.State(), idParam, fetchFails)
  {
    var parsed := Atoi(idParam);
    if parsed.None? {
      return Failure(StatusBadRequest, IdNotNumeric);
    }
    var fetched := db.Get(parsed.value, fetchFails);
    match fetched
    case FetchError =>
      return Failure(StatusInternalServerError, FetchFailed);
    case NoRows =>
      return Failure(StatusNotFound, NotFound);
    case Row(bioskop) =>
      return Response(StatusOK, Fetched, Record(bioskop), None);
  }

  /** updateBioskop: parse the id, bind and check the body, check that the
      row exists, update it, and trust the affected-row count over the check. */
  method UpdateBioskop(db: Table, idParam: string, body: Body, faults: StoreFaults) returns (resp: Response)
    requires db.Valid()
    modifies db
    ensures db.Valid()
    ensures Outcome(resp, db.State()) == Update(old(db.State()), idParam, body, faults)
  {
    var parsed := Atoi(idParam);
    if parsed.None? {
      return Failure(StatusBadRequest, IdNotNumeric);
    }
    var id := parsed.value;
    if body.Malformed? {
      return Failure(StatusBadRequest, InvalidJson);
    }
    var input := body.input;
    if input.nama == "" || input.lokasi == "" {
      return Failure(StatusBadRequest, NameLocationRequired);
    }
    if input.rating < 0.0 || input.rating > 5.0 {
      return Failure(StatusBadRequest, RatingOutOfRange);
    }
    var found := db.Exists(id, faults.checkFails);
    if found.None? {
      return Failure(StatusInternalServerError, CheckFailed);
    }
    if !found.value {
      return Failure(StatusNotFound, NotFound);
    }
    if faults.deletedMeanwhile {
      // another request's DELETE lands between the check and the UPDATE
      var _ := db.Delete(id, false);
    }
    var affected := db.Update(id, input.nama, input.lokasi, input.rating, faults.mutationFails);
    if affected.None? {
      return Failure(StatusInternalServerError, UpdateFailed);
    }
    if affected.value == 0 {
      return Failure(StatusNotFound, NothingUpdated);
    }
    input := input.(id := id);
    return Response(StatusOK, Updated, Record(input), None);
  }

  /** deleteBioskop: parse the id, fetch the row as a snapshot, delete it,
      trust the affected-row count, and answer with the snapshot. */
  method DeleteBioskop(db: Table, idParam: string, faults: StoreFaults) returns (resp: Response)
    requires db.Valid()
    modifies db
    ensures db.Valid()
    ensures Outcome(resp, db.State()) == Delete(old(db.State()), idParam, faults)
  {
    var parsed := Atoi(idParam);
    if parsed.None? {
      return Failure(StatusBadRequest, IdNotNumeric);
    }
    var id := parsed.value;
    var fetched := db.Get(id, faults.checkFails);
    if fetched.FetchError? {
      return Failure(StatusInternalServerError, CheckFailed);
    }
    if fetched.NoRows? {
      return Failure(StatusNotFound, NotFound);
    }
    var snapshot := fetched.row;
    if faults.deletedMeanwhile {
      // another request's DELETE lands between the check and this DELETE
      var _ := db.Delete(id, false);
    }
    var affected := db.Delete(id, faults.mutationFails);
    if affected.None? {
      return Failure(StatusInternalServerError, DeleteFailed);
    }
    if affected.value == 0 {
      return Failure(StatusNotFound, NothingDeleted);
    }
    return Response(StatusOK, Deleted, Record(snapshot), None);
  }
}
