/** What a client sees across several requests to the CRUD service
    (main14.go) when the store does not fail: a created record can be
    fetched by its id, an update is what later reads return, and a deleted
    record is gone. */
module Lifecycle {
  import opened Records
  import opened Strconv
  import opened Store
  import opened Crud

  const NoFaults := StoreFaults(false, false, false)

  /** POST then GET /bioskop/{id}, with the id rendered from the response:
      the fetched record is the created one, which is the input with the
      assigned id. */
  lemma CreateThenGet(db: Db, input: Bioskop)
    requires db.Valid() && db.nextId <= MaxInt
    requires Validate(input).Accepted?
    ensures var o := Create(db, Decoded(input), false);
            && o.response.status == StatusCreated
            && var r := o.response.data.record;
            && r == input.(id := r.id)
            && Get(o.db, FormatInt(r.id), false) == Response(StatusOK, Fetched, Record(r), None)
  {
    AtoiFormatInt(db.nextId);
  }

  /** POST then GET /bioskop: the list grows by one row and holds the new record. */
  lemma CreateThenList(db: Db, input: Bioskop)
    requires db.Valid()
    requires Validate(input).Accepted?
    ensures var o := Create(db, Decoded(input), false);
            && List(o.db, false).total == Some(|db.rows| + 1)
            && o.response.data.record in List(o.db, false).data.list
  {
    var o := Create(db, Decoded(input), false);
    assert o.db.rows.Keys == db.rows.Keys + {db.nextId};
  }

  /** PUT then GET /bioskop/{id}: the row holds the body's three fields under
      the path id, whatever id the body carried. */
  lemma UpdateThenGet(db: Db, idParam: string, body: Body)
    requires db.Valid()
    requires Update(db, idParam, body, NoFaults).response.status == StatusOK
    ensures Atoi(idParam).Some? && body.Decoded?
    ensures Get(Update(db, idParam, body, NoFaults).db, idParam, false) ==
              Response(StatusOK, Fetched, Record(body.input.(id := Atoi(idParam).value)), None)
  {
  }

  /** DELETE then GET or DELETE again on the same path: both answer 404,
      and the second DELETE changes nothing. */
  lemma DeleteThenGone(db: Db, idParam: string, again: StoreFaults)
    requires db.Valid()
    requires Delete(db, idParam, NoFaults).response.status == StatusOK
    requires !again.checkFails
    ensures var after := Delete(db, idParam, NoFaults).db;
            && Get(after, idParam, false) == Failure(StatusNotFound, NotFound)
            && Delete(after, idParam, again) == Outcome(Failure(StatusNotFound, NotFound), after)
  {
  }

  /** DELETE then POST: the serial never hands the deleted id out again,
      so the deleted row stays gone after later creates. */
  lemma DeletedIdNotReused(db: Db, idParam: string, input: Bioskop)
    requires db.Valid()
    requires Delete(db, idParam, NoFaults).response.status == StatusOK
    requires Validate(input).Accepted?
    ensures var o := Create(Delete(db, idParam, NoFaults).db, Decoded(input), false);
            && o.response.data.record.id != Atoi(idParam).value
            && Atoi(idParam).value !in o.db.rows
  {
  }

  /** DELETE answers with the row as it was before the delete. */
  lemma DeleteEchoesSnapshot(db: Db, idParam: string)
    requires db.Valid()
    requires Get(db, idParam, false).status == StatusOK
    ensures Delete(db, idParam, NoFaults).response ==
              Response(StatusOK, Deleted, Get(db, idParam, false).data, None)
  {
  }

  /** A path id that is not a decimal int is refused with 400 by get,
      update and delete, before the store is asked and whatever the store
      would do. */
  predicate RefusedEverywhere(db: Db, idParam: string, body: Body, f: bool, faults: StoreFaults)
    requires db.Valid()
  {
    && Get(db, idParam, f) == Failure(StatusBadRequest, IdNotNumeric)
    && Update(db, idParam, body, faults) == Outcome(Failure(StatusBadRequest, IdNotNumeric), db)
    && Delete(db, idParam, faults) == Outcome(Failure(StatusBadRequest, IdNotNumeric), db)
  }

  /** Letters, a digit string with a letter after it, a lone sign, and a
      lone letter: each is refused by every handler that takes an id. */
  lemma NonNumericIds(db: Db, body: Body, f: bool, faults: StoreFaults)
    requires db.Valid()
    ensures RefusedEverywhere(db, "abc", body, f, faults)
    ensures RefusedEverywhere(db, "12a", body, f, faults)
    ensures RefusedEverywhere(db, "-", body, f, faults)
    ensures RefusedEverywhere(db, "x", body, f, faults)
  {
  }

  /** A numeric id that names no row gives 404 on read, and on update and
      delete as long as the existence check does not fail, and changes
      nothing; an update needs a body that passes the field checks to get
      that far. */
  lemma AbsentId(db: Db, idParam: string, input: Bioskop, f: StoreFaults)
    requires db.Valid()
    requires Atoi(idParam).Some? && Atoi(idParam).value !in db.rows
    requires Validate(input).Accepted? && !f.checkFails
    ensures Get(db, idParam, false) == Failure(StatusNotFound, NotFound)
    ensures Update(db, idParam, Decoded(input), f) == Outcome(Failure(StatusNotFound, NotFound), db)
    ensures Delete(db, idParam, f) == Outcome(Failure(StatusNotFound, NotFound), db)
  {
  }

  /** Ids are never below 1, so "-5" names no row of any valid table. */
  lemma NegativeIdAbsent(db: Db)
    requires db.Valid()
    ensures Atoi("-5") == Some(-5) && -5 !in db.rows
  {
  }
}
