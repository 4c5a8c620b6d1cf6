# Bioskop service: handler model

This project models the request handling of the `bioskop` (cinema) resource of a
small Go web service built on gin and a PostgreSQL table `bioskop(id, nama, lokasi,
rating)`. Two versions of the program exist side by side:

- `main14.go`, the full CRUD service: `POST /bioskop`, `GET /bioskop`,
  `GET /bioskop/{id}`, `PUT /bioskop/{id}` and `DELETE /bioskop/{id}`;
- `main.go`, an earlier version with only `POST /bioskop`, which checks nama and
  lokasi but not the rating.

Each handler is a short early-return procedure: parse the path id with
`strconv.Atoi`, bind the JSON body, check the fields, run one or two SQL statements,
and turn the outcome into a status code (200, 201, 400, 404 or 500, with the
meanings of section 15 of RFC 9110) and a payload.

Files and modules:

- `Records.dfy` (`Records`): the `Bioskop` record, the bound body (`Decoded` or
  `Malformed`), message tags, payloads and responses.
- `Strconv.dfy` (`Strconv`): `Atoi` as Go implements it for a 64-bit `int` (optional
  sign, at least one decimal digit, value in [-2^63, 2^63-1]), with `FormatInt`
  (Go's `strconv.Itoa`) as its partner and the round trip between them.
- `Store.dfy` (`Store`): the table as a value `Db` (rows by id and the next serial
  id, with the invariant that every row sits under its own id and every id came from
  the serial), the `ORDER BY id` listing, and the class `Table` whose methods are the
  SQL statements the handlers run: INSERT ... RETURNING id, SELECT all, SELECT one,
  SELECT EXISTS, UPDATE and DELETE with their affected-row counts.
- `Crud.dfy` (`Crud`): `main14.go`. `Validate` is the field check. `Create`, `List`,
  `Get`, `Update` and `Delete` are the five handlers as functions from the table and
  the request to the response and the new table, with the handler's promises in their
  contracts. `CreateBioskop`, `GetAllBioskop`, `GetBioskopByID`, `UpdateBioskop` and
  `DeleteBioskop` are the handlers as methods that run the same steps against a shared
  `Table`, and each is proved to agree with its function.
- `CreateOnly.dfy` (`CreateOnly`): `main.go`, its create handler as a function and a
  method, and how it differs from the CRUD version's.
- `Lifecycle.dfy` (`Lifecycle`): properties that span several requests.

Store failures are inputs: a flag per statement (`insertFails`, `selectFails`,
`fetchFails`) or, for update and delete, `StoreFaults`. That says whether the
existence check fails, whether the UPDATE or DELETE fails, and whether another
request deletes the row between the check and the mutation. That last interleaving is
the one the handlers guard against with their "zero rows affected gives 404" branch;
in the model it arises because the store really lost the row, not because the count
is made up.

The field checks compare nama and lokasi with the empty string literally
(main14.go:70, main.go:54), so a nama of one space is accepted. `main.go` has no rating
check (main.go:53-67): it stores any rating, where `main14.go` refuses one outside
[0, 5] (`CreateOnly.DiffersFromCrudOutOfRange`).

## Model

| member | source | states |
|---|---|---|
| `Strconv.Atoi` | main14.go:137-144 | an id parses exactly when it is an optional sign followed by one or more decimal digits whose signed value lies in [-2^63, 2^63-1], and then its value is that signed value; in particular every well-formed id of fewer than 19 characters parses |
| `Strconv.AtoiFormatInt` | main14.go:138 | every 64-bit int, rendered in decimal, parses back to itself, so a client can address a row by the id it was given |
| `Strconv.AtoiLeadingZero` | main14.go:138 | a leading zero before a non-empty digit string does not change what `Atoi` returns, so "007" and "7" name the same row |
| `Strconv.AtoiPlusSign` | main14.go:138 | a leading `+` before a digit string does not change what `Atoi` returns, so "+7" and "7" name the same row |
| `Store.OrderedRows` | main14.go:108-109 | the listing holds every row exactly once, each under its own id, in strictly ascending id order |
| `Store.Table.Insert` | main14.go:85-94 | the INSERT adds exactly one row under a fresh id taken from the serial and changes no other row; a failed INSERT changes nothing |
| `Store.Table.SelectAll` | main14.go:108-109 | the SELECT of all rows yields the ordered listing of the table, or an error |
| `Store.Table.Get` | main14.go:149-150 | the single-row SELECT yields the row with that id, `ErrNoRows` when there is none, or an error |
| `Store.Table.Exists` | main14.go:211-212 | the existence query yields whether a row with that id exists, or an error |
| `Store.Table.Update` | main14.go:229-230 | the UPDATE overwrites nama, lokasi and rating of the one row with that id and reports 1 affected row, or reports 0 and changes nothing when the row is missing |
| `Store.Table.Delete` | main14.go:285-286 | the DELETE removes the row with that id and reports how many rows it removed; no other row changes |
| `Crud.Validate` | main14.go:70-82 | a record is accepted exactly when nama and lokasi are non-empty and 0 <= rating <= 5; an empty nama or lokasi is reported before the rating, whatever the rating |
| `Crud.Create` | main14.go:57-101 | 400 exactly when the body does not bind or a field check fails, with the first failing check's message; 500 `SaveFailed` exactly when a valid insert fails; any answer but 201 carries no data and leaves the table unchanged; no answer carries a total; 201 `Created` returns the input with only its id replaced by the serial's next value, which no row holds yet, adds that one row and advances the serial |
| `Crud.List` | main14.go:104-132 | 500 `FetchFailed` with no data and no total exactly when the SELECT fails; otherwise 200 with the ordered rows: `NoDataYet` and no total for an empty table, `Fetched` and a total equal to the number of rows otherwise |
| `Crud.Get` | main14.go:135-169 | 400 `IdNotNumeric` exactly for a non-numeric id, 500 `FetchFailed` exactly for a failed fetch, 404 `NotFound` exactly when no row has the id, each with no data and no total; 200 `Fetched` returns the stored row with that id and no total |
| `Crud.Update` | main14.go:172-252 | 400 exactly when the id, the body or a field check fails, checked in that order, with that check's message; 404 `NotFound` with the table unchanged for an absent id; 500 exactly when the check (`CheckFailed`) or the UPDATE (`UpdateFailed`) fails; 404 exactly for an absent id or a row that vanished after the check (`NothingUpdated`); error answers carry no data and no total; 200 `Updated` returns the body under the path id and overwrites that one row only; on any other answer the table is unchanged, except that the concurrent delete behind "nothing updated" or a failed UPDATE has removed that row |
| `Crud.Delete` | main14.go:255-307 | 400 `IdNotNumeric` exactly for a non-numeric id; 404 `NotFound` with the table unchanged for an absent id; 500 exactly when the fetch (`CheckFailed`) or the DELETE (`DeleteFailed`) fails; 404 exactly for an absent id or a row that vanished after the fetch (`NothingDeleted`); error answers carry no data and no total; 200 `Deleted` returns the row as it was and removes only that row; on any other answer the table is unchanged, except that the concurrent delete behind "nothing deleted" or a failed DELETE has removed that row |
| `Crud.CreateBioskop` | main14.go:57-101 | the handler's steps on the shared table give the response and the new table that `Crud.Create` specifies, and keep the table invariant |
| `Crud.GetAllBioskop` | main14.go:104-132 | the handler's steps give the response `Crud.List` specifies; it has no modifies clause, so it never changes the table |
| `Crud.GetBioskopByID` | main14.go:135-169 | the handler's steps give the response `Crud.Get` specifies; it changes nothing, so repeated calls with no write in between answer alike |
| `Crud.UpdateBioskop` | main14.go:172-252 | the handler's steps, including the existence check and the affected-row test, give the response and table `Crud.Update` specifies |
| `Crud.DeleteBioskop` | main14.go:255-307 | the handler's steps, including the snapshot fetch and the affected-row test, give the response and table `Crud.Delete` specifies |
| `CreateOnly.Create` | main.go:44-78 | 400 exactly when the body does not bind or nama or lokasi is empty; 500 `SaveFailed` exactly when the insert fails; any answer but 201 carries no data and leaves the table unchanged; no answer carries a total; 201 `Created` returns the input under the serial's next value, which no row holds yet, adds that one row and advances the serial, whatever the rating |
| `CreateOnly.CreateBioskop` | main.go:44-78 | the handler's steps on the shared table give the response and table `CreateOnly.Create` specifies |
| `CreateOnly.AgreesWithCrudInRange` | main.go:53-57 | when the rating lies in [0, 5] (or the body does not bind) the two versions of create give the same status, message tag, payload and table |
| `CreateOnly.DiffersFromCrudOutOfRange` | main.go:53-67 | with non-empty nama and lokasi and a rating outside [0, 5], this version stores the row (201) where the CRUD version answers 400 and stores nothing |
| `Lifecycle.CreateThenGet` | main14.go:96-100 | a valid create answers 201, and a GET of the decimal id it returned yields exactly the created record |
| `Lifecycle.CreateThenList` | main14.go:96-100 | after a create, the listing's total is one more than before and the list holds the created record |
| `Lifecycle.UpdateThenGet` | main14.go:247-251 | after a successful update, a GET of the same path yields the body's fields under the path id |
| `Lifecycle.DeleteThenGone` | main14.go:303-306 | after a successful delete, a GET and a second DELETE of the same path both answer 404, and the second DELETE changes nothing |
| `Lifecycle.DeletedIdNotReused` | main14.go:85-96 | after a successful delete, a later create gets a different id from the serial, so the deleted row stays gone |
| `Lifecycle.DeleteEchoesSnapshot` | main14.go:268-306 | a successful delete answers with exactly the record a GET returned just before |
| `Lifecycle.NonNumericIds` | main14.go:137-144 | each of "abc", "12a", "-" and "x" is refused with 400 by each of get, update and delete, whatever the body and the store, and the table is unchanged |
| `Lifecycle.AbsentId` | main14.go:220-226 | any numeric id that names no row gives 404 `NotFound` on get, and on update (with a body that passes the field checks) and delete when the existence check does not fail, and changes nothing |
| `Lifecycle.NegativeIdAbsent` | main14.go:220-226 | "-5" parses to -5, which no valid table holds, since the serial starts at 1 |

## Left out

- Server start-up, the connection string, `sqlx.Connect` and `Ping`, `log.Fatal` and route registration (main14.go:25-54, main.go:23-41): process wiring, not handler logic. `Store.Table`'s constructor stands for a freshly connected, empty table.
- gin's JSON binding: a body is given already bound (`Decoded`) or not (`Malformed`). The `detail` field holding the binder's error text, and the float32 rounding the decoder applies to `rating`, are not modelled.
- JSON encoding of responses and the exact Indonesian message strings: messages are tags; the `error` and `message` keys are implied by the tag.
- Logging calls: no effect on responses.
- Concurrency beyond one interleaving: the only interference modelled is another request deleting the row between the existence check and the mutation. Concurrent updates and inserts are not modelled.
- The result of `RowsAffected()` is used and its error is ignored in the code; the model takes the count from the store, as the PostgreSQL driver always reports one.
- `Strconv.Atoi`: Go's distinction between a syntax error and a range error is merged into one error, because every handler treats both alike.
- PostgreSQL behaviour the handlers cannot see: serial values consumed by failed inserts, ids outside the range of the id column, and constraint errors are covered by the injected failure flags, not modelled one by one.
- `CreateOnly.AgreesWithCrudInRange`: equal message tags, not equal texts. The two versions word the insert failure differently (main14.go:91 against main.go:69), and only main14.go adds a `detail` field to the bind-error response (main14.go:61-67 against main.go:48-51).
