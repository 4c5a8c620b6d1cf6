/** The `bioskop` table and the SQL statements the handlers run against it.
    The table is a map from id to row; `nextId` stands for the serial
    sequence that assigns ids on INSERT. Store failures (connection loss,
    timeouts, constraint errors) are injected by the caller as a flag. */
module Store {
  import opened Records

  /** The value of the table: its rows by id and the next serial id. */
  datatype Db = Db(rows: map<int, Bioskop>, nextId: int) {
    /** Every row sits under its own id, and every id was issued by the
        serial, which starts at 1 and only grows. */
    ghost predicate Valid() {
      && 1 <= nextId
      && forall k :: k in rows ==> rows[k].id == k && 1 <= k < nextId
    }
  }

  /** What a handler leaves behind: the response it sends and the table. */
  datatype Outcome = Outcome(response: Response, db: Db)

  /** What a single-row SELECT gives: the row, `sql.ErrNoRows`, or another error. */
  datatype Fetch = Row(row: Bioskop) | NoRows | FetchError

  /** Some element of a non-empty set of ints is at most every element. */
  lemma HasLeast(s: set<int>)
    requires s != {}
    ensures exists k :: k in s && forall j :: j in s ==> k <= j
    decreases s
  {
    assert (forall j :: j !in s) ==> s == {};
    var x :| x in s;
    var smaller := set j | j in s && j < x;
    if y :| y in smaller {
      assert x !in smaller;
      HasLeast(smaller);
      var m :| m in smaller && forall j :: j in smaller ==> m <= j;
      forall j | j in s ensures m <= j {
        if j < x { assert j in smaller; }
      }
    } else {
      forall j | j in s ensures x <= j {
        assert j < x ==> j in smaller;
      }
    }
  }

  function Least(s: set<int>): (k: int)
    requires s != {}
    ensures k in s && forall j :: j in s ==> k <= j
  {
    HasLeast(s);
    var k :| k in s && forall j :: j in s ==> k <= j; k
  }

  /** The ids of a set in ascending order, each once (ORDER BY id). */
  function Ascending(s: set<int>): (r: seq<int>)
    ensures |r| == |s|
    ensures forall k :: k in r <==> k in s
    ensures forall i, j :: 0 <= i < j < |r| ==> r[i] < r[j]
    decreases |s|
  {
    if s == {} then []
    else
      var k := Least(s);
      [k] + Ascending(s - {k})
  }

  /** The rows under the given ids, in the order of the ids. */
  function RowsAt(rows: map<int, Bioskop>, ids: seq<int>): (r: seq<Bioskop>)
    requires forall i :: 0 <= i < |ids| ==> ids[i] in rows
    ensures |r| == |ids|
    ensures forall i :: 0 <= i < |ids| ==> r[i] == rows[ids[i]]
  {
    seq(|ids|, i requires 0 <= i < |ids| => rows[ids[i]])
  }

  /** `SELECT id, nama, lokasi, rating FROM bioskop ORDER BY id`: every row
      once, in ascending id order, and nothing else. */
  function OrderedRows(db: Db): (r: seq<Bioskop>)
    requires db.Valid()
    ensures |r| == |db.rows|
    ensures forall i, j :: 0 <= i < j < |r| ==> r[i].id < r[j].id
    ensures forall b :: b in r ==> b.id in db.rows && db.rows[b.id] == b
    ensures forall k :: k in db.rows ==> db.rows[k] in r
  {
    var ids := Ascending(db.rows.Keys);
    assert |db.rows.Keys| == |db.rows|;
    var r := RowsAt(db.rows, ids);
    OrderedRowsAscend(db, ids, r);
    OrderedRowsSound(db, ids, r);
    OrderedRowsComplete(db, ids, r);
    r
  }

  // The three facts below are proved apart so that each is a small proof
  // obligation; together in one they exceed the solver's budget.

  lemma OrderedRowsAscend(db: Db, ids: seq<int>, r: seq<Bioskop>)
    requires db.Valid() && ids == Ascending(db.rows.Keys) && r == RowsAt(db.rows, ids)
    ensures forall i, j :: 0 <= i < j < |r| ==> r[i].id < r[j].id
  {
  }

  lemma OrderedRowsSound(db: Db, ids: seq<int>, r: seq<Bioskop>)
    requires db.Valid() && ids == Ascending(db.rows.Keys) && r == RowsAt(db.rows, ids)
    ensures forall b :: b in r ==> b.id in db.rows && db.rows[b.id] == b
  {
  }

  lemma OrderedRowsComplete(db: Db, ids: seq<int>, r: seq<Bioskop>)
    requires db.Valid() && ids == Ascending(db.rows.Keys) && r == RowsAt(db.rows, ids)
    ensures forall k :: k in db.rows ==> db.rows[k] in r
  {
  }

  /** The `bioskop` table as the handlers share it. */
  class Table {
    var rows: map<int, Bioskop>
    var nextId: int

    function State(): Db
      reads this
    {
      Db(rows, nextId)
    }

    ghost predicate Valid()
      reads this
    {
      State().Valid()
    }

    /** An empty table whose serial has not been used yet. */
    constructor ()
      ensures Valid() && rows == map[] && nextId == 1
    {
      rows := map[];
      nextId := 1;
    }

    /** `INSERT INTO bioskop (nama, lokasi, rating) VALUES (...) RETURNING id`:
        the serial supplies a fresh id and no other row changes. */
    method Insert(nama: string, lokasi: string, rating: real, fails: bool) returns (id: Option<int>)
      requires Valid()
      modifies this
      ensures Valid()
      ensures fails ==> id == None && rows == old(rows) && nextId == old(nextId)
      ensures !fails ==> id == Some(old(nextId)) && id.value !in old(rows)
      ensures !fails ==> rows == old(rows)[id.value := Bioskop(id.value, nama, lokasi, rating)]
      ensures !fails ==> nextId == old(nextId) + 1
    {
      if fails {
        return None;
      }
      id := Some(nextId);
      rows := rows[nextId := Bioskop(nextId, nama, lokasi, rating)];
      nextId := nextId + 1;
    }

    /** `SELECT ... FROM bioskop ORDER BY id`. */
    method SelectAll(fails: bool) returns (list: Option<seq<Bioskop>>)
      requires Valid()
      ensures list == if fails then None else Some(OrderedRows(State()))
    {
      if fails {
        return None;
      }
      list := Some(OrderedRows(State()));
    }

    /** `SELECT ... FROM bioskop WHERE id = $1` through `db.Get`. */
    method Get(id: int, fails: bool) returns (f: Fetch)
      requires Valid()
      ensures fails ==> f == FetchError
      ensures !fails && id !in rows ==> f == NoRows
      ensures !fails && id in rows ==> f == Row(rows[id]) && f.row.id == id
    {
      if fails {
        return FetchError;
      }
      if id !in rows {
        return NoRows;
      }
      f := Row(rows[id]);
    }

    /** `SELECT EXISTS(SELECT 1 FROM bioskop WHERE id = $1)`. */
    method Exists(id: int, fails: bool) returns (found: Option<bool>)
      requires Valid()
      ensures found == if fails then None else Some(id in rows)
    {
      if fails {
        return None;
      }
      found := Some(id in rows);
    }

    /** `UPDATE bioskop SET nama = $1, lokasi = $2, rating = $3 WHERE id = $4`:
        overwrites the three fields of the row with that id, if there is one,
        and reports how many rows it changed. */
    method Update(id: int, nama: string, lokasi: string, rating: real, fails: bool) returns (affected: Option<nat>)
      requires Valid()
      modifies this
      ensures Valid() && nextId == old(nextId)
      ensures fails ==> affected == None && rows == old(rows)
      ensures !fails && id !in old(rows) ==> affected == Some(0) && rows == old(rows)
      ensures !fails && id in old(rows) ==>
                affected == Some(1) && rows == old(rows)[id := Bioskop(id, nama, lokasi, rating)]
    {
      if fails {
        return None;
      }
      if id !in rows {
        return Some(0);
      }
      rows := rows[id := Bioskop(id, nama, lokasi, rating)];
      affected := Some(1);
    }

    /** `DELETE FROM bioskop WHERE id = $1`: removes the row with that id, if
        there is one, and reports how many rows it removed. */
    method Delete(id: int, fails: bool) returns (affected: Option<nat>)
      requires Valid()
      modifies this
      ensures Valid() && nextId == old(nextId)
      ensures fails ==> affected == None && rows == old(rows)
      ensures !fails ==> affected == Some(if id in old(rows) then 1 else 0)
      ensures !fails ==> rows == old(rows) - {id}
    {
      if fails {
        return None;
      }
      affected := Some(if id in rows then 1 else 0);
      rows := rows - {id};
    }
  }
}
