/** The `requests` table (database.py): an append-only sequence of rows whose
    three annotation columns are overwritten by a predicate-based update.
    Every operation is atomic, as the process-wide lock makes it. A failing
    operation is chosen by a `Fault` argument:
      - `StatementFails`: the statement fails inside the `try` (an
        `sqlite3.Error`, e.g. a lock timeout); the operation's handler
        swallows it, except in the window query, where `pd.read_sql_query`
        re-raises it as pandas' own `DatabaseError`, which that handler does
        not catch;
      - `ConnectFails`: `sqlite3.connect` fails, which happens before the
        `try`, so the exception propagates to the caller.
    A statement on a database whose table was never created fails like
    `StatementFails` ("no such table"). */
module Database {
  import opened Common
  import Sorting

  /** One row: `(ip, timestamp, url, request_rate, unique_urls_proxy, prediction)`. */
  datatype Row = Row(ip: string, timestamp: int, url: string,
                     requestRate: real, uniqueUrlsProxy: real, prediction: int)

  /** The three columns a bulk insert supplies: `(ip, timestamp, url)`. */
  datatype Entry = Entry(ip: string, timestamp: int, url: string)

  datatype Fault = Healthy | StatementFails | ConnectFails

  /** The part of a row no operation ever changes. */
  function Key(r: Row): Entry {
    Entry(r.ip, r.timestamp, r.url)
  }

  /** The row `INSERT ... VALUES (?, ?, ?, 0.0, 0.0, 0)` creates for one entry. */
  function Fresh(e: Entry): (r: Row)
    ensures Key(r) == e
  {
    Row(e.ip, e.timestamp, e.url, 0.0, 0.0, 0)
  }

  function FreshRows(es: seq<Entry>): (rs: seq<Row>)
    ensures |rs| == |es|
    ensures forall i :: 0 <= i < |es| ==> rs[i] == Fresh(es[i])
  {
    if es == [] then [] else [Fresh(es[0])] + FreshRows(es[1..])
  }

  function Keys(rows: seq<Row>): (ks: seq<Entry>)
    ensures |ks| == |rows|
    ensures forall i :: 0 <= i < |rows| ==> ks[i] == Key(rows[i])
  {
    if rows == [] then [] else [Key(rows[0])] + Keys(rows[1..])
  }

  /** The predicate shared by the window query and the update:
      `ip = ? AND timestamp >= ?`. */
  predicate InWindow(r: Row, ip: string, start: int) {
    r.ip == ip && r.timestamp >= start
  }

  /** `SELECT * FROM requests WHERE ip = ? AND timestamp >= ?`, in table order. */
  function Window(rows: seq<Row>, ip: string, start: int): (w: seq<Row>)
    ensures |w| <= |rows|
    ensures forall r :: r in w <==> r in rows && InWindow(r, ip, start)
  {
    if rows == [] then []
    else if InWindow(rows[0], ip, start) then [rows[0]] + Window(rows[1..], ip, start)
    else Window(rows[1..], ip, start)
  }

  /** `UPDATE requests SET request_rate = ?, unique_urls_proxy = ?, prediction = ?
      WHERE ip = ? AND timestamp >= ?` as a function of the table. */
  function Annotate(rows: seq<Row>, ip: string, rate: real, uniq: real, pred: int, start: int): (r: seq<Row>)
    ensures |r| == |rows|
    ensures Keys(r) == Keys(rows)
    ensures forall i :: 0 <= i < |rows| && !InWindow(rows[i], ip, start) ==> r[i] == rows[i]
    ensures forall i :: 0 <= i < |rows| && InWindow(rows[i], ip, start) ==>
      r[i].requestRate == rate && r[i].uniqueUrlsProxy == uniq && r[i].prediction == pred
  {
    if rows == [] then []
    else
      var head := if InWindow(rows[0], ip, start)
                  then rows[0].(requestRate := rate, uniqueUrlsProxy := uniq, prediction := pred)
                  else rows[0];
      var r := [head] + Annotate(rows[1..], ip, rate, uniq, pred, start);
      assert Keys(r) == [Key(head)] + Keys(Annotate(rows[1..], ip, rate, uniq, pred, start));
      r
  }

  /** Rows listed most recent first (`ORDER BY timestamp DESC`). */
  function NewestFirst(r: Row): int {
    -r.timestamp
  }

  /** `SELECT * FROM requests ORDER BY timestamp DESC LIMIT limit`; SQLite reads a
      negative LIMIT as "no limit". Rows with equal timestamps come in the order the
      sort leaves them, which SQL does not fix. */
  function Recent(rows: seq<Row>, limit: int): seq<Row> {
    var sorted := Sorting.SortBy(rows, NewestFirst);
    if 0 <= limit < |sorted| then sorted[..limit] else sorted
  }

  class Store {
    /** Whether `CREATE TABLE requests` has run on this database file. */
    var tableExists: bool
    /** The table's rows in insertion order. */
    var rows: seq<Row>

    /** A database file that does not hold the table yet. */
    constructor ()
      ensures !tableExists && rows == []
    {
      tableExists := false;
      rows := [];
    }

    /** `init_db`: `CREATE TABLE IF NOT EXISTS`. It has no handler, so any
        failure reaches the caller. */
    method InitDb(fault: Fault) returns (raised: bool)
      modifies this
      ensures raised <==> fault != Healthy
      ensures tableExists == (old(tableExists) || !raised)
      ensures rows == old(rows)
    {
      raised := fault != Healthy;
      if !raised {
        tableExists := true;
      }
    }

    /** `log_requests_bulk`: one `executemany` transaction, committed whole or not at all. */
    method LogRequestsBulk(entries: seq<Entry>, fault: Fault) returns (raised: bool)
      modifies this
      ensures raised <==> fault == ConnectFails
      ensures tableExists == old(tableExists)
      ensures rows == if fault == Healthy && tableExists then old(rows) + FreshRows(entries) else old(rows)
    {
      raised := fault == ConnectFails;
      if fault == Healthy && tableExists {
        rows := rows + FreshRows(entries);
      }
    }

    /** `get_logs_in_window`: the matching rows. Every failure reaches the
        caller: a failing statement (a missing table included) comes out of
        `pd.read_sql_query` as pandas' `DatabaseError`, not as the
        `sqlite3.Error` the handler catches. */
    method GetLogsInWindow(ip: string, start: int, fault: Fault) returns (df: seq<Row>, raised: bool)
      ensures raised <==> !(fault == Healthy && tableExists)
      ensures !raised ==> df == Window(rows, ip, start)
      ensures raised ==> df == []
      ensures forall r :: r in df ==> r in rows && InWindow(r, ip, start)
    {
      raised := !(fault == Healthy && tableExists);
      if !raised {
        df := Window(rows, ip, start);
      } else {
        df := [];
      }
    }

    /** `update_prediction`: overwrites the three annotations on every row the
        window query would return. `affected` is the row count it reports, or
        `None` when the statement fails. */
    method UpdatePrediction(ip: string, rate: real, uniq: real, pred: int, start: int, fault: Fault)
      returns (affected: Option<nat>, raised: bool)
      modifies this
      ensures raised <==> fault == ConnectFails
      ensures tableExists == old(tableExists)
      ensures fault == Healthy && tableExists ==>
        rows == Annotate(old(rows), ip, rate, uniq, pred, start) &&
        affected == Some(|Window(old(rows), ip, start)|)
      ensures !(fault == Healthy && tableExists) ==> rows == old(rows) && affected == None
    {
      raised := fault == ConnectFails;
      if fault == Healthy && tableExists {
        affected := Some(|Window(rows, ip, start)|);
        rows := Annotate(rows, ip, rate, uniq, pred, start);
      } else {
        affected := None;
      }
    }

    /** `get_recent_logs`: read-only; failures of the statement give an empty frame. */
    method GetRecentLogs(limit: int, fault: Fault) returns (df: seq<Row>, raised: bool)
      ensures raised <==> fault == ConnectFails
      ensures fault == Healthy && tableExists ==> df == Recent(rows, limit)
      ensures !(fault == Healthy && tableExists) ==> df == []
      ensures limit >= 0 ==> |df| <= limit
      ensures Sorting.SortedBy(df, NewestFirst)
      ensures multiset(df) <= multiset(rows)
    {
      raised := fault == ConnectFails;
      if fault == Healthy && tableExists {
        df := Recent(rows, limit);
        RecentIsNewestPrefix(rows, limit);
      } else {
        df := [];
      }
    }
  }

  // ---------------------------------------------------------------------------
  // Properties of the table operations

  lemma {:induction false} WindowOfAppend(a: seq<Row>, b: seq<Row>, ip: string, start: int)
    ensures Window(a + b, ip, start) == Window(a, ip, start) + Window(b, ip, start)
  {
    if a == [] {
      assert a + b == b;
    } else {
      assert (a + b)[1..] == a[1..] + b;
      WindowOfAppend(a[1..], b, ip, start);
    }
  }

  /** The entries of a batch that belong to `ip` and lie at or after `start`, in batch order. */
  function EntriesInWindow(es: seq<Entry>, ip: string, start: int): seq<Entry> {
    if es == [] then []
    else if es[0].ip == ip && es[0].timestamp >= start then [es[0]] + EntriesInWindow(es[1..], ip, start)
    else EntriesInWindow(es[1..], ip, start)
  }

  /** Round trip: after a bulk insert, the window query returns the rows it
      returned before, followed by exactly the batch's matching entries, in
      batch order, with default annotations. */
  lemma {:induction false} InsertThenQuery(rows: seq<Row>, es: seq<Entry>, ip: string, start: int)
    ensures Window(rows + FreshRows(es), ip, start)
         == Window(rows, ip, start) + FreshRows(EntriesInWindow(es, ip, start))
  {
    WindowOfAppend(rows, FreshRows(es), ip, start);
    FreshWindow(es, ip, start);
  }

  lemma {:induction false} FreshWindow(es: seq<Entry>, ip: string, start: int)
    ensures Window(FreshRows(es), ip, start) == FreshRows(EntriesInWindow(es, ip, start))
  {
    if es != [] {
      assert FreshRows(es)[1..] == FreshRows(es[1..]);
      FreshWindow(es[1..], ip, start);
    }
  }

  /** A window starting no later than every inserted entry of `ip` finds all of them. */
  lemma InsertedRowsAreQueried(rows: seq<Row>, es: seq<Entry>, ip: string, start: int)
    requires forall e :: e in es && e.ip == ip ==> start <= e.timestamp
    ensures forall e :: e in es && e.ip == ip ==> Fresh(e) in Window(rows + FreshRows(es), ip, start)
  {
    forall e | e in es && e.ip == ip
      ensures Fresh(e) in Window(rows + FreshRows(es), ip, start)
    {
      var i :| 0 <= i < |es| && es[i] == e;
      assert (rows + FreshRows(es))[|rows| + i] == Fresh(e);
    }
  }

  /** Updating twice with identical arguments leaves what one update leaves. */
  lemma AnnotateIdempotent(rows: seq<Row>, ip: string, rate: real, uniq: real, pred: int, start: int)
    ensures Annotate(Annotate(rows, ip, rate, uniq, pred, start), ip, rate, uniq, pred, start)
         == Annotate(rows, ip, rate, uniq, pred, start)
  {
    var once := Annotate(rows, ip, rate, uniq, pred, start);
    var twice := Annotate(once, ip, rate, uniq, pred, start);
    forall i | 0 <= i < |rows| ensures twice[i] == once[i] {
      assert Keys(once)[i] == Keys(rows)[i];
    }
  }

  /** Because query and update share one predicate, the rows the update touches are
      exactly the rows the query returned: same number, same keys, in the same order. */
  lemma {:induction false} UpdateTouchesQueriedRows(rows: seq<Row>, ip: string, rate: real, uniq: real, pred: int, start: int)
    ensures Keys(Window(Annotate(rows, ip, rate, uniq, pred, start), ip, start)) == Keys(Window(rows, ip, start))
  {
    if rows != [] {
      var a := Annotate(rows, ip, rate, uniq, pred, start);
      assert Key(a[0]) == Keys(a)[0] == Keys(rows)[0] == Key(rows[0]);
      assert a[1..] == Annotate(rows[1..], ip, rate, uniq, pred, start) by {
        assert a == [a[0]] + Annotate(rows[1..], ip, rate, uniq, pred, start);
      }
      UpdateTouchesQueriedRows(rows[1..], ip, rate, uniq, pred, start);
    }
  }

  /** An update for one source leaves every row of any other source, and
      every row before the window, exactly as it was. */
  lemma AnnotateOthersUnchanged(rows: seq<Row>, ip: string, rate: real, uniq: real, pred: int, start: int, i: int)
    requires 0 <= i < |rows|
    requires rows[i].ip != ip || rows[i].timestamp < start
    ensures Annotate(rows, ip, rate, uniq, pred, start)[i] == rows[i]
  {
  }

  /** An update for one source does not change what the window query returns
      for any other source. */
  lemma {:induction false} WindowOfOtherIp(rows: seq<Row>, ip: string, rate: real, uniq: real, pred: int, start: int,
                                           other: string, otherStart: int)
    requires other != ip
    ensures Window(Annotate(rows, ip, rate, uniq, pred, start), other, otherStart) == Window(rows, other, otherStart)
  {
    if rows != [] {
      var a := Annotate(rows, ip, rate, uniq, pred, start);
      assert Key(a[0]) == Keys(a)[0] == Keys(rows)[0] == Key(rows[0]);
      assert a[1..] == Annotate(rows[1..], ip, rate, uniq, pred, start) by {
        assert a == [a[0]] + Annotate(rows[1..], ip, rate, uniq, pred, start);
      }
      WindowOfOtherIp(rows[1..], ip, rate, uniq, pred, start, other, otherStart);
    }
  }

  /** Keys of a table after a bulk insert: the old keys followed by the batch. */
  lemma KeysAfterInsert(rows: seq<Row>, es: seq<Entry>)
    ensures Keys(rows + FreshRows(es)) == Keys(rows) + es
  {
  }

  /** The rows the recent read leaves out. */
  function NotRecent(rows: seq<Row>, limit: int): seq<Row> {
    var sorted := Sorting.SortBy(rows, NewestFirst);
    if 0 <= limit < |sorted| then sorted[limit..] else []
  }

  /** The recent read returns the `limit` newest rows: sorted newest first, and
      together with the rows it leaves out a permutation of the table, none of
      the left-out rows being newer than any returned row. */
  lemma RecentIsNewestPrefix(rows: seq<Row>, limit: int)
    ensures Sorting.SortedBy(Recent(rows, limit), NewestFirst)
    ensures multiset(Recent(rows, limit)) + multiset(NotRecent(rows, limit)) == multiset(rows)
    ensures |Recent(rows, limit)| == if 0 <= limit < |rows| then limit else |rows|
    ensures forall i, j :: 0 <= i < |Recent(rows, limit)| && 0 <= j < |NotRecent(rows, limit)| ==>
      NotRecent(rows, limit)[j].timestamp <= Recent(rows, limit)[i].timestamp
  {
    var sorted := Sorting.SortBy(rows, NewestFirst);
    if 0 <= limit < |sorted| {
      assert sorted == sorted[..limit] + sorted[limit..];
      forall i, j | 0 <= i < limit && 0 <= j < |sorted| - limit
        ensures sorted[limit..][j].timestamp <= sorted[..limit][i].timestamp
      {
        assert NewestFirst(sorted[i]) <= NewestFirst(sorted[limit + j]);
      }
    }
  }
}
