/** Rows collected into multi-row INSERT statements. */
module DBInserts {

  const FLUSH_SIZE: nat := 8192

  /** The values part of a statement for these rows. */
  function Joined(rows: seq<string>): string {
    if rows == [] then ""
    else if |rows| == 1 then "(" + rows[0] + ")"
    else Joined(rows[..|rows| - 1]) + ",(" + rows[|rows| - 1] + ")"
  }

  lemma JoinedMore(rows: seq<string>, row: string)
    ensures Joined(rows + [row]) == if rows == [] then "(" + row + ")" else Joined(rows) + ",(" + row + ")"
  {
    assert (rows + [row])[..|rows|] == rows;
  }

  function Concat(batches: seq<seq<string>>): seq<string> {
    if batches == [] then [] else Concat(batches[..|batches| - 1]) + batches[|batches| - 1]
  }

  lemma ConcatMore(batches: seq<seq<string>>, batch: seq<string>)
    ensures Concat(batches + [batch]) == Concat(batches) + batch
  {
    assert (batches + [batch])[..|batches|] == batches;
  }

  lemma ConcatNone()
    ensures Concat([]) == []
  {
  }

  /** The statements for these batches, in order. */
  function Statements(query: string, batches: seq<seq<string>>): seq<string> {
    seq(|batches|, k requires 0 <= k < |batches| => query + Joined(batches[k]))
  }

  ghost predicate Short(rows: seq<string>)
    requires rows != []
  {
    |Joined(rows)| <= FLUSH_SIZE + 3 + |rows[|rows| - 1]|
  }

  class Database {
    const multiInsert: bool
    ghost var log: seq<string>          // every statement sent, in order
    ghost var failed: bool              // whether one of them failed

    constructor (multiInsert: bool)
      ensures this.multiInsert == multiInsert && log == [] && !failed
    {
      this.multiInsert, log, failed := multiInsert, [], false;
    }

    method ExecuteQuery(query: string) returns (ok: bool)
      modifies this
      ensures log == old(log) + [query] && failed == (old(failed) || !ok)
    {
      ok := *;
      log, failed := log + [query], failed || !ok;
    }
  }

  class DBInsert {
    const m_db: Database
    const m_multiLine: bool
    var m_query: string
    var m_buf: string
    var m_rows: nat
    ghost var pending: seq<string>           // the rows in the buffer
    ghost var batches: seq<seq<string>>      // the rows of each statement sent since setQuery
    ghost var start: nat                     // how many statements had been sent before

    /** Every statement sent is that of a batch, and none is longer than the limit, the separators
        and its last row. */
    ghost predicate Sent()
      reads `m_query, `batches, `start, m_db
    {
      && start <= |m_db.log| && m_db.log[start..] == Statements(m_query, batches)
      && forall b :: b in batches ==> b != [] && Short(b)
    }

    /** The buffer is the text of the pending rows. */
    ghost predicate Buffered()
      reads this, m_db
    {
      && m_buf == Joined(pending) && (!m_multiLine ==> pending == [])
      && (pending != [] ==> Short(pending))
      && Sent()
    }

    ghost predicate Valid()
      reads this, m_db
    {
      Buffered() && m_rows == |pending|
    }

    constructor (db: Database)
      ensures Valid() && m_db == db && m_multiLine == db.multiInsert && pending == [] && batches == []
    {
      m_db, m_multiLine := db, db.multiInsert;
      m_query, m_buf, m_rows := "", "", 0;
      pending, batches, start := [], [], |db.log|;
    }

    method SetQuery(query: string)
      modifies this
      ensures Valid() && m_query == query && pending == [] && batches == [] && start == |m_db.log|
    {
      m_query, m_buf, m_rows := query, "", 0;
      pending, batches, start := [], [], |m_db.log|;
    }

    /** executeQuery, for the statement that carries these rows. */
    method SendBatch(text: string, ghost batch: seq<string>) returns (ok: bool)
      requires Sent() && batch != [] && Short(batch) && text == m_query + Joined(batch)
      modifies `batches, m_db
      ensures Sent() && batches == old(batches) + [batch] && m_db.failed == (old(m_db.failed) || !ok)
    {
      hide Joined, Short;
      ok := m_db.ExecuteQuery(text);
      batches := batches + [batch];
    }

    /** execute: sends what is in the buffer. */
    method Execute() returns (ok: bool)
      requires Buffered() && (m_rows == 0 <==> pending == [])
      modifies this, m_db
      ensures Valid() && pending == [] && m_query == old(m_query) && start == old(start) && m_db.failed == (old(m_db.failed) || !ok)
      ensures batches == old(batches) + if old(pending) == [] then [] else [old(pending)]
    {
      hide Sent, Short, Joined;
      NothingJoined(pending);
      if !m_multiLine || |m_buf| < 1 || m_rows == 0 { return true; }
      m_rows := 0;
      ok := SendBatch(m_query + m_buf, pending);
      m_buf := "";
      pending := [];
      NothingJoined([]);
    }

    /** addRow: a buffer beyond the limit is sent before the row goes into a new one. */
    method AddRow(row: string) returns (ok: bool)
      requires Valid()
      modifies this, m_db
      ensures Valid() && m_query == old(m_query) && start == old(start) && m_db.failed == (old(m_db.failed) || !ok)
      ensures ok ==> Concat(batches) + pending == old(Concat(batches) + pending) + [row]
      ensures !ok ==> Concat(batches) + pending == old(Concat(batches) + pending) + if m_multiLine then [] else [row]
      ensures !m_multiLine ==> pending == [] && batches == old(batches) + [[row]]
      ensures ok && m_multiLine && old(|m_buf|) <= 8192 ==> pending == old(pending) + [row] && batches == old(batches)
      ensures ok && m_multiLine && old(|m_buf|) > 8192 ==> pending == [row] && batches == old(batches) + [old(pending)]
    {
      hide Concat, Joined, Sent, Short;
      OneRow(row);
      if !m_multiLine {
        ConcatMore(batches, [row]);
        Bracketed(m_query, row);
        ok := SendBatch(m_query + "(" + row + ")", [row]);
        return;
      }
      m_rows := m_rows + 1;
      var size := |m_buf|;
      NothingJoined(pending);
      if size == 0 {
        m_buf := "(" + row + ")";
        pending := [row];
      } else if size > FLUSH_SIZE {
        ConcatMore(batches, pending);
        ok := Execute();
        if !ok { return; }
        m_buf := "(" + row + ")";
        m_rows := 1;
        pending := [row];
      } else {
        AnotherRow(pending, row);
        m_buf := m_buf + ",(" + row + ")";
        pending := pending + [row];
      }
      ok := true;
    }
  }

  /** The rows in brackets, with commas between them. */
  lemma ThreeJoined(a: string, b: string, c: string)
    ensures Joined([a, b, c]) == "(" + a + "),(" + b + "),(" + c + ")"
  {
    JoinedMore([], a);
    JoinedMore([a], b);
    JoinedMore([a, b], c);
    assert [] + [a] == [a] && [a] + [b] == [a, b] && [a, b] + [c] == [a, b, c];
  }

  lemma NothingJoined(rows: seq<string>)
    ensures |Joined(rows)| < 1 <==> rows == []
  {
  }

  lemma OneRow(row: string)
    ensures Joined([row]) == "(" + row + ")" && Short([row])
  {
  }

  lemma Bracketed(query: string, row: string)
    ensures query + "(" + row + ")" == query + Joined([row])
  {
  }

  lemma AnotherRow(rows: seq<string>, row: string)
    requires rows != [] && |Joined(rows)| <= FLUSH_SIZE
    ensures Joined(rows + [row]) == Joined(rows) + ",(" + row + ")" && Short(rows + [row])
  {
    JoinedMore(rows, row);
  }

  /** Any rows, added one by one and executed at the end: if no statement fails, the statements carry
      exactly these rows, in this order, as if each had been inserted by itself. */
  method InsertAll(insert: DBInsert, query: string, rows: seq<string>) returns (ok: bool)
    requires insert.m_db.failed == false
    modifies insert, insert.m_db
    ensures insert.Valid() && insert.pending == []
    ensures ok <==> !insert.m_db.failed
    ensures ok ==> Concat(insert.batches) == rows
    ensures old(|insert.m_db.log|) <= |insert.m_db.log| &&
            insert.m_db.log[old(|insert.m_db.log|)..] == Statements(query, insert.batches)
  {
    hide Concat, Joined, Statements, Short;
    ghost var before := |insert.m_db.log|;
    insert.SetQuery(query);
    ConcatNone();
    ok := true;
    var k := 0;
    while k < |rows| && ok
      invariant 0 <= k <= |rows| && insert.Valid() && insert.m_query == query && insert.start == before
      invariant ok <==> !insert.m_db.failed
      invariant ok ==> Concat(insert.batches) + insert.pending == rows[..k]
    {
      ok := insert.AddRow(rows[k]);
      assert rows[..k + 1] == rows[..k] + [rows[k]];
      k := k + 1;
    }
    assert ok ==> rows[..k] == rows;
    ghost var (batches, pending) := (insert.batches, insert.pending);
    ConcatMore(batches, pending);
    var executed := insert.Execute();
    assert batches + [] == batches && Concat(batches) + [] == Concat(batches);
    ok := ok && executed;
  }
}
