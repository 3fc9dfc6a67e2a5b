/** The id-cursor loop that walks all enabled channels in batches
    (controller/channel_upstream_update.go: the background task, apply-all and detect-all). */
module ChannelBatches {

  datatype Row = Row(id: int, enabled: bool)

  /** The channel table in primary-key order. */
  predicate IsTable(rows: seq<Row>) {
    && (forall i :: 0 <= i < |rows| ==> rows[i].id >= 1)
    && (forall i, j :: 0 <= i < j < |rows| ==> rows[i].id < rows[j].id)
  }

  /** The enabled rows after the cursor, ascending; a cursor of zero or below asks for the whole table. */
  function EnabledAfter(rows: seq<Row>, lastID: int): seq<Row> {
    if rows == [] then []
    else if rows[0].enabled && (lastID > 0 ==> rows[0].id > lastID)
    then [rows[0]] + EnabledAfter(rows[1..], lastID)
    else EnabledAfter(rows[1..], lastID)
  }

  /** findEnabledChannelsAfterID: the first batchSize of them. */
  function FindEnabledAfterID(rows: seq<Row>, lastID: int, batchSize: nat): seq<Row> {
    var found := EnabledAfter(rows, lastID);
    if |found| <= batchSize then found else found[..batchSize]
  }

  lemma {:induction false} EnabledMeaning(rows: seq<Row>, lastID: int)
    requires IsTable(rows)
    ensures IsTable(EnabledAfter(rows, lastID))
    ensures forall r :: r in EnabledAfter(rows, lastID) <==> r in rows && r.enabled && (lastID > 0 ==> r.id > lastID)
  {
    if rows != [] {
      EnabledMeaning(rows[1..], lastID);
      var rest := EnabledAfter(rows[1..], lastID);
      assert rows == [rows[0]] + rows[1..];
      forall i | 0 <= i < |rest| ensures rows[0].id < rest[i].id {
        assert rest[i] in rows[1..];
      }
    }
  }

  lemma {:induction false} EnabledMember(rows: seq<Row>, lastID: int, i: nat)
    requires i < |EnabledAfter(rows, lastID)|
    ensures EnabledAfter(rows, lastID)[i] in rows && (lastID > 0 ==> EnabledAfter(rows, lastID)[i].id > lastID)
  {
    if EnabledAfter(rows, lastID) == EnabledAfter(rows[1..], lastID) {
      EnabledMember(rows[1..], lastID, i);
    } else if i > 0 {
      EnabledMember(rows[1..], lastID, i - 1);
    }
  }

  /** A cursor below every id selects all enabled rows. */
  lemma {:induction false} CursorBelowAll(rows: seq<Row>, a: int, b: int)
    requires forall i :: 0 <= i < |rows| ==> rows[i].id > a && rows[i].id > b
    ensures EnabledAfter(rows, a) == EnabledAfter(rows, b)
  {
    if rows != [] {
      CursorBelowAll(rows[1..], a, b);
    }
  }

  /** Moving the cursor to the n-th row of an answer drops exactly the first n rows of the next one. */
  lemma {:induction false} CursorMoves(rows: seq<Row>, lastID: int, n: nat)
    requires IsTable(rows) && 1 <= n <= |EnabledAfter(rows, lastID)|
    ensures EnabledAfter(rows, EnabledAfter(rows, lastID)[n - 1].id) == EnabledAfter(rows, lastID)[n..]
  {
    var first, tail := rows[0], rows[1..];
    var found := EnabledAfter(tail, lastID);
    TableTail(rows);
    if first.enabled && (lastID > 0 ==> first.id > lastID) {
      assert EnabledAfter(rows, lastID) == [first] + found;
      if n == 1 {
        CursorBelowAll(tail, lastID, first.id);
        assert ([first] + found)[1..] == found;
      } else {
        CursorMoves(tail, lastID, n - 1);
        EnabledMember(tail, lastID, n - 2);
        CursorPast(rows, found[n - 2].id);
        assert ([first] + found)[n..] == found[n - 1..];
      }
    } else {
      CursorMoves(tail, lastID, n);
      EnabledMember(tail, lastID, n - 1);
      CursorPast(rows, found[n - 1].id);
    }
  }

  lemma {:induction false} TableTail(rows: seq<Row>)
    requires IsTable(rows) && rows != []
    ensures IsTable(rows[1..]) && rows[0].id >= 1 && forall r :: r in rows[1..] ==> rows[0].id < r.id
  {}

  /** A cursor behind the first row leaves it out. */
  lemma {:induction false} CursorPast(rows: seq<Row>, id: int)
    requires rows != [] && 0 < rows[0].id < id
    ensures EnabledAfter(rows, id) == EnabledAfter(rows[1..], id)
  {}

  /** One batch takes the head of what is left, all of it if the batch is short; the cursor at its last row leaves
      the rest. */
  lemma {:induction false} NextBatch(rows: seq<Row>, lastID: int, batchSize: nat)
    requires IsTable(rows) && batchSize >= 1 && EnabledAfter(rows, lastID) != []
    ensures var batch := FindEnabledAfterID(rows, lastID, batchSize);
      && batch != []
      && batch + EnabledAfter(rows, batch[|batch| - 1].id) == EnabledAfter(rows, lastID)
      && (|batch| < batchSize ==> EnabledAfter(rows, batch[|batch| - 1].id) == [])
  {
    var batch := FindEnabledAfterID(rows, lastID, batchSize);
    CursorMoves(rows, lastID, |batch|);
    assert EnabledAfter(rows, lastID)[|batch| - 1] == batch[|batch| - 1];
  }

  /** What has been visited and what is left make up the whole. */
  predicate Splits(all: seq<Row>, visited: seq<Row>, left: seq<Row>) {
    all == visited + left
  }

  lemma {:induction false} SplitsFurther(all: seq<Row>, visited: seq<Row>, batch: seq<Row>, left: seq<Row>)
    requires Splits(all, visited, batch + left)
    ensures Splits(all, visited + batch, left)
  {
    assert visited + (batch + left) == (visited + batch) + left;
  }

  /** One batch of the loop. */
  lemma {:induction false} VisitBatch(rows: seq<Row>, lastID: int, batchSize: nat, all: seq<Row>, visited: seq<Row>)
    requires IsTable(rows) && batchSize >= 1 && Splits(all, visited, EnabledAfter(rows, lastID))
    ensures var batch := FindEnabledAfterID(rows, lastID, batchSize);
      if batch == [] then visited == all
      else
        var left := EnabledAfter(rows, batch[|batch| - 1].id);
        && Splits(all, visited + batch, left) && |visited| < |visited + batch| <= |all|
        && (|batch| < batchSize ==> visited + batch == all)
  {
    var batch := FindEnabledAfterID(rows, lastID, batchSize);
    if batch == [] {
      assert EnabledAfter(rows, lastID) == [];
    } else {
      NextBatch(rows, lastID, batchSize);
      SplitsFurther(all, visited, batch, EnabledAfter(rows, batch[|batch| - 1].id));
    }
  }

  /** Terminates and visits every enabled channel exactly once, in ascending id order, whatever the size
      of the table and of the batch. */
  method VisitEnabled(rows: seq<Row>, batchSize: nat) returns (visited: seq<Row>)
    requires IsTable(rows) && batchSize >= 1
    ensures forall r :: r in visited <==> r in rows && r.enabled
    ensures forall i, j :: 0 <= i < j < |visited| ==> visited[i].id < visited[j].id
  {
    ghost var all := EnabledAfter(rows, 0);
    visited := [];
    var lastID := 0;
    while true
      invariant Splits(all, visited, EnabledAfter(rows, lastID))
      decreases |all| - |visited|
    {
      var channels := FindEnabledAfterID(rows, lastID, batchSize);
      VisitBatch(rows, lastID, batchSize, all, visited);
      if |channels| == 0 {
        break;
      }
      lastID := channels[|channels| - 1].id;
      visited := visited + channels;
      if |channels| < batchSize {
        break;
      }
    }
    assert visited == all;
    EnabledMeaning(rows, 0);
  }
}
