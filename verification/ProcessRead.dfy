/** Streaming the rows of a remote query through a scanner of bounded size. */
module ProcessRead {
  const DEFAULT_MAX_SERIALIZE_SIZE := 64 * 1024 * 1024

  datatype Row = Row(content: int, size: nat)

  /** One RPC message; the column description travels when `fields` is set. */
  datatype Message = Message(rows: seq<Row>, foundRows: nat, fields: bool)

  datatype Status = Ok | IterEnd | Error

  function Total(rows: seq<Row>): nat {
    if rows == [] then 0 else Total(rows[..|rows| - 1]) + rows[|rows| - 1].size
  }

  /** What the scanner accepts: a row within the limit, or one large row alone. */
  predicate Accepts(rows: seq<Row>, row: Row, limit: nat) {
    || Total(rows) + row.size <= limit
    || (rows == [] && row.size <= DEFAULT_MAX_SERIALIZE_SIZE)
  }

  ghost predicate FitsAlone(row: Row, limit: nat) {
    row.size <= limit || row.size <= 64 * 1024 * 1024
  }

  /** No message is over the limit, except for one large row alone. */
  ghost predicate Bounded(rows: seq<Row>, limit: nat) {
    Total(rows) <= limit || (|rows| == 1 && rows[0].size <= 64 * 1024 * 1024)
  }

  function Concat(messages: seq<Message>): seq<Row> {
    if messages == [] then [] else Concat(messages[..|messages| - 1]) + messages[|messages| - 1].rows
  }

  /** Batch i was sent because the row after it was not accepted. */
  ghost predicate Greedy(sent: seq<Message>, rows: seq<Row>, limit: nat, i: nat)
    requires i < |sent|
  {
    var next := |Concat(sent[..i + 1])|;
    next < |rows| && !Accepts(sent[i].rows, rows[next], limit)
  }

  ghost predicate MessageOk(sent: seq<Message>, limit: nat, i: nat)
    requires i < |sent|
  {
    sent[i].foundRows == |sent[i].rows| && (sent[i].fields <==> i == 0) && Bounded(sent[i].rows, limit)
  }

  ghost predicate MessagesOk(sent: seq<Message>, rows: seq<Row>, limit: nat) {
    forall i: nat | i < |sent| :: MessageOk(sent, limit, i) && Greedy(sent, rows, limit, i)
  }

  lemma MessagesStep(sent: seq<Message>, m: Message, rows: seq<Row>, limit: nat)
    requires MessagesOk(sent, rows, limit) && m.foundRows == |m.rows| && (m.fields <==> sent == [])
    requires Bounded(m.rows, limit)
    requires |Concat(sent) + m.rows| < |rows| && !Accepts(m.rows, rows[|Concat(sent) + m.rows|], limit)
    ensures MessagesOk(sent + [m], rows, limit) && Concat(sent + [m]) == Concat(sent) + m.rows
  {
    ConcatStep(sent, m);
    var more := sent + [m];
    forall i: nat | i < |more|
      ensures MessageOk(more, limit, i) && Greedy(more, rows, limit, i)
    {
      if i < |sent| {
        assert MessageOk(sent, limit, i) && Greedy(sent, rows, limit, i);
        assert more[..i + 1] == sent[..i + 1];
      } else {
        assert more[..i + 1] == more;
      }
    }
  }

  /** The first `pos` rows have gone out or are stored, in batches as they should be. */
  ghost predicate Streamed(rows: seq<Row>, pos: nat, limit: nat, sent: seq<Message>, stored: seq<Row>) {
    && pos <= |rows| && Concat(sent) + stored == rows[..pos]
    && MessagesOk(sent, rows, limit) && Bounded(stored, limit)
  }

  lemma UsedStep(rows: seq<Row>, pos: nat, limit: nat, sent: seq<Message>, stored: seq<Row>)
    requires Streamed(rows, pos, limit, sent, stored) && pos < |rows| && Accepts(stored, rows[pos], limit)
    ensures Streamed(rows, pos + 1, limit, sent, stored + [rows[pos]])
  {
    assert rows[..pos + 1] == rows[..pos] + [rows[pos]];
    assert Concat(sent) + (stored + [rows[pos]]) == (Concat(sent) + stored) + [rows[pos]];
    TotalStep(stored, rows[pos]);
  }

  lemma FlushStep(rows: seq<Row>, pos: nat, limit: nat, sent: seq<Message>, stored: seq<Row>)
    requires Streamed(rows, pos, limit, sent, stored) && pos < |rows| && !Accepts(stored, rows[pos], limit)
    ensures Streamed(rows, pos, limit, sent + [Message(stored, |stored|, sent == [])], [])
  {
    MessagesStep(sent, Message(stored, |stored|, sent == []), rows, limit);
    assert Concat(sent) + stored + [] == Concat(sent) + stored;
  }

  lemma ConcatStep(sent: seq<Message>, m: Message)
    ensures Concat(sent + [m]) == Concat(sent) + m.rows
  {
    assert (sent + [m])[..|sent|] == sent;
  }

  lemma TotalStep(rows: seq<Row>, row: Row)
    ensures Total(rows + [row]) == Total(rows) + row.size
  {
    assert (rows + [row])[..|rows|] == rows;
  }

  class Processor {
    const limit: nat
    var stored: seq<Row> // the scanner's row store
    var foundRows: nat
    var rowCount: nat // rows added since the last flush
    var fields: bool
    var sent: seq<Message> // flushed to the client

    constructor (limit: nat)
      ensures this.limit == limit && stored == [] && sent == [] && !fields && foundRows == 0 && rowCount == 0
    {
      this.limit, stored, foundRows, rowCount, fields, sent := limit, [], 0, 0, false, [];
    }

    /** ObScanner::add_row: a row that overflows is rolled back. */
    method AddRow(row: Row) returns (ok: bool)
      modifies `stored
      ensures ok <==> Accepts(old(stored), row, limit)
      ensures ok <==> || Total(old(stored)) + row.size <= limit
                      || (old(stored) == [] && row.size <= 64 * 1024 * 1024)
      ensures ok ==> Bounded(stored, limit)
      ensures stored == if ok then old(stored) + [row] else old(stored)
    {
      TotalStep(stored, row);
      stored := stored + [row];
      ok := true;
      if Total(stored) > limit {
        if |stored| == 1 && Total(stored) <= DEFAULT_MAX_SERIALIZE_SIZE {
        } else {
          stored := stored[..|stored| - 1];
          ok := false;
        }
      }
    }

    /** The first `pos` rows have gone out or are stored. */
    ghost predicate Valid(rows: seq<Row>, pos: nat)
      reads `stored, `rowCount, `fields, `sent
    {
      Streamed(rows, pos, limit, sent, stored) && rowCount == |stored| && (fields <==> sent == [])
    }

    /** flush, and what follows a successful one. */
    method Flush(ghost rows: seq<Row>, ghost pos: nat)
      requires Valid(rows, pos) && foundRows == rowCount && pos < |rows| && !Accepts(stored, rows[pos], limit)
      modifies `stored, `foundRows, `rowCount, `fields, `sent
      ensures Valid(rows, pos) && stored == [] && foundRows == 0
      ensures sent == old(sent) + [Message(old(stored), |old(stored)|, old(fields))]
    {
      FlushStep(rows, pos, limit, sent, stored);
      var m := Message(stored, foundRows, fields);
      sent := sent + [m];
      stored, foundRows, rowCount, fields := [], 0, 0, false;
    }

    method Store(rows: seq<Row>, pos: nat) returns (ok: bool)
      requires Valid(rows, pos) && pos < |rows|
      modifies `stored, `rowCount
      ensures ok <==> Accepts(old(stored), rows[pos], limit)
      ensures Valid(rows, if ok then pos + 1 else pos)
      ensures stored == if ok then old(stored) + [rows[pos]] else old(stored)
    {
      ok := AddRow(rows[pos]);
      if ok {
        UsedStep(rows, pos, limit, sent, old(stored));
        rowCount := rowCount + 1;
      }
    }

    /** One turn of the loop with the cursor on row `pos`. */
    method Turn(rows: seq<Row>, pos: nat, budget: nat) returns (turn: Turned)
      requires Valid(rows, pos) && pos < |rows|
      modifies `stored, `foundRows, `rowCount, `fields, `sent
      ensures Valid(rows, if turn == Used then pos + 1 else pos)
      ensures turn == Used ==> && FitsAlone(rows[pos], limit) && sent == old(sent) && foundRows == old(foundRows)
                               && stored == old(stored) + [rows[pos]]
      ensures turn != Used ==> (FitsAlone(rows[pos], limit) ==> old(stored) != [])
      ensures turn == Flushed ==>
                && stored == [] && foundRows == 0 && |old(sent)| < budget
                && sent == old(sent) + [Message(old(stored), |old(stored)|, old(fields))]
      ensures turn == FlushFailed ==> sent == old(sent) && stored == old(stored) && |sent| >= budget
    {
      var added := Store(rows, pos);
      turn := Used;
      if !added {
        foundRows := rowCount;
        if |sent| >= budget {
          turn := FlushFailed;
        } else {
          Flush(rows, pos);
          turn := Flushed;
        }
      }
    }

    /** How far the loop has come, if all rows fit: every message carries rows. */
    ghost predicate Paced(cursor: nat)
      reads `stored, `sent
    {
      |sent| + |stored| <= cursor && forall m | m in sent :: m.rows != []
    }

    /** The loop over the cursor. */
    method Loop(rows: seq<Row>, nextFails: nat -> bool, rowFails: nat -> bool, budget: nat)
      returns (status: Status, cursor: nat)
      requires Valid(rows, 0) && stored == [] && sent == [] && foundRows == 0
      modifies `stored, `foundRows, `rowCount, `fields, `sent
      ensures Valid(rows, cursor) && status != Ok && (status == IterEnd ==> cursor == |rows| && foundRows == 0)
      ensures forall j | 0 <= j < cursor :: FitsAlone(rows[j], limit)
      ensures AllFit(rows, limit) ==> Paced(cursor)
      ensures Faultless(rows, nextFails, rowFails) && AllFit(rows, limit) && budget >= |rows| ==> status != Error
    {
      ghost var fit := AllFit(rows, limit);
      ghost var good := Faultless(rows, nextFails, rowFails) && fit && budget >= |rows|;
      cursor := 0;
      var turns: nat := 0;
      status := Next(rows, 0, nextFails);
      while status == Ok
        invariant Valid(rows, cursor) && (status == Ok ==> cursor < |rows|) && (status == IterEnd ==> cursor == |rows|)
        invariant status != Error ==> foundRows == 0
        invariant forall j | 0 <= j < cursor :: FitsAlone(rows[j], limit)
        invariant (fit ==> Paced(cursor)) && (good ==> status != Error)
        decreases budget - |sent|, |rows| - cursor, if status == Error then 0 else 1
      {
        turns := turns + 1;
        if rowFails(turns - 1) {
          status := Error;
        } else {
          var turn := Turn(rows, cursor, budget);
          match turn
          case Used =>
            cursor := cursor + 1;
            status := Next(rows, cursor, nextFails);
          case Flushed =>
          case FlushFailed =>
            status := Error;
        }
      }
    }

    /** process_read, from the open cursor on. `nextFails(i)` is the fault of the
        i-th cursor step, `rowFails(i)` that of fetching the row in the i-th turn of
        the loop: a row fetched again after a flush may fail then; `budget` flushes
        succeed. */
    method Run(rows: seq<Row>, nextFails: nat -> bool, rowFails: nat -> bool, budget: nat)
      returns (ok: bool, ghost pos: nat)
      requires stored == [] && sent == []
      modifies this
      ensures ok ==> foundRows == |stored| && AllFit(rows, limit)
      ensures Valid(rows, pos) && (ok ==> pos == |rows|)
      ensures Faultless(rows, nextFails, rowFails) && AllFit(rows, limit) && budget >= |rows| ==> ok
      ensures AllFit(rows, limit) ==> forall m | m in sent :: m.rows != []
    {
      foundRows, rowCount, fields := 0, 0, true;
      var status, cursor := Loop(rows, nextFails, rowFails, budget);
      if status == IterEnd {
        if 0 != rowCount {
          foundRows := rowCount;
        }
      }
      ok, pos := status == IterEnd, cursor;
    }
  }

  datatype Turned = Used | Flushed | FlushFailed

  /** The cursor, moved to row i. */
  function Next(rows: seq<Row>, i: nat, nextFails: nat -> bool): Status {
    if nextFails(i) then Error else if i < |rows| then Ok else IterEnd
  }

  ghost predicate Faultless(rows: seq<Row>, nextFails: nat -> bool, rowFails: nat -> bool) {
    (forall i: nat | i <= |rows| :: !nextFails(i)) && forall i: nat :: !rowFails(i)
  }

  ghost predicate AllFit(rows: seq<Row>, limit: nat) {
    forall i | 0 <= i < |rows| :: FitsAlone(rows[i], limit)
  }
}
