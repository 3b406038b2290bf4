/** Usage rows and the in-memory sink's semantics (internal/harvester/sink.go). */
module Sink {
  import opened Wrappers

  /** month is the row timestamp's "2006-01" label; the descriptive columns play no part in the accounting. */
  datatype Row = Row(reqId: string, keyId: string, month: string, promptTokens: int, completionTokens: int, cachedTokens: int)
  {
    function TotalTokens(): int {
      promptTokens + completionTokens
    }
  }

  function Ids(rows: seq<Row>): set<string> {
    set i | 0 <= i < |rows| :: rows[i].reqId
  }

  ghost predicate DistinctIds(rows: seq<Row>) {
    forall i, j :: 0 <= i < j < |rows| ==> rows[i].reqId != rows[j].reqId
  }

  /** The first occurrence of every request id, in order. */
  function Dedup(rows: seq<Row>): seq<Row> {
    if rows == [] then []
    else
      var n := |rows| - 1;
      Dedup(rows[..n]) + if rows[n].reqId in Ids(rows[..n]) then [] else [rows[n]]
  }

  /** The sink after a committed batch: what was stored, then the first of each new request id. */
  function Inserted(stored: seq<Row>, rows: seq<Row>): seq<Row> {
    if rows == [] then stored
    else
      var n := |rows| - 1;
      var before := Inserted(stored, rows[..n]);
      if rows[n].reqId in Ids(before) then before else before + [rows[n]]
  }

  lemma {:induction false} DedupKeepsIds(rows: seq<Row>)
    ensures Ids(Dedup(rows)) == Ids(rows) && DistinctIds(Dedup(rows))
    ensures forall r :: r in Dedup(rows) ==> r in rows
  {
    if rows != [] {
      var n := |rows| - 1;
      DedupKeepsIds(rows[..n]);
      IdsOfAppend(rows[..n], rows[n]);
      IdsOfAppend(Dedup(rows[..n]), rows[n]);
      assert rows[..n] + [rows[n]] == rows;
    }
  }

  /** Of several rows with one id it is the first that is kept. */
  lemma {:induction false} DedupKeepsFirsts(rows: seq<Row>, i: nat)
    requires i < |rows| && forall j :: 0 <= j < i ==> rows[j].reqId != rows[i].reqId
    ensures rows[i] in Dedup(rows)
  {
    var n := |rows| - 1;
    if i < n {
      DedupKeepsFirsts(rows[..n], i);
    }
  }

  lemma IdsOfAppend(rows: seq<Row>, r: Row)
    ensures Ids(rows + [r]) == Ids(rows) + {r.reqId}
  {
    assert forall i :: 0 <= i < |rows| ==> (rows + [r])[i] == rows[i];
    assert (rows + [r])[|rows|] == r;
  }

  lemma InsertedOne(before: seq<Row>, rows: seq<Row>, r: Row)
    ensures Ids(rows + [r]) == Ids(rows) + {r.reqId} && Ids(before + [r]) == Ids(before) + {r.reqId}
    ensures r.reqId !in Ids(before) && DistinctIds(before) ==> DistinctIds(before + [r])
    ensures forall s :: s in before + [r] <==> s in before || s == r
    ensures forall s :: s in rows + [r] <==> s in rows || s == r
  {
    IdsOfAppend(rows, r);
    IdsOfAppend(before, r);
  }

  /** A committed batch adds exactly its ids, never a second row for one id, and keeps what was there. */
  lemma {:induction false} InsertedProperties(stored: seq<Row>, rows: seq<Row>)
    ensures Ids(Inserted(stored, rows)) == Ids(stored) + Ids(rows)
    ensures DistinctIds(stored) ==> DistinctIds(Inserted(stored, rows))
    ensures stored <= Inserted(stored, rows)
    ensures forall r :: r in Inserted(stored, rows) ==> r in stored || r in rows
  {
    if rows != [] {
      hide Ids, DistinctIds;
      var n := |rows| - 1;
      InsertedProperties(stored, rows[..n]);
      assert rows[..n] + [rows[n]] == rows;
      InsertedOne(Inserted(stored, rows[..n]), rows[..n], rows[n]);
    }
  }

  function Matching(r: Row, keyId: string, month: string): int {
    if r.keyId == keyId && r.month == month then r.TotalTokens() else 0
  }

  function MonthToDate(rows: seq<Row>, keyId: string, month: string): int {
    if rows == [] then 0
    else MonthToDate(rows[..|rows| - 1], keyId, month) + Matching(rows[|rows| - 1], keyId, month)
  }

  /** Prompt tokens alone, of one key in one month. */
  function PromptTokens(rows: seq<Row>, keyId: string, month: string): int {
    if rows == [] then 0
    else
      var r := rows[|rows| - 1];
      PromptTokens(rows[..|rows| - 1], keyId, month) + if r.keyId == keyId && r.month == month then r.promptTokens else 0
  }

  function CompletionTokens(rows: seq<Row>, keyId: string, month: string): int {
    if rows == [] then 0
    else
      var r := rows[|rows| - 1];
      CompletionTokens(rows[..|rows| - 1], keyId, month) + if r.keyId == keyId && r.month == month then r.completionTokens else 0
  }

  /** The month's total is its prompt tokens and its completion tokens; cached ones are not counted again. */
  lemma {:induction false} MonthToDateIsPromptAndCompletion(rows: seq<Row>, keyId: string, month: string)
    ensures MonthToDate(rows, keyId, month) == PromptTokens(rows, keyId, month) + CompletionTokens(rows, keyId, month)
  {
    if rows != [] {
      MonthToDateIsPromptAndCompletion(rows[..|rows| - 1], keyId, month);
    }
  }

  /** Each request's own contribution, summed over a set of requests, each counted once. */
  ghost function TotalOver(ids: set<string>, payload: string -> Row, keyId: string, month: string): int {
    if ids == {} then 0
    else
      var id :| id in ids;
      TotalOver(ids - {id}, payload, keyId, month) + Matching(payload(id), keyId, month)
  }

  /** The set total does not depend on which request is taken out first. */
  lemma {:induction false} TotalOverTakesAny(ids: set<string>, id: string, payload: string -> Row, keyId: string, month: string)
    requires id in ids
    ensures TotalOver(ids, payload, keyId, month) ==
            TotalOver(ids - {id}, payload, keyId, month) + Matching(payload(id), keyId, month)
    decreases ids
  {
    var picked :| picked in ids &&
      TotalOver(ids, payload, keyId, month) ==
      TotalOver(ids - {picked}, payload, keyId, month) + Matching(payload(picked), keyId, month);
    if picked != id {
      TotalOverTakesAny(ids - {picked}, id, payload, keyId, month);
      TotalOverTakesAny(ids - {id}, picked, payload, keyId, month);
      assert ids - {picked} - {id} == ids - {id} - {picked};
    }
  }

  /** With one row per request, MonthToDate is the total over the distinct requests stored. */
  lemma {:induction false} MonthToDateCountsEachRequestOnce(rows: seq<Row>, payload: string -> Row, keyId: string, month: string)
    requires DistinctIds(rows)
    requires forall r :: r in rows ==> r == payload(r.reqId)
    ensures MonthToDate(rows, keyId, month) == TotalOver(Ids(rows), payload, keyId, month)
  {
    if rows != [] {
      var n := |rows| - 1;
      var init, last := rows[..n], rows[n];
      MonthToDateCountsEachRequestOnce(init, payload, keyId, month);
      assert init + [last] == rows;
      IdsOfAppend(init, last);
      assert last.reqId !in Ids(init);
      assert Ids(rows) - {last.reqId} == Ids(init);
      assert last in rows;
      TotalOverTakesAny(Ids(rows), last.reqId, payload, keyId, month);
    }
  }

  /** How an InsertBatch call goes; a failure may be reported after the rows were committed. */
  datatype InsertOutcome = Committed | FailedBefore | FailedAfterCommit

  class FakeSink {
    var rows: seq<Row>

    constructor ()
      ensures rows == []
    {
      rows := [];
    }

    method InsertBatch(batch: seq<Row>, outcome: InsertOutcome) returns (ok: bool)
      modifies this
      ensures ok == outcome.Committed?
      ensures rows == if outcome.FailedBefore? then old(rows) else Inserted(old(rows), batch)
    {
      if outcome.FailedBefore? {
        return false;
      }
      var seen: set<string> := {};
      for i := 0 to |rows|
        invariant rows == old(rows) && seen == Ids(rows[..i])
      {
        IdsOfAppend(rows[..i], rows[i]);
        assert rows[..i + 1] == rows[..i] + [rows[i]];
        seen := seen + {rows[i].reqId};
      }
      assert rows[..|rows|] == rows;
      for i := 0 to |batch|
        invariant rows == Inserted(old(rows), batch[..i]) && seen == Ids(rows)
      {
        assert batch[..i + 1][..i] == batch[..i];
        if batch[i].reqId !in seen {
          IdsOfAppend(rows, batch[i]);
          rows := rows + [batch[i]];
          seen := seen + {batch[i].reqId};
        }
      }
      assert batch[..|batch|] == batch;
      ok := outcome.Committed?;
    }

    /** fails is the error a test may have injected. */
    method QueryMonthToDate(keyId: string, month: string, fails: bool) returns (answer: Option<int>)
      ensures answer == if fails then None else Some(MonthToDate(rows, keyId, month))
    {
      if fails {
        return None;
      }
      var total := 0;
      for i := 0 to |rows|
        invariant total == MonthToDate(rows[..i], keyId, month)
      {
        assert rows[..i + 1][..i] == rows[..i];
        if rows[i].keyId == keyId {
          if rows[i].month == month {
            total := total + rows[i].TotalTokens();
          }
        }
      }
      assert rows[..|rows|] == rows;
      answer := Some(total);
    }
  }
}
