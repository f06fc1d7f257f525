module Loader {
  import opened Wrappers
  import opened Frames
  import opened Schema
  import opened LoadSpec

  class PostgresLoader {
    /** The tables that exist in the staging schema, with their rows. */
    var tables: map<Table, seq<Record>>
    ghost var log: seq<Event>

    /** Every table satisfies its primary key and its unique indexes. */
    ghost predicate Valid()
      reads this
    {
      AllKeysUnique(tables)
    }

    constructor (tables: map<Table, seq<Record>>)
      ensures this.tables == tables && log == []
    {
      this.tables := tables;
      log := [];
    }

    /**
     * `truncate_table`: empties the table and, through CASCADE, every table
     * that references it, directly or transitively. The statement fails, and
     * is re-raised, when the table does not exist or the server refuses it.
     */
    method TruncateTable(t: Table, refuses: Table -> bool) returns (r: Outcome)
      modifies this
      ensures r.Failed? <==> t !in old(tables) || refuses(t)
      ensures r.Failed? ==> r.exc == TruncateError && tables == old(tables) && log == old(log)
      ensures r.Completed? ==> tables == TruncateCascade(old(tables), t) && log == old(log) + [Truncated(t)]
      ensures old(Valid()) ==> Valid()
    {
      if t !in tables || refuses(t) {
        r := Failed(TruncateError);
      } else {
        if Valid() {
          TruncateKeepsKeysUnique(tables, t);
        }
        tables := TruncateCascade(tables, t);
        log := log + [Truncated(t)];
        r := Completed;
      }
    }

    /**
     * `load_dataframe`: an empty frame is skipped. Otherwise the rows are cut
     * into batches of `batchSize`; each batch gets up to `retries` attempts,
     * each in its own transaction, with a wait before every retry; a batch
     * that runs out of attempts is skipped and the load goes on. A batch size
     * of zero raises ZeroDivisionError when the batch count is computed. The
     * one connection for the batch loop is opened outside the retry loop, so
     * a failure to open it (`connects(t)` false) propagates before any
     * batch. A negative batch size yields no batches.
     */
    method LoadDataframe(df: Frame, t: Table, batchSize: int, retries: int, connects: Table -> bool, fails: (Table, nat, nat) -> bool)
      returns (r: Outcome)
      modifies this
      ensures Run(r, tables, log) == Loading(old(tables), old(log), df, t, batchSize, retries, connects, fails)
      ensures old(Valid()) ==> Valid()
    {
      if IsEmpty(df) {
        return Completed;
      }
      if batchSize == 0 {
        return Failed(ZeroDivisionError);
      }
      if !connects(t) {
        return Failed(ConnectError);
      }
      r := Completed;
      if batchSize < 0 {
        return;
      }
      var records := Records(df);
      ghost var present := t in tables;
      ghost var rows0 := if present then tables[t] else [];
      InsertBatches(t, records, batchSize, retries, fails);
      LoadFromIsLoadRows(t, rows0, records, 0, batchSize, 1, retries, fails);
      assert records[0..] == records;
      if old(Valid()) {
        LoadingKeepsKeysUnique(old(tables), old(log), df, t, batchSize, retries, connects, fails);
      }
    }

    /**
     * The batch loop: `records[i:i + batchSize]` for `i` in steps of
     * `batchSize`, batch number `i // batchSize + 1`, each handed to the retry
     * loop.
     */
    method InsertBatches(t: Table, records: seq<Record>, batchSize: nat, retries: int, fails: (Table, nat, nat) -> bool)
      requires batchSize > 0
      modifies this
      ensures log == old(log) + LoadEvents(t, t in old(tables), NumBatches(|records|, batchSize), 1, retries, fails)
      ensures tables == LoadTablesFrom(old(tables), t, records, 0, batchSize, 1, retries, fails)
    {
      ghost var final := LoadTablesFrom(tables, t, records, 0, batchSize, 1, retries, fails);
      var total := |records|;
      var i: nat := 0;
      ghost var k: nat := 0;
      while i < total
        invariant AtBatch(i, k, batchSize, total)
        invariant LoadTablesFrom(tables, t, records, i, batchSize, k + 1, retries, fails) == final
        invariant log == old(log) + LoadEvents(t, t in final, k, 1, retries, fails)
        decreases total - i
      {
        NextBatch(t, records, i, batchSize, k, retries, fails, final, old(log));
        i := i + batchSize;
        k := k + 1;
      }
      NumBatchesAt(total, batchSize, k);
      LoadTablesFromDone(tables, t, records, i, batchSize, k + 1, retries, fails);
    }

    /** One pass of the batch loop, seen from the whole load: what is left to load shrinks by one batch. */
    method NextBatch(t: Table, records: seq<Record>, i: nat, batchSize: nat, ghost k: nat, retries: int, fails: (Table, nat, nat) -> bool,
                     ghost final: map<Table, seq<Record>>, ghost log0: seq<Event>)
      requires batchSize > 0 && i < |records| && i == Offset(k, batchSize)
      requires LoadTablesFrom(tables, t, records, i, batchSize, k + 1, retries, fails) == final
      requires log == log0 + LoadEvents(t, t in final, k, 1, retries, fails)
      modifies this
      ensures LoadTablesFrom(tables, t, records, i + batchSize, batchSize, k + 2, retries, fails) == final
      ensures log == log0 + LoadEvents(t, t in final, k + 1, 1, retries, fails)
      ensures AtBatch(i + batchSize, k + 1, batchSize, |records|)
    {
      ghost var before := tables;
      LoadBatchAt(t, records, i, batchSize, k, retries, fails);
      LoadTablesFromStep(before, t, records, i, batchSize, k + 1, retries, fails);
      AppendAssoc(log0, LoadEvents(t, t in final, k, 1, retries, fails), RetryEvents(t, t in final, k + 1, 0, retries, fails));
    }

    /**
     * One pass of the batch loop: slice the batch at offset `i`, number it
     * `i // batchSize + 1`, and run the retry loop on it.
     */
    method LoadBatchAt(t: Table, records: seq<Record>, i: nat, batchSize: nat, ghost k: nat, retries: int, fails: (Table, nat, nat) -> bool)
      requires batchSize > 0 && i < |records| && i == Offset(k, batchSize)
      modifies this
      ensures log == old(log) + RetryEvents(t, t in old(tables), k + 1, 0, retries, fails)
      ensures tables == BatchStep(old(tables), t, records, i, batchSize, k + 1, retries, fails)
    {
      var batch := records[i..Min(i + batchSize, |records|)];
      var batchNum := i / batchSize + 1;
      assert batchNum == k + 1 by {
        OffsetDiv(k, batchSize);
      }
      InsertBatch(t, batch, batchNum, retries, fails);
    }

    /**
     * The retry loop for one batch: `for attempt in range(retries)`, each
     * attempt one transaction, `break` on the first commit, and a wait after
     * every failed attempt but the last.
     */
    method InsertBatch(t: Table, batch: seq<Record>, batchNum: nat, retries: int, fails: (Table, nat, nat) -> bool)
      modifies this
      ensures log == old(log) + RetryEvents(t, t in old(tables), batchNum, 0, retries, fails)
      ensures t in old(tables) ==> tables == old(tables)[t := LoadStep(t, old(tables)[t], batch, batchNum, retries, fails)]
      ensures t !in old(tables) ==> tables == old(tables)
    {
      ghost var present := t in tables;
      var attempt := 0;
      while attempt < retries
        invariant 0 <= attempt
        invariant log + RetryEvents(t, present, batchNum, attempt, retries, fails) == old(log) + RetryEvents(t, present, batchNum, 0, retries, fails)
        invariant forall a: nat :: a < attempt ==> !(present && !fails(t, batchNum, a))
        invariant tables == old(tables)
        decreases retries - attempt
      {
        ghost var before, rest := log, RetryEvents(t, present, batchNum, attempt + 1, retries, fails);
        // One transaction: it commits, or it rolls back and leaves the table as it was.
        if t in tables && !fails(t, batchNum, attempt) {
          tables := tables[t := InsertIgnoring(tables[t], batch, UniqueColumns(t))];
          log := log + [Attempt(t, batchNum, attempt, true)];
          return;
        }
        log := log + [Attempt(t, batchNum, attempt, false)];
        if attempt < retries - 1 {
          log := log + [Wait];
          AppendAssoc(before, [Attempt(t, batchNum, attempt, false)], [Wait]);
        }
        ghost var step := [Attempt(t, batchNum, attempt, false)] + (if attempt < retries - 1 then [Wait] else []);
        assert log == before + step;
        AppendAssoc(before, step, rest);
        attempt := attempt + 1;
      }
    }
  }
}
