/**
 * The orchestration in main.py: the two load loops that truncate and reload
 * each staging table in foreign-key order, and `main`, which extracts the API
 * data and runs the API loop, re-raising whatever escapes.
 */
module Pipeline {
  import opened Wrappers
  import opened Frames
  import opened Schema
  import opened LoadSpec
  import opened Loader
  import opened Transformer
  import opened ApiExtractor

  /** The flat-file tables, each after every table it references. */
  const CsvLoadOrder: seq<Table> := [
    AreaTb, BatteryTb, DivisionTb, FieldGroupTb, ProducingMethodsTb,
    ProducingStatusTb, RouteTb, StateCountyNamesTb, AcProperty, CompletionTb]

  /** `load_dataframe`'s default number of attempts per batch. */
  const Retries: int := 3

  /** In the CSV order, every table comes after the tables it references. */
  lemma CsvLoadOrderParentsFirst()
    ensures ParentsFirst(CsvLoadOrder)
  {
    var roots := [AreaTb, BatteryTb, DivisionTb, FieldGroupTb, ProducingMethodsTb,
                  ProducingStatusTb, RouteTb, StateCountyNamesTb, AcProperty];
    RootsParentsFirst(roots);
    assert forall p :: p in Parents(CompletionTb) ==> p in roots;
    ParentsFirstSnoc(roots, CompletionTb);
    assert roots + [CompletionTb] == CsvLoadOrder;
  }

  /** The CSV order lists each table once. */
  lemma CsvLoadOrderNoDuplicates()
    ensures NoDuplicates(CsvLoadOrder)
  {
    forall i | 0 <= i < |CsvLoadOrder|
      ensures Ordinal(CsvLoadOrder[i]) == i
    {
    }
  }

  // ---------------------------------------------------------------------------
  // What one table's turn does

  /** The batch size of the API loop: 500 for the table with long text fields, 5000 otherwise. */
  function ApiBatchSize(t: Table): int
  {
    if t == Note then 500 else 5000
  }

  /** The CSV loop passes no batch size: `load_dataframe`'s default. */
  function CsvBatchSize(t: Table): int
  {
    5000
  }

  /** The API loop's preparation of a frame: `clean_column_names`. */
  function ApiPrepare(t: Table, df: Frame): Result<Frame>
  {
    Ok(CleanColumnNames(df))
  }

  /** The CSV loop's preparation: `clean_column_names`, then `transform_completion_data` for the completion table. */
  function CsvPrepare(t: Table, df: Frame): Result<Frame>
  {
    var clean := CleanColumnNames(df);
    if t == CompletionTb then TransformCompletionData(clean) else Ok(clean)
  }

  /**
   * One table's turn in a load loop: prepare the frame (a raise propagates),
   * truncate the table (a failure propagates), then load the frame.
   */
  function Step(tables: map<Table, seq<Record>>, log: seq<Event>, t: Table, df: Frame,
                prepare: (Table, Frame) -> Result<Frame>, batchSize: Table -> int,
                refuses: Table -> bool, connects: Table -> bool, fails: (Table, nat, nat) -> bool): Run
  {
    match prepare(t, df)
    case Raised(exc) => Run(Failed(exc), tables, log)
    case Ok(ready) =>
      if t !in tables || refuses(t) then Run(Failed(TruncateError), tables, log)
      else Loading(TruncateCascade(tables, t), log + [Truncated(t)], ready, t, batchSize(t), Retries, connects, fails)
  }

  /**
   * A load loop over `order`: a table missing from `data` is skipped, the
   * others take their turn, and the first turn that fails ends the loop
   * with its exception.
   */
  function RunOver(order: seq<Table>, data: map<Table, Frame>, prepare: (Table, Frame) -> Result<Frame>, batchSize: Table -> int,
                   tables: map<Table, seq<Record>>, log: seq<Event>, refuses: Table -> bool, connects: Table -> bool, fails: (Table, nat, nat) -> bool): Run
    decreases |order|
  {
    if order == [] then Run(Completed, tables, log)
    else if order[0] !in data then RunOver(order[1..], data, prepare, batchSize, tables, log, refuses, connects, fails)
    else
      var s := Step(tables, log, order[0], data[order[0]], prepare, batchSize, refuses, connects, fails);
      if s.outcome.Failed? then s
      else RunOver(order[1..], data, prepare, batchSize, s.tables, s.log, refuses, connects, fails)
  }

  /** `run_api_pipeline`. */
  function ApiRun(data: map<Table, Frame>, tables: map<Table, seq<Record>>, log: seq<Event>,
                  refuses: Table -> bool, connects: Table -> bool, fails: (Table, nat, nat) -> bool): Run
  {
    RunOver(ApiLoadOrder, data, ApiPrepare, ApiBatchSize, tables, log, refuses, connects, fails)
  }

  /** `run_csv_pipeline`. */
  function CsvRun(data: map<Table, Frame>, tables: map<Table, seq<Record>>, log: seq<Event>,
                  refuses: Table -> bool, connects: Table -> bool, fails: (Table, nat, nat) -> bool): Run
  {
    RunOver(CsvLoadOrder, data, CsvPrepare, CsvBatchSize, tables, log, refuses, connects, fails)
  }

  // ---------------------------------------------------------------------------
  // What a load loop leaves

  /** The rows a table holds right after its own turn: its prepared frame, loaded into the emptied table. */
  function Fresh(t: Table, prepared: Result<Frame>, size: int, fails: (Table, nat, nat) -> bool): seq<Record>
  {
    match prepared
    case Raised(_) => []
    case Ok(df) => if IsEmpty(df) || size <= 0 then [] else LoadRows(t, [], Batches(Records(df), size), 1, Retries, fails)
  }

  /** Some table of `order` that has data truncates `u` through CASCADE. */
  predicate Emptied(order: seq<Table>, data: map<Table, Frame>, u: Table)
  {
    exists t :: t in order && t in data && u in Cascade(t)
  }

  /**
   * One turn leaves every table it does not truncate as it was and drops no
   * table; when it completes, the tables that reference `t` are empty and
   * `t` holds exactly its fresh load.
   */
  lemma StepEffect(tables: map<Table, seq<Record>>, log: seq<Event>, t: Table, df: Frame,
                   prepare: (Table, Frame) -> Result<Frame>, batchSize: Table -> int,
                   refuses: Table -> bool, connects: Table -> bool, fails: (Table, nat, nat) -> bool)
    ensures var s := Step(tables, log, t, df, prepare, batchSize, refuses, connects, fails);
      && s.tables.Keys == tables.Keys
      && (forall u :: u in tables && u !in Cascade(t) ==> s.tables[u] == tables[u])
      && (s.outcome.Completed? ==> t in tables && s.tables[t] == Fresh(t, prepare(t, df), batchSize(t), fails))
      && (s.outcome.Completed? ==> forall u :: u in tables && u in Cascade(t) && u != t ==> s.tables[u] == [])
  {
    TruncateCascadeEffect(tables, t);
  }

  /** No load loop creates or drops a table. */
  lemma {:induction false} RunOverKeys(order: seq<Table>, data: map<Table, Frame>, prepare: (Table, Frame) -> Result<Frame>, batchSize: Table -> int,
                                       tables: map<Table, seq<Record>>, log: seq<Event>, refuses: Table -> bool, connects: Table -> bool, fails: (Table, nat, nat) -> bool)
    ensures RunOver(order, data, prepare, batchSize, tables, log, refuses, connects, fails).tables.Keys == tables.Keys
    decreases |order|
  {
    if order != [] {
      RunOverKeys(order[1..], data, prepare, batchSize, tables, log, refuses, connects, fails);
      if order[0] in data {
        var s := Step(tables, log, order[0], data[order[0]], prepare, batchSize, refuses, connects, fails);
        StepEffect(tables, log, order[0], data[order[0]], prepare, batchSize, refuses, connects, fails);
        RunOverKeys(order[1..], data, prepare, batchSize, s.tables, s.log, refuses, connects, fails);
      }
    }
  }

  /**
   * A load loop with positive batch sizes completes exactly when every table
   * of the order that has data exists, accepts the TRUNCATE, has a frame
   * that prepares without raising and, when that frame is not empty, gets
   * its connection; when it fails, the exception is the TRUNCATE's, the
   * connection's, or the one a preparation raised.
   */
  lemma {:induction false} RunOverCompletes(order: seq<Table>, data: map<Table, Frame>, prepare: (Table, Frame) -> Result<Frame>, batchSize: Table -> int,
                                            tables: map<Table, seq<Record>>, log: seq<Event>, refuses: Table -> bool, connects: Table -> bool, fails: (Table, nat, nat) -> bool)
    requires forall t :: batchSize(t) > 0
    ensures var r := RunOver(order, data, prepare, batchSize, tables, log, refuses, connects, fails);
      r.outcome.Completed? <==> forall t :: t in order && t in data ==>
        t in tables && !refuses(t) && prepare(t, data[t]).Ok? && (IsEmpty(prepare(t, data[t]).value) || connects(t))
    ensures var r := RunOver(order, data, prepare, batchSize, tables, log, refuses, connects, fails);
      r.outcome.Failed? ==>
        r.outcome.exc == TruncateError || r.outcome.exc == ConnectError || exists t :: t in order && t in data && prepare(t, data[t]) == Raised(r.outcome.exc)
    decreases |order|
  {
    if order != [] {
      var t := order[0];
      assert forall u :: u in order <==> u == t || u in order[1..] by {
        assert order == [t] + order[1..];
      }
      if t !in data {
        RunOverCompletes(order[1..], data, prepare, batchSize, tables, log, refuses, connects, fails);
      } else {
        var s := Step(tables, log, t, data[t], prepare, batchSize, refuses, connects, fails);
        StepEffect(tables, log, t, data[t], prepare, batchSize, refuses, connects, fails);
        if s.outcome.Completed? {
          RunOverCompletes(order[1..], data, prepare, batchSize, s.tables, s.log, refuses, connects, fails);
        }
      }
    }
  }

  /**
   * What a load loop over a suffix of a parents-first order leaves: a table
   * that no turn truncates keeps its rows; when the loop completes, a table
   * that took a turn holds exactly its fresh load, because no later turn
   * cascades into it, and a table that only a CASCADE reached is empty.
   */
  lemma {:induction false} RunOverEffect(order: seq<Table>, i: nat, data: map<Table, Frame>, prepare: (Table, Frame) -> Result<Frame>,
                                         batchSize: Table -> int, tables: map<Table, seq<Record>>, log: seq<Event>,
                                         refuses: Table -> bool, connects: Table -> bool, fails: (Table, nat, nat) -> bool)
    requires i <= |order| && ParentsFirst(order) && NoDuplicates(order)
    ensures var r := RunOver(order[i..], data, prepare, batchSize, tables, log, refuses, connects, fails);
      && r.tables.Keys == tables.Keys
      && (forall u :: u in tables && !Emptied(order[i..], data, u) ==> r.tables[u] == tables[u])
      && (r.outcome.Completed? ==> forall u :: u in tables && u in order[i..] && u in data ==>
            r.tables[u] == Fresh(u, prepare(u, data[u]), batchSize(u), fails))
      && (r.outcome.Completed? ==> forall u :: u in tables && Emptied(order[i..], data, u) && !(u in order[i..] && u in data) ==>
            r.tables[u] == [])
    decreases |order| - i
  {
    if i < |order| {
      var t := order[i];
      var suffix, rest := order[i..], order[i + 1..];
      assert suffix[0] == t && suffix[1..] == rest;
      assert forall u :: u in suffix <==> u == t || u in rest by {
        assert suffix == [t] + rest;
      }
      CascadeSparesEarlier(order, i);
      assert t !in rest && !Emptied(rest, data, t) by {
        forall u | u in rest
          ensures u != t && t !in Cascade(u)
        {
          var j :| i + 1 <= j < |order| && order[j] == u;
          CascadeSparesEarlier(order, j);
        }
      }
      if t !in data {
        RunOverEffect(order, i + 1, data, prepare, batchSize, tables, log, refuses, connects, fails);
      } else {
        var s := Step(tables, log, t, data[t], prepare, batchSize, refuses, connects, fails);
        StepEffect(tables, log, t, data[t], prepare, batchSize, refuses, connects, fails);
        if s.outcome.Completed? {
          RunOverEffect(order, i + 1, data, prepare, batchSize, s.tables, s.log, refuses, connects, fails);
        }
      }
    }
  }

  /** A table's fresh load depends on the failed attempts only through which batches commit. */
  lemma FreshSameCommits(t: Table, prepared: Result<Frame>, size: int, fails1: (Table, nat, nat) -> bool, fails2: (Table, nat, nat) -> bool)
    requires forall b: nat :: Committed(t, true, b, Retries, fails1) == Committed(t, true, b, Retries, fails2)
    ensures Fresh(t, prepared, size, fails1) == Fresh(t, prepared, size, fails2)
  {
    if prepared.Ok? && !IsEmpty(prepared.value) && size > 0 {
      LoadRowsSameCommits(t, [], Batches(Records(prepared.value), size), 1, Retries, fails1, fails2);
    }
  }

  /**
   * The loops are idempotent on the data: after a run that completed, a
   * second run with the same data, against a server that refuses no
   * TRUNCATE the first accepted, opens every connection the first opened,
   * and commits the same batches (whatever
   * attempts fail on the way), completes and leaves every table as the first
   * run left it.
   */
  lemma RunOverIdempotent(order: seq<Table>, data: map<Table, Frame>, prepare: (Table, Frame) -> Result<Frame>, batchSize: Table -> int,
                          tables: map<Table, seq<Record>>, log: seq<Event>,
                          refuses1: Table -> bool, connects1: Table -> bool, fails1: (Table, nat, nat) -> bool,
                          refuses2: Table -> bool, connects2: Table -> bool, fails2: (Table, nat, nat) -> bool)
    requires ParentsFirst(order) && NoDuplicates(order) && forall t :: batchSize(t) > 0
    requires forall t :: refuses2(t) ==> refuses1(t)
    requires forall t :: connects1(t) ==> connects2(t)
    requires forall t, b: nat :: Committed(t, true, b, Retries, fails1) == Committed(t, true, b, Retries, fails2)
    ensures var first := RunOver(order, data, prepare, batchSize, tables, log, refuses1, connects1, fails1);
      first.outcome.Completed? ==>
        var second := RunOver(order, data, prepare, batchSize, first.tables, first.log, refuses2, connects2, fails2);
        second.outcome.Completed? && second.tables == first.tables
  {
    var first := RunOver(order, data, prepare, batchSize, tables, log, refuses1, connects1, fails1);
    if first.outcome.Completed? {
      var second := RunOver(order, data, prepare, batchSize, first.tables, first.log, refuses2, connects2, fails2);
      assert order[0..] == order;
      RunOverEffect(order, 0, data, prepare, batchSize, tables, log, refuses1, connects1, fails1);
      RunOverEffect(order, 0, data, prepare, batchSize, first.tables, first.log, refuses2, connects2, fails2);
      RunOverCompletes(order, data, prepare, batchSize, tables, log, refuses1, connects1, fails1);
      RunOverCompletes(order, data, prepare, batchSize, first.tables, first.log, refuses2, connects2, fails2);
      forall u | u in tables && u in order && u in data
        ensures second.tables[u] == first.tables[u]
      {
        FreshSameCommits(u, prepare(u, data[u]), batchSize(u), fails1, fails2);
      }
      assert second.tables == first.tables;
    }
  }

  /** The API load order's cascades stay inside it: a truncation in the API loop never reaches a flat-file table. */
  lemma ApiCascadeWithin(u: Table)
    requires u !in ApiLoadOrder
    ensures forall t :: t in ApiLoadOrder ==> u !in Cascade(t)
  {
  }

  /**
   * Extraction followed by the API loop: after an extraction that succeeds,
   * no table is created or dropped, no flat-file table is touched, and when
   * the loop completes, the table of an endpoint that returned records holds
   * exactly those records, under the endpoint's lower-cased keys, loaded
   * into the emptied table.
   */
  lemma EtlEffect(cache: Option<string>, reply: AuthReply, fetch: Endpoint -> Fetched, columns: Endpoint -> seq<string>,
                  tables: map<Table, seq<Record>>, log: seq<Event>, refuses: Table -> bool, connects: Table -> bool, fails: (Table, nat, nat) -> bool, e: Endpoint)
    ensures var x := Extract(cache, reply, fetch, columns).result;
      x.Ok? ==>
        var r := ApiRun(x.value, tables, log, refuses, connects, fails);
        && r.tables.Keys == tables.Keys
        && (forall u :: u in tables && u !in ApiLoadOrder ==> r.tables[u] == tables[u])
        && (r.outcome.Completed? && EndpointTable(e) in tables && fetch(e).result.Ok? && |fetch(e).result.value| > 0 ==>
              r.tables[EndpointTable(e)]
                == Fresh(EndpointTable(e), Ok(CleanColumnNames(Frame(columns(e), fetch(e).result.value))), ApiBatchSize(EndpointTable(e)), fails))
  {
    var x := Extract(cache, reply, fetch, columns).result;
    if x.Ok? {
      ExtractCollects(cache, reply, fetch, columns);
      ApiLoadOrderParentsFirst();
      ApiLoadOrderNoDuplicates();
      assert ApiLoadOrder[0..] == ApiLoadOrder;
      RunOverEffect(ApiLoadOrder, 0, x.value, ApiPrepare, ApiBatchSize, tables, log, refuses, connects, fails);
      forall u | u in tables && u !in ApiLoadOrder
        ensures !Emptied(ApiLoadOrder, x.value, u)
      {
        ApiCascadeWithin(u);
      }
      InvertedMapUndoes(e);
      LoadOrderIsMapped(EndpointTable(e));
    }
  }

  // ---------------------------------------------------------------------------
  // The loops and main

  /** One table's turn in a load loop, on the loader. */
  method ProcessTable(loader: PostgresLoader, t: Table, df: Frame, prepare: (Table, Frame) -> Result<Frame>, batchSize: Table -> int,
                      refuses: Table -> bool, connects: Table -> bool, fails: (Table, nat, nat) -> bool)
    returns (r: Outcome)
    modifies loader
    ensures Run(r, loader.tables, loader.log) == Step(old(loader.tables), old(loader.log), t, df, prepare, batchSize, refuses, connects, fails)
    ensures old(loader.Valid()) ==> loader.Valid()
  {
    var ready := prepare(t, df);
    if ready.Raised? {
      return Failed(ready.exc);
    }
    r := loader.TruncateTable(t, refuses);
    if r.Failed? {
      return;
    }
    r := loader.LoadDataframe(ready.value, t, batchSize(t), Retries, connects, fails);
  }

  /** A turn of the loop at position `i`: skip, stop on failure, or go on from what the turn leaves. */
  lemma RunOverStep(order: seq<Table>, i: nat, data: map<Table, Frame>, prepare: (Table, Frame) -> Result<Frame>, batchSize: Table -> int,
                    tables: map<Table, seq<Record>>, log: seq<Event>, refuses: Table -> bool, connects: Table -> bool, fails: (Table, nat, nat) -> bool)
    requires i < |order|
    ensures order[i] !in data ==>
      RunOver(order[i..], data, prepare, batchSize, tables, log, refuses, connects, fails)
        == RunOver(order[i + 1..], data, prepare, batchSize, tables, log, refuses, connects, fails)
    ensures order[i] in data ==>
      var s := Step(tables, log, order[i], data[order[i]], prepare, batchSize, refuses, connects, fails);
      RunOver(order[i..], data, prepare, batchSize, tables, log, refuses, connects, fails)
        == if s.outcome.Failed? then s else RunOver(order[i + 1..], data, prepare, batchSize, s.tables, s.log, refuses, connects, fails)
  {
    assert order[i..][1..] == order[i + 1..];
  }

  /**
   * The loop shared by `run_api_pipeline` and `run_csv_pipeline`: each table
   * of `order` that has data takes its turn, and a raise propagates.
   */
  method LoadInOrder(loader: PostgresLoader, order: seq<Table>, data: map<Table, Frame>, prepare: (Table, Frame) -> Result<Frame>,
                     batchSize: Table -> int, refuses: Table -> bool, connects: Table -> bool, fails: (Table, nat, nat) -> bool)
    returns (r: Outcome)
    modifies loader
    ensures Run(r, loader.tables, loader.log) == RunOver(order, data, prepare, batchSize, old(loader.tables), old(loader.log), refuses, connects, fails)
    ensures old(loader.Valid()) ==> loader.Valid()
  {
    ghost var final := RunOver(order, data, prepare, batchSize, loader.tables, loader.log, refuses, connects, fails);
    assert order[0..] == order;
    for i := 0 to |order|
      invariant RunOver(order[i..], data, prepare, batchSize, loader.tables, loader.log, refuses, connects, fails) == final
      invariant old(loader.Valid()) ==> loader.Valid()
    {
      var t := order[i];
      RunOverStep(order, i, data, prepare, batchSize, loader.tables, loader.log, refuses, connects, fails);
      if t !in data {
        continue;
      }
      r := ProcessTable(loader, t, data[t], prepare, batchSize, refuses, connects, fails);
      if r.Failed? {
        return;
      }
    }
    r := Completed;
  }

  /** `run_api_pipeline`: each extracted API table, in load order, truncated and reloaded. */
  method RunApiPipeline(loader: PostgresLoader, data: map<Table, Frame>, refuses: Table -> bool, connects: Table -> bool, fails: (Table, nat, nat) -> bool)
    returns (r: Outcome)
    modifies loader
    ensures Run(r, loader.tables, loader.log) == ApiRun(data, old(loader.tables), old(loader.log), refuses, connects, fails)
    ensures old(loader.Valid()) ==> loader.Valid()
  {
    r := LoadInOrder(loader, ApiLoadOrder, data, ApiPrepare, ApiBatchSize, refuses, connects, fails);
  }

  /** `run_csv_pipeline`: each extracted flat-file table, in load order, truncated and reloaded. */
  method RunCsvPipeline(loader: PostgresLoader, data: map<Table, Frame>, refuses: Table -> bool, connects: Table -> bool, fails: (Table, nat, nat) -> bool)
    returns (r: Outcome)
    modifies loader
    ensures Run(r, loader.tables, loader.log) == CsvRun(data, old(loader.tables), old(loader.log), refuses, connects, fails)
    ensures old(loader.Valid()) ==> loader.Valid()
  {
    r := LoadInOrder(loader, CsvLoadOrder, data, CsvPrepare, CsvBatchSize, refuses, connects, fails);
  }

  /**
   * `main`: extract the API data, then run the API loop; an exception from
   * either is re-raised unchanged, and an extraction that raises leaves the
   * database untouched.
   */
  method RunEtl(extractor: ApiExtractor, loader: PostgresLoader, reply: AuthReply, respond: (Endpoint, nat) -> Response,
                columns: Endpoint -> seq<string>, ghost limit: nat, ghost fetch: Endpoint -> Fetched,
                refuses: Table -> bool, connects: Table -> bool, fails: (Table, nat, nat) -> bool)
    returns (r: Outcome)
    requires Produces(fetch, respond, limit)
    modifies extractor, loader
    ensures var x := Resumed(old(extractor.sent), Extract(old(extractor.accessToken), reply, fetch, columns));
      && extractor.accessToken == x.cache && extractor.sent == x.sent
      && (x.result.Raised? ==> r == Failed(x.result.exc) && loader.tables == old(loader.tables) && loader.log == old(loader.log))
      && (x.result.Ok? ==> Run(r, loader.tables, loader.log) == ApiRun(x.result.value, old(loader.tables), old(loader.log), refuses, connects, fails))
    ensures old(loader.Valid()) ==> loader.Valid()
  {
    var apiData := extractor.ExtractAll(reply, respond, columns, limit, fetch);
    if apiData.Raised? {
      return Failed(apiData.exc);
    }
    r := RunApiPipeline(loader, apiData.value, refuses, connects, fails);
  }
}
