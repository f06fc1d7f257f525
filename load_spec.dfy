/**
 * The PostgreSQL loader: TRUNCATE ... CASCADE, and a batched insert with
 * per-batch retries whose INSERT skips every row that conflicts with a stored
 * row on the primary key or a unique index (ON CONFLICT DO NOTHING).
 *
 * The database is a map from each existing table to its stored records. A
 * transaction is all-or-nothing: a failed statement changes nothing. Whether
 * the server accepts a statement is decided by oracle parameters. A ghost
 * event log records truncations, insert attempts and the waits between
 * attempts.
 */
module LoadSpec {
  import opened Wrappers
  import opened Frames
  import opened Schema

  /** A stored row: the column names it was inserted under, and its values. */
  datatype Record = Record(columns: seq<string>, values: Row)

  /** What the loader did, in order. `Wait` stands for the two-second sleep before a retry. */
  datatype Event =
    | Truncated(table: Table)
    | Attempt(table: Table, batch: nat, attempt: nat, committed: bool)
    | Wait

  /** The position of the first occurrence of `c` in `cols`. */
  function IndexOf(cols: seq<string>, c: string): (r: Option<nat>)
    ensures r.Some? ==> r.value < |cols| && cols[r.value] == c
    ensures r.None? <==> c !in cols
  {
    if |cols| == 0 then None
    else if cols[0] == c then Some(0)
    else match IndexOf(cols[1..], c)
      case None => None
      case Some(i) => Some(i + 1)
  }

  /**
   * The record's values for the key columns `key`, in key order. None when a
   * key column is not among the record's columns (the database then generates
   * the value itself) or holds NULL: such a row never conflicts on that key,
   * since NULLs are distinct in a unique index.
   */
  function KeyOf(rec: Record, key: seq<string>): (r: Option<seq<Value>>)
    ensures r.Some? ==> |r.value| == |key|
  {
    if |key| == 0 then Some([])
    else match IndexOf(rec.columns, key[0])
      case None => None
      case Some(i) =>
        if i >= |rec.values| || rec.values[i] == Null then None
        else match KeyOf(rec, key[1..])
          case None => None
          case Some(rest) => Some([rec.values[i]] + rest)
  }

  /** A column the record supplies a non-NULL value for. */
  predicate Supplies(rec: Record, c: string)
  {
    IndexOf(rec.columns, c).Some? && IndexOf(rec.columns, c).value < |rec.values|
    && rec.values[IndexOf(rec.columns, c).value] != Null
  }

  /**
   * A record has a key exactly when it supplies every key column, and the key
   * is then the record's value under each key column, in key order.
   */
  lemma {:induction false} KeyOfSupplied(rec: Record, key: seq<string>)
    ensures KeyOf(rec, key).Some? <==> forall c :: c in key ==> Supplies(rec, c)
    ensures KeyOf(rec, key).Some? ==> forall j :: 0 <= j < |key| ==>
      Supplies(rec, key[j]) && KeyOf(rec, key).value[j] == rec.values[IndexOf(rec.columns, key[j]).value]
    decreases |key|
  {
    if |key| > 0 {
      KeyOfSupplied(rec, key[1..]);
      assert forall c :: c in key <==> c == key[0] || c in key[1..];
      if forall c :: c in key ==> Supplies(rec, c) {
        assert key[0] in key;
        assert forall c :: c in key[1..] ==> Supplies(rec, c);
      }
      if KeyOf(rec, key).Some? {
        assert Supplies(rec, key[0]);
        var r := KeyOf(rec, key).value;
        forall j | 0 <= j < |key|
          ensures Supplies(rec, key[j]) && r[j] == rec.values[IndexOf(rec.columns, key[j]).value]
        {
          if j > 0 {
            assert key[j] == key[1..][j - 1];
          }
        }
      }
    }
  }

  /** The set of keys present among `rows`. */
  function Keys(rows: seq<Record>, key: seq<string>): (r: set<seq<Value>>)
    ensures forall j :: 0 <= j < |rows| && KeyOf(rows[j], key).Some? ==> KeyOf(rows[j], key).value in r
    ensures forall k :: k in r ==> exists j :: 0 <= j < |rows| && KeyOf(rows[j], key) == Some(k)
  {
    set j | 0 <= j < |rows| && KeyOf(rows[j], key).Some? :: KeyOf(rows[j], key).value
  }

  /** No two rows share a key: one unique constraint holds. */
  predicate UniqueKeys(rows: seq<Record>, key: seq<string>)
  {
    forall i, j :: 0 <= i < j < |rows| && KeyOf(rows[i], key).Some? ==> KeyOf(rows[i], key) != KeyOf(rows[j], key)
  }

  /** Every unique constraint among `keys` holds. */
  predicate Constrained(rows: seq<Record>, keys: seq<seq<string>>)
  {
    forall i :: 0 <= i < |keys| ==> UniqueKeys(rows, keys[i])
  }

  /**
   * The record conflicts with `rows` (what `ON CONFLICT` without a target
   * looks for): under one of the unique constraints `keys` the record has a
   * key, and some row already holds it.
   */
  predicate Clashes(rows: seq<Record>, rec: Record, keys: seq<seq<string>>)
  {
    exists i :: 0 <= i < |keys| && KeyOf(rec, keys[i]).Some? && KeyOf(rec, keys[i]).value in Keys(rows, keys[i])
  }

  /** The row is inserted unless it conflicts with a row already in the table. */
  function InsertOne(rows: seq<Record>, rec: Record, keys: seq<seq<string>>): seq<Record>
  {
    if Clashes(rows, rec, keys) then rows else rows + [rec]
  }

  /**
   * `INSERT ... VALUES ... ON CONFLICT DO NOTHING` of a whole batch: rows are
   * taken in order, and a row is skipped when it conflicts on any unique
   * constraint, including with a row an earlier row of the same batch has just
   * inserted.
   */
  function InsertIgnoring(rows: seq<Record>, batch: seq<Record>, keys: seq<seq<string>>): seq<Record>
    decreases |batch|
  {
    if |batch| == 0 then rows
    else InsertIgnoring(InsertOne(rows, batch[0], keys), batch[1..], keys)
  }

  /** The insert only appends: the old rows stay in place, and every new row comes from the batch. */
  lemma {:induction false} InsertIgnoringAppends(rows: seq<Record>, batch: seq<Record>, keys: seq<seq<string>>)
    ensures var r := InsertIgnoring(rows, batch, keys);
      |rows| <= |r| <= |rows| + |batch| && r[..|rows|] == rows && forall k :: |rows| <= k < |r| ==> r[k] in batch
    decreases |batch|
  {
    if |batch| > 0 {
      var next := InsertOne(rows, batch[0], keys);
      InsertIgnoringAppends(next, batch[1..], keys);
      var r := InsertIgnoring(next, batch[1..], keys);
      assert r[..|rows|] == next[..|next|][..|rows|];
      forall k | |rows| <= k < |r| ensures r[k] in batch {
        if k < |next| {
          assert r[k] == next[k] == batch[0];
        } else {
          assert r[k] in batch[1..];
        }
      }
    }
  }

  lemma KeysConcat(a: seq<Record>, b: seq<Record>, key: seq<string>)
    ensures Keys(a + b, key) == Keys(a, key) + Keys(b, key)
  {
    var ab := a + b;
    forall k | k in Keys(a, key) + Keys(b, key) ensures k in Keys(ab, key) {
      if k in Keys(a, key) {
        var j :| 0 <= j < |a| && KeyOf(a[j], key) == Some(k);
        assert ab[j] == a[j];
      } else {
        var j :| 0 <= j < |b| && KeyOf(b[j], key) == Some(k);
        assert ab[|a| + j] == b[j];
      }
    }
    forall k | k in Keys(ab, key) ensures k in Keys(a, key) + Keys(b, key) {
      var j :| 0 <= j < |ab| && KeyOf(ab[j], key) == Some(k);
      if j < |a| {
        assert ab[j] == a[j];
      } else {
        assert ab[j] == b[j - |a|];
      }
    }
  }

  /** Rows drawn from `b` hold only keys of `b`. */
  lemma KeysOfMembers(a: seq<Record>, b: seq<Record>, key: seq<string>)
    requires forall j :: 0 <= j < |a| ==> a[j] in b
    ensures Keys(a, key) <= Keys(b, key)
  {
    forall k | k in Keys(a, key) ensures k in Keys(b, key) {
      var j :| 0 <= j < |a| && KeyOf(a[j], key) == Some(k);
      var m :| 0 <= m < |b| && b[m] == a[j];
    }
  }

  /** A table that only grew at its end keeps every key, so whatever clashed with it still does. */
  lemma GrownKeepsClashes(rows: seq<Record>, r: seq<Record>, keys: seq<seq<string>>)
    requires |rows| <= |r| && r[..|rows|] == rows
    ensures forall key :: Keys(rows, key) <= Keys(r, key)
    ensures forall rec :: Clashes(rows, rec, keys) ==> Clashes(r, rec, keys)
  {
    assert r == rows + r[|rows|..];
    forall key ensures Keys(rows, key) <= Keys(r, key) {
      KeysConcat(rows, r[|rows|..], key);
    }
  }

  /**
   * Under any column list, the table keeps every key it held and gains only
   * keys of the batch.
   */
  lemma InsertIgnoringKeys(rows: seq<Record>, batch: seq<Record>, keys: seq<seq<string>>, key: seq<string>)
    ensures Keys(rows, key) <= Keys(InsertIgnoring(rows, batch, keys), key) <= Keys(rows, key) + Keys(batch, key)
  {
    var r := InsertIgnoring(rows, batch, keys);
    InsertIgnoringAppends(rows, batch, keys);
    var tail := r[|rows|..];
    assert r == rows + tail;
    KeysConcat(rows, tail, key);
    forall j | 0 <= j < |tail| ensures tail[j] in batch {
      assert tail[j] == r[|rows| + j];
    }
    KeysOfMembers(tail, batch, key);
  }

  /**
   * Every batch row ends up in the table or conflicts with a row of it: a row
   * is skipped only on a conflict.
   */
  lemma {:induction false} InsertIgnoringCovers(rows: seq<Record>, batch: seq<Record>, keys: seq<seq<string>>)
    ensures forall b :: b in batch ==> b in InsertIgnoring(rows, batch, keys) || Clashes(InsertIgnoring(rows, batch, keys), b, keys)
    decreases |batch|
  {
    if |batch| > 0 {
      var next := InsertOne(rows, batch[0], keys);
      var r := InsertIgnoring(next, batch[1..], keys);
      InsertIgnoringCovers(next, batch[1..], keys);
      InsertIgnoringAppends(next, batch[1..], keys);
      GrownKeepsClashes(rows, next, keys);
      GrownKeepsClashes(next, r, keys);
      if !Clashes(rows, batch[0], keys) {
        assert next[|rows|] == batch[0];
        assert r[|rows|] == next[|rows|];
      }
      forall b | b in batch ensures b in r || Clashes(r, b, keys) {
        if b != batch[0] {
          assert b in batch[1..];
        }
      }
    }
  }

  /** Appending a row whose key is new keeps the constraint on that key. */
  lemma AppendKeepsUnique(rows: seq<Record>, rec: Record, key: seq<string>)
    requires UniqueKeys(rows, key)
    requires KeyOf(rec, key).Some? ==> KeyOf(rec, key).value !in Keys(rows, key)
    ensures UniqueKeys(rows + [rec], key)
  {
    var next := rows + [rec];
    forall i, j | 0 <= i < j < |next| && KeyOf(next[i], key).Some?
      ensures KeyOf(next[i], key) != KeyOf(next[j], key)
    {
      assert next[i] == rows[i];
      if j == |rows| {
        assert KeyOf(rows[i], key).value in Keys(rows, key);
      } else {
        assert next[j] == rows[j];
      }
    }
  }

  /** The insert never breaks a unique constraint: neither the primary key nor a unique index. */
  lemma {:induction false} InsertIgnoringKeepsKeysUnique(rows: seq<Record>, batch: seq<Record>, keys: seq<seq<string>>)
    requires Constrained(rows, keys)
    ensures Constrained(InsertIgnoring(rows, batch, keys), keys)
    decreases |batch|
  {
    if |batch| > 0 {
      var next := InsertOne(rows, batch[0], keys);
      if !Clashes(rows, batch[0], keys) {
        forall i | 0 <= i < |keys| ensures UniqueKeys(next, keys[i]) {
          AppendKeepsUnique(rows, batch[0], keys[i]);
        }
      }
      InsertIgnoringKeepsKeysUnique(next, batch[1..], keys);
    }
  }

  /** Inserting a batch whose every row conflicts with the table changes nothing. */
  lemma {:induction false} InsertPresentIsNoOp(rows: seq<Record>, batch: seq<Record>, keys: seq<seq<string>>)
    requires forall b :: b in batch ==> Clashes(rows, b, keys)
    ensures InsertIgnoring(rows, batch, keys) == rows
    decreases |batch|
  {
    if |batch| > 0 {
      assert batch[0] in batch;
      forall b | b in batch[1..] ensures Clashes(rows, b, keys) {
        assert b in batch;
      }
      InsertPresentIsNoOp(rows, batch[1..], keys);
    }
  }

  /** Inserting the same batch twice leaves the table as inserting it once, when each row has a key under some constraint. */
  lemma InsertIgnoringIdempotent(rows: seq<Record>, batch: seq<Record>, keys: seq<seq<string>>)
    requires forall b :: b in batch ==> exists i :: 0 <= i < |keys| && KeyOf(b, keys[i]).Some?
    ensures InsertIgnoring(InsertIgnoring(rows, batch, keys), batch, keys) == InsertIgnoring(rows, batch, keys)
  {
    var once := InsertIgnoring(rows, batch, keys);
    InsertIgnoringCovers(rows, batch, keys);
    forall b | b in batch ensures Clashes(once, b, keys) {
      if b in once {
        var i :| 0 <= i < |keys| && KeyOf(b, keys[i]).Some?;
        var j :| 0 <= j < |once| && once[j] == b;
        assert KeyOf(once[j], keys[i]).value in Keys(once, keys[i]);
      }
    }
    InsertPresentIsNoOp(once, batch, keys);
  }

  // ---------------------------------------------------------------------------
  // Batches

  function Min(a: int, b: int): int { if a <= b then a else b }

  /** `(total_rows + batch_size - 1) // batch_size`, for a positive batch size: the ceiling of n / size. */
  function NumBatches(n: nat, size: int): (r: nat)
    requires size > 0
    ensures n == 0 ==> r == 0
    ensures n > 0 ==> (r - 1) * size < n <= r * size
  {
    var r := (n + size - 1) / size;
    assert r * size <= n + size - 1 < r * size + size;
    assert (r - 1) * size == r * size - size;
    if n == 0 then DivUnique(size - 1, size, 0); r else r
  }

  /** The slices `rows[i:i + size]` for `i` in `range(0, len(rows), size)`. */
  function Batches<T>(rows: seq<T>, size: nat): (r: seq<seq<T>>)
    requires size > 0
    ensures |r| == NumBatches(|rows|, size)
    ensures forall k :: 0 <= k < |r| ==> 0 < |r[k]| <= size
    decreases |rows|
  {
    if |rows| == 0 then []
    else if |rows| <= size then
      DivUnique(|rows| + size - 1, size, 1);
      [rows]
    else
      DivStep(|rows| - 1, size);
      [rows[..size]] + Batches(rows[size..], size)
  }

  function Flatten<T>(ss: seq<seq<T>>): seq<T>
  {
    if |ss| == 0 then [] else ss[0] + Flatten(ss[1..])
  }

  /** The batches are contiguous, in input order, and together are exactly the input. */
  lemma {:induction false} BatchesFlatten<T>(rows: seq<T>, size: nat)
    requires size > 0
    ensures Flatten(Batches(rows, size)) == rows
    decreases |rows|
  {
    if |rows| > size {
      BatchesFlatten(rows[size..], size);
      var bs := Batches(rows, size);
      assert bs[1..] == Batches(rows[size..], size);
      assert rows == rows[..size] + rows[size..];
    } else if |rows| > 0 {
      assert Flatten(Batches(rows, size)) == rows + Flatten<T>([]);
    }
  }

  /** Batch `k` (0-based; printed as `batch_num` k + 1) is `rows[Offset(k):Offset(k) + size]`, and it is not empty. */
  lemma {:induction false} BatchAt<T>(rows: seq<T>, size: nat, k: nat)
    requires size > 0 && k < |Batches(rows, size)|
    ensures Offset(k, size) < |rows|
    ensures Batches(rows, size)[k] == rows[Offset(k, size)..Min(Offset(k, size) + size, |rows|)]
    decreases k
  {
    if k > 0 {
      var bs := Batches(rows, size);
      assert |rows| > size;
      var tail := rows[size..];
      assert bs[k] == Batches(tail, size)[k - 1];
      BatchAt(tail, size, k - 1);
      var o := Offset(k - 1, size);
      SliceOfDrop(rows, size, o, Min(o + size, |tail|));
    }
  }

  lemma SliceOfDrop<T>(s: seq<T>, a: nat, b: nat, c: nat)
    requires a <= |s| && b <= c <= |s| - a
    ensures s[a..][b..c] == s[a + b..a + c]
  {
  }

  // ---------------------------------------------------------------------------
  // Retries

  /** A batch commits when the table exists and some attempt within the budget succeeds. */
  predicate Committed(t: Table, present: bool, batch: nat, retries: int, fails: (Table, nat, nat) -> bool)
  {
    present && exists a: nat :: a < retries && !fails(t, batch, a)
  }

  /**
   * The events of `for attempt in range(retries)` for one batch, from attempt `a`
   * on: an attempt commits when the table exists and the server accepts it, and
   * the loop stops there; a failed attempt other than the last is followed by a
   * wait.
   */
  function RetryEvents(t: Table, present: bool, batch: nat, a: nat, retries: int, fails: (Table, nat, nat) -> bool): (r: seq<Event>)
    decreases retries - a
  {
    if a >= retries then []
    else if present && !fails(t, batch, a) then [Attempt(t, batch, a, true)]
    else [Attempt(t, batch, a, false)] + (if a < retries - 1 then [Wait] else [])
         + RetryEvents(t, present, batch, a + 1, retries, fails)
  }

  predicate Succeeded(e: Event)
  {
    e.Attempt? && e.committed
  }

  /** Some attempt in `events` committed. */
  predicate ContainsCommit(events: seq<Event>)
  {
    exists i :: 0 <= i < |events| && Succeeded(events[i])
  }

  function Waits(events: seq<Event>): (r: nat)
    ensures r <= |events|
  {
    if |events| == 0 then 0 else (if events[0] == Wait then 1 else 0) + Waits(events[1..])
  }

  function Attempts(events: seq<Event>): (r: nat)
    ensures r <= |events|
  {
    if |events| == 0 then 0 else (if events[0].Attempt? then 1 else 0) + Attempts(events[1..])
  }

  lemma CountsAppend(a: seq<Event>, b: seq<Event>)
    ensures Waits(a + b) == Waits(a) + Waits(b)
    ensures Attempts(a + b) == Attempts(a) + Attempts(b)
  {
    if |a| > 0 {
      assert (a + b)[1..] == a[1..] + b;
      CountsAppend(a[1..], b);
    } else {
      assert a + b == b;
    }
  }

  /** Every attempt in `ev` is for table `t` and batch `batch`, numbered in `lo..hi - 1`. */
  predicate AttemptsWithin(ev: seq<Event>, t: Table, batch: nat, lo: nat, hi: int)
  {
    forall i :: 0 <= i < |ev| && ev[i].Attempt? ==> ev[i].table == t && ev[i].batch == batch && lo <= ev[i].attempt < hi
  }

  /** One batch gets at most `retries` attempts (from attempt `a` on: at most `retries - a`). */
  lemma {:induction false} RetryEventsAttempts(t: Table, present: bool, batch: nat, a: nat, retries: int, fails: (Table, nat, nat) -> bool)
    ensures Attempts(RetryEvents(t, present, batch, a, retries, fails)) <= (if retries > a then retries - a else 0)
    decreases retries - a
  {
    if a < retries && !(present && !fails(t, batch, a)) {
      var rest := RetryEvents(t, present, batch, a + 1, retries, fails);
      RetryEventsAttempts(t, present, batch, a + 1, retries, fails);
      var head := [Attempt(t, batch, a, false)] + (if a < retries - 1 then [Wait] else []);
      CountsAppend(head, rest);
      assert Attempts(head) == 1;
      if a == retries - 1 {
        assert rest == [];
      }
    }
  }

  /** Every attempt of one batch's retry loop is for that table and batch, numbered from `a` and below `retries`. */
  lemma {:induction false} RetryEventsWithin(t: Table, present: bool, batch: nat, a: nat, retries: int, fails: (Table, nat, nat) -> bool)
    ensures AttemptsWithin(RetryEvents(t, present, batch, a, retries, fails), t, batch, a, retries)
    decreases retries - a
  {
    var ev := RetryEvents(t, present, batch, a, retries, fails);
    if a < retries && !(present && !fails(t, batch, a)) {
      var rest := RetryEvents(t, present, batch, a + 1, retries, fails);
      RetryEventsWithin(t, present, batch, a + 1, retries, fails);
      var head := [Attempt(t, batch, a, false)] + (if a < retries - 1 then [Wait] else []);
      assert ev == head + rest;
      forall i | 0 <= i < |ev| && ev[i].Attempt?
        ensures ev[i].table == t && ev[i].batch == batch && a <= ev[i].attempt < retries
      {
        if i >= |head| {
          assert ev[i] == rest[i - |head|];
        }
      }
    }
  }

  /** Every wait is followed by another attempt: there is never a wait after the last attempt. */
  predicate WaitsBeforeAttempts(ev: seq<Event>)
  {
    forall i :: 0 <= i < |ev| && ev[i] == Wait ==> i + 1 < |ev| && ev[i + 1].Attempt?
  }

  /** A committed attempt is the last event. */
  predicate CommitIsLast(ev: seq<Event>)
  {
    forall i :: 0 <= i < |ev| && Succeeded(ev[i]) ==> i == |ev| - 1
  }

  /** The order of one batch's events: waits only between attempts, and nothing after a commit. */
  lemma {:induction false} RetryEventsOrder(t: Table, present: bool, batch: nat, a: nat, retries: int, fails: (Table, nat, nat) -> bool)
    ensures WaitsBeforeAttempts(RetryEvents(t, present, batch, a, retries, fails))
    ensures CommitIsLast(RetryEvents(t, present, batch, a, retries, fails))
    decreases retries - a
  {
    var ev := RetryEvents(t, present, batch, a, retries, fails);
    if a < retries && !(present && !fails(t, batch, a)) {
      var rest := RetryEvents(t, present, batch, a + 1, retries, fails);
      RetryEventsOrder(t, present, batch, a + 1, retries, fails);
      var head := [Attempt(t, batch, a, false)] + (if a < retries - 1 then [Wait] else []);
      assert ev == head + rest;
      forall i | 0 <= i < |ev| && ev[i] == Wait ensures i + 1 < |ev| && ev[i + 1].Attempt? {
        if i >= |head| {
          assert ev[i] == rest[i - |head|];
          assert ev[i + 1] == rest[i + 1 - |head|];
        } else {
          assert i == 1 && a < retries - 1;
          assert rest[0].Attempt?;
        }
      }
      forall i | 0 <= i < |ev| && Succeeded(ev[i]) ensures i == |ev| - 1 {
        assert i >= |head|;
        assert ev[i] == rest[i - |head|];
      }
    }
  }

  /** A batch that exhausts its retries was attempted `retries` times and waited `retries - 1` times. */
  lemma {:induction false} ExhaustedBatchWaits(t: Table, present: bool, batch: nat, a: nat, retries: int, fails: (Table, nat, nat) -> bool)
    requires a < retries
    requires !present || forall i: nat :: a <= i < retries ==> fails(t, batch, i)
    ensures Attempts(RetryEvents(t, present, batch, a, retries, fails)) == retries - a
    ensures Waits(RetryEvents(t, present, batch, a, retries, fails)) == retries - a - 1
    ensures forall e :: e in RetryEvents(t, present, batch, a, retries, fails) ==> !(e.Attempt? && e.committed)
    decreases retries - a
  {
    var head := [Attempt(t, batch, a, false)] + (if a < retries - 1 then [Wait] else []);
    var rest := RetryEvents(t, present, batch, a + 1, retries, fails);
    CountsAppend(head, rest);
    if a < retries - 1 {
      ExhaustedBatchWaits(t, present, batch, a + 1, retries, fails);
    }
  }

  /** The retry loop records a committed attempt exactly when the batch commits. */
  lemma {:induction false} RetryEventsCommit(t: Table, present: bool, batch: nat, a: nat, retries: int, fails: (Table, nat, nat) -> bool)
    ensures ContainsCommit(RetryEvents(t, present, batch, a, retries, fails))
      <==> present && exists i: nat :: a <= i < retries && !fails(t, batch, i)
    decreases retries - a
  {
    var ev := RetryEvents(t, present, batch, a, retries, fails);
    if a < retries && !(present && !fails(t, batch, a)) {
      var head := [Attempt(t, batch, a, false)] + (if a < retries - 1 then [Wait] else []);
      var rest := RetryEvents(t, present, batch, a + 1, retries, fails);
      RetryEventsCommit(t, present, batch, a + 1, retries, fails);
      assert ev == head + rest;
      assert ContainsCommit(ev) <==> ContainsCommit(rest) by {
        if ContainsCommit(ev) {
          var i :| 0 <= i < |ev| && Succeeded(ev[i]);
          assert ev[i] == rest[i - |head|];
        }
        if ContainsCommit(rest) {
          var j :| 0 <= j < |rest| && Succeeded(rest[j]);
          assert ev[|head| + j] == rest[j];
        }
      }
      if present && exists i: nat :: a <= i < retries && !fails(t, batch, i) {
        var i: nat :| a <= i < retries && !fails(t, batch, i);
        assert a + 1 <= i < retries && !fails(t, batch, i);
      }
    } else if a < retries {
      assert Succeeded(ev[0]);
    }
  }

  // ---------------------------------------------------------------------------
  // The whole load

  /** The frame's rows as records under the frame's column names. */
  function Records(df: Frame): (r: seq<Record>)
    ensures |r| == |df.rows|
    ensures forall j :: 0 <= j < |r| ==> r[j] == Record(df.columns, df.rows[j])
  {
    seq(|df.rows|, j requires 0 <= j < |df.rows| => Record(df.columns, df.rows[j]))
  }

  /** One batch of the load: inserted when it commits, skipped otherwise. */
  function LoadStep(t: Table, rows: seq<Record>, batch: seq<Record>, num: nat, retries: int, fails: (Table, nat, nat) -> bool): seq<Record>
  {
    if Committed(t, true, num, retries, fails) then InsertIgnoring(rows, batch, UniqueColumns(t)) else rows
  }

  /** The table's rows after inserting `batches` numbered from `num`, skipping each batch that does not commit. */
  function LoadRows(t: Table, rows: seq<Record>, batches: seq<seq<Record>>, num: nat, retries: int, fails: (Table, nat, nat) -> bool): seq<Record>
    decreases |batches|
  {
    if |batches| == 0 then rows
    else LoadRows(t, LoadStep(t, rows, batches[0], num, retries, fails), batches[1..], num + 1, retries, fails)
  }

  /** The events of the batch loop for `count` batches numbered from `num`. */
  function LoadEvents(t: Table, present: bool, count: nat, num: nat, retries: int, fails: (Table, nat, nat) -> bool): seq<Event>
    decreases count
  {
    if count == 0 then []
    else LoadEvents(t, present, count - 1, num, retries, fails) + RetryEvents(t, present, num + count - 1, 0, retries, fails)
  }

  /** The number of attempt events in `events` that belong to batch `b`. */
  function AttemptsOn(events: seq<Event>, b: nat): (r: nat)
  {
    if |events| == 0 then 0
    else (if events[0].Attempt? && events[0].batch == b then 1 else 0) + AttemptsOn(events[1..], b)
  }

  lemma AttemptsOnAppend(a: seq<Event>, b: seq<Event>, n: nat)
    ensures AttemptsOn(a + b, n) == AttemptsOn(a, n) + AttemptsOn(b, n)
  {
    if |a| > 0 {
      assert (a + b)[1..] == a[1..] + b;
      AttemptsOnAppend(a[1..], b, n);
    } else {
      assert a + b == b;
    }
  }

  lemma {:induction false} AttemptsOnOther(ev: seq<Event>, b: nat, n: nat)
    requires forall i :: 0 <= i < |ev| && ev[i].Attempt? ==> ev[i].batch == b
    ensures n != b ==> AttemptsOn(ev, n) == 0
    ensures AttemptsOn(ev, b) == Attempts(ev)
  {
    if |ev| > 0 {
      AttemptsOnOther(ev[1..], b, n);
    }
  }

  /**
   * A batch that exhausts its retries does not stop the load: every batch
   * 1..count gets at least one and at most `retries` attempts, and no other
   * batch number is attempted.
   */
  lemma {:induction false} EveryBatchAttempted(t: Table, present: bool, count: nat, num: nat, retries: int, fails: (Table, nat, nat) -> bool, b: nat)
    requires retries > 0
    ensures num <= b < num + count ==> 1 <= AttemptsOn(LoadEvents(t, present, count, num, retries, fails), b) <= retries
    ensures !(num <= b < num + count) ==> AttemptsOn(LoadEvents(t, present, count, num, retries, fails), b) == 0
    decreases count
  {
    if count > 0 {
      var last := RetryEvents(t, present, num + count - 1, 0, retries, fails);
      AttemptsOnAppend(LoadEvents(t, present, count - 1, num, retries, fails), last, b);
      EveryBatchAttempted(t, present, count - 1, num, retries, fails, b);
      RetryEventsAttempts(t, present, num + count - 1, 0, retries, fails);
      RetryEventsWithin(t, present, num + count - 1, 0, retries, fails);
      AttemptsOnOther(last, num + count - 1, b);
      assert last[0].Attempt?;
    }
  }

  /** Under any column list, loading keeps every key the table held and adds only keys of the frame. */
  lemma {:induction false} LoadRowsKeys(t: Table, rows: seq<Record>, batches: seq<seq<Record>>, num: nat, retries: int, fails: (Table, nat, nat) -> bool,
                                        key: seq<string>)
    ensures Keys(rows, key) <= Keys(LoadRows(t, rows, batches, num, retries, fails), key) <= Keys(rows, key) + Keys(Flatten(batches), key)
    decreases |batches|
  {
    if |batches| > 0 {
      var next := LoadStep(t, rows, batches[0], num, retries, fails);
      InsertIgnoringKeys(rows, batches[0], UniqueColumns(t), key);
      LoadRowsKeys(t, next, batches[1..], num + 1, retries, fails, key);
      KeysConcat(batches[0], Flatten(batches[1..]), key);
    } else {
      assert Keys(Flatten(batches), key) == {};
    }
  }

  /**
   * When every batch commits, each row of the frame is in the table or
   * conflicts with a row of it on the primary key or a unique index.
   */
  lemma {:induction false} LoadRowsCovers(t: Table, rows: seq<Record>, batches: seq<seq<Record>>, num: nat, retries: int, fails: (Table, nat, nat) -> bool)
    requires forall b: nat :: num <= b < num + |batches| ==> Committed(t, true, b, retries, fails)
    ensures var r := LoadRows(t, rows, batches, num, retries, fails);
      forall rec :: rec in Flatten(batches) ==> rec in r || Clashes(r, rec, UniqueColumns(t))
    decreases |batches|
  {
    if |batches| > 0 {
      assert Committed(t, true, num, retries, fails);
      var keys := UniqueColumns(t);
      var next := InsertIgnoring(rows, batches[0], keys);
      var r := LoadRows(t, next, batches[1..], num + 1, retries, fails);
      InsertIgnoringCovers(rows, batches[0], keys);
      LoadRowsCovers(t, next, batches[1..], num + 1, retries, fails);
      LoadRowsKeepsExisting(t, next, batches[1..], num + 1, retries, fails);
      assert r[..|next|] == next;
      GrownKeepsClashes(next, r, keys);
      forall rec | rec in Flatten(batches) ensures rec in r || Clashes(r, rec, keys) {
        if rec in batches[0] {
          if rec in next {
            var j :| 0 <= j < |next| && next[j] == rec;
            assert r[j] == rec;
          }
        } else {
          assert rec in Flatten(batches[1..]);
        }
      }
    }
  }

  /**
   * For a table whose only unique constraint is its primary key (every table
   * but oil_price), a load in which every batch commits leaves exactly the
   * old keys plus every key of the frame.
   */
  lemma LoadRowsKeysExact(t: Table, rows: seq<Record>, batches: seq<seq<Record>>, num: nat, retries: int, fails: (Table, nat, nat) -> bool)
    requires t != OilPrice
    requires forall b: nat :: num <= b < num + |batches| ==> Committed(t, true, b, retries, fails)
    ensures Keys(LoadRows(t, rows, batches, num, retries, fails), PrimaryKey(t)) == Keys(rows, PrimaryKey(t)) + Keys(Flatten(batches), PrimaryKey(t))
  {
    var r := LoadRows(t, rows, batches, num, retries, fails);
    var key := PrimaryKey(t);
    LoadRowsKeys(t, rows, batches, num, retries, fails, key);
    LoadRowsCovers(t, rows, batches, num, retries, fails);
    forall k | k in Keys(Flatten(batches), key) ensures k in Keys(r, key) {
      var j :| 0 <= j < |Flatten(batches)| && KeyOf(Flatten(batches)[j], key) == Some(k);
      KeptKeyIn(t, r, Flatten(batches)[j]);
    }
  }

  /** A row that is in the table, or clashes with it on the primary key (the only unique key), has its key in the table. */
  lemma KeptKeyIn(t: Table, r: seq<Record>, rec: Record)
    requires t != OilPrice && KeyOf(rec, PrimaryKey(t)).Some?
    requires rec in r || Clashes(r, rec, UniqueColumns(t))
    ensures KeyOf(rec, PrimaryKey(t)).value in Keys(r, PrimaryKey(t))
  {
    if rec in r {
      var m :| 0 <= m < |r| && r[m] == rec;
    }
  }

  /** Loading keeps every unique constraint of the table, whichever batches commit. */
  lemma {:induction false} LoadRowsKeepsKeysUnique(t: Table, rows: seq<Record>, batches: seq<seq<Record>>, num: nat, retries: int, fails: (Table, nat, nat) -> bool)
    requires Constrained(rows, UniqueColumns(t))
    ensures Constrained(LoadRows(t, rows, batches, num, retries, fails), UniqueColumns(t))
    decreases |batches|
  {
    if |batches| > 0 {
      InsertIgnoringKeepsKeysUnique(rows, batches[0], UniqueColumns(t));
      var next := LoadStep(t, rows, batches[0], num, retries, fails);
      LoadRowsKeepsKeysUnique(t, next, batches[1..], num + 1, retries, fails);
    }
  }

  /** Rows stored before the load all stay: a row already in the table is never overwritten or removed. */
  lemma {:induction false} LoadRowsKeepsExisting(t: Table, rows: seq<Record>, batches: seq<seq<Record>>, num: nat, retries: int, fails: (Table, nat, nat) -> bool)
    ensures |rows| <= |LoadRows(t, rows, batches, num, retries, fails)|
    ensures forall j :: 0 <= j < |rows| ==> LoadRows(t, rows, batches, num, retries, fails)[j] == rows[j]
    decreases |batches|
  {
    if |batches| > 0 {
      var next := LoadStep(t, rows, batches[0], num, retries, fails);
      InsertIgnoringAppends(rows, batches[0], UniqueColumns(t));
      assert |rows| <= |next| && forall j :: 0 <= j < |rows| ==> next[j] == rows[j];
      LoadRowsKeepsExisting(t, next, batches[1..], num + 1, retries, fails);
    }
  }

  /**
   * Only which batches commit matters, not which attempts fail on the way:
   * two loads in which the same batches commit leave the same rows.
   */
  lemma {:induction false} LoadRowsSameCommits(t: Table, rows: seq<Record>, batches: seq<seq<Record>>, num: nat, retries: int,
                                               fails1: (Table, nat, nat) -> bool, fails2: (Table, nat, nat) -> bool)
    requires forall b: nat :: Committed(t, true, b, retries, fails1) == Committed(t, true, b, retries, fails2)
    ensures LoadRows(t, rows, batches, num, retries, fails1) == LoadRows(t, rows, batches, num, retries, fails2)
    decreases |batches|
  {
    if |batches| > 0 {
      assert Committed(t, true, num, retries, fails1) == Committed(t, true, num, retries, fails2);
      var next := LoadStep(t, rows, batches[0], num, retries, fails1);
      assert next == LoadStep(t, rows, batches[0], num, retries, fails2);
      LoadRowsSameCommits(t, next, batches[1..], num + 1, retries, fails1, fails2);
    }
  }

  /** When no batch commits (table missing, or every attempt refused), the table is unchanged. */
  lemma {:induction false} LoadRowsNothingCommitted(t: Table, rows: seq<Record>, batches: seq<seq<Record>>, num: nat, retries: int, fails: (Table, nat, nat) -> bool)
    requires forall b: nat :: num <= b < num + |batches| ==> !Committed(t, true, b, retries, fails)
    ensures LoadRows(t, rows, batches, num, retries, fails) == rows
    decreases |batches|
  {
    if |batches| > 0 {
      assert !Committed(t, true, num, retries, fails);
      LoadRowsNothingCommitted(t, rows, batches[1..], num + 1, retries, fails);
    }
  }

  /** What a call on the loader returns, and the tables and log it leaves. */
  datatype Run = Run(outcome: Outcome, tables: map<Table, seq<Record>>, log: seq<Event>)

  /**
   * `load_dataframe` on the database `tables`: an empty frame loads nothing;
   * a zero batch size raises before any batch; a connection that cannot be
   * opened (`connects(t)` false) raises before any batch; a negative batch
   * size yields no batches; otherwise table `t`, when it exists, gets the
   * batches of the frame's records, each inserted when it commits, and the
   * log gets each batch's attempts and waits.
   */
  function Loading(tables: map<Table, seq<Record>>, log: seq<Event>, df: Frame, t: Table, batchSize: int, retries: int,
                   connects: Table -> bool, fails: (Table, nat, nat) -> bool): Run
  {
    if IsEmpty(df) then Run(Completed, tables, log)
    else if batchSize == 0 then Run(Failed(ZeroDivisionError), tables, log)
    else if !connects(t) then Run(Failed(ConnectError), tables, log)
    else if batchSize < 0 then Run(Completed, tables, log)
    else Run(Completed,
             if t in tables then tables[t := LoadRows(t, tables[t], Batches(Records(df), batchSize), 1, retries, fails)] else tables,
             log + LoadEvents(t, t in tables, NumBatches(|df.rows|, batchSize), 1, retries, fails))
  }

  /** A load keeps every table's unique constraints, whatever it does. */
  lemma LoadingKeepsKeysUnique(tables: map<Table, seq<Record>>, log: seq<Event>, df: Frame, t: Table, batchSize: int, retries: int,
                               connects: Table -> bool, fails: (Table, nat, nat) -> bool)
    requires AllKeysUnique(tables)
    ensures AllKeysUnique(Loading(tables, log, df, t, batchSize, retries, connects, fails).tables)
  {
    if !IsEmpty(df) && batchSize > 0 && connects(t) && t in tables {
      var rows := LoadRows(t, tables[t], Batches(Records(df), batchSize), 1, retries, fails);
      LoadRowsKeepsKeysUnique(t, tables[t], Batches(Records(df), batchSize), 1, retries, fails);
      ReplacedKeepsKeysUnique(tables, t, rows);
    }
  }

  lemma ReplacedKeepsKeysUnique(tables: map<Table, seq<Record>>, t: Table, rows: seq<Record>)
    requires AllKeysUnique(tables) && Constrained(rows, UniqueColumns(t))
    ensures AllKeysUnique(tables[t := rows])
  {
  }

  // ---------------------------------------------------------------------------
  // The loader object

  /**
   * The batch loop as the code runs it, from offset `i` with batch number
   * `num`: the rows after inserting `records[i:i + size]`, then the rest.
   */
  function LoadFrom(t: Table, rows: seq<Record>, records: seq<Record>, i: nat, size: nat, num: nat, retries: int, fails: (Table, nat, nat) -> bool): seq<Record>
    requires size > 0
    decreases |records| - i
  {
    if i >= |records| then rows
    else LoadFrom(t, LoadStep(t, rows, records[i..Min(i + size, |records|)], num, retries, fails), records, i + size, size, num + 1, retries, fails)
  }

  lemma LoadFromStep(t: Table, rows: seq<Record>, records: seq<Record>, i: nat, size: nat, num: nat, retries: int, fails: (Table, nat, nat) -> bool)
    requires size > 0 && i < |records|
    ensures LoadFrom(t, rows, records, i, size, num, retries, fails)
      == LoadFrom(t, LoadStep(t, rows, records[i..Min(i + size, |records|)], num, retries, fails), records, i + size, size, num + 1, retries, fails)
  {
  }

  /**
   * The batch loop as written (offsets in steps of `size`) loads the same rows
   * as inserting the batches `Batches(records[i..], size)` one after another.
   */
  lemma {:induction false} LoadFromIsLoadRows(t: Table, rows: seq<Record>, records: seq<Record>, i: nat, size: nat, num: nat, retries: int, fails: (Table, nat, nat) -> bool)
    requires size > 0 && i <= |records|
    ensures LoadFrom(t, rows, records, i, size, num, retries, fails) == LoadRows(t, rows, Batches(records[i..], size), num, retries, fails)
    decreases |records| - i
  {
    if i < |records| {
      var next := LoadStep(t, rows, records[i..Min(i + size, |records|)], num, retries, fails);
      var rest := if i + size < |records| then Batches(records[i + size..], size) else [];
      calc {
        LoadFrom(t, rows, records, i, size, num, retries, fails);
      == { LoadFromStep(t, rows, records, i, size, num, retries, fails); }
        LoadFrom(t, next, records, i + size, size, num + 1, retries, fails);
      == { if i + size < |records| {
             LoadFromIsLoadRows(t, next, records, i + size, size, num + 1, retries, fails);
           } else {
             assert LoadFrom(t, next, records, i + size, size, num + 1, retries, fails) == next;
           }
         }
        LoadRows(t, next, rest, num + 1, retries, fails);
      == { LoadRowsFirstBatch(t, rows, records, i, size, num, retries, fails); }
        LoadRows(t, rows, Batches(records[i..], size), num, retries, fails);
      }
    } else {
      assert records[i..] == [];
    }
  }

  /** Inserting the batches of `records[i..]` is inserting the first one, then the batches after it. */
  lemma LoadRowsFirstBatch(t: Table, rows: seq<Record>, records: seq<Record>, i: nat, size: nat, num: nat, retries: int, fails: (Table, nat, nat) -> bool)
    requires size > 0 && i < |records|
    ensures LoadRows(t, rows, Batches(records[i..], size), num, retries, fails)
      == LoadRows(t, LoadStep(t, rows, records[i..Min(i + size, |records|)], num, retries, fails),
                  if i + size < |records| then Batches(records[i + size..], size) else [], num + 1, retries, fails)
  {
    var b := records[i..Min(i + size, |records|)];
    var rest := if i + size < |records| then Batches(records[i + size..], size) else [];
    BatchesUnfold(records, i, size);
    LoadRowsCons(t, rows, b, rest, num, retries, fails);
  }

  lemma LoadRowsCons(t: Table, rows: seq<Record>, b: seq<Record>, rest: seq<seq<Record>>, num: nat, retries: int, fails: (Table, nat, nat) -> bool)
    ensures LoadRows(t, rows, [b] + rest, num, retries, fails) == LoadRows(t, LoadStep(t, rows, b, num, retries, fails), rest, num + 1, retries, fails)
  {
    assert ([b] + rest)[1..] == rest;
  }

  /** Every table satisfies its primary key and its unique indexes. */
  predicate AllKeysUnique(tables: map<Table, seq<Record>>)
  {
    forall t :: t in tables ==> Constrained(tables[t], UniqueColumns(t))
  }

  /** What a TRUNCATE ... CASCADE of `t` leaves of the database. */
  function TruncateCascade(tables: map<Table, seq<Record>>, t: Table): map<Table, seq<Record>>
  {
    map u | u in tables :: if u in Cascade(t) then [] else tables[u]
  }

  /**
   * TRUNCATE ... CASCADE drops no table, empties `t` and every table that
   * references it directly or transitively, and leaves every other table's
   * rows as they were.
   */
  lemma TruncateCascadeEffect(tables: map<Table, seq<Record>>, t: Table)
    ensures TruncateCascade(tables, t).Keys == tables.Keys
    ensures forall u :: u in tables && u in Cascade(t) ==> TruncateCascade(tables, t)[u] == []
    ensures forall u :: u in tables && u !in Cascade(t) ==> TruncateCascade(tables, t)[u] == tables[u]
  {
  }

  /** Emptying tables never breaks a unique constraint. */
  lemma TruncateKeepsKeysUnique(tables: map<Table, seq<Record>>, t: Table)
    requires AllKeysUnique(tables)
    ensures AllKeysUnique(TruncateCascade(tables, t))
  {
  }

  /** The offset of batch `k`: `k * size`, written as repeated addition. */
  function Offset(k: nat, size: nat): nat
  {
    if k == 0 then 0 else Offset(k - 1, size) + size
  }

  lemma {:induction false} OffsetDiv(k: nat, size: nat)
    requires size > 0
    ensures Offset(k, size) / size == k
  {
    OffsetIsProduct(k, size);
    DivMul(k, size);
  }

  lemma {:induction false} OffsetIsProduct(k: nat, size: nat)
    ensures Offset(k, size) == k * size
  {
    if k > 0 {
      OffsetIsProduct(k - 1, size);
      MulSucc(k - 1, size);
    }
  }

  /** The loop stops after `NumBatches` passes: the first offset at or past the end. */
  lemma NumBatchesAt(n: nat, size: nat, k: nat)
    requires size > 0 && Offset(k, size) >= n && (k > 0 ==> Offset(k, size) - size < n)
    ensures NumBatches(n, size) == k
  {
    OffsetIsProduct(k, size);
    if k == 0 {
      DivUnique(n + size - 1, size, 0);
    } else {
      MulSucc(k - 1, size);
      DivUnique(n + size - 1, size, k);
    }
  }

  lemma AppendAssoc<T>(a: seq<T>, b: seq<T>, c: seq<T>)
    ensures (a + b) + c == a + (b + c)
  {
  }

  lemma DivUnique(x: int, s: int, q: int)
    requires s > 0 && q * s <= x < q * s + s
    ensures x / s == q
  {
    var q' := x / s;
    assert x == q' * s + x % s;
    if q' < q {
      assert (q - q') * s >= s by { MulAtLeast(q - q', s); }
    } else if q' > q {
      assert (q' - q) * s >= s by { MulAtLeast(q' - q, s); }
    }
  }

  lemma MulAtLeast(a: int, s: int)
    requires a >= 1 && s > 0
    ensures a * s >= s
  {
    assert a * s == (a - 1) * s + s;
  }

  lemma BatchesUnfold<T>(rows: seq<T>, i: nat, size: nat)
    requires i < |rows| && size > 0
    ensures Batches(rows[i..], size) == [rows[i..Min(i + size, |rows|)]]
      + (if i + size < |rows| then Batches(rows[i + size..], size) else [])
  {
    if i + size < |rows| {
      assert rows[i..][size..] == rows[i + size..];
      assert rows[i..][..size] == rows[i..i + size];
    } else {
      assert rows[i..Min(i + size, |rows|)] == rows[i..];
    }
  }

  lemma MulSucc(k: nat, size: int)
    ensures (k + 1) * size == k * size + size
  {
  }

  lemma DivMul(k: nat, size: int)
    requires size > 0
    ensures (k * size) / size == k
  {
    DivUnique(k * size, size, k);
  }

  lemma DivStep(m: int, size: int)
    requires size > 0 && m >= 0
    ensures (m + size) / size == m / size + 1
  {
    var q := m / size;
    assert q * size <= m < q * size + size;
    assert (q + 1) * size == q * size + size;
    DivUnique(m + size, size, q + 1);
  }

  /** Offset `i` is where the batch numbered `k + 1` starts, and every batch before it was non-empty. */
  predicate AtBatch(i: int, k: nat, size: nat, n: nat)
  {
    i == Offset(k, size) && (k > 0 ==> i - size < n)
  }

  /**
   * What the batches from offset `i` on, numbered from `num`, make of the
   * whole database: table `t` gets them, when it exists, and no other table
   * changes.
   */
  function LoadTablesFrom(tables: map<Table, seq<Record>>, t: Table, records: seq<Record>, i: nat, size: nat, num: nat,
                          retries: int, fails: (Table, nat, nat) -> bool): map<Table, seq<Record>>
    requires size > 0
  {
    if t in tables then tables[t := LoadFrom(t, tables[t], records, i, size, num, retries, fails)] else tables
  }

  /** The database after the batch at offset `i`, numbered `num`: table `t` gets it, when it exists. */
  function BatchStep(tables: map<Table, seq<Record>>, t: Table, records: seq<Record>, i: nat, size: nat, num: nat,
                     retries: int, fails: (Table, nat, nat) -> bool): map<Table, seq<Record>>
    requires i <= |records|
  {
    if t in tables then tables[t := LoadStep(t, tables[t], records[i..Min(i + size, |records|)], num, retries, fails)] else tables
  }

  /** Loading the rest from offset `i` is loading batch `i` and then the rest after it; no table appears or disappears. */
  lemma LoadTablesFromStep(tables: map<Table, seq<Record>>, t: Table, records: seq<Record>, i: nat, size: nat, num: nat,
                           retries: int, fails: (Table, nat, nat) -> bool)
    requires size > 0 && i < |records|
    ensures (t in BatchStep(tables, t, records, i, size, num, retries, fails)) == (t in tables)
    ensures LoadTablesFrom(BatchStep(tables, t, records, i, size, num, retries, fails), t, records, i + size, size, num + 1, retries, fails)
      == LoadTablesFrom(tables, t, records, i, size, num, retries, fails)
  {
    if t in tables {
      var next := LoadStep(t, tables[t], records[i..Min(i + size, |records|)], num, retries, fails);
      var rest := LoadFrom(t, next, records, i + size, size, num + 1, retries, fails);
      LoadFromStep(t, tables[t], records, i, size, num, retries, fails);
      MapUpdateTwice(tables, t, next, rest);
    }
  }

  lemma MapUpdateTwice<K, V>(m: map<K, V>, k: K, a: V, b: V)
    ensures m[k := a][k := b] == m[k := b]
  {
  }

  /** Past the last record there is nothing left to load. */
  lemma LoadTablesFromDone(tables: map<Table, seq<Record>>, t: Table, records: seq<Record>, i: nat, size: nat, num: nat,
                           retries: int, fails: (Table, nat, nat) -> bool)
    requires size > 0 && i >= |records|
    ensures LoadTablesFrom(tables, t, records, i, size, num, retries, fails) == tables
  {
    if t in tables {
      assert tables[t := tables[t]] == tables;
    }
  }
}
