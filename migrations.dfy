/**
 * The two schema revisions: each `upgrade` is a straight-line sequence of
 * `op.create_table` calls and each `downgrade` a sequence of `op.drop_table`
 * calls, run against the set of tables that exist. PostgreSQL runs a
 * migration in one transaction, so a step that fails undoes the whole
 * revision.
 */
module Migrations {
  import opened Wrappers
  import opened Schema

  datatype Step = CreateTable(t: Table) | DropTable(t: Table)

  /** Every table whose foreign keys point only at existing tables: a schema PostgreSQL can hold. */
  predicate Consistent(tables: set<Table>)
  {
    forall c :: c in tables ==> Parents(c) <= tables
  }

  /**
   * One DDL statement. Creating a table fails when it exists or when a table
   * its foreign keys reference does not; dropping one fails when it does not
   * exist or when another existing table still references it.
   */
  function ApplyStep(tables: set<Table>, step: Step): (r: Option<set<Table>>)
    ensures r.Some? && step.CreateTable? ==> r.value == tables + {step.t} && step.t !in tables
    ensures r.Some? && step.DropTable? ==> r.value == tables - {step.t} && step.t in tables
  {
    match step
    case CreateTable(t) =>
      if t in tables || !(Parents(t) <= tables) then None else Some(tables + {t})
    case DropTable(t) =>
      if t !in tables || exists c :: c in tables && c != t && References(c, t) then None
      else Some(tables - {t})
  }

  /** A step that succeeds on a consistent schema leaves it consistent. */
  lemma ApplyStepKeepsConsistent(tables: set<Table>, step: Step)
    requires Consistent(tables)
    ensures ApplyStep(tables, step).Some? ==> Consistent(ApplyStep(tables, step).value)
  {
    if step.DropTable? && ApplyStep(tables, step).Some? {
      forall c | c in tables - {step.t}
        ensures Parents(c) <= tables - {step.t}
      {
        assert !References(c, step.t);
      }
    }
  }

  /** The steps in order; the first failure fails the whole sequence. */
  function ApplySteps(tables: set<Table>, steps: seq<Step>): Option<set<Table>>
    decreases |steps|
  {
    if steps == [] then Some(tables)
    else match ApplyStep(tables, steps[0])
      case None => None
      case Some(next) => ApplySteps(next, steps[1..])
  }

  /** Running migrations never leaves a foreign key pointing at a missing table. */
  lemma {:induction false} ApplyStepsKeepsConsistent(tables: set<Table>, steps: seq<Step>)
    requires Consistent(tables)
    ensures ApplySteps(tables, steps).Some? ==> Consistent(ApplySteps(tables, steps).value)
    decreases |steps|
  {
    if steps != [] {
      var r := ApplyStep(tables, steps[0]);
      ApplyStepKeepsConsistent(tables, steps[0]);
      if r.Some? {
        ApplyStepsKeepsConsistent(r.value, steps[1..]);
      }
    }
  }

  function Creates(ts: seq<Table>): (steps: seq<Step>)
    ensures |steps| == |ts| && forall i :: 0 <= i < |ts| ==> steps[i] == CreateTable(ts[i])
  {
    seq(|ts|, i requires 0 <= i < |ts| => CreateTable(ts[i]))
  }

  function Drops(ts: seq<Table>): (steps: seq<Step>)
    ensures |steps| == |ts| && forall i :: 0 <= i < |ts| ==> steps[i] == DropTable(ts[i])
  {
    seq(|ts|, i requires 0 <= i < |ts| => DropTable(ts[i]))
  }

  function Reverse(ts: seq<Table>): (r: seq<Table>)
    ensures |r| == |ts| && forall i :: 0 <= i < |ts| ==> r[i] == ts[|ts| - 1 - i]
  {
    seq(|ts|, i requires 0 <= i < |ts| => ts[|ts| - 1 - i])
  }

  /** The tables listed in `ts`. */
  function Listed(ts: seq<Table>): (r: set<Table>)
    ensures forall t :: t in r <==> t in ts
  {
    set t | t in ts
  }

  /** Each table of `ts` is new and, when its turn comes, everything it references exists. */
  predicate CanCreateInOrder(tables: set<Table>, ts: seq<Table>)
  {
    && NoDuplicates(ts)
    && (forall t :: t in ts ==> t !in tables)
    && (forall i :: 0 <= i < |ts| ==> Parents(ts[i]) <= tables + Listed(ts[..i]))
  }

  /** Each table of `ts` exists and, when its turn comes, every table that references it is gone. */
  predicate CanDropInOrder(tables: set<Table>, ts: seq<Table>)
  {
    && NoDuplicates(ts)
    && (forall t :: t in ts ==> t in tables)
    && (forall i, c :: 0 <= i < |ts| && c in tables && c != ts[i] && References(c, ts[i]) ==> c in ts[..i])
  }

  /** A first step that succeeds hands the rest of the sequence the schema it produced. */
  lemma ApplyStepsCons(tables: set<Table>, step: Step, rest: seq<Step>)
    requires ApplyStep(tables, step).Some?
    ensures ApplySteps(tables, [step] + rest) == ApplySteps(ApplyStep(tables, step).value, rest)
  {
    assert ([step] + rest)[1..] == rest;
  }

  lemma CreatesCons(ts: seq<Table>)
    requires ts != []
    ensures Creates(ts) == [CreateTable(ts[0])] + Creates(ts[1..])
  {
  }

  lemma DropsCons(ts: seq<Table>)
    requires ts != []
    ensures Drops(ts) == [DropTable(ts[0])] + Drops(ts[1..])
  {
  }

  /** Creating a list of tables fails when one of them already exists: tables only grow until its turn, and `create_table` then raises. */
  lemma {:induction false} CreatesExistingFail(tables: set<Table>, ts: seq<Table>, t: Table)
    requires t in ts && t in tables
    ensures ApplySteps(tables, Creates(ts)) == None
    decreases |ts|
  {
    CreatesCons(ts);
    if ApplyStep(tables, CreateTable(ts[0])).Some? {
      var next := tables + {ts[0]};
      ApplyStepsCons(tables, CreateTable(ts[0]), Creates(ts[1..]));
      assert t in ts[1..];
      CreatesExistingFail(next, ts[1..], t);
    }
  }

  /** Dropping a list of tables fails when one of them is missing: tables only shrink until its turn, and `drop_table` then raises. */
  lemma {:induction false} DropsMissingFail(tables: set<Table>, ts: seq<Table>, t: Table)
    requires t in ts && t !in tables
    ensures ApplySteps(tables, Drops(ts)) == None
    decreases |ts|
  {
    DropsCons(ts);
    if ApplyStep(tables, DropTable(ts[0])).Some? {
      var next := tables - {ts[0]};
      ApplyStepsCons(tables, DropTable(ts[0]), Drops(ts[1..]));
      assert t in ts[1..];
      DropsMissingFail(next, ts[1..], t);
    }
  }

  /** After creating the first table of an allowed order, the rest is still an allowed order. */
  lemma CreateRest(tables: set<Table>, ts: seq<Table>)
    requires CanCreateInOrder(tables, ts) && ts != []
    ensures ApplyStep(tables, CreateTable(ts[0])) == Some(tables + {ts[0]})
    ensures CanCreateInOrder(tables + {ts[0]}, ts[1..])
  {
    assert Parents(ts[0]) <= tables + Listed(ts[..0]);
    NoDuplicatesTail(ts);
    CreateRestInOrder(tables, ts);
  }

  lemma CreateRestInOrder(tables: set<Table>, ts: seq<Table>)
    requires ts != [] && forall i :: 0 <= i < |ts| ==> Parents(ts[i]) <= tables + Listed(ts[..i])
    ensures forall i :: 0 <= i < |ts| - 1 ==> Parents(ts[1..][i]) <= tables + {ts[0]} + Listed(ts[1..][..i])
  {
    var rest := ts[1..];
    forall i | 0 <= i < |rest|
      ensures Parents(rest[i]) <= tables + {ts[0]} + Listed(rest[..i])
    {
      assert Parents(ts[i + 1]) <= tables + Listed(ts[..i + 1]);
      assert ts[..i + 1] == [ts[0]] + rest[..i];
    }
  }

  /** After dropping the first table of an allowed order, the rest is still an allowed order. */
  lemma DropRest(tables: set<Table>, ts: seq<Table>)
    requires CanDropInOrder(tables, ts) && ts != []
    ensures ApplyStep(tables, DropTable(ts[0])) == Some(tables - {ts[0]})
    ensures CanDropInOrder(tables - {ts[0]}, ts[1..])
  {
    var first := ts[0];
    assert forall c :: c in tables && c != first && References(c, first) ==> c in ts[..0];
    NoDuplicatesTail(ts);
    DropRestInOrder(tables, ts);
  }

  lemma DropRestInOrder(tables: set<Table>, ts: seq<Table>)
    requires ts != []
    requires forall i, c :: 0 <= i < |ts| && c in tables && c != ts[i] && References(c, ts[i]) ==> c in ts[..i]
    ensures forall i, c :: 0 <= i < |ts| - 1 && c in tables - {ts[0]} && c != ts[1..][i] && References(c, ts[1..][i]) ==> c in ts[1..][..i]
  {
    var first, rest := ts[0], ts[1..];
    forall i, c | 0 <= i < |rest| && c in tables - {first} && c != rest[i] && References(c, rest[i])
      ensures c in rest[..i]
    {
      assert c in ts[..i + 1];
      assert ts[..i + 1] == [first] + rest[..i];
    }
  }

  /** Creating tables in an order that allows it succeeds and adds exactly those tables. */
  lemma {:induction false} CreatesSucceed(tables: set<Table>, ts: seq<Table>)
    requires CanCreateInOrder(tables, ts)
    ensures ApplySteps(tables, Creates(ts)) == Some(tables + Listed(ts))
    decreases |ts|
  {
    if ts != [] {
      var next := tables + {ts[0]};
      CreateRest(tables, ts);
      CreatesSucceed(next, ts[1..]);
      CreatesCons(ts);
      ApplyStepsCons(tables, CreateTable(ts[0]), Creates(ts[1..]));
      assert next + Listed(ts[1..]) == tables + Listed(ts);
    } else {
      assert Creates(ts) == [];
      assert tables + Listed(ts) == tables;
    }
  }

  /** Dropping tables in an order that allows it succeeds and removes exactly those tables. */
  lemma {:induction false} DropsSucceed(tables: set<Table>, ts: seq<Table>)
    requires CanDropInOrder(tables, ts)
    ensures ApplySteps(tables, Drops(ts)) == Some(tables - Listed(ts))
    decreases |ts|
  {
    if ts != [] {
      var next := tables - {ts[0]};
      DropRest(tables, ts);
      DropsSucceed(next, ts[1..]);
      DropsCons(ts);
      ApplyStepsCons(tables, DropTable(ts[0]), Drops(ts[1..]));
      assert next - Listed(ts[1..]) == tables - Listed(ts);
    } else {
      assert Drops(ts) == [];
      assert tables - Listed(ts) == tables;
    }
  }

  /** A parents-first order of new tables can be created into any schema. */
  lemma ParentsFirstCanCreate(tables: set<Table>, ts: seq<Table>)
    requires ParentsFirst(ts) && NoDuplicates(ts)
    requires forall t :: t in ts ==> t !in tables
    ensures CanCreateInOrder(tables, ts)
  {
    forall i | 0 <= i < |ts|
      ensures Parents(ts[i]) <= tables + Listed(ts[..i])
    {
      forall p | p in Parents(ts[i])
        ensures p in Listed(ts[..i])
      {
        assert References(ts[i], p);
      }
    }
  }

  lemma ReverseNoDuplicates(ts: seq<Table>)
    requires NoDuplicates(ts)
    ensures NoDuplicates(Reverse(ts)) && forall t :: t in Reverse(ts) <==> t in ts
  {
    var rs, n := Reverse(ts), |ts|;
    forall t | t in ts
      ensures t in rs
    {
      var i :| 0 <= i < n && ts[i] == t;
      assert rs[n - 1 - i] == t;
    }
  }

  /**
   * In the reverse of an order that lists every table after the tables it
   * points to (under any relation `refs`), a table comes before what it points to.
   */
  lemma {:induction false} ReferencerDroppedFirst(ts: seq<Table>, refs: (Table, Table) -> bool, i: nat, c: Table)
    requires forall k, p :: 0 <= k < |ts| && refs(ts[k], p) ==> p in ts[..k]
    requires NoDuplicates(ts)
    requires i < |ts| && c in ts && refs(c, Reverse(ts)[i])
    ensures c in Reverse(ts)[..i]
  {
    var rs, n := Reverse(ts), |ts|;
    var p := rs[i];
    assert ts[n - 1 - i] == p;
    var k :| 0 <= k < n && ts[k] == c;
    assert p in ts[..k];
    var m :| 0 <= m < k && ts[m] == p;
    assert m == n - 1 - i by {
      assert ts[m] == ts[n - 1 - i];
    }
    assert rs[n - 1 - k] == c;
  }

  /**
   * The reverse of a parents-first order drops its tables children first:
   * it can drop them from any schema in which no other table references them.
   */
  lemma ReverseCanDrop(tables: set<Table>, ts: seq<Table>)
    requires ParentsFirst(ts) && NoDuplicates(ts)
    requires forall t :: t in ts ==> t in tables
    requires forall c, p :: c in tables && c !in ts && p in ts ==> !References(c, p)
    ensures CanDropInOrder(tables, Reverse(ts))
  {
    var rs := Reverse(ts);
    ReverseNoDuplicates(ts);
    forall i, c | 0 <= i < |rs| && c in tables && c != rs[i] && References(c, rs[i])
      ensures c in rs[..i]
    {
      assert rs[i] in ts;
      ReferencerDroppedFirst(ts, References, i, c);
    }
  }

  /** An Alembic revision: its id, the revision it builds on, and its two step sequences. */
  datatype Revision = Revision(id: string, downRevision: Option<string>, upgrade: seq<Step>, downgrade: seq<Step>)

  /** The flat-file staging tables, in the order `upgrade` creates them. */
  const StagingTables: seq<Table> := [
    AreaTb, BatteryTb, DivisionTb, FieldGroupTb, ProducingMethodsTb,
    ProducingStatusTb, RouteTb, StateCountyNamesTb, AcProperty, CompletionTb]

  /** The tables the API revision creates, in creation order. */
  const ApiTables: seq<Table> := [
    DailyCapacities, CompletionDailyTb, WellHeader, Job, JobReport,
    SurveyPoint, Note, User, OilPrice]

  const StagingRevision: Revision := Revision(
    "57c1110b92dd", None,
    Creates(StagingTables),
    Drops([CompletionTb, AcProperty, StateCountyNamesTb, RouteTb, ProducingStatusTb,
           ProducingMethodsTb, FieldGroupTb, DivisionTb, BatteryTb, AreaTb]))

  const ApiRevision: Revision := Revision(
    "2b8d9e6c1a4f", Some("57c1110b92dd"),
    Creates(ApiTables),
    Drops([OilPrice, User, Note, SurveyPoint, JobReport, Job, WellHeader,
           CompletionDailyTb, DailyCapacities]))

  /** The API revision builds on the staging revision, which builds on nothing. */
  lemma RevisionChain()
    ensures StagingRevision.downRevision == None
    ensures ApiRevision.downRevision == Some(StagingRevision.id)
  {
  }

  /** Each downgrade drops exactly the tables its upgrade creates, in exactly the reverse order. */
  lemma DowngradesReverseUpgrades()
    ensures StagingRevision.downgrade == Drops(Reverse(StagingTables))
    ensures ApiRevision.downgrade == Drops(Reverse(ApiTables))
  {
    assert Reverse(StagingTables) == [CompletionTb, AcProperty, StateCountyNamesTb, RouteTb,
      ProducingStatusTb, ProducingMethodsTb, FieldGroupTb, DivisionTb, BatteryTb, AreaTb];
    assert Reverse(ApiTables) == [OilPrice, User, Note, SurveyPoint, JobReport, Job, WellHeader,
      CompletionDailyTb, DailyCapacities];
  }

  /** In the staging creation order every referenced table is created before the tables that reference it. */
  lemma StagingParentsFirst()
    ensures ParentsFirst(StagingTables)
  {
    var roots := [AreaTb, BatteryTb, DivisionTb, FieldGroupTb, ProducingMethodsTb,
      ProducingStatusTb, RouteTb, StateCountyNamesTb, AcProperty];
    RootsParentsFirst(roots);
    ParentsFirstSnoc(roots, CompletionTb);
    assert roots + [CompletionTb] == StagingTables;
  }

  /** The staging revision creates each table once. */
  lemma StagingNoDuplicates()
    ensures NoDuplicates(StagingTables)
  {
    forall i | 0 <= i < |StagingTables|
      ensures Ordinal(StagingTables[i]) == i
    {
    }
  }

  /** In the API creation order every referenced table is created before the tables that reference it. */
  lemma ApiParentsFirst()
    ensures ParentsFirst(ApiTables)
  {
    var roots := [DailyCapacities, CompletionDailyTb, WellHeader];
    RootsParentsFirst(roots);
    ParentsFirstSnoc(roots, Job);
    ParentsFirstSnoc(roots + [Job], JobReport);
    ParentsFirstSnoc(roots + [Job] + [JobReport], SurveyPoint);
    var leaves := [Note, User, OilPrice];
    RootsParentsFirst(leaves);
    ParentsFirstAppend(roots + [Job] + [JobReport] + [SurveyPoint], leaves);
    assert roots + [Job] + [JobReport] + [SurveyPoint] + leaves == ApiTables;
  }

  /** The API revision creates each table once. */
  lemma ApiNoDuplicates()
    ensures NoDuplicates(ApiTables)
  {
    forall i | 0 <= i < |ApiTables|
      ensures Ordinal(ApiTables[i]) == i + 10
    {
    }
  }

  /**
   * Creating a parents-first sequence of new tables on a consistent schema
   * and then dropping them in reverse order restores the schema.
   */
  lemma {:induction false} CreateThenDropReverse(tables: set<Table>, created: seq<Table>)
    requires ParentsFirst(created) && NoDuplicates(created)
    requires Consistent(tables) && forall t :: t in created ==> t !in tables
    ensures ApplySteps(tables, Creates(created)) == Some(tables + Listed(created))
    ensures ApplySteps(tables + Listed(created), Drops(Reverse(created))) == Some(tables)
  {
    ParentsFirstCanCreate(tables, created);
    CreatesSucceed(tables, created);
    var after := tables + Listed(created);
    forall c, p | c in after && c !in created && p in created
      ensures !References(c, p)
    {
      assert Parents(c) <= tables;
    }
    ReverseCanDrop(after, created);
    DropsSucceed(after, Reverse(created));
    ReverseNoDuplicates(created);
    assert after - Listed(Reverse(created)) == tables;
  }

  /** On a consistent schema without its tables, the staging revision's upgrade and downgrade undo each other. */
  lemma StagingUpgradeThenDowngrade(tables: set<Table>)
    requires Consistent(tables) && forall t :: t in StagingTables ==> t !in tables
    ensures ApplySteps(tables, StagingRevision.upgrade) == Some(tables + Listed(StagingTables))
    ensures ApplySteps(tables + Listed(StagingTables), StagingRevision.downgrade) == Some(tables)
  {
    StagingParentsFirst();
    StagingNoDuplicates();
    DowngradesReverseUpgrades();
    CreateThenDropReverse(tables, StagingTables);
  }

  /** On a consistent schema without its tables, the API revision's upgrade and downgrade undo each other. */
  lemma ApiUpgradeThenDowngrade(tables: set<Table>)
    requires Consistent(tables) && forall t :: t in ApiTables ==> t !in tables
    ensures ApplySteps(tables, ApiRevision.upgrade) == Some(tables + Listed(ApiTables))
    ensures ApplySteps(tables + Listed(ApiTables), ApiRevision.downgrade) == Some(tables)
  {
    ApiParentsFirst();
    ApiNoDuplicates();
    DowngradesReverseUpgrades();
    CreateThenDropReverse(tables, ApiTables);
  }

  /** The tables of a parents-first order reference only one another. */
  lemma ParentsFirstConsistent(ts: seq<Table>)
    requires ParentsFirst(ts)
    ensures Consistent(Listed(ts))
  {
    forall c | c in Listed(ts)
      ensures Parents(c) <= Listed(ts)
    {
      var i :| 0 <= i < |ts| && ts[i] == c;
      forall p | p in Parents(c)
        ensures p in ts
      {
        assert References(ts[i], p);
        assert p in ts[..i];
      }
    }
  }

  /** The two revisions create disjoint sets of tables. */
  lemma RevisionsDisjoint()
    ensures forall t :: t in ApiTables ==> t !in Listed(StagingTables)
  {
    forall t | t in ApiTables
      ensures t !in StagingTables
    {
      var i :| 0 <= i < |ApiTables| && ApiTables[i] == t;
    }
  }

  /** Upgrading an empty database through both revisions creates every table of both. */
  lemma UpgradeFromEmpty()
    ensures ApplySteps({}, StagingRevision.upgrade) == Some(Listed(StagingTables))
    ensures ApplySteps(Listed(StagingTables), ApiRevision.upgrade) == Some(Listed(StagingTables) + Listed(ApiTables))
  {
    StagingUpgradeThenDowngrade({});
    assert {} + Listed(StagingTables) == Listed(StagingTables);
    StagingParentsFirst();
    ParentsFirstConsistent(StagingTables);
    RevisionsDisjoint();
    ApiUpgradeThenDowngrade(Listed(StagingTables));
  }

  /** The database's schema, changed in place by running revisions. */
  class Database {
    var tables: set<Table>

    constructor (tables: set<Table>)
      ensures this.tables == tables
    {
      this.tables := tables;
    }

    /**
     * Runs the DDL steps one at a time inside one transaction: the first step
     * that fails rolls the schema back to where it was and reports failure.
     */
    method Run(steps: seq<Step>) returns (ok: bool)
      modifies this
      ensures ok == ApplySteps(old(tables), steps).Some?
      ensures tables == if ok then ApplySteps(old(tables), steps).value else old(tables)
    {
      var before := tables;
      var i := 0;
      while i < |steps|
        invariant 0 <= i <= |steps|
        invariant ApplySteps(before, steps) == ApplySteps(tables, steps[i..])
      {
        assert steps[i..][1..] == steps[i + 1..];
        match steps[i] {
          case CreateTable(t) =>
          if t in tables || !(Parents(t) <= tables) {
            tables := before;
            return false;
          }
          tables := tables + {t};
          case DropTable(t) =>
          if t !in tables || exists c :: c in tables && c != t && References(c, t) {
            tables := before;
            return false;
          }
          tables := tables - {t};
        }
        i := i + 1;
      }
      return true;
    }

    /** `upgrade` of revision 57c1110b92dd. */
    method StagingUpgrade() returns (ok: bool)
      modifies this
      ensures ok == ApplySteps(old(tables), StagingRevision.upgrade).Some?
      ensures tables == if ok then ApplySteps(old(tables), StagingRevision.upgrade).value else old(tables)
      ensures Consistent(old(tables)) && (forall t :: t in StagingTables ==> t !in old(tables)) ==>
        ok && tables == old(tables) + Listed(StagingTables)
      ensures (exists t :: t in StagingTables && t in old(tables)) ==> !ok && tables == old(tables)
      ensures !ok ==> tables == old(tables)
    {
      if Consistent(tables) && forall t :: t in StagingTables ==> t !in tables {
        StagingUpgradeThenDowngrade(tables);
      }
      if t :| t in StagingTables && t in tables {
        CreatesExistingFail(tables, StagingTables, t);
      }
      ok := Run(StagingRevision.upgrade);
    }

    /** `downgrade` of revision 57c1110b92dd. */
    method StagingDowngrade() returns (ok: bool)
      modifies this
      ensures ok == ApplySteps(old(tables), StagingRevision.downgrade).Some?
      ensures tables == if ok then ApplySteps(old(tables), StagingRevision.downgrade).value else old(tables)
      ensures (exists t :: t in StagingTables && t !in old(tables)) ==> !ok && tables == old(tables)
      ensures forall s ::
        (Consistent(s) && (forall t :: t in StagingTables ==> t !in s) && old(tables) == s + Listed(StagingTables))
          ==> ok && tables == s
      ensures !ok ==> tables == old(tables)
    {
      forall s | Consistent(s) && (forall t :: t in StagingTables ==> t !in s) && tables == s + Listed(StagingTables)
        ensures ApplySteps(tables, StagingRevision.downgrade) == Some(s)
      {
        StagingUpgradeThenDowngrade(s);
      }
      if t :| t in StagingTables && t !in tables {
        DropsMissingFail(tables, [CompletionTb, AcProperty, StateCountyNamesTb, RouteTb, ProducingStatusTb,
                                  ProducingMethodsTb, FieldGroupTb, DivisionTb, BatteryTb, AreaTb], t);
      }
      ok := Run(StagingRevision.downgrade);
    }

    /** `upgrade` of revision 2b8d9e6c1a4f. */
    method ApiUpgrade() returns (ok: bool)
      modifies this
      ensures ok == ApplySteps(old(tables), ApiRevision.upgrade).Some?
      ensures tables == if ok then ApplySteps(old(tables), ApiRevision.upgrade).value else old(tables)
      ensures Consistent(old(tables)) && (forall t :: t in ApiTables ==> t !in old(tables)) ==>
        ok && tables == old(tables) + Listed(ApiTables)
      ensures (exists t :: t in ApiTables && t in old(tables)) ==> !ok && tables == old(tables)
      ensures !ok ==> tables == old(tables)
    {
      if Consistent(tables) && forall t :: t in ApiTables ==> t !in tables {
        ApiUpgradeThenDowngrade(tables);
      }
      if t :| t in ApiTables && t in tables {
        CreatesExistingFail(tables, ApiTables, t);
      }
      ok := Run(ApiRevision.upgrade);
    }

    /** `downgrade` of revision 2b8d9e6c1a4f. */
    method ApiDowngrade() returns (ok: bool)
      modifies this
      ensures ok == ApplySteps(old(tables), ApiRevision.downgrade).Some?
      ensures tables == if ok then ApplySteps(old(tables), ApiRevision.downgrade).value else old(tables)
      ensures (exists t :: t in ApiTables && t !in old(tables)) ==> !ok && tables == old(tables)
      ensures forall s ::
        (Consistent(s) && (forall t :: t in ApiTables ==> t !in s) && old(tables) == s + Listed(ApiTables))
          ==> ok && tables == s
      ensures !ok ==> tables == old(tables)
    {
      forall s | Consistent(s) && (forall t :: t in ApiTables ==> t !in s) && tables == s + Listed(ApiTables)
        ensures ApplySteps(tables, ApiRevision.downgrade) == Some(s)
      {
        ApiUpgradeThenDowngrade(s);
      }
      if t :| t in ApiTables && t !in tables {
        DropsMissingFail(tables, [OilPrice, User, Note, SurveyPoint, JobReport, Job, WellHeader,
                                  CompletionDailyTb, DailyCapacities], t);
      }
      ok := Run(ApiRevision.downgrade);
    }
  }
}
