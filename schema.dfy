/**
 * The staging schema as the two migration revisions declare it: the tables,
 * their primary keys and the foreign-key edges among them, plus the
 * reference graph that TRUNCATE ... CASCADE follows.
 */
module Schema {

  /** The nineteen staging tables. */
  datatype Table =
    // created by revision 57c1110b92dd (flat-file sources)
    | AreaTb | BatteryTb | DivisionTb | FieldGroupTb | ProducingMethodsTb
    | ProducingStatusTb | RouteTb | StateCountyNamesTb | AcProperty | CompletionTb
    // created by revision 2b8d9e6c1a4f (API sources)
    | DailyCapacities | CompletionDailyTb | WellHeader | Job | JobReport
    | SurveyPoint | Note | User | OilPrice

  /** The table's name in the database. */
  function Name(t: Table): string
  {
    match t
    case AreaTb => "stg_pro_count__areatb"
    case BatteryTb => "stg_pro_count__batterytb"
    case DivisionTb => "stg_pro_count__divisiontb"
    case FieldGroupTb => "stg_pro_count__fieldgrouptb"
    case ProducingMethodsTb => "stg_pro_count__producingmethodstb"
    case ProducingStatusTb => "stg_pro_count__producingstatustb"
    case RouteTb => "stg_pro_count__routetb"
    case StateCountyNamesTb => "stg_pro_count__statecountynamestb"
    case AcProperty => "stg_aries__ac_property"
    case CompletionTb => "stg_pro_count__completiontb"
    case DailyCapacities => "stg_aries__daily_capacities"
    case CompletionDailyTb => "stg_pro_count__completiondailytb"
    case WellHeader => "stg_wellview__wellheader"
    case Job => "stg_wellview__job"
    case JobReport => "stg_wellview__jobreport"
    case SurveyPoint => "stg_wellview__surveypoint"
    case Note => "stg_wiserock__note"
    case User => "stg_wiserock__user"
    case OilPrice => "stg_eia__oil_price"
  }

  /** The primary-key columns of each table, in declaration order. */
  function PrimaryKey(t: Table): seq<string>
  {
    match t
    case AreaTb => ["areamerrickid"]
    case BatteryTb => ["batterymerrickid"]
    case DivisionTb => ["divisionmerrickid"]
    case FieldGroupTb => ["fieldgroupmerrickid"]
    case ProducingMethodsTb => ["producingmethodsmerrickid"]
    case ProducingStatusTb => ["producingstatusmerrickid"]
    case RouteTb => ["routemerrickid"]
    case StateCountyNamesTb => ["statecode", "countycode"]
    case AcProperty => ["propnum"]
    case CompletionTb => ["merrickid"]
    case DailyCapacities => ["well_id", "date"]
    case CompletionDailyTb => ["id"]
    case WellHeader => ["idwell"]
    case Job => ["idrec"]
    case JobReport => ["idrec"]
    case SurveyPoint => ["id"]
    case Note => ["id"]
    case User => ["user_id"]
    case OilPrice => ["id"]
  }

  /**
   * The column lists of every unique constraint on `t`, primary key first.
   * Only oil_price has another: the unique index on (period, series).
   */
  function UniqueColumns(t: Table): (r: seq<seq<string>>)
    ensures |r| > 0 && r[0] == PrimaryKey(t)
    ensures t != OilPrice ==> |r| == 1
    ensures t == OilPrice ==> |r| == 2 && r[1] == ["period", "series"]
  {
    if t == OilPrice then [PrimaryKey(t), ["period", "series"]] else [PrimaryKey(t)]
  }

  /** A foreign-key constraint: `columns` of `child` reference `refColumns` of `parent`. */
  datatype ForeignKey = ForeignKey(child: Table, columns: seq<string>, parent: Table, refColumns: seq<string>)

  /** The foreign keys declared on table `t`. */
  function ForeignKeysOf(t: Table): seq<ForeignKey>
  {
    match t
    case CompletionTb => [
      ForeignKey(CompletionTb, ["producingstatus"], ProducingStatusTb, ["producingstatusmerrickid"]),
      ForeignKey(CompletionTb, ["producingmethod"], ProducingMethodsTb, ["producingmethodsmerrickid"]),
      ForeignKey(CompletionTb, ["routeid"], RouteTb, ["routemerrickid"]),
      ForeignKey(CompletionTb, ["divisionid"], DivisionTb, ["divisionmerrickid"]),
      ForeignKey(CompletionTb, ["fieldgroupid"], FieldGroupTb, ["fieldgroupmerrickid"]),
      ForeignKey(CompletionTb, ["areaid"], AreaTb, ["areamerrickid"]),
      ForeignKey(CompletionTb, ["batteryid"], BatteryTb, ["batterymerrickid"]),
      ForeignKey(CompletionTb, ["ariesid"], AcProperty, ["propnum"]),
      ForeignKey(CompletionTb, ["stateid", "countyid"], StateCountyNamesTb, ["statecode", "countycode"])]
    case Job => [ForeignKey(Job, ["idwell"], WellHeader, ["idwell"])]
    case JobReport => [
      ForeignKey(JobReport, ["idwell"], WellHeader, ["idwell"]),
      ForeignKey(JobReport, ["idrecparent"], Job, ["idrec"])]
    case SurveyPoint => [ForeignKey(SurveyPoint, ["well_id"], WellHeader, ["idwell"])]
    case _ => []
  }

  /** Every foreign key sits on its own table and references its target's whole primary key, column for column. */
  lemma ForeignKeysTargetPrimaryKeys(t: Table)
    ensures forall fk :: fk in ForeignKeysOf(t) ==>
      fk.child == t && fk.refColumns == PrimaryKey(fk.parent) && |fk.columns| == |fk.refColumns|
  {
  }

  /** The tables `t` references. */
  function Parents(t: Table): set<Table>
  {
    match t
    case CompletionTb => {
      ProducingStatusTb, ProducingMethodsTb, RouteTb, DivisionTb, FieldGroupTb,
      AreaTb, BatteryTb, AcProperty, StateCountyNamesTb}
    case Job => {WellHeader}
    case JobReport => {WellHeader, Job}
    case SurveyPoint => {WellHeader}
    case _ => {}
  }

  /** The target of every foreign key declared on `t` is in `Parents(t)`. */
  lemma TargetsAreParents(t: Table)
    ensures forall i :: 0 <= i < |ForeignKeysOf(t)| ==> ForeignKeysOf(t)[i].parent in Parents(t)
  {
  }

  /** Every table in `Parents(t)` is the target of a foreign key declared on `t`. */
  lemma ParentsAreTargets(t: Table)
    ensures forall p :: p in Parents(t) ==> exists i :: 0 <= i < |ForeignKeysOf(t)| && ForeignKeysOf(t)[i].parent == p
  {
    var fks := ForeignKeysOf(t);
    match t
    case CompletionTb => CompletionTbTargets();
    case Job => assert forall p :: p in Parents(t) ==> fks[0].parent == p;
    case JobReport => assert forall p :: p in Parents(t) ==> fks[0].parent == p || fks[1].parent == p;
    case SurveyPoint => assert forall p :: p in Parents(t) ==> fks[0].parent == p;
    case _ =>
  }

  lemma CompletionTbTargets()
    ensures forall p :: p in Parents(CompletionTb) ==> exists i :: 0 <= i < |ForeignKeysOf(CompletionTb)| && ForeignKeysOf(CompletionTb)[i].parent == p
  {
    var fks := ForeignKeysOf(CompletionTb);
    assert forall p :: p in Parents(CompletionTb) ==> p in {fks[0].parent, fks[1].parent, fks[2].parent, fks[3].parent,
      fks[4].parent, fks[5].parent, fks[6].parent, fks[7].parent, fks[8].parent};
  }

  /** `child` has a foreign key into `parent`. */
  predicate References(child: Table, parent: Table)
  {
    parent in Parents(child)
  }

  /** A set that contains the referencing side of every edge whose referenced side it contains. */
  predicate ClosedUnderReferencing(u: set<Table>)
  {
    forall c, p :: p in u && References(c, p) ==> c in u
  }

  /**
   * The tables `TRUNCATE ... CASCADE` empties when asked to truncate `t`: `t`
   * and every table with a chain of foreign keys into it, written out from the
   * foreign keys above. CascadeClosed and CascadeLeast show that it is exactly
   * that closure.
   */
  function Cascade(t: Table): (r: set<Table>)
    ensures t in r
  {
    match t
    case WellHeader => {WellHeader, Job, JobReport, SurveyPoint}
    case Job => {Job, JobReport}
    case AreaTb => {AreaTb, CompletionTb}
    case BatteryTb => {BatteryTb, CompletionTb}
    case DivisionTb => {DivisionTb, CompletionTb}
    case FieldGroupTb => {FieldGroupTb, CompletionTb}
    case ProducingMethodsTb => {ProducingMethodsTb, CompletionTb}
    case ProducingStatusTb => {ProducingStatusTb, CompletionTb}
    case RouteTb => {RouteTb, CompletionTb}
    case StateCountyNamesTb => {StateCountyNamesTb, CompletionTb}
    case AcProperty => {AcProperty, CompletionTb}
    case _ => {t}
  }

  /** A table with a foreign key into a table the cascade empties is emptied too. */
  lemma CascadeClosed(t: Table)
    ensures ClosedUnderReferencing(Cascade(t))
  {
  }

  /** The cascade empties nothing beyond what closing `{t}` under referencing requires. */
  lemma CascadeLeast(t: Table, u: set<Table>)
    requires t in u && ClosedUnderReferencing(u)
    ensures Cascade(t) <= u
  {
    forall c | c in Cascade(t)
      ensures c in u
    {
      if c != t {
        assert References(c, t);
      }
    }
  }

  /** Every table is preceded in `order` by every table it references. */
  predicate ParentsFirst(order: seq<Table>)
  {
    forall i, p :: 0 <= i < |order| && References(order[i], p) ==> p in order[..i]
  }

  predicate NoDuplicates(order: seq<Table>)
  {
    forall i, j :: 0 <= i < j < |order| ==> order[i] != order[j]
  }

  /** A table's place in the declaration order, which is also the order the two migrations create them in. */
  function Ordinal(t: Table): nat
  {
    match t
    case AreaTb => 0 case BatteryTb => 1 case DivisionTb => 2 case FieldGroupTb => 3
    case ProducingMethodsTb => 4 case ProducingStatusTb => 5 case RouteTb => 6
    case StateCountyNamesTb => 7 case AcProperty => 8 case CompletionTb => 9
    case DailyCapacities => 10 case CompletionDailyTb => 11 case WellHeader => 12 case Job => 13
    case JobReport => 14 case SurveyPoint => 15 case Note => 16 case User => 17 case OilPrice => 18
  }

  /** Tables that reference nothing can come in any order. */
  lemma RootsParentsFirst(order: seq<Table>)
    requires forall t :: t in order ==> Parents(t) == {}
    ensures ParentsFirst(order)
  {
    forall i | 0 <= i < |order|
      ensures Parents(order[i]) == {}
    {
      assert order[i] in order;
    }
  }

  /** A table may follow a parents-first order that lists everything it references. */
  lemma ParentsFirstSnoc(order: seq<Table>, t: Table)
    requires ParentsFirst(order) && forall p :: p in Parents(t) ==> p in order
    ensures ParentsFirst(order + [t])
  {
    var o := order + [t];
    forall i, p | 0 <= i < |o| && References(o[i], p)
      ensures p in o[..i]
    {
      if i < |order| {
        assert o[i] == order[i] && o[..i] == order[..i];
      } else {
        assert o[..i] == order;
      }
    }
  }

  /** Two parents-first orders, one after the other, form a parents-first order. */
  lemma ParentsFirstAppend(a: seq<Table>, b: seq<Table>)
    requires ParentsFirst(a) && ParentsFirst(b)
    ensures ParentsFirst(a + b)
  {
    var o := a + b;
    forall i, p | 0 <= i < |o| && References(o[i], p)
      ensures p in o[..i]
    {
      if i < |a| {
        assert o[i] == a[i] && o[..i] == a[..i];
      } else {
        assert o[i] == b[i - |a|] && o[..i] == a + b[..i - |a|];
      }
    }
  }

  /** Dropping the head of a duplicate-free order leaves a duplicate-free order without the head. */
  lemma NoDuplicatesTail(order: seq<Table>)
    requires NoDuplicates(order) && order != []
    ensures NoDuplicates(order[1..]) && order[0] !in order[1..]
  {
    var rest := order[1..];
    forall i, j | 0 <= i < j < |rest|
      ensures rest[i] != rest[j]
    {
      assert rest[i] == order[i + 1] && rest[j] == order[j + 1];
    }
  }

  /** The tables not listed in `prefix`. */
  function Outside(prefix: seq<Table>): (u: set<Table>)
    ensures forall t :: t in u <==> t !in prefix
  {
    set t: Table | t !in prefix
  }

  /** What is not listed in a prefix of a parents-first order is closed under referencing. */
  lemma OutsidePrefixClosed(order: seq<Table>, j: nat)
    requires ParentsFirst(order) && j <= |order|
    ensures ClosedUnderReferencing(Outside(order[..j]))
  {
    forall c, p | p in Outside(order[..j]) && References(c, p)
      ensures c in Outside(order[..j])
    {
    }
  }

  /**
   * In a parents-first order, truncating a table with CASCADE never empties a
   * table that comes before it.
   */
  lemma CascadeSparesEarlier(order: seq<Table>, j: nat)
    requires ParentsFirst(order) && NoDuplicates(order) && j < |order|
    ensures forall i :: 0 <= i < j ==> order[i] !in Cascade(order[j])
  {
    OutsidePrefixClosed(order, j);
    CascadeLeast(order[j], Outside(order[..j]));
  }

  /** How far a table is from the tables that reference nothing. */
  function Depth(t: Table): nat
  {
    match t
    case CompletionTb => 1
    case Job => 1
    case SurveyPoint => 1
    case JobReport => 2
    case _ => 0
  }

  /** Every foreign key leads to a shallower table. */
  lemma ReferencesDescend(c: Table, p: Table)
    requires References(c, p)
    ensures Depth(p) < Depth(c)
  {
  }

  /** Each table of `path` has a foreign key into the next one. */
  predicate IsChain(path: seq<Table>)
  {
    forall i :: 0 < i < |path| ==> References(path[i - 1], path[i])
  }

  lemma {:induction false} ChainDescends(path: seq<Table>)
    requires IsChain(path) && |path| > 1
    ensures Depth(path[|path| - 1]) < Depth(path[0])
    decreases |path|
  {
    ReferencesDescend(path[|path| - 2], path[|path| - 1]);
    if |path| > 2 {
      var front := path[..|path| - 1];
      assert forall i :: 0 <= i < |front| ==> front[i] == path[i];
      ChainDescends(front);
    }
  }

  /** The reference graph is acyclic: no chain of one or more foreign keys leads from a table back to itself. */
  lemma NoCycle(path: seq<Table>)
    requires IsChain(path) && |path| > 1
    ensures path[0] != path[|path| - 1]
  {
    ChainDescends(path);
  }
}
