/** The CSV extractor's naming rule: which staging table a data file is loaded into. */
module Extractor {

  const ProCountPrefix := "stg_pro_count__"

  /**
   * `CsvExtractor._generate_table_name`: the file `ac_property.csv` belongs to the
   * Aries source system, every other file to ProCount; the table name is
   * `stg_<system>__<stem>`.
   */
  function GenerateTableName(stem: string): (r: string)
    ensures stem == "ac_property" ==> r == "stg_aries__ac_property"
    ensures stem != "ac_property" ==> |r| == |ProCountPrefix| + |stem| && r[..|ProCountPrefix|] == ProCountPrefix
    ensures |r| > |stem| && r[..4] == "stg_" && r[|r| - |stem|..] == stem
  {
    var system := if stem == "ac_property" then "aries" else "pro_count";
    "stg_" + system + "__" + stem
  }

  /** Distinct file stems never land in the same table, so no extracted frame overwrites another. */
  lemma {:induction false} GenerateTableNameInjective(a: string, b: string)
    ensures GenerateTableName(a) == GenerateTableName(b) ==> a == b
  {
    var ra, rb := GenerateTableName(a), GenerateTableName(b);
    if a == "ac_property" && b != "ac_property" {
      assert ra[4] != rb[4];
    } else if a != "ac_property" && b == "ac_property" {
      assert ra[4] != rb[4];
    } else if ra == rb && a != "ac_property" {
      assert a == ra[|ProCountPrefix|..] == rb[|ProCountPrefix|..] == b;
    }
  }
}
