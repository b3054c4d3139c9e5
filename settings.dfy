/** The constant tables of the configuration (TIME_SERIES_MAPPING,
    TIME_SERIES_ORDER, METADATA_DEFAULTS, METADATA_COLUMNS, the file
    patterns) and the positional column map, passed around as one value. */
module Settings {

  /** One entry of TIME_SERIES_MAPPING. */
  datatype Metric = Metric(suffix: string, description: string, sourceColumn: string)

  /** A metadata value: a string, a number (opaque; with its `str()` form)
      or a boolean. */
  datatype MetaValue = MStr(s: string) | MNum(x: real, shown: string) | MBool(b: bool)

  /** A `'{isin}...{timestamp}...'` filename pattern: `head + isin + middle + timestamp + tail`. */
  datatype Pattern = Pattern(head: string, middle: string, tail: string)

  function Format(p: Pattern, isin: string, timestamp: string): (r: string)
    ensures |r| == |p.head| + |isin| + |p.middle| + |timestamp| + |p.tail|
  {
    p.head + isin + p.middle + timestamp + p.tail
  }

  /** Names formatted from one pattern with timestamps of one length are
      equal only for the same identifier and timestamp. */
  lemma FormatInjective(p: Pattern, a: string, b: string, s: string, t: string)
    requires |s| == |t| && Format(p, a, s) == Format(p, b, t)
    ensures a == b && s == t
  {
    var x, y := Format(p, a, s), Format(p, b, t);
    assert |a| == |b|;
    assert a == x[|p.head|..|p.head| + |a|] && b == y[|p.head|..|p.head| + |b|];
    var o := |p.head| + |a| + |p.middle|;
    assert s == x[o..o + |s|] && t == y[o..o + |t|];
  }

  datatype Config = Config(
    mapping: map<string, Metric>,     // TIME_SERIES_MAPPING
    order: seq<string>,               // TIME_SERIES_ORDER
    positions: map<string, nat>,      // the column_mapping of create_time_series_data
    defaults: map<string, MetaValue>, // METADATA_DEFAULTS
    metaColumns: seq<string>,         // METADATA_COLUMNS
    dataPattern: Pattern,             // DATA_FILE_PATTERN
    metaPattern: Pattern,             // META_FILE_PATTERN
    outputDir: string)                // OUTPUT_DIR

  /** Every metric named in the order has a mapping entry (otherwise the
      source raises KeyError). */
  predicate Valid(c: Config) {
    forall t :: t in c.order ==> t in c.mapping
  }

  /** The code of metric `t` for an identifier: `f"{isin}.{suffix}"`. */
  function Code(cfg: Config, isin: string, t: string): string
    requires t in cfg.mapping
  {
    isin + "." + cfg.mapping[t].suffix
  }

  /** The description of metric `t`: `f"ISIN:{isin};{description}:{label}"`. */
  function SeriesDescription(cfg: Config, isin: string, description: string, t: string): string
    requires t in cfg.mapping
  {
    "ISIN:" + isin + ";" + description + ":" + cfg.mapping[t].description
  }

  const Base: string := "https://www.bancaditalia.it/compiti/operazioni-mef/risultati-aste/index.html"

  /** The configuration as shipped. */
  const Shipped: Config := Config(
    map[
      "ASGN" := Metric("ASGN.ITBI.M", "amounts: assigned", "assigned"),
      "MAX" := Metric("MAX.ITBI.M", "amounts: maximum offered", "max_offered"),
      "MIN" := Metric("MIN.ITBI.M", "amounts: minimum offered", "min_offered"),
      "OFR" := Metric("OFR.ITBI.M", "amounts: offered", "offered"),
      "REQ" := Metric("REQ.ITBI.M", "amounts: required", "required")],
    ["ASGN", "MAX", "MIN", "OFR", "REQ"],
    map["offerto" := 9, "minimo offerto" := 10, "massimo offerto" := 11, "richiesto" := 12, "assegnato" := 13],
    map[
      "FREQUENCY" := MStr("D"),
      "MULTIPLIER" := MNum(6.0, "6.0"),
      "AGGREGATION_TYPE" := MStr("END_OF_PERIOD"),
      "UNIT_TYPE" := MStr("LEVEL"),
      "DATA_TYPE" := MStr("CURRENCY"),
      "DATA_UNIT" := MStr("EUR"),
      "SEASONALLY_ADJUSTED" := MStr("NSA"),
      "ANNUALIZED" := MStr(""),
      "PROVIDER_MEASURE_URL" := MStr(Base),
      "PROVIDER" := MStr("AfricaAI"),
      "SOURCE" := MStr("BdIt"),
      "SOURCE_DESCRIPTION" := MStr("Banca d'Italia"),
      "COUNTRY" := MStr("ITA"),
      "DATASET" := MStr("ITBI")],
    ["CODE", "DESCRIPTION", "FREQUENCY", "MULTIPLIER", "AGGREGATION_TYPE", "UNIT_TYPE",
     "DATA_TYPE", "DATA_UNIT", "SEASONALLY_ADJUSTED", "ANNUALIZED", "PROVIDER_MEASURE_URL",
     "PROVIDER", "SOURCE", "SOURCE_DESCRIPTION", "COUNTRY", "DATASET",
     "NEXT_RELEASE_DATE", "LAST_RELEASE_DATE"],
    Pattern("", "_DATA_", ".xls"),
    Pattern("", "_META_", ".xls"),
    "./output")

  /** The shipped configuration is usable, and none of its metrics'
      English source-column names is a key of the Italian positional map. */
  lemma ShippedLookupMisses()
    ensures Valid(Shipped) && |Shipped.order| == 5 && |Shipped.metaColumns| == 18
    ensures forall t :: t in Shipped.order ==> Shipped.mapping[t].sourceColumn !in Shipped.positions
  {
  }
}
