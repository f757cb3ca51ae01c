/** The rows of the rule table, and the three builders that make them. */
module PricingRows {
  import opened Base
  import opened PricingSheet
  import opened PricingRules

  datatype RuleRow = RuleRow(name: string, flow: string, court: Option<string>, region: Option<string>,
                             band: Option<string>, yearFrom: Option<int>, yearTo: Option<int>,
                             setType: Option<string>, currency: string, basePrice: real, availability: bool,
                             clerk: Option<real>, pdf: real, delivery: real,
                             isLegacy: bool, isActive: bool, priority: int)

  /** The columns of the table's unique constraint. */
  datatype Dimensions = Dimensions(currency: string, region: Option<string>, court: Option<string>, flow: string,
                                   band: Option<string>, setType: Option<string>)

  function Dims(r: RuleRow): Dimensions {
    Dimensions(r.currency, r.region, r.court, r.flow, r.band, r.setType)
  }

  /** Two rows the database refuses to hold together: equal in every dimension, and NULL equals nothing. */
  predicate Clash(a: RuleRow, b: RuleRow) {
    Dims(a) == Dims(b) && a.region.Some? && a.court.Some? && a.band.Some? && a.setType.Some?
  }

  predicate NoClash(rows: seq<RuleRow>) {
    forall i, j :: 0 <= i < j < |rows| ==> !Clash(rows[i], rows[j])
  }

  /** No two rows share all six dimensions, even with NULL taken as a value. */
  predicate DimsDistinct(rows: seq<RuleRow>) {
    forall i, j :: 0 <= i < j < |rows| ==> Dims(rows[i]) != Dims(rows[j])
  }

  /** `deleteMany` of the rows a predicate picks. */
  function Kept(rows: seq<RuleRow>, deleted: RuleRow -> bool): (kept: seq<RuleRow>)
    ensures forall r :: r in kept <==> r in rows && !deleted(r)
  {
    if rows == [] then []
    else (if deleted(rows[0]) then [] else [rows[0]]) + Kept(rows[1..], deleted)
  }

  lemma {:induction false} KeptAll(a: seq<RuleRow>, deleted: RuleRow -> bool)
    requires forall r :: r in a ==> !deleted(r)
    ensures Kept(a, deleted) == a
  {
    if a != [] {
      assert a[0] in a && forall r :: r in a[1..] ==> r in a;
      KeptAll(a[1..], deleted);
      assert a == [a[0]] + a[1..];
    }
  }

  lemma {:induction false} KeptNone(a: seq<RuleRow>, deleted: RuleRow -> bool)
    requires forall r :: r in a ==> deleted(r)
    ensures Kept(a, deleted) == []
  {
    if a != [] {
      assert a[0] in a && forall r :: r in a[1..] ==> r in a;
      KeptNone(a[1..], deleted);
    }
  }

  // ---- Judicial rows ----

  const PKR := "PKR"
  const USD := "USD"

  function Range(b: Band, year: int): (Option<int>, Option<int>) {
    match b
    case Pending => (None, None)
    case Current => (Some(year), None)
    case Y2025 => (Some(2025), Some(2025))
    case Y2024 => (Some(2023), Some(2024))
    case Y2022 => (Some(2020), Some(2022))
    case Y2019 => (Some(2017), Some(2019))
    case Y2016 => (None, Some(2016))
  }

  /** The year falls in the band's range; an open end bounds nothing. */
  predicate InBand(b: Band, year: int, y: int) {
    && (Range(b, year).0.Some? ==> Range(b, year).0.value <= y)
    && (Range(b, year).1.Some? ==> y <= Range(b, year).1.value)
  }

  /** The five backward bands split the years up to 2025 without gap or overlap. */
  lemma BackwardBandsPartition(year: int, y: int)
    requires y <= 2025
    ensures exists b: Band :: !b.Pending? && !b.Current? && InBand(b, year, y)
    ensures forall a: Band, b: Band :: !a.Pending? && !a.Current? && !b.Pending? && !b.Current? && InBand(a, year, y) && InBand(b, year, y)
                           ==> a == b
  {
    var b := if y == 2025 then Y2025 else if y >= 2023 then Y2024 else if y >= 2020 then Y2022
             else if y >= 2017 then Y2019 else Y2016;
    assert InBand(b, year, y);
  }

  /** `deriveYearBand`: the band the resolver asks for. */
  function DeriveYearBand(pending: bool, year: Option<int>, now: int): string {
    if pending then "pending"
    else if year.None? || year.value == 0 || year.value >= now then "current"
    else if year.value == 2025 then "y2025"
    else if 2023 <= year.value <= 2024 then "y2024_2023"
    else if 2020 <= year.value <= 2022 then "y2022_2020"
    else if 2017 <= year.value <= 2019 then "y2019_2017"
    else if year.value <= 2016 then "y2016_back"
    else "current"
  }

  /**
   * The band the resolver asks for is a stored band, and its stored years hold the year asked about exactly
   * unless that year lies after 2025 and before the current one: it is asked as current, which starts later.
   */
  lemma DerivedBandHoldsTheYear(year: int, now: int)
    requires year != 0
    ensures exists b: Band :: !b.Pending? && BandText(b) == DeriveYearBand(false, Some(year), now)
                        && (InBand(b, now, year) <==> !(2025 < year < now))
    ensures BandText(Pending) == DeriveYearBand(true, Some(year), now)
  {
    var b := if year >= now then Current else if year == 2025 then Y2025 else if 2023 <= year <= 2024 then Y2024
             else if 2020 <= year <= 2022 then Y2022 else if 2017 <= year <= 2019 then Y2019
             else if year <= 2016 then Y2016 else Current;
    assert BandText(b) == DeriveYearBand(false, Some(year), now);
  }

  function Name(d: Draft): string {
    FlowText(d.flow) + " \U{2013} " + CourtText(d.court) + " \U{2013} " + RegionText(d.region)
    + " \U{2013} " + BandText(d.band) + if d.setType.Some? then " \U{2013} " + SetTypeText(d.setType) else ""
  }

  /** The currency is the column's default. */
  function RowOf(d: Draft, year: int): RuleRow {
    RuleRow(Name(d), FlowText(d.flow), Some(CourtText(d.court)), Some(RegionText(d.region)), Some(BandText(d.band)),
            Range(d.band, year).0, Range(d.band, year).1,
            if d.setType.Some? then Some(SetTypeText(d.setType)) else None, PKR,
            if d.available && d.base.Some? then d.base.value else 0.0, d.available, d.clerk, d.pdf, d.delivery,
            true, true,
            if d.setType.Some? then 10 else if d.band.Current? || d.band.Pending? then 0 else 5)
  }

  function RowsOf(ds: seq<Draft>, year: int): (rows: seq<RuleRow>)
    ensures |rows| == |ds| && forall i :: 0 <= i < |ds| ==> rows[i] == RowOf(ds[i], year)
  {
    if ds == [] then [] else RowsOf(ds[..|ds| - 1], year) + [RowOf(ds[|ds| - 1], year)]
  }

  lemma RowDims(d: Draft, e: Draft, year: int)
    requires Dims(RowOf(d, year)) == Dims(RowOf(e, year))
    ensures SameDimensions(d, e)
  {
    TextsDiffer(d, e);
  }

  // ---- Non-judicial rows ----

  const NON_JUDICIAL_FLOWS :=
    {"non_judicial_copy_of_fir", "non_judicial_registry_deed", "non_judicial_criminal_record_search"}

  /** Null dimensions match any region and band. */
  function FlatRow(flow: string, base: real): RuleRow {
    RuleRow(flow + " \U{2013} base", flow, None, None, None, None, None, None, PKR, base, true, None, 300.0, 100.0,
            true, true, 0)
  }

  const NON_JUDICIAL_ROWS: seq<RuleRow> :=
    [FlatRow("non_judicial_copy_of_fir", 2000.0), FlatRow("non_judicial_registry_deed", 3500.0),
     FlatRow("non_judicial_criminal_record_search", 2000.0)]

  // ---- USD rows ----

  const REGIONS := [Punjab, Other]
  const BANDS := [Pending, Current, Y2025, Y2024, Y2022, Y2019, Y2016]
  const USD_COURTS := [Lower, Special, High, Supreme]
  const USD_PRICING_ROW_COUNT := 72

  /** A line of the owner's list: a Case Files band, or one of the two flat services. */
  datatype UsdLine = FilesLine(band: Band) | InformationLine | SearchLine

  /** The owner's list is data. */
  type UsdPrices = (Region, UsdLine, Court) -> real

  function LineAt(l: nat): UsdLine
    requires l < 9
  {
    if l < 7 then FilesLine(BANDS[l]) else if l == 7 then InformationLine else SearchLine
  }

  function UsdRow(prices: UsdPrices, region: Region, line: UsdLine, court: Court): RuleRow {
    var flow := match line case FilesLine(_) => Files case InformationLine => Information case SearchLine => Search;
    var band := if line.FilesLine? then Some(BandText(line.band)) else None;
    RuleRow("USD " + FlowText(flow) + " " + RegionText(region) + " " + CourtText(court)
            + (if band.Some? then " " + band.value else ""),
            FlowText(flow), Some(CourtText(court)), Some(RegionText(region)), band, None, None, None, USD,
            prices(region, line, court), true, None, 0.0, 0.0, true, true, if band.Some? then 5 else 0)
  }

  type UsdMaker = (Region, UsdLine, Court) -> RuleRow

  function Maker(prices: UsdPrices): UsdMaker {
    (region, line, court) => UsdRow(prices, region, line, court)
  }

  /** Row `i` of the list: regions, then lines, then courts. */
  function MadeAt(make: UsdMaker, i: nat): RuleRow
    requires i < USD_PRICING_ROW_COUNT
  {
    make(REGIONS[i / 36], LineAt(i % 36 / 4), USD_COURTS[i % 4])
  }

  predicate IsMadeList(rows: seq<RuleRow>, make: UsdMaker, n: nat) {
    n <= USD_PRICING_ROW_COUNT && |rows| == n && forall i :: 0 <= i < n ==> rows[i] == MadeAt(make, i)
  }

  function UsdRowAt(prices: UsdPrices, i: nat): RuleRow
    requires i < USD_PRICING_ROW_COUNT
  {
    MadeAt(Maker(prices), i)
  }

  predicate IsUsdList(rows: seq<RuleRow>, prices: UsdPrices, n: nat) {
    IsMadeList(rows, Maker(prices), n)
  }

  /** `buildUsdPricingRows`. */
  method BuildUsdRows(prices: UsdPrices) returns (rows: seq<RuleRow>)
    ensures IsUsdList(rows, prices, USD_PRICING_ROW_COUNT)
  {
    rows := BuildList(Maker(prices));
  }

  method BuildList(make: UsdMaker) returns (rows: seq<RuleRow>)
    ensures IsMadeList(rows, make, USD_PRICING_ROW_COUNT)
  {
    rows := [];
    for r := 0 to |REGIONS|
      invariant IsMadeList(rows, make, r * 36)
    {
      for b := 0 to |BANDS|
        invariant IsMadeList(rows, make, r * 36 + b * 4)
      {
        rows := PushCourts(rows, make, r, b, FilesLine(BANDS[b]));
      }
      rows := PushCourts(rows, make, r, 7, InformationLine);
      rows := PushCourts(rows, make, r, 8, SearchLine);
    }
  }

  lemma UsdPlace(r: nat, l: nat, t: nat)
    requires r < 2 && l < 9 && t < 4
    ensures var i := r * 36 + l * 4 + t; i < USD_PRICING_ROW_COUNT && i / 36 == r && i % 36 / 4 == l && i % 4 == t
  {
    assert l * 4 + t < 36;
  }

  lemma MadeOneMore(rows: seq<RuleRow>, make: UsdMaker, n: nat, row: RuleRow)
    requires n < USD_PRICING_ROW_COUNT && IsMadeList(rows, make, n) && row == MadeAt(make, n)
    ensures IsMadeList(rows + [row], make, n + 1)
  {
  }

  /** One line of the list, court by court. */
  method PushCourts(before: seq<RuleRow>, make: UsdMaker, r: nat, l: nat, line: UsdLine) returns (rows: seq<RuleRow>)
    requires r < 2 && l < 9 && line == LineAt(l) && IsMadeList(before, make, r * 36 + l * 4)
    ensures IsMadeList(rows, make, r * 36 + l * 4 + 4)
  {
    rows := before;
    for t := 0 to |USD_COURTS|
      invariant IsMadeList(rows, make, r * 36 + l * 4 + t)
    {
      UsdPlace(r, l, t);
      var row := make(REGIONS[r], line, USD_COURTS[t]);
      MadeOneMore(rows, make, r * 36 + l * 4 + t, row);
      rows := rows + [row];
    }
  }

  lemma UsdPlaces(i: nat, j: nat)
    requires i < j < USD_PRICING_ROW_COUNT
    ensures i / 36 != j / 36 || i % 36 / 4 != j % 36 / 4 || i % 4 != j % 4
  {
  }

  function UsdDims(region: Region, line: UsdLine, court: Court): Dimensions {
    Dimensions(USD, Some(RegionText(region)), Some(CourtText(court)),
               FlowText(match line case FilesLine(_) => Files case InformationLine => Information case SearchLine => Search),
               if line.FilesLine? then Some(BandText(line.band)) else None, None)
  }

  lemma UsdDimsAre(prices: UsdPrices, region: Region, line: UsdLine, court: Court)
    ensures Dims(UsdRow(prices, region, line, court)) == UsdDims(region, line, court)
  {
  }

  lemma UsdRowsDiffer(prices: UsdPrices, i: nat, j: nat)
    requires i < j < USD_PRICING_ROW_COUNT
    ensures Dims(UsdRowAt(prices, i)) != Dims(UsdRowAt(prices, j))
  {
    UsdPlaces(i, j);
    var r, a, c := REGIONS[i / 36], LineAt(i % 36 / 4), USD_COURTS[i % 4];
    var s, b, d := REGIONS[j / 36], LineAt(j % 36 / 4), USD_COURTS[j % 4];
    assert (r, c, a) != (s, d, b);
    UsdDimsAre(prices, r, a, c);
    UsdDimsAre(prices, s, b, d);
    UsdDimsDiffer(r, a, c, s, b, d);
  }

  lemma UsdDimsDiffer(r: Region, a: UsdLine, c: Court, s: Region, b: UsdLine, d: Court)
    ensures UsdDims(r, a, c) == UsdDims(s, b, d) ==> (r, c, a) == (s, d, b)
  {
    if UsdDims(r, a, c) == UsdDims(s, b, d) {
      var x := Draft(Files, c, r, if a.FilesLine? then a.band else Pending, None, None, true, None, 0.0, 0.0);
      var y := Draft(Files, d, s, if b.FilesLine? then b.band else Pending, None, None, true, None, 0.0, 0.0);
      TextsDiffer(x, y);
    }
  }

  /** The list prices every region, line and court once, at the owner's price, in dollars. */
  lemma UsdListCovers(prices: UsdPrices, rows: seq<RuleRow>, r: nat, l: nat, t: nat) returns (i: nat)
    requires IsUsdList(rows, prices, USD_PRICING_ROW_COUNT) && r < 2 && l < 9 && t < 4
    ensures i == r * 36 + l * 4 + t && i < |rows|
    ensures rows[i].currency == "USD" && rows[i].basePrice == prices(REGIONS[r], LineAt(l), USD_COURTS[t])
    ensures Dims(rows[i]) == UsdDims(REGIONS[r], LineAt(l), USD_COURTS[t])
    ensures rows[i].availability && rows[i].clerk.None? && rows[i].pdf == 0.0 && rows[i].delivery == 0.0
    ensures rows[i].isActive && rows[i].yearFrom.None? && rows[i].yearTo.None? && rows[i].priority == if l < 7 then 5 else 0
  {
    UsdPlace(r, l, t);
    i := r * 36 + l * 4 + t;
    assert rows[i] == UsdRowAt(prices, i);
  }
}
