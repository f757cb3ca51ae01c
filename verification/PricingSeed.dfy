/**
 * The full pricing seed: eight blocks that must each contribute, Sheet 5 or its waiver, the guards,
 * and one transaction that replaces the whole rule table.
 */
module PricingSeed {
  import opened Base
  import opened PricingSheet
  import opened PricingParser
  import opened PricingRules
  import opened PricingRows

  datatype Workbook = Workbook(rates: Option<Grid>, setTypes: Option<Grid>, sheet5: Option<Grid>)

  datatype Flags = Flags(allowMissingClerkRates: bool, allowLowClerkRates: bool)

  datatype Job = Job(block: Block, grid: Grid)

  const MIN_TOTAL_DRAFTS := 350
  const MIN_PLAUSIBLE_CLERK_COST := 50.0

  /** Every `expectContribution` call, in order, with its coordinates. */
  function Jobs(rates: Grid, setTypes: Grid): (jobs: seq<Job>)
    ensures |jobs| == 8
  {
    [Job(Headline(Punjab, 1, [3, 4, 5, 6, 7, 8], 1, 16), rates),
     Job(RecordBands(Punjab, 21, [23, 24, 25, 26, 27], 1, 16, 0), rates),
     Job(Headline(Other, 11, [13, 14, 15, 16, 17, 18], 1, 16), rates),
     Job(RecordBands(Other, 31, [33, 34, 35, 36, 37], 1, 16, 0), rates),
     Job(SearchBands(Punjab, 25, [27, 28, 29, 30, 31], 22, 28, 21), rates),
     Job(SearchBands(Other, 33, [35, 36, 37, 38], 22, 28, 21), rates),
     Job(SetTypes(Punjab, 2, [4, 5, 6, 7, 8, 9, 10]), setTypes),
     Job(SetTypes(Other, 13, [15, 16, 17, 18, 19, 20, 21]), setTypes)]
  }

  /** Sheet 5 has no block outside Punjab. */
  const CLERK_BLOCK := SetTypes(Punjab, 1, [3, 4, 5, 6, 7, 8, 9])

  // ---- What the seed should do ----

  type JobReader = Job -> Result<seq<Draft>, Failure>

  /** What `expectContribution` makes of a job. */
  function Reader(lex: Lexer): JobReader {
    (job: Job) => Contribution(lex, job.block, job.grid)
  }

  /** The buffer after jobs `k` onwards, over what it already holds. */
  function Gather(read: JobReader, jobs: seq<Job>, k: nat, acc: seq<Draft>): Result<seq<Draft>, Failure>
    requires k <= |jobs|
    decreases |jobs| - k
  {
    if k == |jobs| then Ok(acc)
    else match read(jobs[k])
      case Err(e) => Err(e)
      case Ok(ds) => Gather(read, jobs, k + 1, acc + ds)
  }

  function Drafts(lex: Lexer, book: Workbook): Result<seq<Draft>, Failure> {
    if book.rates.None? then Err(NoSheet("Wusuq Service Rates & Clerk Rat"))
    else if book.setTypes.None? then Err(NoSheet("Attested Non Attested Both Rate"))
    else Gather(Reader(lex), Jobs(book.rates.value, book.setTypes.value), 0, [])
  }

  function Rates(lex: Lexer, book: Workbook, flags: Flags): Result<ClerkRates, Failure> {
    match book.sheet5
    case Some(grid) => SheetRates(lex, CLERK_BLOCK, grid, BlockTiers(lex, CLERK_BLOCK, grid), map[])
    case None => if flags.allowMissingClerkRates then Ok(map[]) else Err(NoClerkSheet)
  }

  function Unique(ds: seq<Draft>, rates: ClerkRates): seq<Draft> {
    OverlaidAll(UniqueRules(ds), rates)
  }

  function JudicialRows(lex: Lexer, book: Workbook, flags: Flags, year: int): Result<seq<RuleRow>, Failure> {
    RowsFrom(Drafts(lex, book), Rates(lex, book, flags), year)
  }

  function RowsFrom(drafts: Result<seq<Draft>, Failure>, rates: Result<ClerkRates, Failure>, year: int)
    : Result<seq<RuleRow>, Failure>
  {
    if drafts.Err? then Err(drafts.error)
    else if rates.Err? then Err(rates.error)
    else if |Unique(drafts.value, rates.value)| < MIN_TOTAL_DRAFTS then Err(TooFewDrafts)
    else Ok(RowsOf(Unique(drafts.value, rates.value), year))
  }

  predicate Implausible(r: RuleRow) {
    r.clerk.Some? && 0.0 < r.clerk.value < MIN_PLAUSIBLE_CLERK_COST
  }

  /** `findImplausibleClerkRows`. */
  function ImplausibleRows(rows: seq<RuleRow>): (bad: seq<RuleRow>)
    ensures forall r :: r in bad <==> r in rows && Implausible(r)
  {
    if rows == [] then []
    else (if Implausible(rows[0]) then [rows[0]] else []) + ImplausibleRows(rows[1..])
  }

  // ---- The build ----

  /** `buildJudicialRuleRows`. */
  method BuildJudicialRows(lex: Lexer, book: Workbook, flags: Flags, year: int)
    returns (r: Result<seq<RuleRow>, Failure>)
    ensures r == JudicialRows(lex, book, flags, year)
  {
    var parser := new Parser(lex);
    var failure := GatherDrafts(parser, book);
    if failure.Some? { return Err(failure.value); }
    if book.sheet5.Some? {
      failure := parser.ParseClerkBlock(CLERK_BLOCK, book.sheet5.value);
      if failure.Some? { return Err(failure.value); }
    } else if !flags.allowMissingClerkRates {
      return Err(NoClerkSheet);
    }
    var drafts := BuildUnique(parser.drafts, parser.rates);
    if |drafts| < MIN_TOTAL_DRAFTS { return Err(TooFewDrafts); }
    r := Ok(RowsOf(drafts, year));
  }

  method GatherDrafts(parser: Parser, book: Workbook) returns (failure: Option<Failure>)
    requires parser.drafts == []
    modifies parser`drafts
    ensures failure == Drafts(parser.lex, book).Failure()
    ensures failure.None? ==> Drafts(parser.lex, book) == Ok(parser.drafts)
  {
    if book.rates.None? { return Some(NoSheet("Wusuq Service Rates & Clerk Rat")); }
    if book.setTypes.None? { return Some(NoSheet("Attested Non Attested Both Rate")); }
    var jobs := Jobs(book.rates.value, book.setTypes.value);
    failure := Expect(parser, jobs, 0);
    if failure.Some? { return; }
    failure := Expect(parser, jobs, 1);
    if failure.Some? { return; }
    failure := Expect(parser, jobs, 2);
    if failure.Some? { return; }
    failure := Expect(parser, jobs, 3);
    if failure.Some? { return; }
    failure := Expect(parser, jobs, 4);
    if failure.Some? { return; }
    failure := Expect(parser, jobs, 5);
    if failure.Some? { return; }
    failure := Expect(parser, jobs, 6);
    if failure.Some? { return; }
    failure := Expect(parser, jobs, 7);
  }

  /** Job `k`: what is left to gather is the later jobs over the longer buffer. */
  method Expect(parser: Parser, jobs: seq<Job>, k: nat) returns (failure: Option<Failure>)
    requires k < |jobs|
    modifies parser`drafts
    ensures failure.Some? ==> Gather(Reader(parser.lex), jobs, k, old(parser.drafts)) == Err(failure.value)
    ensures failure.None? ==> Gather(Reader(parser.lex), jobs, k, old(parser.drafts))
                              == Gather(Reader(parser.lex), jobs, k + 1, parser.drafts)
  {
    failure := parser.ExpectContribution(jobs[k].block, jobs[k].grid);
  }

  // ---- The database ----

  /** The rule table. A transaction commits both of its statements or neither. */
  class RuleTable {
    var rows: seq<RuleRow>

    /** `deleteMany` then `createMany`; the insert fails on a clash or a lost connection. */
    method Replace(doomed: RuleRow -> bool, added: seq<RuleRow>, connected: bool) returns (saved: bool)
      modifies this
      ensures saved <==> connected && NoClash(Kept(old(rows), doomed) + added)
      ensures rows == if saved then Kept(old(rows), doomed) + added else old(rows)
    {
      var before := rows;
      rows := Kept(rows, doomed);
      saved := connected && NoClash(rows + added);
      if saved { rows := rows + added; } else { rows := before; }
    }

    method ReplaceAll(added: seq<RuleRow>, connected: bool) returns (saved: bool)
      modifies this
      ensures saved <==> connected && NoClash(added)
      ensures rows == if saved then added else old(rows)
    {
      var every: RuleRow -> bool := _ => true;
      KeptNone(rows, every);
      assert Kept(rows, every) + added == added;
      saved := Replace(every, added, connected);
    }
  }

  /** `main`. */
  method Seed(lex: Lexer, book: Workbook, flags: Flags, year: int, prices: UsdPrices, connected: bool, table: RuleTable)
    returns (failure: Option<Failure>)
    modifies table
    ensures failure.None? <==> Succeeds(lex, book, flags, connected)
    ensures failure.None? ==> IsRebuilt(lex, book, flags, year, prices, table.rows)
    ensures failure.Some? ==> table.rows == old(table.rows)
  {
    SucceedsExactly(lex, book, flags, year);
    var built := BuildJudicialRows(lex, book, flags, year);
    if built.Err? { return Some(built.error); }
    var rows := built.value;
    if ImplausibleRows(rows) != [] && !flags.allowLowClerkRates { return Some(LowClerkRates); }
    var usd := BuildUsdRows(prices);
    if |usd| != USD_PRICING_ROW_COUNT { return Some(WrongUsdCount); }
    var allRows := rows + NON_JUDICIAL_ROWS + usd;
    RebuiltIsDistinct(lex, book, flags, year, prices, rows, usd);
    var saved := table.ReplaceAll(allRows, connected);
    failure := if saved then None else Some(NotSaved);
    if saved { assert table.rows == rows + NON_JUDICIAL_ROWS + usd && IsUsdList(usd, prices, USD_PRICING_ROW_COUNT); }
  }

  // ---- When it succeeds, and what the table then holds ----

  predicate EveryBlockContributes(lex: Lexer, rates: Grid, setTypes: Grid) {
    var jobs := Jobs(rates, setTypes);
    forall i :: 0 <= i < |jobs| ==> Reader(lex)(jobs[i]).Ok?
  }

  /** The seed goes through exactly when every guard does. */
  predicate Succeeds(lex: Lexer, book: Workbook, flags: Flags, connected: bool) {
    && book.rates.Some? && book.setTypes.Some?
    && EveryBlockContributes(lex, book.rates.value, book.setTypes.value)
    && Rates(lex, book, flags).Ok?
    && Drafts(lex, book).Ok?
    && Acceptable(Unique(Drafts(lex, book).value, Rates(lex, book, flags).value), flags.allowLowClerkRates)
    && connected
  }

  /** Enough unique drafts, and no clerk rate strictly between 0 and 50 unless that is waived. */
  predicate Acceptable(unique: seq<Draft>, allowLow: bool) {
    |unique| >= MIN_TOTAL_DRAFTS && (allowLow || NoneLow(unique))
  }

  predicate NoneLow(ds: seq<Draft>) {
    forall d :: d in ds ==> !ImplausibleDraft(d)
  }

  predicate ImplausibleDraft(d: Draft) {
    d.clerk.Some? && 0.0 < d.clerk.value < MIN_PLAUSIBLE_CLERK_COST
  }

  /** The table holds exactly the judicial rows, then the non-judicial ones, then the 72 USD ones. */
  ghost predicate IsRebuilt(lex: Lexer, book: Workbook, flags: Flags, year: int, prices: UsdPrices, table: seq<RuleRow>) {
    && JudicialRows(lex, book, flags, year).Ok?
    && exists usd :: IsUsdList(usd, prices, USD_PRICING_ROW_COUNT)
                     && table == JudicialRows(lex, book, flags, year).value + NON_JUDICIAL_ROWS + usd
  }

  /** Some row of the block and some column of its header are recognised, and every cell between them is a price. */
  predicate IsFilled(lex: Lexer, b: Block, grid: Grid) {
    && BlockLines(lex, b, grid) != [] && BlockTiers(lex, b, grid) != []
    && forall line, t :: line in BlockLines(lex, b, grid) && t in BlockTiers(lex, b, grid) ==> TierParses(lex, b, t, line.row)
  }

  /** `expectContribution` lets a block through exactly when the sheet fills it. */
  lemma ContributesExactly(lex: Lexer, b: Block, grid: Grid)
    ensures Contribution(lex, b, grid).Ok? <==> IsFilled(lex, b, grid)
  {
    BlockParses(lex, b, grid);
    if ReadBlock(lex, b, grid).Ok? {
      var lines, tiers := BlockLines(lex, b, grid), BlockTiers(lex, b, grid);
      LinesFit(lex, b, grid, |b.rows|);
      LinesLength(lex, b, lines, tiers, Times(|tiers|, Width(b)));
      TimesPositive(|tiers|, Width(b));
      TimesPositive(|lines|, Times(|tiers|, Width(b)));
    }
  }

  lemma {:induction false} TimesPositive(n: nat, w: nat)
    ensures Times(n, w) > 0 <==> n > 0 && w > 0
  {
    if n > 0 { TimesPositive(n - 1, w); }
  }

  lemma {:induction false} GatherOk(read: JobReader, jobs: seq<Job>, k: nat, acc: seq<Draft>)
    requires k <= |jobs|
    ensures Gather(read, jobs, k, acc).Ok? <==> forall i :: k <= i < |jobs| ==> read(jobs[i]).Ok?
    decreases |jobs| - k
  {
    if k < |jobs| {
      var next := read(jobs[k]);
      if next.Ok? { GatherOk(read, jobs, k + 1, acc + next.value); }
    }
  }

  lemma DraftsOk(lex: Lexer, book: Workbook)
    ensures Drafts(lex, book).Ok?
            <==> book.rates.Some? && book.setTypes.Some? && EveryBlockContributes(lex, book.rates.value, book.setTypes.value)
  {
    if book.rates.Some? && book.setTypes.Some? {
      GatherOk(Reader(lex), Jobs(book.rates.value, book.setTypes.value), 0, []);
    }
  }

  /** Whether drafts and rates can be read is decided by the cells of the sheets and the waiver alone. */
  lemma SheetsDecide(lex: Lexer, book: Workbook, flags: Flags)
    ensures Drafts(lex, book).Ok?
            <==> book.rates.Some? && book.setTypes.Some?
                 && forall job :: job in Jobs(book.rates.value, book.setTypes.value) ==> IsFilled(lex, job.block, job.grid)
    ensures Rates(lex, book, flags).Ok?
            <==> match book.sheet5
                 case None => flags.allowMissingClerkRates
                 case Some(grid) => AllClerkParse(lex, BlockLines(lex, CLERK_BLOCK, grid), BlockTiers(lex, CLERK_BLOCK, grid))
  {
    DraftsOk(lex, book);
    if book.rates.Some? && book.setTypes.Some? {
      var jobs := Jobs(book.rates.value, book.setTypes.value);
      forall job | job in jobs ensures Reader(lex)(job).Ok? <==> IsFilled(lex, job.block, job.grid) {
        ContributesExactly(lex, job.block, job.grid);
      }
      JobsRead(Reader(lex), jobs);
    }
    if book.sheet5.Some? { SheetRatesExactly(lex, CLERK_BLOCK, book.sheet5.value); }
  }

  lemma JobsRead(read: JobReader, jobs: seq<Job>)
    ensures (forall i :: 0 <= i < |jobs| ==> read(jobs[i]).Ok?) <==> forall job :: job in jobs ==> read(job).Ok?
  {
    assert forall i :: 0 <= i < |jobs| ==> jobs[i] in jobs;
  }

  lemma GuardsPass(drafts: Result<seq<Draft>, Failure>, rates: Result<ClerkRates, Failure>, year: int, allowLow: bool)
    ensures RowsFrom(drafts, rates, year).Ok? && (allowLow || ImplausibleRows(RowsFrom(drafts, rates, year).value) == [])
            <==> drafts.Ok? && rates.Ok? && Acceptable(Unique(drafts.value, rates.value), allowLow)
  {
    if drafts.Ok? && rates.Ok? { NoneImplausible(Unique(drafts.value, rates.value), year); }
  }

  lemma SucceedsExactly(lex: Lexer, book: Workbook, flags: Flags, year: int)
    ensures Succeeds(lex, book, flags, true)
            <==> JudicialRows(lex, book, flags, year).Ok?
                 && (flags.allowLowClerkRates || ImplausibleRows(JudicialRows(lex, book, flags, year).value) == [])
  {
    DraftsOk(lex, book);
    GuardsPass(Drafts(lex, book), Rates(lex, book, flags), year, flags.allowLowClerkRates);
  }

  lemma NoneImplausible(ds: seq<Draft>, year: int)
    ensures ImplausibleRows(RowsOf(ds, year)) == [] <==> NoneLow(ds)
  {
    var rows := RowsOf(ds, year);
    var bad := ImplausibleRows(rows);
    if bad != [] {
      assert bad[0] in bad;
      var i :| 0 <= i < |rows| && rows[i] == bad[0];
      assert ds[i] in ds;
    } else {
      forall d | d in ds ensures !ImplausibleDraft(d) {
        var i :| 0 <= i < |ds| && ds[i] == d;
        assert rows[i] in rows && rows[i] !in bad;
      }
    }
  }

  // ---- What a judicial row holds ----

  /** The drafts the jobs `k` up to `j` add. */
  function Added(read: JobReader, jobs: seq<Job>, k: nat, j: nat): nat
    requires k <= j <= |jobs|
  {
    if j == k then 0 else Added(read, jobs, k, j - 1) + if read(jobs[j - 1]).Ok? then |read(jobs[j - 1]).value| else 0
  }

  lemma {:induction false} AddedFromNext(read: JobReader, jobs: seq<Job>, k: nat, j: nat)
    requires k < j <= |jobs| && read(jobs[k]).Ok?
    ensures Added(read, jobs, k, j) == |read(jobs[k]).value| + Added(read, jobs, k + 1, j)
  {
    if j > k + 1 { AddedFromNext(read, jobs, k, j - 1); } else { assert Added(read, jobs, k, k) == 0; }
  }

  /** Draft `o` of job `j` stands after the drafts of the jobs before it, and no other draft is there. */
  lemma {:induction false} GatherAt(read: JobReader, jobs: seq<Job>, k: nat, acc: seq<Draft>, j: nat, o: nat)
    requires k <= |jobs| && Gather(read, jobs, k, acc).Ok?
    ensures var all := Gather(read, jobs, k, acc).value;
            && |all| == |acc| + Added(read, jobs, k, |jobs|) && acc <= all
            && (k <= j < |jobs| && read(jobs[j]).Ok? && o < |read(jobs[j]).value| ==>
                  |acc| + Added(read, jobs, k, j) + o < |all| && all[|acc| + Added(read, jobs, k, j) + o] == read(jobs[j]).value[o])
    decreases |jobs| - k
  {
    if k < |jobs| {
      var ds := read(jobs[k]).value;
      GatherAt(read, jobs, k + 1, acc + ds, j, o);
      AddedFromNext(read, jobs, k, |jobs|);
      if k < j < |jobs| { AddedFromNext(read, jobs, k, j); }
      else if k == j && o < |ds| {
        var all := Gather(read, jobs, k, acc).value;
        assert (acc + ds)[|acc| + o] == ds[o] && all[|acc| + o] == (acc + ds)[|acc| + o];
      }
    }
  }

  /** Some block, line and tier of the workbook say this draft. */
  ghost predicate IsFromSheet(lex: Lexer, rates: Grid, setTypes: Grid, d: Draft) {
    exists job :: job in Jobs(rates, setTypes)
                  && IsReadFrom(lex, job.block, BlockLines(lex, job.block, job.grid), BlockTiers(lex, job.block, job.grid), d)
  }

  /** The buffer holds nothing but what it held and what some job adds. */
  lemma {:induction false} GatherAddsOnly(read: JobReader, jobs: seq<Job>, k: nat, acc: seq<Draft>, d: Draft)
    requires k <= |jobs| && Gather(read, jobs, k, acc).Ok?
    ensures d in Gather(read, jobs, k, acc).value ==> d in acc || AddedBySome(read, jobs, d)
    decreases |jobs| - k
  {
    if k < |jobs| {
      GatherAddsOnly(read, jobs, k + 1, acc + read(jobs[k]).value, d);
      assert jobs[k] in jobs;
    }
  }

  predicate AddedBySome(read: JobReader, jobs: seq<Job>, d: Draft) {
    exists job :: job in jobs && read(job).Ok? && d in read(job).value
  }

  lemma DraftsAreFromSheet(lex: Lexer, book: Workbook, d: Draft)
    ensures Drafts(lex, book).Ok? && d in Drafts(lex, book).value ==> IsFromSheet(lex, book.rates.value, book.setTypes.value, d)
  {
    if Drafts(lex, book).Ok? && d in Drafts(lex, book).value {
      var jobs := Jobs(book.rates.value, book.setTypes.value);
      GatherAddsOnly(Reader(lex), jobs, 0, [], d);
      var job :| job in jobs && Reader(lex)(job).Ok? && d in Reader(lex)(job).value;
      BlockIsRead(lex, job.block, job.grid);
    }
  }

  /** The years a stored row covers. */
  predicate HasYears(band: Band, year: int, r: RuleRow) {
    match band
    case Pending => r.yearFrom == None && r.yearTo == None
    case Current => r.yearFrom == Some(year) && r.yearTo == None
    case Y2025 => r.yearFrom == Some(2025) && r.yearTo == Some(2025)
    case Y2024 => r.yearFrom == Some(2023) && r.yearTo == Some(2024)
    case Y2022 => r.yearFrom == Some(2020) && r.yearTo == Some(2022)
    case Y2019 => r.yearFrom == Some(2017) && r.yearTo == Some(2019)
    case Y2016 => r.yearFrom == None && r.yearTo == Some(2016)
  }

  /** Set-type rows go before banded ones, and these before the current and pending ones. */
  predicate HasPriority(d: Draft, r: RuleRow) {
    r.priority == if d.setType.Some? then 10 else if d.band.Current? || d.band.Pending? then 0 else 5
  }

  /** The row carries the draft's amounts, each in its own column, and its five dimensions. */
  predicate CarriesDraft(d: Draft, year: int, r: RuleRow) {
    && r.flow == FlowText(d.flow) && r.court == Some(CourtText(d.court)) && r.region == Some(RegionText(d.region))
    && r.band == Some(BandText(d.band)) && (if d.setType.None? then r.setType.None? else r.setType == Some(SetTypeText(d.setType)))
    && r.pdf == d.pdf && r.delivery == d.delivery && r.availability == d.available
    && (if d.available then Some(r.basePrice) == d.base else r.basePrice == 0.0)
    && r.currency == "PKR" && r.isActive && r.isLegacy
    && HasYears(d.band, year, r) && HasPriority(d, r)
    && r.name == r.flow + " \U{2013} " + r.court.value + " \U{2013} " + r.region.value + " \U{2013} " + r.band.value
                 + (if r.setType.Some? then " \U{2013} " + r.setType.value else "")
  }

  /** Sheet 5 holds an amount for this set-type Case Files draft. */
  ghost predicate HasSheet5Rate(lex: Lexer, sheet5: Option<Grid>, d: Draft, amount: real) {
    && d.setType.Some? && d.flow == Files && sheet5.Some?
    && var lines, tiers := BlockLines(lex, CLERK_BLOCK, sheet5.value), BlockTiers(lex, CLERK_BLOCK, sheet5.value);
       exists i: nat, j: nat :: IsLastRate(lex, CLERK_BLOCK, lines, tiers, ClerkKey(d.region, d.court, d.band, d.setType.value), i, j)
                                && RateAt(lex, CLERK_BLOCK, lines[i], tiers[j], ClerkKey(d.region, d.court, d.band, d.setType.value)) == Some(amount)
  }

  /** The clerk's cost: Sheet 5's last amount when it has one for this row, the draft's own otherwise. */
  ghost predicate HasClerk(lex: Lexer, sheet5: Option<Grid>, d: Draft, r: RuleRow) {
    if exists amount :: HasSheet5Rate(lex, sheet5, d, amount) then r.clerk.Some? && HasSheet5Rate(lex, sheet5, d, r.clerk.value)
    else r.clerk == d.clerk
  }

  /** The judicial row of the last draft of its dimensions. */
  ghost predicate IsLastRow(lex: Lexer, book: Workbook, ds: seq<Draft>, year: int, r: RuleRow)
    requires book.rates.Some? && book.setTypes.Some?
  {
    exists p :: 0 <= p < |ds| && NoneLater(ds, p) && IsFromSheet(lex, book.rates.value, book.setTypes.value, ds[p])
                && CarriesDraft(ds[p], year, r) && HasClerk(lex, book.sheet5, ds[p], r)
  }

  lemma Sheet5Rates(lex: Lexer, book: Workbook, flags: Flags, d: Draft)
    requires Rates(lex, book, flags).Ok? && d.setType.Some? && d.flow == Files
    ensures var rates, key := Rates(lex, book, flags).value, ClerkKey(d.region, d.court, d.band, d.setType.value);
            if key in rates then HasSheet5Rate(lex, book.sheet5, d, rates[key])
            else forall amount :: !HasSheet5Rate(lex, book.sheet5, d, amount)
  {
    if book.sheet5.Some? {
      var grid, key := book.sheet5.value, ClerkKey(d.region, d.court, d.band, d.setType.value);
      var lines, tiers := BlockLines(lex, CLERK_BLOCK, grid), BlockTiers(lex, CLERK_BLOCK, grid);
      SheetRatesExactly(lex, CLERK_BLOCK, grid);
      var rates := Rates(lex, book, flags).value;
      assert IsRateMap(lex, CLERK_BLOCK, lines, tiers, rates, key);
      if key in rates {
        var i, j := LastInLines(lex, CLERK_BLOCK, lines, tiers, key);
        var k: nat, l: nat :| HoldsRate(lex, CLERK_BLOCK, lines, tiers, key, k, l);
        assert IsLastRate(lex, CLERK_BLOCK, lines, tiers, key, i, j);
      }
    }
  }

  lemma OverlaidRow(lex: Lexer, book: Workbook, flags: Flags, year: int, d: Draft)
    requires Rates(lex, book, flags).Ok? && (d.available ==> d.base.Some?)
    ensures var r := RowOf(Overlaid(d, Rates(lex, book, flags).value), year);
            CarriesDraft(d, year, r) && HasClerk(lex, book.sheet5, d, r)
  {
    if d.setType.Some? && d.flow == Files { Sheet5Rates(lex, book, flags, d); }
  }

  lemma {:induction false} GatherPriced(read: JobReader, jobs: seq<Job>, k: nat, acc: seq<Draft>)
    requires k <= |jobs| && Gather(read, jobs, k, acc).Ok? && Priced(acc)
    requires forall job :: job in jobs && read(job).Ok? ==> Priced(read(job).value)
    ensures Priced(Gather(read, jobs, k, acc).value)
    decreases |jobs| - k
  {
    if k < |jobs| { GatherPriced(read, jobs, k + 1, acc + read(jobs[k]).value); }
  }

  lemma ReadJobIsPriced(lex: Lexer, job: Job)
    requires Reader(lex)(job).Ok?
    ensures Priced(Reader(lex)(job).value)
  {
    LinesPriced(lex, job.block, BlockLines(lex, job.block, job.grid), BlockTiers(lex, job.block, job.grid));
  }

  lemma DraftsPriced(lex: Lexer, book: Workbook)
    ensures Drafts(lex, book).Ok? ==> Priced(Drafts(lex, book).value)
  {
    if Drafts(lex, book).Ok? {
      var jobs := Jobs(book.rates.value, book.setTypes.value);
      forall job | job in jobs && Reader(lex)(job).Ok? ensures Priced(Reader(lex)(job).value) { ReadJobIsPriced(lex, job); }
      GatherPriced(Reader(lex), jobs, 0, []);
    }
  }

  /**
   * Every judicial row of a successful seed is the last draft of its dimensions, which is read from the
   * sheet's own columns, with the clerk's Sheet 5 amount where there is one; and the guards have kept out
   * short tables and low clerk rates.
   */
  lemma RebuiltRows(lex: Lexer, book: Workbook, flags: Flags, year: int)
    ensures Succeeds(lex, book, flags, true) ==>
              var rows := JudicialRows(lex, book, flags, year);
              && rows.Ok? && |rows.value| >= 350
              && forall r :: r in rows.value ==>
                   && IsLastRow(lex, book, Drafts(lex, book).value, year, r)
                   && (flags.allowLowClerkRates || r.clerk.None? || !(0.0 < r.clerk.value < 50.0))
    ensures Succeeds(lex, book, flags, true) ==>
              JudicialRows(lex, book, flags, year).Ok?
              && forall d :: d in Drafts(lex, book).value ==> HasRow(JudicialRows(lex, book, flags, year).value, d)
  {
    if Succeeds(lex, book, flags, true) {
      SucceedsExactly(lex, book, flags, year);
      var rows := JudicialRows(lex, book, flags, year).value;
      var ds := Drafts(lex, book).value;
      DraftsPriced(lex, book);
      forall d | d in ds ensures IsFromSheet(lex, book.rates.value, book.setTypes.value, d) { DraftsAreFromSheet(lex, book, d); }
      UniqueIsLastPerDimensions(ds);
      LastRows(lex, book, flags, ds, UniqueRules(ds), year);
      RowsForAll(ds, UniqueRules(ds), Rates(lex, book, flags).value, year);
      forall r | r in rows ensures flags.allowLowClerkRates || !Implausible(r) {
        assert Implausible(r) ==> r in ImplausibleRows(rows);
      }
    }
  }

  /** Some row has this draft's five dimensions. */
  predicate HasRow(rows: seq<RuleRow>, d: Draft) {
    exists r :: r in rows && r.flow == FlowText(d.flow) && r.court == Some(CourtText(d.court)) && r.region == Some(RegionText(d.region))
                && r.band == Some(BandText(d.band))
                && if d.setType.None? then r.setType.None? else r.setType == Some(SetTypeText(d.setType))
  }

  lemma RowsForAll(ds: seq<Draft>, us: seq<Draft>, rates: ClerkRates, year: int)
    requires forall d :: d in ds ==> exists u :: u in us && SameDimensions(u, d)
    ensures forall d :: d in ds ==> HasRow(RowsOf(OverlaidAll(us, rates), year), d)
  {
    var rows := RowsOf(OverlaidAll(us, rates), year);
    forall d | d in ds ensures HasRow(rows, d) {
      var u :| u in us && SameDimensions(u, d);
      var i :| 0 <= i < |us| && us[i] == u;
      assert rows[i] in rows;
    }
  }

  lemma LastRows(lex: Lexer, book: Workbook, flags: Flags, ds: seq<Draft>, us: seq<Draft>, year: int)
    requires book.rates.Some? && book.setTypes.Some? && Rates(lex, book, flags).Ok? && Priced(ds)
    requires forall d :: d in ds ==> IsFromSheet(lex, book.rates.value, book.setTypes.value, d)
    requires forall d :: d in us ==> exists p :: 0 <= p < |ds| && ds[p] == d && NoneLater(ds, p)
    ensures forall r :: r in RowsOf(OverlaidAll(us, Rates(lex, book, flags).value), year) ==> IsLastRow(lex, book, ds, year, r)
  {
    var rates := Rates(lex, book, flags).value;
    var rows := RowsOf(OverlaidAll(us, rates), year);
    forall r | r in rows ensures IsLastRow(lex, book, ds, year, r) {
      var i :| 0 <= i < |rows| && rows[i] == r;
      assert us[i] in us;
      var p :| 0 <= p < |ds| && ds[p] == us[i] && NoneLater(ds, p);
      assert ds[p] in ds;
      assert r == RowOf(Overlaid(ds[p], rates), year);
      OverlaidRow(lex, book, flags, year, ds[p]);
    }
  }

  predicate ApartInDimensions(ds: seq<Draft>) {
    forall i, j :: 0 <= i < j < |ds| ==> !SameDimensions(ds[i], ds[j])
  }

  /** No two rows of the rebuilt table share their dimensions: the insert never meets the unique constraint. */
  lemma RebuiltIsDistinct(lex: Lexer, book: Workbook, flags: Flags, year: int, prices: UsdPrices,
                          rows: seq<RuleRow>, usd: seq<RuleRow>)
    ensures JudicialRows(lex, book, flags, year) == Ok(rows) && IsUsdList(usd, prices, USD_PRICING_ROW_COUNT)
            ==> DimsDistinct(rows + NON_JUDICIAL_ROWS + usd) && NoClash(rows + NON_JUDICIAL_ROWS + usd)
  {
    if JudicialRows(lex, book, flags, year) == Ok(rows) && IsUsdList(usd, prices, USD_PRICING_ROW_COUNT) {
      var ds := Drafts(lex, book).value;
      UniqueIsLastPerDimensions(ds);
      RowsDistinct(UniqueRules(ds), Rates(lex, book, flags).value, year, prices, usd);
    }
  }

  lemma RowsDistinct(us: seq<Draft>, rates: ClerkRates, year: int, prices: UsdPrices, usd: seq<RuleRow>)
    requires ApartInDimensions(us) && IsUsdList(usd, prices, USD_PRICING_ROW_COUNT)
    ensures var all := RowsOf(OverlaidAll(us, rates), year) + NON_JUDICIAL_ROWS + usd;
            DimsDistinct(all) && NoClash(all)
  {
    var rows := RowsOf(OverlaidAll(us, rates), year);
    JudicialDistinct(us, rates, year);
    JudicialNotOther(OverlaidAll(us, rates), year);
    UsdDistinct(usd, prices);
    DistinctParts(rows, NON_JUDICIAL_ROWS);
    DistinctParts(rows + NON_JUDICIAL_ROWS, usd);
  }

  lemma UsdDistinct(usd: seq<RuleRow>, prices: UsdPrices)
    requires IsUsdList(usd, prices, USD_PRICING_ROW_COUNT)
    ensures DimsDistinct(usd) && forall r :: r in usd ==> r.currency == USD
  {
    forall i, j | 0 <= i < j < |usd| ensures Dims(usd[i]) != Dims(usd[j]) { UsdRowsDiffer(prices, i, j); }
  }

  lemma DistinctParts(a: seq<RuleRow>, b: seq<RuleRow>)
    requires DimsDistinct(a) && DimsDistinct(b)
    requires forall x, y :: x in a && y in b ==> Dims(x) != Dims(y)
    ensures DimsDistinct(a + b)
  {
  }

  lemma JudicialDistinct(us: seq<Draft>, rates: ClerkRates, year: int)
    requires ApartInDimensions(us)
    ensures DimsDistinct(RowsOf(OverlaidAll(us, rates), year))
  {
    forall i, j | 0 <= i < j < |us| ensures Dims(RowOf(Overlaid(us[i], rates), year)) != Dims(RowOf(Overlaid(us[j], rates), year)) {
      OverlaidDiffer(us[i], us[j], rates, year);
    }
  }

  lemma OverlaidDiffer(d: Draft, e: Draft, rates: ClerkRates, year: int)
    requires !SameDimensions(d, e)
    ensures Dims(RowOf(Overlaid(d, rates), year)) != Dims(RowOf(Overlaid(e, rates), year))
  {
    if Dims(RowOf(Overlaid(d, rates), year)) == Dims(RowOf(Overlaid(e, rates), year)) {
      RowDims(Overlaid(d, rates), Overlaid(e, rates), year);
      assert false;
    }
  }

  lemma JudicialNotOther(ds: seq<Draft>, year: int)
    ensures forall r :: r in RowsOf(ds, year) ==> r.currency == PKR && r.court.Some?
  {
  }
}
