/** The block parsers of the pricing seed: nested loops that push onto one draft buffer. */
module PricingParser {
  import opened Base
  import opened PricingSheet

  /** `clerkRateMap`'s keys: the four dimensions of a set-type rate. */
  datatype ClerkKey = ClerkKey(region: Region, court: Court, band: Band, setType: SetType)

  type ClerkRates = map<ClerkKey, real>

  // ---- Sheet 5 ----

  const CLERK_OFFSET := 6

  /** The set-type rates of one tier, from set type `k` on; a cell without an amount adds nothing. */
  function TierRates(lex: Lexer, region: Region, band: Band, t: Tier, row: Row, rates: ClerkRates, k: nat)
    : Result<ClerkRates, Failure>
    requires k <= 3
    decreases 3 - k
  {
    if k == 3 then Ok(rates)
    else match lex.cell(CellAt(row, t.col + CLERK_OFFSET + k))
      case Err(e) => Err(e)
      case Ok(p) =>
        TierRates(lex, region, band, t, row, WithRate(rates, ClerkKey(region, t.court, band, SET_TYPES[k]), p), k + 1)
  }

  function WithRate(rates: ClerkRates, key: ClerkKey, p: Price): ClerkRates {
    if p.amount.None? then rates else rates[key := p.amount.value]
  }

  function RowRates(lex: Lexer, region: Region, line: Line, tiers: seq<Tier>, rates: ClerkRates)
    : Result<ClerkRates, Failure>
  {
    if tiers == [] then Ok(rates)
    else match TierRates(lex, region, line.slot.band, tiers[0], line.row, rates, 0)
      case Err(e) => Err(e)
      case Ok(m) => RowRates(lex, region, line, tiers[1..], m)
  }

  type RowReader = (Line, ClerkRates) -> Result<ClerkRates, Failure>

  function RateReader(lex: Lexer, region: Region, tiers: seq<Tier>): RowReader {
    (line, rates) => RowRates(lex, region, line, tiers, rates)
  }

  function ReadRates(read: RowReader, lines: seq<Line>, rates: ClerkRates): Result<ClerkRates, Failure> {
    if lines == [] then Ok(rates)
    else match read(lines[0], rates)
      case Err(e) => Err(e)
      case Ok(m) => ReadRates(read, lines[1..], m)
  }

  /** Sheet 5, with the set-type matrix's headers and bands. */
  function SheetRates(lex: Lexer, b: Block, grid: Grid, tiers: seq<Tier>, rates: ClerkRates): Result<ClerkRates, Failure> {
    ReadRates(RateReader(lex, b.region, tiers), BlockLines(lex, b, grid), rates)
  }

  lemma ReadRatesStep(read: RowReader, line: Line, later: seq<Line>, rates: ClerkRates)
    ensures var all, next := ReadRates(read, [line] + later, rates), read(line, rates);
            if next.Ok? then all == ReadRates(read, later, next.value) else all == Err(next.error)
  {
    assert ([line] + later)[1..] == later;
  }

  // ---- Every rate is the last cell written for its key ----

  /** What one row and tier say of a key: the amount of its set type's clerk column, if the rest matches. */
  function RateAt(lex: Lexer, b: Block, line: Line, t: Tier, key: ClerkKey): Option<real> {
    if (key.region, key.court, key.band) != (b.region, t.court, line.slot.band) then None
    else match lex.cell(CellAt(line.row, t.col + 6 + Column(key.setType)))
      case Ok(p) => p.amount
      case Err(_) => None
  }

  function Column(st: SetType): (k: nat)
    ensures k < 3 && SET_TYPES[k] == st
  {
    match st case Attested => 0 case NonAttested => 1 case Both => 2
  }

  predicate HoldsRate(lex: Lexer, b: Block, lines: seq<Line>, tiers: seq<Tier>, key: ClerkKey, i: nat, j: nat) {
    i < |lines| && j < |tiers| && RateAt(lex, b, lines[i], tiers[j], key).Some?
  }

  /** Row `i` and tier `j` are the last to hold an amount for the key, rows first. */
  ghost predicate IsLastRate(lex: Lexer, b: Block, lines: seq<Line>, tiers: seq<Tier>, key: ClerkKey, i: nat, j: nat) {
    && HoldsRate(lex, b, lines, tiers, key, i, j)
    && forall k: nat, l: nat :: HoldsRate(lex, b, lines, tiers, key, k, l) ==> k < i || (k == i && l <= j)
  }

  /** The clerk cells of the tier's set types are blank, "Can't Get" or numbers. */
  predicate ClerkParses(lex: Lexer, line: Line, t: Tier) {
    forall c :: t.col + CLERK_OFFSET <= c < t.col + CLERK_OFFSET + 3 ==> CellParses(lex, line.row, c)
  }

  predicate RowClerkParses(lex: Lexer, line: Line, tiers: seq<Tier>) {
    forall t :: t in tiers ==> ClerkParses(lex, line, t)
  }

  function Get(m: ClerkRates, key: ClerkKey): Option<real> {
    if key in m then Some(m[key]) else None
  }

  function Latest(newer: Option<real>, older: Option<real>): Option<real> {
    if newer.Some? then newer else older
  }

  function InRow(lex: Lexer, b: Block, line: Line, tiers: seq<Tier>, key: ClerkKey): Option<real> {
    if tiers == [] then None else Latest(InRow(lex, b, line, tiers[1..], key), RateAt(lex, b, line, tiers[0], key))
  }

  function InLines(lex: Lexer, b: Block, lines: seq<Line>, tiers: seq<Tier>, key: ClerkKey): Option<real> {
    if lines == [] then None
    else Latest(InLines(lex, b, lines[1..], tiers, key), InRow(lex, b, lines[0], tiers, key))
  }

  lemma GetWithRate(rates: ClerkRates, own: ClerkKey, p: Price, key: ClerkKey)
    ensures Get(WithRate(rates, own, p), key) == Latest(if key == own then p.amount else None, Get(rates, key))
  {
  }

  function ClerkCell(lex: Lexer, line: Line, t: Tier, k: nat): Result<Price, Failure> {
    lex.cell(CellAt(line.row, t.col + CLERK_OFFSET + k))
  }

  /** The map after the tier's first `k` cells. */
  function AfterCells(lex: Lexer, b: Block, line: Line, t: Tier, rates: ClerkRates, k: nat): ClerkRates
    requires k <= 3 && forall c: nat :: c < k ==> ClerkCell(lex, line, t, c).Ok?
  {
    if k == 0 then rates
    else WithRate(AfterCells(lex, b, line, t, rates, k - 1),
                  ClerkKey(b.region, t.court, line.slot.band, SET_TYPES[k - 1]), ClerkCell(lex, line, t, k - 1).value)
  }

  lemma {:induction false} TierRatesFrom(lex: Lexer, b: Block, line: Line, t: Tier, rates: ClerkRates, k: nat)
    requires k <= 3 && forall c: nat :: c < k ==> ClerkCell(lex, line, t, c).Ok?
    ensures var r := TierRates(lex, b.region, line.slot.band, t, line.row, AfterCells(lex, b, line, t, rates, k), k);
            r.Ok? ==> (forall c: nat :: c < 3 ==> ClerkCell(lex, line, t, c).Ok?) && r.value == AfterCells(lex, b, line, t, rates, 3)
    decreases 3 - k
  {
    if k < 3 && ClerkCell(lex, line, t, k).Ok? { TierRatesFrom(lex, b, line, t, rates, k + 1); }
  }

  lemma {:induction false} AfterCellsAre(lex: Lexer, b: Block, line: Line, t: Tier, rates: ClerkRates, k: nat, key: ClerkKey)
    requires k <= 3 && forall c: nat :: c < k ==> ClerkCell(lex, line, t, c).Ok?
    ensures Get(AfterCells(lex, b, line, t, rates, k), key)
            == Latest(if Column(key.setType) < k then RateAt(lex, b, line, t, key) else None, Get(rates, key))
  {
    if k > 0 {
      AfterCellsAre(lex, b, line, t, rates, k - 1, key);
      var own := ClerkKey(b.region, t.court, line.slot.band, SET_TYPES[k - 1]);
      GetWithRate(AfterCells(lex, b, line, t, rates, k - 1), own, ClerkCell(lex, line, t, k - 1).value, key);
      assert Column(SET_TYPES[k - 1]) == k - 1;
    }
  }

  lemma TierRatesAre(lex: Lexer, b: Block, line: Line, t: Tier, rates: ClerkRates, key: ClerkKey)
    ensures var r := TierRates(lex, b.region, line.slot.band, t, line.row, rates, 0);
            r.Ok? ==> Get(r.value, key) == Latest(RateAt(lex, b, line, t, key), Get(rates, key))
  {
    TierRatesFrom(lex, b, line, t, rates, 0);
    if TierRates(lex, b.region, line.slot.band, t, line.row, rates, 0).Ok? {
      AfterCellsAre(lex, b, line, t, rates, 3, key);
    }
  }

  lemma {:induction false} RowRatesAre(lex: Lexer, b: Block, line: Line, tiers: seq<Tier>, rates: ClerkRates, key: ClerkKey)
    ensures var r := RowRates(lex, b.region, line, tiers, rates);
            r.Ok? ==> Get(r.value, key) == Latest(InRow(lex, b, line, tiers, key), Get(rates, key))
  {
    if tiers != [] {
      TierRatesAre(lex, b, line, tiers[0], rates, key);
      var m := TierRates(lex, b.region, line.slot.band, tiers[0], line.row, rates, 0);
      if m.Ok? { RowRatesAre(lex, b, line, tiers[1..], m.value, key); }
    }
  }

  /** The lines from listed row `i` on. */
  function Rest(lex: Lexer, b: Block, grid: Grid, i: nat): seq<Line>
    requires i <= |b.rows|
  {
    LinesPrefix(lex, b, grid, i, |b.rows|);
    BlockLines(lex, b, grid)[|Lines(lex, b, grid, i)|..]
  }

  lemma AllLinesRest(lex: Lexer, b: Block, grid: Grid)
    ensures Rest(lex, b, grid, 0) == BlockLines(lex, b, grid)
  {
  }

  /** Listed row `i` is either skipped or the next line. */
  lemma NextLine(lex: Lexer, b: Block, grid: Grid, i: nat)
    requires i < |b.rows|
    ensures match Recognise(lex, b, grid, b.rows[i])
            case None => Rest(lex, b, grid, i) == Rest(lex, b, grid, i + 1)
            case Some(line) => Rest(lex, b, grid, i) == [line] + Rest(lex, b, grid, i + 1)
  {
    LinesPrefix(lex, b, grid, i + 1, |b.rows|);
    LinesStep(lex, b, grid, i);
    var line := Recognise(lex, b, grid, b.rows[i]);
    if line.Some? { DropOne(BlockLines(lex, b, grid), Lines(lex, b, grid, i), line.value); }
  }

  lemma DropOne<T>(all: seq<T>, front: seq<T>, x: T)
    requires front + [x] <= all
    ensures all[|front|..] == [x] + all[|front| + 1..]
  {
    assert all[|front|] == (front + [x])[|front|];
  }

  lemma {:induction false} ReadRatesAre(lex: Lexer, b: Block, lines: seq<Line>, tiers: seq<Tier>, rates: ClerkRates, key: ClerkKey)
    ensures var r := ReadRates(RateReader(lex, b.region, tiers), lines, rates);
            r.Ok? ==> Get(r.value, key) == Latest(InLines(lex, b, lines, tiers, key), Get(rates, key))
  {
    if lines != [] {
      RowRatesAre(lex, b, lines[0], tiers, rates, key);
      var m := RateReader(lex, b.region, tiers)(lines[0], rates);
      if m.Ok? { ReadRatesAre(lex, b, lines[1..], tiers, m.value, key); }
    }
  }

  // ---- When every cell parses ----

  lemma {:induction false} TierRatesParse(lex: Lexer, region: Region, band: Band, t: Tier, row: Row, rates: ClerkRates, k: nat)
    requires k <= 3
    ensures TierRates(lex, region, band, t, row, rates, k).Ok?
            <==> forall c :: t.col + CLERK_OFFSET + k <= c < t.col + CLERK_OFFSET + 3 ==> CellParses(lex, row, c)
    decreases 3 - k
  {
    if k < 3 {
      var c := t.col + CLERK_OFFSET + k;
      assert CellParses(lex, row, c) <==> lex.cell(CellAt(row, c)).Ok?;
      var p := lex.cell(CellAt(row, c));
      if p.Ok? {
        TierRatesParse(lex, region, band, t, row, WithRate(rates, ClerkKey(region, t.court, band, SET_TYPES[k]), p.value), k + 1);
      }
    }
  }

  lemma {:induction false} RowRatesParse(lex: Lexer, region: Region, line: Line, tiers: seq<Tier>, rates: ClerkRates)
    ensures RowRates(lex, region, line, tiers, rates).Ok? <==> RowClerkParses(lex, line, tiers)
  {
    if tiers != [] {
      TierRatesParse(lex, region, line.slot.band, tiers[0], line.row, rates, 0);
      var m := TierRates(lex, region, line.slot.band, tiers[0], line.row, rates, 0);
      assert m.Ok? <==> ClerkParses(lex, line, tiers[0]);
      assert tiers == [tiers[0]] + tiers[1..];
      if m.Ok? { RowRatesParse(lex, region, line, tiers[1..], m.value); }
    }
  }

  predicate AllClerkParse(lex: Lexer, lines: seq<Line>, tiers: seq<Tier>) {
    forall line :: line in lines ==> RowClerkParses(lex, line, tiers)
  }

  lemma {:induction false} LinesDecide(read: RowReader, lines: seq<Line>, rates: ClerkRates, parses: Line -> bool)
    requires forall line, m :: read(line, m).Ok? <==> parses(line)
    ensures ReadRates(read, lines, rates).Ok? <==> forall line :: line in lines ==> parses(line)
  {
    if lines != [] {
      var m := read(lines[0], rates);
      assert lines == [lines[0]] + lines[1..];
      if m.Ok? { LinesDecide(read, lines[1..], m.value, parses); }
    }
  }

  lemma SheetRatesParse(lex: Lexer, b: Block, grid: Grid, tiers: seq<Tier>)
    ensures SheetRates(lex, b, grid, tiers, map[]).Ok? <==> AllClerkParse(lex, BlockLines(lex, b, grid), tiers)
  {
    var parses := (line: Line) => RowClerkParses(lex, line, tiers);
    forall line, m ensures RateReader(lex, b.region, tiers)(line, m).Ok? <==> parses(line) {
      RowRatesParse(lex, b.region, line, tiers, m);
    }
    LinesDecide(RateReader(lex, b.region, tiers), BlockLines(lex, b, grid), map[], parses);
  }

  // ---- The last cell, by position ----

  lemma {:induction false} LastInRow(lex: Lexer, b: Block, line: Line, tiers: seq<Tier>, key: ClerkKey) returns (j: nat)
    ensures InRow(lex, b, line, tiers, key).None? ==> forall l :: 0 <= l < |tiers| ==> RateAt(lex, b, line, tiers[l], key).None?
    ensures InRow(lex, b, line, tiers, key).Some? ==>
              && j < |tiers| && RateAt(lex, b, line, tiers[j], key) == InRow(lex, b, line, tiers, key)
              && forall l :: j < l < |tiers| ==> RateAt(lex, b, line, tiers[l], key).None?
  {
    j := 0;
    if tiers != [] {
      var later := LastInRow(lex, b, line, tiers[1..], key);
      assert forall l :: 0 < l < |tiers| ==> tiers[l] == tiers[1..][l - 1];
      if InRow(lex, b, line, tiers[1..], key).Some? { j := later + 1; }
    }
  }

  lemma {:induction false} LastInLines(lex: Lexer, b: Block, lines: seq<Line>, tiers: seq<Tier>, key: ClerkKey)
    returns (i: nat, j: nat)
    ensures InLines(lex, b, lines, tiers, key).None? ==> forall k: nat, l: nat :: !HoldsRate(lex, b, lines, tiers, key, k, l)
    ensures InLines(lex, b, lines, tiers, key).Some? ==>
              IsLastRate(lex, b, lines, tiers, key, i, j)
              && RateAt(lex, b, lines[i], tiers[j], key) == InLines(lex, b, lines, tiers, key)
  {
    i, j := 0, 0;
    if lines != [] {
      var front := LastInRow(lex, b, lines[0], tiers, key);
      var k, l := LastInLines(lex, b, lines[1..], tiers, key);
      assert forall n: nat, m: nat :: 0 < n && HoldsRate(lex, b, lines, tiers, key, n, m)
                                      ==> HoldsRate(lex, b, lines[1..], tiers, key, n - 1, m);
      if InLines(lex, b, lines[1..], tiers, key).Some? { i, j := k + 1, l; } else { j := front; }
    }
  }

  /** The map holds, for each key, the last amount some line and tier hold for it, and no other key. */
  ghost predicate IsRateMap(lex: Lexer, b: Block, lines: seq<Line>, tiers: seq<Tier>, m: ClerkRates, key: ClerkKey) {
    && (key in m <==> exists i: nat, j: nat :: HoldsRate(lex, b, lines, tiers, key, i, j))
    && forall i: nat, j: nat :: IsLastRate(lex, b, lines, tiers, key, i, j)
                                ==> Get(m, key) == RateAt(lex, b, lines[i], tiers[j], key)
  }

  lemma InLinesIsMap(lex: Lexer, b: Block, lines: seq<Line>, tiers: seq<Tier>, m: ClerkRates, key: ClerkKey)
    requires Get(m, key) == InLines(lex, b, lines, tiers, key)
    ensures IsRateMap(lex, b, lines, tiers, m, key)
  {
    var k, l := LastInLines(lex, b, lines, tiers, key);
  }

  /**
   * Sheet 5 is read exactly when every clerk cell of every recognised row and tier parses. A rate is
   * then known for a key exactly when some such cell holds an amount for it, and it is the last one's.
   */
  lemma SheetRatesExactly(lex: Lexer, b: Block, grid: Grid)
    ensures var lines, tiers := BlockLines(lex, b, grid), BlockTiers(lex, b, grid);
            var r := SheetRates(lex, b, grid, tiers, map[]);
            && (r.Ok? <==> AllClerkParse(lex, lines, tiers))
            && (r.Ok? ==> forall key :: IsRateMap(lex, b, lines, tiers, r.value, key))
  {
    var lines, tiers := BlockLines(lex, b, grid), BlockTiers(lex, b, grid);
    SheetRatesParse(lex, b, grid, tiers);
    var r := SheetRates(lex, b, grid, tiers, map[]);
    if r.Ok? {
      forall key ensures IsRateMap(lex, b, lines, tiers, r.value, key) {
        ReadRatesAre(lex, b, lines, tiers, map[], key);
        InLinesIsMap(lex, b, lines, tiers, r.value, key);
      }
    }
  }

  // ---- The parsers ----

  /** `DRAFTS` and `clerkRateMap`. */
  class Parser {
    const lex: Lexer
    var drafts: seq<Draft>
    var rates: ClerkRates

    constructor (lex: Lexer)
      ensures this.lex == lex && drafts == [] && rates == map[]
    {
      this.lex, drafts, rates := lex, [], map[];
    }

    method FindTiers(headers: Row, from: nat, to: nat) returns (tiers: seq<Tier>)
      ensures tiers == Tiers(lex, headers, from, to)
    {
      tiers := [];
      var c := from;
      while c < to
        invariant from <= c && (c <= to || c == from)
        invariant tiers == Tiers(lex, headers, from, c)
      {
        var court := lex.header(CellAt(headers, c));
        if court.Some? { tiers := tiers + [Tier(court.value, c)]; }
        c := c + 1;
      }
    }

    /** `pushHeadline`. */
    method PushHeadline(region: Region, slot: Slot, court: Court, base: Price, clerk: Price)
      modifies this`drafts
      ensures drafts == old(drafts) + [HeadlineDraft(region, slot, court, base, clerk)]
    {
      var dispatched := slot.flow != Information && slot.flow != Search;
      drafts := drafts + [Draft(slot.flow, court, region, slot.band, None, base.amount,
                                base.available && base.amount.Some?, clerk.amount, 300.0,
                                if dispatched then 100.0 else 0.0)];
    }

    /** One WUSUQ/CLERK pair. */
    method PushPair(b: Block, slot: Slot, t: Tier, row: Row) returns (failure: Option<Failure>)
      requires !b.SetTypes?
      modifies this`drafts
      ensures failure == ReadTier(lex, b, slot, t, row).Failure()
      ensures failure.None? ==> drafts == old(drafts) + ReadTier(lex, b, slot, t, row).value
    {
      var base := lex.cell(CellAt(row, t.col));
      if base.Err? { return Some(base.error); }
      var clerk := lex.cell(CellAt(row, t.col + 1));
      if clerk.Err? { return Some(clerk.error); }
      PushHeadline(b.region, slot, t.court, base.value, clerk.value);
      failure := None;
    }

    /** One tier of the set-type matrix: PDF and delivery first, then the three set types. */
    method PushTriple(b: Block, slot: Slot, t: Tier, row: Row) returns (failure: Option<Failure>)
      requires b.SetTypes?
      modifies this`drafts
      ensures failure == ReadTier(lex, b, slot, t, row).Failure()
      ensures failure.None? ==> drafts == old(drafts) + ReadTier(lex, b, slot, t, row).value
    {
      var pdf := lex.cell(CellAt(row, t.col + PDF_OFFSET));
      if pdf.Err? { return Some(pdf.error); }
      var delivery := lex.cell(CellAt(row, t.col + DELIVERY_OFFSET));
      if delivery.Err? { return Some(delivery.error); }
      ghost var pushed: seq<Draft> := [];
      var k := 0;
      while k < 3
        invariant 0 <= k <= 3
        invariant ReadSetTypes(lex, b.region, slot, t, row, pdf.value, delivery.value, k) == Ok(pushed)
        invariant drafts == old(drafts) + pushed
      {
        var cell := lex.cell(CellAt(row, t.col + k));
        if cell.Err? {
          SetTypesFail(lex, b.region, slot, t, row, pdf.value, delivery.value, k + 1, 3);
          return Some(cell.error);
        }
        PushSetType(b.region, slot.band, t.court, SET_TYPES[k], cell.value, pdf.value, delivery.value);
        pushed := pushed + [SetTypeDraft(b.region, slot.band, t.court, SET_TYPES[k], cell.value, pdf.value, delivery.value)];
        k := k + 1;
      }
      failure := None;
    }

    method PushSetType(region: Region, band: Band, court: Court, st: SetType, cell: Price, pdf: Price, delivery: Price)
      modifies this`drafts
      ensures drafts == old(drafts) + [SetTypeDraft(region, band, court, st, cell, pdf, delivery)]
    {
      var pdfAmount := pdf.amount.GetOr(300.0);
      var delAmount := delivery.amount.GetOr(100.0);
      drafts := drafts + [Draft(Files, court, region, band, Some(st), cell.amount, cell.available && cell.amount.Some?,
                                None, pdfAmount, delAmount)];
    }

    /** The tiers of one recognised row. */
    method PushRow(b: Block, slot: Slot, tiers: seq<Tier>, row: Row) returns (failure: Option<Failure>)
      modifies this`drafts
      ensures failure == ReadRow(lex, b, slot, tiers, row).Failure()
      ensures failure.None? ==> drafts == old(drafts) + ReadRow(lex, b, slot, tiers, row).value
    {
      ghost var pushed: seq<Draft> := [];
      var j := 0;
      while j < |tiers|
        invariant 0 <= j <= |tiers|
        invariant ReadRow(lex, b, slot, tiers[..j], row) == Ok(pushed)
        invariant drafts == old(drafts) + pushed
      {
        RowStep(lex, b, slot, tiers, row, j);
        if b.SetTypes? { failure := PushTriple(b, slot, tiers[j], row); }
        else { failure := PushPair(b, slot, tiers[j], row); }
        if failure.Some? { return; }
        AppendAssociates(old(drafts), pushed, ReadTier(lex, b, slot, tiers[j], row).value);
        pushed := pushed + ReadTier(lex, b, slot, tiers[j], row).value;
        j := j + 1;
      }
      assert tiers[..j] == tiers;
      failure := None;
    }

    /** The four block parsers: they differ in the tier columns and in what `RowSlot` recognises. */
    method ParseBlock(b: Block, grid: Grid) returns (failure: Option<Failure>)
      modifies this`drafts
      ensures failure == ReadBlock(lex, b, grid).Failure()
      ensures failure.None? ==> drafts == old(drafts) + ReadBlock(lex, b, grid).value
    {
      var headers := RowAt(grid, b.header).GetOr([]);
      var tiers;
      if b.SetTypes? { tiers := FindTiers(headers, 0, |headers|); }
      else { tiers := FindTiers(headers, b.left, b.right + 1); }
      failure := PushLines(b, grid, tiers);
    }

    /** Listed row `i`: nothing when it is missing or not recognised. */
    method PushListed(b: Block, grid: Grid, tiers: seq<Tier>, i: nat, ghost pushed: seq<Draft>)
      returns (failure: Option<Failure>, ghost more: seq<Draft>)
      requires i < |b.rows| && SoFar(lex, b, grid, tiers, i) == Ok(pushed)
      modifies this`drafts
      ensures failure.Some? ==> SoFar(lex, b, grid, tiers, |b.rows|) == Err(failure.value)
      ensures failure.None? ==> drafts == old(drafts) + more && SoFar(lex, b, grid, tiers, i + 1) == Ok(pushed + more)
    {
      BlockStep(lex, b, grid, tiers, i, pushed);
      var line := Recognise(lex, b, grid, b.rows[i]);
      if line.None? { return None, []; }
      failure := PushRow(b, line.value.slot, tiers, line.value.row);
      more := if failure.None? then ReadRow(lex, b, line.value.slot, tiers, line.value.row).value else [];
    }

    method PushLines(b: Block, grid: Grid, tiers: seq<Tier>) returns (failure: Option<Failure>)
      modifies this`drafts
      ensures failure == SoFar(lex, b, grid, tiers, |b.rows|).Failure()
      ensures failure.None? ==> drafts == old(drafts) + SoFar(lex, b, grid, tiers, |b.rows|).value
    {
      ghost var pushed: seq<Draft> := [];
      for i := 0 to |b.rows|
        invariant SoFar(lex, b, grid, tiers, i) == Ok(pushed)
        invariant drafts == old(drafts) + pushed
      {
        ghost var more;
        failure, more := PushListed(b, grid, tiers, i, pushed);
        if failure.Some? { return; }
        AppendAssociates(old(drafts), pushed, more);
        pushed := pushed + more;
      }
      return None;
    }

    /** `parseClerkSetTypeBlock`. */
    method ParseClerkBlock(b: Block, grid: Grid) returns (failure: Option<Failure>)
      requires b.SetTypes?
      modifies this`rates
      ensures failure == SheetRates(lex, b, grid, BlockTiers(lex, b, grid), old(rates)).Failure()
      ensures failure.None? ==> rates == SheetRates(lex, b, grid, BlockTiers(lex, b, grid), old(rates)).value
    {
      var headers := RowAt(grid, b.header).GetOr([]);
      var tiers := FindTiers(headers, 0, |headers|);
      ghost var read := RateReader(lex, b.region, tiers);
      AllLinesRest(lex, b, grid);
      for i := 0 to |b.rows|
        invariant ReadRates(read, BlockLines(lex, b, grid), old(rates)) == ReadRates(read, Rest(lex, b, grid, i), rates)
      {
        NextLine(lex, b, grid, i);
        var line := Recognise(lex, b, grid, b.rows[i]);
        if line.Some? {
          ReadRatesStep(read, line.value, Rest(lex, b, grid, i + 1), rates);
          failure := AddRowRates(b.region, line.value, tiers);
          if failure.Some? { return; }
        }
      }
      failure := None;
    }

    method AddRowRates(region: Region, line: Line, tiers: seq<Tier>) returns (failure: Option<Failure>)
      modifies this`rates
      ensures failure == RowRates(lex, region, line, tiers, old(rates)).Failure()
      ensures failure.None? ==> rates == RowRates(lex, region, line, tiers, old(rates)).value
    {
      for j := 0 to |tiers|
        invariant RowRates(lex, region, line, tiers, old(rates)) == RowRates(lex, region, line, tiers[j..], rates)
      {
        failure := AddTierRates(region, line.slot.band, tiers[j], line.row);
        assert tiers[j..][1..] == tiers[j + 1..];
        if failure.Some? { return; }
      }
      failure := None;
    }

    method AddTierRates(region: Region, band: Band, t: Tier, row: Row) returns (failure: Option<Failure>)
      modifies this`rates
      ensures failure == TierRates(lex, region, band, t, row, old(rates), 0).Failure()
      ensures failure.None? ==> rates == TierRates(lex, region, band, t, row, old(rates), 0).value
    {
      var clerkBase := t.col + CLERK_OFFSET;
      for k := 0 to 3
        invariant TierRates(lex, region, band, t, row, old(rates), 0) == TierRates(lex, region, band, t, row, rates, k)
      {
        var cell := lex.cell(CellAt(row, clerkBase + k));
        if cell.Err? { return Some(cell.error); }
        var key := ClerkKey(region, t.court, band, SET_TYPES[k]);
        if cell.value.amount.Some? { rates := rates[key := cell.value.amount.value]; }
      }
      failure := None;
    }

    /** `expectContribution`: a block that adds no draft stops the seed. */
    method ExpectContribution(b: Block, grid: Grid) returns (failure: Option<Failure>)
      modifies this`drafts
      ensures failure == Contribution(lex, b, grid).Failure()
      ensures failure.None? ==> drafts == old(drafts) + Contribution(lex, b, grid).value
    {
      var before := |drafts|;
      failure := ParseBlock(b, grid);
      if failure.None? && |drafts| - before <= 0 { failure := Some(NoDrafts(b)); }
    }
  }

  function SoFar(lex: Lexer, b: Block, grid: Grid, tiers: seq<Tier>, n: nat): Result<seq<Draft>, Failure>
    requires n <= |b.rows|
  {
    ReadLines(lex, b, Lines(lex, b, grid, n), tiers)
  }

  lemma RowStep(lex: Lexer, b: Block, slot: Slot, tiers: seq<Tier>, row: Row, j: nat)
    requires j < |tiers| && ReadRow(lex, b, slot, tiers[..j], row).Ok?
    ensures var tier, front := ReadTier(lex, b, slot, tiers[j], row), ReadRow(lex, b, slot, tiers[..j], row).value;
            match tier
            case Ok(ds) => ReadRow(lex, b, slot, tiers[..j + 1], row) == Ok(front + ds)
            case Err(e) => ReadRow(lex, b, slot, tiers, row) == Err(e)
  {
    assert tiers[..j + 1][..j] == tiers[..j];
    if ReadTier(lex, b, slot, tiers[j], row).Err? { RowFails(lex, b, slot, tiers, row, j + 1); }
  }

  lemma ReadLinesStep(lex: Lexer, b: Block, front: seq<Line>, line: Line, tiers: seq<Tier>)
    requires ReadLines(lex, b, front, tiers).Ok?
    ensures match ReadRow(lex, b, line.slot, tiers, line.row)
            case Ok(ds) => ReadLines(lex, b, front + [line], tiers) == Ok(ReadLines(lex, b, front, tiers).value + ds)
            case Err(e) => ReadLines(lex, b, front + [line], tiers) == Err(e)
  {
    assert (front + [line])[..|front|] == front;
  }

  lemma BlockFails(lex: Lexer, b: Block, grid: Grid, tiers: seq<Tier>, n: nat)
    requires n <= |b.rows| && SoFar(lex, b, grid, tiers, n).Err?
    ensures SoFar(lex, b, grid, tiers, |b.rows|) == SoFar(lex, b, grid, tiers, n)
  {
    LinesPrefix(lex, b, grid, n, |b.rows|);
    assert BlockLines(lex, b, grid)[..|Lines(lex, b, grid, n)|] == Lines(lex, b, grid, n);
    LinesFail(lex, b, BlockLines(lex, b, grid), tiers, |Lines(lex, b, grid, n)|);
  }

  lemma BlockStep(lex: Lexer, b: Block, grid: Grid, tiers: seq<Tier>, i: nat, pushed: seq<Draft>)
    requires i < |b.rows| && SoFar(lex, b, grid, tiers, i) == Ok(pushed)
    ensures match Recognise(lex, b, grid, b.rows[i])
            case None => SoFar(lex, b, grid, tiers, i + 1) == Ok(pushed + [])
            case Some(line) =>
              match ReadRow(lex, b, line.slot, tiers, line.row)
              case Ok(ds) => SoFar(lex, b, grid, tiers, i + 1) == Ok(pushed + ds)
              case Err(e) => SoFar(lex, b, grid, tiers, |b.rows|) == Err(e)
  {
    LinesStep(lex, b, grid, i);
    var front, more := Lines(lex, b, grid, i), Lines(lex, b, grid, i + 1);
    var line := Recognise(lex, b, grid, b.rows[i]);
    if line.None? {
      assert more == front && pushed + [] == pushed;
    } else {
      assert more == front + [line.value];
      ReadLinesStep(lex, b, front, line.value, tiers);
      if ReadRow(lex, b, line.value.slot, tiers, line.value.row).Err? { BlockFails(lex, b, grid, tiers, i + 1); }
    }
  }

  lemma {:induction false} SetTypesFail(lex: Lexer, region: Region, slot: Slot, t: Tier, row: Row,
                                        pdf: Price, delivery: Price, k: nat, n: nat)
    requires k <= n <= 3 && ReadSetTypes(lex, region, slot, t, row, pdf, delivery, k).Err?
    ensures ReadSetTypes(lex, region, slot, t, row, pdf, delivery, n)
            == ReadSetTypes(lex, region, slot, t, row, pdf, delivery, k)
  {
    if k < n { SetTypesFail(lex, region, slot, t, row, pdf, delivery, k, n - 1); }
  }

  function Contribution(lex: Lexer, b: Block, grid: Grid): Result<seq<Draft>, Failure> {
    match ReadBlock(lex, b, grid)
    case Err(e) => Err(e)
    case Ok(ds) => if ds == [] then Err(NoDrafts(b)) else Ok(ds)
  }
}
