/**
 * What each block of the pricing workbook says: which rows and columns are recognised, and the
 * drafts they yield, cell by cell. Upper-casing, `Number` and the regular expressions are opaque.
 */
module PricingSheet {
  import opened Base
  import opened Text

  datatype Region = Punjab | Other
  datatype Court = Lower | Special | High | Shariat | Supreme | Constitutional
  datatype Service = Files | Information | Record | Search | Filing | Attorney
  datatype Band = Pending | Current | Y2025 | Y2024 | Y2022 | Y2019 | Y2016
  datatype SetType = Attested | NonAttested | Both

  type Cell = Option<string>
  /** Rows are as long as their last written cell. */
  type Row = seq<Cell>
  type Grid = seq<Row>

  /** How labels and cells are read; every result below holds for any lexer, `SourceLexer` among them. */
  datatype Lexer = Lexer(header: Cell -> Option<Court>, service: Cell -> Option<Service>, band: Cell -> Option<Band>,
                         searchBand: string -> Option<Band>, cell: Cell -> Result<Price, Failure>)

  datatype Failure = NoSheet(name: string) | BadCell(text: string) | NoDrafts(block: Block) | NoClerkSheet
    | TooFewDrafts | LowClerkRates | WrongUsdCount | NotSaved

  datatype Price = Price(amount: Option<real>, available: bool)

  datatype Draft = Draft(flow: Service, court: Court, region: Region, band: Band, setType: Option<SetType>,
                         base: Option<real>, available: bool, clerk: Option<real>, pdf: real, delivery: real)

  /** Where a block sits: rows and columns count from 0. */
  datatype Block =
    | Headline(region: Region, header: nat, rows: seq<nat>, left: nat, right: nat)
    | RecordBands(region: Region, header: nat, rows: seq<nat>, left: nat, right: nat, years: nat)
    | SearchBands(region: Region, header: nat, rows: seq<nat>, left: nat, right: nat, years: nat)
    | SetTypes(region: Region, header: nat, rows: seq<nat>)

  datatype Tier = Tier(court: Court, col: nat)
  datatype Slot = Slot(flow: Service, band: Band)

  // ---- Labels ----

  predicate StartsWith(s: string, p: string) { p <= s }

  predicate Contains(s: string, p: string) {
    StartsWith(s, p) || (s != "" && Contains(s[1..], p))
  }

  /** A missing, null or empty label is no label. */
  function Label(upper: string -> string, c: Cell): Option<string> {
    if c.None? || c.value == "" then None else Some(upper(Trim(c.value)))
  }

  function HeaderCourt(upper: string -> string, c: Cell): Option<Court> {
    match Label(upper, c)
    case None => None
    case Some(h) =>
      if StartsWith(h, "LOWER") then Some(Lower)
      else if StartsWith(h, "SPECIAL") || StartsWith(h, "TRIBUNAL") then Some(Special)
      else if StartsWith(h, "HIGH") then Some(High)
      else if StartsWith(h, "FEDERAL SHARIAT") then Some(Shariat)
      else if StartsWith(h, "FEDERAL CONSTITUTIONAL") then Some(Constitutional)
      else if StartsWith(h, "SUPREME") then Some(Supreme)
      else None
  }

  function RowService(upper: string -> string, c: Cell): Option<Service> {
    match Label(upper, c)
    case None => None
    case Some(l) =>
      if StartsWith(l, "CASE FILES") then Some(Files)
      else if StartsWith(l, "CASE INFORMATION") || StartsWith(l, "CASE INFO") then Some(Information)
      else if StartsWith(l, "CASE RECORD") then Some(Record)
      else if StartsWith(l, "CASE SEARCH") then Some(Search)
      else if StartsWith(l, "CASE FILING") then Some(Filing)
      else if StartsWith(l, "POWER OF ATTORNEY") then Some(Attorney)
      else None
  }

  function RowBand(upper: string -> string, c: Cell): Option<Band> {
    match Label(upper, c)
    case None => None
    case Some(l) =>
      if Contains(l, "PENDING") || l == "CASE FILES" then Some(Pending)
      else if StartsWith(l, "CASE RECORD (CURRENT YEAR)") || StartsWith(l, "CURRENT YEAR") || l == "CURRENT"
      then Some(Current)
      else if StartsWith(l, "2025") then Some(Y2025)
      else if StartsWith(l, "2024") then Some(Y2024)
      else if StartsWith(l, "2022") then Some(Y2022)
      else if StartsWith(l, "2019") then Some(Y2019)
      else if StartsWith(l, "2016") then Some(Y2016)
      else None
  }

  // ---- Cells ----

  function CellAt(row: Row, c: nat): Cell {
    if c < |row| then row[c] else None
  }

  function Without(s: string, c: char): string {
    if s == "" then "" else (if s[0] == c then "" else [s[0]]) + Without(s[1..], c)
  }

  /** `parseCell`: a blank is no amount, "Can't Get" is unavailable, and other text aborts the seed. */
  function ParseCell(cantGet: string -> bool, number: string -> Option<real>, c: Cell): Result<Price, Failure> {
    if c.None? || Trim(c.value) == "" then Ok(Price(None, true))
    else if cantGet(Trim(c.value)) then Ok(Price(None, false))
    else match number(Trim(Without(Without(Trim(c.value), '*'), ',')))
      case Some(n) => Ok(Price(Some(n), true))
      case None => Err(BadCell(Trim(c.value)))
  }

  // ---- What the labels and cells are read as ----

  /** The words a header of this court may start with. */
  function HeaderWords(c: Court): seq<string> {
    match c
    case Lower => ["LOWER"]
    case Special => ["SPECIAL", "TRIBUNAL"]
    case High => ["HIGH"]
    case Shariat => ["FEDERAL SHARIAT"]
    case Supreme => ["SUPREME"]
    case Constitutional => ["FEDERAL CONSTITUTIONAL"]
  }

  function ServiceWords(s: Service): seq<string> {
    match s
    case Files => ["CASE FILES"]
    case Information => ["CASE INFO"]
    case Record => ["CASE RECORD"]
    case Search => ["CASE SEARCH"]
    case Filing => ["CASE FILING"]
    case Attorney => ["POWER OF ATTORNEY"]
  }

  predicate StartsWithAny(s: string, words: seq<string>) {
    exists i :: 0 <= i < |words| && words[i] <= s
  }

  lemma PrefixChars(p: string, s: string)
    requires p <= s
    ensures forall i :: 0 <= i < |p| ==> s[i] == p[i]
  {
  }

  /** A header names a court exactly when its trimmed, upper-cased text starts with one of the court's words. */
  lemma HeaderCourtExactly(upper: string -> string, c: Cell, court: Court)
    ensures HeaderCourt(upper, c) == Some(court)
            <==> c.Some? && c.value != "" && StartsWithAny(upper(Trim(c.value)), HeaderWords(court))
  {
    if c.Some? && c.value != "" {
      var h := upper(Trim(c.value));
      assert StartsWithAny(h, HeaderWords(court))
        <==> HeaderWords(court)[0] <= h || (court.Special? && HeaderWords(court)[1] <= h);
      assert "LOWER"[0] == 'L' && "HIGH"[0] == 'H' && "TRIBUNAL"[0] == 'T' && "SPECIAL"[1] == 'P' && "SUPREME"[1] == 'U'
          && "FEDERAL SHARIAT"[8] == 'S' && "FEDERAL CONSTITUTIONAL"[8] == 'C' && "FEDERAL SHARIAT"[0] == 'F'
          && "FEDERAL CONSTITUTIONAL"[0] == 'F' && "SPECIAL"[0] == 'S' && "SUPREME"[0] == 'S';
    }
  }

  /** A row label names a service exactly when it starts with the service's words; "Case Info" covers its long form. */
  lemma RowServiceExactly(upper: string -> string, c: Cell, service: Service)
    ensures RowService(upper, c) == Some(service)
            <==> c.Some? && c.value != "" && StartsWithAny(upper(Trim(c.value)), ServiceWords(service))
  {
    if c.Some? && c.value != "" {
      var l := upper(Trim(c.value));
      assert StartsWithAny(l, ServiceWords(service)) <==> ServiceWords(service)[0] <= l;
      assert "CASE FILES"[5] == 'F' && "CASE FILING"[5] == 'F' && "CASE FILES"[8] == 'E' && "CASE FILING"[8] == 'I'
          && "CASE INFO"[5] == 'I' && "CASE RECORD"[5] == 'R' && "CASE SEARCH"[5] == 'S'
          && "POWER OF ATTORNEY"[0] == 'P' && "CASE FILES"[0] == 'C';
      assert "CASE INFORMATION"[..9] == "CASE INFO";
      if "CASE INFORMATION" <= l { assert l[..9] == "CASE INFORMATION"[..9] == "CASE INFO"; }
    }
  }

  /** The text holds the word somewhere. */
  lemma {:induction false} ContainsExactly(s: string, p: string)
    ensures Contains(s, p) <==> exists i :: 0 <= i <= |s| && p <= s[i..]
  {
    if s != "" {
      ContainsExactly(s[1..], p);
      if StartsWith(s, p) { assert p <= s[0..]; }
      if i :| 0 <= i <= |s[1..]| && p <= s[1..][i..] { assert s[1..][i..] == s[i + 1..]; }
      if i :| 0 <= i <= |s| && p <= s[i..] {
        if i == 0 { assert s[0..] == s; } else { assert s[i..] == s[1..][i - 1..]; }
      }
    } else {
      assert s[0..] == s;
    }
  }

  predicate SaysPending(l: string) { Contains(l, "PENDING") || l == "CASE FILES" }

  predicate SaysCurrent(l: string) {
    "CASE RECORD (CURRENT YEAR)" <= l || "CURRENT YEAR" <= l || l == "CURRENT"
  }

  /** The year a backward band's label starts with. */
  function BandWord(b: Band): string {
    match b case Pending => "" case Current => "" case Y2025 => "2025" case Y2024 => "2024" case Y2022 => "2022"
            case Y2019 => "2019" case Y2016 => "2016"
  }

  /** A band label is pending wherever it says so, else current, else the band of its first year. */
  lemma RowBandExactly(upper: string -> string, c: Cell, b: Band)
    ensures RowBand(upper, c) == Some(b)
            <==> && c.Some? && c.value != ""
                 && var l := upper(Trim(c.value));
                    match b
                    case Pending => SaysPending(l)
                    case Current => !SaysPending(l) && SaysCurrent(l)
                    case _ => !SaysPending(l) && BandWord(b) <= l
  {
    if c.Some? && c.value != "" {
      var l := upper(Trim(c.value));
      assert "2025"[0] == '2' && "2024"[0] == '2' && "2022"[0] == '2' && "2019"[0] == '2' && "2016"[0] == '2';
      assert "2025"[2..] == "25" && "2025"[3] == '5' && "2024"[3] == '4' && "2022"[3] == '2' && "2019"[3] == '9' && "2016"[3] == '6';
      assert "2025"[2] == '2' && "2024"[2] == '2' && "2022"[2] == '2' && "2019"[2] == '1' && "2016"[2] == '1';
      assert "CASE RECORD (CURRENT YEAR)"[0] == 'C' && "CURRENT YEAR"[0] == 'C' && "CURRENT"[0] == 'C';
    }
  }

  /** Every other character stays, in order. */
  lemma {:induction false} WithoutExactly(a: string, b: string, x: char, c: char)
    ensures Without(a + b, c) == Without(a, c) + Without(b, c)
    ensures Without([x], c) == if x == c then "" else [x]
  {
    if a == "" {
      assert a + b == b;
    } else {
      assert (a + b)[1..] == a[1..] + b;
      WithoutExactly(a[1..], b, x, c);
    }
    assert Without([x][1..], c) == "";
  }

  /** A cell is no amount, unavailable, a number, or the end of the seed; its text decides which. */
  lemma ParsedExactly(cantGet: string -> bool, number: string -> Option<real>, c: Cell)
    ensures var s, r := if c.Some? then Trim(c.value) else "", ParseCell(cantGet, number, c);
            var n := number(Trim(Without(Without(s, '*'), ',')));
            && (r == Ok(Price(None, true)) <==> s == "")
            && (r == Ok(Price(None, false)) <==> s != "" && cantGet(s))
            && (forall x :: r == Ok(Price(Some(x), true)) <==> s != "" && !cantGet(s) && n == Some(x))
            && (r.Err? <==> s != "" && !cantGet(s) && n.None?)
  {
  }

  function SourceLexer(upper: string -> string, searchBand: string -> Option<Band>,
                       cantGet: string -> bool, number: string -> Option<real>): Lexer {
    Lexer(c => HeaderCourt(upper, c), c => RowService(upper, c), c => RowBand(upper, c), searchBand,
          c => ParseCell(cantGet, number, c))
  }

  // ---- One block ----

  function RowAt(grid: Grid, r: nat): Option<Row> {
    if r < |grid| then Some(grid[r]) else None
  }

  /** The recognised tier columns in `[from, to)`, left to right. */
  function Tiers(lex: Lexer, headers: Row, from: nat, to: nat): seq<Tier> {
    if to <= from then []
    else Tiers(lex, headers, from, to - 1)
         + match lex.header(CellAt(headers, to - 1))
           case Some(court) => [Tier(court, to - 1)]
           case None => []
  }

  function BlockTiers(lex: Lexer, b: Block, grid: Grid): seq<Tier> {
    var headers := RowAt(grid, b.header).GetOr([]);
    if b.SetTypes? then Tiers(lex, headers, 0, |headers|) else Tiers(lex, headers, b.left, b.right + 1)
  }

  /** The flow and band a row prices, if its label is recognised. Case Record is folded onto Case Files. */
  function RowSlot(lex: Lexer, b: Block, row: Row): Option<Slot> {
    match b
    case Headline(_, _, _, _, _) => (
      match lex.service(CellAt(row, 0))
      case None => None
      case Some(s) => Some(Slot(if s == Record then Files else s, if s == Files then Pending else Current)))
    case SearchBands(_, _, _, _, _, years) => (
      var c := CellAt(row, years);
      if c.None? || c.value == "" then None
      else match lex.searchBand(Trim(c.value))
        case None => None
        case Some(y) => Some(Slot(Search, y)))
    case RecordBands(_, _, _, _, _, years) => BandSlot(lex, CellAt(row, years))
    case SetTypes(_, _, _) => BandSlot(lex, CellAt(row, 0))
  }

  function BandSlot(lex: Lexer, c: Cell): Option<Slot> {
    match lex.band(c)
    case None => None
    case Some(y) => Some(Slot(Files, y))
  }

  const SET_TYPES := [Attested, NonAttested, Both]
  const PDF_OFFSET := 3
  const DELIVERY_OFFSET := 4

  /** Case Information and Case Search dispatch nothing. */
  function HeadlineDraft(region: Region, slot: Slot, court: Court, base: Price, clerk: Price): Draft {
    Draft(slot.flow, court, region, slot.band, None, base.amount, base.available && base.amount.Some?,
          clerk.amount, 300.0, if slot.flow == Information || slot.flow == Search then 0.0 else 100.0)
  }

  function SetTypeDraft(region: Region, band: Band, court: Court, st: SetType, price: Price,
                        pdf: Price, delivery: Price): Draft {
    Draft(Files, court, region, band, Some(st), price.amount, price.available && price.amount.Some?,
          None, pdf.amount.GetOr(300.0), delivery.amount.GetOr(100.0))
  }

  /** The set types from `k` on, read left to right. */
  function ReadSetTypes(lex: Lexer, region: Region, slot: Slot, t: Tier, row: Row,
                        pdf: Price, delivery: Price, k: nat): Result<seq<Draft>, Failure>
    requires k <= 3
  {
    if k == 0 then Ok([])
    else match ReadSetTypes(lex, region, slot, t, row, pdf, delivery, k - 1)
      case Err(e) => Err(e)
      case Ok(ds) =>
        match lex.cell(CellAt(row, t.col + (k - 1)))
        case Err(e) => Err(e)
        case Ok(p) => Ok(ds + [SetTypeDraft(region, slot.band, t.court, SET_TYPES[k - 1], p, pdf, delivery)])
  }

  function ReadMatrixTier(lex: Lexer, region: Region, slot: Slot, t: Tier, row: Row): Result<seq<Draft>, Failure> {
    match lex.cell(CellAt(row, t.col + PDF_OFFSET))
    case Err(e) => Err(e)
    case Ok(pdf) =>
      match lex.cell(CellAt(row, t.col + DELIVERY_OFFSET))
      case Err(e) => Err(e)
      case Ok(delivery) => ReadSetTypes(lex, region, slot, t, row, pdf, delivery, 3)
  }

  function ReadPairTier(lex: Lexer, region: Region, slot: Slot, t: Tier, row: Row): Result<seq<Draft>, Failure> {
    match lex.cell(CellAt(row, t.col))
    case Err(e) => Err(e)
    case Ok(base) =>
      match lex.cell(CellAt(row, t.col + 1))
      case Err(e) => Err(e)
      case Ok(clerk) => Ok([HeadlineDraft(region, slot, t.court, base, clerk)])
  }

  /** What one row says of one tier: one draft from the WUSUQ/CLERK pair, or three in the set-type matrix. */
  function ReadTier(lex: Lexer, b: Block, slot: Slot, t: Tier, row: Row): Result<seq<Draft>, Failure> {
    if b.SetTypes? then ReadMatrixTier(lex, b.region, slot, t, row) else ReadPairTier(lex, b.region, slot, t, row)
  }

  function ReadRow(lex: Lexer, b: Block, slot: Slot, tiers: seq<Tier>, row: Row): Result<seq<Draft>, Failure> {
    if tiers == [] then Ok([])
    else match ReadRow(lex, b, slot, tiers[..|tiers| - 1], row)
      case Err(e) => Err(e)
      case Ok(ds) =>
        match ReadTier(lex, b, slot, tiers[|tiers| - 1], row)
        case Err(e) => Err(e)
        case Ok(more) => Ok(ds + more)
  }

  function ReadLines(lex: Lexer, b: Block, lines: seq<Line>, tiers: seq<Tier>): Result<seq<Draft>, Failure> {
    if lines == [] then Ok([])
    else match ReadLines(lex, b, lines[..|lines| - 1], tiers)
      case Err(e) => Err(e)
      case Ok(ds) =>
        match ReadRow(lex, b, lines[|lines| - 1].slot, tiers, lines[|lines| - 1].row)
        case Err(e) => Err(e)
        case Ok(more) => Ok(ds + more)
  }

  function ReadBlock(lex: Lexer, b: Block, grid: Grid): Result<seq<Draft>, Failure> {
    ReadLines(lex, b, BlockLines(lex, b, grid), BlockTiers(lex, b, grid))
  }

  function BlockLines(lex: Lexer, b: Block, grid: Grid): seq<Line> {
    Lines(lex, b, grid, |b.rows|)
  }

  datatype Line = Line(slot: Slot, row: Row)

  /** A row that exists and whose label is recognised. */
  function Recognise(lex: Lexer, b: Block, grid: Grid, r: nat): Option<Line> {
    match RowAt(grid, r)
    case None => None
    case Some(row) =>
      match RowSlot(lex, b, row)
      case None => None
      case Some(slot) => Some(Line(slot, row))
  }

  type LineReader = nat -> Option<Line>

  function Recogniser(lex: Lexer, b: Block, grid: Grid): LineReader {
    (r: nat) => Recognise(lex, b, grid, r)
  }

  function Picked(read: LineReader, rows: seq<nat>, n: nat): seq<Line>
    requires n <= |rows|
  {
    if n == 0 then []
    else Picked(read, rows, n - 1)
         + match read(rows[n - 1])
           case Some(line) => [line]
           case None => []
  }

  /** The recognised lines among the first `n` listed rows. */
  function Lines(lex: Lexer, b: Block, grid: Grid, n: nat): seq<Line>
    requires n <= |b.rows|
  {
    Picked(Recogniser(lex, b, grid), b.rows, n)
  }

  // ---- A failure stops the block ----

  lemma {:induction false} RowFails(lex: Lexer, b: Block, slot: Slot, tiers: seq<Tier>, row: Row, j: nat)
    requires j <= |tiers| && ReadRow(lex, b, slot, tiers[..j], row).Err?
    ensures ReadRow(lex, b, slot, tiers, row) == ReadRow(lex, b, slot, tiers[..j], row)
  {
    if j == |tiers| {
      assert tiers[..j] == tiers;
    } else {
      assert tiers[..|tiers| - 1][..j] == tiers[..j];
      RowFails(lex, b, slot, tiers[..|tiers| - 1], row, j);
    }
  }

  lemma {:induction false} LinesFail(lex: Lexer, b: Block, lines: seq<Line>, tiers: seq<Tier>, i: nat)
    requires i <= |lines| && ReadLines(lex, b, lines[..i], tiers).Err?
    ensures ReadLines(lex, b, lines, tiers) == ReadLines(lex, b, lines[..i], tiers)
  {
    if i == |lines| {
      assert lines[..i] == lines;
    } else {
      assert lines[..|lines| - 1][..i] == lines[..i];
      LinesFail(lex, b, lines[..|lines| - 1], tiers, i);
    }
  }

  lemma {:induction false} PickedPrefix(read: LineReader, rows: seq<nat>, i: nat, n: nat)
    requires i <= n <= |rows|
    ensures Picked(read, rows, i) <= Picked(read, rows, n)
  {
    if i < n { PickedPrefix(read, rows, i, n - 1); }
  }

  lemma LinesPrefix(lex: Lexer, b: Block, grid: Grid, i: nat, n: nat)
    requires i <= n <= |b.rows|
    ensures Lines(lex, b, grid, i) <= Lines(lex, b, grid, n)
  {
    PickedPrefix(Recogniser(lex, b, grid), b.rows, i, n);
  }

  lemma LinesStep(lex: Lexer, b: Block, grid: Grid, n: nat)
    requires n < |b.rows|
    ensures match Recognise(lex, b, grid, b.rows[n])
            case None => Lines(lex, b, grid, n + 1) == Lines(lex, b, grid, n)
            case Some(line) => Lines(lex, b, grid, n + 1) == Lines(lex, b, grid, n) + [line]
  {
  }

  // ---- Which columns and rows ----

  lemma {:induction false} TiersAreRecognised(lex: Lexer, headers: Row, from: nat, to: nat, t: Tier)
    ensures t in Tiers(lex, headers, from, to)
            <==> from <= t.col < to && lex.header(CellAt(headers, t.col)) == Some(t.court)
  {
    if from < to { TiersAreRecognised(lex, headers, from, to - 1, t); }
  }

  /** A block's tiers are exactly the recognised header columns in range, each once, left to right. */
  lemma {:induction false} TiersExactly(lex: Lexer, headers: Row, from: nat, to: nat)
    ensures var ts := Tiers(lex, headers, from, to);
            && (forall t :: t in ts <==> from <= t.col < to && lex.header(CellAt(headers, t.col)) == Some(t.court))
            && Ascending(ts)
  {
    forall t ensures t in Tiers(lex, headers, from, to) <==> from <= t.col < to && lex.header(CellAt(headers, t.col)) == Some(t.court) {
      TiersAreRecognised(lex, headers, from, to, t);
    }
    TiersAscend(lex, headers, from, to);
  }

  predicate Ascending(ts: seq<Tier>) {
    forall i, j :: 0 <= i < j < |ts| ==> ts[i].col < ts[j].col
  }

  lemma OneFurther(ts: seq<Tier>, t: Tier)
    requires Ascending(ts) && forall x :: x in ts ==> x.col < t.col
    ensures Ascending(ts + [t])
  {
    assert forall i :: 0 <= i < |ts| ==> ts[i] in ts;
  }

  lemma {:induction false} TiersAscend(lex: Lexer, headers: Row, from: nat, to: nat)
    ensures Ascending(Tiers(lex, headers, from, to))
  {
    if from < to {
      TiersAscend(lex, headers, from, to - 1);
      var ts := Tiers(lex, headers, from, to - 1);
      forall t | t in ts ensures t.col < to - 1 { TiersAreRecognised(lex, headers, from, to - 1, t); }
      match lex.header(CellAt(headers, to - 1))
      case None => assert Tiers(lex, headers, from, to) == ts;
      case Some(court) =>
        OneFurther(ts, Tier(court, to - 1));
        assert Tiers(lex, headers, from, to) == ts + [Tier(court, to - 1)];
    }
  }

  lemma {:induction false} PickedExactly(read: LineReader, rows: seq<nat>, n: nat, line: Line)
    requires n <= |rows|
    ensures line in Picked(read, rows, n) <==> exists r :: r in rows[..n] && read(r) == Some(line)
  {
    if n > 0 {
      PickedExactly(read, rows, n - 1, line);
      assert rows[..n] == rows[..n - 1] + [rows[n - 1]];
    }
  }

  /** A block's lines are exactly the listed rows that exist and are recognised. */
  lemma LinesExactly(lex: Lexer, b: Block, grid: Grid, n: nat)
    requires n <= |b.rows|
    ensures forall line :: line in Lines(lex, b, grid, n)
                           <==> exists r :: r in b.rows[..n] && Recognise(lex, b, grid, r) == Some(line)
  {
    var read := Recogniser(lex, b, grid);
    forall line ensures line in Lines(lex, b, grid, n) <==> exists r :: r in b.rows[..n] && Recognise(lex, b, grid, r) == Some(line) {
      PickedExactly(read, b.rows, n, line);
      assert forall r: nat :: read(r) == Recognise(lex, b, grid, r);
    }
  }

  /** The service of a headline row. */
  function ServiceOf(lex: Lexer, row: Row): Option<Service> {
    lex.service(CellAt(row, 0))
  }

  /**
   * Case Record never becomes a flow of its own: its headline rate is Case Files' current year, while
   * a Case Files headline is the pending rate. Every other block prices one flow.
   */
  lemma SlotsPerBlock(lex: Lexer, b: Block, grid: Grid)
    ensures forall line :: line in BlockLines(lex, b, grid) ==>
              && line.slot.flow != Record
              && (b.Headline? ==> (line.slot.band.Pending? <==> ServiceOf(lex, line.row) == Some(Files)))
              && (b.Headline? ==> (line.slot == Slot(Files, Current) <==> ServiceOf(lex, line.row) == Some(Record)))
              && (b.SearchBands? ==> line.slot.flow == Search)
              && (b.RecordBands? || b.SetTypes? ==> line.slot.flow == Files)
  {
    LinesExactly(lex, b, grid, |b.rows|);
  }

  /** The slot a row prices, from its own label cell: the first, or for the year bands the year column's. */
  lemma SlotExactly(lex: Lexer, b: Block, row: Row, slot: Slot)
    ensures RowSlot(lex, b, row) == Some(slot)
            <==> match b
                 case Headline(_, _, _, _, _) =>
                   var s := lex.service(CellAt(row, 0));
                   s.Some? && slot == (if s == Some(Files) then Slot(Files, Pending)
                                       else if s == Some(Record) then Slot(Files, Current) else Slot(s.value, Current))
                 case SearchBands(_, _, _, _, _, years) =>
                   var c := CellAt(row, years);
                   slot.flow == Search && c.Some? && c.value != "" && lex.searchBand(Trim(c.value)) == Some(slot.band)
                 case RecordBands(_, _, _, _, _, years) => slot.flow == Files && lex.band(CellAt(row, years)) == Some(slot.band)
                 case SetTypes(_, _, _) => slot.flow == Files && lex.band(CellAt(row, 0)) == Some(slot.band)
  {
  }

  /** A block is read from its header row's recognised columns, both ends included, and from its listed rows. */
  lemma BlockReadsExactly(lex: Lexer, b: Block, grid: Grid)
    ensures forall t :: t in BlockTiers(lex, b, grid)
                        <==> var headers := if b.header < |grid| then grid[b.header] else [];
                             && (if b.SetTypes? then t.col < |headers| else b.left <= t.col <= b.right)
                             && lex.header(CellAt(headers, t.col)) == Some(t.court)
    ensures Ascending(BlockTiers(lex, b, grid))
    ensures forall line :: line in BlockLines(lex, b, grid)
                           <==> exists r :: r in b.rows && r < |grid| && line.row == grid[r] && RowSlot(lex, b, grid[r]) == Some(line.slot)
  {
    var headers := RowAt(grid, b.header).GetOr([]);
    if b.SetTypes? { TiersExactly(lex, headers, 0, |headers|); } else { TiersExactly(lex, headers, b.left, b.right + 1); }
    LinesExactly(lex, b, grid, |b.rows|);
    assert b.rows[..|b.rows|] == b.rows;
    forall line, r: nat ensures Recognise(lex, b, grid, r) == Some(line)
                                <==> r < |grid| && line.row == grid[r] && RowSlot(lex, b, grid[r]) == Some(line.slot) {}
  }

  // ---- Exactly (rows x tiers) drafts, in row-then-tier order, from the stated columns ----

  function Width(b: Block): nat { if b.SetTypes? then 3 else 1 }

  /** Draft `d` is the `k`-th one the row says of the tier, every field from its own column. */
  predicate IsDraftOf(lex: Lexer, b: Block, line: Line, t: Tier, k: nat, d: Draft) {
    && (d.flow, d.court, d.region, d.band) == (line.slot.flow, t.court, b.region, line.slot.band)
    && match b
       case SetTypes(_, _, _) =>
         && line.slot.flow == Files && k < 3 && d.setType == Some(SET_TYPES[k]) && d.clerk == None
         && Reads(lex, line.row, t.col + k, d.base, d.available)
         && ReadsOr(lex, line.row, t.col + 3, 300.0, d.pdf)
         && ReadsOr(lex, line.row, t.col + 4, 100.0, d.delivery)
       case _ =>
         && k == 0 && d.setType == None && d.pdf == 300.0
         && Reads(lex, line.row, t.col, d.base, d.available)
         && lex.cell(CellAt(line.row, t.col + 1)).Ok?
         && d.clerk == lex.cell(CellAt(line.row, t.col + 1)).value.amount
         && d.delivery == if line.slot.flow in {Information, Search} then 0.0 else 100.0
  }

  /** The amount in a column; available when the cell is and there is one. */
  predicate Reads(lex: Lexer, row: Row, c: nat, amount: Option<real>, available: bool) {
    var p := lex.cell(CellAt(row, c));
    p.Ok? && amount == p.value.amount && available == (p.value.available && amount.Some?)
  }

  predicate ReadsOr(lex: Lexer, row: Row, c: nat, default: real, amount: real) {
    var p := lex.cell(CellAt(row, c));
    p.Ok? && amount == p.value.amount.GetOr(default)
  }

  predicate Fits(b: Block, line: Line) {
    b.SetTypes? ==> line.slot.flow == Files
  }

  lemma {:induction false} LinesFit(lex: Lexer, b: Block, grid: Grid, n: nat)
    requires n <= |b.rows|
    ensures forall line :: line in Lines(lex, b, grid, n) ==> Fits(b, line)
  {
    if n > 0 { LinesFit(lex, b, grid, n - 1); }
  }

  lemma {:induction false} SetTypesAt(lex: Lexer, b: Block, line: Line, t: Tier, pdf: Price, delivery: Price, k: nat)
    requires b.SetTypes? && Fits(b, line) && k <= 3
    requires lex.cell(CellAt(line.row, t.col + 3)) == Ok(pdf)
    requires lex.cell(CellAt(line.row, t.col + 4)) == Ok(delivery)
    requires ReadSetTypes(lex, b.region, line.slot, t, line.row, pdf, delivery, k).Ok?
    ensures var ds := ReadSetTypes(lex, b.region, line.slot, t, line.row, pdf, delivery, k).value;
            |ds| == k && forall o :: 0 <= o < k ==> IsDraftOf(lex, b, line, t, o, ds[o])
  {
    if k > 0 { SetTypesAt(lex, b, line, t, pdf, delivery, k - 1); }
  }

  lemma TierDrafts(lex: Lexer, b: Block, line: Line, t: Tier)
    requires ReadTier(lex, b, line.slot, t, line.row).Ok?
    requires Fits(b, line)
    ensures var ds := ReadTier(lex, b, line.slot, t, line.row).value;
            |ds| == Width(b) && forall k :: 0 <= k < |ds| ==> IsDraftOf(lex, b, line, t, k, ds[k])
  {
    if b.SetTypes? {
      var pdf := lex.cell(CellAt(line.row, t.col + PDF_OFFSET)).value;
      var delivery := lex.cell(CellAt(line.row, t.col + DELIVERY_OFFSET)).value;
      SetTypesAt(lex, b, line, t, pdf, delivery, 3);
    }
  }

  /** An available draft has an amount. */
  predicate Priced(ds: seq<Draft>) {
    forall d :: d in ds && d.available ==> d.base.Some?
  }

  lemma {:induction false} SetTypesPriced(lex: Lexer, region: Region, slot: Slot, t: Tier, row: Row,
                                          pdf: Price, delivery: Price, k: nat)
    requires k <= 3 && ReadSetTypes(lex, region, slot, t, row, pdf, delivery, k).Ok?
    ensures Priced(ReadSetTypes(lex, region, slot, t, row, pdf, delivery, k).value)
  {
    if k > 0 { SetTypesPriced(lex, region, slot, t, row, pdf, delivery, k - 1); }
  }

  lemma TierPriced(lex: Lexer, b: Block, slot: Slot, t: Tier, row: Row)
    requires ReadTier(lex, b, slot, t, row).Ok?
    ensures Priced(ReadTier(lex, b, slot, t, row).value)
  {
    if b.SetTypes? {
      SetTypesPriced(lex, b.region, slot, t, row, lex.cell(CellAt(row, t.col + PDF_OFFSET)).value,
                     lex.cell(CellAt(row, t.col + DELIVERY_OFFSET)).value, 3);
    }
  }

  lemma {:induction false} RowPriced(lex: Lexer, b: Block, slot: Slot, tiers: seq<Tier>, row: Row)
    requires ReadRow(lex, b, slot, tiers, row).Ok?
    ensures Priced(ReadRow(lex, b, slot, tiers, row).value)
  {
    if tiers != [] {
      RowPriced(lex, b, slot, tiers[..|tiers| - 1], row);
      TierPriced(lex, b, slot, tiers[|tiers| - 1], row);
    }
  }

  lemma {:induction false} LinesPriced(lex: Lexer, b: Block, lines: seq<Line>, tiers: seq<Tier>)
    requires ReadLines(lex, b, lines, tiers).Ok?
    ensures Priced(ReadLines(lex, b, lines, tiers).value)
  {
    if lines != [] {
      LinesPriced(lex, b, lines[..|lines| - 1], tiers);
      RowPriced(lex, b, lines[|lines| - 1].slot, tiers, lines[|lines| - 1].row);
    }
  }

  /** `n * w`, by steps, so that positions stay linear. */
  function Times(n: nat, w: nat): nat {
    if n == 0 then 0 else Times(n - 1, w) + w
  }

  lemma {:induction false} TimesIsProduct(n: nat, w: nat)
    ensures Times(n, w) == n * w
  {
    if n > 0 {
      TimesIsProduct(n - 1, w);
      assert n * w == (n - 1) * w + w;
    }
  }

  lemma {:induction false} TimesBelow(i: nat, n: nat, w: nat)
    requires i < n
    ensures Times(i, w) + w <= Times(n, w)
  {
    if i < n - 1 { TimesBelow(i, n - 1, w); }
  }

  lemma {:induction false} RowLength(lex: Lexer, b: Block, line: Line, tiers: seq<Tier>)
    requires ReadRow(lex, b, line.slot, tiers, line.row).Ok?
    requires Fits(b, line)
    ensures |ReadRow(lex, b, line.slot, tiers, line.row).value| == Times(|tiers|, Width(b))
  {
    if tiers != [] {
      TierDrafts(lex, b, line, tiers[|tiers| - 1]);
      RowLength(lex, b, line, tiers[..|tiers| - 1]);
    }
  }

  lemma RowAtLastTier(lex: Lexer, b: Block, line: Line, tiers: seq<Tier>, k: nat)
    requires ReadRow(lex, b, line.slot, tiers, line.row).Ok?
    requires Fits(b, line) && tiers != [] && k < Width(b)
    ensures var ds, at := ReadRow(lex, b, line.slot, tiers, line.row).value, Times(|tiers| - 1, Width(b)) + k;
            at < |ds| && IsDraftOf(lex, b, line, tiers[|tiers| - 1], k, ds[at])
  {
    TierDrafts(lex, b, line, tiers[|tiers| - 1]);
    RowLength(lex, b, line, tiers[..|tiers| - 1]);
  }

  lemma RowKeepsFront(lex: Lexer, b: Block, line: Line, tiers: seq<Tier>)
    requires ReadRow(lex, b, line.slot, tiers, line.row).Ok? && tiers != []
    ensures var front := ReadRow(lex, b, line.slot, tiers[..|tiers| - 1], line.row);
            front.Ok? && front.value <= ReadRow(lex, b, line.slot, tiers, line.row).value
  {
  }

  lemma {:induction false} RowAtTier(lex: Lexer, b: Block, line: Line, tiers: seq<Tier>, j: nat, k: nat)
    requires ReadRow(lex, b, line.slot, tiers, line.row).Ok?
    requires Fits(b, line)
    requires j < |tiers| && k < Width(b)
    ensures var ds := ReadRow(lex, b, line.slot, tiers, line.row).value;
            Times(j, Width(b)) + k < |ds| && IsDraftOf(lex, b, line, tiers[j], k, ds[Times(j, Width(b)) + k])
  {
    var n := |tiers| - 1;
    if j == n {
      RowAtLastTier(lex, b, line, tiers, k);
    } else {
      RowKeepsFront(lex, b, line, tiers);
      RowAtTier(lex, b, line, tiers[..n], j, k);
      assert tiers[..n][j] == tiers[j];
    }
  }

  lemma {:induction false} LinesLength(lex: Lexer, b: Block, lines: seq<Line>, tiers: seq<Tier>, per: nat)
    requires ReadLines(lex, b, lines, tiers).Ok? && per == Times(|tiers|, Width(b))
    requires forall line :: line in lines ==> Fits(b, line)
    ensures |ReadLines(lex, b, lines, tiers).value| == Times(|lines|, per)
  {
    if lines != [] {
      LinesLength(lex, b, lines[..|lines| - 1], tiers, per);
      RowLength(lex, b, lines[|lines| - 1], tiers);
    }
  }

  /** One line more appends its row. */
  lemma LinesAppend(lex: Lexer, b: Block, lines: seq<Line>, tiers: seq<Tier>, per: nat)
    requires ReadLines(lex, b, lines, tiers).Ok? && lines != [] && per == Times(|tiers|, Width(b))
    requires forall line :: line in lines ==> Fits(b, line)
    ensures var n := |lines| - 1;
            var front, row := ReadLines(lex, b, lines[..n], tiers), ReadRow(lex, b, lines[n].slot, tiers, lines[n].row);
            && front.Ok? && row.Ok? && |row.value| == per && |front.value| == Times(n, per)
            && ReadLines(lex, b, lines, tiers).value == front.value + row.value
  {
    LinesLength(lex, b, lines[..|lines| - 1], tiers, per);
    RowLength(lex, b, lines[|lines| - 1], tiers);
  }

  /** Draft `o` of line `i` stands `i` lines in. */
  lemma {:induction false} LinesAt(lex: Lexer, b: Block, lines: seq<Line>, tiers: seq<Tier>, per: nat, i: nat, o: nat)
    requires ReadLines(lex, b, lines, tiers).Ok? && per == Times(|tiers|, Width(b))
    requires forall line :: line in lines ==> Fits(b, line)
    requires i < |lines| && o < per
    ensures var row := ReadRow(lex, b, lines[i].slot, tiers, lines[i].row);
            && row.Ok? && |row.value| == per && Times(i, per) + o < |ReadLines(lex, b, lines, tiers).value|
            && ReadLines(lex, b, lines, tiers).value[Times(i, per) + o] == row.value[o]
  {
    LinesAppend(lex, b, lines, tiers, per);
    if i < |lines| - 1 {
      LinesAt(lex, b, lines[..|lines| - 1], tiers, per, i, o);
      assert lines[..|lines| - 1][i] == lines[i];
    }
  }

  lemma BlockAtSteps(lex: Lexer, b: Block, lines: seq<Line>, tiers: seq<Tier>, i: nat, j: nat, k: nat, per: nat, at: nat)
    requires ReadLines(lex, b, lines, tiers).Ok? && i < |lines| && j < |tiers| && k < Width(b)
    requires forall line :: line in lines ==> Fits(b, line)
    requires per == Times(|tiers|, Width(b)) && at == Times(i, per) + (Times(j, Width(b)) + k)
    ensures |ReadLines(lex, b, lines, tiers).value| == Times(|lines|, per)
    ensures at < |ReadLines(lex, b, lines, tiers).value|
    ensures IsDraftOf(lex, b, lines[i], tiers[j], k, ReadLines(lex, b, lines, tiers).value[at])
  {
    TimesBelow(j, |tiers|, Width(b));
    LinesLength(lex, b, lines, tiers, per);
    LinesAt(lex, b, lines, tiers, per, i, Times(j, Width(b)) + k);
    RowAtTier(lex, b, lines[i], tiers, j, k);
  }

  /**
   * A block that parses yields exactly one draft (`w` == 3 in the matrix) per recognised row and
   * recognised tier column, rows first, and each draft's fields come from the stated columns.
   */
  lemma BlockAt(lex: Lexer, b: Block, grid: Grid, i: nat, j: nat, k: nat, w: nat, per: nat, at: nat)
    requires ReadBlock(lex, b, grid).Ok?
    requires i < |BlockLines(lex, b, grid)| && j < |BlockTiers(lex, b, grid)| && k < w
    requires w == Width(b) && per == |BlockTiers(lex, b, grid)| * w && at == i * per + j * w + k
    ensures |ReadBlock(lex, b, grid).value| == |BlockLines(lex, b, grid)| * per
    ensures at < |ReadBlock(lex, b, grid).value|
    ensures IsDraftOf(lex, b, BlockLines(lex, b, grid)[i], BlockTiers(lex, b, grid)[j], k,
                      ReadBlock(lex, b, grid).value[at])
  {
    LinesFit(lex, b, grid, |b.rows|);
    TimesIsProduct(|BlockTiers(lex, b, grid)|, w);
    TimesIsProduct(j, w);
    TimesIsProduct(i, per);
    TimesIsProduct(|BlockLines(lex, b, grid)|, per);
    BlockAtSteps(lex, b, BlockLines(lex, b, grid), BlockTiers(lex, b, grid), i, j, k, per, at);
  }

  /** Some listed line and tier, in the columns of set type `k`, say this draft. */
  ghost predicate IsReadFrom(lex: Lexer, b: Block, lines: seq<Line>, tiers: seq<Tier>, d: Draft) {
    exists line, t, k :: line in lines && t in tiers && IsDraftOf(lex, b, line, t, k, d)
  }

  lemma {:induction false} RowIsRead(lex: Lexer, b: Block, line: Line, lines: seq<Line>, tiers: seq<Tier>, all: seq<Tier>)
    requires ReadRow(lex, b, line.slot, tiers, line.row).Ok? && Fits(b, line) && line in lines
    requires forall t :: t in tiers ==> t in all
    ensures forall d :: d in ReadRow(lex, b, line.slot, tiers, line.row).value ==> IsReadFrom(lex, b, lines, all, d)
  {
    if tiers != [] {
      var n := |tiers| - 1;
      RowIsRead(lex, b, line, lines, tiers[..n], all);
      TierDrafts(lex, b, line, tiers[n]);
      var ds := ReadTier(lex, b, line.slot, tiers[n], line.row).value;
      forall d | d in ds ensures IsReadFrom(lex, b, lines, all, d) {
        var k :| 0 <= k < |ds| && ds[k] == d;
        assert IsDraftOf(lex, b, line, tiers[n], k, d);
      }
    }
  }

  lemma {:induction false} LinesAreRead(lex: Lexer, b: Block, lines: seq<Line>, all: seq<Line>, tiers: seq<Tier>)
    requires ReadLines(lex, b, lines, tiers).Ok?
    requires forall line :: line in lines ==> Fits(b, line) && line in all
    ensures forall d :: d in ReadLines(lex, b, lines, tiers).value ==> IsReadFrom(lex, b, all, tiers, d)
  {
    if lines != [] {
      var n := |lines| - 1;
      LinesAreRead(lex, b, lines[..n], all, tiers);
      RowIsRead(lex, b, lines[n], all, tiers, tiers);
    }
  }

  /** Every draft of a block is read from one of its lines and tiers. */
  lemma BlockIsRead(lex: Lexer, b: Block, grid: Grid)
    requires ReadBlock(lex, b, grid).Ok?
    ensures forall d :: d in ReadBlock(lex, b, grid).value ==> IsReadFrom(lex, b, BlockLines(lex, b, grid), BlockTiers(lex, b, grid), d)
  {
    LinesFit(lex, b, grid, |b.rows|);
    LinesAreRead(lex, b, BlockLines(lex, b, grid), BlockLines(lex, b, grid), BlockTiers(lex, b, grid));
  }

  predicate CellParses(lex: Lexer, row: Row, c: nat) {
    lex.cell(CellAt(row, c)).Ok?
  }

  /** Every cell the tier's columns hold in this row is blank, "Can't Get" or a number. */
  predicate TierParses(lex: Lexer, b: Block, t: Tier, row: Row) {
    forall c :: t.col <= c < t.col + (if b.SetTypes? then 5 else 2) ==> CellParses(lex, row, c)
  }

  lemma ReadTierParses(lex: Lexer, b: Block, slot: Slot, t: Tier, row: Row)
    ensures ReadTier(lex, b, slot, t, row).Ok? <==> TierParses(lex, b, t, row)
  {
    if b.SetTypes? {
      assert TierParses(lex, b, t, row) ==> CellParses(lex, row, t.col + 3) && CellParses(lex, row, t.col + 4);
      var pdf := lex.cell(CellAt(row, t.col + PDF_OFFSET));
      var delivery := lex.cell(CellAt(row, t.col + DELIVERY_OFFSET));
      if pdf.Ok? && delivery.Ok? {
        SetTypesParse(lex, b.region, slot, t, row, pdf.value, delivery.value, 3);
      }
    } else {
      assert TierParses(lex, b, t, row) ==> CellParses(lex, row, t.col) && CellParses(lex, row, t.col + 1);
    }
  }

  lemma {:induction false} SetTypesParse(lex: Lexer, region: Region, slot: Slot, t: Tier, row: Row,
                                         pdf: Price, delivery: Price, k: nat)
    requires k <= 3
    ensures ReadSetTypes(lex, region, slot, t, row, pdf, delivery, k).Ok?
            <==> forall c :: t.col <= c < t.col + k ==> CellParses(lex, row, c)
  {
    if k > 0 {
      SetTypesParse(lex, region, slot, t, row, pdf, delivery, k - 1);
      assert CellParses(lex, row, t.col + (k - 1)) <==> lex.cell(CellAt(row, t.col + (k - 1))).Ok?;
    }
  }

  lemma {:induction false} RowParses(lex: Lexer, b: Block, slot: Slot, tiers: seq<Tier>, row: Row)
    ensures ReadRow(lex, b, slot, tiers, row).Ok?
            <==> forall t :: t in tiers ==> TierParses(lex, b, t, row)
  {
    if tiers != [] {
      var n := |tiers| - 1;
      RowParses(lex, b, slot, tiers[..n], row);
      ReadTierParses(lex, b, slot, tiers[n], row);
      assert tiers == tiers[..n] + [tiers[n]];
    }
  }

  lemma {:induction false} LinesParse(lex: Lexer, b: Block, lines: seq<Line>, tiers: seq<Tier>)
    ensures ReadLines(lex, b, lines, tiers).Ok?
            <==> forall line, t :: line in lines && t in tiers ==> TierParses(lex, b, t, line.row)
  {
    if lines != [] {
      var n := |lines| - 1;
      LinesParse(lex, b, lines[..n], tiers);
      RowParses(lex, b, lines[n].slot, tiers, lines[n].row);
      assert lines == lines[..n] + [lines[n]];
    }
  }

  /** A block parses exactly when every cell of every recognised row and tier does. */
  lemma BlockParses(lex: Lexer, b: Block, grid: Grid)
    ensures ReadBlock(lex, b, grid).Ok?
            <==> forall line, t :: line in BlockLines(lex, b, grid) && t in BlockTiers(lex, b, grid)
                                   ==> TierParses(lex, b, t, line.row)
  {
    LinesParse(lex, b, BlockLines(lex, b, grid), BlockTiers(lex, b, grid));
  }
}
