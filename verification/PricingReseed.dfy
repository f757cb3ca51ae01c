/** The two partial reseeds, against each other and against the full rebuild. */
module PricingReseed {
  import opened Base
  import opened PricingSheet
  import opened PricingRules
  import opened PricingRows
  import opened PricingSeed

  // ---- What each transaction does to the table ----

  predicate InUsd(r: RuleRow) { r.currency == USD }

  predicate InNonJudicial(r: RuleRow) { r.flow in NON_JUDICIAL_FLOWS }

  /** Delete what `doomed` picks, then insert `added`. */
  function Replaced(rows: seq<RuleRow>, doomed: RuleRow -> bool, added: seq<RuleRow>): seq<RuleRow> {
    Kept(rows, doomed) + added
  }

  function ReseedUsd(rows: seq<RuleRow>, usd: seq<RuleRow>): seq<RuleRow> {
    Replaced(rows, InUsd, usd)
  }

  function ReseedNonJudicial(rows: seq<RuleRow>): seq<RuleRow> {
    Replaced(rows, InNonJudicial, NON_JUDICIAL_ROWS)
  }

  /** `seed-usd-pricing.ts`. */
  method SeedUsd(prices: UsdPrices, connected: bool, table: RuleTable) returns (failure: Option<Failure>)
    requires NoClash(table.rows)
    modifies table
    ensures failure.None? <==> connected
    ensures failure.Some? ==> table.rows == old(table.rows)
    ensures failure.None? ==> exists usd :: IsUsdList(usd, prices, USD_PRICING_ROW_COUNT)
                                            && table.rows == ReseedUsd(old(table.rows), usd)
    ensures NoClash(table.rows)
  {
    var usd := BuildUsdRows(prices);
    if |usd| != USD_PRICING_ROW_COUNT { return Some(WrongUsdCount); }
    UsdDistinct(usd, prices);
    UsdNeverClashes(usd, prices);
    KeptNoClash(table.rows, InUsd);
    ClashFree(Kept(table.rows, InUsd), usd);
    var saved := table.Replace(InUsd, usd, connected);
    failure := if saved then None else Some(NotSaved);
  }

  /** `seed-non-judicial-pricing.ts`. */
  method SeedNonJudicial(connected: bool, table: RuleTable) returns (failure: Option<Failure>)
    requires NoClash(table.rows)
    modifies table
    ensures failure.None? <==> connected
    ensures table.rows == if failure.None? then ReseedNonJudicial(old(table.rows)) else old(table.rows)
    ensures NoClash(table.rows)
  {
    KeptNoClash(table.rows, InNonJudicial);
    ClashFree(Kept(table.rows, InNonJudicial), NON_JUDICIAL_ROWS);
    var saved := table.Replace(InNonJudicial, NON_JUDICIAL_ROWS, connected);
    failure := if saved then None else Some(NotSaved);
  }

  // ---- Filters ----

  lemma {:induction false} KeptConcat(a: seq<RuleRow>, b: seq<RuleRow>, deleted: RuleRow -> bool)
    ensures Kept(a + b, deleted) == Kept(a, deleted) + Kept(b, deleted)
  {
    if a == [] {
      assert a + b == b;
    } else {
      assert (a + b)[1..] == a[1..] + b;
      KeptConcat(a[1..], b, deleted);
    }
  }

  lemma {:induction false} KeptCommutes(a: seq<RuleRow>, p: RuleRow -> bool, q: RuleRow -> bool)
    ensures Kept(Kept(a, p), q) == Kept(Kept(a, q), p)
  {
    if a != [] {
      KeptCommutes(a[1..], p, q);
      KeptConcat([a[0]], a[1..], p);
      KeptConcat([a[0]], a[1..], q);
      KeptConcat(Kept([a[0]], p), Kept(a[1..], p), q);
      KeptConcat(Kept([a[0]], q), Kept(a[1..], q), p);
      assert a == [a[0]] + a[1..];
    }
  }

  lemma {:induction false} KeptNoClash(rows: seq<RuleRow>, deleted: RuleRow -> bool)
    requires NoClash(rows)
    ensures NoClash(Kept(rows, deleted))
  {
    if rows != [] {
      assert forall i :: 0 <= i < |rows[1..]| ==> rows[1..][i] == rows[i + 1];
      KeptNoClash(rows[1..], deleted);
      forall r | r in rows[1..] ensures !Clash(rows[0], r) {
        var i :| 0 <= i < |rows[1..]| && rows[1..][i] == r;
      }
      ClashFree(if deleted(rows[0]) then [] else [rows[0]], Kept(rows[1..], deleted));
    }
  }

  lemma ClashFree(a: seq<RuleRow>, b: seq<RuleRow>)
    requires NoClash(a) && NoClash(b) && forall x, y :: x in a && y in b ==> !Clash(x, y)
    ensures NoClash(a + b)
  {
  }

  lemma UsdNeverClashes(usd: seq<RuleRow>, prices: UsdPrices)
    requires IsUsdList(usd, prices, USD_PRICING_ROW_COUNT)
    ensures NoClash(usd) && forall r :: r in usd ==> r.setType.None?
  {
  }

  // ---- Replacing one kind of row ----

  predicate Only(rows: seq<RuleRow>, mine: RuleRow -> bool, other: RuleRow -> bool) {
    forall r :: r in rows ==> mine(r) && !other(r)
  }

  lemma ReplaceTwice(rows: seq<RuleRow>, p: RuleRow -> bool, a: seq<RuleRow>)
    requires forall r :: r in a ==> p(r)
    ensures Kept(Replaced(rows, p, a), p) == Kept(rows, p)
    ensures Replaced(Replaced(rows, p, a), p, a) == Replaced(rows, p, a)
  {
    KeptConcat(Kept(rows, p), a, p);
    KeptAll(Kept(rows, p), p);
    KeptNone(a, p);
  }

  lemma ReplaceBoth(rows: seq<RuleRow>, p: RuleRow -> bool, a: seq<RuleRow>, q: RuleRow -> bool, b: seq<RuleRow>)
    requires Only(a, p, q) && Only(b, q, p)
    ensures Replaced(Replaced(rows, p, a), q, b) == Kept(Kept(rows, p), q) + a + b
  {
    KeptConcat(Kept(rows, p), a, q);
    KeptAll(a, q);
  }

  lemma ReplacesCommute(rows: seq<RuleRow>, p: RuleRow -> bool, a: seq<RuleRow>, q: RuleRow -> bool, b: seq<RuleRow>)
    requires Only(a, p, q) && Only(b, q, p)
    ensures multiset(Replaced(Replaced(rows, p, a), q, b)) == multiset(Replaced(Replaced(rows, q, b), p, a))
  {
    ReplaceBoth(rows, p, a, q, b);
    ReplaceBoth(rows, q, b, p, a);
    KeptCommutes(rows, p, q);
  }

  lemma ReplaceLast(rest: seq<RuleRow>, q: RuleRow -> bool, b: seq<RuleRow>)
    requires (forall r :: r in b ==> q(r)) && forall r :: r in rest ==> !q(r)
    ensures Replaced(rest + b, q, b) == rest + b
  {
    assert Kept(rest + b, q) == rest by {
      KeptConcat(rest, b, q);
      KeptAll(rest, q);
      KeptNone(b, q);
      assert rest + [] == rest;
    }
  }

  lemma ReplaceMiddle(rest: seq<RuleRow>, p: RuleRow -> bool, a: seq<RuleRow>, b: seq<RuleRow>)
    requires forall r :: r in a ==> p(r)
    requires (forall r :: r in rest ==> !p(r)) && forall r :: r in b ==> !p(r)
    ensures Replaced(rest + a + b, p, a) == rest + b + a
  {
    assert Kept(rest + a, p) == rest by {
      KeptConcat(rest, a, p);
      KeptAll(rest, p);
      KeptNone(a, p);
    }
    KeptConcat(rest + a, b, p);
    KeptAll(b, p);
  }

  lemma SwapParts(rest: seq<RuleRow>, a: seq<RuleRow>, b: seq<RuleRow>)
    ensures multiset(rest + a + b) == multiset(rest + b + a)
  {
  }

  // ---- The reseeds ----

  predicate IsNonJudicial(flow: string) {
    || flow == "non_judicial_copy_of_fir" || flow == "non_judicial_registry_deed"
    || flow == "non_judicial_criminal_record_search"
  }

  /** After the USD script the rows are the others of before and the new list, and nothing else. */
  lemma RowsAfterUsd(rows: seq<RuleRow>, usd: seq<RuleRow>, r: RuleRow)
    ensures r in ReseedUsd(rows, usd) <==> (r in rows && r.currency != "USD") || r in usd
  {
  }

  /** After the non-judicial script the rows are those of the other flows and one base price for each of the three. */
  lemma RowsAfterNonJudicial(rows: seq<RuleRow>, r: RuleRow)
    ensures r in ReseedNonJudicial(rows) <==> (r in rows && !IsNonJudicial(r.flow)) || r in NON_JUDICIAL_ROWS
    ensures r in NON_JUDICIAL_ROWS ==>
              && IsNonJudicial(r.flow) && r.region.None? && r.court.None? && r.band.None? && r.setType.None?
              && r.name == r.flow + " \U{2013} base" && r.isActive && r.isLegacy
              && r.currency == "PKR" && r.availability && r.pdf == 300.0 && r.delivery == 100.0 && r.clerk.None?
              && r.basePrice == if r.flow == "non_judicial_registry_deed" then 3500.0 else 2000.0
  {
  }

  lemma UsdListIsUsd(usd: seq<RuleRow>, prices: UsdPrices)
    requires IsUsdList(usd, prices, USD_PRICING_ROW_COUNT)
    ensures Only(usd, InUsd, InNonJudicial)
  {
  }

  lemma NonJudicialRowsAreTheirOwn()
    ensures Only(NON_JUDICIAL_ROWS, InNonJudicial, InUsd)
  {
  }

  /** The USD reseed leaves every PKR row alone, in order, and running it again changes nothing. */
  lemma UsdReseed(rows: seq<RuleRow>, usd: seq<RuleRow>, prices: UsdPrices)
    requires IsUsdList(usd, prices, USD_PRICING_ROW_COUNT)
    ensures Kept(ReseedUsd(rows, usd), InUsd) == Kept(rows, InUsd)
    ensures ReseedUsd(ReseedUsd(rows, usd), usd) == ReseedUsd(rows, usd)
  {
    UsdListIsUsd(usd, prices);
    ReplaceTwice(rows, InUsd, usd);
  }

  /** The non-judicial reseed leaves every other flow alone, in order, and running it again changes nothing. */
  lemma NonJudicialReseed(rows: seq<RuleRow>)
    ensures Kept(ReseedNonJudicial(rows), InNonJudicial) == Kept(rows, InNonJudicial)
    ensures ReseedNonJudicial(ReseedNonJudicial(rows)) == ReseedNonJudicial(rows)
  {
    NonJudicialRowsAreTheirOwn();
    ReplaceTwice(rows, InNonJudicial, NON_JUDICIAL_ROWS);
  }

  /** Either order of the two reseeds leaves the same rows in the table. */
  lemma ReseedsCommute(rows: seq<RuleRow>, usd: seq<RuleRow>, prices: UsdPrices)
    requires IsUsdList(usd, prices, USD_PRICING_ROW_COUNT)
    ensures multiset(ReseedUsd(ReseedNonJudicial(rows), usd)) == multiset(ReseedNonJudicial(ReseedUsd(rows, usd)))
  {
    UsdListIsUsd(usd, prices);
    NonJudicialRowsAreTheirOwn();
    ReplacesCommute(rows, InNonJudicial, NON_JUDICIAL_ROWS, InUsd, usd);
  }

  predicate Neither(rows: seq<RuleRow>, p: RuleRow -> bool, q: RuleRow -> bool) {
    forall r :: r in rows ==> !p(r) && !q(r)
  }

  /** Replacing either kind of row by the very rows that are there gives them back. */
  lemma BothGiveBack(rest: seq<RuleRow>, a: seq<RuleRow>, p: RuleRow -> bool, b: seq<RuleRow>, q: RuleRow -> bool)
    requires Neither(rest, p, q) && Only(a, p, q) && Only(b, q, p)
    ensures Replaced(rest + a + b, q, b) == rest + a + b
    ensures multiset(Replaced(rest + a + b, p, a)) == multiset(rest + a + b)
  {
    ReplaceLast(rest + a, q, b);
    ReplaceMiddle(rest, p, a, b);
    SwapParts(rest, a, b);
  }

  lemma OneUsdList(a: seq<RuleRow>, b: seq<RuleRow>, prices: UsdPrices)
    requires IsUsdList(a, prices, USD_PRICING_ROW_COUNT) && IsUsdList(b, prices, USD_PRICING_ROW_COUNT)
    ensures a == b
  {
  }

  /** Each partial script puts back the very rows that a full seed left in the table. */
  lemma ReseedsKeepSeededTable(lex: Lexer, book: Workbook, flags: Flags, year: int, prices: UsdPrices, table: seq<RuleRow>,
                               usd: seq<RuleRow>)
    ensures IsRebuilt(lex, book, flags, year, prices, table) && IsUsdList(usd, prices, USD_PRICING_ROW_COUNT)
            ==> ReseedUsd(table, usd) == table && multiset(ReseedNonJudicial(table)) == multiset(table)
  {
    if !IsRebuilt(lex, book, flags, year, prices, table) || !IsUsdList(usd, prices, USD_PRICING_ROW_COUNT) { return; }
    var judicial := JudicialRows(lex, book, flags, year).value;
    var own :| IsUsdList(own, prices, USD_PRICING_ROW_COUNT) && table == judicial + NON_JUDICIAL_ROWS + own;
    OneUsdList(own, usd, prices);
    UsdListIsUsd(usd, prices);
    JudicialFlows(Unique(Drafts(lex, book).value, Rates(lex, book, flags).value), year);
    NonJudicialRowsAreTheirOwn();
    BothGiveBack(judicial, NON_JUDICIAL_ROWS, InNonJudicial, usd, InUsd);
  }

  lemma JudicialFlows(ds: seq<Draft>, year: int)
    ensures Neither(RowsOf(ds, year), InNonJudicial, InUsd)
  {
    forall d: Draft ensures FlowText(d.flow) !in NON_JUDICIAL_FLOWS { assert FlowText(d.flow)[0] in {'j'}; }
  }
}
