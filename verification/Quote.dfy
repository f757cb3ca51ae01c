/**
 * The checkout's instant patch of a server quote, against the resolver that makes the
 * quotes. Both read one calendar year. The rule the server matches may differ from year to
 * year, since its year band does; the checkout never learns of the other rule.
 */
module QuoteModel {
  import opened Base

  const CASE_SEARCH := "judicial_case_search"
  const CASE_FILES := "judicial_case_files"
  const DECIDED := "Decided Case"

  /** The SPLIT flows; they are also the ones with a delivery leg. */
  predicate Physical(flow: string) {
    || flow == CASE_FILES || flow == "non_judicial_copy_of_fir"
    || flow == "non_judicial_criminal_record_search" || flow == "non_judicial_registry_deed"
  }

  datatype Currency = PKR | USD

  /** The matched rule's amounts. */
  datatype Rule = Rule(base: real, pdf: real, deliveryGuy: real, deliveryCharge: real)

  /** `cityCount` is what the caller sends, if anything; `bundleBase` the document bundle's price, 0 without one. */
  datatype Request = Request(flow: string, currency: Currency, status: string, cityCount: Option<int>, bundleBase: real,
                             stateVs: bool, searchBoth: bool, wantPdf: bool, delivered: bool)

  datatype Quote = Quote(basePrice: real, base: real, title: real, age: Option<real>, searchBoth: real,
                         pdf: real, deliveryFee: real, deliveryCharge: real,
                         cityCount: Option<int>, serviceCost: real, total: real)

  /** `raw` is null, unmatched or unavailable, or it carries a quote. */
  datatype Answer = NoQuote | Priced(quote: Quote)

  /** A year JavaScript takes as true and that lies before this one. */
  predicate Past(year: Option<int>, now: int) {
    year.Some? && year.value != 0 && year.value < now
  }

  function Max(a: int, b: int): int { if a < b then b else a }

  /** `computeCaseSearchBase`: Rs 2,000 per year of age, one year at least. */
  function CaseSearchBase(year: Option<int>, now: int): real {
    Max(1, if Past(year, now) then now - year.value else 1) as real * 2000.0
  }

  /** `computeDecidedAgeSurcharge`: Rs 1,000 per year beyond ten. */
  function AgeSurcharge(status: string, year: Option<int>, now: int): real {
    if status != DECIDED || !Past(year, now) || now - year.value - 10 <= 0 then 0.0
    else (now - year.value - 10) as real * 1000.0
  }

  // ---- The server ----

  function Resolve(rule: Rule, req: Request, year: Option<int>, now: int): Quote {
    if req.currency.USD? then
      Quote(rule.base, rule.base, 0.0, Some(0.0), 0.0, 0.0, 0.0, 0.0, Some(1), rule.base, rule.base)
    else if req.flow == CASE_SEARCH then Billed(rule, req, CaseSearchBase(year, now), 0.0)
    else Billed(rule, req, SeededBase(rule, req), AgeSurcharge(req.status, year, now))
  }

  function SeededBase(rule: Rule, req: Request): real {
    if req.bundleBase > 0.0 then req.bundleBase else rule.base
  }

  /** The server's answer under the rule it matched and that is available, if any. */
  function ServerAnswer(rule: Option<Rule>, req: Request, year: Option<int>, now: int): Answer {
    match rule
    case None => NoQuote
    case Some(r) => Priced(Resolve(r, req, year, now))
  }

  function CityCount(req: Request): int {
    if req.flow == CASE_SEARCH then Max(1, req.cityCount.GetOr(1)) else 1
  }

  /** The PKR bill over the two parts a year can move: the base price and the age surcharge. */
  function Billed(rule: Rule, req: Request, basePrice: real, age: real): Quote {
    var title := if req.stateVs then 1000.0 else 0.0;
    var both := if req.flow == CASE_SEARCH && req.searchBoth then 1000.0 else 0.0;
    var pdf := if req.wantPdf then rule.pdf else 0.0;
    var fee := if Physical(req.flow) && req.delivered then rule.deliveryGuy else 0.0;
    var flat := if Physical(req.flow) then rule.deliveryCharge else 0.0;
    var block := (basePrice + (both + title + age + pdf + fee)) * CityCount(req) as real;
    Quote(basePrice, basePrice, title, Some(age), both, pdf, fee, flat + fee, Some(CityCount(req)),
          if Physical(req.flow) then basePrice + title + age + pdf else block, block + flat)
  }

  // ---- What the server bills, spelled out ----

  /** `n` cities of a Case Search bill `n` times what one does; every line but the totals stays. */
  lemma CitiesMultiply(rule: Rule, req: Request, n: int, year: Option<int>, now: int)
    requires req.currency.PKR? && req.flow == "judicial_case_search" && n >= 1
    ensures var one := Resolve(rule, req.(cityCount := Some(1)), year, now);
            Resolve(rule, req.(cityCount := Some(n)), year, now)
            == one.(cityCount := Some(n), serviceCost := one.serviceCost * n as real, total := one.total * n as real)
  {
  }

  lemma SameCountBilledAlike(rule: Rule, a: Request, b: Request, basePrice: real, age: real)
    requires a == b.(cityCount := a.cityCount) && CityCount(a) == CityCount(b)
    ensures Billed(rule, a, basePrice, age) == Billed(rule, b, basePrice, age)
  {
  }

  lemma SameCountSameBill(rule: Rule, a: Request, b: Request, year: Option<int>, now: int)
    requires a == b.(cityCount := a.cityCount) && CityCount(a) == CityCount(b)
    ensures Resolve(rule, a, year, now) == Resolve(rule, b, year, now)
  {
    var isSearch := a.flow == CASE_SEARCH;
    SameCountBilledAlike(rule, a, b, if isSearch then CaseSearchBase(year, now) else SeededBase(rule, a),
                         if isSearch then 0.0 else AgeSurcharge(a.status, year, now));
  }

  /** No count, or one below 1, bills one city. */
  lemma LowCountBillsOne(rule: Rule, req: Request, count: Option<int>, year: Option<int>, now: int)
    requires count.None? || count.value < 1
    ensures Resolve(rule, req.(cityCount := count), year, now) == Resolve(rule, req.(cityCount := Some(1)), year, now)
  {
    SameCountSameBill(rule, req.(cityCount := count), req.(cityCount := Some(1)), year, now);
  }

  /** Outside PKR Case Search no count changes anything. */
  lemma OtherFlowsBillOne(rule: Rule, req: Request, count: Option<int>, year: Option<int>, now: int)
    requires req.currency.USD? || req.flow != "judicial_case_search"
    ensures Resolve(rule, req.(cityCount := count), year, now) == Resolve(rule, req, year, now)
    ensures Resolve(rule, req, year, now).cityCount == Some(1)
  {
    if req.currency.PKR? { SameCountSameBill(rule, req.(cityCount := count), req, year, now); }
  }

  function Rs(c: bool, amount: real): real { if c then amount else 0.0 }

  /** A known year lies this many years back; a missing, zero or future one none. */
  function Age(year: Option<int>, now: int): int {
    if year.Some? && year.value != 0 && year.value < now then now - year.value else 0
  }

  /** One city of a Case Search: Rs 2,000 a year, at least 2,000, and Rs 1,000 each for a State case and for both searches. */
  lemma SearchBill(rule: Rule, req: Request, year: Option<int>, now: int)
    requires req.currency.PKR? && req.flow == "judicial_case_search" && req.cityCount == Some(1)
    ensures var q := Resolve(rule, req, year, now);
            && q.basePrice == (if Age(year, now) > 1 then Age(year, now) * 2000 else 2000) as real
            && q.title == Rs(req.stateVs, 1000.0) && q.searchBoth == Rs(req.searchBoth, 1000.0) && q.pdf == Rs(req.wantPdf, rule.pdf)
            && q.age == Some(0.0) && q.deliveryFee == q.deliveryCharge == 0.0
            && q.total == q.basePrice + q.title + q.searchBoth + q.pdf && q.serviceCost == q.total
  {
  }

  /** The flows with papers to deliver, which are paid in two parts. */
  predicate HasPapers(flow: string) {
    || flow == "judicial_case_files" || flow == "non_judicial_copy_of_fir"
    || flow == "non_judicial_criminal_record_search" || flow == "non_judicial_registry_deed"
  }

  /** Every other PKR order: the bundle's or the rule's base, Rs 1,000 a year beyond ten for a decided case, and its extras. */
  lemma OtherBill(rule: Rule, req: Request, year: Option<int>, now: int)
    requires req.currency.PKR? && req.flow != "judicial_case_search"
    ensures var q := Resolve(rule, req, year, now);
            var papers := HasPapers(req.flow);
            var late := if req.status == "Decided Case" && Age(year, now) > 10 then (Age(year, now) - 10) * 1000 else 0;
            && q.basePrice == (if req.bundleBase > 0.0 then req.bundleBase else rule.base)
            && q.title == Rs(req.stateVs, 1000.0) && q.age == Some(late as real) && q.pdf == Rs(req.wantPdf, rule.pdf)
            && q.searchBoth == 0.0 && q.deliveryFee == Rs(papers && req.delivered, rule.deliveryGuy)
            && q.deliveryCharge == q.deliveryFee + Rs(papers, rule.deliveryCharge)
            && q.serviceCost == q.basePrice + q.title + late as real + q.pdf && q.total == q.serviceCost + q.deliveryCharge
  {
  }

  /** A USD order bills the rule's price and nothing else. */
  lemma UsdBill(rule: Rule, req: Request, year: Option<int>, now: int)
    requires req.currency.USD?
    ensures var q := Resolve(rule, req, year, now);
            && q.total == q.serviceCost == q.basePrice == rule.base && q.age == Some(0.0)
            && q.title == q.searchBoth == q.pdf == q.deliveryFee == q.deliveryCharge == 0.0
  {
  }

  // ---- The checkout ----

  /** `picked` is the number of cities in the form, used when the quote has no count. */
  function Patch(raw: Answer, flow: string, currency: Currency, status: string, picked: nat,
                 year: Option<int>, now: int): Answer
  {
    if raw.NoQuote? || currency.USD? then raw
    else PatchQuote(raw, flow, status, picked, year, now)
  }

  function PatchQuote(raw: Answer, flow: string, status: string, picked: nat, year: Option<int>, now: int): Answer
    requires raw.Priced?
  {
    var q := raw.quote;
    if flow == CASE_SEARCH then
      var instant := CaseSearchBase(year, now);
      var delta := (instant - q.basePrice) * Cities(q, picked) as real;
      if instant == q.basePrice then raw
      else Priced(q.(basePrice := instant, serviceCost := q.serviceCost + delta, total := q.total + delta))
    else if flow == CASE_FILES && status == DECIDED then
      var instant := AgeSurcharge(status, year, now);
      var delta := instant - q.age.GetOr(0.0);
      if instant == q.age.GetOr(0.0) then raw
      else Priced(q.(age := Some(instant), serviceCost := q.serviceCost + delta, total := q.total + delta))
    else raw
  }

  function Cities(q: Quote, picked: nat): int {
    match q.cityCount
    case Some(n) => n
    case None => Max(1, picked)
  }

  /** The checkout for the request's own flow, currency and status. */
  function Checkout(q: Quote, req: Request, picked: nat, year: Option<int>, now: int): Quote {
    var r := Patch(Priced(q), req.flow, req.currency, req.status, picked, year, now);
    assert r.Priced?;
    r.quote
  }

  // ---- The patch is the server's answer for the new year ----

  predicate YearPriced(req: Request) {
    req.currency.PKR? && req.flow == CASE_SEARCH
  }

  /** Flows whose year-driven part the checkout knows how to patch. */
  predicate Patchable(req: Request) {
    req.flow == CASE_SEARCH || req.flow == CASE_FILES
  }

  lemma {:induction false} Distributes(a: real, b: real, rest: real, n: int)
    ensures (a + rest) * n as real + (b - a) * n as real == (b + rest) * n as real
  {
    var m := n as real;
    assert (a + rest) * m + (b - a) * m == ((a + rest) + (b - a)) * m;
  }

  /** The delta over the base price is what moving the base price bills. */
  lemma SearchDelta(rule: Rule, req: Request, a: real, b: real)
    requires req.flow == CASE_SEARCH
    ensures var q := Billed(rule, req, a, 0.0);
            var delta := (b - a) * CityCount(req) as real;
            Billed(rule, req, b, 0.0).(base := a)
            == q.(basePrice := b, serviceCost := q.serviceCost + delta, total := q.total + delta)
  {
    var q := Billed(rule, req, a, 0.0);
    Distributes(a, b, q.searchBoth + q.title + 0.0 + q.pdf + q.deliveryFee, CityCount(req));
  }

  lemma AgeDelta(rule: Rule, req: Request, basePrice: real, a: real, b: real)
    requires req.flow != CASE_SEARCH
    ensures var q := Billed(rule, req, basePrice, a);
            Billed(rule, req, basePrice, b)
            == q.(age := Some(b), serviceCost := q.serviceCost + (b - a), total := q.total + (b - a))
  {
  }

  lemma SearchPatched(rule: Rule, req: Request, picked: nat, a: real, year: Option<int>, now: int)
    requires YearPriced(req)
    ensures Checkout(Billed(rule, req, a, 0.0), req, picked, year, now)
            == Billed(rule, req, CaseSearchBase(year, now), 0.0).(base := a)
  {
    SearchDelta(rule, req, a, CaseSearchBase(year, now));
  }

  lemma FilesPatched(rule: Rule, req: Request, picked: nat, basePrice: real, y1: Option<int>, y2: Option<int>, now: int)
    requires req.currency.PKR? && req.flow == CASE_FILES
    ensures Checkout(Billed(rule, req, basePrice, AgeSurcharge(req.status, y1, now)), req, picked, y2, now)
            == Billed(rule, req, basePrice, AgeSurcharge(req.status, y2, now))
  {
    AgeDelta(rule, req, basePrice, AgeSurcharge(req.status, y1, now), AgeSurcharge(req.status, y2, now));
  }

  lemma PatchUnderOneRule(rule: Rule, req: Request, picked: nat, y1: Option<int>, y2: Option<int>, now: int)
    ensures var q1, q2 := Resolve(rule, req, y1, now), Resolve(rule, req, y2, now);
            Checkout(q1, req, picked, y2, now) == q2.(base := q1.base) <==> YearPartKnown(req, y1, y2, now)
  {
    if req.currency.PKR? {
      if req.flow == CASE_SEARCH {
        SearchPatched(rule, req, picked, CaseSearchBase(y1, now), y2, now);
      } else if req.flow == CASE_FILES {
        FilesPatched(rule, req, picked, SeededBase(rule, req), y1, y2, now);
      } else {
        var q1 := Resolve(rule, req, y1, now);
        assert Checkout(q1, req, picked, y2, now) == q1;
        assert q1.age == Some(AgeSurcharge(req.status, y1, now));
      }
    }
  }

  /** The checkout can follow the year: it patches this flow, or the year moves nothing. */
  predicate YearPartKnown(req: Request, y1: Option<int>, y2: Option<int>, now: int) {
    req.currency.USD? || Patchable(req) || AgeSurcharge(req.status, y1, now) == AgeSurcharge(req.status, y2, now)
  }

  /** Two rules bill this request alike, in every part the request asks for. */
  predicate BillAlike(a: Rule, b: Rule, req: Request) {
    if req.currency.USD? then a.base == b.base
    else
      && (req.flow != CASE_SEARCH ==> SeededBase(a, req) == SeededBase(b, req))
      && (req.wantPdf ==> a.pdf == b.pdf)
      && (Physical(req.flow) ==> a.deliveryCharge == b.deliveryCharge)
      && (Physical(req.flow) && req.delivered ==> a.deliveryGuy == b.deliveryGuy)
  }

  lemma AlikeResolve(a: Rule, b: Rule, req: Request, year: Option<int>, now: int)
    requires BillAlike(a, b, req)
    ensures Resolve(a, req, year, now) == Resolve(b, req, year, now)
  {
  }

  /** The lines that only the rule decides. */
  function RuleLines(q: Quote, req: Request): (real, real, real, real) {
    (if YearPriced(req) then 0.0 else q.basePrice, q.pdf, q.deliveryFee, q.deliveryCharge)
  }

  lemma PatchKeepsRuleLines(q: Quote, req: Request, picked: nat, year: Option<int>, now: int)
    ensures RuleLines(Checkout(q, req, picked, year, now), req) == RuleLines(q, req)
  {
  }

  lemma RuleLinesTellRulesApart(a: Rule, b: Rule, req: Request, y1: Option<int>, y2: Option<int>, now: int)
    ensures RuleLines(Resolve(a, req, y1, now), req) == RuleLines(Resolve(b, req, y2, now), req) <==> BillAlike(a, b, req)
  {
  }

  /**
   * Every amount the checkout shows or bills is the server's for the new year, for every city count,
   * exactly when the rules matched for the two years bill the request alike and the checkout can follow
   * the year. `base` alone is never patched.
   */
  lemma PatchIsResolve(r1: Rule, r2: Rule, req: Request, picked: nat, y1: Option<int>, y2: Option<int>, now: int)
    ensures var q1, q2 := Resolve(r1, req, y1, now), Resolve(r2, req, y2, now);
            Checkout(q1, req, picked, y2, now) == q2.(base := q1.base)
            <==> BillAlike(r1, r2, req) && YearPartKnown(req, y1, y2, now)
  {
    var q1, q2 := Resolve(r1, req, y1, now), Resolve(r2, req, y2, now);
    PatchKeepsRuleLines(q1, req, picked, y2, now);
    RuleLinesTellRulesApart(r1, r2, req, y1, y2, now);
    assert RuleLines(q2.(base := q1.base), req) == RuleLines(q2, req);
    if BillAlike(r1, r2, req) {
      AlikeResolve(r1, r2, req, y2, now);
      PatchUnderOneRule(r1, req, picked, y1, y2, now);
    }
  }

  /** The whole patched quote is the server's exactly when, besides, the year does not move a Case Search base. */
  lemma BaseIsStale(r1: Rule, r2: Rule, req: Request, picked: nat, y1: Option<int>, y2: Option<int>, now: int)
    ensures var q1, q2 := Resolve(r1, req, y1, now), Resolve(r2, req, y2, now);
            Checkout(q1, req, picked, y2, now) == q2
            <==> BillAlike(r1, r2, req) && YearPartKnown(req, y1, y2, now)
                 && !(YearPriced(req) && CaseSearchBase(y1, now) != CaseSearchBase(y2, now))
  {
    var q1, q2 := Resolve(r1, req, y1, now), Resolve(r2, req, y2, now);
    PatchIsResolve(r1, r2, req, picked, y1, y2, now);
    PatchKeepsBase(q1, req, picked, y2, now);
    BaseOf(r1, req, y1, now);
    BaseOf(r2, req, y2, now);
    assert q2.(base := q2.base) == q2;
  }

  lemma PatchKeepsBase(q: Quote, req: Request, picked: nat, year: Option<int>, now: int)
    ensures Checkout(q, req, picked, year, now).base == q.base
  {
  }

  lemma BaseOf(r: Rule, req: Request, year: Option<int>, now: int)
    ensures Resolve(r, req, year, now).base
            == if req.currency.USD? then r.base else if req.flow == CASE_SEARCH then CaseSearchBase(year, now) else SeededBase(r, req)
  {
  }

  /** A decided Case Information quote keeps the old year's surcharge until the server answers. */
  lemma UnpatchedFlow(rule: Rule, now: int)
    ensures var req := Request("judicial_case_information", PKR, DECIDED, None, 0.0, false, false, false, false);
            var q1, q2 := Resolve(rule, req, Some(now), now), Resolve(rule, req, Some(now - 12), now);
            now > 12 ==> Checkout(q1, req, 1, Some(now - 12), now).total + 2000.0 == q2.total
  {
  }

  /** Between two backward bands of Case Files the checkout misses exactly the difference of the banded bases. */
  lemma BandChangeIsMissed(r1: Rule, r2: Rule, picked: nat, y1: int, y2: int, now: int)
    requires 0 < y1 < now && 0 < y2 < now && r2 == r1.(base := r2.base)
    ensures var req := Request(CASE_FILES, PKR, DECIDED, None, 0.0, false, false, false, false);
            var q1, q2 := Resolve(r1, req, Some(y1), now), Resolve(r2, req, Some(y2), now);
            q2.total - Checkout(q1, req, picked, Some(y2), now).total == r2.base - r1.base
  {
    var req := Request(CASE_FILES, PKR, DECIDED, None, 0.0, false, false, false, false);
    FilesPatched(r1, req, picked, r1.base, Some(y1), Some(y2), now);
  }

  // ---- Typing more than one year ----

  lemma {:induction false} ScaledSteps(a: real, b: real, c: real, n: int)
    ensures (b - a) * n as real + (c - b) * n as real == (c - a) * n as real
  {
    var m := n as real;
    assert (b - a) * m + (c - b) * m == ((b - a) + (c - b)) * m;
  }

  /** Some years apart, the surcharge line first appeared and then went to zero. */
  predicate LeavesZeroLine(raw: Answer, flow: string, currency: Currency, status: string,
                           y1: Option<int>, y2: Option<int>, now: int)
  {
    && raw.Priced? && currency.PKR? && flow == CASE_FILES && raw.quote.age.None?
    && AgeSurcharge(status, y1, now) != 0.0 && AgeSurcharge(status, y2, now) == 0.0
  }

  lemma LastSearchYearWins(raw: Answer, currency: Currency, status: string, picked: nat,
                           y1: Option<int>, y2: Option<int>, now: int)
    ensures Patch(Patch(raw, CASE_SEARCH, currency, status, picked, y1, now), CASE_SEARCH, currency, status, picked, y2, now)
            == Patch(raw, CASE_SEARCH, currency, status, picked, y2, now)
  {
    if raw.Priced? && currency.PKR? {
      ScaledSteps(raw.quote.basePrice, CaseSearchBase(y1, now), CaseSearchBase(y2, now), Cities(raw.quote, picked));
    }
  }

  /**
   * Patching for one year and then another is patching for the last one alone, for every answer the
   * server may have sent; the one exception leaves an explicit zero where there was no surcharge.
   */
  lemma LastYearWins(raw: Answer, flow: string, currency: Currency, status: string, picked: nat,
                     y1: Option<int>, y2: Option<int>, now: int)
    ensures Patch(Patch(raw, flow, currency, status, picked, y1, now), flow, currency, status, picked, y2, now)
            == Patch(raw, flow, currency, status, picked, y2, now)
            <==> !LeavesZeroLine(raw, flow, currency, status, y1, y2, now)
  {
    if flow == CASE_SEARCH { LastSearchYearWins(raw, currency, status, picked, y1, y2, now); }
  }

  lemma PatchTwiceIsOnce(raw: Answer, flow: string, currency: Currency, status: string, picked: nat,
                         year: Option<int>, now: int)
    ensures Patch(Patch(raw, flow, currency, status, picked, year, now), flow, currency, status, picked, year, now)
            == Patch(raw, flow, currency, status, picked, year, now)
  {
    LastYearWins(raw, flow, currency, status, picked, year, year, now);
  }

  // ---- What no patch may break ----

  /** The lines add up to the billed total: per-city lines times the cities, plus the static delivery charge. */
  predicate LinesAddUp(q: Quote) {
    && q.cityCount.Some? && q.cityCount.value >= 1
    && (q.basePrice + (q.searchBoth + q.title + q.age.GetOr(0.0) + q.pdf + q.deliveryFee)) * q.cityCount.value as real
       + (q.deliveryCharge - q.deliveryFee) == q.total
  }

  lemma BilledLinesAddUp(rule: Rule, req: Request, basePrice: real, age: real)
    ensures var q := Billed(rule, req, basePrice, age);
            LinesAddUp(q) && (!Physical(req.flow) ==> q.serviceCost == q.total)
  {
    var q := Billed(rule, req, basePrice, age);
    assert q.deliveryCharge - q.deliveryFee == if Physical(req.flow) then rule.deliveryCharge else 0.0;
  }

  lemma ResolvedLinesAddUp(rule: Rule, req: Request, year: Option<int>, now: int)
    ensures LinesAddUp(Resolve(rule, req, year, now))
    ensures req.flow != CASE_SEARCH ==> Resolve(rule, req, year, now).cityCount == Some(1)
    ensures !Physical(req.flow) ==> Resolve(rule, req, year, now).serviceCost == Resolve(rule, req, year, now).total
  {
    if req.currency.PKR? {
      var q := Resolve(rule, req, year, now);
      BilledLinesAddUp(rule, req, q.basePrice, q.age.value);
    }
  }

  /** One patch keeps the lines adding up, and leaves the clerk's later part (total less intake) alone. */
  lemma PatchKeepsLines(q: Quote, req: Request, picked: nat, year: Option<int>, now: int)
    requires LinesAddUp(q) && (req.flow != CASE_SEARCH ==> q.cityCount == Some(1))
    ensures var p := Checkout(q, req, picked, year, now);
            LinesAddUp(p) && p.cityCount == q.cityCount && p.total - p.serviceCost == q.total - q.serviceCost
  {
    if YearPriced(req) {
      Distributes(q.basePrice, CaseSearchBase(year, now),
                  q.searchBoth + q.title + q.age.GetOr(0.0) + q.pdf + q.deliveryFee, q.cityCount.value);
    }
  }

  /** The checkout after each keystroke of a run of years, every one patched over the last. */
  function Typed(raw: Answer, req: Request, picked: nat, years: seq<Option<int>>, now: int): Answer {
    if years == [] then raw
    else Patch(Typed(raw, req, picked, years[..|years| - 1], now), req.flow, req.currency, req.status, picked,
               years[|years| - 1], now)
  }

  lemma {:induction false} OnlyLastYearCounts(raw: Answer, req: Request, picked: nat, years: seq<Option<int>>, now: int)
    requires years != [] && (raw.Priced? ==> raw.quote.age.Some?)
    ensures Typed(raw, req, picked, years, now)
            == Patch(raw, req.flow, req.currency, req.status, picked, years[|years| - 1], now)
  {
    var before, last := years[..|years| - 1], years[|years| - 1];
    if before == [] {
      assert Typed(raw, req, picked, before, now) == raw;
    } else {
      OnlyLastYearCounts(raw, req, picked, before, now);
      LastYearWins(raw, req.flow, req.currency, req.status, picked, before[|before| - 1], last, now);
    }
  }

  /** The same amounts, `base` aside. */
  predicate SameBill(a: Answer, b: Answer) {
    match a
    case NoQuote => b.NoQuote?
    case Priced(q) => b.Priced? && q == b.quote.(base := q.base)
  }

  /** The server has a rule for both years that bills alike, or for neither. */
  predicate SameMatch(a: Option<Rule>, b: Option<Rule>, req: Request) {
    match a
    case None => b.None?
    case Some(r) => b.Some? && BillAlike(r, b.value, req)
  }

  /**
   * After any run of years typed over a server answer, with no new answer in between and whatever rule
   * the server matches for each year, the checkout bills what the server would for the last year
   * exactly when it matches alike for the first and the last year and, if it quotes at all, the checkout
   * can follow the year.
   */
  lemma TypingFollowsTheServer(rules: Option<int> -> Option<Rule>, req: Request, picked: nat, y0: Option<int>,
                               years: seq<Option<int>>, now: int)
    requires years != []
    ensures var last := years[|years| - 1];
            SameBill(Typed(ServerAnswer(rules(y0), req, y0, now), req, picked, years, now), ServerAnswer(rules(last), req, last, now))
            <==> SameMatch(rules(y0), rules(last), req) && (rules(y0).Some? ==> YearPartKnown(req, y0, last, now))
  {
    var last := years[|years| - 1];
    var raw := ServerAnswer(rules(y0), req, y0, now);
    OnlyLastYearCounts(raw, req, picked, years, now);
    if rules(y0).Some? && rules(last).Some? {
      PatchIsResolve(rules(y0).value, rules(last).value, req, picked, y0, last, now);
      PatchKeepsBase(raw.quote, req, picked, last, now);
    }
  }

  /** And always: its lines add up, and the clerk's later part is the first answer's. */
  lemma TypingKeepsLines(rule: Rule, req: Request, picked: nat, y0: Option<int>, years: seq<Option<int>>, now: int)
    ensures var q, shown := Resolve(rule, req, y0, now), Typed(Priced(Resolve(rule, req, y0, now)), req, picked, years, now);
            shown.Priced? && LinesAddUp(shown.quote) && shown.quote.total - shown.quote.serviceCost == q.total - q.serviceCost
  {
    var q := Resolve(rule, req, y0, now);
    ResolvedLinesAddUp(rule, req, y0, now);
    if years != [] {
      OnlyLastYearCounts(Priced(q), req, picked, years, now);
      PatchKeepsLines(q, req, picked, years[|years| - 1], now);
    }
  }
}
