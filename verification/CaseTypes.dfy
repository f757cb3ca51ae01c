/**
 * The case-type seed: labels expanded by sub-court, cohorts printed as keys and read back, the
 * hardcoded snapshot for uncovered cohorts, and one "Other" row per cohort.
 */
module CaseTypes {
  import opened Base
  import opened Text
  import opened LastWriteWins

  /** A missing field and `null` are both None; the empty string is neither. */
  datatype Row = Row(courtLevel: string, subCourt: Option<string>, district: Option<string>, region: Option<string>,
                     highCourt: Option<string>, code: string, text: string, source: string, priority: Option<int>)

  const DSJ_SOURCE := "dsjlahore.punjab.gov.pk"

  // ---- Expansion by sub-court ----

  /** A Lower Court row of the district-court form without a sub-court (null or empty). */
  predicate Expandable(r: Row) {
    r.courtLevel == "Lower Court" && r.subCourt.GetOr("") == "" && r.source == DSJ_SOURCE
  }

  function Tagged(r: Row, subs: seq<string>): (rows: seq<Row>)
    ensures |rows| == |subs| && forall i :: 0 <= i < |subs| ==> rows[i] == r.(subCourt := Some(subs[i]))
  {
    if subs == [] then [] else Tagged(r, subs[..|subs| - 1]) + [r.(subCourt := Some(subs[|subs| - 1]))]
  }

  /** `infer` is `inferDsjSubCourts`. */
  function ExpandOne(infer: string -> seq<string>, r: Row): (rows: seq<Row>)
    ensures rows != []
  {
    if Expandable(r) && infer(r.text) != [] then Tagged(r, infer(r.text)) else [r]
  }

  function Expanded(infer: string -> seq<string>, rows: seq<Row>): seq<Row> {
    if rows == [] then []
    else Expanded(infer, rows[..|rows| - 1]) + ExpandOne(infer, rows[|rows| - 1])
  }

  /** `expandDsjBySubCourt`. */
  method ExpandDsjBySubCourt(infer: string -> seq<string>, rows: seq<Row>) returns (out: seq<Row>)
    ensures out == Expanded(infer, rows)
  {
    out := [];
    for i := 0 to |rows|
      invariant out == Expanded(infer, rows[..i])
    {
      assert rows[..i + 1][..i] == rows[..i];
      out := PushExpanded(infer, rows[i], out);
    }
    assert rows[..|rows|] == rows;
  }

  method PushExpanded(infer: string -> seq<string>, r: Row, before: seq<Row>) returns (out: seq<Row>)
    ensures out == before + ExpandOne(infer, r)
  {
    if !Expandable(r) { return before + [r]; }
    var subs := infer(r.text);
    if |subs| == 0 { return before + [r]; }
    out := before;
    for k := 0 to |subs|
      invariant out == before + Tagged(r, subs[..k])
    {
      assert subs[..k + 1][..k] == subs[..k];
      AppendAssociates(before, Tagged(r, subs[..k]), [r.(subCourt := Some(subs[k]))]);
      out := out + [r.(subCourt := Some(subs[k]))];
    }
    assert subs[..|subs|] == subs;
  }

  /** Which input row each output row came from. */
  function Origins(infer: string -> seq<string>, rows: seq<Row>): seq<nat> {
    if rows == [] then []
    else Origins(infer, rows[..|rows| - 1]) + Repeat(|rows| - 1, |ExpandOne(infer, rows[|rows| - 1])|)
  }

  function Repeat(x: nat, n: nat): (s: seq<nat>)
    ensures |s| == n && forall i :: 0 <= i < n ==> s[i] == x
  {
    if n == 0 then [] else Repeat(x, n - 1) + [x]
  }

  predicate SameButSubCourt(a: Row, b: Row) {
    a.(subCourt := None) == b.(subCourt := None)
  }

  predicate OnlySubCourtChanges(rows: seq<Row>, out: seq<Row>, from: seq<nat>) {
    |from| == |out| && forall i :: 0 <= i < |out| ==> from[i] < |rows| && SameButSubCourt(out[i], rows[from[i]])
  }

  predicate InOrder(from: seq<nat>) {
    forall i, j :: 0 <= i < j < |from| ==> from[i] <= from[j]
  }

  lemma OneKeepsRow(infer: string -> seq<string>, r: Row)
    ensures forall i :: 0 <= i < |ExpandOne(infer, r)| ==> SameButSubCourt(ExpandOne(infer, r)[i], r)
  {
  }

  lemma {:induction false} OriginsBelow(infer: string -> seq<string>, rows: seq<Row>)
    ensures forall k: nat :: k in Origins(infer, rows) <==> k < |rows|
    ensures InOrder(Origins(infer, rows))
  {
    if rows != [] {
      var n := |rows| - 1;
      var front := Origins(infer, rows[..n]);
      OriginsBelow(infer, rows[..n]);
      RepeatAfter(front, n, |ExpandOne(infer, rows[n])|);
    }
  }

  lemma RepeatAfter(front: seq<nat>, n: nat, copies: nat)
    requires InOrder(front) && copies > 0 && forall k: nat :: k in front <==> k < n
    ensures InOrder(front + Repeat(n, copies))
    ensures forall k: nat :: k in front + Repeat(n, copies) <==> k < n + 1
  {
    var last := Repeat(n, copies);
    assert last[0] == n && forall k :: k in last <==> k == n;
    assert forall i :: 0 <= i < |front| ==> front[i] in front;
  }

  lemma OneMore(rows: seq<Row>, out: seq<Row>, from: seq<nat>, more: seq<Row>)
    requires rows != [] && OnlySubCourtChanges(rows[..|rows| - 1], out, from)
    requires forall i :: 0 <= i < |more| ==> SameButSubCourt(more[i], rows[|rows| - 1])
    ensures OnlySubCourtChanges(rows, out + more, from + Repeat(|rows| - 1, |more|))
  {
    var n := |rows| - 1;
    var all, origins := out + more, from + Repeat(n, |more|);
    forall i | 0 <= i < |all| ensures origins[i] < |rows| && SameButSubCourt(all[i], rows[origins[i]]) {
      if i < |out| {
        assert origins[i] == from[i] && rows[..n][from[i]] == rows[from[i]];
      } else {
        assert origins[i] == n && all[i] == more[i - |out|];
      }
    }
  }

  lemma {:induction false} OriginsMatch(infer: string -> seq<string>, rows: seq<Row>)
    ensures OnlySubCourtChanges(rows, Expanded(infer, rows), Origins(infer, rows))
  {
    if rows != [] {
      var n := |rows| - 1;
      OriginsMatch(infer, rows[..n]);
      OneKeepsRow(infer, rows[n]);
      OneMore(rows, Expanded(infer, rows[..n]), Origins(infer, rows[..n]), ExpandOne(infer, rows[n]));
    }
  }

  /** Order is kept, only `subCourt` changes, and every row is still there. */
  lemma ExpansionKeepsRows(infer: string -> seq<string>, rows: seq<Row>)
    ensures OnlySubCourtChanges(rows, Expanded(infer, rows), Origins(infer, rows))
    ensures InOrder(Origins(infer, rows)) && forall k: nat :: k in Origins(infer, rows) <==> k < |rows|
  {
    OriginsMatch(infer, rows);
    OriginsBelow(infer, rows);
  }

  /** How many rows one row becomes. */
  function Copies(infer: string -> seq<string>, r: Row): nat {
    if Expandable(r) && |infer(r.text)| > 1 then |infer(r.text)| else 1
  }

  function TotalCopies(infer: string -> seq<string>, rows: seq<Row>): nat {
    if rows == [] then 0 else TotalCopies(infer, rows[..|rows| - 1]) + Copies(infer, rows[|rows| - 1])
  }

  lemma {:induction false} ExpansionLength(infer: string -> seq<string>, rows: seq<Row>)
    ensures |Expanded(infer, rows)| == TotalCopies(infer, rows)
  {
    if rows != [] { ExpansionLength(infer, rows[..|rows| - 1]); }
  }

  lemma {:induction false} ExpandedConcat(infer: string -> seq<string>, a: seq<Row>, b: seq<Row>)
    ensures Expanded(infer, a + b) == Expanded(infer, a) + Expanded(infer, b)
  {
    if b == [] {
      assert a + b == a;
    } else {
      var n := |b| - 1;
      assert (a + b)[..|a + b| - 1] == a + b[..n];
      ExpandedConcat(infer, a, b[..n]);
      AppendAssociates(Expanded(infer, a), Expanded(infer, b[..n]), ExpandOne(infer, b[n]));
    }
  }

  /** Expanding again would tag a row twice only if a label is given an empty sub-court beside others. */
  predicate TagsStick(infer: string -> seq<string>, r: Row) {
    Expandable(r) ==> "" !in infer(r.text) || |infer(r.text)| == 1
  }

  lemma {:induction false} TaggedStay(infer: string -> seq<string>, r: Row, subs: seq<string>)
    requires "" !in subs
    ensures Expanded(infer, Tagged(r, subs)) == Tagged(r, subs)
  {
    if subs != [] {
      var front, last := subs[..|subs| - 1], subs[|subs| - 1];
      assert last in subs && last != "";
      TaggedStay(infer, r, front);
      assert Tagged(r, subs)[..|front|] == Tagged(r, front);
    }
  }

  lemma {:induction false} CopiesAtLeastOne(infer: string -> seq<string>, rows: seq<Row>)
    ensures TotalCopies(infer, rows) >= |rows|
    ensures forall r :: r in rows && Copies(infer, r) > 1 ==> TotalCopies(infer, rows) > |rows|
  {
    if rows != [] {
      CopiesAtLeastOne(infer, rows[..|rows| - 1]);
      assert rows == rows[..|rows| - 1] + [rows[|rows| - 1]];
    }
  }

  lemma ExpandOneTwice(infer: string -> seq<string>, r: Row)
    ensures |Expanded(infer, ExpandOne(infer, r))| >= |ExpandOne(infer, r)|
    ensures TagsStick(infer, r) ==> Expanded(infer, ExpandOne(infer, r)) == ExpandOne(infer, r)
    ensures !TagsStick(infer, r) ==> |Expanded(infer, ExpandOne(infer, r))| > |ExpandOne(infer, r)|
  {
    var out := ExpandOne(infer, r);
    ExpansionLength(infer, out);
    CopiesAtLeastOne(infer, out);
    var subs := infer(r.text);
    if Expandable(r) && subs != [] {
      if "" !in subs {
        TaggedStay(infer, r, subs);
      } else {
        var i :| 0 <= i < |subs| && subs[i] == "";
        assert out[i] in out && Copies(infer, out[i]) == Copies(infer, r);
        if |subs| == 1 { assert Expanded(infer, out[..0]) == []; }
      }
    } else {
      assert out[..0] == [];
    }
  }

  lemma {:induction false} ExpandGrows(infer: string -> seq<string>, rows: seq<Row>)
    ensures var once := Expanded(infer, rows);
            var twice := Expanded(infer, once);
            && |twice| >= |once|
            && (if forall r :: r in rows ==> TagsStick(infer, r) then twice == once else |twice| > |once|)
  {
    if rows != [] {
      var n := |rows| - 1;
      var front, last := Expanded(infer, rows[..n]), ExpandOne(infer, rows[n]);
      ExpandGrows(infer, rows[..n]);
      ExpandOneTwice(infer, rows[n]);
      ExpandedConcat(infer, front, last);
      AllStick(infer, rows);
    }
  }

  lemma AllStick(infer: string -> seq<string>, rows: seq<Row>)
    requires rows != []
    ensures (forall r :: r in rows ==> TagsStick(infer, r))
            <==> (forall r :: r in rows[..|rows| - 1] ==> TagsStick(infer, r)) && TagsStick(infer, rows[|rows| - 1])
  {
    assert rows == rows[..|rows| - 1] + [rows[|rows| - 1]];
  }

  /** Expanding twice is expanding once, exactly when no label is given an empty sub-court beside others. */
  lemma ExpansionIsIdempotent(infer: string -> seq<string>, rows: seq<Row>)
    ensures Expanded(infer, Expanded(infer, rows)) == Expanded(infer, rows) <==> forall r :: r in rows ==> TagsStick(infer, r)
  {
    ExpandGrows(infer, rows);
  }

  // ---- Cohorts ----

  /** Null and empty fields are one cohort. */
  datatype Cohort = Cohort(courtLevel: string, subCourt: string, region: string, highCourt: string)

  function CohortOf(r: Row): Cohort {
    Cohort(r.courtLevel, r.subCourt.GetOr(""), r.region.GetOr(""), r.highCourt.GetOr(""))
  }

  function Fields(c: Cohort): seq<string> {
    [c.courtLevel, c.subCourt, c.region, c.highCourt]
  }

  predicate PipeFree(c: Cohort) {
    Free(c.courtLevel, '|') && Free(c.subCourt, '|') && Free(c.region, '|') && Free(c.highCourt, '|')
  }

  function KeyOf(r: Row): string {
    Join(Fields(CohortOf(r)), '|')
  }

  function NonEmpty(s: string): Option<string> {
    if s == "" then None else Some(s)
  }

  function Part(parts: seq<string>, i: nat): string {
    if i < |parts| then parts[i] else ""
  }

  /** The "Other" row of a key, split back into its fields. */
  function OtherRow(key: string): Row {
    var parts := Split(key, '|');
    Row(Part(parts, 0), NonEmpty(Part(parts, 1)), None, NonEmpty(Part(parts, 2)), NonEmpty(Part(parts, 3)),
        "OTHER", "Other", "manual", Some(-1))
  }

  lemma FieldsFree(c: Cohort)
    ensures PipeFree(c) <==> forall p :: p in Fields(c) ==> Free(p, '|')
  {
    assert c.courtLevel in Fields(c) && c.subCourt in Fields(c) && c.region in Fields(c) && c.highCourt in Fields(c);
  }

  lemma ReadBackIsFree(key: string)
    ensures PipeFree(CohortOf(OtherRow(key)))
  {
    var parts := Split(key, '|');
    SplitPartsAreFree(key, '|');
    assert forall i: nat :: i < |parts| ==> parts[i] in parts;
    assert forall i: nat :: Free(Part(parts, i), '|');
  }

  /** Printing a cohort and splitting the key gives the cohort back exactly when no field holds a `|`. */
  lemma KeyRoundTrip(r: Row)
    ensures CohortOf(OtherRow(KeyOf(r))) == CohortOf(r) <==> PipeFree(CohortOf(r))
  {
    var c := CohortOf(r);
    FieldsFree(c);
    SplitJoin(Fields(c), '|');
    ReadBackIsFree(KeyOf(r));
    if PipeFree(c) { assert Split(KeyOf(r), '|') == Fields(c); }
  }

  /** A cohort without a `|` shares its key with no other cohort at all. */
  lemma KeyIsCohort(r: Row, s: Row)
    requires PipeFree(CohortOf(r))
    ensures KeyOf(r) == KeyOf(s) <==> CohortOf(r) == CohortOf(s)
  {
    FieldsFree(CohortOf(r));
    if KeyOf(r) == KeyOf(s) {
      FreeKeyIsItsOwn(Fields(CohortOf(r)), Fields(CohortOf(s)), '|');
    }
  }

  // ---- The seed's row lists ----

  datatype Source = Source(rows: seq<Row>, minRows: nat)

  predicate TooShort(s: Source) { s.minRows > 0 && |s.rows| < s.minRows }

  function AllRows(sources: seq<Source>): seq<Row> {
    if sources == [] then [] else AllRows(sources[..|sources| - 1]) + sources[|sources| - 1].rows
  }

  /** How many rows stand before source `j`. */
  function RowsBefore(sources: seq<Source>, j: nat): nat
    requires j <= |sources|
  {
    if j == 0 then 0 else RowsBefore(sources, j - 1) + |sources[j - 1].rows|
  }

  lemma {:induction false} RowsBeforePrefix(a: seq<Source>, b: seq<Source>, j: nat)
    requires j <= |a| <= |b| && a == b[..|a|]
    ensures RowsBefore(a, j) == RowsBefore(b, j)
  {
    if j > 0 { RowsBeforePrefix(a, b, j - 1); }
  }

  /** Row `k` of source `j` stands after all rows of the sources before it, and no other row is there. */
  lemma {:induction false} AllRowsAt(sources: seq<Source>, j: nat, k: nat)
    ensures |AllRows(sources)| == RowsBefore(sources, |sources|)
    ensures j < |sources| && k < |sources[j].rows| ==>
              RowsBefore(sources, j) + k < |AllRows(sources)|
              && AllRows(sources)[RowsBefore(sources, j) + k] == sources[j].rows[k]
  {
    if sources != [] {
      var n := |sources| - 1;
      var front := sources[..n];
      AllRowsAt(front, j, k);
      RowsBeforePrefix(front, sources, n);
      if j < n { RowsBeforePrefix(front, sources, j); }
    }
  }

  /** None is the refusal to seed from a truncated or missing file. */
  method LoadSources(sources: seq<Source>) returns (rows: Option<seq<Row>>)
    ensures rows.None? <==> exists s :: s in sources && |s.rows| < s.minRows
    ensures rows.Some? ==> rows.value == AllRows(sources)
  {
    var raw: seq<Row> := [];
    for i := 0 to |sources|
      invariant raw == AllRows(sources[..i]) && forall s :: s in sources[..i] ==> !TooShort(s)
    {
      assert sources[..i + 1] == sources[..i] + [sources[i]];
      if TooShort(sources[i]) { return None; }
      raw := raw + sources[i].rows;
    }
    assert sources[..|sources|] == sources;
    return Some(raw);
  }

  /** The cohort keys of some rows, in the order a `Set` iterates. */
  method CohortKeys(rows: seq<Row>) returns (order: seq<string>, keys: set<string>)
    ensures order == KeyOrder(rows, KeyOf) && keys == Elements(order)
  {
    order, keys := [], {};
    for i := 0 to |rows|
      invariant order == KeyOrder(rows[..i], KeyOf) && keys == Elements(order)
    {
      var k := KeyOf(rows[i]);
      assert rows[..i + 1][..i] == rows[..i];
      if k !in keys {
        order := order + [k];
        keys := keys + {k};
      }
    }
    assert rows[..|rows|] == rows;
  }

  /** The snapshot rows whose cohort no scraper covers. */
  function Uncovered(hardcoded: seq<Row>, covered: set<string>): (rows: seq<Row>)
    ensures forall r :: r in rows <==> r in hardcoded && KeyOf(r) !in covered
  {
    if hardcoded == [] then []
    else (if KeyOf(hardcoded[0]) in covered then [] else [hardcoded[0]]) + Uncovered(hardcoded[1..], covered)
  }

  function OtherRows(order: seq<string>): (rows: seq<Row>)
    ensures |rows| == |order| && forall i :: 0 <= i < |order| ==> rows[i] == OtherRow(order[i])
  {
    if order == [] then [] else OtherRows(order[..|order| - 1]) + [OtherRow(order[|order| - 1])]
  }

  method PushOthers(order: seq<string>) returns (others: seq<Row>)
    ensures others == OtherRows(order)
  {
    others := [];
    for i := 0 to |order|
      invariant others == OtherRows(order[..i])
    {
      assert order[..i + 1][..i] == order[..i];
      others := others + [OtherRow(order[i])];
    }
    assert order[..|order|] == order;
  }

  // ---- The transaction ----

  /** Two rows the unique constraint refuses: equal in all six columns, and NULL equals nothing. */
  predicate Clash(a: Row, b: Row) {
    && (a.courtLevel, a.subCourt, a.district, a.region, a.highCourt, a.code)
       == (b.courtLevel, b.subCourt, b.district, b.region, b.highCourt, b.code)
    && a.subCourt.Some? && a.district.Some? && a.region.Some? && a.highCourt.Some?
  }

  function Stored(r: Row): Row {
    r.(priority := Some(r.priority.GetOr(0)))
  }

  predicate ClashesWith(rows: seq<Row>, r: Row) {
    exists i :: 0 <= i < |rows| && Clash(rows[i], r)
  }

  /** `createMany` with `skipDuplicates` into an empty table. */
  function Inserted(rows: seq<Row>): seq<Row> {
    if rows == [] then []
    else
      var front, last := Inserted(rows[..|rows| - 1]), Stored(rows[|rows| - 1]);
      if ClashesWith(front, last) then front else front + [last]
  }

  function Hardcoded(snapshot: seq<Row>): (rows: seq<Row>)
    ensures |rows| == |snapshot|
    ensures forall i :: 0 <= i < |rows| ==> rows[i] == snapshot[i].(source := "hardcoded_fallback")
  {
    if snapshot == [] then []
    else Hardcoded(snapshot[..|snapshot| - 1]) + [snapshot[|snapshot| - 1].(source := "hardcoded_fallback")]
  }

  function Covered(rows: seq<Row>): set<string> {
    Elements(KeyOrder(rows, KeyOf))
  }

  /** Scraped rows, then the snapshot rows of the cohorts they leave uncovered. */
  function Represented(scraped: seq<Row>, hardcoded: seq<Row>): seq<Row> {
    scraped + Uncovered(hardcoded, Covered(scraped))
  }

  function Others(rows: seq<Row>): seq<Row> {
    OtherRows(KeyOrder(rows, KeyOf))
  }

  function FinalRows(infer: string -> seq<string>, sources: seq<Source>, snapshot: seq<Row>): seq<Row> {
    var rows := Represented(Expanded(infer, AllRows(sources)), Hardcoded(snapshot));
    rows + Others(rows)
  }

  class CaseTypeTable {
    var rows: seq<Row>
  }

  /** `main`; a lost connection rolls the delete back. */
  method SeedCaseTypes(infer: string -> seq<string>, sources: seq<Source>, snapshot: seq<Row>, connected: bool,
                       table: CaseTypeTable) returns (ok: bool)
    modifies table
    ensures ok <==> connected && forall s :: s in sources ==> |s.rows| >= s.minRows
    ensures table.rows == if ok then Inserted(FinalRows(infer, sources, snapshot)) else old(table.rows)
  {
    var raw := LoadSources(sources);
    if raw.None? { return false; }
    var scraped := ExpandDsjBySubCourt(infer, raw.value);
    var hardcoded := Hardcoded(snapshot);
    var scrapedOrder, scrapedCohorts := CohortKeys(scraped);
    var fallbacks := Uncovered(hardcoded, scrapedCohorts);
    var allRows := scraped + fallbacks;
    var order, cohorts := CohortKeys(allRows);
    var otherRows := PushOthers(order);
    var before := table.rows;
    table.rows := [];
    if connected { table.rows := Inserted(allRows + otherRows); } else { table.rows := before; }
    ok := connected;
  }

  // ---- What is seeded ----

  predicate HasCohort(rows: seq<Row>, c: Cohort) {
    exists r :: r in rows && CohortOf(r) == c
  }

  predicate AllPipeFree(rows: seq<Row>) {
    forall r :: r in rows ==> PipeFree(CohortOf(r))
  }

  /** Some row prints the cohort's key; a `|` can make that a row of another cohort. */
  predicate Printed(rows: seq<Row>, r: Row) {
    exists s :: s in rows && KeyOf(s) == KeyOf(r)
  }

  lemma KeyCovered(rows: seq<Row>, r: Row)
    ensures KeyOf(r) in Covered(rows) <==> Printed(rows, r)
    ensures PipeFree(CohortOf(r)) ==> (Printed(rows, r) <==> HasCohort(rows, CohortOf(r)))
    ensures HasCohort(rows, CohortOf(r)) ==> Printed(rows, r)
  {
    var k := KeyOf(r);
    assert k in Covered(rows) <==> Has(rows, KeyOf, k);
    if Has(rows, KeyOf, k) {
      var i :| 0 <= i < |rows| && KeyOf(rows[i]) == k;
      assert rows[i] in rows;
    }
    if s :| s in rows && KeyOf(s) == k {
      var i :| 0 <= i < |rows| && rows[i] == s;
      assert Has(rows, KeyOf, k);
      if PipeFree(CohortOf(r)) { KeyIsCohort(r, s); }
    }
    if HasCohort(rows, CohortOf(r)) {
      var s :| s in rows && CohortOf(s) == CohortOf(r);
      assert KeyOf(s) == k;
    }
  }

  /**
   * A snapshot row is kept exactly when no scraped row prints its key; without a `|` in its cohort
   * that is when no scraped row shares the cohort, whatever the other rows hold.
   */
  lemma FallbacksAreUncovered(scraped: seq<Row>, hardcoded: seq<Row>, r: Row)
    ensures r in Uncovered(hardcoded, Covered(scraped)) <==> r in hardcoded && !Printed(scraped, r)
    ensures PipeFree(CohortOf(r)) ==>
              (r in Uncovered(hardcoded, Covered(scraped)) <==> r in hardcoded && !HasCohort(scraped, CohortOf(r)))
  {
    KeyCovered(scraped, r);
  }

  /**
   * A represented cohort is a scraped or a hardcoded one, and one of these is represented unless a `|`
   * lets a scraped row of another cohort print its key.
   */
  lemma CohortsAreTheUnion(scraped: seq<Row>, hardcoded: seq<Row>, c: Cohort)
    ensures HasCohort(Represented(scraped, hardcoded), c)
            <==> HasCohort(scraped, c) || exists r :: r in hardcoded && CohortOf(r) == c && !Printed(scraped, r)
    ensures PipeFree(c) ==>
              (HasCohort(Represented(scraped, hardcoded), c) <==> HasCohort(scraped, c) || HasCohort(hardcoded, c))
  {
    var kept := Uncovered(hardcoded, Covered(scraped));
    forall r ensures r in kept <==> r in hardcoded && !Printed(scraped, r) { FallbacksAreUncovered(scraped, hardcoded, r); }
    if HasCohort(scraped, c) {
      var r :| r in scraped && CohortOf(r) == c;
      assert r in scraped + kept;
    } else if HasCohort(hardcoded, c) {
      forall r | r in hardcoded && CohortOf(r) == c ensures PipeFree(c) ==> !Printed(scraped, r) { KeyCovered(scraped, r); }
      if r :| r in hardcoded && CohortOf(r) == c && !Printed(scraped, r) { assert r in scraped + kept; }
    }
  }

  /**
   * A represented cohort has a generated "Other" row exactly when no field holds a `|`. When none does
   * anywhere, each cohort has exactly one and no other cohort has any.
   */
  lemma OneOtherPerCohort(rows: seq<Row>)
    ensures forall r :: r in rows ==> (HasCohort(Others(rows), CohortOf(r)) <==> PipeFree(CohortOf(r)))
    ensures AllPipeFree(rows) ==>
              && (forall i :: 0 <= i < |Others(rows)| ==> HasCohort(rows, CohortOf(Others(rows)[i])))
              && (forall i, j :: 0 <= i < j < |Others(rows)| ==> CohortOf(Others(rows)[i]) != CohortOf(Others(rows)[j]))
  {
    forall r | r in rows ensures HasCohort(Others(rows), CohortOf(r)) <==> PipeFree(CohortOf(r)) { OtherExactly(rows, r); }
    if AllPipeFree(rows) { OthersAreCohorts(rows); }
  }

  /** A generated row: no district, code and label "Other", priority -1, and null for an empty field. */
  lemma OthersAreBlank(rows: seq<Row>)
    ensures forall o :: o in Others(rows) ==>
              && o.district.None? && o.code == "OTHER" && o.text == "Other" && o.source == "manual" && o.priority == Some(-1)
              && o.subCourt != Some("") && o.region != Some("") && o.highCourt != Some("")
  {
    forall o | o in Others(rows) ensures o.code == "OTHER" && o.district.None? {
      var i :| 0 <= i < |Others(rows)| && Others(rows)[i] == o;
    }
  }

  lemma OtherExactly(rows: seq<Row>, r: Row)
    requires r in rows
    ensures HasCohort(Others(rows), CohortOf(r)) <==> PipeFree(CohortOf(r))
  {
    var order, others := KeyOrder(rows, KeyOf), Others(rows);
    if PipeFree(CohortOf(r)) {
      var p :| 0 <= p < |rows| && rows[p] == r;
      assert Has(rows, KeyOf, KeyOf(r)) && KeyOf(r) in order;
      var i :| 0 <= i < |order| && order[i] == KeyOf(r);
      KeyRoundTrip(r);
      assert others[i] in others;
    } else if HasCohort(others, CohortOf(r)) {
      var o :| o in others && CohortOf(o) == CohortOf(r);
      var i :| 0 <= i < |others| && others[i] == o;
      ReadBackIsFree(order[i]);
      assert false;
    }
  }

  lemma OthersAreCohorts(rows: seq<Row>)
    requires AllPipeFree(rows)
    ensures forall i :: 0 <= i < |Others(rows)| ==> HasCohort(rows, CohortOf(Others(rows)[i]))
    ensures forall i, j :: 0 <= i < j < |Others(rows)| ==> CohortOf(Others(rows)[i]) != CohortOf(Others(rows)[j])
  {
    var order, others := KeyOrder(rows, KeyOf), Others(rows);
    forall i | 0 <= i < |order| ensures exists r :: r in rows && KeyOf(r) == order[i] && CohortOf(others[i]) == CohortOf(r) {
      var r := RowOfKey(rows, order[i]);
      KeyRoundTrip(r);
    }
    forall i, j | 0 <= i < j < |order| ensures CohortOf(others[i]) != CohortOf(others[j]) {
      var r :| r in rows && KeyOf(r) == order[i] && CohortOf(others[i]) == CohortOf(r);
      var s :| s in rows && KeyOf(s) == order[j] && CohortOf(others[j]) == CohortOf(s);
      assert order[i] != order[j];
    }
  }

  lemma RowOfKey(rows: seq<Row>, k: string) returns (r: Row)
    requires k in KeyOrder(rows, KeyOf)
    ensures r in rows && KeyOf(r) == k
  {
    assert Has(rows, KeyOf, k);
    var i :| 0 <= i < |rows| && KeyOf(rows[i]) == k;
    r := rows[i];
  }

  /** Skipping duplicates loses no cohort, and never a row without a district, so never an "Other" row. */
  lemma {:induction false} SkippingLosesNothing(rows: seq<Row>)
    ensures forall r :: r in rows ==> HasCohort(Inserted(rows), CohortOf(r))
    ensures forall r :: r in rows && r.district.None? ==> Stored(r) in Inserted(rows)
    ensures forall r :: r in Inserted(rows) ==> exists s :: s in rows && r == Stored(s)
  {
    if rows != [] {
      var n := |rows| - 1;
      var front, last := Inserted(rows[..n]), Stored(rows[n]);
      SkippingLosesNothing(rows[..n]);
      assert rows == rows[..n] + [rows[n]];
      forall c | HasCohort(front, c) ensures HasCohort(Inserted(rows), c) {
        var r :| r in front && CohortOf(r) == c;
        assert r in Inserted(rows);
      }
      if ClashesWith(front, last) {
        var i :| 0 <= i < |front| && Clash(front[i], last);
        assert front[i] in front && CohortOf(front[i]) == CohortOf(rows[n]);
      } else {
        assert last in Inserted(rows) && CohortOf(last) == CohortOf(rows[n]);
      }
    }
  }

  /** Equal in the six columns of the unique constraint, all of them filled. */
  predicate SameSix(a: Row, b: Row) {
    && a.courtLevel == b.courtLevel && a.code == b.code
    && a.subCourt.Some? && a.subCourt == b.subCourt && a.district.Some? && a.district == b.district
    && a.region.Some? && a.region == b.region && a.highCourt.Some? && a.highCourt == b.highCourt
  }

  /** The row is in the table, its missing priority taken as 0, or one equal in all six columns is. */
  predicate IsKept(table: seq<Row>, r: Row) {
    || r.(priority := Some(if r.priority.Some? then r.priority.value else 0)) in table
    || exists x :: x in table && SameSix(x, r)
  }

  /** Inserting keeps every row but those equal in six filled columns to a kept one, and adds none. */
  lemma {:induction false} InsertedExactly(rows: seq<Row>)
    ensures forall r :: r in rows ==> IsKept(Inserted(rows), r)
    ensures forall x :: x in Inserted(rows) ==>
              exists r :: r in rows && x == r.(priority := Some(if r.priority.Some? then r.priority.value else 0))
    ensures forall i, j :: 0 <= i < j < |Inserted(rows)| ==> !SameSix(Inserted(rows)[i], Inserted(rows)[j])
  {
    if rows != [] {
      var n := |rows| - 1;
      var front, last := Inserted(rows[..n]), Stored(rows[n]);
      InsertedExactly(rows[..n]);
      assert rows == rows[..n] + [rows[n]];
      forall r | r in rows ensures IsKept(Inserted(rows), r) { KeptByOneMore(front, Inserted(rows), rows[n], r); }
    }
  }

  lemma KeptByOneMore(front: seq<Row>, table: seq<Row>, last: Row, r: Row)
    requires IsKept(front, r) || r == last
    requires table == if ClashesWith(front, Stored(last)) then front else front + [Stored(last)]
    ensures IsKept(table, r)
  {
    if r == last && ClashesWith(front, Stored(last)) {
      var i :| 0 <= i < |front| && Clash(front[i], Stored(last));
      assert front[i] in table && SameSix(front[i], r);
    } else if r == last {
      assert Stored(last) in table;
    } else if x :| x in front && SameSix(x, r) {
      assert x in table;
    }
  }

  /** A Lower Court row of the district courts' list without a sub-court stands for one row per inferred sub-court. */
  predicate StandsFor(infer: string -> seq<string>, r: Row, x: Row) {
    if r.courtLevel == "Lower Court" && (r.subCourt == None || r.subCourt == Some(""))
       && r.source == "dsjlahore.punjab.gov.pk" && infer(r.text) != []
    then exists sub :: sub in infer(r.text) && x == r.(subCourt := Some(sub))
    else x == r
  }

  /** The expanded rows are exactly those the given ones stand for. */
  lemma {:induction false} ExpandedExactly(infer: string -> seq<string>, rows: seq<Row>, x: Row)
    ensures x in Expanded(infer, rows) <==> SomeStandsFor(infer, rows, x)
  {
    if rows != [] {
      ExpandedExactly(infer, rows[..|rows| - 1], x);
      OneStandsFor(infer, rows[|rows| - 1], x);
      StandsForStep(infer, rows, x);
    }
  }

  predicate SomeStandsFor(infer: string -> seq<string>, rows: seq<Row>, x: Row) {
    exists r :: r in rows && StandsFor(infer, r, x)
  }

  lemma StandsForStep(infer: string -> seq<string>, rows: seq<Row>, x: Row)
    requires rows != []
    ensures SomeStandsFor(infer, rows, x)
            <==> SomeStandsFor(infer, rows[..|rows| - 1], x) || StandsFor(infer, rows[|rows| - 1], x)
  {
    assert rows == rows[..|rows| - 1] + [rows[|rows| - 1]];
  }

  lemma OneStandsFor(infer: string -> seq<string>, r: Row, x: Row)
    ensures x in ExpandOne(infer, r) <==> StandsFor(infer, r, x)
  {
    var subs := infer(r.text);
    if sub :| sub in subs && x == r.(subCourt := Some(sub)) {
      var i :| 0 <= i < |subs| && subs[i] == sub;
      if Expandable(r) { assert ExpandOne(infer, r)[i] == x; }
    }
    if x in ExpandOne(infer, r) && Expandable(r) && subs != [] {
      var i :| 0 <= i < |ExpandOne(infer, r)| && ExpandOne(infer, r)[i] == x;
      assert subs[i] in subs;
    }
  }

  /** Some row of some source stands for `x`. */
  predicate Scraped(infer: string -> seq<string>, sources: seq<Source>, x: Row) {
    exists s :: s in sources && exists r :: r in s.rows && StandsFor(infer, r, x)
  }

  lemma {:induction false} AllRowsExactly(sources: seq<Source>, r: Row)
    ensures r in AllRows(sources) <==> exists s :: s in sources && r in s.rows
  {
    if sources != [] {
      var n := |sources| - 1;
      AllRowsExactly(sources[..n], r);
      assert sources == sources[..n] + [sources[n]];
    }
  }

  lemma ScrapedExactly(infer: string -> seq<string>, sources: seq<Source>, x: Row)
    ensures x in Expanded(infer, AllRows(sources)) <==> Scraped(infer, sources, x)
  {
    ExpandedExactly(infer, AllRows(sources), x);
    if r :| r in AllRows(sources) && StandsFor(infer, r, x) { AllRowsExactly(sources, r); }
    if s :| s in sources && exists r :: r in s.rows && StandsFor(infer, r, x) {
      var r :| r in s.rows && StandsFor(infer, r, x);
      AllRowsExactly(sources, r);
    }
  }

  /** Equal in the four fields of a cohort, null and empty alike. */
  predicate SameCohort(a: Row, b: Row) {
    && a.courtLevel == b.courtLevel && a.subCourt.GetOr("") == b.subCourt.GetOr("")
    && a.region.GetOr("") == b.region.GetOr("") && a.highCourt.GetOr("") == b.highCourt.GetOr("")
  }

  predicate NoPipe(r: Row) {
    '|' !in r.courtLevel + r.subCourt.GetOr("") + r.region.GetOr("") + r.highCourt.GetOr("")
  }

  lemma NoPipeIsFree(r: Row)
    ensures NoPipe(r) <==> PipeFree(CohortOf(r))
  {
  }

  ghost predicate ScrapedCohort(infer: string -> seq<string>, sources: seq<Source>, x: Row) {
    exists y :: Scraped(infer, sources, y) && SameCohort(y, x)
  }

  lemma CohortIsScraped(infer: string -> seq<string>, sources: seq<Source>, x: Row)
    ensures HasCohort(Expanded(infer, AllRows(sources)), CohortOf(x)) <==> ScrapedCohort(infer, sources, x)
  {
    var scraped := Expanded(infer, AllRows(sources));
    forall y ensures y in scraped <==> Scraped(infer, sources, y) { ScrapedExactly(infer, sources, y); }
    if y :| y in scraped && CohortOf(y) == CohortOf(x) { assert SameCohort(y, x); }
    if y :| Scraped(infer, sources, y) && SameCohort(y, x) { assert CohortOf(y) == CohortOf(x); }
  }

  function FromSnapshot(h: Row): Row {
    h.(source := "hardcoded_fallback")
  }

  /** The row as the table has it, its missing priority taken as 0. */
  function Filled(r: Row): Row {
    r.(priority := Some(if r.priority.Some? then r.priority.value else 0))
  }

  lemma HardcodedExactly(snapshot: seq<Row>, r: Row)
    ensures r in Hardcoded(snapshot) <==> exists h :: h in snapshot && r == FromSnapshot(h)
  {
    if r in Hardcoded(snapshot) {
      var i :| 0 <= i < |snapshot| && Hardcoded(snapshot)[i] == r;
      assert snapshot[i] in snapshot;
    }
    if h :| h in snapshot && r == FromSnapshot(h) {
      var i :| 0 <= i < |snapshot| && snapshot[i] == h;
      assert Hardcoded(snapshot)[i] == r;
    }
  }

  /** A generated row of `x`'s cohort. */
  predicate IsOtherOf(o: Row, x: Row) {
    IsGenerated(o) && SameCohort(o, x)
  }

  predicate IsGenerated(o: Row) {
    o.district.None? && o.code == "OTHER" && o.text == "Other" && o.source == "manual" && o.priority == Some(-1)
  }

  predicate HasOtherOf(table: seq<Row>, x: Row) {
    exists o :: o in table && IsOtherOf(o, x)
  }

  predicate HoldsCohort(table: seq<Row>, x: Row) {
    exists y :: y in table && SameCohort(y, x)
  }

  /** The table holds a generated "Other" row of this cohort. */
  predicate HasGenerated(table: seq<Row>, rows: seq<Row>, c: Cohort) {
    exists o :: o in Others(rows) && CohortOf(o) == c && Stored(o) in table
  }

  lemma OthersAreStored(rows: seq<Row>)
    ensures forall o :: o in Others(rows) ==> Stored(o) in Inserted(rows + Others(rows))
  {
    SkippingLosesNothing(rows + Others(rows));
    forall o | o in Others(rows) ensures o.district.None? && o in rows + Others(rows) {
      var i :| 0 <= i < |Others(rows)| && Others(rows)[i] == o;
    }
  }

  lemma StoredCohort(rows: seq<Row>, c: Cohort)
    requires HasCohort(rows, c)
    ensures HasCohort(Inserted(rows + Others(rows)), c)
    ensures HasCohort(Others(rows), c) <==> PipeFree(c)
  {
    var r :| r in rows && CohortOf(r) == c;
    SkippingLosesNothing(rows + Others(rows));
    assert r in rows + Others(rows);
    OtherExactly(rows, r);
  }

  lemma GeneratedExactly(rows: seq<Row>, c: Cohort)
    ensures HasGenerated(Inserted(rows + Others(rows)), rows, c) <==> HasCohort(Others(rows), c)
    ensures HasCohort(Others(rows), c) ==> PipeFree(c)
  {
    OthersAreStored(rows);
    if HasCohort(Others(rows), c) {
      var o :| o in Others(rows) && CohortOf(o) == c;
      var i :| 0 <= i < |Others(rows)| && Others(rows)[i] == o;
      ReadBackIsFree(KeyOrder(rows, KeyOf)[i]);
    }
  }

  lemma CohortSeeded(scraped: seq<Row>, hardcoded: seq<Row>, c: Cohort)
    ensures var rows := Represented(scraped, hardcoded);
            var table := Inserted(rows + Others(rows));
            && (HasCohort(scraped, c) ==> HasCohort(table, c))
            && (HasCohort(scraped, c) || HasCohort(hardcoded, c) ==>
                  (HasGenerated(table, rows, c) <==> PipeFree(c)) && (PipeFree(c) ==> HasCohort(table, c)))
  {
    var rows := Represented(scraped, hardcoded);
    CohortsAreTheUnion(scraped, hardcoded, c);
    GeneratedExactly(rows, c);
    if HasCohort(rows, c) { StoredCohort(rows, c); }
  }

  lemma GeneratedIsHeld(table: seq<Row>, rows: seq<Row>, x: Row)
    requires HasGenerated(table, rows, CohortOf(x))
    ensures HasOtherOf(table, x)
  {
    var o :| o in Others(rows) && CohortOf(o) == CohortOf(x) && Stored(o) in table;
    OthersAreBlank(rows);
    assert Stored(o) == o && IsOtherOf(o, x);
  }

  lemma CohortIsHeld(table: seq<Row>, x: Row)
    requires HasCohort(table, CohortOf(x))
    ensures HoldsCohort(table, x)
  {
    var y :| y in table && CohortOf(y) == CohortOf(x);
    assert SameCohort(y, x);
  }

  /**
   * After the seed the table holds every row that a row of any source stands for, or one equal in its six
   * columns, and so every scraped cohort. A scraped or a snapshot cohort without a `|` is in the table with a
   * generated "Other" row, whatever the other rows hold.
   */
  lemma SeededTable(infer: string -> seq<string>, sources: seq<Source>, snapshot: seq<Row>, x: Row)
    requires Scraped(infer, sources, x) || x in snapshot
    ensures var table := Inserted(FinalRows(infer, sources, snapshot));
            && (Scraped(infer, sources, x) ==> IsKept(table, x) && HoldsCohort(table, x))
            && (NoPipe(x) ==> HoldsCohort(table, x) && HasOtherOf(table, x))
  {
    var scraped, hardcoded := Expanded(infer, AllRows(sources)), Hardcoded(snapshot);
    var rows, table := Represented(scraped, hardcoded), Inserted(FinalRows(infer, sources, snapshot));
    ScrapedExactly(infer, sources, x);
    CohortSeeded(scraped, hardcoded, CohortOf(x));
    NoPipeIsFree(x);
    if x in scraped {
      InsertedExactly(FinalRows(infer, sources, snapshot));
      assert x in FinalRows(infer, sources, snapshot);
    } else {
      HardcodedExactly(snapshot, FromSnapshot(x));
      assert CohortOf(FromSnapshot(x)) == CohortOf(x);
    }
    if HasCohort(table, CohortOf(x)) { CohortIsHeld(table, x); }
    if HasGenerated(table, rows, CohortOf(x)) { GeneratedIsHeld(table, rows, x); }
  }

  /** A snapshot row whose cohort has no `|` and no scraped row is kept, marked as a fallback. */
  lemma SnapshotFillsGaps(infer: string -> seq<string>, sources: seq<Source>, snapshot: seq<Row>, h: Row)
    requires h in snapshot && NoPipe(h) && !ScrapedCohort(infer, sources, h)
    ensures IsKept(Inserted(FinalRows(infer, sources, snapshot)), FromSnapshot(h))
  {
    var scraped, hardcoded, r := Expanded(infer, AllRows(sources)), Hardcoded(snapshot), FromSnapshot(h);
    HardcodedExactly(snapshot, r);
    NoPipeIsFree(r);
    CohortIsScraped(infer, sources, r);
    assert CohortOf(r) == CohortOf(h) && (forall y :: SameCohort(y, r) <==> SameCohort(y, h));
    FallbacksAreUncovered(scraped, hardcoded, r);
    assert r in FinalRows(infer, sources, snapshot);
    InsertedExactly(FinalRows(infer, sources, snapshot));
  }

  /** A snapshot row, marked as a fallback, whose cohort no scraped row has. */
  ghost predicate FillsGap(infer: string -> seq<string>, sources: seq<Source>, snapshot: seq<Row>, r: Row) {
    exists h :: h in snapshot && !ScrapedCohort(infer, sources, h) && r == FromSnapshot(h)
  }

  lemma FallbackIsUnscraped(infer: string -> seq<string>, sources: seq<Source>, snapshot: seq<Row>, r: Row)
    ensures r in Uncovered(Hardcoded(snapshot), Covered(Expanded(infer, AllRows(sources)))) ==> FillsGap(infer, sources, snapshot, r)
  {
    var scraped := Expanded(infer, AllRows(sources));
    if r in Uncovered(Hardcoded(snapshot), Covered(scraped)) {
      HardcodedExactly(snapshot, r);
      var h :| h in snapshot && r == FromSnapshot(h);
      FallbacksAreUncovered(scraped, Hardcoded(snapshot), r);
      KeyCovered(scraped, r);
      CohortIsScraped(infer, sources, h);
      assert CohortOf(r) == CohortOf(h);
    }
  }

  lemma GeneratedAre(rows: seq<Row>, r: Row)
    requires r in Others(rows)
    ensures IsGenerated(r) && NoPipe(r)
  {
    OthersAreBlank(rows);
    var i :| 0 <= i < |Others(rows)| && Others(rows)[i] == r;
    ReadBackIsFree(KeyOrder(rows, KeyOf)[i]);
    NoPipeIsFree(r);
  }

  /** Where a row of the table comes from. */
  ghost predicate HasOrigin(infer: string -> seq<string>, sources: seq<Source>, snapshot: seq<Row>, r: Row) {
    Scraped(infer, sources, r) || FillsGap(infer, sources, snapshot, r) || (IsGenerated(r) && NoPipe(r))
  }

  lemma FinalRowsAre(infer: string -> seq<string>, sources: seq<Source>, snapshot: seq<Row>, r: Row)
    ensures r in FinalRows(infer, sources, snapshot) ==> HasOrigin(infer, sources, snapshot, r)
  {
    var scraped, hardcoded := Expanded(infer, AllRows(sources)), Hardcoded(snapshot);
    if r in scraped { ScrapedExactly(infer, sources, r); }
    else if r in Uncovered(hardcoded, Covered(scraped)) { FallbackIsUnscraped(infer, sources, snapshot, r); }
    else if r in Others(Represented(scraped, hardcoded)) { GeneratedAre(Represented(scraped, hardcoded), r); }
  }

  /** The table holds nothing else: scraped rows, snapshot rows of unscraped cohorts, and generated rows of cohorts without a `|`. */
  lemma TableRowsAre(infer: string -> seq<string>, sources: seq<Source>, snapshot: seq<Row>, t: Row)
    ensures t in Inserted(FinalRows(infer, sources, snapshot)) ==>
              exists r :: t == Filled(r) && HasOrigin(infer, sources, snapshot, r)
  {
    var rows := FinalRows(infer, sources, snapshot);
    InsertedExactly(rows);
    if r :| r in rows && t == Filled(r) { FinalRowsAre(infer, sources, snapshot, r); }
  }
}
