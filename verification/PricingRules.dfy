/**
 * From the draft buffer to rule rows: last-write-wins on a printed key, the clerk rates laid on
 * in place, and the row each draft becomes.
 */
module PricingRules {
  import opened Base
  import opened LastWriteWins
  import opened Text
  import opened PricingSheet
  import opened PricingParser

  // ---- Printed keys ----

  function RegionText(r: Region): string {
    match r case Punjab => "Punjab" case Other => "other"
  }

  function CourtText(c: Court): string {
    match c
    case Lower => "Lower Court"
    case Special => "Special Court"
    case High => "High Court"
    case Shariat => "Federal Shariat Court"
    case Supreme => "Supreme Court"
    case Constitutional => "Federal Constitutional Court"
  }

  function FlowText(s: Service): string {
    match s
    case Files => "judicial_case_files"
    case Information => "judicial_case_information"
    case Record => "judicial_case_record"
    case Search => "judicial_case_search"
    case Filing => "judicial_case_filing"
    case Attorney => "judicial_power_of_attorney"
  }

  function BandText(b: Band): string {
    match b
    case Pending => "pending"
    case Current => "current"
    case Y2025 => "y2025"
    case Y2024 => "y2024_2023"
    case Y2022 => "y2022_2020"
    case Y2019 => "y2019_2017"
    case Y2016 => "y2016_back"
  }

  function SetTypeText(s: Option<SetType>): string {
    match s
    case None => ""
    case Some(Attested) => "attested"
    case Some(NonAttested) => "non_attested"
    case Some(Both) => "both"
  }

  function AsciiUpper(s: string): string {
    if s == "" then "" else [if 'a' <= s[0] <= 'z' then s[0] - 'a' + 'A' else s[0]] + AsciiUpper(s[1..])
  }

  /** A stored court name, read as a header, is that court again. */
  lemma StoredCourtReadsBack(c: Court)
    ensures HeaderCourt(AsciiUpper, Some(CourtText(c))) == Some(c)
  {
    TextIsTrimmed(c);
    TextUpper(c);
    FirstWordNames(AsciiUpper, CourtText(c), c);
  }

  lemma FirstWordNames(upper: string -> string, s: string, c: Court)
    requires s != "" && Trim(s) == s && HeaderWords(c)[0] <= upper(s)
    ensures HeaderCourt(upper, Some(s)) == Some(c)
  {
    HeaderCourtExactly(upper, Some(s), c);
  }

  lemma TextIsTrimmed(c: Court)
    ensures CourtText(c) != "" && Trim(CourtText(c)) == CourtText(c)
  {
    TrimIsIdentity(CourtText(c));
  }

  lemma TextUpper(c: Court)
    ensures HeaderWords(c)[0] <= AsciiUpper(CourtText(c))
  {
    UpperStarts(CourtText(c), HeaderWords(c)[0]);
  }

  lemma {:induction false} UpperAt(s: string, i: nat)
    requires i < |s|
    ensures |AsciiUpper(s)| == |s| && AsciiUpper(s)[i] == if 'a' <= s[i] <= 'z' then s[i] - 'a' + 'A' else s[i]
  {
    if i > 0 { UpperAt(s[1..], i - 1); }
    else if |s| > 1 { UpperAt(s[1..], 0); }
    else { assert AsciiUpper(s[1..]) == ""; }
  }

  lemma UpperStarts(s: string, w: string)
    requires |w| <= |s| && s != ""
    requires forall i :: 0 <= i < |w| ==> w[i] == if 'a' <= s[i] <= 'z' then s[i] - 'a' + 'A' else s[i]
    ensures w <= AsciiUpper(s)
  {
    UpperAt(s, 0);
    forall i | 0 <= i < |w| ensures AsciiUpper(s)[i] == w[i] { UpperAt(s, i); }
  }

  function KeyParts(d: Draft): seq<string> {
    [RegionText(d.region), CourtText(d.court), FlowText(d.flow), BandText(d.band), SetTypeText(d.setType)]
  }

  /** The key `byKey` files a draft under. */
  function Key(d: Draft): string {
    Join(KeyParts(d), '|')
  }

  predicate SameDimensions(d: Draft, e: Draft) {
    (d.region, d.court, d.flow, d.band, d.setType) == (e.region, e.court, e.flow, e.band, e.setType)
  }

  lemma TextsAreFree(d: Draft)
    ensures forall p :: p in KeyParts(d) ==> Free(p, '|')
  {
    CourtTextIsFree(d.court);
    FlowTextIsFree(d.flow);
    BandTextIsFree(d.band);
    assert Free(RegionText(d.region), '|') && Free(SetTypeText(d.setType), '|');
  }

  lemma CourtTextIsFree(c: Court)
    ensures Free(CourtText(c), '|')
  {
  }

  lemma FlowTextIsFree(s: Service)
    ensures Free(FlowText(s), '|')
  {
  }

  lemma BandTextIsFree(b: Band)
    ensures Free(BandText(b), '|')
  {
  }

  /** Two drafts are filed under one key exactly when they agree on all five dimensions. */
  lemma KeyIsDimensions(d: Draft, e: Draft)
    ensures Key(d) == Key(e) <==> SameDimensions(d, e)
  {
    if Key(d) == Key(e) {
      TextsAreFree(d);
      TextsAreFree(e);
      JoinInjective(KeyParts(d), KeyParts(e), '|');
      assert forall i :: 0 <= i < 5 ==> KeyParts(d)[i] == KeyParts(e)[i];
      TextsDiffer(d, e);
    }
  }

  lemma TextsDiffer(d: Draft, e: Draft)
    requires RegionText(d.region) == RegionText(e.region) && CourtText(d.court) == CourtText(e.court)
    requires FlowText(d.flow) == FlowText(e.flow) && BandText(d.band) == BandText(e.band)
    requires SetTypeText(d.setType) == SetTypeText(e.setType)
    ensures SameDimensions(d, e)
  {
    assert CourtText(Lower)[0] == 'L' && CourtText(High)[0] == 'H';
  }

  /** A headline draft never overwrites a set-type draft, nor the other way round. */
  lemma HeadlineNeverCollides(headline: Draft, setType: Draft)
    requires headline.setType.None? && setType.setType.Some?
    ensures Key(headline) != Key(setType)
  {
    KeyIsDimensions(headline, setType);
  }

  // ---- Last write wins ----

  function UniqueRules(ds: seq<Draft>): seq<Draft> {
    Deduped(ds, Key)
  }

  /**
   * The unique drafts are the last of their dimensions, every draft's dimensions are kept once, and
   * no two kept drafts share all five.
   */
  lemma UniqueIsLastPerDimensions(ds: seq<Draft>)
    ensures forall d :: d in UniqueRules(ds)
                        ==> exists p :: 0 <= p < |ds| && ds[p] == d && NoneLater(ds, p)
    ensures forall d :: d in ds ==> exists u :: u in UniqueRules(ds) && SameDimensions(u, d)
    ensures forall i, j :: 0 <= i < j < |UniqueRules(ds)| ==> !SameDimensions(UniqueRules(ds)[i], UniqueRules(ds)[j])
  {
    var us := UniqueRules(ds);
    forall d | d in us ensures exists p :: 0 <= p < |ds| && ds[p] == d && NoneLater(ds, p) {
      var i :| 0 <= i < |us| && us[i] == d;
      var p := KeptIsLast(ds, Key, i);
      forall q | p < q < |ds| ensures !SameDimensions(ds[q], ds[p]) { KeyIsDimensions(ds[q], ds[p]); }
    }
    forall d | d in ds ensures exists u :: u in us && SameDimensions(u, d) {
      var p :| 0 <= p < |ds| && ds[p] == d;
      var i := KeptOnce(ds, Key, p);
      KeyIsDimensions(us[i], d);
      assert us[i] in us;
    }
    forall i, j | 0 <= i < j < |us| ensures !SameDimensions(us[i], us[j]) {
      KeyIsDimensions(us[i], us[j]);
      assert KeyOrder(ds, Key)[i] != KeyOrder(ds, Key)[j];
    }
  }

  predicate NoneLater(ds: seq<Draft>, p: int)
    requires 0 <= p < |ds|
  {
    forall q :: p < q < |ds| ==> !SameDimensions(ds[q], ds[p])
  }

  // ---- The clerk overlay ----

  function Overlaid(d: Draft, rates: ClerkRates): Draft {
    if d.setType.None? || d.flow != Files then d
    else
      var k := ClerkKey(d.region, d.court, d.band, d.setType.value);
      if k in rates then d.(clerk := Some(rates[k])) else d
  }

  function OverlaidAll(ds: seq<Draft>, rates: ClerkRates): (r: seq<Draft>)
    ensures |r| == |ds| && forall i :: 0 <= i < |ds| ==> r[i] == Overlaid(ds[i], rates)
  {
    if ds == [] then [] else OverlaidAll(ds[..|ds| - 1], rates) + [Overlaid(ds[|ds| - 1], rates)]
  }

  lemma OverlayKeepsKey(d: Draft, rates: ClerkRates)
    ensures Key(Overlaid(d, rates)) == Key(d)
  {
  }

  /** Laying the clerk rates on before de-duping gives the same drafts as laying them on after. */
  lemma OverlayCommutes(ds: seq<Draft>, rates: ClerkRates)
    ensures UniqueRules(OverlaidAll(ds, rates)) == OverlaidAll(UniqueRules(ds), rates)
  {
    var all := OverlaidAll(ds, rates);
    forall i | 0 <= i < |ds| ensures Key(all[i]) == Key(ds[i]) { OverlayKeepsKey(ds[i], rates); }
    MappedOrder(ds, all, Key);
    var order := KeyOrder(ds, Key);
    forall i | 0 <= i < |order| ensures UniqueRules(all)[i] == Overlaid(UniqueRules(ds)[i], rates) {
      assert order[i] in order && order[i] in KeyOrder(all, Key);
      MappedLast(ds, all, d => Overlaid(d, rates), Key, order[i]);
    }
  }

  // ---- The loops ----

  /** The clerk overlay, assigning `clerkBaseCost` of each unique draft in place. */
  method OverlayInPlace(a: array<Draft>, rates: ClerkRates)
    modifies a
    ensures a[..] == OverlaidAll(old(a[..]), rates)
  {
    for i := 0 to a.Length
      invariant forall j :: 0 <= j < i ==> a[j] == Overlaid(old(a[j]), rates)
      invariant forall j :: i <= j < a.Length ==> a[j] == old(a[j])
    {
      var d := a[i];
      if d.setType.Some? && d.flow == Files {
        var k := ClerkKey(d.region, d.court, d.band, d.setType.value);
        if k in rates { a[i] := d.(clerk := Some(rates[k])); }
      }
    }
  }

  /** De-dupe, then overlay. */
  method BuildUnique(ds: seq<Draft>, rates: ClerkRates) returns (unique: seq<Draft>)
    ensures unique == OverlaidAll(UniqueRules(ds), rates)
  {
    var order, byKey := FileByKey(ds, Key);
    var a := new Draft[|order|](i requires 0 <= i < |order| => byKey[order[i]]);
    assert a[..] == UniqueRules(ds);
    OverlayInPlace(a, rates);
    unique := a[..];
  }
}
