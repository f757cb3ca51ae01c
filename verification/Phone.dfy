/**
 * Splitting a stored number into country and local part, and composing it again.
 * Two boards split by two different longest-prefix algorithms; both compose alike.
 */
module Phone {
  import opened Base
  import opened Text

  datatype Country = Country(code: string, dial: string)
  datatype Parts = Parts(countryCode: string, local: string)

  const DEFAULT_COUNTRY_CODE := "PK"

  predicate Digit(c: char) { '0' <= c <= '9' }

  predicate Digits(s: string) {
    forall i :: 0 <= i < |s| ==> Digit(s[i])
  }

  /** A dial code as E.164 section 6 has it: digits, not empty, not starting with 0. */
  predicate DialCode(s: string) {
    Digits(s) && s != "" && s[0] != '0'
  }

  predicate CountryList(cs: seq<Country>) {
    && (forall i :: 0 <= i < |cs| ==> cs[i].code != "" && DialCode(cs[i].dial))
    && (forall i, j :: 0 <= i < j < |cs| ==> cs[i].code != cs[j].code)
  }

  predicate Matches(c: Country, digits: string) { c.dial <= digits }

  /** The reference: `i` is the first of the countries with the longest matching dial. */
  predicate IsBest(cs: seq<Country>, digits: string, i: int) {
    && 0 <= i < |cs|
    && Matches(cs[i], digits)
    && (forall j :: 0 <= j < |cs| && Matches(cs[j], digits) ==> |cs[j].dial| <= |cs[i].dial|)
    && (forall j :: 0 <= j < i && Matches(cs[j], digits) ==> |cs[j].dial| < |cs[i].dial|)
  }

  predicate SomeMatch(cs: seq<Country>, digits: string) {
    exists j :: 0 <= j < |cs| && Matches(cs[j], digits)
  }

  // ---- representatives-board: stable sort by dial length, then find ----

  function Insert(c: Country, cs: seq<Country>): seq<Country> {
    if cs == [] || |cs[0].dial| <= |c.dial| then [c] + cs else [cs[0]] + Insert(c, cs[1..])
  }

  /** `[...COUNTRIES].sort((a, b) => b.dial.length - a.dial.length)`; the sort is stable. */
  function ByDialDesc(cs: seq<Country>): seq<Country> {
    if cs == [] then [] else Insert(cs[0], ByDialDesc(cs[1..]))
  }

  predicate Descending(cs: seq<Country>) {
    forall i, j :: 0 <= i < j < |cs| ==> |cs[i].dial| >= |cs[j].dial|
  }

  function OfLength(cs: seq<Country>, n: nat): seq<Country> {
    if cs == [] then []
    else if |cs[0].dial| == n then [cs[0]] + OfLength(cs[1..], n)
    else OfLength(cs[1..], n)
  }

  lemma {:induction false} InsertPermutes(c: Country, cs: seq<Country>)
    ensures multiset(Insert(c, cs)) == multiset{c} + multiset(cs)
  {
    if cs != [] && |c.dial| < |cs[0].dial| {
      InsertPermutes(c, cs[1..]);
      assert cs == [cs[0]] + cs[1..];
    }
  }

  lemma OfLengthCons(c: Country, cs: seq<Country>, n: nat)
    ensures OfLength([c] + cs, n) == if |c.dial| == n then [c] + OfLength(cs, n) else OfLength(cs, n)
  {
    assert ([c] + cs)[1..] == cs;
  }

  lemma {:induction false} InsertIsStable(c: Country, cs: seq<Country>, n: nat)
    ensures OfLength(Insert(c, cs), n) == OfLength([c] + cs, n)
  {
    if cs != [] && |c.dial| < |cs[0].dial| {
      var tail := cs[1..];
      InsertIsStable(c, tail, n);
      OfLengthCons(cs[0], Insert(c, tail), n);
      OfLengthCons(c, tail, n);
      OfLengthCons(c, cs, n);
    }
  }

  lemma {:induction false} InsertSorts(c: Country, cs: seq<Country>)
    requires Descending(cs)
    ensures Descending(Insert(c, cs))
  {
    if cs != [] && |c.dial| < |cs[0].dial| {
      var rest := Insert(c, cs[1..]);
      InsertSorts(c, cs[1..]);
      InsertPermutes(c, cs[1..]);
      forall k | 0 <= k < |rest| ensures |rest[k].dial| <= |cs[0].dial| {
        assert rest[k] in multiset(rest);
        assert rest[k] == c || rest[k] in cs[1..];
      }
    }
  }

  /** The sort is a permutation, longest dial first, and keeps the order among equal lengths. */
  lemma {:induction false} ByDialDescSorts(cs: seq<Country>, n: nat)
    ensures Descending(ByDialDesc(cs))
    ensures multiset(ByDialDesc(cs)) == multiset(cs)
    ensures OfLength(ByDialDesc(cs), n) == OfLength(cs, n)
  {
    if cs != [] {
      ByDialDescSorts(cs[1..], n);
      InsertSorts(cs[0], ByDialDesc(cs[1..]));
      InsertPermutes(cs[0], ByDialDesc(cs[1..]));
      InsertIsStable(cs[0], ByDialDesc(cs[1..]), n);
      OfLengthCons(cs[0], ByDialDesc(cs[1..]), n);
      assert cs == [cs[0]] + cs[1..];
    }
  }

  /** `find((c) => digits.startsWith(c.dial))`. */
  function Find(cs: seq<Country>, digits: string): Option<Country> {
    if cs == [] then None
    else if Matches(cs[0], digits) then Some(cs[0])
    else Find(cs[1..], digits)
  }

  lemma {:induction false} FindInInsert(c: Country, cs: seq<Country>, digits: string)
    requires Descending(cs)
    ensures Find(Insert(c, cs), digits) ==
            if Matches(c, digits) && (Find(cs, digits).None? || |Find(cs, digits).value.dial| <= |c.dial|)
            then Some(c) else Find(cs, digits)
  {
    if cs == [] || |cs[0].dial| <= |c.dial| {
      assert ([c] + cs)[1..] == cs;
      if Find(cs, digits).Some? { FindBounded(cs, digits); }
    } else {
      FindInInsert(c, cs[1..], digits);
      assert Insert(c, cs)[1..] == Insert(c, cs[1..]);
    }
  }

  lemma {:induction false} FindBounded(cs: seq<Country>, digits: string)
    requires Descending(cs) && Find(cs, digits).Some?
    ensures cs != [] && |Find(cs, digits).value.dial| <= |cs[0].dial|
  {
    if !Matches(cs[0], digits) {
      FindBounded(cs[1..], digits);
    }
  }

  /** The head beats the rest's best country unless that one's dial is longer. */
  lemma BestWithHead(cs: seq<Country>, digits: string, k: nat)
    requires cs != [] && IsBest(cs[1..], digits, k)
    ensures if Matches(cs[0], digits) && |cs[k + 1].dial| <= |cs[0].dial| then IsBest(cs, digits, 0) else IsBest(cs, digits, k + 1)
  {
    assert forall j :: 0 < j < |cs| ==> cs[j] == cs[1..][j - 1];
  }

  lemma BestIsHead(cs: seq<Country>, digits: string)
    requires cs != [] && !SomeMatch(cs[1..], digits)
    ensures Matches(cs[0], digits) ==> IsBest(cs, digits, 0)
    ensures SomeMatch(cs, digits) <==> Matches(cs[0], digits)
  {
    assert forall j :: 0 < j < |cs| ==> cs[j] == cs[1..][j - 1];
  }

  /** Sorting then taking the first match finds exactly the reference country. */
  lemma {:induction false} SortedFindIsBest(cs: seq<Country>, digits: string)
    ensures match Find(ByDialDesc(cs), digits)
            case None => !SomeMatch(cs, digits)
            case Some(c) => exists i :: IsBest(cs, digits, i) && cs[i] == c
  {
    if cs != [] {
      var rest := cs[1..];
      SortedFindIsBest(rest, digits);
      ByDialDescSorts(rest, 0);
      FindInInsert(cs[0], ByDialDesc(rest), digits);
      match Find(ByDialDesc(rest), digits)
      case None => BestIsHead(cs, digits);
      case Some(found) =>
        var k :| IsBest(rest, digits, k) && rest[k] == found;
        BestWithHead(cs, digits, k);
    }
  }

  /** The split the reference prescribes; `None` when no dial matches. */
  ghost function BestSplit(cs: seq<Country>, digits: string): (r: Option<Parts>)
    ensures r.None? <==> !SomeMatch(cs, digits)
    ensures forall i :: IsBest(cs, digits, i) ==> r == Some(Parts(cs[i].code, digits[|cs[i].dial|..]))
  {
    SortedFindIsBest(cs, digits);
    if SomeMatch(cs, digits) then
      var i :| IsBest(cs, digits, i);
      Some(Parts(cs[i].code, digits[|cs[i].dial|..]))
    else None
  }

  function DropPlus(s: string): string {
    if s != "" && s[0] == '+' then s[1..] else s
  }

  /** `decomposePhone` (representatives). */
  function DecomposePhone(cs: seq<Country>, raw: Option<string>): Parts {
    var trimmed := Trim(raw.GetOr(""));
    if trimmed == "" then Parts(DEFAULT_COUNTRY_CODE, "")
    else
      var digits := DropPlus(trimmed);
      SortedFindIsBest(cs, digits);
      match Find(ByDialDesc(cs), digits)
      case Some(c) => Parts(c.code, digits[|c.dial|..])
      case None => Parts(DEFAULT_COUNTRY_CODE, digits)
  }

  /**
   * The representatives' split of any non-blank stored value is the reference split, with
   * PK as its fallback; with the contract of `SplitByKnownDial` the two boards agree
   * whenever some dial matches.
   */
  lemma DecomposeIsBest(cs: seq<Country>, raw: string)
    requires Trim(raw) != ""
    ensures var digits := DropPlus(Trim(raw));
            DecomposePhone(cs, Some(raw)) == BestSplit(cs, digits).GetOr(Parts(DEFAULT_COUNTRY_CODE, digits))
  {
    SortedFindIsBest(cs, DropPlus(Trim(raw)));
  }

  // ---- consumer-profile-board: one scan with a strict "longer than" ----

  /** `splitByKnownDial` (consumer profile): the reference split, with an empty code as its fallback. */
  method SplitByKnownDial(cs: seq<Country>, e164: string) returns (r: Parts)
    requires CountryList(cs)
    ensures r == BestSplit(cs, DropPlus(e164)).GetOr(Parts("", DropPlus(e164)))
  {
    var digits := DropPlus(e164);
    var bestCode, bestDial := "", "";
    ghost var best := -1;
    for k := 0 to |cs|
      invariant best == -1 ==> bestCode == "" && bestDial == "" && forall j :: 0 <= j < k ==> !Matches(cs[j], digits)
      invariant best != -1 ==> 0 <= best < k && cs[best] == Country(bestCode, bestDial) && Matches(cs[best], digits)
      invariant best != -1 ==> forall j :: 0 <= j < k && Matches(cs[j], digits) ==> |cs[j].dial| <= |bestDial|
      invariant best != -1 ==> forall j :: 0 <= j < best && Matches(cs[j], digits) ==> |cs[j].dial| < |bestDial|
    {
      var c := cs[k];
      if c.dial <= digits && |c.dial| > |bestDial| {
        bestCode, bestDial := c.code, c.dial;
        best := k;
      }
    }
    if bestCode != "" {
      assert IsBest(cs, digits, best);
      r := Parts(bestCode, digits[|bestDial|..]);
    } else {
      r := Parts("", digits);
    }
  }

  lemma DigitsAreNotSpace(s: string)
    requires Digits(s)
    ensures forall i :: 0 <= i < |s| ==> !IsSpace(s[i]) && s[i] != '+'
  {
    forall i | 0 <= i < |s| ensures !IsSpace(s[i]) && s[i] != '+' {
      assert Digit(s[i]);
    }
  }

  // ---- composing ----

  predicate Separator(c: char) { IsSpace(c) || c in {'-', '(', ')'} }

  /** `replace(/[\s\-()]/g, '')`. */
  function DropSeparators(s: string): string {
    if s == "" then ""
    else (if Separator(s[0]) then "" else [s[0]]) + DropSeparators(s[1..])
  }

  /** `replace(/^0+/, '')`. */
  function DropZeros(s: string): string {
    if s != "" && s[0] == '0' then DropZeros(s[1..]) else s
  }

  function Normalise(typed: string): string {
    DropZeros(DropPlus(DropSeparators(Trim(typed))))
  }

  /** `composePhone` for a known dial code; both boards have the same body. */
  function ComposeWithDial(typed: string, dial: string): string {
    if Trim(typed) == "" then ""
    else
      var digits := Normalise(typed);
      "+" + if dial <= digits then digits else dial + digits
  }

  function FindCountry(cs: seq<Country>, code: string, fallback: Country): Country {
    if cs == [] then fallback
    else if cs[0].code == code then cs[0]
    else FindCountry(cs[1..], code, fallback)
  }

  /** Representatives: the empty string for a blank number. */
  function ComposePhone(cs: seq<Country>, fallback: Country, local: string, code: string): string {
    ComposeWithDial(local, FindCountry(cs, code, fallback).dial)
  }

  /** Consumer profile: no number at all for a blank number or an unset country. */
  function ComposeProfilePhone(cs: seq<Country>, fallback: Country, phone: string, code: string): Option<string> {
    if Trim(phone) == "" || code == "" then None
    else Some(ComposeWithDial(phone, FindCountry(cs, code, fallback).dial))
  }

  predicate Clean(s: string) {
    forall i :: 0 <= i < |s| ==> !Separator(s[i])
  }

  lemma {:induction false} DropSeparatorsCleans(s: string)
    ensures Clean(DropSeparators(s))
    ensures Clean(s) ==> DropSeparators(s) == s
  {
    if s != "" {
      DropSeparatorsCleans(s[1..]);
      assert s == [s[0]] + s[1..];
      assert Clean(s) ==> forall i :: 0 <= i < |s[1..]| ==> !Separator(s[1..][i]) by {
        assert forall i :: 0 <= i < |s[1..]| ==> s[1..][i] == s[i + 1];
      }
    }
  }

  lemma {:induction false} DropZerosSuffix(s: string)
    ensures |DropZeros(s)| <= |s| && DropZeros(s) == s[|s| - |DropZeros(s)|..]
    ensures DropZeros(s) == "" || DropZeros(s)[0] != '0'
    ensures DropZeros(s) == s <==> s == "" || s[0] != '0'
  {
    if s != "" && s[0] == '0' { DropZerosSuffix(s[1..]); }
  }

  predicate AllZeros(s: string) {
    forall i :: 0 <= i < |s| ==> s[i] == '0'
  }

  /** Exactly the leading zeros go. */
  lemma {:induction false} DropZerosExactly(s: string)
    ensures |DropZeros(s)| <= |s| && s == s[..|s| - |DropZeros(s)|] + DropZeros(s)
    ensures AllZeros(s[..|s| - |DropZeros(s)|]) && (DropZeros(s) == "" || DropZeros(s)[0] != '0')
  {
    DropZerosSuffix(s);
    if s != "" && s[0] == '0' {
      DropZerosExactly(s[1..]);
      var n := |s| - |DropZeros(s)|;
      assert s[..n] == [s[0]] + s[1..][..n - 1];
    }
  }

  /** White space, hyphens and parentheses go, and every other character stays in its place. */
  lemma {:induction false} DropSeparatorsExactly(a: string, b: string, c: char)
    ensures DropSeparators(a + b) == DropSeparators(a) + DropSeparators(b)
    ensures DropSeparators([c]) == if IsSpace(c) || c == '-' || c == '(' || c == ')' then "" else [c]
  {
    if a == "" {
      assert a + b == b;
    } else {
      assert (a + b)[1..] == a[1..] + b;
      DropSeparatorsExactly(a[1..], b, c);
    }
    assert DropSeparators([c][1..]) == "";
  }

  /**
   * What is typed is read as its digits after separators, one plus and the zeros are gone; they are
   * stored behind the dial unless they start with it.
   */
  lemma ComposedExactly(typed: string, dial: string, zeros: string, digits: string, plus: bool)
    requires Trim(typed) != "" && AllZeros(zeros) && Digits(digits) && (digits == "" || digits[0] != '0')
    requires DropSeparators(Trim(typed)) == (if plus then "+" else "") + zeros + digits
    ensures ComposeWithDial(typed, dial) == if dial <= digits then "+" + digits else "+" + dial + digits
  {
    var kept := DropSeparators(Trim(typed));
    PlusDrops(zeros, digits, plus, kept);
    ZerosDrop(zeros, digits);
    assert Normalise(typed) == digits;
  }

  lemma PlusDrops(zeros: string, digits: string, plus: bool, kept: string)
    requires AllZeros(zeros) && Digits(digits) && kept == (if plus then "+" else "") + zeros + digits
    ensures DropPlus(kept) == zeros + digits
  {
    var rest := zeros + digits;
    if plus {
      assert kept[1..] == rest;
    } else {
      assert kept == rest;
      if rest != "" { assert rest[0] == '0' || Digit(rest[0]); }
    }
  }

  lemma {:induction false} ZerosDrop(zeros: string, digits: string)
    requires AllZeros(zeros) && (digits == "" || digits[0] != '0')
    ensures DropZeros(zeros + digits) == digits
  {
    if zeros == "" {
      assert zeros + digits == digits;
    } else {
      assert (zeros + digits)[1..] == zeros[1..] + digits;
      ZerosDrop(zeros[1..], digits);
    }
  }

  lemma CleanConcat(a: string, b: string)
    requires Clean(a) && Clean(b)
    ensures Clean(a + b)
  {
  }

  lemma DigitsAreClean(s: string)
    requires Digits(s)
    ensures Clean(s)
  {
    forall i | 0 <= i < |s| ensures !Separator(s[i]) { assert Digit(s[i]); }
  }

  lemma NormaliseCleans(typed: string)
    ensures Clean(Normalise(typed))
  {
    DropSeparatorsCleans(Trim(typed));
    DropZerosSuffix(DropPlus(DropSeparators(Trim(typed))));
  }

  /** A composed number is `+`, then the dial code, and nothing the next compose would strip. */
  lemma ComposedShape(typed: string, dial: string)
    requires DialCode(dial) && Trim(typed) != ""
    ensures var r := ComposeWithDial(typed, dial); r != "" && r[0] == '+' && dial <= r[1..] && Clean(r)
  {
    var n := Normalise(typed);
    var body := if dial <= n then n else dial + n;
    NormaliseCleans(typed);
    DigitsAreClean(dial);
    CleanConcat(dial, n);
    CleanConcat("+", body);
    assert ("+" + body)[1..] == body;
  }

  lemma {:induction false} TrimKeepsClean(s: string)
    requires Clean(s)
    ensures Trim(s) == s
  {
    TrimIsIdentity(s);
  }

  /** Composing a composed number changes nothing, whatever was typed first. */
  lemma ComposeIsIdempotent(typed: string, dial: string)
    requires DialCode(dial)
    ensures ComposeWithDial(ComposeWithDial(typed, dial), dial) == ComposeWithDial(typed, dial)
  {
    if Trim(typed) != "" {
      var r := ComposeWithDial(typed, dial);
      ComposedShape(typed, dial);
      TrimKeepsClean(r);
      DropSeparatorsCleans(r);
      DropZerosSuffix(r[1..]);
      assert r[1..][0] == dial[0];
    }
  }

  lemma {:induction false} FindCountryByCode(cs: seq<Country>, fallback: Country, i: nat)
    requires CountryList(cs) && i < |cs|
    ensures FindCountry(cs, cs[i].code, fallback) == cs[i]
  {
    if i > 0 {
      assert cs[0].code != cs[i].code;
      assert forall j, k :: 0 <= j < k < |cs[1..]| ==> cs[1..][j] == cs[j + 1] && cs[1..][k] == cs[k + 1];
      FindCountryByCode(cs[1..], fallback, i - 1);
    }
  }

  /** Composing the parts of `dial + local` gives the stored number back under exactly these conditions. */
  lemma ComposeUndoesSplit(dial: string, local: string)
    requires DialCode(dial) && Digits(local)
    ensures ComposeWithDial(local, dial) == "+" + (dial + local)
            <==> local != "" && local[0] != '0' && !(dial <= local)
  {
    DigitsAreNotSpace(local);
    DigitsAreClean(local);
    TrimKeepsClean(local);
    DropSeparatorsCleans(local);
    DropZerosSuffix(local);
    assert DropPlus(local) == local;
    if local != "" {
      var n := DropZeros(local);
      assert Normalise(local) == n;
      var body := if dial <= n then n else dial + n;
      assert ("+" + body)[1..] == body && ("+" + (dial + local))[1..] == dial + local;
    }
  }

  lemma DigitsBlank(local: string)
    requires Digits(local)
    ensures Trim(local) == "" <==> local == ""
  {
    if local != "" {
      DigitsAreNotSpace(local);
      TrimIsIdentity(local);
    }
  }

  lemma PlusIsDropped(digits: string)
    requires Digits(digits)
    ensures Trim("+" + digits) == "+" + digits && DropPlus("+" + digits) == digits
  {
    DigitsAreNotSpace(digits);
    TrimIsIdentity("+" + digits);
  }

  lemma SplitsAt(digits: string, dial: string)
    requires Digits(digits) && dial <= digits
    ensures digits == dial + digits[|dial|..] && Digits(digits[|dial|..])
  {
    var local := digits[|dial|..];
    forall k | 0 <= k < |local| ensures Digit(local[k]) { assert local[k] == digits[|dial| + k]; }
  }

  /** Decomposing a stored number splits off the best dial. */
  lemma DecomposeSplits(cs: seq<Country>, digits: string, i: nat)
    requires Digits(digits) && IsBest(cs, digits, i)
    ensures DecomposePhone(cs, Some("+" + digits)) == Parts(cs[i].code, digits[|cs[i].dial|..])
    ensures BestSplit(cs, digits) == Some(Parts(cs[i].code, digits[|cs[i].dial|..]))
  {
    PlusIsDropped(digits);
    DecomposeIsBest(cs, "+" + digits);
  }

  /** Either compose of a listed country's parts gives dial plus local back under the same conditions. */
  lemma EitherComposeUndoes(cs: seq<Country>, fallback: Country, i: nat, local: string)
    requires CountryList(cs) && i < |cs| && Digits(local)
    ensures var dial := FindCountry(cs, cs[i].code, fallback).dial;
            && dial == cs[i].dial
            && (ComposePhone(cs, fallback, local, cs[i].code) == "+" + (dial + local)
                <==> local != "" && local[0] != '0' && !(dial <= local))
            && (ComposeProfilePhone(cs, fallback, local, cs[i].code) == Some("+" + (dial + local))
                <==> local != "" && local[0] != '0' && !(dial <= local))
  {
    FindCountryByCode(cs, fallback, i);
    ComposeUndoesSplit(cs[i].dial, local);
    DigitsBlank(local);
  }

  /**
   * Decompose then compose, for every list of countries and every stored digit string
   * some dial matches: the stored number comes back exactly when the local part is not
   * empty, does not start with 0 and does not start with the dial code again.
   */
  lemma DecomposeComposeRoundTrip(cs: seq<Country>, fallback: Country, digits: string)
    requires CountryList(cs) && Digits(digits) && SomeMatch(cs, digits)
    ensures var p := DecomposePhone(cs, Some("+" + digits));
            var dial := FindCountry(cs, p.countryCode, fallback).dial;
            && digits == dial + p.local
            && BestSplit(cs, digits) == Some(p)
            && (ComposePhone(cs, fallback, p.local, p.countryCode) == "+" + digits
                <==> p.local != "" && p.local[0] != '0' && !(dial <= p.local))
            && (ComposeProfilePhone(cs, fallback, p.local, p.countryCode) == Some("+" + digits)
                <==> p.local != "" && p.local[0] != '0' && !(dial <= p.local))
  {
    SortedFindIsBest(cs, digits);
    var i :| IsBest(cs, digits, i);
    DecomposeSplits(cs, digits, i);
    SplitsAt(digits, cs[i].dial);
    EitherComposeUndoes(cs, fallback, i, digits[|cs[i].dial|..]);
  }
}
