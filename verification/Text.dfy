/** Strings as the source uses them: `trim`, `hasValue`, and keys printed with a separator. */
module Text {
  import opened Base

  /** The characters `trim` and the class `\s` remove (ECMAScript WhiteSpace and LineTerminator). */
  predicate IsSpace(c: char) {
    || c == ' ' || ('\t' <= c <= '\r') || c == '\U{A0}' || c == '\U{1680}'
    || ('\U{2000}' <= c <= '\U{200A}') || c == '\U{2028}' || c == '\U{2029}'
    || c == '\U{202F}' || c == '\U{205F}' || c == '\U{3000}' || c == '\U{FEFF}'
  }

  function TrimStart(s: string): string {
    if s != "" && IsSpace(s[0]) then TrimStart(s[1..]) else s
  }

  function TrimEnd(s: string): string {
    if s != "" && IsSpace(s[|s| - 1]) then TrimEnd(s[..|s| - 1]) else s
  }

  function Trim(s: string): string {
    TrimEnd(TrimStart(s))
  }

  /** `hasValue`: defined and not blank. */
  predicate HasValue(v: Option<string>) {
    v.Some? && Trim(v.value) != ""
  }

  lemma TrimIsIdentity(s: string)
    requires s == "" || (!IsSpace(s[0]) && !IsSpace(s[|s| - 1]))
    ensures Trim(s) == s
  {
  }

  predicate AllSpace(s: string) {
    forall i :: 0 <= i < |s| ==> IsSpace(s[i])
  }

  lemma {:induction false} TrimStartExactly(s: string)
    ensures |TrimStart(s)| <= |s| && TrimStart(s) == s[|s| - |TrimStart(s)|..] && AllSpace(s[..|s| - |TrimStart(s)|])
    ensures TrimStart(s) == "" || !IsSpace(TrimStart(s)[0])
  {
    if s != "" && IsSpace(s[0]) {
      TrimStartExactly(s[1..]);
      var n := |s| - |TrimStart(s)|;
      assert s[..n] == [s[0]] + s[1..][..n - 1];
    }
  }

  lemma {:induction false} TrimEndExactly(s: string)
    ensures |TrimEnd(s)| <= |s| && TrimEnd(s) == s[..|TrimEnd(s)|] && AllSpace(s[|TrimEnd(s)|..])
    ensures TrimEnd(s) == "" || !IsSpace(TrimEnd(s)[|TrimEnd(s)| - 1])
  {
    if s != "" && IsSpace(s[|s| - 1]) {
      TrimEndExactly(s[..|s| - 1]);
      var n := |TrimEnd(s)|;
      assert s[n..] == s[..|s| - 1][n..] + [s[|s| - 1]];
    }
  }

  /** `trim` cuts white space off both ends, all of it, and nothing else. */
  lemma TrimExactly(s: string) returns (from: nat, to: nat)
    ensures from <= to <= |s| && Trim(s) == s[from..to]
    ensures AllSpace(s[..from]) && AllSpace(s[to..])
    ensures from < to ==> !IsSpace(s[from]) && !IsSpace(s[to - 1])
  {
    TrimStartExactly(s);
    TrimEndExactly(TrimStart(s));
    from := |s| - |TrimStart(s)|;
    to := from + |Trim(s)|;
    var rest := TrimStart(s);
    assert rest == s[from..] && Trim(s) == rest[..|Trim(s)|] == s[from..to];
    assert s[to..] == rest[|Trim(s)|..];
  }

  // ---- Keys printed with a separator and read back ----

  predicate Free(s: string, sep: char) {
    forall i :: 0 <= i < |s| ==> s[i] != sep
  }

  /** `parts.join(sep)`, for a non-empty list. */
  function Join(parts: seq<string>, sep: char): string
    requires parts != []
  {
    if |parts| == 1 then parts[0] else parts[0] + [sep] + Join(parts[1..], sep)
  }

  /** `s.split(sep)`. */
  function Split(s: string, sep: char): (parts: seq<string>)
    ensures parts != []
  {
    if s == "" then [""]
    else if s[0] == sep then [""] + Split(s[1..], sep)
    else
      var rest := Split(s[1..], sep);
      [[s[0]] + rest[0]] + rest[1..]
  }

  lemma {:induction false} SplitPartsAreFree(s: string, sep: char)
    ensures forall p :: p in Split(s, sep) ==> Free(p, sep)
  {
    if s != "" {
      SplitPartsAreFree(s[1..], sep);
      var rest := Split(s[1..], sep);
      assert rest[0] in rest;
      forall p | p in Split(s, sep) ensures Free(p, sep) {
        if p in rest[1..] { assert p in rest; }
      }
    }
  }

  lemma {:induction false} SplitFree(s: string, sep: char)
    requires Free(s, sep)
    ensures Split(s, sep) == [s]
  {
    if s != "" {
      assert s[0] != sep;
      assert forall i :: 0 <= i < |s[1..]| ==> s[1..][i] == s[i + 1];
      SplitFree(s[1..], sep);
      assert s == [s[0]] + s[1..];
    }
  }

  lemma {:induction false} SplitHead(a: string, rest: string, sep: char)
    requires Free(a, sep)
    ensures Split(a + [sep] + rest, sep) == [a] + Split(rest, sep)
  {
    var whole := a + [sep] + rest;
    if a == "" {
      assert whole[1..] == rest;
    } else {
      assert whole[0] == a[0] != sep;
      assert forall i :: 0 <= i < |a[1..]| ==> a[1..][i] == a[i + 1];
      assert whole[1..] == a[1..] + [sep] + rest;
      SplitHead(a[1..], rest, sep);
      assert a == [a[0]] + a[1..];
    }
  }

  /** Printing then splitting gives the parts back exactly when no part holds the separator. */
  lemma {:induction false} SplitJoin(parts: seq<string>, sep: char)
    requires parts != []
    ensures Split(Join(parts, sep), sep) == parts <==> forall p :: p in parts ==> Free(p, sep)
  {
    if forall p :: p in parts ==> Free(p, sep) {
      if |parts| == 1 {
        SplitFree(parts[0], sep);
      } else {
        SplitJoin(parts[1..], sep);
        SplitHead(parts[0], Join(parts[1..], sep), sep);
        assert parts == [parts[0]] + parts[1..];
      }
    } else {
      SplitPartsAreFree(Join(parts, sep), sep);
    }
  }

  lemma {:induction false} OnePartIsFree(s: string, sep: char)
    ensures |Split(s, sep)| == 1 <==> Free(s, sep)
  {
    if s != "" {
      OnePartIsFree(s[1..], sep);
      assert Free(s, sep) <==> s[0] != sep && Free(s[1..], sep) by { assert s == [s[0]] + s[1..]; }
    }
  }

  lemma {:induction false} SplitLengths(a: string, rest: string, sep: char)
    ensures |Split(a + [sep] + rest, sep)| == |Split(a, sep)| + |Split(rest, sep)|
  {
    var whole := a + [sep] + rest;
    if a == "" {
      assert whole[1..] == rest;
    } else {
      assert whole[1..] == a[1..] + [sep] + rest;
      SplitLengths(a[1..], rest, sep);
    }
  }

  /** A printed list splits into at least its own length, and into more when a part holds the separator. */
  lemma {:induction false} SplitAtLeast(parts: seq<string>, sep: char)
    requires parts != []
    ensures |Split(Join(parts, sep), sep)| >= |parts|
    ensures |Split(Join(parts, sep), sep)| == |parts| <==> forall p :: p in parts ==> Free(p, sep)
  {
    OnePartIsFree(parts[0], sep);
    assert parts == [parts[0]] + parts[1..];
    if |parts| > 1 {
      SplitAtLeast(parts[1..], sep);
      SplitLengths(parts[0], Join(parts[1..], sep), sep);
    }
  }

  /** A separator-free list shares its key with no other list of its length. */
  lemma FreeKeyIsItsOwn(p: seq<string>, q: seq<string>, sep: char)
    requires p != [] && |p| == |q| && Join(p, sep) == Join(q, sep)
    requires forall x :: x in p ==> Free(x, sep)
    ensures p == q
  {
    SplitAtLeast(p, sep);
    SplitAtLeast(q, sep);
    SplitJoin(p, sep);
    SplitJoin(q, sep);
  }

  /** Separator-free lists print to different keys when they differ. */
  lemma JoinInjective(p: seq<string>, q: seq<string>, sep: char)
    requires p != [] && q != []
    requires forall x :: x in p + q ==> Free(x, sep)
    requires Join(p, sep) == Join(q, sep)
    ensures p == q
  {
    assert forall x :: x in p ==> x in p + q;
    assert forall x :: x in q ==> x in p + q;
    SplitJoin(p, sep);
    SplitJoin(q, sep);
  }
}
