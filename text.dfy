/** The Python `str` operations the pipeline relies on, over `seq<char>`:
    substring search, `split(sep)[k]`, `strip()`, ASCII case mapping,
    `replace(" ", "_")`, and decimal numerals (the model's timestamps). */
module Text {
  import opened Common

  /** `pat` occurs in `s` starting at index `i`. */
  predicate IsAt(s: string, pat: string, i: nat) {
    i + |pat| <= |s| && s[i..i + |pat|] == pat
  }

  predicate Contains(s: string, pat: string) {
    exists i :: 0 <= i <= |s| && IsAt(s, pat, i)
  }

  /** Leftmost occurrence of `pat` in `s` at or after `from` (`str.find`). */
  function Find(s: string, pat: string, from: nat): (r: Option<nat>)
    decreases |s| - from
    ensures r.Some? ==> from <= r.value && IsAt(s, pat, r.value)
    ensures r.Some? ==> forall j: nat :: from <= j < r.value ==> !IsAt(s, pat, j)
    ensures r.None? ==> forall j: nat :: from <= j ==> !IsAt(s, pat, j)
  {
    if from + |pat| > |s| then None
    else if s[from..from + |pat|] == pat then Some(from)
    else Find(s, pat, from + 1)
  }

  /** Rightmost occurrence of `pat` in `s` at or before `upto` (`str.rfind`). */
  function FindLast(s: string, pat: string, upto: nat): (r: Option<nat>)
    decreases upto
    ensures r.Some? ==> r.value <= upto && IsAt(s, pat, r.value)
    ensures r.Some? ==> forall j: nat :: r.value < j <= upto ==> !IsAt(s, pat, j)
    ensures r.None? ==> forall j: nat :: j <= upto ==> !IsAt(s, pat, j)
  {
    if IsAt(s, pat, upto) then Some(upto)
    else if upto == 0 then None
    else FindLast(s, pat, upto - 1)
  }

  lemma FindNone(s: string, pat: string)
    requires !Contains(s, pat)
    ensures Find(s, pat, 0) == None
  {
  }

  lemma FindSome(s: string, pat: string, k: nat)
    requires IsAt(s, pat, k)
    requires forall j: nat :: j < k ==> !IsAt(s, pat, j)
    ensures Find(s, pat, 0) == Some(k)
  {
  }

  /** Python `s.split(sep)[0]`: the text before the first `sep`, or all of `s`. */
  function SplitHead(s: string, sep: string): (r: string)
    requires sep != []
    ensures |r| <= |s|
  {
    match Find(s, sep, 0)
    case None => s
    case Some(k) => s[..k]
  }

  /** `split(sep)[0]` is a prefix of the text. */
  lemma SplitHeadIsPrefix(s: string, sep: string)
    requires sep != []
    ensures SplitHead(s, sep) == s[..|SplitHead(s, sep)|]
  {
  }

  /** `split(sep)[0]` holds no separator and ends where the first one starts, or at the end. */
  lemma SplitHeadStopsAtSeparator(s: string, sep: string)
    requires sep != []
    ensures !Contains(SplitHead(s, sep), sep)
    ensures SplitHead(s, sep) == s || IsAt(s, sep, |SplitHead(s, sep)|)
  {
    var h := SplitHead(s, sep);
    match Find(s, sep, 0)
    case None =>
    case Some(k) =>
      assert h == s[..k];
      forall j: nat | j <= |h| ensures !IsAt(h, sep, j) {
        if j + |sep| <= |h| {
          assert h[j..j + |sep|] == s[j..j + |sep|];
          assert !IsAt(s, sep, j);
        }
      }
  }

  /** Python `s.split(sep)[1]`: the text between the first and the second
      `sep` (or the end); `None` where Python raises `IndexError`. */
  function SplitSecond(s: string, sep: string): (r: Option<string>)
    requires sep != []
  {
    match Find(s, sep, 0)
    case None => None
    case Some(k) => Some(SplitHead(s[k + |sep|..], sep))
  }

  /** `split(sep)[0]` of a text without the separator is the whole text. */
  lemma SplitHeadWhole(s: string, sep: string)
    requires sep != [] && !Contains(s, sep)
    ensures SplitHead(s, sep) == s
  {
    FindNone(s, sep);
  }

  /** `split(sep)[1]` is the text after the first separator, up to the next one. */
  lemma SplitSecondAt(s: string, sep: string, k: nat)
    requires sep != [] && Find(s, sep, 0) == Some(k) && k + |sep| <= |s|
    ensures SplitSecond(s, sep) == Some(SplitHead(s[k + |sep|..], sep))
  {
  }

  /** `split(sep)[1]` exists exactly when the separator occurs. */
  lemma SplitSecondNone(s: string, sep: string)
    requires sep != []
    ensures SplitSecond(s, sep).None? <==> !Contains(s, sep)
  {
  }

  /** Python `s.rsplit(sep, 1)[1]`: the text after the last `sep`. */
  function AfterLast(s: string, sep: string): (r: Option<string>)
    requires sep != []
    ensures r.None? <==> !Contains(s, sep)
    ensures r.Some? ==> !Contains(r.value, sep)
  {
    if |s| < |sep| then
      assert forall j: nat :: !IsAt(s, sep, j);
      None
    else
      match FindLast(s, sep, |s| - |sep|)
      case None => None
      case Some(k) =>
        NothingAfterLast(s, sep, k);
        Some(s[k + |sep|..])
  }

  /** Past the last occurrence there is no other. */
  lemma NothingAfterLast(s: string, sep: string, k: nat)
    requires sep != [] && k + |sep| <= |s|
    requires forall j: nat :: k < j <= |s| - |sep| ==> !IsAt(s, sep, j)
    ensures !Contains(s[k + |sep|..], sep)
  {
    var tail := s[k + |sep|..];
    if Contains(tail, sep) {
      var j :| 0 <= j <= |tail| && IsAt(tail, sep, j);
      OccurrenceInSuffix(s, k + |sep|, sep, j);
      assert false;
    }
  }

  lemma OccurrenceInSuffix(s: string, a: nat, pat: string, j: nat)
    requires a <= |s| && IsAt(s[a..], pat, j)
    ensures IsAt(s, pat, a + j)
  {
    assert s[a + j..a + j + |pat|] == s[a..][j..j + |pat|];
  }

  /** The characters for which Python's `str.isspace()` holds. */
  predicate IsSpace(c: char) {
    c == ' ' || ('\t' <= c <= '\r') || ('\U{1C}' <= c <= '\U{1F}') || c == '\U{85}'
    || c == '\U{A0}' || c == '\U{1680}' || ('\U{2000}' <= c <= '\U{200A}')
    || c == '\U{2028}' || c == '\U{2029}' || c == '\U{202F}' || c == '\U{205F}' || c == '\U{3000}'
  }

  function StripLeft(s: string): (r: string)
    ensures |r| <= |s| && r == s[|s| - |r|..]
    ensures r == [] || !IsSpace(r[0])
    ensures forall k :: 0 <= k < |s| - |r| ==> IsSpace(s[k])
  {
    if s == [] || !IsSpace(s[0]) then s else StripLeft(s[1..])
  }

  function StripRight(s: string): (r: string)
    ensures |r| <= |s| && r == s[..|r|]
    ensures r == [] || !IsSpace(r[|r| - 1])
    ensures forall k :: |r| <= k < |s| ==> IsSpace(s[k])
  {
    if s == [] || !IsSpace(s[|s| - 1]) then s else StripRight(s[..|s| - 1])
  }

  /** Python `s.strip()`: the slice of `s` left after dropping whitespace at both ends. */
  function Strip(s: string): (r: string)
    ensures |r| <= |s|
    ensures r == [] || (!IsSpace(r[0]) && !IsSpace(r[|r| - 1]))
  {
    StripRight(StripLeft(s))
  }

  /** What `strip()` keeps is the slice `s[i..j]`, and only whitespace lies around it. */
  lemma StripIsSlice(s: string) returns (i: nat, j: nat)
    ensures i <= j <= |s| && Strip(s) == s[i..j]
    ensures forall k :: 0 <= k < i ==> IsSpace(s[k])
    ensures forall k :: j <= k < |s| ==> IsSpace(s[k])
  {
    var l := StripLeft(s);
    var r := StripRight(l);
    i, j := |s| - |l|, |s| - |l| + |r|;
    TakeOfDrop(s, i, |r|);
    forall k | j <= k < |s| ensures IsSpace(s[k]) {
      DropIndex(s, i, k);
    }
  }

  lemma TakeOfDrop<T>(s: seq<T>, i: nat, n: nat)
    requires i + n <= |s|
    ensures s[i..][..n] == s[i..i + n]
  {
  }

  lemma DropIndex<T>(s: seq<T>, i: nat, k: nat)
    requires i <= k < |s|
    ensures s[i..][k - i] == s[k]
  {
  }

  lemma StripNoSpace(s: string)
    requires forall k :: 0 <= k < |s| ==> !IsSpace(s[k])
    ensures Strip(s) == s
  {
  }

  function LowerChar(c: char): char {
    if 'A' <= c <= 'Z' then (c as int + 32) as char else c
  }

  function UpperChar(c: char): char {
    if 'a' <= c <= 'z' then (c as int - 32) as char else c
  }

  /** Python `s.lower()` restricted to ASCII letters. */
  function Lower(s: string): (r: string)
    ensures |r| == |s|
    ensures forall k :: 0 <= k < |s| ==> r[k] == LowerChar(s[k])
  {
    seq(|s|, k requires 0 <= k < |s| => LowerChar(s[k]))
  }

  /** Python `s.upper()` restricted to ASCII letters. */
  function Upper(s: string): (r: string)
    ensures |r| == |s|
    ensures forall k :: 0 <= k < |s| ==> r[k] == UpperChar(s[k])
  {
    seq(|s|, k requires 0 <= k < |s| => UpperChar(s[k]))
  }

  /** Python `s.replace(" ", "_")`. */
  function SpacesToUnderscores(s: string): (r: string)
    ensures |r| == |s|
    ensures forall k :: 0 <= k < |s| ==> r[k] == (if s[k] == ' ' then '_' else s[k])
  {
    seq(|s|, k requires 0 <= k < |s| => if s[k] == ' ' then '_' else s[k])
  }

  predicate IsDigit(c: char) {
    '0' <= c <= '9'
  }

  function DigitValue(c: char): nat
    requires IsDigit(c)
  {
    c as int - '0' as int
  }

  function DigitChar(d: nat): (c: char)
    requires d < 10
    ensures IsDigit(c) && DigitValue(c) == d
  {
    ('0' as int + d) as char
  }

  predicate AllDigits(s: string) {
    forall k :: 0 <= k < |s| ==> IsDigit(s[k])
  }

  function DigitsValue(s: string): nat
    requires AllDigits(s)
  {
    if s == [] then 0 else DigitsValue(s[..|s| - 1]) * 10 + DigitValue(s[|s| - 1])
  }

  /** A non-empty run of decimal digits denotes a natural number; anything else does not. */
  function ParseNat(s: string): (r: Option<nat>)
    ensures r.Some? <==> s != [] && AllDigits(s)
  {
    if s != [] && AllDigits(s) then Some(DigitsValue(s)) else None
  }

  /** Python `str(n)` for a natural number. */
  function NatToString(n: nat): (r: string)
    ensures r != [] && AllDigits(r)
  {
    if n < 10 then [DigitChar(n)] else NatToString(n / 10) + [DigitChar(n % 10)]
  }

  lemma {:induction false} NatToStringValue(n: nat)
    ensures DigitsValue(NatToString(n)) == n
  {
    if n >= 10 {
      var s := NatToString(n);
      assert s[..|s| - 1] == NatToString(n / 10);
      NatToStringValue(n / 10);
    }
  }

  /** Printing a number and reading it back gives the number. */
  lemma ParseNatToString(n: nat)
    ensures ParseNat(NatToString(n)) == Some(n)
  {
    NatToStringValue(n);
  }

  /** Code-point lexicographic order on strings (how NumPy sorts them). */
  predicate Less(a: string, b: string) {
    if a == [] then b != []
    else if b == [] then false
    else if a[0] != b[0] then a[0] < b[0]
    else Less(a[1..], b[1..])
  }

  lemma {:induction false} LessIrreflexive(a: string)
    ensures !Less(a, a)
  {
    if a != [] {
      LessIrreflexive(a[1..]);
    }
  }

  lemma {:induction false} LessTransitive(a: string, b: string, c: string)
    requires Less(a, b) && Less(b, c)
    ensures Less(a, c)
  {
    if a != [] && b != [] && c != [] && a[0] == b[0] == c[0] {
      LessTransitive(a[1..], b[1..], c[1..]);
    }
  }

  lemma {:induction false} LessTotal(a: string, b: string)
    requires a != b
    ensures Less(a, b) || Less(b, a)
  {
    if a != [] && b != [] && a[0] == b[0] {
      assert a == [a[0]] + a[1..] && b == [b[0]] + b[1..];
      LessTotal(a[1..], b[1..]);
    }
  }

  lemma {:induction false} LessAsymmetric(a: string, b: string)
    requires Less(a, b)
    ensures !Less(b, a)
  {
    if a != [] && b != [] && a[0] == b[0] {
      LessAsymmetric(a[1..], b[1..]);
    }
  }
}
