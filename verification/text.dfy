/** Character classes, decimal rendering (`std::to_string`), decimal parsing
    (`std::stoi`) and substring search (`std::string::find`), as the C++
    standard library defines them in the "C" locale. */
module Text {
  import opened Results

  // ---------------------------------------------------------------------
  // Character classes (<cctype> in the "C" locale)
  // ---------------------------------------------------------------------

  predicate IsDigit(c: char) { '0' <= c <= '9' }
  predicate IsUpper(c: char) { 'A' <= c <= 'Z' }
  predicate IsLower(c: char) { 'a' <= c <= 'z' }
  predicate IsAlpha(c: char) { IsUpper(c) || IsLower(c) }

  /** `isAlphaNumeric` of the lexer: `isalnum(c) || c == '_'`. */
  predicate IsWordChar(c: char) { IsAlpha(c) || IsDigit(c) || c == '_' }

  /** `isspace`: space, \t, \n, \v, \f, \r. */
  predicate IsSpace(c: char) {
    c == ' ' || c == '\t' || c == '\n' || c == '\U{000B}' || c == '\U{000C}' || c == '\r'
  }

  predicate AllDigits(s: string) {
    forall i :: 0 <= i < |s| ==> IsDigit(s[i])
  }

  /** `n` spaces, the `std::string(indent, ' ')` of the AST printers. */
  function Spaces(n: nat): (s: string)
    ensures |s| == n && forall i :: 0 <= i < n ==> s[i] == ' '
  {
    seq(n, _ => ' ')
  }

  /** The character at `i`, or '\0' when `i == |s|`: `std::string::operator[]`
      at `size()` yields the terminating NUL, which the C++ code relies on. */
  function CharAtOrNul(s: string, i: nat): char {
    if i < |s| then s[i] else '\0'
  }

  /** Regrouping a concatenation, proved apart from any larger context. */
  lemma Assoc<T>(x: seq<T>, y: seq<T>, z: seq<T>)
    ensures x + (y + z) == (x + y) + z
  {
  }

  // ---------------------------------------------------------------------
  // Decimal rendering (std::to_string of an int)
  // ---------------------------------------------------------------------

  function DigitChar(d: nat): char
    requires d < 10
  {
    ('0' as int + d) as char
  }

  function DigitValue(c: char): nat
    requires IsDigit(c)
  {
    c as int - '0' as int
  }

  /** The value of a run of decimal digits, read most significant first. */
  function DigitsValue(s: string): nat
    requires AllDigits(s)
  {
    if |s| == 0 then 0 else DigitsValue(s[..|s| - 1]) * 10 + DigitValue(s[|s| - 1])
  }

  function Digits(n: nat): (s: string)
    ensures |s| >= 1 && AllDigits(s)
  {
    if n < 10 then [DigitChar(n)] else Digits(n / 10) + [DigitChar(n % 10)]
  }

  /** `std::to_string(n)`: an optional minus sign followed by the digits of |n|. */
  function Decimal(n: int): (s: string)
    ensures |s| >= 1
    ensures n >= 0 <==> IsDigit(s[0])
    ensures n < 0 <==> s[0] == '-'
  {
    if n < 0 then "-" + Digits(-n) else Digits(n)
  }

  lemma {:induction false} DigitsValueOfDigits(n: nat)
    ensures DigitsValue(Digits(n)) == n
    decreases n
  {
    if n >= 10 {
      DigitsValueOfDigits(n / 10);
      var s := Digits(n);
      assert s[..|s| - 1] == Digits(n / 10);
    }
  }

  // ---------------------------------------------------------------------
  // Decimal parsing (std::stoi)
  // ---------------------------------------------------------------------

  const IntMin: int := -0x8000_0000
  const IntMax: int := 0x7FFF_FFFF

  /** The end of the longest run of digits starting at `i`. */
  function DigitRunEnd(s: string, i: nat): (j: nat)
    requires i <= |s|
    ensures i <= j <= |s| && AllDigits(s[i..j])
    ensures j < |s| ==> !IsDigit(s[j])
    decreases |s| - i
  {
    if i < |s| && IsDigit(s[i]) then
      var j := DigitRunEnd(s, i + 1);
      assert s[i..j] == [s[i]] + s[i + 1..j];
      j
    else i
  }

  function SkipSpaces(s: string, i: nat): (j: nat)
    requires i <= |s|
    ensures i <= j <= |s|
    ensures forall k :: i <= k < j ==> IsSpace(s[k])
    ensures j < |s| ==> !IsSpace(s[j])
    decreases |s| - i
  {
    if i < |s| && IsSpace(s[i]) then SkipSpaces(s, i + 1) else i
  }

  /** `std::stoi(s)`: leading white space, an optional sign, then the longest
      run of decimal digits; `None` where stoi throws (no digits, or a value
      outside the 32-bit range). */
  function StoI(s: string): (r: Option<int>)
    ensures r.Some? ==> IntMin <= r.value <= IntMax
  {
    var i := SkipSpaces(s, 0);
    var neg := i < |s| && s[i] == '-';
    var start := if i < |s| && (s[i] == '-' || s[i] == '+') then i + 1 else i;
    var end := DigitRunEnd(s, start);
    if end == start then None
    else
      var mag: int := DigitsValue(s[start..end]);
      var v := if neg then -mag else mag;
      if IntMin <= v <= IntMax then Some(v) else None
  }

  lemma {:induction false} DigitRunOfDigits(s: string, i: nat)
    requires i <= |s| && AllDigits(s[i..])
    ensures DigitRunEnd(s, i) == |s|
    decreases |s| - i
  {
    if i < |s| {
      assert s[i..][0] == s[i];
      assert s[i + 1..] == s[i..][1..];
      DigitRunOfDigits(s, i + 1);
    }
  }

  /** A run of digits from `i` to `k` followed by a non-digit (or the end)
      is exactly the run `DigitRunEnd` finds. */
  lemma {:induction false} DigitRunStops(s: string, i: nat, k: nat)
    requires i <= k <= |s| && AllDigits(s[i..k])
    requires k < |s| ==> !IsDigit(s[k])
    ensures DigitRunEnd(s, i) == k
    decreases k - i
  {
    if i < k {
      assert s[i..k][0] == s[i];
      assert s[i + 1..k] == s[i..k][1..];
      DigitRunStops(s, i + 1, k);
    }
  }

  /** `std::stoi` reads back what `std::to_string` writes, for every value
      of the 32-bit range. */
  lemma StoIDecimal(n: int)
    requires IntMin <= n <= IntMax
    ensures StoI(Decimal(n)) == Some(n)
  {
    if n < 0 {
      StoINegative(n);
    } else {
      StoINonNegative(n);
    }
  }

  lemma StoINegative(n: int)
    requires IntMin <= n < 0
    ensures StoI(Decimal(n)) == Some(n)
  {
    var s := Decimal(n);
    assert SkipSpaces(s, 0) == 0;
    DigitsValueOfDigits(-n);
    assert s[1..] == Digits(-n);
    DigitRunOfDigits(s, 1);
    assert s[1..|s|] == Digits(-n);
  }

  lemma StoINonNegative(n: int)
    requires 0 <= n <= IntMax
    ensures StoI(Decimal(n)) == Some(n)
  {
    var s := Decimal(n);
    assert SkipSpaces(s, 0) == 0;
    DigitsValueOfDigits(n);
    assert s[0..] == s;
    DigitRunOfDigits(s, 0);
    assert s[0..|s|] == s;
  }

  // ---------------------------------------------------------------------
  // Substring search (std::string::find)
  // ---------------------------------------------------------------------

  predicate OccursAt(s: string, n: string, i: int) {
    0 <= i && i + |n| <= |s| && s[i..i + |n|] == n
  }

  /** `n` occurs somewhere in `s`. */
  predicate Occurs(s: string, n: string) {
    exists i :: 0 <= i <= |s| && OccursAt(s, n, i)
  }

  /** `s.find(n, from)`: the first position at or after `from` where `n`
      occurs, or `None` for `npos`. An empty needle is found at `from`
      whenever `from <= |s|`. */
  function Find(s: string, n: string, from: nat): (r: Option<nat>)
    ensures r.Some? ==> from <= r.value && OccursAt(s, n, r.value)
    decreases |s| - from
  {
    if from + |n| > |s| then None
    else if s[from..from + |n|] == n then Some(from)
    else Find(s, n, from + 1)
  }

  /** `Find` returns the first occurrence, and `None` only when there is
      none at or after `from`. */
  lemma {:induction false} FindIsFirst(s: string, n: string, from: nat)
    ensures Find(s, n, from).Some? ==> forall j :: from <= j < Find(s, n, from).value ==> !OccursAt(s, n, j)
    ensures Find(s, n, from).None? ==> forall j :: from <= j ==> !OccursAt(s, n, j)
    decreases |s| - from
  {
    if from + |n| <= |s| && s[from..from + |n|] != n {
      FindIsFirst(s, n, from + 1);
    }
  }
}
