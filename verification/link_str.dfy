/** The string helpers behind the `str.*` natives (namespace SysString):
    pop, trim, replace, split, merge, substring, toLower and toUpper. */
module LinkStr {
  import opened Results
  import opened Text

  /** `pop`: the input without its last character; "" stays "". */
  function Pop(s: string): (r: string)
    ensures |s| == 0 ==> r == ""
    ensures |s| > 0 ==> |r| == |s| - 1 && r + [s[|s| - 1]] == s
  {
    if |s| == 0 then "" else s[..|s| - 1]
  }

  // ---------------------------------------------------------------------
  // trim
  // ---------------------------------------------------------------------

  /** The white space set of `trim`: " \t\n\r". */
  predicate IsTrimSpace(c: char) { c == ' ' || c == '\t' || c == '\n' || c == '\r' }

  /** `find_first_not_of(" \t\n\r")` from `i`, or |s| for npos. */
  function FirstNonSpace(s: string, i: nat): (j: nat)
    requires i <= |s|
    ensures i <= j <= |s|
    ensures forall k :: i <= k < j ==> IsTrimSpace(s[k])
    ensures j < |s| ==> !IsTrimSpace(s[j])
    decreases |s| - i
  {
    if i < |s| && IsTrimSpace(s[i]) then FirstNonSpace(s, i + 1) else i
  }

  /** One past `find_last_not_of(" \t\n\r")` within s[..e], or 0 for npos. */
  function EndNonSpace(s: string, e: nat): (j: nat)
    requires e <= |s|
    ensures j <= e
    ensures forall k :: j <= k < e ==> IsTrimSpace(s[k])
    ensures j > 0 ==> !IsTrimSpace(s[j - 1])
  {
    if e > 0 && IsTrimSpace(s[e - 1]) then EndNonSpace(s, e - 1) else e
  }

  /** `trim`: drops the leading and trailing characters of " \t\n\r". */
  function Trim(s: string): (r: string)
    ensures FirstNonSpace(s, 0) + |r| <= |s|
    ensures r == s[FirstNonSpace(s, 0)..FirstNonSpace(s, 0) + |r|]
    ensures |r| > 0 ==> !IsTrimSpace(r[0]) && !IsTrimSpace(r[|r| - 1])
    ensures forall k :: 0 <= k < FirstNonSpace(s, 0) ==> IsTrimSpace(s[k])
    ensures forall k :: FirstNonSpace(s, 0) + |r| <= k < |s| ==> IsTrimSpace(s[k])
    ensures r == "" <==> forall k :: 0 <= k < |s| ==> IsTrimSpace(s[k])
  {
    var first := FirstNonSpace(s, 0);
    if first == |s| then ""
    else
      var last := EndNonSpace(s, |s|);
      assert !IsTrimSpace(s[first]);
      s[first..last]
  }

  lemma TrimIdempotent(s: string)
    ensures Trim(Trim(s)) == Trim(s)
  {
    var t := Trim(s);
    if |t| > 0 {
      assert FirstNonSpace(t, 0) == 0;
      assert EndNonSpace(t, |t|) == |t|;
    }
  }

  // ---------------------------------------------------------------------
  // replace
  // ---------------------------------------------------------------------

  /** Every occurrence of `from`, scanning left to right and never looking
      again at text already produced, replaced by `to`; an empty `from`
      leaves the string alone. */
  function ReplaceAll(s: string, from: string, to: string): (r: string)
    ensures Find(s, from, 0).None? ==> r == s
    decreases |s|, 1
  {
    if |from| == 0 then s
    else match Find(s, from, 0)
      case None => s
      case Some(i) => ReplaceAt(s, from, to, i)
  }

  /** The occurrence at `i` replaced, and the text after it processed by
      `ReplaceAll`. */
  function ReplaceAt(s: string, from: string, to: string, i: nat): (r: string)
    requires 0 < |from| && i + |from| <= |s|
    ensures i + |to| <= |r| && r[..i] == s[..i] && r[i..i + |to|] == to
    decreases |s|, 0
  {
    s[..i] + to + ReplaceAll(s[i + |from|..], from, to)
  }

  /** Searching from `from` is searching the suffix that starts there. */
  lemma FindInSuffix(s: string, n: string, from: nat)
    requires from <= |s|
    ensures Find(s, n, from).Some? <==> Find(s[from..], n, 0).Some?
    ensures Find(s, n, from).Some? ==> Find(s, n, from).value == from + Find(s[from..], n, 0).value
  {
    var t := s[from..];
    forall j | 0 <= j
      ensures OccursAt(s, n, from + j) <==> OccursAt(t, n, j)
    {
      if j + |n| <= |t| {
        assert s[from + j..from + j + |n|] == t[j..j + |n|];
      }
    }
    FindIsFirst(s, n, from);
    FindIsFirst(t, n, 0);
    var r1 := Find(s, n, from);
    var r2 := Find(t, n, 0);
    if r1.Some? {
      assert OccursAt(t, n, r1.value - from);
    }
    if r2.Some? {
      assert OccursAt(s, n, from + r2.value);
    }
  }

  /** The loop state of `replace`: the text before `start` is final and the
      text from `start` on is the unprocessed suffix `rest` of the input. */
  ghost predicate ReplaceInv(s: string, from: string, to: string, str: string, start: nat, done: string, rest: string) {
    str == done + rest && start == |done| && done + ReplaceAll(rest, from, to) == ReplaceAll(s, from, to)
  }

  lemma Regroup(a: string, b: string, c: string, d: string)
    ensures a + (b + c + d) == (a + b + c) + d
  {
  }

  /** One round of the loop: replacing the match at `p` keeps the state. */
  lemma ReplaceStep(s: string, from: string, to: string, str: string, start: nat, done: string, rest: string,
                    p: nat, str': string, done': string, rest': string)
    requires |from| > 0 && ReplaceInv(s, from, to, str, start, done, rest)
    requires Find(str, from, start) == Some(p)
    requires start <= p && p + |from| <= |str|
    requires str' == str[..p] + to + str[p + |from|..]
    requires done' == done + rest[..p - start] + to && rest' == rest[p - start + |from|..]
    ensures ReplaceInv(s, from, to, str', p + |to|, done', rest')
  {
    MatchInRest(str, from, start, rest, p);
    ReplaceShape(str, from, to, start, done, rest, p, str', done', rest');
    ReplaceValue(rest, from, to, done, p - start, done', rest');
  }

  /** The match the loop finds in the buffer is the first match of the
      unprocessed suffix. */
  lemma MatchInRest(str: string, from: string, start: nat, rest: string, p: nat)
    requires start <= |str| && str[start..] == rest && Find(str, from, start) == Some(p)
    ensures start <= p && Find(rest, from, 0) == Some(p - start)
  {
    FindInSuffix(str, from, start);
  }

  /** The buffer after the replacement splits into the new final part and
      the new unprocessed suffix. */
  lemma ReplaceShape(str: string, from: string, to: string, start: nat, done: string, rest: string,
                     p: nat, str': string, done': string, rest': string)
    requires str == done + rest && start == |done| && start <= p && p + |from| <= |str|
    requires str' == str[..p] + to + str[p + |from|..]
    requires done' == done + rest[..p - start] + to && rest' == rest[p - start + |from|..]
    ensures str' == done' + rest' && p + |to| == |done'|
  {
    assert str[..p] == done + rest[..p - start];
    assert str[p + |from|..] == rest';
  }

  /** Replacing the first match of the suffix moves its prefix and `to`
      into the final part without changing the overall result. */
  lemma ReplaceValue(rest: string, from: string, to: string, done: string, j: nat, done': string, rest': string)
    requires |from| > 0 && Find(rest, from, 0) == Some(j)
    requires done' == done + rest[..j] + to && rest' == rest[j + |from|..]
    ensures done' + ReplaceAll(rest', from, to) == done + ReplaceAll(rest, from, to)
  {
    var tailDone := ReplaceAll(rest', from, to);
    assert ReplaceAll(rest, from, to) == rest[..j] + to + tailDone;
    Regroup(done, rest[..j], to, tailDone);
  }

  /** `replace`: the in-place loop of the source, which after each match
      resumes the search just past the inserted `to`. It computes
      `ReplaceAll`. */
  method Replace(s: string, from: string, to: string) returns (r: string)
    ensures r == ReplaceAll(s, from, to)
  {
    if |from| == 0 {
      return s;
    }
    var str := s;
    var start: nat := 0;
    ghost var done: string := "";
    ghost var rest: string := s;
    assert done + rest == s;
    while true
      invariant ReplaceInv(s, from, to, str, start, done, rest)
      decreases |rest|
    {
      var found := Find(str, from, start);
      if found.None? {
        FindInSuffix(str, from, start);
        assert str[start..] == rest;
        break;
      }
      var p := found.value;
      var str' := str[..p] + to + str[p + |from|..];
      ghost var done' := done + rest[..p - start] + to;
      ghost var rest' := rest[p - start + |from|..];
      ReplaceStep(s, from, to, str, start, done, rest, p, str', done', rest');
      str, start, done, rest := str', p + |to|, done', rest';
    }
    return str;
  }

  lemma ReplaceEmptyFrom(s: string, to: string)
    ensures ReplaceAll(s, "", to) == s
  {
  }

  /** The text inserted for one match is never searched again: after a
      leading match the result is `to` followed by the rest processed on
      its own, whatever `to` contains. So replacing "a" by "aa" doubles
      every "a" once instead of looping forever. */
  lemma ReplaceDoesNotRescan(s: string, from: string, to: string)
    requires |from| > 0
    ensures ReplaceAll(from + s, from, to) == to + ReplaceAll(s, from, to)
  {
  }

  // ---------------------------------------------------------------------
  // split and merge
  // ---------------------------------------------------------------------

  /** `split`: the pieces between successive occurrences of a non-empty
      delimiter, found left to right. */
  function Split(s: string, d: string): (r: seq<string>)
    requires |d| > 0
    ensures |r| >= 1
    ensures forall k :: 0 <= k < |r| ==> !Occurs(r[k], d)
    decreases |s|
  {
    match Find(s, d, 0)
    case None =>
      assert !Occurs(s, d) by { FindIsFirst(s, d, 0); }
      [s]
    case Some(i) =>
      var head := s[..i];
      assert !Occurs(head, d) by {
        FindIsFirst(s, d, 0);
        forall j | 0 <= j <= |head|
          ensures !OccursAt(head, d, j)
        {
          if j + |d| <= |head| {
            assert !OccursAt(s, d, j);
            assert head[j..j + |d|] == s[j..j + |d|];
          }
        }
      }
      [head] + Split(s[i + |d|..], d)
  }

  /** `merge`: the items joined with the delimiter between neighbours. */
  function Merge(items: seq<string>, d: string): string
  {
    if |items| == 0 then ""
    else if |items| == 1 then items[0]
    else items[0] + d + Merge(items[1..], d)
  }

  function TotalLength(items: seq<string>): nat {
    if |items| == 0 then 0 else |items[0]| + TotalLength(items[1..])
  }

  /** n items produce exactly n - 1 delimiters. */
  lemma {:induction false} MergeLength(items: seq<string>, d: string)
    requires |items| > 0
    ensures |Merge(items, d)| == TotalLength(items) + (|items| - 1) * |d|
    decreases |items|
  {
    if |items| > 1 {
      MergeLength(items[1..], d);
    }
  }

  /** Splitting and merging back with the same delimiter is the identity. */
  lemma {:induction false} MergeSplit(s: string, d: string)
    requires |d| > 0
    ensures Merge(Split(s, d), d) == s
    decreases |s|
  {
    match Find(s, d, 0)
    case None =>
    case Some(i) =>
      var rest := s[i + |d|..];
      var pieces := Split(rest, d);
      assert Split(s, d) == [s[..i]] + pieces;
      assert ([s[..i]] + pieces)[1..] == pieces;
      MergeSplit(rest, d);
      assert Merge(Split(s, d), d) == s[..i] + d + Merge(pieces, d);
      assert s[i..i + |d|] == d;
      assert s == s[..i] + d + rest;
  }

  // ---------------------------------------------------------------------
  // substring, toLower, toUpper
  // ---------------------------------------------------------------------

  /** `substring(str, start, length)`: "" for a start outside the string,
      otherwise `str.substr(start, length)`, which caps the length at the
      end of the string. A negative length converts to a huge `size_t` and
      so also runs to the end. */
  function Substring(s: string, start: int, length: int): (r: string)
    ensures start < 0 || start >= |s| ==> r == ""
    ensures 0 <= start < |s| && length >= 0 ==> r == s[start..if start + length < |s| then start + length else |s|]
    ensures 0 <= start < |s| && length < 0 ==> r == s[start..]
  {
    if start < 0 then ""
    else if start >= |s| then ""
    else if length < 0 || start + length >= |s| then s[start..]
    else s[start..start + length]
  }

  function LowerChar(c: char): char {
    if IsUpper(c) then (c as int + 32) as char else c
  }

  function UpperChar(c: char): char {
    if IsLower(c) then (c as int - 32) as char else c
  }

  /** `toLower`: ASCII upper-case letters become lower case, nothing else
      changes. */
  function ToLower(s: string): (r: string)
    ensures |r| == |s|
    ensures forall i :: 0 <= i < |s| ==> (IsUpper(s[i]) ==> r[i] as int == s[i] as int + 32)
    ensures forall i :: 0 <= i < |s| ==> (!IsUpper(s[i]) ==> r[i] == s[i])
  {
    seq(|s|, i requires 0 <= i < |s| => LowerChar(s[i]))
  }

  /** `toUpper`: ASCII lower-case letters become upper case, nothing else
      changes. */
  function ToUpper(s: string): (r: string)
    ensures |r| == |s|
    ensures forall i :: 0 <= i < |s| ==> (IsLower(s[i]) ==> r[i] as int == s[i] as int - 32)
    ensures forall i :: 0 <= i < |s| ==> (!IsLower(s[i]) ==> r[i] == s[i])
  {
    seq(|s|, i requires 0 <= i < |s| => UpperChar(s[i]))
  }

  lemma CaseIdempotent(s: string)
    ensures ToLower(ToLower(s)) == ToLower(s)
    ensures ToUpper(ToUpper(s)) == ToUpper(s)
    ensures ToLower(ToUpper(s)) == ToLower(s)
  {
  }
}
