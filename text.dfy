/**
 * String primitives shared by the PHP and JavaScript parts of the plugin:
 * explode/split and implode/join on one delimiter, PHP trim, PHP string
 * truthiness, array_filter, substring search, decimal rendering of integers
 * and the leading-integer reading done by PHP intval and JS parseInt.
 */
module Text {
  import opened Wrappers

  /** PHP truthiness of a string: "" and "0" are falsy, so `empty($s)` is `!Truthy(s)`. */
  predicate Truthy(s: string) {
    s != "" && s != "0"
  }

  // ---------------------------------------------------------------- split / join

  /** explode($d, $s) in PHP and s.split(d) in JS for a one-character delimiter. */
  function Split(s: string, d: char): (r: seq<string>)
    ensures |r| >= 1
    ensures forall k :: 0 <= k < |r| ==> d !in r[k]
    decreases |s|
  {
    if |s| == 0 then [""]
    else if s[0] == d then [""] + Split(s[1..], d)
    else
      var rest := Split(s[1..], d);
      [[s[0]] + rest[0]] + rest[1..]
  }

  /** implode($d, $xs) in PHP and xs.join(d) in JS. */
  function Join(xs: seq<string>, d: char): string
  {
    if |xs| == 0 then ""
    else if |xs| == 1 then xs[0]
    else xs[0] + [d] + Join(xs[1..], d)
  }

  /** No element of the list contains the delimiter. */
  predicate FreeOf(xs: seq<string>, d: char) {
    forall k :: 0 <= k < |xs| ==> d !in xs[k]
  }

  /** Joining the pieces of a split gives back the original string. */
  lemma {:induction false} JoinSplit(s: string, d: char)
    ensures Join(Split(s, d), d) == s
    decreases |s|
  {
    if |s| == 0 {
    } else if s[0] == d {
      var rest := Split(s[1..], d);
      JoinSplit(s[1..], d);
      assert ([""] + rest)[1..] == rest;
      assert s == [d] + s[1..];
    } else {
      var rest := Split(s[1..], d);
      JoinSplit(s[1..], d);
      var first := [s[0]] + rest[0];
      if |rest| == 1 {
        assert s == [s[0]] + s[1..];
      } else {
        var r := [first] + rest[1..];
        assert r[1..] == rest[1..];
        assert Join(rest, d) == rest[0] + [d] + Join(rest[1..], d);
        assert s == [s[0]] + s[1..];
      }
    }
  }

  /** A string without the delimiter splits into itself alone. */
  lemma {:induction false} SplitFree(x: string, d: char)
    requires d !in x
    ensures Split(x, d) == [x]
    decreases |x|
  {
    if |x| > 0 {
      SplitFree(x[1..], d);
      assert [x[0]] + x[1..] == x;
    }
  }

  /** Splitting `x d r` with `x` free of the delimiter yields `x` followed by the pieces of `r`. */
  lemma {:induction false} SplitCons(x: string, r: string, d: char)
    requires d !in x
    ensures Split(x + [d] + r, d) == [x] + Split(r, d)
    decreases |x|
  {
    var s := x + [d] + r;
    if |x| == 0 {
      assert s == [d] + r;
      assert s[1..] == r;
    } else {
      assert s[0] == x[0];
      assert s[1..] == x[1..] + [d] + r;
      SplitCons(x[1..], r, d);
      assert [x[0]] + x[1..] == x;
    }
  }

  /** Splitting a join gives back the list, when no element holds the delimiter. */
  lemma {:induction false} SplitJoin(xs: seq<string>, d: char)
    requires |xs| >= 1 && FreeOf(xs, d)
    ensures Split(Join(xs, d), d) == xs
    decreases |xs|
  {
    if |xs| == 1 {
      SplitFree(xs[0], d);
    } else {
      assert d !in xs[0];
      SplitJoin(xs[1..], d);
      SplitCons(xs[0], Join(xs[1..], d), d);
      assert [xs[0]] + xs[1..] == xs;
    }
  }

  /** The joined string contains the delimiter only between elements. */
  lemma {:induction false} JoinFree(xs: seq<string>, d: char, e: char)
    requires FreeOf(xs, e) && d != e
    ensures e !in Join(xs, d)
    decreases |xs|
  {
    if |xs| > 1 {
      JoinFree(xs[1..], d, e);
      assert e !in xs[0];
    }
  }

  // ---------------------------------------------------------------- filters

  /** array_filter on a list of strings: drops every falsy element ("" and "0"), keeps order. */
  function KeepTruthy(xs: seq<string>): (r: seq<string>)
    ensures |r| <= |xs|
    ensures forall k :: 0 <= k < |r| ==> Truthy(r[k])
    ensures forall k :: 0 <= k < |r| ==> r[k] in xs
    ensures forall x :: x in xs && Truthy(x) ==> x in r
  {
    if |xs| == 0 then []
    else if Truthy(xs[0]) then [xs[0]] + KeepTruthy(xs[1..])
    else KeepTruthy(xs[1..])
  }

  /** array_filter leaves a list of truthy strings as it is. */
  lemma {:induction false} KeepTruthyAll(xs: seq<string>)
    requires forall k :: 0 <= k < |xs| ==> Truthy(xs[k])
    ensures KeepTruthy(xs) == xs
    decreases |xs|
  {
    if |xs| > 0 {
      KeepTruthyAll(xs[1..]);
      assert [xs[0]] + xs[1..] == xs;
    }
  }

  /** An element-wise map over a list of strings (array_map). */
  function MapAll(f: string -> string, xs: seq<string>): (r: seq<string>)
    ensures |r| == |xs|
    ensures forall k :: 0 <= k < |xs| ==> r[k] == f(xs[k])
  {
    if |xs| == 0 then [] else [f(xs[0])] + MapAll(f, xs[1..])
  }

  // ---------------------------------------------------------------- trim

  /** The characters PHP trim() removes by default: " \t\n\r\0\x0B". */
  predicate IsTrimSpace(c: char) {
    c == ' ' || c == '\t' || c == '\n' || c == '\r' || c == '\U{0}' || c == '\U{B}'
  }

  function TrimLeft(s: string): (r: string)
    ensures |r| <= |s| && r == s[|s| - |r|..]
    ensures r == [] || !IsTrimSpace(r[0])
    ensures forall k :: 0 <= k < |s| - |r| ==> IsTrimSpace(s[k])
  {
    if |s| > 0 && IsTrimSpace(s[0]) then TrimLeft(s[1..]) else s
  }

  function TrimRight(s: string): (r: string)
    ensures |r| <= |s| && r == s[..|r|]
    ensures r == [] || !IsTrimSpace(r[|r| - 1])
    ensures forall k :: |r| <= k < |s| ==> IsTrimSpace(s[k])
  {
    if |s| > 0 && IsTrimSpace(s[|s| - 1]) then TrimRight(s[..|s| - 1]) else s
  }

  /** PHP trim(): drops the default whitespace at both ends and nothing else. */
  function Trim(s: string): (r: string)
    ensures exists i ::
              && OccursAt(r, s, i)
              && (forall k :: 0 <= k < i ==> IsTrimSpace(s[k]))
              && (forall k :: i + |r| <= k < |s| ==> IsTrimSpace(s[k]))
    ensures r == [] || (!IsTrimSpace(r[0]) && !IsTrimSpace(r[|r| - 1]))
  {
    var l := TrimLeft(s);
    var r := TrimRight(l);
    assert OccursAt(r, s, |s| - |l|);
    r
  }

  /** A string that neither starts nor ends with trim whitespace is what trim() returns. */
  predicate Trimmed(s: string) {
    s == [] || (!IsTrimSpace(s[0]) && !IsTrimSpace(s[|s| - 1]))
  }

  lemma TrimTrimmed(s: string)
    requires Trimmed(s)
    ensures Trim(s) == s
  {
  }

  // ---------------------------------------------------------------- search

  predicate IsPrefix(p: string, s: string) {
    |p| <= |s| && s[..|p|] == p
  }

  /** strpos($s, $t) !== false, and JS s.indexOf(t) !== -1. */
  predicate Contains(s: string, t: string)
    decreases |s|
  {
    IsPrefix(t, s) || (|s| > 0 && Contains(s[1..], t))
  }

  /** `t` occurs in `s` starting at index `i`. */
  predicate OccursAt(t: string, s: string, i: int) {
    0 <= i && i + |t| <= |s| && s[i..i + |t|] == t
  }

  lemma {:induction false} ContainsFrom(s: string, t: string, i: int)
    requires OccursAt(t, s, i)
    ensures Contains(s, t)
    decreases i
  {
    if i > 0 {
      assert OccursAt(t, s[1..], i - 1);
      ContainsFrom(s[1..], t, i - 1);
    }
  }

  lemma {:induction false} ContainsWitness(s: string, t: string)
    requires Contains(s, t)
    ensures exists i :: OccursAt(t, s, i)
    decreases |s|
  {
    if IsPrefix(t, s) {
      assert OccursAt(t, s, 0);
    } else {
      ContainsWitness(s[1..], t);
      var i :| OccursAt(t, s[1..], i);
      assert OccursAt(t, s, i + 1);
    }
  }

  /** Contains means that the search term occurs at some position. */
  lemma ContainsAt(s: string, t: string)
    ensures Contains(s, t) <==> exists i :: OccursAt(t, s, i)
  {
    if Contains(s, t) {
      ContainsWitness(s, t);
    }
    forall i | OccursAt(t, s, i)
      ensures Contains(s, t)
    {
      ContainsFrom(s, t, i);
    }
  }

  /** A string contains itself and every string contains "". */
  lemma ContainsSelf(s: string, t: string)
    ensures Contains(s, s) && Contains(t, "")
  {
  }

  /** ASCII lower-casing of one character. */
  function LowerChar(c: char): char {
    if 'A' <= c <= 'Z' then (c as int + 32) as char else c
  }

  function Lower(s: string): (r: string)
    ensures |r| == |s|
    ensures forall k :: 0 <= k < |s| ==> r[k] == LowerChar(s[k])
  {
    if |s| == 0 then "" else [LowerChar(s[0])] + Lower(s[1..])
  }

  /** Case-insensitive substring match, as `col LIKE '%term%'` under the default collation. */
  predicate LikeAnywhere(s: string, term: string) {
    Contains(Lower(s), Lower(term))
  }

  /** The first index of `c` in `s`, or -1 (strpos / indexOf on one character). */
  function IndexOf(s: string, c: char): (r: int)
    ensures -1 <= r < |s|
    ensures r >= 0 ==> s[r] == c && c !in s[..r]
    ensures r == -1 <==> c !in s
  {
    if |s| == 0 then -1
    else if s[0] == c then 0
    else
      var k := IndexOf(s[1..], c);
      assert s[..k + 1 + 1] == [s[0]] + s[1..][..k + 1];
      if k == -1 then -1 else k + 1
  }

  // ---------------------------------------------------------------- integers

  predicate IsDigit(c: char) {
    '0' <= c <= '9'
  }

  function DigitChar(d: nat): (c: char)
    requires d < 10
    ensures IsDigit(c)
  {
    ('0' as int + d) as char
  }

  function DigitValue(c: char): (d: nat)
    requires IsDigit(c)
    ensures d < 10
  {
    c as int - '0' as int
  }

  predicate AllDigits(s: string) {
    forall k :: 0 <= k < |s| ==> IsDigit(s[k])
  }

  /** The decimal rendering PHP and JS give a non-negative integer. */
  function NatToString(n: nat): (r: string)
    ensures |r| >= 1 && AllDigits(r)
    decreases n
  {
    if n < 10 then [DigitChar(n)] else NatToString(n / 10) + [DigitChar(n % 10)]
  }

  /** The decimal rendering of any integer: a '-' sign before a negative one. */
  function IntToString(i: int): string {
    if i < 0 then "-" + NatToString(-i) else NatToString(i)
  }

  /** The value of a string of decimal digits. */
  function DigitsValue(s: string): nat
    requires AllDigits(s)
  {
    if |s| == 0 then 0 else DigitsValue(s[..|s| - 1]) * 10 + DigitValue(s[|s| - 1])
  }

  /** The longest run of digits at the start of `s`. */
  function LeadingDigits(s: string): (r: string)
    ensures AllDigits(r) && IsPrefix(r, s)
    ensures |r| < |s| ==> !IsDigit(s[|r|])
  {
    if |s| > 0 && IsDigit(s[0]) then [s[0]] + LeadingDigits(s[1..]) else ""
  }

  /** The whitespace PHP and JS skip before a number. */
  predicate IsNumberSpace(c: char) {
    c == ' ' || c == '\t' || c == '\n' || c == '\r' || c == '\U{B}' || c == '\U{C}'
  }

  function SkipSpace(s: string): (r: string)
    ensures |r| <= |s| && r == s[|s| - |r|..]
    ensures r == [] || !IsNumberSpace(r[0])
  {
    if |s| > 0 && IsNumberSpace(s[0]) then SkipSpace(s[1..]) else s
  }

  /** The value of the digits at the start of `u`, or None when it does not start with a digit. */
  function UnsignedLeading(u: string): Option<int> {
    var ds := LeadingDigits(u);
    if ds == "" then None else Some(DigitsValue(ds))
  }

  function Negate(v: Option<int>): Option<int> {
    match v
    case Some(x) => Some(-x)
    case None => None
  }

  /**
   * The base-10 integer at the start of `s` after optional whitespace and sign,
   * or None when no digit follows (where JS parseInt gives NaN and PHP intval 0).
   */
  function LeadingInt(s: string): Option<int> {
    var t := SkipSpace(s);
    if |t| > 0 && t[0] == '-' then Negate(UnsignedLeading(t[1..]))
    else if |t| > 0 && t[0] == '+' then UnsignedLeading(t[1..])
    else UnsignedLeading(t)
  }

  /** PHP intval() of a string. */
  function Intval(s: string): int {
    LeadingInt(s).GetOr(0)
  }

  /** JS `parseInt(s) || d`: the fallback replaces both NaN and 0. */
  function ParseIntOr(s: string, d: int): (r: int)
    ensures r == d || r != 0
  {
    match LeadingInt(s)
    case Some(v) => if v != 0 then v else d
    case None => d
  }

  /** A string that starts with neither space, sign nor digit holds no integer. */
  lemma IntvalNoNumber(s: string)
    requires |s| > 0 && !IsNumberSpace(s[0]) && s[0] != '-' && s[0] != '+' && !IsDigit(s[0])
    ensures LeadingInt(s) == None && Intval(s) == 0
  {
    SkipSpaceNone(s);
  }

  lemma {:induction false} LeadingDigitsAll(s: string)
    requires AllDigits(s)
    ensures LeadingDigits(s) == s
    decreases |s|
  {
    if |s| > 0 {
      LeadingDigitsAll(s[1..]);
      assert [s[0]] + s[1..] == s;
    }
  }

  lemma {:induction false} DigitsValueOfNat(n: nat)
    ensures DigitsValue(NatToString(n)) == n
    decreases n
  {
    if n < 10 {
      assert NatToString(n)[..0] == "";
    } else {
      var p := NatToString(n / 10);
      var s := p + [DigitChar(n % 10)];
      assert s[..|s| - 1] == p;
      DigitsValueOfNat(n / 10);
    }
  }

  /** A string that does not start with blank space is its own SkipSpace. */
  lemma SkipSpaceNone(s: string)
    requires |s| > 0 && !IsNumberSpace(s[0])
    ensures SkipSpace(s) == s
  {
  }

  /** The digits of a natural number read as that number. */
  lemma UnsignedOfNat(n: nat)
    ensures UnsignedLeading(NatToString(n)) == Some(n)
  {
    LeadingDigitsAll(NatToString(n));
    DigitsValueOfNat(n);
  }

  lemma LeadingIntOfNat(n: nat)
    ensures LeadingInt(IntToString(n)) == Some(n)
  {
    var ds := IntToString(n);
    assert ds == NatToString(n);
    assert IsDigit(ds[0]);
    SkipSpaceNone(ds);
    UnsignedOfNat(n);
  }

  lemma LeadingIntOfNegativeNat(n: nat)
    requires n > 0
    ensures LeadingInt(IntToString(-(n as int))) == Some(-(n as int))
  {
    var s := IntToString(-(n as int));
    assert s == "-" + NatToString(n);
    assert s[0] == '-';
    SkipSpaceNone(s);
    assert s[1..] == NatToString(n);
    UnsignedOfNat(n);
  }

  /** Reading back the decimal rendering of an integer gives that integer. */
  lemma LeadingIntOfString(i: int)
    ensures LeadingInt(IntToString(i)) == Some(i)
  {
    if i < 0 {
      LeadingIntOfNegativeNat(-i);
    } else {
      LeadingIntOfNat(i);
    }
  }

  /** PHP intval() reads back the decimal rendering of an integer. */
  lemma IntvalOfString(i: int)
    ensures Intval(IntToString(i)) == i
  {
    LeadingIntOfString(i);
  }

  /** A non-zero integer renders as a truthy string. */
  lemma NonzeroTruthy(i: int)
    requires i != 0
    ensures Truthy(IntToString(i))
  {
    if i < 0 {
      assert IntToString(i)[0] == '-';
    } else if i < 10 {
      assert IntToString(i) == [DigitChar(i)];
    } else {
      assert |IntToString(i)| >= 2;
    }
  }

  /** Decimal renderings contain no delimiter other than a digit or the minus sign. */
  lemma IntToStringFree(i: int, c: char)
    requires !IsDigit(c) && c != '-'
    ensures c !in IntToString(i)
  {
    if i < 0 {
      var ds := NatToString(-i);
      assert IntToString(i) == "-" + ds;
      assert forall k :: 0 <= k < |ds| ==> ds[k] != c;
    }
  }
}
