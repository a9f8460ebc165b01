/**
 * The few Python `str` operations the core relies on, written out so that their
 * corner cases are explicit: the exact character set of `str.isspace()` (which is
 * also the set `\s` matches in a `str` regular expression), `strip()`, the
 * argument-less `split()`, `sep.join(...)`, `startswith`, `str(int)`, and
 * `lower()` restricted to ASCII input.
 */
module PyText {

  /** Python's `str.isspace()` for one character. */
  predicate IsSpace(c: char) {
    || '\t' <= c <= '\r'
    || '\U{1C}' <= c <= '\U{1F}'
    || c == ' '
    || c == '\U{85}'
    || c == '\U{A0}'
    || c == '\U{1680}'
    || '\U{2000}' <= c <= '\U{200A}'
    || c == '\U{2028}'
    || c == '\U{2029}'
    || c == '\U{202F}'
    || c == '\U{205F}'
    || c == '\U{3000}'
  }

  predicate IsAsciiChar(c: char) {
    c < '\U{80}'
  }

  predicate IsAscii(s: string) {
    forall i :: 0 <= i < |s| ==> IsAsciiChar(s[i])
  }

  predicate IsUpperAscii(c: char) {
    'A' <= c <= 'Z'
  }

  predicate NoUpperAscii(s: string) {
    forall i :: 0 <= i < |s| ==> !IsUpperAscii(s[i])
  }

  predicate NoSpace(s: string) {
    forall i :: 0 <= i < |s| ==> !IsSpace(s[i])
  }

  predicate AllSpace(s: string) {
    forall i :: 0 <= i < |s| ==> IsSpace(s[i])
  }

  /** A string `strip()` leaves as it is. */
  predicate IsStripped(s: string) {
    s == "" || (!IsSpace(s[0]) && !IsSpace(s[|s| - 1]))
  }

  /** `lstrip()`: drops the leading whitespace. */
  function TrimLeft(s: string): (r: string)
    ensures |r| <= |s| && r == s[|s| - |r|..]
    ensures AllSpace(s[..|s| - |r|])
    ensures r == "" || !IsSpace(r[0])
  {
    if s != "" && IsSpace(s[0]) then
      var t := s[1..];
      var r := TrimLeft(t);
      assert t[|t| - |r|..] == s[|s| - |r|..];
      var p, q := s[..|s| - |r|], t[..|t| - |r|];
      assert AllSpace(p) by {
        forall i | 0 <= i < |p| ensures IsSpace(p[i]) {
          if i > 0 {
            assert p[i] == q[i - 1];
          }
        }
      }
      r
    else
      assert s[..0] == [];
      s
  }

  /** `rstrip()`: drops the trailing whitespace. */
  function TrimRight(s: string): (r: string)
    ensures |r| <= |s| && r == s[..|r|]
    ensures AllSpace(s[|r|..])
    ensures r == "" || !IsSpace(r[|r| - 1])
  {
    if s != "" && IsSpace(s[|s| - 1]) then
      var t := s[..|s| - 1];
      var r := TrimRight(t);
      assert t[..|r|] == s[..|r|];
      var p, q := s[|r|..], t[|r|..];
      assert AllSpace(p) by {
        forall i | 0 <= i < |p| ensures IsSpace(p[i]) {
          if i < |q| {
            assert p[i] == q[i];
          }
        }
      }
      r
    else
      assert s[|s|..] == [];
      s
  }

  /** `strip()`: the slice of `s` between its leading and its trailing whitespace. */
  function Strip(s: string): (r: string)
    ensures IsStripped(r)
    ensures exists i, j :: 0 <= i <= j <= |s| && r == s[i..j] && AllSpace(s[..i]) && AllSpace(s[j..])
  {
    var l := TrimLeft(s);
    TrimRightOfSuffix(s, l);
    TrimRight(l)
  }

  /** Right-trimming the left-trimmed suffix `l` of `s` leaves a stripped slice of `s` between whitespace. */
  lemma TrimRightOfSuffix(s: string, l: string)
    requires |l| <= |s| && l == s[|s| - |l|..] && AllSpace(s[..|s| - |l|]) && (l == "" || !IsSpace(l[0]))
    ensures IsStripped(TrimRight(l))
    ensures exists i, j :: 0 <= i <= j <= |s| && TrimRight(l) == s[i..j] && AllSpace(s[..i]) && AllSpace(s[j..])
  {
    StripSlice(s, l, TrimRight(l));
  }

  /** The slice `strip()` keeps, and why it is stripped. */
  lemma StripSlice(s: string, l: string, r: string)
    requires |l| <= |s| && l == s[|s| - |l|..] && AllSpace(s[..|s| - |l|]) && (l == "" || !IsSpace(l[0]))
    requires |r| <= |l| && r == l[..|r|] && AllSpace(l[|r|..]) && (r == "" || !IsSpace(r[|r| - 1]))
    ensures IsStripped(r)
    ensures exists i, j :: 0 <= i <= j <= |s| && r == s[i..j] && AllSpace(s[..i]) && AllSpace(s[j..])
  {
    var i := |s| - |l|;
    var j := i + |r|;
    assert l == s[i..];
    assert r == l[..|r|];
    forall k | 0 <= k < |r| ensures r[k] == s[i + k] {
      assert r[k] == l[k];
    }
    assert r == s[i..j];
    var tail := l[|r|..];
    assert AllSpace(tail);
    forall k | 0 <= k < |s| - j ensures s[j..][k] == tail[k] {
      assert tail[k] == l[|r| + k];
    }
    assert s[j..] == tail;
    assert 0 <= i <= j <= |s| && r == s[i..j] && AllSpace(s[..i]) && AllSpace(s[j..]);
  }

  lemma StripOfStripped(s: string)
    requires IsStripped(s)
    ensures Strip(s) == s
  {
  }

  /** Appending whitespace to a stripped string and stripping again gives the string back. */
  lemma StripAppendSpace(s: string)
    requires IsStripped(s)
    ensures Strip(s + " ") == s
  {
    var t := s + " ";
    assert t[..|t| - 1] == s;
    if s == "" {
      assert TrimLeft(t) == "";
    } else {
      assert TrimLeft(t) == t;
    }
  }

  /** A string is all whitespace exactly when `strip()` empties it. */
  lemma StripEmptyIffAllSpace(s: string)
    ensures Strip(s) == "" <==> AllSpace(s)
  {
    var l := TrimLeft(s);
    var r := TrimRight(l);
    assert Strip(s) == r;
    if r == "" {
      assert l[|r|..] == l;
      assert s[..|s| - |l|] == s;
    }
    if AllSpace(s) {
      AllSpaceSuffix(s, |s| - |l|);
    }
  }

  lemma AllSpaceSuffix(s: string, i: nat)
    requires AllSpace(s) && i <= |s|
    ensures AllSpace(s[i..])
  {
    var t := s[i..];
    forall k | 0 <= k < |t| ensures IsSpace(t[k]) {
      assert t[k] == s[i + k];
    }
  }

  /** The maximal run of non-whitespace characters at the start of `s`. */
  function Word(s: string): (w: string)
    ensures |w| <= |s| && w == s[..|w|]
    ensures NoSpace(w)
    ensures |w| < |s| ==> IsSpace(s[|w|])
  {
    if s == "" || IsSpace(s[0]) then "" else [s[0]] + Word(s[1..])
  }

  /** What `split()` (no separator) returns: non-empty, whitespace-free tokens. */
  predicate IsToken(t: string) {
    t != "" && NoSpace(t)
  }

  /** Python's `s.split()`: whitespace runs separate tokens and empty tokens are dropped. */
  function Split(s: string): (r: seq<string>)
    ensures forall k :: 0 <= k < |r| ==> IsToken(r[k])
    decreases |s|
  {
    var t := TrimLeft(s);
    if t == "" then []
    else
      var w := Word(t);
      assert w != "" by {
        assert !IsSpace(t[0]);
      }
      var rest := Split(t[|w|..]);
      var r := [w] + rest;
      assert IsToken(r[0]);
      forall k | 0 < k < |r| ensures IsToken(r[k]) {
        assert r[k] == rest[k - 1];
      }
      r
  }

  /** `split()` finds no token exactly in an all-whitespace string. */
  lemma SplitEmptyIffAllSpace(s: string)
    ensures Split(s) == [] <==> AllSpace(s)
  {
    var t := TrimLeft(s);
    if t != "" {
      assert !IsSpace(s[|s| - |t|]);
    } else {
      assert s[..|s|] == s;
    }
  }

  /** On a string that does not start with whitespace the first token is its leading word. */
  lemma SplitHead(s: string)
    requires s != "" && !IsSpace(s[0])
    ensures Split(s) != [] && Split(s)[0] == Word(s)
  {
  }

  /** Python's `sep.join(xs)`. */
  function Join(sep: string, xs: seq<string>): (r: string)
    ensures xs == [] ==> r == ""
  {
    if xs == [] then ""
    else if |xs| == 1 then xs[0]
    else xs[0] + sep + Join(sep, xs[1..])
  }

  /** Joining two or more items: all but the last joined, the separator, and the last. */
  lemma {:induction false} JoinInit(sep: string, xs: seq<string>)
    requires |xs| >= 2
    ensures Join(sep, xs) == Join(sep, xs[..|xs| - 1]) + sep + xs[|xs| - 1]
  {
    var n := |xs|;
    var init, tail, last := xs[..n - 1], xs[1..], xs[n - 1];
    if n == 2 {
      assert init == [xs[0]];
    } else {
      var mid := tail[..n - 2];
      assert init[1..] == mid;
      assert tail[n - 2] == last;
      JoinInit(sep, tail);
      assert Join(sep, init) == xs[0] + sep + Join(sep, mid);
    }
  }

  /** `s.startswith(prefix)`. */
  predicate StartsWith(s: string, prefix: string) {
    |prefix| <= |s| && s[..|prefix|] == prefix
  }

  /** ASCII `lower()` of one character: a capital becomes its small letter, 32 code points up. */
  function LowerChar(c: char): (d: char)
    ensures !IsUpperAscii(d)
    ensures IsAsciiChar(c) ==> IsAsciiChar(d)
    ensures !IsUpperAscii(c) ==> d == c
    ensures IsUpperAscii(c) ==> d as int == c as int + 32 && 'a' <= d <= 'z'
  {
    if IsUpperAscii(c) then (c as int + 32) as char else c
  }

  /** `str.lower()`, exact on ASCII text (the only text it is applied to in the matcher). */
  function Lower(s: string): (r: string)
    ensures |r| == |s|
    ensures forall i :: 0 <= i < |s| ==> r[i] == LowerChar(s[i])
  {
    if s == "" then "" else [LowerChar(s[0])] + Lower(s[1..])
  }

  /** `s.replace(a, b)` for single characters. */
  function ReplaceChar(s: string, a: char, b: char): (r: string)
    ensures |r| == |s|
    ensures forall i :: 0 <= i < |s| ==> r[i] == if s[i] == a then b else s[i]
  {
    if s == "" then "" else [if s[0] == a then b else s[0]] + ReplaceChar(s[1..], a, b)
  }

  /** Lower-casing a string without upper-case ASCII letters leaves it as it is. */
  lemma LowerNoUpper(s: string)
    requires NoUpperAscii(s)
    ensures Lower(s) == s
  {
    var r := Lower(s);
    forall k | 0 <= k < |s| ensures r[k] == s[k] {
      assert !IsUpperAscii(s[k]);
    }
  }

  /** Replacing a character that does not occur leaves the string as it is. */
  lemma ReplaceAbsent(s: string, a: char, b: char)
    requires a !in s
    ensures ReplaceChar(s, a, b) == s
  {
    var r := ReplaceChar(s, a, b);
    forall k | 0 <= k < |s| ensures r[k] == s[k] {
      assert s[k] != a;
    }
  }

  function DigitChar(d: nat): (c: char)
    requires d < 10
    ensures '0' <= c <= '9' && c as int - '0' as int == d
  {
    ('0' as int + d) as char
  }

  /** The number a string of decimal digits denotes. */
  function DigitsValue(s: string): nat
    requires forall i :: 0 <= i < |s| ==> '0' <= s[i] <= '9'
  {
    if s == "" then 0 else DigitsValue(s[..|s| - 1]) * 10 + (s[|s| - 1] as int - '0' as int)
  }

  /** `str(n)` for a natural number: decimal digits, without a leading zero. */
  function NatToString(n: nat): (r: string)
    ensures r != []
    ensures forall i :: 0 <= i < |r| ==> '0' <= r[i] <= '9'
    ensures n > 0 ==> r[0] != '0'
  {
    if n < 10 then [DigitChar(n)] else NatToString(n / 10) + [DigitChar(n % 10)]
  }

  /** Reading the digits of `str(n)` back gives `n`. */
  lemma {:induction false} NatToStringValue(n: nat)
    ensures DigitsValue(NatToString(n)) == n
  {
    var r := NatToString(n);
    if n >= 10 {
      NatToStringValue(n / 10);
      assert r[..|r| - 1] == NatToString(n / 10);
    } else {
      assert r[..0] == "";
    }
  }

  /** `str(i)` for a Python `int`: a minus sign exactly for a negative number, then the digits of its magnitude. */
  function IntToString(i: int): (r: string)
    ensures r != "" && (r[0] == '-' <==> i < 0)
    ensures var digits := if i < 0 then r[1..] else r;
            && digits != [] && (forall k :: 0 <= k < |digits| ==> '0' <= digits[k] <= '9')
            && DigitsValue(digits) == if i < 0 then -i else i
  {
    var n: nat := if i < 0 then -i else i;
    NatToStringValue(n);
    if i < 0 then
      var r := "-" + NatToString(n);
      assert r[1..] == NatToString(n);
      r
    else NatToString(n)
  }
}
