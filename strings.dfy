/** String operations of the Python and JavaScript runtimes that the modelled
    code relies on: decimal rendering of integers (`str(n)`, `${n}`),
    `str.split` with a separator, `str.replace` of one character and
    `str.title` restricted to ASCII. */
module Strings {
  import opened Wrappers

  // ---------------------------------------------------------------------------
  // Decimal rendering

  predicate IsDigit(c: char)
  {
    '0' <= c <= '9'
  }

  predicate AllDigits(s: string)
  {
    forall i :: 0 <= i < |s| ==> IsDigit(s[i])
  }

  function DigitChar(d: nat): (c: char)
    requires d < 10
    ensures IsDigit(c) && c as int - '0' as int == d
  {
    (('0' as int) + d) as char
  }

  /** The value of a string of decimal digits, most significant first. */
  function DigitsValue(s: string): nat
    requires AllDigits(s)
  {
    if s == [] then 0
    else DigitsValue(s[..|s| - 1]) * 10 + (s[|s| - 1] as int - '0' as int)
  }

  /** `str(n)` for a non-negative Python int, `${n}` for a JavaScript integer. */
  function NatToString(n: nat): (r: string)
    ensures |r| >= 1 && AllDigits(r)
    ensures r[0] == '0' ==> r == "0"
  {
    if n < 10 then [DigitChar(n)] else NatToString(n / 10) + [DigitChar(n % 10)]
  }

  /** `str(i)` for any Python int: a leading minus sign for negative values. */
  function IntToString(i: int): (r: string)
    ensures |r| >= 1
    ensures i >= 0 ==> r == NatToString(i)
    ensures i < 0 ==> r[0] == '-' && r[1..] == NatToString(-i)
  {
    if i < 0 then "-" + NatToString(-i) else NatToString(i)
  }

  /** Reading the rendering back gives the number: rendering loses nothing. */
  lemma {:induction false} NatToStringRoundTrip(n: nat)
    ensures DigitsValue(NatToString(n)) == n
  {
    if n >= 10 {
      var s := NatToString(n);
      var front := NatToString(n / 10);
      assert s == front + [DigitChar(n % 10)];
      assert s[..|s| - 1] == front;
      NatToStringRoundTrip(n / 10);
    }
  }

  lemma NatToStringInjective(m: nat, n: nat)
    ensures NatToString(m) == NatToString(n) ==> m == n
  {
    NatToStringRoundTrip(m);
    NatToStringRoundTrip(n);
  }

  /** Distinct integers render differently: a rendering never starts with
      '-' unless the number is negative. */
  lemma IntToStringInjective(a: int, b: int)
    ensures IntToString(a) == IntToString(b) ==> a == b
  {
    if IntToString(a) == IntToString(b) {
      if a < 0 && b < 0 {
        NatToStringInjective(-a, -b);
      } else if a >= 0 && b >= 0 {
        NatToStringInjective(a, b);
      }
    }
  }

  // ---------------------------------------------------------------------------
  // Substring search, split and join

  predicate StartsWith(s: string, prefix: string)
  {
    |prefix| <= |s| && s[..|prefix|] == prefix
  }

  predicate EndsWith(s: string, suffix: string)
  {
    |suffix| <= |s| && s[|s| - |suffix|..] == suffix
  }

  predicate MatchAt(s: string, sep: string, i: nat)
  {
    i + |sep| <= |s| && s[i..i + |sep|] == sep
  }

  predicate Contains(s: string, sep: string)
  {
    exists i: nat | i <= |s| :: MatchAt(s, sep, i)
  }

  /** The leftmost occurrence of `sep` in `s`, as `str.find` scans. */
  function Find(s: string, sep: string): (r: Option<nat>)
    ensures r.Some? ==> MatchAt(s, sep, r.value)
    ensures r.Some? ==> forall j: nat :: j < r.value ==> !MatchAt(s, sep, j)
    ensures r.None? <==> !Contains(s, sep)
    decreases |s|
  {
    if |s| < |sep| then
      assert forall i: nat :: !MatchAt(s, sep, i);
      None
    else if s[..|sep|] == sep then
      assert MatchAt(s, sep, 0);
      Some(0)
    else
      var rest := Find(s[1..], sep);
      assert forall i: nat :: MatchAt(s, sep, i + 1) <==> MatchAt(s[1..], sep, i) by {
        forall i: nat ensures MatchAt(s, sep, i + 1) <==> MatchAt(s[1..], sep, i) {
          if i + 1 + |sep| <= |s| {
            assert s[1..][i..i + |sep|] == s[i + 1..i + 1 + |sep|];
          }
        }
      }
      assert !MatchAt(s, sep, 0);
      match rest
      case None =>
        assert forall i: nat :: !MatchAt(s, sep, i) by {
          forall i: nat ensures !MatchAt(s, sep, i) {
            if i > 0 {
              assert !MatchAt(s[1..], sep, i - 1);
            }
          }
        }
        None
      case Some(k) =>
        assert forall j: nat :: j < k + 1 ==> !MatchAt(s, sep, j) by {
          forall j: nat | j < k + 1 ensures !MatchAt(s, sep, j) {
            if j > 0 {
              assert !MatchAt(s[1..], sep, j - 1);
            }
          }
        }
        Some(k + 1)
  }

  /** `sep.join(parts)`; the empty list joins to "". */
  function Join(parts: seq<string>, sep: string): string
  {
    if |parts| == 0 then ""
    else if |parts| == 1 then parts[0]
    else parts[0] + sep + Join(parts[1..], sep)
  }

  lemma PrefixHasNoMatch(s: string, sep: string, i: nat)
    requires |sep| > 0 && i <= |s|
    requires forall j: nat :: j < i ==> !MatchAt(s, sep, j)
    ensures !Contains(s[..i], sep)
  {
    forall j: nat ensures !MatchAt(s[..i], sep, j) {
      if MatchAt(s[..i], sep, j) {
        assert s[..i][j..j + |sep|] == s[j..j + |sep|];
        assert MatchAt(s, sep, j);
      }
    }
  }

  /** `s.split(sep)` for a non-empty separator (Python raises ValueError on
      an empty one). The pieces join back to `s` and none holds `sep`. */
  function Split(s: string, sep: string): (r: seq<string>)
    requires |sep| > 0
    ensures |r| >= 1
    ensures forall i :: 0 <= i < |r| ==> !Contains(r[i], sep)
    ensures Join(r, sep) == s
    decreases |s|
  {
    match Find(s, sep)
    case None => [s]
    case Some(i) =>
      var rest := Split(s[i + |sep|..], sep);
      PrefixHasNoMatch(s, sep, i);
      var r := [s[..i]] + rest;
      assert r[1..] == rest;
      assert s == s[..i] + sep + s[i + |sep|..] by {
        assert s[i..i + |sep|] == sep;
      }
      r
  }

  lemma SingleCharMatch(s: string, c: char, i: nat)
    ensures MatchAt(s, [c], i) <==> i < |s| && s[i] == c
  {
    if i < |s| {
      assert s[i..i + 1] == [s[i]];
    }
  }

  /** For a one-character separator, splitting undoes joining whenever no
      piece contains the separator. */
  lemma {:induction false} SplitJoin(parts: seq<string>, c: char)
    requires |parts| >= 1
    requires forall i, k :: 0 <= i < |parts| && 0 <= k < |parts[i]| ==> parts[i][k] != c
    ensures Split(Join(parts, [c]), [c]) == parts
    decreases |parts|
  {
    var s := Join(parts, [c]);
    if |parts| == 1 {
      assert s == parts[0];
      forall j: nat ensures !MatchAt(s, [c], j) {
        SingleCharMatch(s, c, j);
      }
      assert Find(s, [c]).None?;
    } else {
      var p := parts[0];
      var tail := Join(parts[1..], [c]);
      assert s == p + [c] + tail;
      SingleCharMatch(s, c, |p|);
      forall j: nat | j < |p| ensures !MatchAt(s, [c], j) {
        SingleCharMatch(s, c, j);
        assert s[j] == p[j];
      }
      var f := Find(s, [c]);
      assert f.Some?;
      if f.value < |p| {
        assert false;
      }
      assert f.value == |p|;
      assert s[|p| + 1..] == tail;
      SplitJoin(parts[1..], c);
      assert Split(s, [c]) == [p] + Split(tail, [c]);
    }
  }

  // ---------------------------------------------------------------------------
  // Character replacement and ASCII title case

  /** `s.replace(a, b)` for single characters. */
  function ReplaceChar(s: string, a: char, b: char): (r: string)
    ensures |r| == |s|
    ensures forall i :: 0 <= i < |s| ==> r[i] == if s[i] == a then b else s[i]
  {
    seq(|s|, i requires 0 <= i < |s| => if s[i] == a then b else s[i])
  }

  predicate IsUpper(c: char) { 'A' <= c <= 'Z' }

  predicate IsLower(c: char) { 'a' <= c <= 'z' }

  /** A cased character, in the ASCII range modelled here. */
  predicate IsCased(c: char) { IsUpper(c) || IsLower(c) }

  function ToUpper(c: char): (u: char)
    ensures IsCased(c) ==> IsUpper(u)
    ensures !IsCased(c) ==> u == c
  {
    if IsLower(c) then (c as int - 32) as char else c
  }

  function ToLower(c: char): (l: char)
    ensures IsCased(c) ==> IsLower(l)
    ensures !IsCased(c) ==> l == c
  {
    if IsUpper(c) then (c as int + 32) as char else c
  }

  /** `str.title` walks the string remembering whether the previous character
      was cased: a cased character after a cased one is lowered, any other
      cased character is raised, the rest are kept. */
  function TitleFrom(s: string, afterCased: bool): (r: string)
    ensures |r| == |s|
    decreases |s|
  {
    if s == [] then []
    else
      var c := s[0];
      var t := if !IsCased(c) then c else if afterCased then ToLower(c) else ToUpper(c);
      [t] + TitleFrom(s[1..], IsCased(c))
  }

  /** `str.title`: same length; each position is given by `TitleCaseAt`. */
  function TitleCase(s: string): (r: string)
    ensures |r| == |s|
  {
    TitleFrom(s, false)
  }

  /** The title-cased character at each position, stated without the walk. */
  function TitleCharAt(s: string, i: nat): char
    requires i < |s|
  {
    if !IsCased(s[i]) then s[i]
    else if i > 0 && IsCased(s[i - 1]) then ToLower(s[i])
    else ToUpper(s[i])
  }

  lemma {:induction false} TitleFromAt(s: string, afterCased: bool, i: nat)
    requires i < |s|
    ensures |TitleFrom(s, afterCased)| == |s|
    ensures TitleFrom(s, afterCased)[i] ==
      if !IsCased(s[i]) then s[i]
      else if (if i == 0 then afterCased else IsCased(s[i - 1])) then ToLower(s[i])
      else ToUpper(s[i])
    decreases |s|
  {
    if i > 0 {
      TitleFromAt(s[1..], IsCased(s[0]), i - 1);
      if i - 1 > 0 {
        assert s[1..][i - 2] == s[i - 1];
      }
    } else if |s| > 1 {
      TitleFromAt(s[1..], IsCased(s[0]), 0);
    }
  }

  /** `str.title` agrees with the position-wise description. */
  lemma TitleCaseAt(s: string, i: nat)
    requires i < |s|
    ensures |TitleCase(s)| == |s|
    ensures TitleCase(s)[i] == TitleCharAt(s, i)
  {
    TitleFromAt(s, false, i);
  }
}
