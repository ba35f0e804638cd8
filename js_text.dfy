/**
 * The parts of JavaScript's string and number semantics that the player and the
 * server rely on: `trim`, `toLowerCase`, `includes`, `replace` with a one-shot
 * pattern, `split` on one character, `parseInt(_, 10)`, number-to-string
 * conversion and the truncating remainder operator `%`.
 */
module JsText {

  /** A JavaScript number as far as this model needs one: an integer, or NaN. */
  datatype JsNumber = Num(value: int) | NaN

  // ---------------------------------------------------------------------------
  // Whitespace and trimming
  // ---------------------------------------------------------------------------

  /** The characters `String.prototype.trim` and `parseInt` skip: WhiteSpace and LineTerminator. */
  predicate IsWhitespace(c: char)
  {
    || c == '\t' || c == '\n' || c == '\U{B}' || c == '\U{C}' || c == '\r' || c == ' '
    || c == '\U{A0}' || c == '\U{1680}' || ('\U{2000}' <= c <= '\U{200A}')
    || c == '\U{2028}' || c == '\U{2029}' || c == '\U{202F}' || c == '\U{205F}'
    || c == '\U{3000}' || c == '\U{FEFF}'
  }

  /** `trimStart`: drops the leading whitespace and nothing else. */
  function TrimStart(s: string): (r: string)
    ensures |r| <= |s| && r == s[|s| - |r|..]
    ensures r == [] || !IsWhitespace(r[0])
    ensures forall i :: 0 <= i < |s| - |r| ==> IsWhitespace(s[i])
  {
    if |s| > 0 && IsWhitespace(s[0]) then TrimStart(s[1..]) else s
  }

  /** `trimEnd`: drops the trailing whitespace and nothing else. */
  function TrimEnd(s: string): (r: string)
    ensures |r| <= |s| && r == s[..|r|]
    ensures r == [] || !IsWhitespace(r[|r| - 1])
    ensures forall i :: |r| <= i < |s| ==> IsWhitespace(s[i])
  {
    if |s| > 0 && IsWhitespace(s[|s| - 1]) then TrimEnd(s[..|s| - 1]) else s
  }

  /** A text whose every character is whitespace is blank. */
  lemma {:induction false} BlankAll(t: string)
    requires forall k :: 0 <= k < |t| ==> IsWhitespace(t[k])
    ensures Blank(t)
  {
    if t != [] {
      BlankAll(t[1..]);
    }
  }

  /** `trim`: the whitespace-free core of `s`; it is empty exactly when `s` is blank. */
  function Trim(s: string): (r: string)
    ensures |r| <= |s|
    ensures r == [] <==> forall i :: 0 <= i < |s| ==> IsWhitespace(s[i])
    ensures r != [] ==> !IsWhitespace(r[0]) && !IsWhitespace(r[|r| - 1])
  {
    var t := TrimStart(s);
    var r := TrimEnd(t);
    assert r != [] ==> r[0] == t[0];
    r
  }

  /**
   * `trim` removes exactly the surrounding whitespace: its result is a slice
   * of `s` with only whitespace before it and after it.
   */
  lemma TrimIsCore(s: string)
    ensures exists i, j :: TrimmedBetween(s, Trim(s), i, j)
  {
    var t := TrimStart(s);
    var r := TrimEnd(t);
    var i := |s| - |t|;
    var j := i + |r|;
    assert t == s[i..] && r == t[..|r|];
    assert s[i..j] == r;
    var lead, tail := s[..i], s[j..];
    assert forall k :: 0 <= k < |lead| ==> IsWhitespace(lead[k]) by {
      forall k | 0 <= k < |lead| ensures IsWhitespace(lead[k]) {
        assert lead[k] == s[k];
      }
    }
    assert forall k :: 0 <= k < |tail| ==> IsWhitespace(tail[k]) by {
      forall k | 0 <= k < |tail| ensures IsWhitespace(tail[k]) {
        assert tail[k] == t[|r| + k];
      }
    }
    BlankAll(lead);
    BlankAll(tail);
    assert TrimmedBetween(s, Trim(s), i, j);
  }

  /** `r` is `s[i..j]`, and everything of `s` before `i` and from `j` on is whitespace. */
  predicate TrimmedBetween(s: string, r: string, i: int, j: int)
  {
    0 <= i <= j <= |s| && r == s[i..j] && Blank(s[..i]) && Blank(s[j..])
  }

  /** Every character of `t` is whitespace. */
  predicate Blank(t: string)
  {
    t == [] || (IsWhitespace(t[0]) && Blank(t[1..]))
  }

  // ---------------------------------------------------------------------------
  // Case and containment
  // ---------------------------------------------------------------------------

  /** Lower-cases one character; only the ASCII letters are mapped. */
  function LowerChar(c: char): char
  {
    if 'A' <= c <= 'Z' then (c as int + 32) as char else c
  }

  /** `toLowerCase`, restricted to ASCII letters (see README). */
  function Lower(s: string): (r: string)
    ensures |r| == |s|
    ensures forall i :: 0 <= i < |s| ==> r[i] == LowerChar(s[i])
  {
    seq(|s|, i requires 0 <= i < |s| => LowerChar(s[i]))
  }

  /** `s.startsWith(p)`. */
  predicate StartsWith(s: string, p: string)
  {
    |p| <= |s| && s[..|p|] == p
  }

  /** `s.includes(t)`, tried position by position from the left. */
  predicate Includes(s: string, t: string)
    ensures t == [] ==> Includes(s, t)
    ensures Includes(s, t) ==> |t| <= |s|
    decreases |s|
  {
    StartsWith(s, t) || (|s| > 0 && Includes(s[1..], t))
  }

  /** `t` occurs in `s` starting at position `i`. */
  predicate OccursAt(s: string, t: string, i: int)
  {
    0 <= i <= |s| - |t| && s[i..i + |t|] == t
  }

  /** `includes` holds exactly when `t` occurs at some position of `s`. */
  lemma {:induction false} IncludesIff(s: string, t: string)
    ensures Includes(s, t) <==> exists i :: OccursAt(s, t, i)
    decreases |s|
  {
    if StartsWith(s, t) {
      assert OccursAt(s, t, 0);
    } else if |s| > 0 {
      IncludesIff(s[1..], t);
      if Includes(s[1..], t) {
        var i :| OccursAt(s[1..], t, i);
        assert s[1..][i..i + |t|] == s[i + 1..i + 1 + |t|];
        assert OccursAt(s, t, i + 1);
      }
      if exists i :: OccursAt(s, t, i) {
        var i :| OccursAt(s, t, i);
        assert i != 0;
        assert s[1..][i - 1..i - 1 + |t|] == s[i..i + |t|];
        assert OccursAt(s[1..], t, i - 1);
      }
    } else {
      assert forall i :: !OccursAt(s, t, i);
    }
  }

  // ---------------------------------------------------------------------------
  // replace and split
  // ---------------------------------------------------------------------------

  /** The leftmost position where `t` occurs in `s`, or -1 when it occurs nowhere. */
  function FirstOccurrence(s: string, t: string): (i: int)
    ensures -1 <= i <= |s|
    ensures i >= 0 ==> OccursAt(s, t, i) && forall j :: 0 <= j < i ==> !OccursAt(s, t, j)
    ensures i == -1 <==> forall j :: !OccursAt(s, t, j)
    decreases |s|
  {
    if StartsWith(s, t) then 0
    else if |s| == 0 then -1
    else
      var k := FirstOccurrence(s[1..], t);
      OccursShifted(s, t);
      assert !OccursAt(s, t, 0);
      if k == -1 then -1 else k + 1
  }

  /** An occurrence in `s` past position 0 is an occurrence in `s[1..]` one position earlier. */
  lemma OccursShifted(s: string, t: string)
    requires |s| > 0
    ensures forall j :: 1 <= j ==> (OccursAt(s, t, j) <==> OccursAt(s[1..], t, j - 1))
  {
    forall j | 1 <= j ensures OccursAt(s, t, j) <==> OccursAt(s[1..], t, j - 1) {
      if j <= |s| - |t| {
        assert s[1..][j - 1..j - 1 + |t|] == s[j..j + |t|];
      }
    }
  }

  /** `s.replace(/pattern/, replacement)`: only the first occurrence is replaced. */
  function ReplaceFirst(s: string, pattern: string, replacement: string): string
    requires |pattern| > 0
    decreases |s|
  {
    if |s| < |pattern| then s
    else if StartsWith(s, pattern) then replacement + s[|pattern|..]
    else [s[0]] + ReplaceFirst(s[1..], pattern, replacement)
  }

  /**
   * `replace` with a one-shot pattern replaces the leftmost occurrence and
   * nothing else, and leaves a text without one unchanged.
   */
  lemma {:induction false} ReplaceFirstLeftmost(s: string, pattern: string, replacement: string)
    requires |pattern| > 0
    ensures FirstOccurrence(s, pattern) == -1 ==> ReplaceFirst(s, pattern, replacement) == s
    ensures var i := FirstOccurrence(s, pattern);
      i >= 0 ==> ReplaceFirst(s, pattern, replacement) == s[..i] + replacement + s[i + |pattern|..]
    decreases |s|
  {
    if |s| < |pattern| {
      assert !OccursAt(s, pattern, FirstOccurrence(s, pattern));
    } else if StartsWith(s, pattern) {
      assert OccursAt(s, pattern, 0);
      assert s[..0] + replacement + s[|pattern|..] == replacement + s[|pattern|..];
    } else {
      ReplaceFirstLeftmost(s[1..], pattern, replacement);
      FirstOccurrenceStep(s, pattern);
      var k := FirstOccurrence(s[1..], pattern);
      if k == -1 {
        assert [s[0]] + s[1..] == s;
      } else {
        ReplacedShifted(s, pattern, replacement, k);
      }
    }
  }

  /** Past a non-occurrence at 0, the first occurrence in `s` is one after the first in `s[1..]`. */
  lemma FirstOccurrenceStep(s: string, t: string)
    requires |s| > 0 && !StartsWith(s, t)
    ensures FirstOccurrence(s, t) == (var k := FirstOccurrence(s[1..], t); if k == -1 then -1 else k + 1)
  {
  }

  /** Putting the first character back in front of a replacement in `s[1..]`. */
  lemma ReplacedShifted(s: string, pattern: string, replacement: string, k: nat)
    requires |s| > 0 && k <= |s| - 1 - |pattern|
    ensures [s[0]] + (s[1..][..k] + replacement + s[1..][k + |pattern|..])
            == s[..k + 1] + replacement + s[k + 1 + |pattern|..]
  {
    assert s[1..][..k] == s[1..k + 1] && s[1..][k + |pattern|..] == s[k + 1 + |pattern|..];
    assert [s[0]] + s[1..k + 1] == s[..k + 1];
  }

  /** Glues `parts` back together with `sep` between neighbours: the inverse of `Split`. */
  function Join(parts: seq<string>, sep: char): string
  {
    if |parts| == 0 then ""
    else if |parts| == 1 then parts[0]
    else parts[0] + [sep] + Join(parts[1..], sep)
  }

  /** `s.split(sep)` for a one-character separator: never empty, and no part holds `sep`. */
  function Split(s: string, sep: char): (parts: seq<string>)
    ensures |parts| >= 1
    ensures forall i, j :: 0 <= i < |parts| && 0 <= j < |parts[i]| ==> parts[i][j] != sep
    ensures Join(parts, sep) == s
    decreases |s|
  {
    if s == [] then [[]]
    else
      var rest := Split(s[1..], sep);
      if s[0] == sep then
        JoinEmptyFirst(rest, sep);
        [[]] + rest
      else
        JoinExtendFirst(s[0], rest, sep);
        [[s[0]] + rest[0]] + rest[1..]
  }

  /** An empty first part contributes just the separator. */
  lemma JoinEmptyFirst(rest: seq<string>, sep: char)
    requires |rest| >= 1
    ensures Join([[]] + rest, sep) == [sep] + Join(rest, sep)
  {
    var parts := [[]] + rest;
    assert parts[1..] == rest;
    JoinCons(parts, sep);
  }

  /** A character put in front of the first part goes in front of the join. */
  lemma JoinExtendFirst(c: char, rest: seq<string>, sep: char)
    requires |rest| >= 1
    ensures Join([[c] + rest[0]] + rest[1..], sep) == [c] + Join(rest, sep)
  {
    var parts := [[c] + rest[0]] + rest[1..];
    if |rest| > 1 {
      assert parts[1..] == rest[1..];
      JoinCons(parts, sep);
      JoinCons(rest, sep);
    }
  }

  /** A character other than the separator joins the first part. */
  lemma SplitCons(c: char, t: string, sep: char)
    requires c != sep
    ensures Split([c] + t, sep) == [[c] + Split(t, sep)[0]] + Split(t, sep)[1..]
  {
    assert ([c] + t)[1..] == t;
  }

  /** Splitting a part that holds no separator just prefixes it to the first part. */
  lemma {:induction false} SplitPrefix(a: string, rest: string, sep: char)
    requires forall j :: 0 <= j < |a| ==> a[j] != sep
    ensures Split(a + rest, sep) == [a + Split(rest, sep)[0]] + Split(rest, sep)[1..]
    decreases |a|
  {
    if a != [] {
      var tail := Split(rest, sep);
      assert a + rest == [a[0]] + (a[1..] + rest);
      SplitCons(a[0], a[1..] + rest, sep);
      SplitPrefix(a[1..], rest, sep);
      assert [a[0]] + (a[1..] + tail[0]) == a + tail[0];
    } else {
      assert a + rest == rest;
      assert a + Split(rest, sep)[0] == Split(rest, sep)[0];
    }
  }

  /** A leading separator splits off an empty first part. */
  lemma SplitAtSep(tail: string, sep: char)
    ensures Split([sep] + tail, sep) == [[]] + Split(tail, sep)
  {
    assert ([sep] + tail)[1..] == tail;
  }

  /** `Join` of two or more parts: the first part, the separator, then the join of the rest. */
  lemma JoinCons(parts: seq<string>, sep: char)
    requires |parts| > 1
    ensures Join(parts, sep) == parts[0] + ([sep] + Join(parts[1..], sep))
  {
  }

  /** `Split` undoes `Join` whenever no part holds the separator. */
  lemma {:induction false} SplitJoin(parts: seq<string>, sep: char)
    requires |parts| >= 1
    requires forall i, j :: 0 <= i < |parts| && 0 <= j < |parts[i]| ==> parts[i][j] != sep
    ensures Split(Join(parts, sep), sep) == parts
    decreases |parts|
  {
    if |parts| == 1 {
      SplitPrefix(parts[0], "", sep);
      assert parts[0] + "" == parts[0];
    } else {
      var tail := Join(parts[1..], sep);
      SplitJoin(parts[1..], sep);
      SplitAtSep(tail, sep);
      SplitPrefix(parts[0], [sep] + tail, sep);
      JoinCons(parts, sep);
      assert parts[0] + [] == parts[0];
      assert [parts[0]] + parts[1..] == parts;
    }
  }

  // ---------------------------------------------------------------------------
  // Decimal digits, number-to-string and parseInt
  // ---------------------------------------------------------------------------

  predicate IsDigit(c: char)
  {
    '0' <= c <= '9'
  }

  predicate AllDigits(s: string)
  {
    forall i :: 0 <= i < |s| ==> IsDigit(s[i])
  }

  function DigitValue(c: char): nat
    requires IsDigit(c)
  {
    c as int - '0' as int
  }

  function DigitChar(d: nat): (c: char)
    requires d < 10
    ensures IsDigit(c) && DigitValue(c) == d
  {
    ('0' as int + d) as char
  }

  /** The value of a string of decimal digits, read left to right. */
  function DigitsValue(ds: string): nat
    requires AllDigits(ds)
  {
    if ds == [] then 0 else DigitsValue(ds[..|ds| - 1]) * 10 + DigitValue(ds[|ds| - 1])
  }

  /** The shortest decimal spelling of `n`, as `String(n)` writes it. */
  function NatToString(n: nat): (r: string)
    ensures |r| >= 1 && AllDigits(r)
    ensures DigitsValue(r) == n
    ensures |r| > 1 ==> r[0] != '0'
  {
    if n < 10 then [DigitChar(n)]
    else
      var r := NatToString(n / 10) + [DigitChar(n % 10)];
      assert r[..|r| - 1] == NatToString(n / 10);
      r
  }

  /** `String(n)` for an integer `n`. */
  function IntToString(n: int): string
  {
    if n < 0 then "-" + NatToString(-n) else NatToString(n)
  }

  /** The text a template literal writes for a number. */
  function NumberToString(x: JsNumber): string
  {
    match x
    case Num(n) => IntToString(n)
    case NaN => "NaN"
  }

  /** The longest prefix of `s` made of decimal digits. */
  function DigitPrefix(s: string): (r: string)
    ensures |r| <= |s| && r == s[..|r|] && AllDigits(r)
    ensures |r| < |s| ==> !IsDigit(s[|r|])
  {
    if |s| > 0 && IsDigit(s[0]) then [s[0]] + DigitPrefix(s[1..]) else []
  }

  /** The number a sign and a run of digits stand for; NaN when there are no digits. */
  function Signed(negative: bool, digits: string): JsNumber
    requires AllDigits(digits)
  {
    if digits == [] then NaN
    else
      var magnitude: int := DigitsValue(digits);
      if negative then Num(-magnitude) else Num(magnitude)
  }

  /**
   * `parseInt(s, 10)`: skip leading whitespace, read an optional sign and then
   * as many decimal digits as there are; NaN when there are none.
   */
  function ParseInt(s: string): (r: JsNumber)
  {
    ParseTrimmed(TrimStart(s))
  }

  /**
   * `parseInt` gives NaN exactly when no digit follows the leading whitespace
   * and an optional sign, and a negative number only after a minus sign.
   */
  lemma ParseIntNaN(s: string)
    ensures ParseInt(s).NaN? <==> !StartsNumeral(TrimStart(s))
    ensures ParseInt(s).Num? && ParseInt(s).value < 0 ==> TrimStart(s)[0] == '-'
  {
    ParseTrimmedNaN(TrimStart(s));
  }

  /** `t` starts with a digit, possibly after one sign character. */
  predicate StartsNumeral(t: string)
  {
    var u := if |t| > 0 && (t[0] == '-' || t[0] == '+') then t[1..] else t;
    |u| > 0 && IsDigit(u[0])
  }

  /** `parseInt` once the leading whitespace is gone: an optional sign, then the digits. */
  function ParseTrimmed(t: string): (r: JsNumber)
  {
    if |t| > 0 && (t[0] == '-' || t[0] == '+') then Signed(t[0] == '-', DigitPrefix(t[1..]))
    else Signed(false, DigitPrefix(t))
  }

  lemma ParseTrimmedNaN(t: string)
    ensures ParseTrimmed(t).NaN? <==> !StartsNumeral(t)
    ensures ParseTrimmed(t).Num? && ParseTrimmed(t).value < 0 ==> t[0] == '-'
  {
  }

  /** A digit string followed by a non-digit (or nothing) is its own digit prefix. */
  lemma {:induction false} DigitPrefixOf(ds: string, rest: string)
    requires AllDigits(ds)
    requires rest == [] || !IsDigit(rest[0])
    ensures DigitPrefix(ds + rest) == ds
    decreases |ds|
  {
    if ds != [] {
      assert (ds + rest)[1..] == ds[1..] + rest;
      DigitPrefixOf(ds[1..], rest);
    } else {
      assert ds + rest == rest;
    }
  }

  /** `trimStart` leaves a text that starts with a non-whitespace character alone. */
  lemma TrimStartKeeps(s: string)
    requires |s| > 0 && !IsWhitespace(s[0])
    ensures TrimStart(s) == s
  {
  }

  /** A text that starts with a digit has no whitespace to trim. */
  lemma TrimStartOfDigits(ds: string, rest: string)
    requires AllDigits(ds) && |ds| > 0
    ensures TrimStart(ds + rest) == ds + rest
  {
    var s := ds + rest;
    assert s[0] == ds[0];
    TrimStartKeeps(s);
  }

  /** An unsigned run of digits reads as its value. */
  lemma ParseTrimmedDigits(t: string, ds: string)
    requires AllDigits(ds) && |ds| > 0
    requires DigitPrefix(t) == ds
    ensures ParseTrimmed(t) == Num(DigitsValue(ds))
  {
  }

  /** A minus sign followed by a run of digits reads as the negated value. */
  lemma ParseTrimmedNegative(t: string, ds: string)
    requires AllDigits(ds) && |ds| > 0
    requires |t| > 0 && t[0] == '-' && DigitPrefix(t[1..]) == ds
    ensures ParseTrimmed(t) == Num(-(DigitsValue(ds) as int))
  {
  }

  /** `parseInt` of a run of digits followed by a non-digit (or nothing) is the value of the run. */
  lemma ParseDigits(ds: string, rest: string)
    requires AllDigits(ds) && |ds| > 0
    requires rest == [] || !IsDigit(rest[0])
    ensures ParseInt(ds + rest) == Num(DigitsValue(ds))
  {
    TrimStartOfDigits(ds, rest);
    DigitPrefixOf(ds, rest);
    ParseTrimmedDigits(ds + rest, ds);
  }

  /** `parseInt` of a minus sign and a run of digits is the negated value of the run. */
  lemma ParseNegative(ds: string)
    requires AllDigits(ds) && |ds| > 0
    ensures ParseInt("-" + ds) == Num(-(DigitsValue(ds) as int))
  {
    var t := "-" + ds;
    TrimStartKeeps(t);
    DigitPrefixOf(ds, []);
    assert t[1..] == ds + [];
    ParseTrimmedNegative(t, ds);
  }

  /** `parseInt` reads a decimal spelling back, whatever non-digit text follows it. */
  lemma ParseIntDecimal(n: nat, rest: string)
    requires rest == [] || !IsDigit(rest[0])
    ensures ParseInt(NatToString(n) + rest) == Num(n)
  {
    ParseDigits(NatToString(n), rest);
  }

  /** `parseInt(String(n), 10) === n` for every integer `n`. */
  lemma ParseIntOfIntToString(n: int)
    ensures ParseInt(IntToString(n)) == Num(n)
  {
    if n < 0 {
      ParseNegative(NatToString(-n));
    } else {
      ParseIntDecimal(n, "");
      assert NatToString(n) + "" == NatToString(n);
    }
  }

  /** Distinct integers have distinct spellings. */
  lemma IntToStringInjective(m: int, n: int)
    requires IntToString(m) == IntToString(n)
    ensures m == n
  {
    ParseIntOfIntToString(m);
    ParseIntOfIntToString(n);
  }

  // ---------------------------------------------------------------------------
  // Arithmetic
  // ---------------------------------------------------------------------------

  /**
   * JavaScript's `a % n` for a positive divisor: the remainder is truncated toward
   * zero, so it has the sign of `a` (Dafny's own `%` never goes negative).
   */
  function JsRem(a: int, n: int): (r: int)
    requires n > 0
    ensures -n < r < n
    ensures a >= 0 ==> r == a % n
    ensures a < 0 ==> r == -((-a) % n)
  {
    if a >= 0 then a % n else -((-a) % n)
  }

  /** The truncated remainder leaves a whole multiple of `n`: `a` is `q * n + (a % n)` for some `q`. */
  lemma JsRemQuotient(a: int, n: int)
    requires n > 0
    ensures exists q :: DividesWithRemainder(a, n, q, JsRem(a, n))
  {
    if a >= 0 {
      assert JsRem(a, n) == a % n;
      assert DividesWithRemainder(a, n, a / n, a % n);
    } else {
      var q := (-a) / n;
      assert -a == q * n + (-a) % n;
      assert JsRem(a, n) == -((-a) % n);
      assert DividesWithRemainder(a, n, -q, JsRem(a, n));
    }
  }

  /** `a` is `q` times `n` plus the remainder `r`. */
  predicate DividesWithRemainder(a: int, n: int, q: int, r: int)
  {
    a == q * n + r
  }
}
