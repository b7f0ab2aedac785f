/** The JavaScript string operations the extraction code relies on, stated on
    `string` (one `char` per UTF-16 code unit of the source):
    `toLowerCase`, `trim`, `indexOf`/`includes`, a global non-overlapping
    `match` count, `replace` of the first occurrence, the `[^\d,.]` clean-up
    and the global `parseFloat`. */
module JsText {
  import opened Wrappers
  import Seqs

  predicate IsDigit(c: char) { '0' <= c <= '9' }

  /** The characters of the regular-expression class `\s`, which are also the
      ones `String.prototype.trim` and `parseFloat` skip. */
  predicate IsJsSpace(c: char)
  {
    || c == '\t' || c == '\n' || c == '\U{000B}' || c == '\U{000C}' || c == '\r'
    || c == ' ' || c == '\U{00A0}' || c == '\U{1680}'
    || ('\U{2000}' <= c <= '\U{200A}')
    || c == '\U{2028}' || c == '\U{2029}' || c == '\U{202F}' || c == '\U{205F}'
    || c == '\U{3000}' || c == '\U{FEFF}'
  }

  /** The characters the regular-expression `.` does not match. */
  predicate IsLineTerminator(c: char)
  {
    c == '\n' || c == '\r' || c == '\U{2028}' || c == '\U{2029}'
  }

  /** The characters the `/[^\d,.]/g` clean-up keeps. */
  predicate IsNumericChar(c: char) { IsDigit(c) || c == ',' || c == '.' }

  // ---------------------------------------------------------------- case

  /** `toLowerCase` on one character, for Basic Latin and Latin-1 letters
      (`A`-`Z` and `À`-`Þ` except `×`); every other character is unchanged. */
  function LowerChar(c: char): (r: char)
    ensures IsDigit(r) <==> IsDigit(c)
    ensures IsJsSpace(r) <==> IsJsSpace(c)
    ensures IsLineTerminator(r) <==> IsLineTerminator(c)
    ensures r == c || ('a' <= r <= 'z') || ('\U{00E0}' <= r <= '\U{00FE}')
  {
    if 'A' <= c <= 'Z' then (c as int + 32) as char
    else if '\U{00C0}' <= c <= '\U{00DE}' && c != '\U{00D7}' then (c as int + 32) as char
    else c
  }

  lemma LowerCharIdempotent(c: char)
    ensures LowerChar(LowerChar(c)) == LowerChar(c)
  {
  }

  /** `s.toLowerCase()`. */
  function Lower(s: string): (r: string)
    ensures |r| == |s|
    ensures forall i :: 0 <= i < |s| ==> r[i] == LowerChar(s[i])
  {
    seq(|s|, i requires 0 <= i < |s| => LowerChar(s[i]))
  }

  lemma LowerIdempotent(s: string)
    ensures Lower(Lower(s)) == Lower(s)
  {
    forall i | 0 <= i < |s| ensures Lower(Lower(s))[i] == Lower(s)[i] {
      LowerCharIdempotent(s[i]);
    }
  }

  lemma LowerSlice(s: string, i: nat, j: nat)
    requires i <= j <= |s|
    ensures Lower(s[i..j]) == Lower(s)[i..j]
  {
  }

  lemma LowerAppend(a: string, b: string)
    ensures Lower(a + b) == Lower(a) + Lower(b)
  {
  }

  // ---------------------------------------------------------------- trim

  function TrimStart(s: string): (r: string)
    ensures |r| <= |s| && r == s[|s| - |r|..]
    ensures r == [] || !IsJsSpace(r[0])
    ensures forall i :: 0 <= i < |s| - |r| ==> IsJsSpace(s[i])
  {
    if s != [] && IsJsSpace(s[0]) then TrimStart(s[1..]) else s
  }

  function TrimEnd(s: string): (r: string)
    ensures |r| <= |s| && r == s[..|r|]
    ensures r == [] || !IsJsSpace(r[|r| - 1])
    ensures forall i :: |r| <= i < |s| ==> IsJsSpace(s[i])
  {
    if s != [] && IsJsSpace(s[|s| - 1]) then TrimEnd(s[..|s| - 1]) else s
  }

  /** `s.trim()`: `s` without its leading and trailing white space. */
  function Trim(s: string): (r: string)
    ensures |r| <= |s|
    ensures r == [] || (!IsJsSpace(r[0]) && !IsJsSpace(r[|r| - 1]))
    ensures exists i, j :: 0 <= i <= j <= |s| && r == s[i..j]
              && (forall k :: 0 <= k < i ==> IsJsSpace(s[k]))
              && (forall k :: j <= k < |s| ==> IsJsSpace(s[k]))
  {
    var e := TrimEnd(s);
    var r := TrimStart(e);
    TrimBothEnds(s, e, r);
    r
  }

  /** Trimming the end, then the start, leaves a slice with white space on both sides. */
  lemma TrimBothEnds(s: string, e: string, r: string)
    requires e == TrimEnd(s) && r == TrimStart(e)
    ensures |e| - |r| >= 0 && r == s[|e| - |r|..|e|]
    ensures forall k :: 0 <= k < |e| - |r| ==> IsJsSpace(s[k])
    ensures forall k :: |e| <= k < |s| ==> IsJsSpace(s[k])
  {
    var i := |e| - |r|;
    assert e == s[..|e|];
    assert r == e[i..];
    assert e[i..] == s[i..|e|];
    forall k | 0 <= k < i ensures IsJsSpace(s[k]) {
      assert IsJsSpace(e[k]);
      assert s[k] == e[k];
    }
  }

  /** A string with no white space at either end is its own trim. */
  lemma TrimUnpadded(s: string)
    requires s == [] || (!IsJsSpace(s[0]) && !IsJsSpace(s[|s| - 1]))
    ensures Trim(s) == s
  {
  }

  /** A string holds only white space iff trimming it leaves nothing. */
  lemma TrimEmptyIffAllSpace(s: string)
    ensures Trim(s) == [] <==> forall i :: 0 <= i < |s| ==> IsJsSpace(s[i])
  {
    var e := TrimEnd(s);
    if e != [] {
      assert e[|e| - 1] == s[|e| - 1];
      assert TrimStart(e) != [] by {
        assert !IsJsSpace(e[|e| - 1]);
      }
    }
  }

  lemma {:induction false} TrimIdempotent(s: string)
    ensures Trim(Trim(s)) == Trim(s)
  {
    var t := Trim(s);
    assert TrimEnd(t) == t by {
      if t != [] { assert !IsJsSpace(t[|t| - 1]); }
    }
    assert TrimStart(t) == t by {
      if t != [] { assert !IsJsSpace(t[0]); }
    }
  }

  /** Lower-casing neither adds nor removes white space, so it commutes with trimming. */
  lemma {:induction false} LowerTrimStart(s: string)
    ensures TrimStart(Lower(s)) == Lower(TrimStart(s))
  {
    if s != [] && IsJsSpace(s[0]) {
      assert Lower(s)[1..] == Lower(s[1..]);
      LowerTrimStart(s[1..]);
    }
  }

  lemma {:induction false} LowerTrimEnd(s: string)
    ensures TrimEnd(Lower(s)) == Lower(TrimEnd(s))
  {
    if s != [] && IsJsSpace(s[|s| - 1]) {
      assert Lower(s)[..|s| - 1] == Lower(s[..|s| - 1]);
      LowerTrimEnd(s[..|s| - 1]);
    }
  }

  lemma LowerTrim(s: string)
    ensures Trim(Lower(s)) == Lower(Trim(s))
  {
    LowerTrimEnd(s);
    LowerTrimStart(TrimEnd(s));
  }

  // ---------------------------------------------------------------- search

  /** `w` occurs in `s` at index `i`. */
  predicate OccursAt(s: string, w: string, i: int)
  {
    0 <= i && i + |w| <= |s| && s[i..i + |w|] == w
  }

  /** `s.indexOf(w, from)`: the first index at or after `from` where `w` occurs, or -1. */
  function IndexFrom(s: string, w: string, from: nat): (r: int)
    ensures r == -1 || (from <= r && OccursAt(s, w, r))
    ensures forall i :: from <= i && (r == -1 || i < r) ==> !OccursAt(s, w, i)
    decreases |s| - from
  {
    if from + |w| > |s| then -1
    else if s[from..from + |w|] == w then from
    else IndexFrom(s, w, from + 1)
  }

  /** `s.indexOf(w)`. */
  function IndexOf(s: string, w: string): int
  {
    IndexFrom(s, w, 0)
  }

  /** `s.includes(w)`. */
  predicate Contains(s: string, w: string)
  {
    IndexOf(s, w) >= 0
  }

  lemma ContainsIff(s: string, w: string)
    ensures Contains(s, w) <==> exists i :: OccursAt(s, w, i)
  {
  }

  /** The number of matches of the global regular expression `w` in `s` scanned
      from `from`: left to right, each match resuming after the previous one. */
  function CountFrom(s: string, w: string, from: nat): (r: nat)
    requires |w| > 0
    ensures from <= |s| ==> r * |w| <= |s| - from
    ensures from + |w| > |s| ==> r == 0
    decreases |s| - from
  {
    if from + |w| > |s| then 0
    else if OccursAt(s, w, from) then 1 + CountFrom(s, w, from + |w|)
    else CountFrom(s, w, from + 1)
  }

  /** `(s.match(new RegExp(w, 'g')) || []).length` for a word `w` with no
      special characters: positive iff `w` occurs. */
  function CountOccurrences(s: string, w: string): (r: nat)
    requires |w| > 0
    ensures r > 0 <==> Contains(s, w)
    ensures r * |w| <= |s|
  {
    CountPositiveIff(s, w, 0);
    CountFrom(s, w, 0)
  }

  /** Some match is counted iff `w` occurs at all. */
  lemma {:induction false} CountPositiveIff(s: string, w: string, from: nat)
    requires |w| > 0
    ensures CountFrom(s, w, from) > 0 <==> IndexFrom(s, w, from) >= 0
    decreases |s| - from
  {
    if from + |w| <= |s| && !OccursAt(s, w, from) {
      CountPositiveIff(s, w, from + 1);
    }
  }

  lemma OccursAtAppend(s: string, u: string, w: string, i: int)
    requires OccursAt(s, w, i)
    ensures OccursAt(s + u, w, i)
  {
    assert (s + u)[i..i + |w|] == s[i..i + |w|];
  }

  /** Appending text never loses a match: the count can only grow. */
  lemma {:induction false} CountAppendMonotone(s: string, u: string, w: string, from: nat)
    requires |w| > 0
    ensures CountFrom(s + u, w, from) >= CountFrom(s, w, from)
    decreases |s| - from
  {
    if from + |w| <= |s| {
      if OccursAt(s, w, from) {
        OccursAtAppend(s, u, w, from);
        CountAppendMonotone(s, u, w, from + |w|);
      } else {
        assert (s + u)[from..from + |w|] == s[from..from + |w|];
        CountAppendMonotone(s, u, w, from + 1);
      }
    }
  }

  /** Text put in front keeps an occurrence. */
  lemma ContainsPrepend(u: string, s: string, w: string)
    requires Contains(s, w)
    ensures Contains(u + s, w)
  {
    var i := IndexOf(s, w);
    assert (u + s)[|u| + i..|u| + i + |w|] == s[i..i + |w|];
    assert OccursAt(u + s, w, |u| + i);
  }

  lemma {:induction false} IndexAppendMonotone(s: string, u: string, w: string)
    requires Contains(s, w)
    ensures Contains(s + u, w)
  {
    OccursAtAppend(s, u, w, IndexOf(s, w));
  }

  /** Appending text does not move the first occurrence of a word already present. */
  lemma {:induction false} IndexFromAppend(s: string, u: string, w: string, from: nat)
    requires IndexFrom(s, w, from) >= 0
    ensures IndexFrom(s + u, w, from) == IndexFrom(s, w, from)
    decreases |s| - from
  {
    assert (s + u)[from..from + |w|] == s[from..from + |w|];
    if s[from..from + |w|] != w {
      IndexFromAppend(s, u, w, from + 1);
    }
  }

  /** `s.slice(0, n)`: the first `n` characters of `s`, or all of it if it is shorter. */
  function SliceTo(s: string, n: nat): (r: string)
    ensures |r| == if |s| <= n then |s| else n
    ensures r == s[..|r|]
  {
    if |s| <= n then s else s[..n]
  }

  // ---------------------------------------------------------------- rewriting

  /** `s.replace(from, to)` with a one-character string pattern: only the first
      occurrence is replaced. */
  function ReplaceFirst(s: string, from: char, to: char): (r: string)
    ensures |r| == |s|
    ensures forall i :: 0 <= i < |s| ==> r[i] == if s[i] == from && from !in s[..i] then to else s[i]
    ensures from !in s ==> r == s
  {
    if s == [] then []
    else if s[0] == from then
      assert forall i :: 0 < i < |s| ==> s[0] in s[..i];
      [to] + s[1..]
    else
      var t := ReplaceFirst(s[1..], from, to);
      var r := [s[0]] + t;
      assert forall i :: 0 <= i < |s| ==> r[i] == if s[i] == from && from !in s[..i] then to else s[i] by {
        forall i | 0 < i < |s| ensures r[i] == if s[i] == from && from !in s[..i] then to else s[i] {
          assert s[1..][..i - 1] == s[1..i];
          assert s[..i] == s[..1] + s[1..i];
          assert from in s[..i] <==> from in s[1..i];
          assert r[i] == t[i - 1] && s[i] == s[1..][i - 1];
        }
      }
      r
  }

  /** `s.replace(/[^\d,.]/g, '')`. */
  function KeepNumeric(s: string): (r: string)
    ensures forall i :: 0 <= i < |r| ==> IsNumericChar(r[i])
  {
    Seqs.Filter(s, IsNumericChar)
  }

  lemma {:induction false} KeepNumericAppend(a: string, b: string)
    ensures KeepNumeric(a + b) == KeepNumeric(a) + KeepNumeric(b)
  {
    if a != [] {
      KeepNumericAppend(a[1..], b);
      assert (a + b)[1..] == a[1..] + b;
    } else {
      assert a + b == b;
    }
  }

  lemma {:induction false} KeepNumericIdentity(s: string)
    requires forall i :: 0 <= i < |s| ==> IsNumericChar(s[i])
    ensures KeepNumeric(s) == s
  {
    Seqs.FilterAll(s, IsNumericChar);
  }

  // ---------------------------------------------------------------- numbers

  /** A JavaScript number as `parseFloat` can produce it (finite values exact). */
  datatype JsNumber = Finite(value: real) | Infinite(negative: bool) | NaN

  function Pow10(n: nat): (r: nat)
    ensures r >= 1
  {
    if n == 0 then 1 else 10 * Pow10(n - 1)
  }

  /** The length of the run of decimal digits of `s` that starts at `i`. */
  function DigitRun(s: string, i: nat): (n: nat)
    requires i <= |s|
    ensures i + n <= |s|
    ensures forall k :: i <= k < i + n ==> IsDigit(s[k])
    ensures i + n == |s| || !IsDigit(s[i + n])
    decreases |s| - i
  {
    if i < |s| && IsDigit(s[i]) then 1 + DigitRun(s, i + 1) else 0
  }

  function DigitValue(c: char): (n: nat)
    requires IsDigit(c)
    ensures n <= 9
  {
    c as int - '0' as int
  }

  /** The value of a string of decimal digits. */
  function DigitsValue(d: string): nat
    requires forall k :: 0 <= k < |d| ==> IsDigit(d[k])
  {
    if d == [] then 0
    else 10 * DigitsValue(d[..|d| - 1]) + DigitValue(d[|d| - 1])
  }

  /** The `ExponentPart` of a decimal literal at `e`: its value and its length (0 if absent). */
  function ExponentAt(s: string, e: nat): (r: (int, nat))
    requires e <= |s|
    ensures e + r.1 <= |s|
  {
    if e < |s| && (s[e] == 'e' || s[e] == 'E') then
      var signed := e + 1 < |s| && (s[e + 1] == '+' || s[e + 1] == '-');
      var k := if signed then e + 2 else e + 1;
      var n := DigitRun(s, k);
      if n == 0 then (0, 0)
      else
        var v := DigitsValue(s[k..k + n]);
        (if signed && s[e + 1] == '-' then -(v as int) else v as int, k + n - e)
    else (0, 0)
  }

  /** `m` times ten to the power `exp`. */
  function Scaled(m: real, exp: int): (r: real)
    requires m >= 0.0
    ensures r >= 0.0
  {
    if exp >= 0 then m * Pow10(exp) as real else m / Pow10(-exp) as real
  }

  /** The value of the digits of `s` in `[i, i + n)` read as a decimal fraction `.ddd`. */
  function FractionValue(s: string, i: nat, n: nat): (r: real)
    requires i + n <= |s|
    requires forall k :: i <= k < i + n ==> IsDigit(s[k])
    ensures r >= 0.0
  {
    DigitsValue(s[i..i + n]) as real / Pow10(n) as real
  }

  /** The longest prefix of `s` that is a `StrUnsignedDecimalLiteral` other than
      `Infinity` (digits, an optional fraction, an optional exponent), as a value. */
  function UnsignedDecimalPrefix(s: string): (r: Option<real>)
    ensures r.Some? ==> r.value >= 0.0
    ensures r.Some? <==> (DigitRun(s, 0) > 0 || (|s| > 1 && s[0] == '.' && IsDigit(s[1])))
  {
    var a := DigitRun(s, 0);
    var hasDot := a < |s| && s[a] == '.';
    var b := if hasDot then DigitRun(s, a + 1) else 0;
    if a == 0 && b == 0 then None
    else
      var fraction := if hasDot then FractionValue(s, a + 1, b) else 0.0;
      var mantissa := DigitsValue(s[..a]) as real + fraction;
      Some(Scaled(mantissa, ExponentAt(s, if hasDot then a + 1 + b else a).0))
  }

  /** The global `parseFloat(s)`: leading white space is skipped; a text
      that then starts with a digit reads as a non-negative number, one that
      is empty or starts with a character no number starts with reads as
      NaN, and only a leading minus sign makes the value negative. */
  function ParseFloat(s: string): (r: JsNumber)
    ensures TrimStart(s) == [] ==> r.NaN?
    ensures |TrimStart(s)| > 0 && IsDigit(TrimStart(s)[0]) ==> r.Finite? && r.value >= 0.0
    ensures |TrimStart(s)| > 0 && !IsDigit(TrimStart(s)[0]) && TrimStart(s)[0] !in "+-.I" ==> r.NaN?
    ensures r.Finite? && r.value < 0.0 ==> TrimStart(s)[0] == '-'
  {
    var t := TrimStart(s);
    var negative := |t| > 0 && t[0] == '-';
    var body := if |t| > 0 && (t[0] == '+' || t[0] == '-') then t[1..] else t;
    if |body| >= 8 && body[..8] == "Infinity" then Infinite(negative)
    else match UnsignedDecimalPrefix(body)
      case None => NaN
      case Some(v) => Finite(if negative then -v else v)
  }

  /** `value.replace(/[^\d,.]/g, '').replace(',', '.')`: the clean-up every
      extractor applies before `parseFloat`. */
  function CleanNumeric(s: string): (r: string)
    ensures forall i :: 0 <= i < |r| ==> IsNumericChar(r[i])
  {
    ReplaceFirst(KeepNumeric(s), ',', '.')
  }

  /** Cleaning keeps a leading digit in front. */
  lemma KeepNumericHead(s: string)
    requires |s| > 0 && IsDigit(s[0])
    ensures |CleanNumeric(s)| > 0 && IsDigit(CleanNumeric(s)[0])
  {
    assert KeepNumeric(s) == [s[0]] + KeepNumeric(s[1..]);
  }

  /** The decimal digits of `n`, most significant first. */
  function DecimalString(n: nat): (r: string)
    ensures |r| > 0 && forall i :: 0 <= i < |r| ==> IsDigit(r[i])
  {
    var d := (n % 10 + '0' as int) as char;
    if n < 10 then [d] else DecimalString(n / 10) + [d]
  }

  lemma {:induction false} DecimalStringValue(n: nat)
    ensures DigitsValue(DecimalString(n)) == n
  {
    var s := DecimalString(n);
    assert s[..|s| - 1] == if n < 10 then [] else DecimalString(n / 10);
    if n >= 10 {
      DecimalStringValue(n / 10);
    }
  }

  lemma {:induction false} KeepNumericNone(s: string)
    requires forall i :: 0 <= i < |s| ==> !IsNumericChar(s[i])
    ensures KeepNumeric(s) == []
  {
    if s != [] {
      KeepNumericNone(s[1..]);
    }
  }

  lemma {:induction false} ReplaceFirstAfter(d: string, rest: string, from: char, to: char)
    requires from !in d
    ensures ReplaceFirst(d + [from] + rest, from, to) == d + [to] + rest
  {
    if d != [] {
      var s := d + [from] + rest;
      assert s[0] == d[0] != from;
      assert s[1..] == d[1..] + [from] + rest;
      ReplaceFirstAfter(d[1..], rest, from, to);
      assert ReplaceFirst(s, from, to) == [d[0]] + (d[1..] + [to] + rest);
    } else {
      assert d + [from] + rest == [from] + rest;
    }
  }

  lemma {:induction false} DigitRunOver(s: string, i: nat, n: nat)
    requires i + n <= |s|
    requires forall k :: i <= k < i + n ==> IsDigit(s[k])
    requires i + n == |s| || !IsDigit(s[i + n])
    ensures DigitRun(s, i) == n
    decreases n
  {
    if n > 0 {
      DigitRunOver(s, i + 1, n - 1);
    }
  }

  /** The value of the decimal literal `d.f`. */
  function DecimalValue(d: string, f: string): (r: real)
    requires forall k :: 0 <= k < |d| ==> IsDigit(d[k])
    requires forall k :: 0 <= k < |f| ==> IsDigit(f[k])
    ensures r >= 0.0
  {
    DigitsValue(d) as real + DigitsValue(f) as real / Pow10(|f|) as real
  }

  /** A string that starts with a digit is parsed as its decimal prefix. */
  lemma ParseFloatOfDigitStart(s: string)
    requires |s| > 0 && IsDigit(s[0])
    ensures UnsignedDecimalPrefix(s).Some?
    ensures ParseFloat(s) == Finite(UnsignedDecimalPrefix(s).value)
  {
    assert !IsJsSpace(s[0]);
    assert TrimStart(s) == s;
    assert s[0] != 'I' && s[0] != '+' && s[0] != '-';
    assert UnsignedDecimalPrefix(s).Some?;
  }

  lemma DecimalPrefixOfDecimal(d: string, f: string)
    requires |d| > 0 && forall k :: 0 <= k < |d| ==> IsDigit(d[k])
    requires forall k :: 0 <= k < |f| ==> IsDigit(f[k])
    ensures UnsignedDecimalPrefix(d + "." + f)
         == Some(DecimalValue(d, f))
  {
    var s := d + "." + f;
    assert s[|d|] == '.';
    assert s[..|d|] == d;
    assert s[|d| + 1..] == f;
    assert forall k :: 0 <= k < |d| ==> IsDigit(s[k]) by {
      forall k | 0 <= k < |d| ensures s[k] == d[k] { }
    }
    assert forall k :: |d| + 1 <= k < |s| ==> IsDigit(s[k]) by {
      forall k | |d| + 1 <= k < |s| ensures s[k] == f[k - |d| - 1] { }
    }
    DigitRunOver(s, 0, |d|);
    DigitRunOver(s, |d| + 1, |f|);
    assert s[|d| + 1..|d| + 1 + |f|] == f;
    assert DigitRun(s, 0) == |d|;
    assert DigitRun(s, |d| + 1) == |f|;
    assert ExponentAt(s, |s|) == (0, 0);
    assert FractionValue(s, |d| + 1, |f|) == DigitsValue(f) as real / Pow10(|f|) as real;
    assert Scaled(DecimalValue(d, f), 0) == DecimalValue(d, f);
  }

  /** `parseFloat` reads `d.f` as the integer `d` plus the fraction `.f`. */
  lemma ParseFloatOfDecimal(d: string, f: string)
    requires |d| > 0 && forall k :: 0 <= k < |d| ==> IsDigit(d[k])
    requires forall k :: 0 <= k < |f| ==> IsDigit(f[k])
    ensures ParseFloat(d + "." + f)
         == Finite(DecimalValue(d, f))
  {
    var s := d + "." + f;
    assert s[0] == d[0];
    DecimalPrefixOfDecimal(d, f);
    ParseFloatOfDigitStart(s);
  }

  /** On a string of digits, commas and periods `parseFloat` gives NaN or a
      finite value that is at least 0, and a value iff the string starts
      like a number. */
  lemma ParseFloatOfNumericChars(s: string)
    requires forall i :: 0 <= i < |s| ==> IsNumericChar(s[i])
    ensures !ParseFloat(s).Infinite?
    ensures ParseFloat(s).Finite? ==> ParseFloat(s).value >= 0.0
    ensures ParseFloat(s).Finite? <==> (|s| > 0 && IsDigit(s[0])) || (|s| > 1 && s[0] == '.' && IsDigit(s[1]))
  {
    if s != [] {
      assert !IsJsSpace(s[0]);
    }
    assert TrimStart(s) == s;
  }

  /** A minus sign in front of a decimal literal negates its value. */
  lemma ParseFloatNegated(s: string)
    requires |s| > 0 && IsDigit(s[0])
    ensures UnsignedDecimalPrefix(s).Some?
    ensures ParseFloat(['-'] + s) == Finite(-UnsignedDecimalPrefix(s).value)
  {
    var t := ['-'] + s;
    assert !IsJsSpace(t[0]);
    assert TrimStart(t) == t;
    assert t[1..] == s;
    assert !(|s| >= 8 && s[..8] == "Infinity") by {
      if |s| >= 8 {
        assert s[..8][0] == s[0];
      }
    }
  }

  /** A string without a digit is not a finite number. */
  lemma ParseFloatWithoutDigits(s: string)
    requires forall i :: 0 <= i < |s| ==> !IsDigit(s[i])
    ensures !ParseFloat(s).Finite?
  {
    var t := TrimStart(s);
    assert forall k :: 0 <= k < |t| ==> !IsDigit(t[k]) by {
      forall k | 0 <= k < |t| ensures !IsDigit(t[k]) {
        assert t[k] == s[|s| - |t| + k];
      }
    }
    var body := if |t| > 0 && (t[0] == '+' || t[0] == '-') then t[1..] else t;
    NoDigitsNoPrefix(body);
  }

  lemma NoDigitsNoPrefix(s: string)
    requires forall i :: 0 <= i < |s| ==> !IsDigit(s[i])
    ensures UnsignedDecimalPrefix(s).None?
  {
    assert DigitRun(s, 0) == 0;
  }
}
