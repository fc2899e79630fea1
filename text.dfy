// String operations of the JavaScript runtime that the source relies on:
// `String.prototype.trim`, `toLowerCase` (ASCII letters only), `includes`,
// `Array.prototype.join`, decimal `toString` of a non-negative integer,
// `padStart(2, "0")`, and `Number` applied to a string holding a decimal
// number.

module Text {
  import opened Common

  /** The characters `trim` removes: white space and line terminators. */
  predicate IsSpace(c: char) {
    c in {' ', '\t', '\n', '\r', '\U{B}', '\U{C}', '\U{A0}', '\U{FEFF}', '\U{1680}',
          '\U{2028}', '\U{2029}', '\U{202F}', '\U{205F}', '\U{3000}'}
    || ('\U{2000}' <= c <= '\U{200A}')
  }

  predicate IsBlank(s: string) {
    forall k :: 0 <= k < |s| ==> IsSpace(s[k])
  }

  /** `s` with its leading white space removed. */
  function TrimStart(s: string): (r: string)
    ensures |r| <= |s| && r == s[|s| - |r|..]
    ensures r == [] || !IsSpace(r[0])
    ensures forall k :: 0 <= k < |s| - |r| ==> IsSpace(s[k])
  {
    if s != [] && IsSpace(s[0]) then TrimStart(s[1..]) else s
  }

  /** `s` with its trailing white space removed. */
  function TrimEnd(s: string): (r: string)
    ensures |r| <= |s| && r == s[..|r|]
    ensures r == [] || !IsSpace(r[|r| - 1])
    ensures forall k :: |r| <= k < |s| ==> IsSpace(s[k])
  {
    if s != [] && IsSpace(s[|s| - 1]) then TrimEnd(s[..|s| - 1]) else s
  }

  /** `s.trim()`: the slice of `s` left once the white space at both ends
      is removed; it neither starts nor ends with white space, and is empty
      exactly when `s` is all white space. */
  function Trim(s: string): (r: string)
    ensures |r| <= |s|
    ensures r == [] || (!IsSpace(r[0]) && !IsSpace(r[|r| - 1]))
    ensures r == [] <==> IsBlank(s)
    ensures BlankAround(s, r)
  {
    var t := TrimStart(s);
    var r := TrimEnd(t);
    TrimSlice(s, t, r, |s| - |t|);
    r
  }

  /** `r` is a slice of `s` with nothing but white space before and after
      it. */
  ghost predicate BlankAround(s: string, r: string) {
    exists i :: OccursAt(s, r, i) && IsBlank(s[..i]) && IsBlank(s[i + |r|..])
  }

  /** Trimming keeps the slice of `s` between two blank ends. */
  lemma TrimSlice(s: string, t: string, r: string, i: nat)
    requires t == TrimStart(s) && r == TrimEnd(t) && i == |s| - |t|
    ensures OccursAt(s, r, i) && IsBlank(s[..i]) && IsBlank(s[i + |r|..])
  {
    TrimStartHead(s, t, i);
    TrimEndTail(s, t, r, i);
  }

  /** What `TrimStart` removes from the head of `s` is white space. */
  lemma TrimStartHead(s: string, t: string, i: nat)
    requires t == TrimStart(s) && i == |s| - |t|
    ensures IsBlank(s[..i])
  {
    var u := s[..i];
    forall k | 0 <= k < |u| ensures IsSpace(u[k]) {
      assert u[k] == s[k];
    }
  }

  /** What `TrimEnd` removes from the tail of `s` is white space. */
  lemma TrimEndTail(s: string, t: string, r: string, i: nat)
    requires i + |t| == |s| && t == s[i..] && r == TrimEnd(t)
    ensures OccursAt(s, r, i) && IsBlank(s[i + |r|..])
  {
    assert s[i..i + |r|] == t[..|r|];
    var u := s[i + |r|..];
    forall k | 0 <= k < |u| ensures IsSpace(u[k]) {
      assert u[k] == t[|r| + k];
    }
  }

  /** A string that neither starts nor ends with white space is its own
      trim. */
  lemma TrimNoSpace(s: string)
    ensures s == [] || (!IsSpace(s[0]) && !IsSpace(s[|s| - 1])) ==> Trim(s) == s
  {
    if s != [] && (IsSpace(s[0]) || IsSpace(s[|s| - 1])) {
      return;
    }
    assert TrimStart(s) == s;
    assert TrimEnd(s) == s;
  }

  /** Trimming is idempotent. */
  lemma TrimIdempotent(s: string)
    ensures Trim(Trim(s)) == Trim(s)
  {
    var r := Trim(s);
    if r != [] {
      assert TrimStart(r) == r;
      assert TrimEnd(r) == r;
    }
  }

  /** `toLowerCase` on one character; only ASCII letters are modelled. */
  function LowerChar(c: char): (r: char)
    ensures 'A' <= c <= 'Z' ==> 'a' <= r <= 'z'
    ensures !('A' <= r <= 'Z')
  {
    if 'A' <= c <= 'Z' then (c as int - 'A' as int + 'a' as int) as char else c
  }

  function Lower(s: string): (r: string)
    ensures |r| == |s|
    ensures forall k :: 0 <= k < |s| ==> r[k] == LowerChar(s[k])
  {
    seq(|s|, k requires 0 <= k < |s| => LowerChar(s[k]))
  }

  lemma LowerIdempotent(s: string)
    ensures Lower(Lower(s)) == Lower(s)
  {
  }

  predicate IsPrefix(p: string, s: string) {
    |p| <= |s| && s[..|p|] == p
  }

  /** `needle` occurs in `hay` starting at offset `i`. */
  predicate OccursAt(hay: string, needle: string, i: int) {
    0 <= i && i + |needle| <= |hay| && hay[i..i + |needle|] == needle
  }

  /** `hay.includes(needle)`: `needle` occurs in `hay` at some offset. */
  function Contains(hay: string, needle: string): (r: bool)
    ensures r <==> exists i :: OccursAt(hay, needle, i)
  {
    if IsPrefix(needle, hay) then
      assert OccursAt(hay, needle, 0);
      true
    else if hay == [] then
      false
    else
      OccursInTail(hay, needle);
      Contains(hay[1..], needle)
  }

  /** When `needle` is not a prefix of a non-empty `hay`, it occurs in `hay`
      exactly when it occurs in `hay[1..]`. */
  lemma OccursInTail(hay: string, needle: string)
    requires hay != [] && !IsPrefix(needle, hay)
    ensures (exists i :: OccursAt(hay, needle, i)) <==> (exists i :: OccursAt(hay[1..], needle, i))
  {
    forall i | OccursAt(hay, needle, i)
      ensures OccursAt(hay[1..], needle, i - 1)
    {
      assert i != 0 by { assert hay[0..|needle|] == hay[..|needle|]; }
      assert 1 <= i && i + |needle| <= |hay|;
      assert hay[1..][i - 1..i - 1 + |needle|] == hay[i..i + |needle|];
    }
    forall i | OccursAt(hay[1..], needle, i)
      ensures OccursAt(hay, needle, i + 1)
    {
      assert hay[i + 1..i + 1 + |needle|] == hay[1..][i..i + |needle|];
    }
  }

  /** `parts.join(sep)`. */
  function Join(parts: seq<string>, sep: string): (r: string)
    ensures parts == [] ==> r == []
    ensures |parts| == 1 ==> r == parts[0]
  {
    if parts == [] then []
    else if |parts| == 1 then parts[0]
    else Join(parts[..|parts| - 1], sep) + sep + parts[|parts| - 1]
  }

  predicate IsDigit(c: char) { '0' <= c <= '9' }

  /** Each part of a join occurs in it. */
  lemma {:induction false} JoinParts(parts: seq<string>, sep: string, k: nat)
    requires k < |parts|
    ensures exists i :: OccursAt(Join(parts, sep), parts[k], i)
  {
    if |parts| > 1 {
      var init := parts[..|parts| - 1];
      var j := Join(parts, sep);
      assert j == Join(init, sep) + sep + parts[|parts| - 1];
      if k < |parts| - 1 {
        JoinParts(init, sep, k);
        var i :| OccursAt(Join(init, sep), init[k], i);
        assert j[i..i + |parts[k]|] == Join(init, sep)[i..i + |parts[k]|];
        assert OccursAt(j, parts[k], i);
      } else {
        var i := |Join(init, sep)| + |sep|;
        assert j[i..i + |parts[k]|] == parts[k];
        assert OccursAt(j, parts[k], i);
      }
    } else {
      assert OccursAt(Join(parts, sep), parts[k], 0);
    }
  }

  predicate IsDigits(s: string) {
    forall k :: 0 <= k < |s| ==> IsDigit(s[k])
  }

  function DigitChar(d: nat): (c: char)
    requires d < 10
    ensures IsDigit(c) && c as int - '0' as int == d
  {
    ('0' as int + d) as char
  }

  /** `n.toString()` for a non-negative integer: decimal, no leading zero. */
  function NatToString(n: nat): (r: string)
    ensures r != [] && IsDigits(r)
    ensures |r| > 1 ==> r[0] != '0'
    ensures n < 10 <==> |r| == 1
  {
    if n < 10 then [DigitChar(n)]
    else NatToString(n / 10) + [DigitChar(n % 10)]
  }

  /** `Number(s)` for a string of decimal digits. */
  function DigitsValue(s: string): (v: nat)
    requires IsDigits(s)
  {
    if s == [] then 0
    else DigitsValue(s[..|s| - 1]) * 10 + (s[|s| - 1] as int - '0' as int)
  }

  /** Parsing the decimal rendering of `n` gives `n` back. */
  lemma {:induction false} DigitsOfNatToString(n: nat)
    ensures DigitsValue(NatToString(n)) == n
  {
    if n >= 10 {
      var r := NatToString(n);
      assert r[..|r| - 1] == NatToString(n / 10);
      DigitsOfNatToString(n / 10);
    }
  }

  /** The value of the digits after a decimal point: ".25" is 0.25. */
  function FractionValue(s: string): (r: real)
    requires IsDigits(s)
    ensures 0.0 <= r <= 1.0
  {
    if s == [] then 0.0 else ((s[0] as int - '0' as int) as real + FractionValue(s[1..])) / 10.0
  }

  /** The position of the first `c` in `s`, if any. */
  function FirstIndex(s: string, c: char): (r: Option<nat>)
    ensures r.Some? ==> r.value < |s| && s[r.value] == c && c !in s[..r.value]
    ensures r.None? ==> c !in s
  {
    if s == [] then None
    else if s[0] == c then Some(0)
    else match FirstIndex(s[1..], c)
      case None => None
      case Some(i) =>
        assert s[..i + 1] == [s[0]] + s[1..][..i];
        Some(i + 1)
  }

  /** The value of an unsigned decimal literal: digits with an optional
      fraction (`12`, `12.`, `12.5`, `.5`), with at least one digit in all.
      `None` for anything else. */
  function DecimalValue(s: string): (r: Option<real>)
    ensures r.Some? ==> r.value >= 0.0 && s != [] && (IsDigit(s[0]) || s[0] == '.')
    ensures s != [] && IsDigits(s) ==> r == Some(DigitsValue(s) as real)
  {
    match FirstIndex(s, '.')
    case None =>
      if s != [] && IsDigits(s) then Some(DigitsValue(s) as real) else None
    case Some(i) => PointValue(s[..i], s[i + 1..])
  }

  /** The value of the digits `whole` before a decimal point and `frac`
      after it, with at least one digit in all; `None` otherwise. */
  function PointValue(whole: string, frac: string): (r: Option<real>)
    ensures r.Some? <==> IsDigits(whole) && IsDigits(frac) && (whole != [] || frac != [])
    ensures r.Some? ==> r.value == DigitsValue(whole) as real + FractionValue(frac) && r.value >= 0.0
  {
    if IsDigits(whole) && IsDigits(frac) && (whole != [] || frac != [])
    then Some(DigitsValue(whole) as real + FractionValue(frac))
    else None
  }

  /** A literal with a fraction, `s == w + "." + f`, has its whole part plus
      its fraction as value. */
  lemma DecimalFraction(w: string, f: string, s: string)
    requires IsDigits(w) && IsDigits(f) && (w != [] || f != [])
    requires s == w + "." + f
    ensures DecimalValue(s) == Some(DigitsValue(w) as real + FractionValue(f))
  {
    assert s[..|w|] == w && s[|w| + 1..] == f;
    FirstIndexAfter(w, '.', f);
    DecimalAt(s, |w|);
  }

  /** A literal whose first '.' is at `i` has as value the digits before it
      plus the fraction after it. */
  lemma DecimalAt(s: string, i: nat)
    requires FirstIndex(s, '.') == Some(i)
    requires IsDigits(s[..i]) && IsDigits(s[i + 1..]) && (i > 0 || i + 1 < |s|)
    ensures DecimalValue(s) == Some(DigitsValue(s[..i]) as real + FractionValue(s[i + 1..]))
  {
  }

  /** In `w + [c] + rest`, with no `c` in `w`, the first `c` follows `w`. */
  lemma FirstIndexAfter(w: string, c: char, rest: string)
    requires c !in w
    ensures FirstIndex(w + [c] + rest, c) == Some(|w|)
  {
    var s := w + [c] + rest;
    assert s[..|w|] == w;
    assert s[|w|] == c;
  }

  /** `Number(s)` on a string holding a decimal number: the white space
      around it is ignored, a blank string is 0, and otherwise an optional
      sign followed by a decimal literal gives the value. `None` stands for
      `NaN`. */
  function NumberOf(s: string): (r: Option<real>)
    ensures IsBlank(s) ==> r == Some(0.0)
    ensures r.Some? && r.value < 0.0 ==> Trim(s) != [] && Trim(s)[0] == '-'
  {
    var t := Trim(s);
    if t == [] then Some(0.0) else SignedValue(t)
  }

  /** A decimal literal after an optional '-' or '+' sign. */
  function SignedValue(t: string): (r: Option<real>)
    ensures r.Some? && r.value < 0.0 ==> t != [] && t[0] == '-'
    ensures t != [] && IsDigits(t) ==> r == Some(DigitsValue(t) as real)
  {
    var signed := t != [] && (t[0] == '-' || t[0] == '+');
    var v := DecimalValue(if signed then t[1..] else t);
    if v.None? then None
    else if signed && t[0] == '-' then Some(-v.value)
    else v
  }

  /** Without white space at either end, `Number` reads the string as a
      signed decimal literal. */
  lemma NumberOfUnpadded(s: string)
    requires s != [] && !IsSpace(s[0]) && !IsSpace(s[|s| - 1])
    ensures NumberOf(s) == SignedValue(s)
  {
    TrimNoSpace(s);
  }

  /** A string of decimal digits reads as their value; an empty one as 0. */
  lemma NumberOfDigits(s: string)
    requires IsDigits(s)
    ensures NumberOf(s) == Some(DigitsValue(s) as real)
  {
    if s != [] {
      assert IsDigit(s[0]) && IsDigit(s[|s| - 1]);
      assert SignedValue(s) == Some(DigitsValue(s) as real);
      NumberOfUnpadded(s);
    }
  }

  /** A '-' before digits negates their value. */
  lemma NumberOfNegative(d: string, s: string)
    requires d != [] && IsDigits(d) && s == "-" + d
    ensures NumberOf(s) == Some(-(DigitsValue(d) as real))
  {
    SignedMinus(d, s);
    assert s[0] == '-' && s[|s| - 1] == d[|d| - 1];
    NumberOfUnpadded(s);
  }

  lemma SignedMinus(d: string, s: string)
    requires d != [] && IsDigits(d) && s == "-" + d
    ensures SignedValue(s) == Some(-(DigitsValue(d) as real))
  {
    assert s[1..] == d;
  }

  /** Digits, a '.', and more digits read as a number with a fraction. */
  lemma NumberOfFraction(w: string, f: string, s: string)
    requires IsDigits(w) && IsDigits(f) && (w != [] || f != []) && s == w + "." + f
    ensures NumberOf(s) == Some(DigitsValue(w) as real + FractionValue(f))
  {
    SignedFraction(w, f, s);
    assert s[0] == '.' || IsDigit(s[0]);
    assert s[|s| - 1] == '.' || IsDigit(s[|s| - 1]);
    NumberOfUnpadded(s);
  }

  lemma SignedFraction(w: string, f: string, s: string)
    requires IsDigits(w) && IsDigits(f) && (w != [] || f != []) && s == w + "." + f
    ensures SignedValue(s) == Some(DigitsValue(w) as real + FractionValue(f))
  {
    DecimalFraction(w, f, s);
    assert s[0] == '.' || IsDigit(s[0]);
  }

  /** Leading zeros do not change the parsed value. */
  lemma {:induction false} DigitsValueLeadingZero(s: string)
    requires IsDigits(s)
    ensures IsDigits("0" + s) && DigitsValue("0" + s) == DigitsValue(s)
  {
    if s != [] {
      assert ("0" + s)[..|"0" + s| - 1] == "0" + s[..|s| - 1];
      DigitsValueLeadingZero(s[..|s| - 1]);
    }
  }

  /** `s.padStart(2, "0")`. */
  function PadTwo(s: string): (r: string)
    ensures |r| == if |s| < 2 then 2 else |s|
    ensures |s| >= 2 ==> r == s
  {
    if |s| == 0 then "00" else if |s| == 1 then "0" + s else s
  }

  /** Two-digit rendering of a non-negative integer, as `String(n).padStart(2, "0")`. */
  function TwoDigits(n: nat): (r: string)
    ensures IsDigits(r) && DigitsValue(r) == n
    ensures |r| >= 2 && (n < 100 ==> |r| == 2)
  {
    var s := NatToString(n);
    DigitsOfNatToString(n);
    if |s| == 1 then DigitsValueLeadingZero(s); "0" + s else s
  }
}
