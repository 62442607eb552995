/**
 * The few pieces of JavaScript's string library the core relies on: white space,
 * `toLowerCase`, `trim`, `split(/\s+/)` and `parseInt`.
 */
module Text {
  import opened Wrappers

  /** ECMAScript WhiteSpace and LineTerminator code points (what `\s` and `trim` recognise). */
  predicate IsSpace(c: char) {
    c == '\t' || c == '\n' || c == '\U{B}' || c == '\U{C}' || c == '\r' || c == ' ' ||
    c == '\U{A0}' || c == '\U{1680}' || ('\U{2000}' <= c <= '\U{200A}') || c == '\U{2028}' ||
    c == '\U{2029}' || c == '\U{202F}' || c == '\U{205F}' || c == '\U{3000}' || c == '\U{FEFF}'
  }

  function LowerChar(c: char): char {
    if 'A' <= c <= 'Z' then (c as int + 32) as char else c
  }

  /** `toLowerCase`, for the ASCII letters. */
  function ToLower(s: string): (r: string)
    ensures |r| == |s|
    ensures forall i :: 0 <= i < |s| ==> r[i] == LowerChar(s[i])
  {
    if s == [] then [] else [LowerChar(s[0])] + ToLower(s[1..])
  }

  /** Lower-casing twice is lower-casing once, so a comparison on `ToLower` ignores case. */
  lemma ToLowerIdempotent(s: string)
    ensures ToLower(ToLower(s)) == ToLower(s)
  {
  }

  function TrimStart(s: string): (r: string)
    ensures |r| <= |s| && r == s[|s| - |r|..]
    ensures r == [] || !IsSpace(r[0])
    ensures forall i :: 0 <= i < |s| - |r| ==> IsSpace(s[i])
  {
    if s != [] && IsSpace(s[0]) then
      var tail := s[1..];
      var r := TrimStart(tail);
      assert tail[|tail| - |r|..] == s[|s| - |r|..];
      assert forall i :: 1 <= i < |s| - |r| ==> s[i] == tail[i - 1];
      r
    else s
  }

  function TrimEnd(s: string): (r: string)
    ensures |r| <= |s| && r == s[..|r|]
    ensures r == [] || !IsSpace(r[|r| - 1])
    ensures forall i :: |r| <= i < |s| ==> IsSpace(s[i])
  {
    if s != [] && IsSpace(s[|s| - 1]) then
      var init := s[..|s| - 1];
      var r := TrimEnd(init);
      assert init[..|r|] == s[..|r|];
      assert forall i :: |r| <= i < |init| ==> s[i] == init[i];
      r
    else s
  }

  /** How many white-space characters `trim` removes from the front of `s`. */
  function LeadingSpaceCount(s: string): (n: nat)
    ensures n <= |s|
  {
    |s| - |TrimStart(s)|
  }

  /** `trim`: leading white space, then trailing white space, removed. */
  function Trim(s: string): string {
    TrimEnd(TrimStart(s))
  }

  /** `trim` gives the slice of `s` that starts after the leading white space. */
  lemma TrimIsSlice(s: string)
    ensures LeadingSpaceCount(s) + |Trim(s)| <= |s|
    ensures Trim(s) == s[LeadingSpaceCount(s)..LeadingSpaceCount(s) + |Trim(s)|]
  {
    var t := TrimStart(s);
    var r := TrimEnd(t);
    var n := |s| - |t|;
    assert LeadingSpaceCount(s) == n && Trim(s) == r;
    assert t == s[n..] && r == t[..|r|];
    assert s[n..][..|r|] == s[n..n + |r|];
  }

  /**
   * What `trim` removes is white space, at both ends, and what it keeps neither starts nor
   * ends with white space.
   */
  lemma TrimRemovesSpace(s: string)
    ensures forall i :: 0 <= i < LeadingSpaceCount(s) ==> IsSpace(s[i])
    ensures forall i :: LeadingSpaceCount(s) + |Trim(s)| <= i < |s| ==> IsSpace(s[i])
    ensures Trim(s) == [] || (!IsSpace(Trim(s)[0]) && !IsSpace(Trim(s)[|Trim(s)| - 1]))
  {
    var t := TrimStart(s);
    var r := TrimEnd(t);
    var n := |s| - |t|;
    assert Trim(s) == r && LeadingSpaceCount(s) == n && t == s[n..];
    SpacesAfter(s, n, t, |r|);
    if r != [] {
      assert r[0] == t[0];
    }
  }

  /** White space at the end of a suffix `t` of `s` is white space at the end of `s`. */
  lemma SpacesAfter(s: string, n: nat, t: string, k: nat)
    requires n + |t| == |s| && t == s[n..] && k <= |t|
    requires forall j :: k <= j < |t| ==> IsSpace(t[j])
    ensures forall i :: n + k <= i < |s| ==> IsSpace(s[i])
  {
    forall i | n + k <= i < |s| ensures IsSpace(s[i]) {
      assert s[i] == t[i - n];
    }
  }

  /** The first run of non-space characters at the front of `s`. */
  function WordAtFront(s: string): (w: string)
    ensures |w| <= |s| && w == s[..|w|]
    ensures forall i :: 0 <= i < |w| ==> !IsSpace(w[i])
    ensures |w| == |s| || IsSpace(s[|w|])
  {
    if s == [] || IsSpace(s[0]) then [] else [s[0]] + WordAtFront(s[1..])
  }

  /** The maximal runs of non-space characters, in order. */
  function Words(s: string): (ws: seq<string>)
    ensures forall k :: 0 <= k < |ws| ==> ws[k] != []
  {
    if s == [] then []
    else if IsSpace(s[0]) then Words(s[1..])
    else
      var w := WordAtFront(s);
      [w] + Words(s[|w|..])
  }

  /** `trim().split(/\s+/)`: splitting an empty string still gives one (empty) part. */
  function SplitWhitespace(s: string): (parts: seq<string>)
    ensures |parts| >= 1
  {
    var t := Trim(s);
    if t == [] then [""] else Words(t)
  }

  predicate NoSpace(w: string) {
    forall i :: 0 <= i < |w| ==> !IsSpace(w[i])
  }

  /** A word of ASCII letters and digits has no white space in it. */
  lemma AlphanumericNoSpace(w: string)
    requires forall i :: 0 <= i < |w| ==> ('a' <= w[i] <= 'z') || ('A' <= w[i] <= 'Z') || ('0' <= w[i] <= '9')
    ensures NoSpace(w)
  {
  }

  /** A word followed by white space (or nothing) is the word at the front. */
  lemma {:induction false} WordAtFrontOf(w: string, rest: string)
    requires NoSpace(w)
    requires rest == [] || IsSpace(rest[0])
    ensures WordAtFront(w + rest) == w
  {
    if w == [] {
      assert w + rest == rest;
    } else {
      assert (w + rest)[1..] == w[1..] + rest;
      WordAtFrontOf(w[1..], rest);
    }
  }

  /** A word followed by nothing or by white space is the first of the words. */
  lemma WordsOfWordThen(w: string, rest: string)
    requires w != [] && NoSpace(w)
    requires rest == [] || IsSpace(rest[0])
    ensures Words(w + rest) == [w] + Words(rest)
  {
    WordAtFrontOf(w, rest);
    assert (w + rest)[|w|..] == rest;
  }

  /** A leading space separates words and is not part of any. */
  lemma WordsAfterSpace(rest: string)
    ensures Words(" " + rest) == Words(rest)
  {
    assert (" " + rest)[1..] == rest;
  }

  /** `trim` leaves a string alone that neither starts nor ends with white space. */
  lemma TrimUnspaced(s: string)
    requires s != [] && !IsSpace(s[0]) && !IsSpace(s[|s| - 1])
    ensures Trim(s) == s
  {
    assert TrimStart(s) == s;
    assert TrimEnd(s) == s;
  }

  /** Three words, each followed by a single space but the last, are the words of the text. */
  lemma WordsOfThree(a: string, b: string, c: string)
    requires a != [] && b != [] && c != [] && NoSpace(a) && NoSpace(b) && NoSpace(c)
    ensures Words(a + (" " + (b + (" " + c)))) == [a, b, c]
  {
    var cs := " " + c;
    var bs := " " + (b + cs);
    assert Words(b + cs) == [b, c] by {
      WordsOfWordThen(b, cs);
      WordsAfterSpace(c);
      WordsOfWordThen(c, []);
      assert c + [] == c;
    }
    WordsOfWordThen(a, bs);
    WordsAfterSpace(b + cs);
  }

  /** `trim().split(/\s+/)` of three words joined by single spaces gives back the three words. */
  lemma SplitThreeWords(a: string, b: string, c: string)
    requires a != [] && b != [] && c != [] && NoSpace(a) && NoSpace(b) && NoSpace(c)
    ensures SplitWhitespace(a + " " + b + " " + c) == [a, b, c]
  {
    var s := a + " " + b + " " + c;
    assert s == a + (" " + (b + (" " + c)));
    WordsOfThree(a, b, c);
    assert s[0] == a[0] && s[|s| - 1] == c[|c| - 1];
    TrimUnspaced(s);
  }

  // ---------------------------------------------------------------- parseInt

  /** The value of `c` as a digit in base 36 (letters either case), if it is one. */
  function DigitValue(c: char): (d: Option<nat>)
    ensures d.Some? ==> d.value < 36
  {
    if '0' <= c <= '9' then Some(c as int - '0' as int)
    else if 'a' <= c <= 'z' then Some(c as int - 'a' as int + 10)
    else if 'A' <= c <= 'Z' then Some(c as int - 'A' as int + 10)
    else None
  }

  predicate IsDigitIn(c: char, radix: nat) {
    DigitValue(c).Some? && DigitValue(c).value < radix
  }

  /** The longest prefix of `s` made of digits of `radix`. */
  function DigitPrefix(s: string, radix: nat): (ds: string)
    ensures |ds| <= |s| && ds == s[..|ds|]
    ensures forall i :: 0 <= i < |ds| ==> IsDigitIn(ds[i], radix)
    ensures |ds| == |s| || !IsDigitIn(s[|ds|], radix)
  {
    if s != [] && IsDigitIn(s[0], radix) then [s[0]] + DigitPrefix(s[1..], radix) else []
  }

  /** The number that the digit string `ds` denotes in base `radix`. */
  function DigitsValue(ds: string, radix: nat): nat
    requires forall i :: 0 <= i < |ds| ==> IsDigitIn(ds[i], radix)
  {
    if ds == [] then 0
    else
      var init, last := ds[..|ds| - 1], ds[|ds| - 1];
      assert forall i :: 0 <= i < |init| ==> IsDigitIn(init[i], radix) by {
        forall i | 0 <= i < |init| ensures IsDigitIn(init[i], radix) {
          assert init[i] == ds[i];
        }
      }
      assert IsDigitIn(last, radix);
      var high := DigitsValue(init, radix);
      MulNonNegative(high, radix);
      high * radix + DigitValue(last).value
  }

  lemma MulNonNegative(a: nat, b: nat)
    ensures a * b >= 0
  {
  }

  /**
   * `parseInt(s)` (when `autoHex`, no radix given: a `0x`/`0X` prefix selects base 16) or
   * `parseInt(s, 10)`. `None` is NaN: no digit follows the white space and the sign.
   */
  function ParseInt(s: string, autoHex: bool): (r: Option<int>)
    ensures var u := Unsigned(TrimStart(s));
      var hex := autoHex && HexPrefixed(u);
      var radix := if hex then 16 else 10;
      var ds := DigitPrefix(if hex then u[2..] else u, radix);
      && (r.Some? <==> ds != [])
      && (r.Some? ==> Magnitude(r.value) == DigitsValue(ds, radix))
    ensures r.Some? && r.value < 0 ==> TrimStart(s) != [] && TrimStart(s)[0] == '-'
    ensures r.Some? && TrimStart(s) != [] && TrimStart(s)[0] == '-' ==> r.value <= 0
  {
    var t := TrimStart(s);
    SignedMagnitude(t, autoHex);
    ParseSigned(t, autoHex)
  }

  /** The sign decides only the sign: the magnitude is read from the text after it. */
  lemma SignedMagnitude(t: string, autoHex: bool)
    ensures var r, m := ParseSigned(t, autoHex), ParseMagnitude(Unsigned(t), autoHex);
      && (r.Some? <==> m.Some?)
      && (r.Some? ==> Magnitude(r.value) == m.value)
      && (r.Some? && r.value < 0 ==> t != [] && t[0] == '-')
      && (r.Some? && t != [] && t[0] == '-' ==> r.value <= 0)
  {
  }

  /** The text after one leading sign character, if there is one. */
  function Unsigned(t: string): (u: string)
    ensures |u| <= |t|
  {
    if t != [] && (t[0] == '-' || t[0] == '+') then t[1..] else t
  }

  /** `0x` or `0X` at the front: with no radix given, `parseInt` reads the rest in base 16. */
  predicate HexPrefixed(u: string) {
    |u| >= 2 && u[0] == '0' && (u[1] == 'x' || u[1] == 'X')
  }

  /** The absolute value. */
  function Magnitude(n: int): nat {
    if n < 0 then -n else n
  }

  /** An optional sign, then the magnitude; a minus sign negates it. */
  function ParseSigned(t: string, autoHex: bool): Option<int> {
    if t != [] && t[0] == '-' then
      match ParseMagnitude(t[1..], autoHex)
      case None => None
      case Some(v) => Some(-v)
    else if t != [] && t[0] == '+' then ParseMagnitude(t[1..], autoHex)
    else ParseMagnitude(t, autoHex)
  }

  /** The longest run of digits at the front (after `0x` in base 16), or `None` if it is empty. */
  function ParseMagnitude(u: string, autoHex: bool): Option<int> {
    var hex := autoHex && HexPrefixed(u);
    var radix := if hex then 16 else 10;
    var ds := DigitPrefix(if hex then u[2..] else u, radix);
    if ds == [] then None else Some(DigitsValue(ds, radix))
  }

  /** 10 to the power `k`. */
  function Power10(k: nat): (p: nat)
    ensures p >= 1
  {
    if k == 0 then 1 else 10 * Power10(k - 1)
  }

  /** The decimal digits of `n`, most significant first, without leading zeros. */
  function DecimalDigits(n: nat): (ds: string)
    ensures ds != [] && forall i :: 0 <= i < |ds| ==> '0' <= ds[i] <= '9'
  {
    if n < 10 then [('0' as int + n) as char]
    else DecimalDigits(n / 10) + [('0' as int + n % 10) as char]
  }

  /** The text JavaScript gives an integer: a minus sign for negatives, then its digits. */
  function IntToString(n: int): string {
    if n < 0 then "-" + DecimalDigits(-n) else DecimalDigits(n)
  }

  lemma {:induction false} DecimalDigitsValue(n: nat)
    ensures forall i :: 0 <= i < |DecimalDigits(n)| ==> IsDigitIn(DecimalDigits(n)[i], 10)
    ensures DigitsValue(DecimalDigits(n), 10) == n
  {
    var ds := DecimalDigits(n);
    if n >= 10 {
      DecimalDigitsValue(n / 10);
      assert ds[..|ds| - 1] == DecimalDigits(n / 10);
    }
  }

  /** The digit prefix of a digit string followed by a non-digit is that digit string. */
  lemma {:induction false} DigitPrefixStopsAt(ds: string, tail: string, radix: nat)
    requires forall i :: 0 <= i < |ds| ==> IsDigitIn(ds[i], radix)
    requires tail == [] || !IsDigitIn(tail[0], radix)
    ensures DigitPrefix(ds + tail, radix) == ds
  {
    if ds != [] {
      assert (ds + tail)[1..] == ds[1..] + tail;
      DigitPrefixStopsAt(ds[1..], tail, radix);
    } else {
      assert ds + tail == tail;
    }
  }

  lemma DecimalDigitChar(c: char)
    requires IsDigitIn(c, 10)
    ensures '0' <= c <= '9' && !IsSpace(c)
  {
  }

  lemma Associative(x: string, y: string, z: string)
    ensures x + y + z == x + (y + z)
  {
  }

  /** With no white space in front, `parseInt` reads the sign at once. */
  lemma ParseUnspaced(s: string, autoHex: bool)
    requires s != [] && !IsSpace(s[0])
    ensures ParseInt(s, autoHex) == ParseSigned(s, autoHex)
  {
  }

  /** Decimal digits followed by a non-digit are the magnitude read. */
  lemma MagnitudeOfDigits(ds: string, tail: string)
    requires ds != [] && forall i :: 0 <= i < |ds| ==> IsDigitIn(ds[i], 10)
    requires tail == [] || !IsDigitIn(tail[0], 10)
    ensures ParseMagnitude(ds + tail, false) == Some(DigitsValue(ds, 10))
  {
    DigitPrefixStopsAt(ds, tail, 10);
  }

  /** Digits followed by a non-digit parse as the digits' value, leading zeros included. */
  lemma ParseUnsigned(ds: string, tail: string)
    requires ds != [] && forall i :: 0 <= i < |ds| ==> IsDigitIn(ds[i], 10)
    requires tail == [] || !IsDigitIn(tail[0], 10)
    ensures ParseInt(ds + tail, false) == Some(DigitsValue(ds, 10))
  {
    var s, c := ds + tail, ds[0];
    DecimalDigitChar(c);
    assert s[0] == c && c != '-' && c != '+';
    ParseUnspaced(s, false);
    assert ParseSigned(s, false) == ParseMagnitude(s, false);
    MagnitudeOfDigits(ds, tail);
  }

  /** A minus sign in front of a magnitude negates it. */
  lemma NegatedMagnitude(u: string, v: nat)
    requires ParseMagnitude(u, false) == Some(v)
    ensures ParseInt("-" + u, false) == Some(-(v as int))
  {
    var t := "-" + u;
    assert t[0] == '-' && t[1..] == u;
    ParseUnspaced(t, false);
  }

  /**
   * `parseInt(String(n) + tail, 10)` reads `n` back whenever `tail` does not begin with a digit:
   * parsing stops at the first character that is not one.
   */
  lemma ParseIntIgnoresTail(n: int, tail: string)
    requires tail == [] || !IsDigitIn(tail[0], 10)
    ensures ParseInt(IntToString(n) + tail, false) == Some(n)
  {
    var m := if n < 0 then -n else n;
    var ds := DecimalDigits(m);
    DecimalDigitsValue(m);
    if n < 0 {
      MagnitudeOfDigits(ds, tail);
      NegatedMagnitude(ds + tail, m);
      Associative("-", ds, tail);
      assert IntToString(n) + tail == "-" + (ds + tail);
    } else {
      ParseUnsigned(ds, tail);
      assert IntToString(n) + tail == ds + tail;
    }
  }

  /** A word that starts with an ASCII letter does not parse in base 10: `parseInt` gives NaN. */
  lemma LetterFirstIsNaN(w: string)
    requires w != [] && ('A' <= w[0] <= 'Z' || 'a' <= w[0] <= 'z')
    ensures ParseInt(w, false).None?
  {
    assert !IsSpace(w[0]) && w[0] != '-' && w[0] != '+';
    ParseUnspaced(w, false);
    assert ParseSigned(w, false) == ParseMagnitude(w, false);
    assert !IsDigitIn(w[0], 10);
    assert DigitPrefix(w, 10) == [];
  }

  /** Without a `0x` prefix after the sign, `parseInt` with no radix reads base 10. */
  lemma NoRadixIsDecimal(t: string)
    requires !HexPrefixed(Unsigned(t))
    ensures ParseSigned(t, true) == ParseSigned(t, false)
  {
    assert ParseMagnitude(Unsigned(t), true) == ParseMagnitude(Unsigned(t), false);
  }

  /** `parseInt(String(n))`, with no radix, reads back every integer `n`. */
  lemma ParseIntNoRadixRoundTrip(n: int)
    ensures ParseInt(IntToString(n), true) == Some(n)
  {
    var s := IntToString(n);
    var ds := DecimalDigits(if n < 0 then -n else n);
    assert s[0] == '-' || '0' <= s[0] <= '9';
    assert Unsigned(s) == ds;
    assert !HexPrefixed(ds) by {
      assert |ds| >= 2 ==> '0' <= ds[1] <= '9';
    }
    NoRadixIsDecimal(s);
    ParseUnspaced(s, true);
    ParseUnspaced(s, false);
    ParseIntRoundTrip(n);
  }

  /** After `0x`, the hexadecimal digits `ds` are the magnitude read. */
  lemma HexMagnitude(ds: string)
    requires ds != [] && forall i :: 0 <= i < |ds| ==> IsDigitIn(ds[i], 16)
    ensures ParseMagnitude("0x" + ds, true) == Some(DigitsValue(ds, 16))
  {
    var u := "0x" + ds;
    assert HexPrefixed(u) && u[2..] == ds;
    DigitPrefixStopsAt(ds, [], 16);
    assert ds + [] == ds;
  }

  /** `parseInt('0x' + ds)`, with no radix, reads the hexadecimal digits `ds`. */
  lemma ParseHexPrefixed(ds: string)
    requires ds != [] && forall i :: 0 <= i < |ds| ==> IsDigitIn(ds[i], 16)
    ensures ParseInt("0x" + ds, true) == Some(DigitsValue(ds, 16))
  {
    var s := "0x" + ds;
    assert s[0] == '0' && !IsSpace(s[0]);
    ParseUnspaced(s, true);
    assert ParseSigned(s, true) == ParseMagnitude(s, true);
    HexMagnitude(ds);
  }

  /** `parseInt(ds, 10)` of a string of decimal digits is their value, leading zeros included. */
  lemma ParseDigits(ds: string)
    requires ds != [] && forall i :: 0 <= i < |ds| ==> IsDigitIn(ds[i], 10)
    ensures ParseInt(ds, false) == Some(DigitsValue(ds, 10))
  {
    ParseUnsigned(ds, []);
    assert ds + [] == ds;
  }

  /** Round trip: `parseInt(String(n), 10)` gives back every integer `n`. */
  lemma ParseIntRoundTrip(n: int)
    ensures ParseInt(IntToString(n), false) == Some(n)
  {
    ParseIntIgnoresTail(n, []);
    assert IntToString(n) + [] == IntToString(n);
  }
}
