/**
 * The URL parameter parsers of js/main.js, `parseDimensions` and `parseScale`,
 * together with the parts of JavaScript's `RegExp.prototype.test`,
 * `String.prototype.split(",")` and global `parseInt` (no radix argument) they rely on.
 * A parameter that is absent from the URL arrives as `null`, which `test` reads as the
 * text "null"; `NaN` results of `parseInt` are `None`.
 */
module Params {
  import opened Wrappers

  /** `\d`: an ASCII decimal digit. */
  predicate IsDigit(c: char) {
    '0' <= c <= '9'
  }

  predicate AllDigits(s: string) {
    forall i :: 0 <= i < |s| ==> IsDigit(s[i])
  }

  predicate NoComma(s: string) {
    forall i :: 0 <= i < |s| ==> s[i] != ','
  }

  /** A digit of radix 16 (when `hex`) or 10. */
  predicate IsRadixDigit(c: char, hex: bool) {
    IsDigit(c) || (hex && ('a' <= c <= 'f' || 'A' <= c <= 'F'))
  }

  function DigitValue(c: char, hex: bool): (v: nat)
    requires IsRadixDigit(c, hex)
    ensures v < (if hex then 16 else 10)
  {
    if IsDigit(c) then (c as int) - ('0' as int)
    else if 'a' <= c <= 'f' then (c as int) - ('a' as int) + 10
    else (c as int) - ('A' as int) + 10
  }

  /** The characters `parseInt` skips at the start: white space and line terminators, every space separator included. */
  predicate IsStrWhiteSpace(c: char) {
    var u := c as int;
    u == 0x09 || u == 0x0A || u == 0x0B || u == 0x0C || u == 0x0D || u == 0x20
    || u == 0xA0 || u == 0x1680 || (0x2000 <= u <= 0x200A) || u == 0x2028 || u == 0x2029
    || u == 0x202F || u == 0x205F || u == 0x3000 || u == 0xFEFF
  }

  /** Drops the leading white space. */
  function TrimStart(s: string): (t: string)
    ensures |t| <= |s| && t == s[|s| - |t|..]
    ensures |t| > 0 ==> !IsStrWhiteSpace(t[0])
    ensures forall i :: 0 <= i < |s| - |t| ==> IsStrWhiteSpace(s[i])
    decreases |s|
  {
    if |s| > 0 && IsStrWhiteSpace(s[0]) then TrimStart(s[1..]) else s
  }

  /** The longest prefix made of radix digits. */
  function DigitPrefix(s: string, hex: bool): (p: string)
    ensures |p| <= |s| && p == s[..|p|]
    ensures forall i :: 0 <= i < |p| ==> IsRadixDigit(p[i], hex)
    ensures |p| < |s| ==> !IsRadixDigit(s[|p|], hex)
    decreases |s|
  {
    if |s| > 0 && IsRadixDigit(s[0], hex) then [s[0]] + DigitPrefix(s[1..], hex) else []
  }

  /** The value of a string of digits, most significant first. */
  function DigitsValue(p: string, hex: bool): nat
    requires forall i :: 0 <= i < |p| ==> IsRadixDigit(p[i], hex)
    decreases |p|
  {
    if |p| == 0 then 0
    else DigitsValue(p[..|p| - 1], hex) * (if hex then 16 else 10) + DigitValue(p[|p| - 1], hex)
  }

  /** The number in front of `v`, `None` when `v` does not start with a digit. */
  function LeadingNumber(v: string, hex: bool): (r: Option<nat>)
    ensures r.Some? <==> |v| > 0 && IsRadixDigit(v[0], hex)
  {
    var z := DigitPrefix(v, hex);
    if |z| == 0 then None else Some(DigitsValue(z, hex))
  }

  /** After the sign: a `0x`/`0X` prefix switches to radix 16. */
  predicate HexPrefixed(u: string) {
    |u| >= 2 && u[0] == '0' && (u[1] == 'x' || u[1] == 'X')
  }

  function Magnitude(u: string): (r: Option<nat>)
    ensures r.Some? <==> (if HexPrefixed(u) then |u| > 2 && IsRadixDigit(u[2], true) else |u| > 0 && IsDigit(u[0]))
  {
    if HexPrefixed(u) then LeadingNumber(u[2..], true) else LeadingNumber(u, false)
  }

  /** Applies a sign to a magnitude; `NaN` stays `NaN`. */
  function WithSign(negative: bool, m: Option<nat>): (r: Option<int>)
    ensures r.Some? <==> m.Some?
    ensures r.Some? ==> r.value == (if negative then -(m.value as int) else m.value as int)
  {
    match m
    case None => None
    case Some(v) => if negative then Some(0 - v) else Some(v as int)
  }

  /** An optional sign, then the magnitude; `-0` is the integer 0. */
  function Signed(t: string): (r: Option<int>)
    ensures r == WithSign(Negated(t), Magnitude(AfterSign(t)))
  {
    if |t| > 0 && t[0] == '-' then WithSign(true, Magnitude(t[1..]))
    else if |t| > 0 && t[0] == '+' then WithSign(false, Magnitude(t[1..]))
    else WithSign(false, Magnitude(t))
  }

  /**
   * Global `parseInt(s)` without a radix: skip white space, read an optional sign,
   * switch to radix 16 after a `0x`/`0X` prefix, then read the longest digit prefix;
   * `NaN` (here `None`) when that prefix is empty.
   */
  function ParseInt(s: string): (r: Option<int>)
    ensures var u := AfterSign(TrimStart(s));
      r.Some? <==> (if HexPrefixed(u) then |u| > 2 && IsRadixDigit(u[2], true) else |u| > 0 && IsDigit(u[0]))
    ensures r.Some? && Negated(TrimStart(s)) ==> r.value <= 0
    ensures r.Some? && !Negated(TrimStart(s)) ==> r.value >= 0
  {
    Signed(TrimStart(s))
  }

  /** The text starts with a minus sign. */
  predicate Negated(t: string) {
    |t| > 0 && t[0] == '-'
  }

  /** The text after an optional leading sign. */
  function AfterSign(t: string): string {
    if |t| > 0 && (t[0] == '-' || t[0] == '+') then t[1..] else t
  }

  /**
   * 2^53: every integer of at most this magnitude is a double, so `parseInt` returns
   * it exactly; above it the double `parseInt` returns may be rounded.
   */
  const ExactLimit: nat := 0x20_0000_0000_0000

  /** `/\d+/.test(s)`: some digit occurs. */
  predicate HasDigit(s: string) {
    exists i :: 0 <= i < |s| && IsDigit(s[i])
  }

  /** `/\d+,\d+/.test(s)`: some comma sits between two digits (the pattern is not anchored). */
  predicate HasDigitPair(s: string) {
    exists i :: 0 <= i && i + 2 < |s| && IsDigit(s[i]) && s[i + 1] == ',' && IsDigit(s[i + 2])
  }

  /**
   * `/\d+,\d+,\d+/.test(s)`: a digit, a comma, a non-empty run of digits, a comma and
   * a digit, in a row, somewhere in the text.
   */
  predicate HasDigitTriple(s: string) {
    exists i, j | 0 <= i < |s| && 0 <= j < |s| :: TripleAt(s, i, j)
  }

  /** The three-number pattern with its first digit at `i` and its second comma at `j`. */
  predicate TripleAt(s: string, i: int, j: int) {
    0 <= i && i + 2 < j && j + 1 < |s| && IsDigit(s[i]) && s[i + 1] == ','
    && AllDigits(s[i + 2..j]) && s[j] == ',' && IsDigit(s[j + 1])
  }

  /** The position of the first comma, or -1 when there is none. */
  function IndexOfComma(s: string): (i: int)
    ensures -1 <= i < |s|
    ensures i >= 0 ==> s[i] == ','
    ensures forall k :: 0 <= k < |s| && (i < 0 || k < i) ==> s[k] != ','
    decreases |s|
  {
    if |s| == 0 then -1
    else if s[0] == ',' then 0
    else
      var j := IndexOfComma(s[1..]);
      if j < 0 then -1 else j + 1
  }

  /** `s.split(",")`: the comma-free fields between the commas, in order. */
  function Split(s: string): (fields: seq<string>)
    ensures |fields| >= 1
    decreases |s|
  {
    var i := IndexOfComma(s);
    if i < 0 then [s] else [s[..i]] + Split(s[i + 1..])
  }

  /** A comma-free text is a single field. */
  lemma SplitNoComma(a: string)
    requires NoComma(a)
    ensures Split(a) == [a]
  {
  }

  /** Splitting at the first comma: the text before it, then the fields of the rest. */
  lemma SplitAtFirstComma(a: string, b: string)
    requires NoComma(a)
    ensures Split(a + "," + b) == [a] + Split(b)
  {
    var s := a + "," + b;
    assert s[|a|] == ',';
    assert forall k :: 0 <= k < |a| ==> s[k] == a[k];
    var i := IndexOfComma(s);
    assert i == |a|;
    assert s[..i] == a;
    assert s[i + 1..] == b;
  }

  /** Text with a digit-comma-digit pattern splits into at least two fields. */
  lemma PairSplitsInTwo(s: string)
    requires HasDigitPair(s)
    ensures |Split(s)| >= 2
  {
    var k :| 0 <= k && k + 2 < |s| && IsDigit(s[k]) && s[k + 1] == ',' && IsDigit(s[k + 2]);
    assert IndexOfComma(s) >= 0;
  }

  /** The result of `parseDimensions`: `None` stands for `NaN`. */
  datatype Dimensions = Dimensions(width: Option<int>, height: Option<int>)

  /** The text `RegExp.prototype.test` sees: `null` becomes "null". */
  function TestText(input: Option<string>): string {
    match input
    case None => "null"
    case Some(s) => s
  }

  /** "null" has no digit, so a missing parameter never matches a digit pattern. */
  lemma NullHasNoDigit()
    ensures !HasDigit("null") && !HasDigitPair("null") && !HasDigitTriple("null")
  {
    var t := "null";
    assert forall i :: 0 <= i < |t| ==> !IsDigit(t[i]);
  }

  /**
   * `parseDimensions`: 8 by 8 unless a digit occurs; with a digit-comma-digit
   * pattern, the `parseInt` of the first two comma fields; otherwise the
   * `parseInt` of the whole text for both.
   */
  function ParseDimensions(input: Option<string>): (d: Dimensions)
    ensures !HasDigit(TestText(input)) ==> d == Dimensions(Some(8), Some(8))
    ensures input.None? ==> d == Dimensions(Some(8), Some(8))
    ensures HasDigit(TestText(input)) && !HasDigitPair(TestText(input)) ==>
      d.width == d.height == ParseInt(input.value)
    ensures HasDigitPair(TestText(input)) ==>
      (|Split(input.value)| >= 2
       && d.width == ParseInt(Split(input.value)[0]) && d.height == ParseInt(Split(input.value)[1]))
  {
    var text := TestText(input);
    NullHasNoDigit();
    if !HasDigit(text) then Dimensions(Some(8), Some(8))
    else if HasDigitPair(text) then
      PairSplitsInTwo(text);
      var fields := Split(input.value);
      Dimensions(ParseInt(fields[0]), ParseInt(fields[1]))
    else
      var n := ParseInt(input.value);
      Dimensions(n, n)
  }

  /** The three integers `parseScale` hands to the scale vector; `None` entries are `NaN`. */
  datatype Scale = Scale(x: Option<int>, y: Option<int>, z: Option<int>)

  /** Two commas at `a < b` give at least three fields. */
  lemma {:induction false} CommasGiveFields(s: string, a: int, b: int)
    requires 0 <= a < b < |s| && s[a] == ',' && s[b] == ','
    ensures |Split(s)| >= 3
    decreases |s|
  {
    var i := IndexOfComma(s);
    assert 0 <= i <= a;
    var rest := s[i + 1..];
    assert rest[b - i - 1] == ',';
    if i == a {
      assert IndexOfComma(rest) >= 0;
    } else {
      assert rest[a - i - 1] == ',';
      CommasGiveFields(rest, a - i - 1, b - i - 1);
    }
  }

  /** Text with the three-number pattern splits into at least three fields. */
  lemma TripleSplitsInThree(s: string)
    requires HasDigitTriple(s)
    ensures |Split(s)| >= 3
  {
    var i, j :| 0 <= i < |s| && 0 <= j < |s| && TripleAt(s, i, j);
    assert s[i + 1] == ',' && s[j] == ',';
    CommasGiveFields(s, i + 1, j);
  }

  /** `parseScale`: `null` unless the three-number pattern occurs, then the `parseInt` of the first three comma fields. */
  function ParseScale(input: Option<string>): (r: Option<Scale>)
    ensures r.Some? <==> HasDigitTriple(TestText(input))
    ensures r.Some? ==>
      (input.Some? && |Split(input.value)| >= 3
       && r.value == Scale(ParseInt(Split(input.value)[0]), ParseInt(Split(input.value)[1]), ParseInt(Split(input.value)[2])))
  {
    var text := TestText(input);
    NullHasNoDigit();
    if HasDigitTriple(text) then
      TripleSplitsInThree(text);
      var fields := Split(input.value);
      Some(Scale(ParseInt(fields[0]), ParseInt(fields[1]), ParseInt(fields[2])))
    else
      None
  }

  // ---------------------------------------------------------------------------
  // Decimal text of a natural number, and the round trips through the parsers.

  function DigitChar(d: nat): (c: char)
    requires d < 10
    ensures IsDigit(c) && DigitValue(c, false) == d
  {
    ('0' as int + d) as char
  }

  /** The decimal text of `n`, without sign or leading zeros. */
  function NatText(n: nat): (s: string)
    ensures |s| >= 1 && AllDigits(s)
    decreases n
  {
    if n < 10 then [DigitChar(n)] else NatText(n / 10) + [DigitChar(n % 10)]
  }

  /** Decimal digits contain no comma. */
  lemma DigitsNoComma(s: string)
    requires AllDigits(s)
    ensures NoComma(s)
  {
    assert forall i :: 0 <= i < |s| ==> IsDigit(s[i]);
  }

  /** Reading the decimal text of `n` gives back `n`. */
  lemma {:induction false} NatTextValue(n: nat)
    ensures forall i :: 0 <= i < |NatText(n)| ==> IsRadixDigit(NatText(n)[i], false)
    ensures DigitsValue(NatText(n), false) == n
    decreases n
  {
    var s := NatText(n);
    assert forall i :: 0 <= i < |s| ==> IsDigit(s[i]);
    if n >= 10 {
      NatTextValue(n / 10);
      assert s[..|s| - 1] == NatText(n / 10);
    }
  }

  /** The digit prefix of a string of decimal digits followed by a non-digit is that string. */
  lemma {:induction false} DigitPrefixOfDigits(a: string, b: string)
    requires AllDigits(a)
    requires |b| == 0 || !IsDigit(b[0])
    ensures DigitPrefix(a + b, false) == a
    decreases |a|
  {
    if |a| > 0 {
      assert (a + b)[1..] == a[1..] + b;
      DigitPrefixOfDigits(a[1..], b);
    } else {
      assert a + b == b;
    }
  }

  /** A character that can neither extend a decimal number nor turn a leading 0 into a hex prefix. */
  predicate Terminates(rest: string) {
    |rest| == 0 || (!IsDigit(rest[0]) && rest[0] != 'x' && rest[0] != 'X')
  }

  /** The magnitude read from a decimal text followed by a terminating character. */
  lemma MagnitudeOfNatText(n: nat, rest: string)
    requires Terminates(rest)
    ensures Magnitude(NatText(n) + rest) == Some(n)
  {
    var s := NatText(n) + rest;
    var a := NatText(n);
    assert IsDigit(s[0]);
    assert !HexPrefixed(s) by {
      if |s| >= 2 {
        if |a| >= 2 { assert s[1] == a[1]; assert IsDigit(a[1]); } else { assert s[1] == rest[0]; }
      }
    }
    DigitPrefixOfDigits(a, rest);
    NatTextValue(n);
  }

  /** `parseInt` reads a decimal number back from its text, whatever text follows that neither continues it nor makes a `0x` prefix. */
  lemma ParseIntOfNatText(n: nat, rest: string)
    requires n <= ExactLimit && Terminates(rest)
    ensures ParseInt(NatText(n) + rest) == Some(n)
  {
    var s := NatText(n) + rest;
    assert IsDigit(s[0]);
    assert TrimStart(s) == s;
    MagnitudeOfNatText(n, rest);
  }

  /** A minus sign in front negates the value. */
  lemma ParseIntOfNegative(n: nat)
    requires n <= ExactLimit
    ensures ParseInt("-" + NatText(n)) == Some(-(n as int))
  {
    var s := "-" + NatText(n);
    assert s[0] == '-' && !IsStrWhiteSpace(s[0]);
    assert TrimStart(s) == s;
    assert s[1..] == NatText(n) + "";
    MagnitudeOfNatText(n, "");
    assert Signed(s) == WithSign(true, Magnitude(s[1..]));
  }

  /** A text that starts with a letter is `NaN`. */
  lemma ParseIntOfLetterFirst(c: char, rest: string)
    requires 'a' <= c <= 'z' || 'A' <= c <= 'Z'
    ensures ParseInt([c] + rest) == None
  {
    var s := [c] + rest;
    assert TrimStart(s) == s;
    assert !HexPrefixed(s);
  }

  /** `parseInt` reads back the decimal text of a natural number. */
  lemma ParseIntOfNat(n: nat)
    requires n <= ExactLimit
    ensures ParseInt(NatText(n)) == Some(n)
  {
    ParseIntOfNatText(n, "");
    assert NatText(n) + "" == NatText(n);
  }

  /** Two comma-free texts joined by a comma split back into the two. */
  lemma SplitTwo(a: string, b: string)
    requires NoComma(a) && NoComma(b)
    ensures Split(a + "," + b) == [a, b]
  {
    SplitAtFirstComma(a, b);
    SplitNoComma(b);
  }

  /** Three comma-free texts joined by commas split back into the three. */
  lemma SplitThree(a: string, b: string, c: string)
    requires NoComma(a) && NoComma(b) && NoComma(c)
    ensures Split(a + "," + b + "," + c) == [a, b, c]
  {
    var rest := b + "," + c;
    assert a + "," + b + "," + c == a + "," + rest;
    SplitAtFirstComma(a, rest);
    SplitTwo(b, c);
    assert [a] + [b, c] == [a, b, c];
  }

  /** Two non-empty digit strings joined by a comma match the digit-comma-digit pattern. */
  lemma PairPattern(a: string, b: string, rest: string)
    requires |a| >= 1 && |b| >= 1 && AllDigits(a) && AllDigits(b)
    ensures HasDigit(a + "," + b + rest) && HasDigitPair(a + "," + b + rest)
  {
    var s := a + "," + b + rest;
    assert IsDigit(s[|a| - 1]) && s[|a|] == ',' && IsDigit(s[|a| + 1]);
  }

  /** Round trip: "W,H" parses to (W, H). */
  lemma DimensionsRoundTripPair(w: nat, h: nat)
    requires w <= ExactLimit && h <= ExactLimit
    ensures ParseDimensions(Some(NatText(w) + "," + NatText(h))) == Dimensions(Some(w), Some(h))
  {
    var a := NatText(w);
    var b := NatText(h);
    PairPattern(a, b, "");
    assert a + "," + b + "" == a + "," + b;
    DigitsNoComma(a);
    DigitsNoComma(b);
    SplitTwo(a, b);
    ParseIntOfNat(w);
    ParseIntOfNat(h);
  }

  /** Round trip: "N" parses to (N, N). */
  lemma DimensionsRoundTripSingle(n: nat)
    requires n <= ExactLimit
    ensures ParseDimensions(Some(NatText(n))) == Dimensions(Some(n), Some(n))
  {
    var s := NatText(n);
    assert HasDigit(s) by { assert IsDigit(s[0]); }
    assert forall i :: 0 <= i < |s| ==> IsDigit(s[i]);
    assert !HasDigitPair(s);
    ParseIntOfNat(n);
  }

  /** Fields after the second are ignored: "W,H,D" parses to (W, H). */
  lemma DimensionsIgnoreExtraFields(w: nat, h: nat, d: nat)
    requires w <= ExactLimit && h <= ExactLimit
    ensures ParseDimensions(Some(NatText(w) + "," + NatText(h) + "," + NatText(d))) == Dimensions(Some(w), Some(h))
  {
    var a := NatText(w);
    var b := NatText(h);
    var c := NatText(d);
    PairPattern(a, b, "," + c);
    assert a + "," + b + ("," + c) == a + "," + b + "," + c;
    DigitsNoComma(a);
    DigitsNoComma(b);
    DigitsNoComma(c);
    SplitThree(a, b, c);
    ParseIntOfNat(w);
    ParseIntOfNat(h);
  }

  /** A text with the digit-comma-digit pattern parses to the `parseInt` values of its first two fields. */
  lemma DimensionsOfFields(s: string, a: string, b: string)
    requires HasDigit(s) && HasDigitPair(s) && |Split(s)| >= 2 && Split(s)[0] == a && Split(s)[1] == b
    ensures ParseDimensions(Some(s)) == Dimensions(ParseInt(a), ParseInt(b))
  {
    assert TestText(Some(s)) == s;
  }

  /** "x3,4" has the digit-comma-digit pattern and splits into "x3" and "4". */
  lemma LeadingLetterPattern()
    ensures HasDigit("x3,4") && HasDigitPair("x3,4") && Split("x3,4") == ["x3", "4"]
  {
    var s := "x3,4";
    assert IsDigit(s[1]) && s[2] == ',' && IsDigit(s[3]);
    assert s == "x3" + "," + "4";
    SplitTwo("x3", "4");
  }

  /** The unanchored pattern accepts "x3,4", but the first field is `NaN`. */
  lemma DimensionsLeadingLetter()
    ensures ParseDimensions(Some("x3,4")) == Dimensions(None, Some(4))
  {
    LeadingLetterPattern();
    DimensionsOfFields("x3,4", "x3", "4");
    LetterField();
    DigitField();
  }

  lemma LetterField()
    ensures ParseInt("x3") == None
  {
    assert "x3" == ['x'] + "3";
    ParseIntOfLetterFirst('x', "3");
  }

  lemma DigitField()
    ensures ParseInt("4") == Some(4)
  {
    assert NatText(4) == "4";
    ParseIntOfNat(4);
  }

  /** A leading minus sign survives: "-W,H" parses to (-W, H), for example "-3,4" to (-3, 4). */
  lemma DimensionsNegativeWidth(w: nat, h: nat)
    requires w <= ExactLimit && h <= ExactLimit
    ensures ParseDimensions(Some("-" + NatText(w) + "," + NatText(h))) == Dimensions(Some(-(w as int)), Some(h))
  {
    var a := "-" + NatText(w);
    var b := NatText(h);
    var s := a + "," + b;
    assert IsDigit(s[|a| - 1]) && s[|a|] == ',' && IsDigit(s[|a| + 1]);
    assert HasDigit(s) && HasDigitPair(s);
    DigitsNoComma(NatText(w));
    assert NoComma(a);
    DigitsNoComma(b);
    SplitTwo(a, b);
    ParseIntOfNegative(w);
    ParseIntOfNat(h);
  }

  /** Three non-empty digit strings joined by commas match the three-number pattern. */
  lemma TriplePattern(a: string, b: string, c: string)
    requires |a| >= 1 && |b| >= 1 && |c| >= 1 && AllDigits(a) && AllDigits(b) && AllDigits(c)
    ensures HasDigitTriple(a + "," + b + "," + c)
  {
    var s := a + "," + b + "," + c;
    var i := |a| - 1;
    var j := |a| + 1 + |b|;
    assert s[i + 2..j] == b;
    assert IsDigit(s[i]) && s[i + 1] == ',' && s[j] == ',' && IsDigit(s[j + 1]);
    assert TripleAt(s, i, j);
  }

  /** A text with the three-number pattern that splits into exactly three fields parses to their `parseInt` values. */
  lemma ScaleOfFields(s: string, a: string, b: string, c: string)
    requires HasDigitTriple(s) && Split(s) == [a, b, c]
    ensures ParseScale(Some(s)) == Some(Scale(ParseInt(a), ParseInt(b), ParseInt(c)))
  {
    assert TestText(Some(s)) == s;
  }

  /** Round trip: "X,Y,Z" parses to the scale (X, Y, Z). */
  lemma ScaleRoundTrip(x: nat, y: nat, z: nat)
    requires x <= ExactLimit && y <= ExactLimit && z <= ExactLimit
    ensures ParseScale(Some(NatText(x) + "," + NatText(y) + "," + NatText(z))) == Some(Scale(Some(x), Some(y), Some(z)))
  {
    var a := NatText(x);
    var b := NatText(y);
    var c := NatText(z);
    TriplePattern(a, b, c);
    DigitsNoComma(a);
    DigitsNoComma(b);
    DigitsNoComma(c);
    SplitThree(a, b, c);
    ScaleOfFields(a + "," + b + "," + c, a, b, c);
    ParseIntOfNat(x);
    ParseIntOfNat(y);
    ParseIntOfNat(z);
  }
}
