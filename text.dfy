/**
 * The string operations the services apply to request fields: JavaScript's
 * `String.prototype.trim`, `toLowerCase` (on ASCII letters), the
 * trim-then-lowercase normalisation used for every name lookup, and
 * `split(',')`.
 */
module Text {
  import opened Wrappers

  /** The code points JavaScript counts as WhiteSpace or LineTerminator, i.e. what `trim` strips. */
  predicate IsSpace(c: char) {
    || c == '\t' || c == '\n' || c == '\U{B}' || c == '\U{C}' || c == '\r' || c == ' '
    || c == '\U{A0}' || c == '\U{1680}' || ('\U{2000}' <= c <= '\U{200A}')
    || c == '\U{2028}' || c == '\U{2029}' || c == '\U{202F}' || c == '\U{205F}'
    || c == '\U{3000}' || c == '\U{FEFF}'
  }

  predicate AllSpace(s: string) {
    forall i :: 0 <= i < |s| ==> IsSpace(s[i])
  }

  /** No leading and no trailing white space. */
  predicate Trimmed(s: string) {
    s == [] || (!IsSpace(s[0]) && !IsSpace(s[|s| - 1]))
  }

  /** Drops the leading white space of `s`. */
  function TrimStart(s: string): (r: string)
    ensures |r| <= |s|
    ensures r != [] ==> !IsSpace(r[0])
    decreases |s|
  {
    if s != [] && IsSpace(s[0]) then TrimStart(s[1..]) else s
  }

  /** `TrimStart` keeps a suffix of `s` and drops only white space. */
  lemma {:induction false} TrimStartIsSuffix(s: string)
    ensures TrimStart(s) == s[|s| - |TrimStart(s)|..]
    ensures AllSpace(s[..|s| - |TrimStart(s)|])
    decreases |s|
  {
    if s != [] && IsSpace(s[0]) {
      TrimStartIsSuffix(s[1..]);
      var k := |s| - |TrimStart(s)|;
      assert s[1..][k - 1..] == s[k..];
      assert forall i :: 1 <= i < k ==> s[..k][i] == s[1..][..k - 1][i - 1];
    }
  }

  /** Drops the trailing white space of `s`. */
  function TrimEnd(s: string): (r: string)
    ensures |r| <= |s|
    ensures r != [] ==> !IsSpace(r[|r| - 1])
    decreases |s|
  {
    if s != [] && IsSpace(s[|s| - 1]) then TrimEnd(s[..|s| - 1]) else s
  }

  /** `TrimEnd` keeps a prefix of `s` and drops only white space. */
  lemma {:induction false} TrimEndIsPrefix(s: string)
    ensures TrimEnd(s) == s[..|TrimEnd(s)|]
    ensures AllSpace(s[|TrimEnd(s)|..])
    decreases |s|
  {
    if s != [] && IsSpace(s[|s| - 1]) {
      var init := s[..|s| - 1];
      TrimEndIsPrefix(init);
      var k := |TrimEnd(s)|;
      assert init[..k] == s[..k];
      assert forall i :: k <= i < |s| - 1 ==> s[i] == init[i];
    }
  }

  /** `s.trim()`: what is left of `s` after removing white space at both ends. */
  function Trim(s: string): (r: string)
    ensures |r| <= |s| && Trimmed(r)
  {
    var t := TrimStart(s);
    TrimEndIsPrefix(t);
    TrimEnd(t)
  }

  /** The trim of `s` is an infix of `s`, and only white space was cut from either end. */
  lemma TrimIsInfix(s: string)
    ensures exists i, j :: 0 <= i <= j <= |s| && Trim(s) == s[i..j] && AllSpace(s[..i]) && AllSpace(s[j..])
  {
    var t := TrimStart(s);
    var r := TrimEnd(t);
    TrimStartIsSuffix(s);
    TrimEndIsPrefix(t);
    var i := |s| - |t|;
    assert r == s[i..i + |r|];
    assert s[i + |r|..] == t[|r|..];
  }

  function LowerChar(c: char): char {
    if 'A' <= c <= 'Z' then (c as int + 32) as char else c
  }

  function UpperChar(c: char): char {
    if 'a' <= c <= 'z' then (c as int - 32) as char else c
  }

  /** `s.toLowerCase()`, restricted to the ASCII letters. */
  function ToLower(s: string): (r: string)
    ensures |r| == |s|
    ensures forall i :: 0 <= i < |s| ==> r[i] == LowerChar(s[i])
    decreases |s|
  {
    if s == [] then [] else [LowerChar(s[0])] + ToLower(s[1..])
  }

  function ToUpper(s: string): (r: string)
    ensures |r| == |s|
    ensures forall i :: 0 <= i < |s| ==> r[i] == UpperChar(s[i])
    decreases |s|
  {
    if s == [] then [] else [UpperChar(s[0])] + ToUpper(s[1..])
  }

  /** `s.trim().toLowerCase()`: the normal form under which names are stored and looked up. */
  function Normalize(s: string): string {
    ToLower(Trim(s))
  }

  /** JavaScript's `!x` on an optional string field: missing, `null` or the empty string. */
  predicate Falsy(x: Option<string>) {
    x.None? || x.value == ""
  }

  /** Two strings that differ at most in the case of their ASCII letters. */
  predicate SameUpToCase(s: string, t: string) {
    |s| == |t| && forall i :: 0 <= i < |s| ==> LowerChar(s[i]) == LowerChar(t[i])
  }

  lemma LowerKeepsSpace(c: char)
    ensures IsSpace(LowerChar(c)) <==> IsSpace(c)
  {
  }

  /** A trimmed string is its own trim. */
  lemma TrimOfTrimmed(s: string)
    requires Trimmed(s)
    ensures Trim(s) == s
  {
  }

  /** Lowercasing keeps a string trimmed, since no ASCII letter is white space. */
  lemma ToLowerKeepsTrimmed(s: string)
    requires Trimmed(s)
    ensures Trimmed(ToLower(s))
  {
    if s != [] {
      LowerKeepsSpace(s[0]);
      LowerKeepsSpace(s[|s| - 1]);
    }
  }

  /** Normalising twice is normalising once, so a lookup with an already normalised name finds the same rows. */
  lemma NormalizeIdempotent(s: string)
    ensures Normalize(Normalize(s)) == Normalize(s)
  {
    var t := Trim(s);
    var u := ToLower(t);
    ToLowerKeepsTrimmed(t);
    TrimOfTrimmed(u);
    assert Normalize(u) == ToLower(u);
    ToLowerIdempotent(t);
  }

  lemma ToLowerIdempotent(s: string)
    ensures ToLower(ToLower(s)) == ToLower(s)
  {
    var u := ToLower(s);
    forall i | 0 <= i < |s| ensures ToLower(u)[i] == u[i] {
      LowerCharIdempotent(s[i]);
    }
  }

  lemma LowerCharIdempotent(c: char)
    ensures LowerChar(LowerChar(c)) == LowerChar(c)
  {
  }

  lemma {:induction false} TrimStartPadded(pad: string, s: string)
    requires AllSpace(pad)
    ensures TrimStart(pad + s) == TrimStart(s)
    decreases |pad|
  {
    if pad != [] {
      assert (pad + s)[1..] == pad[1..] + s;
      TrimStartPadded(pad[1..], s);
    } else {
      assert pad + s == s;
    }
  }

  lemma {:induction false} TrimEndPadded(s: string, pad: string)
    requires AllSpace(pad)
    ensures TrimEnd(s + pad) == TrimEnd(s)
    decreases |pad|
  {
    if pad != [] {
      assert (s + pad)[..|s + pad| - 1] == s + pad[..|pad| - 1];
      TrimEndPadded(s, pad[..|pad| - 1]);
    } else {
      assert s + pad == s;
    }
  }

  /** Appending white space does not change what `TrimStart` keeps, apart from that white space. */
  lemma {:induction false} TrimStartThenPad(s: string, pad: string)
    requires AllSpace(pad)
    ensures TrimStart(s + pad) == if TrimStart(s) == [] then [] else TrimStart(s) + pad
    decreases |s|
  {
    if s == [] {
      assert s + pad == pad;
      assert pad == pad + [];
      TrimStartPadded(pad, []);
    } else if IsSpace(s[0]) {
      assert (s + pad)[1..] == s[1..] + pad;
      TrimStartThenPad(s[1..], pad);
    }
  }

  /** Names that differ only by white space around them normalise alike. */
  lemma NormalizeIgnoresPadding(pre: string, s: string, post: string)
    requires AllSpace(pre) && AllSpace(post)
    ensures Normalize(pre + s + post) == Normalize(s)
  {
    assert pre + s + post == pre + (s + post);
    TrimStartPadded(pre, s + post);
    TrimStartThenPad(s, post);
    if TrimStart(s) != [] {
      TrimEndPadded(TrimStart(s), post);
    }
  }

  lemma {:induction false} TrimStartUpToCase(s: string, t: string)
    requires SameUpToCase(s, t)
    ensures SameUpToCase(TrimStart(s), TrimStart(t))
    decreases |s|
  {
    if s != [] {
      LowerKeepsSpace(s[0]);
      LowerKeepsSpace(t[0]);
      if IsSpace(s[0]) {
        TrimStartUpToCase(s[1..], t[1..]);
      }
    }
  }

  lemma {:induction false} TrimEndUpToCase(s: string, t: string)
    requires SameUpToCase(s, t)
    ensures SameUpToCase(TrimEnd(s), TrimEnd(t))
    decreases |s|
  {
    if s != [] {
      LowerKeepsSpace(s[|s| - 1]);
      LowerKeepsSpace(t[|t| - 1]);
      if IsSpace(s[|s| - 1]) {
        TrimEndUpToCase(s[..|s| - 1], t[..|t| - 1]);
      }
    }
  }

  /** Names that differ only in letter case normalise alike. */
  lemma NormalizeIgnoresCase(s: string, t: string)
    requires SameUpToCase(s, t)
    ensures Normalize(s) == Normalize(t)
  {
    TrimStartUpToCase(s, t);
    TrimEndUpToCase(TrimStart(s), TrimStart(t));
  }

  /** Upper-casing is one way to differ only in case. */
  lemma UpperIsSameUpToCase(s: string)
    ensures SameUpToCase(s, ToUpper(s))
  {
  }

  /** Upper-casing and padding a name does not change its normal form. */
  lemma VariantNormalizes(name: string, pre: string, post: string)
    requires AllSpace(pre) && AllSpace(post)
    ensures Normalize(pre + ToUpper(name) + post) == Normalize(name)
  {
    NormalizeIgnoresPadding(pre, ToUpper(name), post);
    UpperIsSameUpToCase(name);
    NormalizeIgnoresCase(name, ToUpper(name));
  }

  /** `s.split(sep)` for a one-character separator: the pieces between separators, empty ones included. */
  function Split(s: string, sep: char): (r: seq<string>)
    ensures |r| >= 1
    ensures forall k :: 0 <= k < |r| ==> sep !in r[k]
    decreases |s|
  {
    if s == [] then [""]
    else
      var rest := Split(s[1..], sep);
      if s[0] == sep then [""] + rest
      else [[s[0]] + rest[0]] + rest[1..]
  }

  /** `parts.join(sep)`. */
  function Join(parts: seq<string>, sep: char): string
    decreases |parts|
  {
    if parts == [] then ""
    else if |parts| == 1 then parts[0]
    else parts[0] + [sep] + Join(parts[1..], sep)
  }

  /** Splitting loses nothing: joining the pieces with the separator gives back the string. */
  lemma {:induction false} JoinSplit(s: string, sep: char)
    ensures Join(Split(s, sep), sep) == s
    decreases |s|
  {
    if s != [] {
      var rest := Split(s[1..], sep);
      JoinSplit(s[1..], sep);
      if s[0] == sep {
        assert ([""] + rest)[1..] == rest;
      } else {
        var parts := [[s[0]] + rest[0]] + rest[1..];
        if |rest| > 1 {
          assert parts[1..] == rest[1..];
        }
      }
    }
  }

  predicate IsDigit(c: char) {
    '0' <= c <= '9'
  }

  /** The value of `c` as a digit of a base up to 36, or 36 when it is no digit at all. */
  function DigitValue(c: char): (d: nat)
    ensures d <= 36
    ensures d < 10 <==> IsDigit(c)
  {
    if IsDigit(c) then c as int - '0' as int
    else if 'a' <= c <= 'z' then c as int - 'a' as int + 10
    else if 'A' <= c <= 'Z' then c as int - 'A' as int + 10
    else 36
  }

  /** The number of digits of base `radix` at the front of `s`. */
  function DigitRun(s: string, radix: nat): (n: nat)
    ensures n <= |s|
    ensures forall i :: 0 <= i < n ==> DigitValue(s[i]) < radix
    ensures n < |s| ==> DigitValue(s[n]) >= radix
    decreases |s|
  {
    if s != [] && DigitValue(s[0]) < radix then 1 + DigitRun(s[1..], radix) else 0
  }

  /** The value of a string of digits of base `radix`. */
  function DigitsValue(ds: string, radix: nat): nat
    decreases |ds|
  {
    if ds == [] then 0 else radix * DigitsValue(ds[..|ds| - 1], radix) + DigitValue(ds[|ds| - 1])
  }

  /** The string starts with the hexadecimal prefix `0x` or `0X`. */
  predicate HexPrefixed(s: string) {
    |s| >= 2 && s[0] == '0' && (s[1] == 'x' || s[1] == 'X')
  }

  /**
   * The digits after the sign: a `0x` or `0X` prefix selects base 16,
   * anything else base 10, and the longest run of digits of that base is
   * read. `None` when no such digit follows.
   */
  function ParseMagnitude(body: string): (r: Option<nat>)
    ensures r.Some? ==> body != [] && IsDigit(body[0])
  {
    var radix := if HexPrefixed(body) then 16 else 10;
    var digits := if HexPrefixed(body) then body[2..] else body;
    var n := DigitRun(digits, radix);
    if n == 0 then None else Some(DigitsValue(digits[..n], radix))
  }

  /** An optional sign, then the magnitude. */
  function ParseSigned(t: string): (r: Option<int>)
    ensures r.Some? ==> exists i :: 0 <= i < |t| && IsDigit(t[i])
  {
    var neg := t != [] && t[0] == '-';
    var body := if t != [] && (t[0] == '-' || t[0] == '+') then t[1..] else t;
    match ParseMagnitude(body)
    case None => None
    case Some(v) =>
      assert body[0] == t[|t| - |body|];
      Some(if neg then -(v as int) else v as int)
  }

  /**
   * `parseInt(s)` with no radix: leading white space is skipped, then an
   * optional sign and the magnitude, hexadecimal after a `0x` or `0X`
   * prefix and decimal otherwise. `None` stands for `NaN`.
   */
  function ParseInt(s: string): (r: Option<int>)
    ensures r.Some? ==> exists i :: 0 <= i < |s| && IsDigit(s[i])
  {
    ParseIntHasDigit(s);
    ParseSigned(TrimStart(s))
  }

  /** A digit of the trimmed text is a digit of the text. */
  lemma ParseIntHasDigit(s: string)
    ensures ParseSigned(TrimStart(s)).Some? ==> exists i :: 0 <= i < |s| && IsDigit(s[i])
  {
    var t := TrimStart(s);
    TrimStartIsSuffix(s);
    if ParseSigned(t).Some? {
      var i :| 0 <= i < |t| && IsDigit(t[i]);
      assert t[i] == s[|s| - |t| + i];
    }
  }

  /** The decimal representation of `n`, without leading zeros. */
  function Decimal(n: nat): (r: string)
    ensures r != [] && forall i :: 0 <= i < |r| ==> IsDigit(r[i])
    decreases n
  {
    var d := ['0' + ((n % 10) as char)];
    if n < 10 then d else Decimal(n / 10) + d
  }

  lemma {:induction false} DecimalValue(n: nat)
    ensures DigitsValue(Decimal(n), 10) == n
    decreases n
  {
    var r := Decimal(n);
    if n >= 10 {
      DecimalValue(n / 10);
      assert r[..|r| - 1] == Decimal(n / 10);
    }
  }

  lemma {:induction false} DigitRunAll(s: string, radix: nat)
    requires forall i :: 0 <= i < |s| ==> DigitValue(s[i]) < radix
    ensures DigitRun(s, radix) == |s|
    decreases |s|
  {
    if s != [] {
      DigitRunAll(s[1..], radix);
    }
  }

  /** Text that does not start with white space is not trimmed. */
  lemma TrimStartNoSpace(s: string)
    requires s == [] || !IsSpace(s[0])
    ensures TrimStart(s) == s
  {
  }

  /** A run of decimal digits with no hexadecimal prefix reads back as its decimal value. */
  lemma ParseMagnitudeDecimal(ds: string)
    requires ds != [] && !HexPrefixed(ds)
    requires forall i :: 0 <= i < |ds| ==> IsDigit(ds[i])
    ensures ParseMagnitude(ds) == Some(DigitsValue(ds, 10))
  {
    DigitRunAll(ds, 10);
    assert ds[..|ds|] == ds;
  }

  /** Without a sign, the whole text is the magnitude. */
  lemma ParseSignedUnsigned(t: string)
    requires t != [] && t[0] != '-' && t[0] != '+'
    ensures ParseSigned(t) == ParseMagnitude(t)
  {
  }

  /** After a minus sign, the magnitude negated. */
  lemma ParseSignedMinus(t: string, v: nat)
    requires t != [] && t[0] == '-' && ParseMagnitude(t[1..]) == Some(v)
    ensures ParseSigned(t) == Some(-(v as int))
  {
  }

  /** After `0x`, the longest run of hexadecimal digits in base 16. */
  lemma ParseMagnitudeHex(ds: string)
    requires forall i :: 0 <= i < |ds| ==> DigitValue(ds[i]) < 16
    ensures ParseMagnitude("0x" + ds) == if ds == [] then None else Some(DigitsValue(ds, 16))
  {
    var m := "0x" + ds;
    assert HexPrefixed(m);
    assert m[2..] == ds;
    DigitRunAll(ds, 16);
    assert ds[..|ds|] == ds;
  }

  /** A run of decimal digits has no hexadecimal prefix. */
  lemma NumeralNotHex(ds: string)
    requires forall i :: 0 <= i < |ds| ==> IsDigit(ds[i])
    ensures !HexPrefixed(ds)
  {
    if |ds| >= 2 {
      assert IsDigit(ds[1]);
    }
  }

  /** A run of decimal digits reads back as its value. */
  lemma ParseIntNumeral(ds: string)
    requires ds != [] && forall i :: 0 <= i < |ds| ==> IsDigit(ds[i])
    ensures ParseInt(ds) == Some(DigitsValue(ds, 10))
  {
    assert IsDigit(ds[0]);
    NumeralNotHex(ds);
    ParseMagnitudeDecimal(ds);
    ParseSignedUnsigned(ds);
    TrimStartNoSpace(ds);
  }

  /** A minus sign before a run of decimal digits negates its value. */
  lemma ParseIntNegativeNumeral(ds: string)
    requires ds != [] && forall i :: 0 <= i < |ds| ==> IsDigit(ds[i])
    ensures ParseInt("-" + ds) == Some(-(DigitsValue(ds, 10) as int))
  {
    NumeralNotHex(ds);
    ParseMagnitudeDecimal(ds);
    var m := "-" + ds;
    assert m[0] == '-' && m[1..] == ds;
    ParseSignedMinus(m, DigitsValue(ds, 10));
    TrimStartNoSpace(m);
  }

  /** `parseInt` reads back every decimal numeral ... */
  lemma ParseIntDecimal(n: nat)
    ensures ParseInt(Decimal(n)) == Some(n)
  {
    ParseIntNumeral(Decimal(n));
    DecimalValue(n);
  }

  /** ... and every negative one. */
  lemma ParseIntNegativeDecimal(n: nat)
    ensures ParseInt("-" + Decimal(n)) == Some(-(n as int))
  {
    ParseIntNegativeNumeral(Decimal(n));
    DecimalValue(n);
  }

  /**
   * With no radix, a `0x` prefix followed by hexadecimal digits is read in
   * base 16; a prefix with no hexadecimal digit after it is `NaN`.
   */
  lemma ParseIntHex(ds: string)
    requires forall i :: 0 <= i < |ds| ==> DigitValue(ds[i]) < 16
    ensures ParseInt("0x" + ds) == if ds == [] then None else Some(DigitsValue(ds, 16))
  {
    var m := "0x" + ds;
    assert m[0] == '0';
    TrimStartNoSpace(m);
    ParseSignedUnsigned(m);
    ParseMagnitudeHex(ds);
  }

  /** The input that shows the hexadecimal reading: `"0x10"` is 16, where a decimal reading gives 0. */
  lemma ParseIntHexExample()
    ensures ParseInt("0x10") == Some(16)
    ensures ParseInt("0x") == None
  {
    assert "0x" + "10" == "0x10";
    assert "0x" + "" == "0x";
    ParseIntHex("10");
    ParseIntHex("");
    assert DigitsValue("10", 16) == 16 by {
      assert "10"[..1] == "1";
      assert "1"[..0] == "";
    }
  }
}
