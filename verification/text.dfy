/** String helpers shared by the back end and the front end: JavaScript's notion of
    white space (used by `String.prototype.trim` and the regular-expression class `\s`),
    ASCII digits (`\d`), filtering, and decimal rendering of natural numbers. */
module Text {

  /** ECMAScript WhiteSpace and LineTerminator code points. All of them lie in the
      Basic Multilingual Plane, so a UTF-16 code unit and a code point agree on them. */
  predicate IsJsSpace(c: char) {
    if c < '\U{00A0}' then
      c == ' ' || '\t' <= c <= '\r'  // tab, line feed, vertical tab, form feed, carriage return
    else
      || c == '\U{00A0}' || c == '\U{1680}' || '\U{2000}' <= c <= '\U{200A}'
      || c == '\U{2028}' || c == '\U{2029}' || c == '\U{202F}' || c == '\U{205F}'
      || c == '\U{3000}' || c == '\U{FEFF}'
  }

  /** The characters of JavaScript's `\d` (no Unicode flag): ASCII digits only. */
  predicate IsDigit(c: char) {
    '0' <= c <= '9'
  }

  predicate AllDigits(s: string) {
    forall k :: 0 <= k < |s| ==> IsDigit(s[k])
  }

  predicate StartsWith(s: string, prefix: string) {
    |prefix| <= |s| && s[..|prefix|] == prefix
  }

  predicate AllSpace(s: string) {
    forall k :: 0 <= k < |s| ==> IsJsSpace(s[k])
  }

  /** Number of leading white-space characters: where `s.trimStart()` begins. */
  function LeadingSpace(s: string): (i: nat)
    ensures i <= |s|
    ensures forall k :: 0 <= k < i ==> IsJsSpace(s[k])
    ensures i < |s| ==> !IsJsSpace(s[i])
  {
    if |s| > 0 && IsJsSpace(s[0]) then
      var i := 1 + LeadingSpace(s[1..]);
      assert forall k :: 1 <= k < i ==> s[k] == s[1..][k - 1];
      i
    else 0
  }

  /** Length of `s` without its trailing white space: where `s.trimEnd()` ends. */
  function TrailingStart(s: string): (j: nat)
    ensures j <= |s|
    ensures forall k :: j <= k < |s| ==> IsJsSpace(s[k])
    ensures j > 0 ==> !IsJsSpace(s[j - 1])
  {
    if |s| > 0 && IsJsSpace(s[|s| - 1]) then
      var j := TrailingStart(s[..|s| - 1]);
      assert forall k :: j <= k < |s| - 1 ==> s[k] == s[..|s| - 1][k];
      j
    else |s|
  }

  /** `s.trim()`: `s` without leading and trailing white space. It is empty exactly
      when every character of `s` is white space, which is what `!value.trim()` tests.
      Together the clauses fix the result: the slice that only white space surrounds
      and that neither begins nor ends with white space. */
  function Trim(s: string): (r: string)
    ensures exists i, j {:trigger s[i..j]} ::
      0 <= i <= j <= |s| && r == s[i..j] && AllSpace(s[..i]) && AllSpace(s[j..])
    ensures r == [] <==> AllSpace(s)
    ensures r != [] ==> !IsJsSpace(r[0]) && !IsJsSpace(r[|r| - 1])
  {
    var i := LeadingSpace(s);
    var j := TrailingStart(s);
    if j <= i then
      assert AllSpace(s[..0]) && AllSpace(s[0..]);
      s[0..0]
    else
      assert !IsJsSpace(s[i]);
      assert AllSpace(s[..i]) && AllSpace(s[j..]);
      s[i..j]
  }

  /** Separators dropped from a phone number before it is given a country code. */
  predicate IsPhoneSeparator(c: char) {
    IsJsSpace(c) || c == '-'
  }

  /** `s.replace(/[\s-]/g, '')`: drop every white-space character and every dash. */
  function StripSpacesAndDashes(s: string): string
  {
    if s == [] then []
    else
      var rest := StripSpacesAndDashes(s[1..]);
      if IsPhoneSeparator(s[0]) then rest else [s[0]] + rest
  }

  /** Every other character survives stripping, as often as it occurs. */
  lemma {:induction false} StripKeepsOthers(s: string)
    ensures forall c {:trigger multiset(StripSpacesAndDashes(s))[c]} ::
      !IsPhoneSeparator(c) ==> multiset(StripSpacesAndDashes(s))[c] == multiset(s)[c]
    ensures multiset(StripSpacesAndDashes(s)) <= multiset(s)
  {
    if s != [] {
      StripKeepsOthers(s[1..]);
      assert s == [s[0]] + s[1..];
    }
  }

  /** Stripping leaves no separator behind and never lengthens the string. */
  lemma {:induction false} StripRemovesSeparators(s: string)
    ensures |StripSpacesAndDashes(s)| <= |s|
    ensures forall k :: 0 <= k < |StripSpacesAndDashes(s)| ==> !IsPhoneSeparator(StripSpacesAndDashes(s)[k])
  {
    if s != [] {
      StripRemovesSeparators(s[1..]);
    }
  }

  /** A string without separators is its own stripped form, so stripping is idempotent. */
  lemma {:induction false} StripKeepsPlain(s: string)
    requires forall k :: 0 <= k < |s| ==> !IsPhoneSeparator(s[k])
    ensures StripSpacesAndDashes(s) == s
  {
    if s != [] {
      StripKeepsPlain(s[1..]);
    }
  }

  /** A digit is never a separator. */
  lemma DigitsArePlain(s: string)
    requires AllDigits(s)
    ensures forall k :: 0 <= k < |s| ==> !IsPhoneSeparator(s[k])
  {
  }

  /** Stripping distributes over concatenation. */
  lemma {:induction false} StripAppend(a: string, b: string)
    ensures StripSpacesAndDashes(a + b) == StripSpacesAndDashes(a) + StripSpacesAndDashes(b)
  {
    if a == [] {
      assert a + b == b;
    } else {
      assert (a + b)[0] == a[0];
      assert (a + b)[1..] == a[1..] + b;
      StripAppend(a[1..], b);
      if !IsPhoneSeparator(a[0]) {
        assert StripSpacesAndDashes(a + b)
          == [a[0]] + (StripSpacesAndDashes(a[1..]) + StripSpacesAndDashes(b));
      }
    }
  }

  /** `s.replace(/\D/g, '')`: keep the ASCII digits, in order. */
  function DigitsOf(s: string): (r: string)
    ensures |r| <= |s|
    ensures AllDigits(r)
    ensures AllDigits(s) ==> r == s
    // every digit of `s` is kept, as often as it occurs, and nothing else
    ensures forall c {:trigger multiset(r)[c]} :: IsDigit(c) ==> multiset(r)[c] == multiset(s)[c]
    ensures multiset(r) <= multiset(s)
  {
    if s == [] then []
    else
      var rest := DigitsOf(s[1..]);
      assert s == [s[0]] + s[1..];
      if IsDigit(s[0]) then [s[0]] + rest else rest
  }

  /** Filtering digits distributes over concatenation, so it keeps their order. */
  lemma {:induction false} DigitsOfAppend(a: string, b: string)
    ensures DigitsOf(a + b) == DigitsOf(a) + DigitsOf(b)
  {
    if a == [] {
      assert a + b == b;
    } else {
      assert (a + b)[0] == a[0];
      assert (a + b)[1..] == a[1..] + b;
      DigitsOfAppend(a[1..], b);
      if IsDigit(a[0]) {
        assert DigitsOf(a + b) == [a[0]] + (DigitsOf(a[1..]) + DigitsOf(b));
      }
    }
  }

  // ---------------------------------------------------------------------------
  // Space-separated tokens

  predicate NoSpaceChar(w: string) {
    forall k :: 0 <= k < |w| ==> w[k] != ' '
  }

  /** Length of the token `s` starts with: up to the first space. */
  function TokenEnd(s: string): (i: nat)
    ensures i <= |s|
    ensures NoSpaceChar(s[..i])
    ensures i < |s| ==> s[i] == ' '
  {
    if s == [] || s[0] == ' ' then 0
    else
      var i := 1 + TokenEnd(s[1..]);
      assert forall k :: 1 <= k < i ==> s[k] == s[1..][k - 1];
      i
  }

  /** The tokens of a space-separated list such as a `className`, as `classList`
      reads it: spaces separate tokens and no token is empty. */
  function Tokens(s: string): (ws: seq<string>)
    ensures forall k :: 0 <= k < |ws| ==> ws[k] != [] && NoSpaceChar(ws[k])
    decreases |s|
  {
    if s == [] then []
    else if s[0] == ' ' then Tokens(s[1..])
    else
      var i := TokenEnd(s);
      [s[..i]] + Tokens(s[i..])
  }

  /** A token followed by either nothing or a space reads as that token followed by
      the tokens of the rest. */
  lemma LeadingToken(w: string, rest: string)
    requires w != [] && NoSpaceChar(w)
    requires rest == [] || rest[0] == ' '
    ensures Tokens(w + rest) == [w] + Tokens(rest)
  {
    var s := w + rest;
    var i := TokenEnd(s);
    assert forall k :: 0 <= k < |w| ==> s[k] == w[k];
    assert |w| < |s| ==> s[|w|] == ' ';
    assert i == |w|;
    assert s[..i] == w && s[i..] == rest;
  }

  /** The same with the separating space in front. */
  lemma SpacedToken(w: string, rest: string)
    requires w != [] && NoSpaceChar(w)
    requires rest == [] || rest[0] == ' '
    ensures Tokens(" " + w + rest) == [w] + Tokens(rest)
  {
    assert (" " + w + rest)[1..] == w + rest;
    LeadingToken(w, rest);
  }

  function DigitChar(d: nat): (c: char)
    requires d < 10
    ensures IsDigit(c)
  {
    ['0', '1', '2', '3', '4', '5', '6', '7', '8', '9'][d]
  }

  function DigitValue(c: char): (d: nat)
    requires IsDigit(c)
    ensures d < 10 && DigitChar(d) == c
  {
    (c as int - '0' as int)
  }

  /** Shortest decimal rendering of `n` (what `String(n)` gives for a natural number). */
  function Decimal(n: nat): (r: string)
    ensures |r| >= 1
    ensures AllDigits(r)
    ensures n >= 10 ==> r[0] != '0'
    decreases n
  {
    if n < 10 then [DigitChar(n)] else Decimal(n / 10) + [DigitChar(n % 10)]
  }

  function Pow10(w: nat): (p: nat)
    ensures p >= 1
  {
    if w == 0 then 1 else 10 * Pow10(w - 1)
  }

  /** A number below `10^w` has at most `w` decimal digits. */
  lemma {:induction false} DecimalWidth(n: nat, w: nat)
    requires 1 <= w && n < Pow10(w)
    ensures |Decimal(n)| <= w
    decreases w
  {
    if n >= 10 {
      assert w != 1;
      DecimalWidth(n / 10, w - 1);
    }
  }

  /** Value of a string of decimal digits, most significant first. */
  function DecimalValue(s: string): nat
    requires AllDigits(s)
  {
    if s == [] then 0 else 10 * DecimalValue(s[..|s| - 1]) + DigitValue(s[|s| - 1])
  }

  /** Leading zeros do not change the value of a digit string. */
  lemma {:induction false} DecimalValueLeadingZero(s: string)
    requires AllDigits(s)
    ensures DecimalValue(['0'] + s) == DecimalValue(s)
  {
    if s != [] {
      assert (['0'] + s)[..|s|] == ['0'] + s[..|s| - 1];
      DecimalValueLeadingZero(s[..|s| - 1]);
    }
  }

  /** `Decimal` and `DecimalValue` are inverse. */
  lemma {:induction false} DecimalRoundTrip(n: nat)
    ensures DecimalValue(Decimal(n)) == n
    decreases n
  {
    if n >= 10 {
      var s := Decimal(n);
      assert s[..|s| - 1] == Decimal(n / 10);
      DecimalRoundTrip(n / 10);
    }
  }

  /** `String(n).padStart(width, '0')`. */
  function ZeroPad(n: nat, width: nat): (r: string)
    ensures |r| == if |Decimal(n)| < width then width else |Decimal(n)|
    ensures AllDigits(r)
    ensures DecimalValue(r) == n
    decreases width
  {
    var d := Decimal(n);
    if |d| >= width then
      DecimalRoundTrip(n);
      d
    else
      var r := ZeroPad(n, width - 1);
      DecimalValueLeadingZero(r);
      ['0'] + r
  }
}
