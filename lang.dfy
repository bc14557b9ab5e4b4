/** Java-language notions the rest of the model is written in: nullable string
    references, exceptions, 32-bit ints, and the few `java.lang.String`,
    `Integer` and Spring `StringUtils` operations the core relies on. */
module Lang {

  datatype Option<+T> = None | Some(value: T)

  datatype Result<+T, +E> = Ok(value: T) | Err(error: E)

  /** A Java `String` reference: `null` or a string value. */
  datatype JString = Null | Str(value: string)

  /** How Java's string concatenation renders a reference: `null` becomes "null". */
  function Show(s: JString): string {
    match s
    case Null => "null"
    case Str(v) => v
  }

  const MinInt: int := -0x8000_0000
  const MaxInt: int := 0x7fff_ffff

  /** Java's `int`. */
  type Int32 = x: int | MinInt <= x <= MaxInt

  /** The exception classes the core throws itself, and any other class by name. */
  datatype ExceptionKind = IllegalState | Runtime | Decode | External(className: string)

  /** A thrown Java exception; `message` is what `getMessage()` returns. */
  datatype Exception = Exception(kind: ExceptionKind, message: JString)

  // ---------------------------------------------------------------------------
  // String.trim, String.isEmpty, StringUtils.hasText
  // ---------------------------------------------------------------------------

  /** `String.trim` removes every leading and trailing character at or below U+0020. */
  function TrimStart(s: string): (r: string)
    ensures |r| <= |s| && r == s[|s| - |r|..]
    ensures forall i :: 0 <= i < |s| - |r| ==> s[i] <= ' '
    ensures r == [] || r[0] > ' '
  {
    if |s| > 0 && s[0] <= ' ' then TrimStart(s[1..]) else s
  }

  function TrimEnd(s: string): (r: string)
    ensures |r| <= |s| && r == s[..|r|]
    ensures forall i :: |r| <= i < |s| ==> s[i] <= ' '
    ensures r == [] || r[|r| - 1] > ' '
  {
    if |s| > 0 && s[|s| - 1] <= ' ' then TrimEnd(s[..|s| - 1]) else s
  }

  function Trim(s: string): (r: string)
    ensures |r| <= |s|
    ensures r == [] || (r[0] > ' ' && r[|r| - 1] > ' ')
  {
    TrimEnd(TrimStart(s))
  }

  /** Trimming leaves nothing exactly when every character is at or below U+0020. */
  lemma TrimEmpty(s: string)
    ensures Trim(s) == [] <==> forall i :: 0 <= i < |s| ==> s[i] <= ' '
  {
  }

  /** Trimming twice is trimming once: a trimmed string has no removable ends. */
  lemma TrimIdempotent(s: string)
    ensures Trim(Trim(s)) == Trim(s)
  {
    var t := Trim(s);
    if t != [] {
      assert TrimStart(t) == t;
      assert TrimEnd(t) == t;
    }
  }

  /** `t` is `s` with the first `k` characters and the ones after `k + |t|`
      removed, every one of them at or below U+0020. */
  predicate StrippedAt(s: string, t: string, k: nat) {
    && k + |t| <= |s| && t == s[k..k + |t|]
    && (forall i :: 0 <= i < k ==> s[i] <= ' ')
    && (forall i :: k + |t| <= i < |s| ==> s[i] <= ' ')
  }

  /** `String.trim`: the result is the middle of `s`, and only characters at or
      below U+0020 are removed from its two ends (it starts and ends with a
      character above U+0020, so nothing more could be removed). */
  lemma TrimInfix(s: string)
    ensures exists k :: StrippedAt(s, Trim(s), k)
  {
    var t := TrimStart(s);
    var k := |s| - |t|;
    var n := |Trim(s)|;
    assert Trim(s) == t[..n];
    assert s[k..k + n] == t[..n];
    assert StrippedAt(s, Trim(s), k);
  }

  /** The two strings have the same length and the characters at or below
      U+0020 in the same places. */
  predicate SameBlanks(s: string, t: string) {
    |s| == |t| && forall i :: 0 <= i < |s| ==> (s[i] <= ' ') == (t[i] <= ' ')
  }

  lemma {:induction false} TrimStartAlike(s: string, t: string)
    requires SameBlanks(s, t)
    ensures |TrimStart(s)| == |TrimStart(t)|
    decreases |s|
  {
    if |s| > 0 && s[0] <= ' ' {
      assert SameBlanks(s[1..], t[1..]);
      TrimStartAlike(s[1..], t[1..]);
    }
  }

  lemma {:induction false} TrimEndAlike(s: string, t: string)
    requires SameBlanks(s, t)
    ensures |TrimEnd(s)| == |TrimEnd(t)|
    decreases |s|
  {
    if |s| > 0 && s[|s| - 1] <= ' ' {
      assert SameBlanks(s[..|s| - 1], t[..|t| - 1]);
      TrimEndAlike(s[..|s| - 1], t[..|t| - 1]);
    }
  }

  lemma DropAlike(s: string, t: string, m: nat)
    requires SameBlanks(s, t) && m <= |s|
    ensures SameBlanks(s[m..], t[m..])
  {
    assert forall i :: 0 <= i < |s| - m ==> s[m..][i] == s[m + i] && t[m..][i] == t[m + i];
  }

  /** Trimming strings with the same blanks cuts both at the same places. */
  lemma TrimAlike(s: string, t: string)
    requires SameBlanks(s, t)
    ensures |TrimStart(s)| == |TrimStart(t)| && |Trim(s)| == |Trim(t)|
  {
    TrimStartAlike(s, t);
    var k := |s| - |TrimStart(s)|;
    DropAlike(s, t, k);
    TrimEndAlike(s[k..], t[k..]);
    TrimFromStart(s);
    TrimFromStart(t);
  }

  /** Trimming is trimming the end of what trimming the start leaves. */
  lemma TrimFromStart(s: string)
    ensures Trim(s) == TrimEnd(s[|s| - |TrimStart(s)|..])
  {
    var a := TrimStart(s);
    assert a == s[|s| - |a|..];
  }

  /** The trimmed text ends with `c` exactly when it is not empty and its
      last character, found in the original, is `c`. */
  lemma TrimEndsWith(s: string, c: char)
    ensures EndsWith(Trim(s), [c]) <==>
      Trim(s) != [] && s[|s| - |TrimStart(s)| + |Trim(s)| - 1] == c
  {
    var t := TrimStart(s);
    var n := |Trim(s)|;
    assert Trim(s) == t[..n];
    if n > 0 {
      assert Trim(s)[n - 1] == t[n - 1];
    }
    EndsWithChar(Trim(s), c);
  }

  lemma EndsWithChar(s: string, c: char)
    ensures EndsWith(s, [c]) <==> |s| > 0 && s[|s| - 1] == c
  {
    if |s| > 0 {
      assert s[|s| - 1..] == [s[|s| - 1]];
    }
  }

  /** `Character.isWhitespace`: the Unicode space, line and paragraph separators
      other than the no-break spaces, and the ASCII controls 9-13 and 28-31. */
  predicate IsJavaWhitespace(c: char) {
    || ('\t' <= c <= '\r')
    || ('\U{1C}' <= c <= '\U{1F}')
    || c == ' '
    || c == '\U{1680}'
    || ('\U{2000}' <= c <= '\U{2006}')
    || ('\U{2008}' <= c <= '\U{200A}')
    || c == '\U{2028}' || c == '\U{2029}'
    || c == '\U{205F}' || c == '\U{3000}'
  }

  /** Spring's `StringUtils.hasText`: not null and some character is not whitespace. */
  predicate HasText(s: JString) {
    s.Str? && exists i :: 0 <= i < |s.value| && !IsJavaWhitespace(s.value[i])
  }

  // ---------------------------------------------------------------------------
  // startsWith, endsWith, contains, ASCII case mapping
  // ---------------------------------------------------------------------------

  predicate StartsWith(s: string, prefix: string) {
    |prefix| <= |s| && s[..|prefix|] == prefix
  }

  predicate EndsWith(s: string, suffix: string) {
    |suffix| <= |s| && s[|s| - |suffix|..] == suffix
  }

  predicate OccursAt(s: string, part: string, i: int) {
    0 <= i && i + |part| <= |s| && s[i..i + |part|] == part
  }

  predicate Contains(s: string, part: string) {
    exists i | 0 <= i <= |s| - |part| :: OccursAt(s, part, i)
  }

  function UpperChar(c: char): char {
    if 'a' <= c <= 'z' then (c as int - 32) as char else c
  }

  function LowerChar(c: char): char {
    if 'A' <= c <= 'Z' then (c as int + 32) as char else c
  }

  /** `String.toUpperCase`, for the ASCII letters. */
  function ToUpperCase(s: string): (r: string)
    ensures |r| == |s|
  {
    seq(|s|, i requires 0 <= i < |s| => UpperChar(s[i]))
  }

  /** `String.toLowerCase`, for the ASCII letters. */
  function ToLowerCase(s: string): (r: string)
    ensures |r| == |s|
  {
    seq(|s|, i requires 0 <= i < |s| => LowerChar(s[i]))
  }

  /** Lower-casing twice is lower-casing once. */
  lemma LowerIdempotent(s: string)
    ensures ToLowerCase(ToLowerCase(s)) == ToLowerCase(s)
  {
    var a, b := ToLowerCase(ToLowerCase(s)), ToLowerCase(s);
    assert forall i :: 0 <= i < |s| ==> a[i] == b[i];
  }

  /** Upper-casing twice is upper-casing once. */
  lemma UpperIdempotent(s: string)
    ensures ToUpperCase(ToUpperCase(s)) == ToUpperCase(s)
  {
    var a, b := ToUpperCase(ToUpperCase(s)), ToUpperCase(s);
    assert forall i :: 0 <= i < |s| ==> a[i] == b[i];
  }

  /** Upper-casing forgets a previous lower-casing. */
  lemma UpperOfLower(s: string)
    ensures ToUpperCase(ToLowerCase(s)) == ToUpperCase(s)
  {
    var a, b := ToUpperCase(ToLowerCase(s)), ToUpperCase(s);
    assert forall i :: 0 <= i < |s| ==> a[i] == b[i];
  }

  // ---------------------------------------------------------------------------
  // String.valueOf(int) and Integer.parseInt
  // ---------------------------------------------------------------------------

  predicate IsDigit(c: char) {
    '0' <= c <= '9'
  }

  predicate AllDigits(s: string) {
    forall i :: 0 <= i < |s| ==> IsDigit(s[i])
  }

  function DigitChar(d: nat): (c: char)
    requires d < 10
    ensures IsDigit(c)
  {
    ('0' as int + d) as char
  }

  function DigitValue(c: char): nat
    requires IsDigit(c)
  {
    c as int - '0' as int
  }

  /** The decimal digits of `n`, most significant first, without leading zeros. */
  function NatToString(n: nat): (s: string)
    ensures |s| > 0 && AllDigits(s)
  {
    if n < 10 then [DigitChar(n)] else NatToString(n / 10) + [DigitChar(n % 10)]
  }

  /** `String.valueOf(int)`. */
  function IntToString(n: int): (s: string)
    ensures |s| > 0
  {
    if n < 0 then "-" + NatToString(-n) else NatToString(n)
  }

  /** The number a string of decimal digits denotes. */
  function DigitsValue(s: string): nat
    requires AllDigits(s)
  {
    if s == [] then 0 else DigitsValue(s[..|s| - 1]) * 10 + DigitValue(s[|s| - 1])
  }

  /** `Integer.parseInt`: an optional `-` or `+`, then at least one decimal digit,
      denoting a value in `int` range; anything else is a NumberFormatException,
      here `None`. */
  function ParseInt(s: string): (r: Option<Int32>)
    ensures r.Some? ==> |s| > 0
  {
    var signed := |s| > 0 && (s[0] == '-' || s[0] == '+');
    var digits := if signed then s[1..] else s;
    if digits == [] || !AllDigits(digits) then None
    else
      var m: int := DigitsValue(digits);
      var v := if s[0] == '-' then -m else m;
      if MinInt <= v <= MaxInt then Some(v) else None
  }

  /** What `Integer.parseInt` rejects: the empty string, a lone sign, a first
      character that is neither a digit nor a sign, a later character that is
      not a digit, and digits denoting more than `Integer.MAX_VALUE`; unsigned
      digits within range denote their value. */
  lemma ParseIntRejects(s: string)
    ensures s == [] || s == "-" || s == "+" ==> ParseInt(s) == None
    ensures |s| > 0 && !IsDigit(s[0]) && s[0] != '-' && s[0] != '+' ==> ParseInt(s) == None
    ensures (exists i :: 0 < i < |s| && !IsDigit(s[i])) ==> ParseInt(s) == None
    ensures s != [] && AllDigits(s) ==>
      ParseInt(s) == if DigitsValue(s) <= MaxInt then Some(DigitsValue(s)) else None
  {
    if i :| 0 < i < |s| && !IsDigit(s[i]) {
      var digits := if s[0] == '-' || s[0] == '+' then s[1..] else s;
      if s[0] == '-' || s[0] == '+' {
        assert digits[i - 1] == s[i];
      } else {
        assert digits[i] == s[i];
      }
    }
    if |s| > 0 && !IsDigit(s[0]) && s[0] != '-' && s[0] != '+' {
      assert !IsDigit(s[0]);
    }
  }

  lemma {:induction false} DigitsValueOfNatToString(n: nat)
    ensures DigitsValue(NatToString(n)) == n
  {
    if n >= 10 {
      var s := NatToString(n);
      assert s == NatToString(n / 10) + [DigitChar(n % 10)];
      assert s[..|s| - 1] == NatToString(n / 10);
      DigitsValueOfNatToString(n / 10);
    }
  }

  /** Parsing the decimal rendering of an int gives the int back. */
  lemma ParseIntOfIntToString(n: Int32)
    ensures ParseInt(IntToString(n)) == Some(n)
  {
    var s := IntToString(n);
    if n < 0 {
      var m := NatToString(-(n as int));
      assert s == "-" + m;
      assert s[0] == '-' && s[1..] == m;
      DigitsValueOfNatToString(-(n as int));
    } else {
      assert s == NatToString(n);
      assert IsDigit(s[0]);
      DigitsValueOfNatToString(n);
    }
  }

  /** Two ints with the same decimal rendering are equal. */
  lemma IntToStringInjective(a: Int32, b: Int32)
    requires IntToString(a) == IntToString(b)
    ensures a == b
  {
    ParseIntOfIntToString(a);
    ParseIntOfIntToString(b);
  }

  /** The decimal rendering of an int uses only digits and a leading minus sign. */
  lemma IntToStringAlphabet(n: int, c: char)
    requires c in IntToString(n)
    ensures IsDigit(c) || c == '-'
  {
    var s := IntToString(n);
    var i :| 0 <= i < |s| && s[i] == c;
    if n < 0 && i > 0 {
      assert s[i] == NatToString(-n)[i - 1];
    }
  }

  // ---------------------------------------------------------------------------
  // Cancelling concatenations, used to read back rendered text
  // ---------------------------------------------------------------------------

  lemma PrefixCancel(p: string, x: string, y: string)
    requires p + x == p + y
    ensures x == y
  {
    assert x == (p + x)[|p|..];
    assert y == (p + y)[|p|..];
  }

  /** A concatenation starts with its first part and ends with its last. */
  lemma AppendEnds(x: string, y: string)
    ensures StartsWith(x + y, x) && EndsWith(x + y, y)
  {
    assert (x + y)[..|x|] == x;
    assert (x + y)[|x + y| - |y|..] == y;
  }

  lemma DelimiterAt(a: string, d: char, x: string)
    ensures (a + ([d] + x))[|a|] == d
  {
  }

  /** A string that does not contain `d` is recovered from what precedes the first `d`. */
  lemma SplitAtDelimiter(a: string, x: string, b: string, y: string, d: char)
    requires d !in a && d !in b
    requires a + ([d] + x) == b + ([d] + y)
    ensures a == b && x == y
  {
    var s := a + ([d] + x);
    if |a| == |b| {
      assert a == s[..|a|] == b;
      assert a + ([d] + x) == (a + [d]) + x;
      assert b + ([d] + y) == (b + [d]) + y;
      PrefixCancel(a + [d], x, y);
    } else if |a| < |b| {
      DelimiterAt(a, d, x);
      assert false;
    } else {
      DelimiterAt(b, d, y);
      assert false;
    }
  }
}
