/** Value-level vocabulary shared by the client and server models: JavaScript
    field values, the character classes the source's regular expressions use,
    `String.prototype.trim`, decimal rendering of array indices, and the facts
    about separator-joined keys that make the source's string keys unambiguous. */
module Common {

  datatype Option<T> = None | Some(value: T)

  /** A JavaScript property value as the source sees it: `undefined` or `null`
      (Absent), or a string. */
  datatype Field = Absent | Str(s: string)

  /** JavaScript truthiness of a field value: a non-empty string. */
  predicate Truthy(f: Field) {
    f.Str? && f.s != ""
  }

  /** `String(v)`, a template literal `${v}` or `FormData.append(k, v)`: undefined becomes "undefined". */
  function Interp(f: Field): string {
    match f
    case Absent => "undefined"
    case Str(s) => s
  }

  /** `v || dflt` for a string-valued field. */
  function OrElse(f: Field, dflt: string): string {
    if Truthy(f) then f.s else dflt
  }

  // ---------------------------------------------------------------------------
  // Character classes
  // ---------------------------------------------------------------------------

  /** `\d`, `[0-9]` */
  predicate IsDigit(c: char) {
    '0' <= c <= '9'
  }

  /** `[A-Z]` */
  predicate IsUpper(c: char) {
    'A' <= c <= 'Z'
  }

  /** `[0-9a-fA-F]` */
  predicate IsHexDigit(c: char) {
    IsDigit(c) || 'a' <= c <= 'f' || 'A' <= c <= 'F'
  }

  /** The line terminators, which `.` in a regular expression does not match. */
  predicate IsLineTerminator(c: char) {
    c == '\n' || c == '\r' || c == '\U{2028}' || c == '\U{2029}'
  }

  /** `\s` in a regular expression, and what `trim` and `parseInt` skip:
      the ECMAScript WhiteSpace and LineTerminator characters. */
  predicate IsSpace(c: char) {
    || c == ' ' || c == '\t' || c == '\U{B}' || c == '\U{C}'
    || c == '\U{A0}' || c == '\U{1680}' || ('\U{2000}' <= c <= '\U{200A}')
    || c == '\U{202F}' || c == '\U{205F}' || c == '\U{3000}' || c == '\U{FEFF}'
    || IsLineTerminator(c)
  }

  predicate AllDigits(s: string) {
    forall k :: 0 <= k < |s| ==> IsDigit(s[k])
  }

  /** `/^\d+$/` and `/^[0-9]+$/` */
  predicate DigitString(s: string) {
    |s| > 0 && AllDigits(s)
  }

  /** No character of `s` is matched by `\s`. */
  predicate SpaceFree(s: string) {
    forall k :: 0 <= k < |s| ==> !IsSpace(s[k])
  }

  /** Every character of `s` is white space (the empty string included). */
  predicate IsBlank(s: string) {
    forall k :: 0 <= k < |s| ==> IsSpace(s[k])
  }

  predicate StartsWith(s: string, prefix: string) {
    |prefix| <= |s| && s[..|prefix|] == prefix
  }

  // ---------------------------------------------------------------------------
  // String.prototype.trim
  // ---------------------------------------------------------------------------

  function TrimStart(s: string): string
    decreases |s|
  {
    if s != [] && IsSpace(s[0]) then TrimStart(s[1..]) else s
  }

  function TrimEnd(s: string): string
    decreases |s|
  {
    if s != [] && IsSpace(s[|s| - 1]) then TrimEnd(s[..|s| - 1]) else s
  }

  function Trim(s: string): string {
    TrimEnd(TrimStart(s))
  }

  lemma {:induction false} TrimStartEmpty(s: string)
    ensures TrimStart(s) == [] <==> IsBlank(s)
    ensures TrimStart(s) != [] ==> !IsSpace(TrimStart(s)[0])
    decreases |s|
  {
    if s != [] && IsSpace(s[0]) {
      TrimStartEmpty(s[1..]);
      assert IsBlank(s) <==> IsBlank(s[1..]) by {
        if IsBlank(s[1..]) {
          forall k | 0 <= k < |s| ensures IsSpace(s[k]) {
            if k > 0 { assert s[k] == s[1..][k - 1]; }
          }
        }
      }
    }
  }

  lemma {:induction false} TrimEndKeepsFirst(s: string)
    requires s != [] && !IsSpace(s[0])
    ensures TrimEnd(s) != []
    decreases |s|
  {
    if IsSpace(s[|s| - 1]) {
      assert |s| > 1;
      TrimEndKeepsFirst(s[..|s| - 1]);
    }
  }

  /** `!s.trim()` holds exactly for the strings made of white space alone. */
  lemma TrimEmptyIffBlank(s: string)
    ensures Trim(s) == "" <==> IsBlank(s)
  {
    TrimStartEmpty(s);
    if TrimStart(s) != [] {
      TrimEndKeepsFirst(TrimStart(s));
    }
  }

  // ---------------------------------------------------------------------------
  // Decimal digits and the rendering of array indices (`${i}`)
  // ---------------------------------------------------------------------------

  function DigitValue(c: char): nat
    requires IsDigit(c)
  {
    c as int - '0' as int
  }

  function DigitChar(d: nat): (c: char)
    requires d < 10
    ensures IsDigit(c) && DigitValue(c) == d
  {
    ('0' as int + d) as char
  }

  /** The value of a string of decimal digits, read most significant first. */
  function IntValue(s: string): nat
    requires AllDigits(s)
    decreases |s|
  {
    if s == [] then 0 else 10 * IntValue(s[..|s| - 1]) + DigitValue(s[|s| - 1])
  }

  /** `${n}` for a non-negative integer `n`. */
  function NatToString(n: nat): string
    decreases n
  {
    if n < 10 then [DigitChar(n)] else NatToString(n / 10) + [DigitChar(n % 10)]
  }

  lemma {:induction false} NatToStringDigits(n: nat)
    ensures DigitString(NatToString(n))
    ensures IntValue(NatToString(n)) == n
    decreases n
  {
    if n >= 10 {
      NatToStringDigits(n / 10);
      var s := NatToString(n);
      assert s[..|s| - 1] == NatToString(n / 10);
    }
  }

  /** Different indices render differently, so `${i}` never confuses two items. */
  lemma NatToStringInjective(n: nat, m: nat)
    requires NatToString(n) == NatToString(m)
    ensures n == m
  {
    NatToStringDigits(n);
    NatToStringDigits(m);
  }

  lemma NatToStringHasNo(n: nat, c: char)
    requires !IsDigit(c)
    ensures c !in NatToString(n)
  {
    NatToStringDigits(n);
  }

  // ---------------------------------------------------------------------------
  // Separator-joined keys
  // ---------------------------------------------------------------------------

  /** A key `a + c + b` whose head `a` avoids the separator `c` determines
      its head and its tail. */
  lemma {:induction false} SplitAtFirst(c: char, a: string, b: string, x: string, y: string)
    requires c !in a && c !in x
    requires a + [c] + b == x + [c] + y
    ensures a == x && b == y
    decreases |a|
  {
    if a == [] {
      assert (a + [c] + b)[0] == c;
      HeadOfJoin(c, x, y);
      assert x == [];
      assert b == (a + [c] + b)[1..];
      assert y == (x + [c] + y)[1..];
    } else {
      assert x != [] by {
        assert (a + [c] + b)[0] == a[0] && a[0] != c;
        assert (x + [c] + y)[0] == if x == [] then c else x[0];
      }
      assert a[0] == (a + [c] + b)[0] == (x + [c] + y)[0] == x[0];
      assert a[1..] + [c] + b == (a + [c] + b)[1..];
      assert x[1..] + [c] + y == (x + [c] + y)[1..];
      SplitAtFirst(c, a[1..], b, x[1..], y);
      assert a == [a[0]] + a[1..];
      assert x == [x[0]] + x[1..];
    }
  }

  lemma HeadOfJoin(c: char, x: string, y: string)
    ensures (x + [c] + y)[0] == (if x == [] then c else x[0])
    ensures x != [] ==> x[0] in x
  {
  }

  /** Two strings that end in the same suffix are equal when the rest is. */
  lemma DropSuffix(a: string, x: string, s: string)
    requires a + s == x + s
    ensures a == x
  {
    assert a == (a + s)[..|a|];
    assert x == (x + s)[..|x|];
  }
}
