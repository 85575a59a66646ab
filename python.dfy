/**
 * The parts of Python's built-ins and of the `sqlite3` binding layer that the
 * recorder and the read API lean on: `str()` and `int()` of a parsed JSON
 * value, truthiness, iteration, floor division, and the 64-bit range that
 * `sqlite3` accepts for an integer parameter.
 */
module Python {
  import opened Wrappers
  import opened Json

  /** The range of a SQLite INTEGER; `sqlite3` raises OverflowError when binding anything outside it. */
  const MinInt64: int := -0x8000_0000_0000_0000
  const MaxInt64: int := 0x7FFF_FFFF_FFFF_FFFF

  predicate InInt64(n: int) { MinInt64 <= n <= MaxInt64 }

  // ---------------------------------------------------------------------------
  // Decimal text: str(n) for an int, and int(s) for a str
  // ---------------------------------------------------------------------------

  predicate IsDigit(c: char) { '0' <= c <= '9' }

  function DigitChar(d: nat): (c: char)
    requires d < 10
    ensures IsDigit(c) && c as int - '0' as int == d
  {
    "0123456789"[d]
  }

  /** `str(n)` for a non-negative int: its decimal digits, most significant first, no leading zero. */
  function NatText(n: nat): (s: string)
    ensures 0 < |s|
    ensures forall i :: 0 <= i < |s| ==> IsDigit(s[i])
    ensures |s| > 1 ==> s[0] != '0'
    decreases n
  {
    if n < 10 then [DigitChar(n)] else NatText(n / 10) + [DigitChar(n % 10)]
  }

  /** `str(n)` for any int. */
  function IntText(n: int): (s: string)
    ensures 0 < |s| && IsDigit(s[|s| - 1])
    ensures s[0] == '-' || IsDigit(s[0])
  {
    if n < 0 then "-" + NatText(-n) else NatText(n)
  }

  /**
   * The characters `int()` strips from both ends of its argument: ASCII
   * tab, line feed, vertical tab, form feed, carriage return and space, and
   * the non-ASCII characters `str.isspace()` accepts. The ASCII separators
   * U+001C..U+001F pass `str.isspace()` but are not stripped.
   */
  predicate IsSpace(c: char)
  {
    c == ' ' || '\t' <= c <= '\r' || c == '\U{85}' || c == '\U{a0}'
    || c == '\U{1680}' || '\U{2000}' <= c <= '\U{200a}' || c == '\U{2028}' || c == '\U{2029}'
    || c == '\U{202f}' || c == '\U{205f}' || c == '\U{3000}'
  }

  function StripLeft(s: string): (r: string)
    ensures r == [] || !IsSpace(r[0])
    decreases |s|
  {
    if 0 < |s| && IsSpace(s[0]) then StripLeft(s[1..]) else s
  }

  function StripRight(s: string): (r: string)
    ensures r == [] || !IsSpace(r[|r| - 1])
    decreases |s|
  {
    if 0 < |s| && IsSpace(s[|s| - 1]) then StripRight(s[..|s| - 1]) else s
  }

  function Strip(s: string): string { StripRight(StripLeft(s)) }

  /** What may follow the first digit of a literal: digits, each optionally preceded by one `_`. */
  predicate DigitTail(t: string)
    decreases |t|
  {
    t == []
    || (IsDigit(t[0]) && DigitTail(t[1..]))
    || (2 <= |t| && t[0] == '_' && IsDigit(t[1]) && DigitTail(t[2..]))
  }

  /** A base-10 literal as `int()` reads it: digits with single underscores between them. */
  predicate DigitGroups(d: string)
  {
    0 < |d| && IsDigit(d[0]) && DigitTail(d[1..])
  }

  /** The value of a run of digits, underscores ignored. */
  function DigitsValue(d: string): nat
    decreases |d|
  {
    if d == [] then 0
    else
      var c := d[|d| - 1];
      if IsDigit(c) then DigitsValue(d[..|d| - 1]) * 10 + (c as int - '0' as int)
      else DigitsValue(d[..|d| - 1])
  }

  /** CPython's default limit on the number of digits `int()` reads and `str()` writes in base 10. */
  const MaxStrDigits: nat := 4300

  /** How many digits a literal holds, underscores not counted. */
  function DigitCount(d: string): nat
    decreases |d|
  {
    if d == [] then 0 else (if IsDigit(d[0]) then 1 else 0) + DigitCount(d[1..])
  }

  /**
   * `int(s)` in base 10: surrounding white space is ignored, one sign is
   * allowed, and anything else makes `int()` raise ValueError (None here),
   * as does a literal of more than 4300 digits.
   */
  function ParseInt(s: string): Option<int>
  {
    ParseLiteral(Strip(s))
  }

  /** `int()` of a literal with no surrounding white space. */
  function ParseLiteral(t: string): Option<int>
  {
    if 0 < |t| && (t[0] == '+' || t[0] == '-') then
      if DigitGroups(t[1..]) && DigitCount(t[1..]) <= MaxStrDigits then
        var magnitude: int := DigitsValue(t[1..]);
        Some(if t[0] == '-' then -magnitude else magnitude)
      else None
    else if DigitGroups(t) && DigitCount(t) <= MaxStrDigits then Some(DigitsValue(t))
    else None
  }

  /** `n` has at most 4300 decimal digits, so `str(n)` and `int()` of that text do not raise. */
  predicate FitsStrDigits(n: int)
  {
    |NatText(if n < 0 then -n else n)| <= MaxStrDigits
  }

  lemma {:induction false} AllDigitsTail(t: string)
    requires forall i :: 0 <= i < |t| ==> IsDigit(t[i])
    ensures DigitTail(t)
    decreases |t|
  {
    if t != [] {
      AllDigitsTail(t[1..]);
    }
  }

  lemma {:induction false} NatTextValue(n: nat)
    ensures DigitsValue(NatText(n)) == n
    decreases n
  {
    if n >= 10 {
      var s := NatText(n);
      assert s[..|s| - 1] == NatText(n / 10);
      NatTextValue(n / 10);
    }
  }

  lemma StripUnspaced(s: string)
    requires 0 < |s| && !IsSpace(s[0]) && !IsSpace(s[|s| - 1])
    ensures Strip(s) == s
  {
    assert StripLeft(s) == s;
  }

  lemma {:induction false} NatTextParses(n: nat)
    ensures DigitGroups(NatText(n)) && DigitsValue(NatText(n)) == n
  {
    var d := NatText(n);
    AllDigitsTail(d[1..]);
    NatTextValue(n);
  }

  lemma {:induction false} DigitCountAll(d: string)
    requires forall i :: 0 <= i < |d| ==> IsDigit(d[i])
    ensures DigitCount(d) == |d|
    decreases |d|
  {
    if d != [] {
      DigitCountAll(d[1..]);
    }
  }

  /**
   * `int(str(n)) == n` for every int `n` of at most 4300 digits; for a
   * longer one `int()` raises.
   */
  lemma ParseIntText(n: int)
    ensures ParseInt(IntText(n)) == if FitsStrDigits(n) then Some(n) else None
  {
    var s := IntText(n);
    StripUnspaced(s);
    ParseLiteralText(n);
  }

  lemma ParseLiteralText(n: int)
    ensures ParseLiteral(IntText(n)) == if FitsStrDigits(n) then Some(n) else None
  {
    var m: nat := if n < 0 then -n else n;
    var d := NatText(m);
    NatTextParses(m);
    DigitCountAll(d);
    ParseDigits(d);
    assert IntText(n) == if n < 0 then "-" + d else d;
  }

  /** Digits read as their value, and with a minus sign in front as its negation, up to the digit limit. */
  lemma ParseDigits(d: string)
    requires DigitGroups(d)
    ensures ParseLiteral(d) == if DigitCount(d) <= MaxStrDigits then Some(DigitsValue(d) as int) else None
    ensures ParseLiteral("-" + d) == if DigitCount(d) <= MaxStrDigits then Some(-(DigitsValue(d) as int)) else None
  {
    assert ("-" + d)[1..] == d;
  }

  lemma NatTextInjective(a: nat, b: nat)
    requires NatText(a) == NatText(b)
    ensures a == b
  {
    NatTextValue(a);
    NatTextValue(b);
  }

  /** `str(n)` is one-to-one, so distinct numbers never share a key. */
  lemma IntTextInjective(m: int, n: int)
    requires IntText(m) == IntText(n)
    ensures m == n
  {
    var s := IntText(m);
    if m < 0 {
      assert s[0] == '-' && n < 0;
      assert NatText(-m) == s[1..] == NatText(-n);
      NatTextInjective(-m, -n);
    } else {
      assert IsDigit(s[0]) && 0 <= n;
      NatTextInjective(m, n);
    }
  }

  function Pow10(k: nat): nat
  {
    if k == 0 then 1 else 10 * Pow10(k - 1)
  }

  /** A number below 10^k has at most k digits. */
  lemma {:induction false} NatTextLength(n: nat, k: nat)
    requires 1 <= k && n < Pow10(k)
    ensures |NatText(n)| <= k
    decreases k
  {
    if n >= 10 {
      NatTextLength(n / 10, k - 1);
    }
  }

  /** Every 64-bit integer has at most 19 digits, far inside the limit. */
  lemma Int64FitsStrDigits(n: int)
    requires InInt64(n)
    ensures FitsStrDigits(n)
  {
    assert Pow10(6) == 1_000_000;
    assert Pow10(12) == 1_000_000_000_000;
    assert Pow10(19) == 10_000_000_000_000_000_000;
    NatTextLength(if n < 0 then -n else n, 19);
  }

  // ---------------------------------------------------------------------------
  // str() of a JSON value
  // ---------------------------------------------------------------------------

  function HexDigit(d: nat): char
    requires d < 16
  {
    "0123456789abcdef"[d]
  }

  /** Characters `repr()` writes as `\xNN`: the C0 and C1 controls, DEL, no-break space and soft hyphen. */
  predicate HexEscaped(c: char)
  {
    c < ' ' || ('\U{7f}' <= c <= '\U{a0}') || c == '\U{ad}'
  }

  /** One character of a string literal as `repr()` writes it between the quote `q`. */
  function EscapeChar(c: char, q: char): string
  {
    if c == '\\' then "\\\\"
    else if c == q then ['\\', q]
    else if c == '\t' then "\\t"
    else if c == '\n' then "\\n"
    else if c == '\r' then "\\r"
    else if HexEscaped(c) then
      var n := c as int;
      "\\x" + [HexDigit(n / 16), HexDigit(n % 16)]
    else [c]
  }

  function EscapeAll(s: string, q: char): string
    decreases |s|
  {
    if s == [] then "" else EscapeChar(s[0], q) + EscapeAll(s[1..], q)
  }

  /** `repr(s)`: single quotes unless the text holds a single quote and no double quote. */
  function StrRepr(s: string): string
  {
    var q := if '\'' in s && '"' !in s then '"' else '\'';
    [q] + EscapeAll(s, q) + [q]
  }

  /** The elements joined by ", ", as list and dict `repr()` does. */
  function JoinComma(parts: seq<string>): string
    decreases |parts|
  {
    if parts == [] then ""
    else if |parts| == 1 then parts[0]
    else parts[0] + ", " + JoinComma(parts[1..])
  }

  /** `repr()` of a value: what `str()` of a list or dict shows for each element. */
  function Repr(v: Json): string
    decreases v
  {
    match v
    case JNull => "None"
    case JBool(b) => if b then "True" else "False"
    case JInt(i) => IntText(i)
    case JStr(s) => StrRepr(s)
    case JArray(items) =>
      "[" + JoinComma(seq(|items|, k requires 0 <= k < |items| => Repr(items[k]))) + "]"
    case JObject(fields) =>
      "{" + JoinComma(seq(|fields|, k requires 0 <= k < |fields| =>
                            StrRepr(fields[k].0) + ": " + Repr(fields[k].1))) + "}"
  }

  /** `str(v)`: a string is itself, every other value is its `repr()`. */
  function Str(v: Json): string
  {
    match v
    case JStr(s) => s
    case _ => Repr(v)
  }

  /**
   * `str(v)` does not raise: every int inside `v` has at most 4300 digits,
   * the most `str()` and `repr()` write.
   */
  predicate StrFits(v: Json)
    decreases v
  {
    match v
    case JInt(i) => FitsStrDigits(i)
    case JArray(items) => forall k :: 0 <= k < |items| ==> StrFits(items[k])
    case JObject(fields) => forall k :: 0 <= k < |fields| ==> StrFits(fields[k].1)
    case _ => true
  }

  /** `int(v)`: None is a TypeError, a bool is 0 or 1, a string is parsed, a list or dict is a TypeError. */
  function Int(v: Json): Option<int>
  {
    match v
    case JBool(b) => Some(if b then 1 else 0)
    case JInt(i) => Some(i)
    case JStr(s) => ParseInt(s)
    case _ => None
  }

  /** A character `repr()` writes as itself, unless it is the quote. */
  predicate Printable(c: char)
  {
    !HexEscaped(c) && c != '\\'
  }

  lemma {:induction false} EscapePlain(s: string, q: char)
    requires forall i :: 0 <= i < |s| ==> Printable(s[i]) && s[i] != q
    ensures EscapeAll(s, q) == s
    decreases |s|
  {
    if s != [] {
      EscapePlain(s[1..], q);
      assert s == [s[0]] + s[1..];
    }
  }

  /** Text without quotes, backslashes or control characters is shown between single quotes, as it is. */
  lemma ReprPlainText(s: string)
    requires forall i :: 0 <= i < |s| ==> Printable(s[i]) && s[i] != '\'' && s[i] != '"'
    ensures Repr(JStr(s)) == "'" + s + "'"
  {
    EscapePlain(s, '\'');
  }

  /** A list shows its elements' `repr()` between brackets: `str([7, 'a'])` is `[7, 'a']`. */
  lemma ReprListExample()
    ensures Str(JArray([JInt(7), JStr("a")])) == "[7, 'a']"
  {
    var items := [JInt(7), JStr("a")];
    assert IntText(7) == "7";
    assert StrRepr("a") == "'a'";
    var parts := seq(|items|, k requires 0 <= k < |items| => Repr(items[k]));
    assert parts == ["7", "'a'"];
    assert JoinComma(parts) == "7" + ", " + "'a'";
  }

  /** An issue number sent as an int and the same number sent as text give the same key. */
  lemma StrIntIsText(n: int)
    ensures Str(JInt(n)) == Str(JStr(IntText(n)))
  {
  }

  // ---------------------------------------------------------------------------
  // Truthiness, iteration, floor division
  // ---------------------------------------------------------------------------

  /** `bool(v)`: None, False, 0 and empty containers are false. */
  predicate Truthy(v: Json)
  {
    match v
    case JNull => false
    case JBool(b) => b
    case JInt(i) => i != 0
    case JStr(s) => s != ""
    case JArray(items) => items != []
    case JObject(fields) => fields != []
  }

  /**
   * What `for item in v` visits: a list its elements, a string its
   * characters (as one-character strings), a dict its keys; None, a bool or
   * an int is not iterable and makes the loop raise TypeError.
   */
  function Iterate(v: Json): (r: Option<seq<Json>>)
    ensures r.Some? <==> (v.JStr? || v.JArray? || v.JObject?)
    ensures v.JArray? ==> r == Some(v.items)
    ensures !v.JArray? && r.Some? ==> forall k :: 0 <= k < |r.value| ==> r.value[k].JStr?
  {
    match v
    case JStr(s) => Some(seq(|s|, k requires 0 <= k < |s| => JStr([s[k]])))
    case JArray(items) => Some(items)
    case JObject(fields) => Some(seq(|fields|, k requires 0 <= k < |fields| => JStr(fields[k].0)))
    case _ => None
  }

  /** Python's `a // b`: the quotient rounded toward minus infinity. */
  function FloorDiv(a: int, b: int): (q: int)
    requires b != 0
    ensures 0 < b ==> b * q <= a < b * q + b
    ensures b < 0 ==> b * q + b < a <= b * q
  {
    if 0 < b || a % b == 0 then a / b else a / b - 1
  }
}
