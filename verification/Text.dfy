/** Lines, prefixes and numbers as strings. */
module Text {
  /** join("\n") */
  function Join(lines: seq<string>): string {
    if lines == [] then "" else if |lines| == 1 then lines[0] else lines[0] + "\n" + Join(lines[1..])
  }

  /** How many of the first characters satisfy the test. */
  function Span(s: string, test: char -> bool): (n: nat)
    ensures n <= |s| && (forall i | 0 <= i < n :: test(s[i])) && (n < |s| ==> !test(s[n]))
  {
    if s != "" && test(s[0]) then 1 + Span(s[1..], test) else 0
  }

  lemma {:induction false} SpanOf(a: string, b: string, test: char -> bool)
    requires forall i | 0 <= i < |a| :: test(a[i])
    requires b == "" || !test(b[0])
    ensures Span(a + b, test) == |a|
  {
    if a == "" {
      assert a + b == b;
    } else {
      assert (a + b)[1..] == a[1..] + b;
      SpanOf(a[1..], b, test);
    }
  }

  // ----- Regrouping -----

  lemma Assoc<T>(a: seq<T>, b: seq<T>, c: seq<T>)
    ensures (a + b) + c == a + (b + c)
  {
  }

  /** A string around its first line break. */
  lemma Around(head: string, rest: string)
    ensures var s := head + "\n" + rest;
            && |s| == |head| + 1 + |rest|
            && s[..|head|] == head && s[|head|] == '\n' && s[|head| + 1..] == rest && s == head + ("\n" + rest)
  {
  }

  lemma CutAt(s: string, n: nat)
    requires n < |s| && s[n] == '\n'
    ensures s == s[..n] + "\n" + s[n + 1..]
  {
  }

  lemma Extend<T>(s: seq<T>, from: nat, to: nat)
    requires from <= to < |s|
    ensures s[from..to + 1] == s[from..to] + [s[to]]
  {
  }

  // ----- Numbers -----

  /** str() of an integer. */
  function Decimal(n: int): string
    decreases if n < 0 then 1 else 0, n
  {
    if n < 0 then "-" + Decimal(-n)
    else if n < 10 then [Digit(n)]
    else Decimal(n / 10) + [Digit(n % 10)]
  }

  function Digit(n: nat): char
    requires n < 10
  {
    '0' + n as char
  }

  lemma {:induction false} DecimalIsDigits(n: nat)
    ensures Decimal(n) != "" && forall i | 0 <= i < |Decimal(n)| :: '0' <= Decimal(n)[i] <= '9'
  {
    if n >= 10 {
      DecimalIsDigits(n / 10);
    }
  }

  lemma {:induction false} NatDecimalsDiffer(a: nat, b: nat)
    requires Decimal(a) == Decimal(b)
    ensures a == b
  {
    DecimalIsDigits(a / 10);
    DecimalIsDigits(b / 10);
    var s, t := Decimal(a), Decimal(b);
    assert s[|s| - 1] == Digit(a % 10) && t[|t| - 1] == Digit(b % 10);
    if a >= 10 && b >= 10 {
      assert s[..|s| - 1] == Decimal(a / 10) && t[..|t| - 1] == Decimal(b / 10);
      NatDecimalsDiffer(a / 10, b / 10);
    } else {
      assert a < 10 ==> |s| == 1;
      assert b < 10 ==> |t| == 1;
    }
  }

  lemma SignOfDecimal(n: int)
    ensures Decimal(n) != "" && (Decimal(n)[0] == '-' <==> n < 0)
  {
    DecimalIsDigits(if n < 0 then -n else n);
  }

  lemma DecimalsDiffer(a: int, b: int)
    requires Decimal(a) == Decimal(b)
    ensures a == b
  {
    SignOfDecimal(a);
    SignOfDecimal(b);
    if a < 0 {
      assert Decimal(a)[1..] == Decimal(-a) && Decimal(b)[1..] == Decimal(-b);
      NatDecimalsDiffer(-a, -b);
    } else {
      NatDecimalsDiffer(a, b);
    }
  }

  // ----- JSON strings -----

  function HexDigit(n: nat): char
    requires n < 16
  {
    "0123456789abcdef"[n]
  }

  /** One character as JSON.stringify, or json.dumps without ensure_ascii, writes it inside the quotes. */
  function EscapeChar(c: char): string {
    if c == '\"' then "\\\""
    else if c == '\\' then "\\\\"
    else if c as int == 8 then "\\b"
    else if c as int == 12 then "\\f"
    else if c == '\n' then "\\n"
    else if c == '\r' then "\\r"
    else if c == '\t' then "\\t"
    else if c as int < 0x20 then "\\u00" + [HexDigit(c as int / 16), HexDigit(c as int % 16)]
    else [c]
  }

  function Escape(s: string): string {
    if s == "" then "" else EscapeChar(s[0]) + Escape(s[1..])
  }

  /** A string as JSON. */
  function Quote(s: string): string {
    "\"" + Escape(s) + "\""
  }
}
