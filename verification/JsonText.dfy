/** How strings and numbers are written in JSON text, and that reading can tell them apart. */
module JsonText {
  import opened Sequences
  import opened Text

  function HexDigit(d: nat): (c: char)
    requires d < 16
  {
    "0123456789abcdef"[d]
  }

  /** One character inside quotes. */
  function EscapeChar(c: char): string {
    if c == '"' then "\\\""
    else if c == '\\' then "\\\\"
    else if c == '\t' then "\\t"
    else if c == '\n' then "\\n"
    else if c == '\r' then "\\r"
    else if c as int == 8 then "\\b"
    else if c as int == 12 then "\\f"
    else if c as int < 32 then "\\u00" + [HexDigit(c as int / 16), HexDigit(c as int % 16)]
    else [c]
  }

  function Escaped(s: string): string {
    if s == "" then "" else EscapeChar(s[0]) + Escaped(s[1..])
  }

  /** `JSON.stringify` of a string. */
  function Quote(s: string): string {
    ['"'] + Escaped(s) + ['"']
  }

  function Decimal(n: nat): (s: string)
    ensures s != ""
    ensures forall c | c in s :: IsDigit(c)
  {
    if n < 10 then ['0' + n as char] else Decimal(n / 10) + ['0' + (n % 10) as char]
  }

  function Number(n: int): string {
    if n < 0 then ['-'] + Decimal(-n) else Decimal(n)
  }

  lemma HexInjective(a: nat, b: nat)
    requires a < 32 && b < 32
    requires HexDigit(a / 16) == HexDigit(b / 16) && HexDigit(a % 16) == HexDigit(b % 16)
    ensures a == b
  {
  }

  /** The character that an escape begins with, and the one that follows, tell which it is. */
  lemma EscapeCharFacts(c: char)
    ensures EscapeChar(c) != "" && EscapeChar(c)[0] != '"'
    ensures EscapeChar(c)[0] != '\\' ==> EscapeChar(c) == [c]
    ensures EscapeChar(c)[0] == '\\' ==> |EscapeChar(c)| >= 2
    ensures |EscapeChar(c)| == 2 ==> EscapeChar(c)[1] != 'u'
    ensures |EscapeChar(c)| > 2 ==> |EscapeChar(c)| == 6 && EscapeChar(c)[1] == 'u'
  {
  }

  lemma EscapeCharSame(c: char, d: char)
    requires EscapeChar(c) == EscapeChar(d)
    ensures c == d
  {
    if |EscapeChar(c)| == 6 {
      assert EscapeChar(c)[4] == HexDigit(c as int / 16) && EscapeChar(c)[5] == HexDigit(c as int % 16);
      assert EscapeChar(d)[4] == HexDigit(d as int / 16) && EscapeChar(d)[5] == HexDigit(d as int % 16);
      HexInjective(c as int, d as int);
    }
  }

  lemma EscapeCharPrefixFree(c: char, x: string, d: char, y: string)
    requires EscapeChar(c) + x == EscapeChar(d) + y
    ensures c == d && x == y
  {
    EscapeCharFacts(c);
    EscapeCharFacts(d);
    var s := EscapeChar(c) + x;
    assert s[0] == EscapeChar(c)[0] == EscapeChar(d)[0];
    if s[0] == '\\' {
      assert s[1] == EscapeChar(c)[1] == EscapeChar(d)[1];
    }
    assert |EscapeChar(c)| == |EscapeChar(d)|;
    assert EscapeChar(c) == s[..|EscapeChar(c)|] == EscapeChar(d);
    EscapeCharSame(c, d);
    Cancel(EscapeChar(c), x, y);
  }

  lemma {:induction false} EscapedPrefixFree(s: string, x: string, t: string, y: string)
    requires Escaped(s) + (['"'] + x) == Escaped(t) + (['"'] + y)
    ensures s == t && x == y
    decreases |s|
  {
    EscapedStart(s, ['"'] + x);
    EscapedStart(t, ['"'] + y);
    if s == "" {
      assert t == "";
      EmptyEscaped(x);
      EmptyEscaped(y);
      Cancel(['"'], x, y);
    } else {
      EscapedStep(s, ['"'] + x);
      EscapedStep(t, ['"'] + y);
      EscapeCharPrefixFree(s[0], Escaped(s[1..]) + (['"'] + x), t[0], Escaped(t[1..]) + (['"'] + y));
      EscapedPrefixFree(s[1..], x, t[1..], y);
    }
  }

  lemma EmptyEscaped(x: string)
    ensures Escaped("") + (['"'] + x) == ['"'] + x
  {
  }

  lemma EscapedStep(s: string, rest: string)
    requires s != ""
    ensures Escaped(s) + rest == EscapeChar(s[0]) + (Escaped(s[1..]) + rest)
    ensures s == [s[0]] + s[1..]
  {
    Associative(EscapeChar(s[0]), Escaped(s[1..]), rest);
  }

  /** Only the closing quote starts with a quote. */
  lemma EscapedStart(s: string, rest: string)
    requires rest != "" && rest[0] == '"'
    ensures (Escaped(s) + rest)[0] == '"' <==> s == ""
  {
    if s != "" {
      EscapeCharFacts(s[0]);
    }
  }

  lemma QuoteThen(s: string, x: string)
    ensures Quote(s) + x == ['"'] + (Escaped(s) + (['"'] + x))
  {
    Associative(['"'], Escaped(s), ['"']);
    Associative(['"'], Escaped(s) + ['"'], x);
    Associative(Escaped(s), ['"'], x);
  }

  lemma QuotePrefixFree(s: string, x: string, t: string, y: string)
    requires Quote(s) + x == Quote(t) + y
    ensures s == t && x == y
  {
    QuoteThen(s, x);
    QuoteThen(t, y);
    Cancel(['"'], Escaped(s) + (['"'] + x), Escaped(t) + (['"'] + y));
    EscapedPrefixFree(s, x, t, y);
  }

  lemma {:induction false} DecimalInjective(n: nat, m: nat)
    requires Decimal(n) == Decimal(m)
    ensures n == m
  {
    var s := Decimal(n);
    if n >= 10 && m >= 10 {
      assert Decimal(n / 10) == s[..|s| - 1] == Decimal(m / 10);
      assert ('0' + (n % 10) as char) == s[|s| - 1] == ('0' + (m % 10) as char);
      DecimalInjective(n / 10, m / 10);
    }
  }

  predicate Stops(x: string) {
    x == "" || !IsDigit(x[0])
  }

  lemma DecimalLengths(n: nat, x: string, m: nat, y: string)
    requires Decimal(n) + x == Decimal(m) + y && Stops(x)
    ensures |Decimal(n)| >= |Decimal(m)|
  {
    var s, k := Decimal(n) + x, |Decimal(n)|;
    assert forall i | 0 <= i < |Decimal(m)| :: s[i] == Decimal(m)[i] && Decimal(m)[i] in Decimal(m);
    assert k < |s| ==> s[k] == x[0];
  }

  lemma DecimalPrefixFree(n: nat, x: string, m: nat, y: string)
    requires Decimal(n) + x == Decimal(m) + y && Stops(x) && Stops(y)
    ensures n == m && x == y
  {
    DecimalLengths(n, x, m, y);
    DecimalLengths(m, y, n, x);
    var s := Decimal(n) + x;
    assert Decimal(n) == s[..|Decimal(n)|] == Decimal(m);
    DecimalInjective(n, m);
    Cancel(Decimal(n), x, y);
  }

  lemma NumberStart(n: int)
    ensures Number(n) != "" && (Number(n)[0] == '-' <==> n < 0) && (Number(n)[0] == '-' || IsDigit(Number(n)[0]))
  {
    if n >= 0 {
      assert Decimal(n)[0] in Decimal(n);
    }
  }

  lemma SignSplit(n: nat, x: string)
    ensures (['-'] + Decimal(n)) + x == ['-'] + (Decimal(n) + x)
  {
  }

  lemma NegativePrefixFree(n: nat, x: string, m: nat, y: string)
    requires (['-'] + Decimal(n)) + x == (['-'] + Decimal(m)) + y && Stops(x) && Stops(y)
    ensures n == m && x == y
  {
    SignSplit(n, x);
    SignSplit(m, y);
    Cancel(['-'], Decimal(n) + x, Decimal(m) + y);
    DecimalPrefixFree(n, x, m, y);
  }

  lemma SameSign(n: int, x: string, m: int, y: string)
    requires Number(n) + x == Number(m) + y
    ensures n < 0 <==> m < 0
  {
    NumberStart(n);
    NumberStart(m);
    assert (Number(n) + x)[0] == Number(n)[0] && (Number(m) + y)[0] == Number(m)[0];
  }

  lemma NumberPrefixFree(n: int, x: string, m: int, y: string)
    requires Number(n) + x == Number(m) + y && Stops(x) && Stops(y)
    ensures n == m && x == y
  {
    SameSign(n, x, m, y);
    if n < 0 {
      NegativePrefixFree(-n, x, -m, y);
    } else {
      DecimalPrefixFree(n, x, m, y);
    }
  }
}
