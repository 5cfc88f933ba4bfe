/** The text that is digested into the name of a projected token's secret, and why it is unambiguous. */
module TokenNames {
  import opened Basics

  /** Which characters `strconv.Quote` leaves as they are, besides the quote and the backslash. */
  type Printable = char -> bool

  function Power(n: nat): nat {
    if n == 0 then 1 else 16 * Power(n - 1)
  }

  /** `n` in hexadecimal with a fixed number of digits. */
  function HexOf(n: nat, width: nat): (s: string)
    ensures |s| == width
  {
    if width == 0 then "" else HexOf(n / 16, width - 1) + [Digit(n % 16)]
  }

  lemma {:induction false} HexOfInjective(n: nat, m: nat, width: nat)
    requires n < Power(width) && m < Power(width) && HexOf(n, width) == HexOf(m, width)
    ensures n == m
  {
    if width > 0 {
      var a, b := HexOf(n / 16, width - 1), HexOf(m / 16, width - 1);
      assert HexOf(n, width)[..width - 1] == a && HexOf(m, width)[..width - 1] == b;
      assert HexOf(n, width)[width - 1] == Digit(n % 16) && HexOf(m, width)[width - 1] == Digit(m % 16);
      HexOfInjective(n / 16, m / 16, width - 1);
    }
  }

  /** The number that hexadecimal digits denote. */
  function HexNumber(s: string): int {
    if s == "" then 0 else 16 * HexNumber(s[..|s| - 1]) + Nibble(s[|s| - 1])
  }

  lemma {:induction false} HexOfNumber(n: nat, width: nat)
    requires n < Power(width)
    ensures HexNumber(HexOf(n, width)) == n && forall c :: c in HexOf(n, width) ==> IsDigit(c) || 'a' <= c <= 'f'
  {
    if width > 0 {
      HexOfNumber(n / 16, width - 1);
      assert HexOf(n, width)[..width - 1] == HexOf(n / 16, width - 1);
    }
  }

  lemma Powers()
    ensures Power(2) == 0x100 && Power(4) == 0x1_0000 && Power(8) == 0x1_0000_0000
  {
  }

  /** The letter of a short escape. */
  function ShortEscape(c: char): string {
    if c == '"' then "\""
    else if c == '\\' then "\\"
    else if c as int == 7 then "a"
    else if c as int == 8 then "b"
    else if c as int == 12 then "f"
    else if c as int == 10 then "n"
    else if c as int == 13 then "r"
    else if c as int == 9 then "t"
    else if c as int == 11 then "v"
    else ""
  }

  /** One character as `strconv.Quote` writes it. */
  function Escape(p: Printable, c: char): (s: string)
    ensures s != ""
  {
    if c == '"' || c == '\\' then "\\" + ShortEscape(c)
    else if p(c) then [c]
    else if ShortEscape(c) != "" then "\\" + ShortEscape(c)
    else if c < ' ' || c as int == 127 then "\\x" + HexOf(c as int, 2)
    else if c as int < 0x1_0000 then "\\u" + HexOf(c as int, 4)
    else "\\U" + HexOf(c as int, 8)
  }

  /** The escapes of Go's string literals: a letter for the common ones, else two, four or eight digits of the character's
      number. */
  lemma EscapeText(p: Printable, c: char)
    ensures Escape(p, '"') == "\\\"" && Escape(p, '\\') == "\\\\"
    ensures p(c) && c != '"' && c != '\\' ==> Escape(p, c) == [c]
    ensures !p(c) && c == '\n' ==> Escape(p, c) == "\\n"
    ensures !p(c) && c == '\r' ==> Escape(p, c) == "\\r"
    ensures !p(c) && c == '\t' ==> Escape(p, c) == "\\t"
    ensures !p(c) && c as int == 7 ==> Escape(p, c) == "\\a"
    ensures !p(c) && c as int == 8 ==> Escape(p, c) == "\\b"
    ensures !p(c) && c as int == 11 ==> Escape(p, c) == "\\v"
    ensures !p(c) && c as int == 12 ==> Escape(p, c) == "\\f"
    ensures |Escape(p, c)| == 4 ==> Escape(p, c)[..2] == "\\x" && HexNumber(Escape(p, c)[2..]) == c as int
    ensures |Escape(p, c)| == 6 ==> Escape(p, c)[..2] == "\\u" && HexNumber(Escape(p, c)[2..]) == c as int
    ensures |Escape(p, c)| == 10 ==> Escape(p, c)[..2] == "\\U" && HexNumber(Escape(p, c)[2..]) == c as int
  {
    var e, n := Escape(p, c), c as int;
    EscapeShape(p, c);
    Powers();
    if |e| == 4 { assert e[2..] == HexOf(n, 2); HexOfNumber(n, 2); }
    if |e| == 6 { assert e[2..] == HexOf(n, 4); HexOfNumber(n, 4); }
    if |e| == 10 { assert e[2..] == HexOf(n, 8); HexOfNumber(n, 8); }
  }

  function Escapes(p: Printable, s: string): string {
    if s == "" then "" else Escape(p, s[0]) + Escapes(p, s[1..])
  }

  /** `%q`. */
  function Quote(p: Printable, s: string): string {
    "\"" + Escapes(p, s) + "\""
  }

  /** The kind of an escape can be read off its first two characters, and fixes its length. */
  lemma EscapeShape(p: Printable, c: char)
    ensures var e := Escape(p, c);
      if e[0] != '\\' then e == [c] && c != '"'
      else |e| >= 2 && |e| == (if e[1] == 'x' then 4 else if e[1] == 'u' then 6 else if e[1] == 'U' then 10 else 2)
  {
  }

  /** An escape is not the beginning of another one. */
  lemma EscapePrefixFree(p: Printable, c: char, r: string, d: char, q: string)
    requires Escape(p, c) + r == Escape(p, d) + q
    ensures c == d && r == q
  {
    var e, f := Escape(p, c), Escape(p, d);
    EscapeShape(p, c);
    EscapeShape(p, d);
    assert e[0] == (e + r)[0] && f[0] == (f + q)[0];
    if e[0] == '\\' { assert e[1] == (e + r)[1] && f[1] == (f + q)[1]; }
    assert |e| == |f|;
    assert e == (e + r)[..|e|] && f == (f + q)[..|f|];
    assert r == (e + r)[|e|..] && q == (f + q)[|f|..];
    EscapeInjective(p, c, d);
  }

  lemma EscapeInjective(p: Printable, c: char, d: char)
    requires Escape(p, c) == Escape(p, d)
    ensures c == d
  {
    var e := Escape(p, c);
    EscapeShape(p, c);
    EscapeShape(p, d);
    Powers();
    if |e| == 4 { assert e[2..] == HexOf(c as int, 2) && e[2..] == HexOf(d as int, 2); HexOfInjective(c as int, d as int, 2); }
    if |e| == 6 { assert e[2..] == HexOf(c as int, 4) && e[2..] == HexOf(d as int, 4); HexOfInjective(c as int, d as int, 4); }
    if |e| == 10 { assert e[2..] == HexOf(c as int, 8) && e[2..] == HexOf(d as int, 8); HexOfInjective(c as int, d as int, 8); }
    if |e| == 2 { ShortInjective(p, c, d); }
  }

  lemma ShortInjective(p: Printable, c: char, d: char)
    requires Escape(p, c) == Escape(p, d) && |Escape(p, c)| == 2
    ensures c == d
  {
    assert Escape(p, c)[1] == ShortEscape(c)[0] && Escape(p, d)[1] == ShortEscape(d)[0];
  }

  /** The rest of a text inside quotes, with what follows it. */
  function Inside(p: Printable, s: string, r: string): string {
    Escapes(p, s) + "\"" + r
  }

  lemma InsideStep(p: Printable, s: string, r: string)
    ensures if s == "" then Inside(p, s, r) == "\"" + r
            else Inside(p, s, r) == Escape(p, s[0]) + Inside(p, s[1..], r) && Inside(p, s, r)[0] != '"'
  {
  }

  /** A quoted string ends at its closing quote, whatever follows. */
  lemma {:induction false} EscapesDecode(p: Printable, s: string, r: string, t: string, q: string)
    requires Inside(p, s, r) == Inside(p, t, q)
    ensures s == t && r == q
    decreases |s|
  {
    InsideStep(p, s, r);
    InsideStep(p, t, q);
    if s == "" {
      assert r == Inside(p, s, r)[1..];
    } else {
      DecodeStep(p, s[0], Inside(p, s[1..], r), t, q);
      EscapesDecode(p, s[1..], r, t[1..], q);
      assert s == [s[0]] + s[1..] && t == [t[0]] + t[1..];
    }
  }

  lemma DecodeStep(p: Printable, c: char, x: string, t: string, q: string)
    requires Escape(p, c) + x == Inside(p, t, q) && (Escape(p, c) + x)[0] != '"'
    ensures t != "" && c == t[0] && x == Inside(p, t[1..], q)
  {
    InsideStep(p, t, q);
    EscapePrefixFree(p, c, x, t[0], Inside(p, t[1..], q));
  }

  // ---------------------------------------------------------------------------------------------
  // Token attributes
  // ---------------------------------------------------------------------------------------------

  datatype Token = Token(audience: string, expiration: Option<int>, path: string)

  /** `strconv.FormatInt` in base ten. */
  function FormatInt(n: int): (s: string)
    ensures s != ""
  {
    if n < 0 then "-" + Decimal(-n) else Decimal(n)
  }

  lemma DecimalInjective(n: nat, m: nat)
    requires Decimal(n) == Decimal(m)
    ensures n == m
  {
    NumberOfDecimal(n);
    NumberOfDecimal(m);
  }

  lemma FormatIntInjective(n: int, m: int)
    requires FormatInt(n) == FormatInt(m)
    ensures n == m
  {
    var s, t := FormatInt(n), FormatInt(m);
    assert (n >= 0 ==> s[0] in s) && (m >= 0 ==> t[0] in t);
    assert (n < 0 ==> s[0] == '-') && (m < 0 ==> t[0] == '-');
    if n < 0 {
      assert s[1..] == Decimal(-n) && t[1..] == Decimal(-m);
      DecimalInjective(-n, -m);
    } else {
      DecimalInjective(n, m);
    }
  }

  function Expiration(t: Token): string {
    if t.expiration.None? then "" else FormatInt(t.expiration.value)
  }

  /** The attributes as they are digested, from the expiration on, and from the audience on. */
  function FromExpiration(p: Printable, t: Token): string {
    Quote(p, Expiration(t)) + ("/" + Quote(p, t.path))
  }

  function FromAudience(p: Printable, t: Token): string {
    Quote(p, t.audience) + ("/" + FromExpiration(p, t))
  }

  /** What is digested: the pod's name and the token's attributes, quoted and separated by '/'. */
  function Attributes(p: Printable, podName: string, t: Token): string {
    Quote(p, podName) + ("/" + FromAudience(p, t))
  }

  /** The four fields in their order. */
  lemma AttributesText(p: Printable, podName: string, t: Token)
    ensures Attributes(p, podName, t) ==
      Quote(p, podName) + "/" + Quote(p, t.audience) + "/" + Quote(p, Expiration(t)) + "/" + Quote(p, t.path)
    ensures Quote(p, podName) == "\"" + Escapes(p, podName) + "\""
    ensures t.expiration.None? ==> Expiration(t) == ""
  {
    var a, b, c, d := Quote(p, podName), Quote(p, t.audience), Quote(p, Expiration(t)), Quote(p, t.path);
    FlatText(a, b, c, d);
  }

  lemma FlatText(a: string, b: string, c: string, d: string)
    ensures a + ("/" + (b + ("/" + (c + ("/" + d))))) == a + "/" + b + "/" + c + "/" + d
  {
    assert c + ("/" + d) == c + "/" + d;
    assert b + ("/" + (c + "/" + d)) == b + "/" + c + "/" + d;
  }

  /** The expiration in base ten, with its sign. */
  lemma ExpirationText(t: Token)
    requires t.expiration.Some?
    ensures var n, s := t.expiration.value, Expiration(t);
      if n < 0 then s[0] == '-' && Number(s[1..]) == -n else Number(s) == n
  {
    var n := t.expiration.value;
    NumberOfDecimal(if n < 0 then -n else n);
    if n < 0 { assert Expiration(t)[1..] == Decimal(-n); }
  }

  lemma QuoteDecodes(p: Printable, s: string, r: string, t: string, q: string)
    requires Quote(p, s) + r == Quote(p, t) + q
    ensures s == t && r == q
  {
    QuoteBegins(p, s, r);
    QuoteBegins(p, t, q);
    EscapesDecode(p, s, r, t, q);
  }

  lemma QuoteBegins(p: Printable, s: string, r: string)
    ensures |Quote(p, s) + r| > 0 && (Quote(p, s) + r)[1..] == Inside(p, s, r)
  {
    assert Quote(p, s) + r == "\"" + Inside(p, s, r);
  }

  /** A quoted field and what follows its '/'. */
  lemma FieldDecodes(p: Printable, s: string, r: string, t: string, q: string)
    requires Quote(p, s) + ("/" + r) == Quote(p, t) + ("/" + q)
    ensures s == t && r == q
  {
    QuoteDecodes(p, s, "/" + r, t, "/" + q);
    assert r == ("/" + r)[1..] && q == ("/" + q)[1..];
  }

  /** Different pods or tokens have different texts, whatever characters they use. */
  lemma AttributesInjective(p: Printable, podName: string, t: Token, podName': string, t': Token)
    requires Attributes(p, podName, t) == Attributes(p, podName', t')
    ensures podName == podName' && t == t'
  {
    FieldDecodes(p, podName, FromAudience(p, t), podName', FromAudience(p, t'));
    FieldDecodes(p, t.audience, FromExpiration(p, t), t'.audience, FromExpiration(p, t'));
    FieldDecodes(p, Expiration(t), Quote(p, t.path), Expiration(t'), Quote(p, t'.path));
    assert Quote(p, t.path) + "" == Quote(p, t.path) && Quote(p, t'.path) + "" == Quote(p, t'.path);
    QuoteDecodes(p, t.path, "", t'.path, "");
    if t.expiration.Some? && t'.expiration.Some? { FormatIntInjective(t.expiration.value, t'.expiration.value); }
  }
}
