/** The pieces of Go's `fmt` verbs the listing prints with:
- `%d` of an integer (Decimal), with its reader ParseDecimal
- `%q` of a string (Quote), with its reader Unquote
- splitting a "host:port" address at its last colon (SplitAddress)
 */
module Format {
  import opened Outcomes

  predicate IsDigit(c: char)
  {
    '0' <= c <= '9'
  }

  predicate AllDigits(s: string)
  {
    forall i :: 0 <= i < |s| ==> IsDigit(s[i])
  }

  function DigitChar(d: nat): (c: char)
    requires d < 10
    ensures IsDigit(c)
    ensures c as int - '0' as int == d
  {
    ('0' as int + d) as char
  }

  function DigitValue(c: char): (d: nat)
    requires IsDigit(c)
    ensures d < 10
    ensures DigitChar(d) == c
  {
    c as int - '0' as int
  }

  /** The decimal digits of `n`, most significant first, with no leading zero. */
  function NatDigits(n: nat): (s: string)
    ensures |s| > 0
    ensures AllDigits(s)
    ensures s[0] == '0' ==> n == 0 && |s| == 1
    decreases n
  {
    if n < 10 then [DigitChar(n)] else NatDigits(n / 10) + [DigitChar(n % 10)]
  }

  /** The number a string of decimal digits denotes. */
  function DigitsValue(s: string): nat
    requires AllDigits(s)
  {
    if s == [] then 0 else 10 * DigitsValue(s[..|s| - 1]) + DigitValue(s[|s| - 1])
  }

  lemma {:induction false} DigitsValueOfNatDigits(n: nat)
    ensures DigitsValue(NatDigits(n)) == n
    decreases n
  {
    if n >= 10 {
      var s := NatDigits(n);
      assert s[..|s| - 1] == NatDigits(n / 10);
      DigitsValueOfNatDigits(n / 10);
    }
  }

  /** What `%d` prints for an integer: a minus sign for a negative value, then its digits. */
  function Decimal(n: int): (s: string)
    ensures |s| > 0
    ensures ':' !in s
    ensures (s[0] == '-') == (n < 0)
  {
    if n < 0 then "-" + NatDigits(-n) else NatDigits(n)
  }

  /** Reads an optionally negative decimal integer back. */
  function ParseDecimal(s: string): Option<int>
  {
    if |s| > 1 && s[0] == '-' && AllDigits(s[1..]) then Some(-(DigitsValue(s[1..]) as int))
    else if |s| > 0 && AllDigits(s) then Some(DigitsValue(s))
    else None
  }

  /** `%d` loses nothing: its output reads back as the same integer. */
  lemma DecimalRoundTrip(n: int)
    ensures ParseDecimal(Decimal(n)) == Some(n)
  {
    if n < 0 {
      var d := NatDigits(-n);
      assert ("-" + d)[1..] == d;
      DigitsValueOfNatDigits(-n);
    } else {
      DigitsValueOfNatDigits(n);
    }
  }

  /** Index of the last occurrence of `c` in `s`. */
  function LastIndexOf(s: string, c: char): (r: Option<nat>)
    ensures r.Some? ==> r.value < |s| && s[r.value] == c
    ensures r.Some? ==> forall j :: r.value < j < |s| ==> s[j] != c
    ensures r.None? <==> c !in s
  {
    if s == [] then None
    else if s[|s| - 1] == c then Some(|s| - 1)
    else LastIndexOf(s[..|s| - 1], c)
  }

  /** Splits "host:port" at its last colon and reads the port back. */
  function SplitAddress(a: string): Option<(string, int)>
  {
    match LastIndexOf(a, ':')
    case None => None
    case Some(i) =>
      match ParseDecimal(a[i + 1..])
      case None => None
      case Some(p) => Some((a[..i], p))
  }

  /** Joining a host (which may itself hold colons) and a decimal port with ":"
      splits back into the same host and port. */
  lemma SplitJoinedAddress(host: string, port: int)
    ensures SplitAddress(host + ":" + Decimal(port)) == Some((host, port))
  {
    var d := Decimal(port);
    var a := host + ":" + d;
    assert a[|host|] == ':';
    var k := LastIndexOf(a, ':');
    assert k == Some(|host|);
    assert a[|host| + 1..] == d;
    assert a[..|host|] == host;
    DecimalRoundTrip(port);
  }

  const Quote1: char := '"'
  const Backslash: char := '\\'

  /** Control characters `%q` writes as a letter escape, and the letter it uses. */
  function LetterEscape(c: char): Option<char>
  {
    if c == 7 as char then Some('a')
    else if c == 8 as char then Some('b')
    else if c == 12 as char then Some('f')
    else if c == '\n' then Some('n')
    else if c == '\r' then Some('r')
    else if c == '\t' then Some('t')
    else if c == 11 as char then Some('v')
    else None
  }

  /** The character a letter escape stands for. */
  function LetterUnescape(l: char): Option<char>
  {
    if l == 'a' then Some(7 as char)
    else if l == 'b' then Some(8 as char)
    else if l == 'f' then Some(12 as char)
    else if l == 'n' then Some('\n')
    else if l == 'r' then Some('\r')
    else if l == 't' then Some('\t')
    else if l == 'v' then Some(11 as char)
    else None
  }

  /** ASCII control characters without a letter escape are written as `\xHH`. */
  predicate IsHexEscaped(c: char)
  {
    (c as int < 0x20 || c as int == 0x7f) && LetterEscape(c).None?
  }

  const HexDigits: string := "0123456789abcdef"

  function HexValue(h: char): Option<nat>
  {
    if '0' <= h <= '9' then Some(h as int - '0' as int)
    else if 'a' <= h <= 'f' then Some(h as int - 'a' as int + 10)
    else None
  }

  /** How `%q` writes one character inside the quotes. */
  function EscapeChar(c: char): (s: string)
    ensures 0 < |s|
  {
    if c == Quote1 then [Backslash, Quote1]
    else if c == Backslash then [Backslash, Backslash]
    else if LetterEscape(c).Some? then [Backslash, LetterEscape(c).value]
    else if IsHexEscaped(c) then [Backslash, 'x', HexDigits[c as int / 16], HexDigits[c as int % 16]]
    else [c]
  }

  function Escape(s: string): string
  {
    if s == [] then [] else EscapeChar(s[0]) + Escape(s[1..])
  }

  /** What `%q` prints for a string. */
  function Quote(s: string): (q: string)
    ensures |q| >= 2 && q[0] == Quote1 && q[|q| - 1] == Quote1
  {
    [Quote1] + Escape(s) + [Quote1]
  }

  function Prepend(c: char, rest: Option<string>): Option<string>
  {
    match rest
    case None => None
    case Some(t) => Some([c] + t)
  }

  /** Reads the inside of a quoted string back, undoing the escapes; an unescaped
      double quote or a broken escape is rejected. */
  function Unescape(t: string): Option<string>
    decreases |t|
  {
    if t == [] then Some([])
    else if t[0] == Quote1 then None
    else if t[0] != Backslash then Prepend(t[0], Unescape(t[1..]))
    else if |t| < 2 then None
    else if t[1] == Quote1 || t[1] == Backslash then Prepend(t[1], Unescape(t[2..]))
    else if LetterUnescape(t[1]).Some? then Prepend(LetterUnescape(t[1]).value, Unescape(t[2..]))
    else if t[1] == 'x' && |t| >= 4 && HexValue(t[2]).Some? && HexValue(t[3]).Some? then
      Prepend((16 * HexValue(t[2]).value + HexValue(t[3]).value) as char, Unescape(t[4..]))
    else None
  }

  function Unquote(q: string): Option<string>
  {
    if |q| >= 2 && q[0] == Quote1 && q[|q| - 1] == Quote1 then Unescape(q[1..|q| - 1]) else None
  }

  lemma UnescapeEscapeChar(c: char, rest: string)
    ensures Unescape(EscapeChar(c) + rest) == Prepend(c, Unescape(rest))
  {
    var t := EscapeChar(c) + rest;
    if c == Quote1 || c == Backslash {
      assert t[2..] == rest;
    } else if LetterEscape(c).Some? {
      assert t[2..] == rest;
    } else if IsHexEscaped(c) {
      assert t[4..] == rest;
      assert HexValue(t[2]) == Some(c as int / 16);
      assert HexValue(t[3]) == Some(c as int % 16);
    } else {
      assert t[1..] == rest;
    }
  }

  lemma {:induction false} UnescapeEscape(s: string)
    ensures Unescape(Escape(s)) == Some(s)
  {
    if s != [] {
      UnescapeEscapeChar(s[0], Escape(s[1..]));
      UnescapeEscape(s[1..]);
      assert [s[0]] + s[1..] == s;
    }
  }

  /** `%q` loses nothing: its output reads back as the same string. */
  lemma QuoteRoundTrip(s: string)
    ensures Unquote(Quote(s)) == Some(s)
  {
    var q := Quote(s);
    assert q[1..|q| - 1] == Escape(s);
    UnescapeEscape(s);
  }
}
