/** Text helpers and scalars of the build manifest's YAML subset. */
module YamlText {
  import opened ActionTypes

  /** What Python's `strip` removes. */
  predicate IsSpace(c: char) {
    var n := c as int;
    || 9 <= n <= 13 || 0x1c <= n <= 0x20 || n == 0x85 || n == 0xa0 || n == 0x1680 || 0x2000 <= n <= 0x200a
    || n == 0x2028 || n == 0x2029 || n == 0x202f || n == 0x205f || n == 0x3000
  }

  /** Where Python's `splitlines` splits. */
  predicate IsBreak(c: char) {
    var n := c as int;
    10 <= n <= 13 || 0x1c <= n <= 0x1e || n == 0x85 || n == 0x2028 || n == 0x2029
  }

  function RStrip(t: string): string {
    if t != "" && IsSpace(t[|t| - 1]) then RStrip(t[..|t| - 1]) else t
  }

  function LStrip(t: string): string {
    if t != "" && IsSpace(t[0]) then LStrip(t[1..]) else t
  }

  function Strip(t: string): string { RStrip(LStrip(t)) }

  function LStripBlanks(t: string): (r: string)
    ensures |r| <= |t|
  {
    if t != "" && t[0] == ' ' then LStripBlanks(t[1..]) else t
  }

  function Spaces(n: nat): string { seq(n, _ => ' ') }

  function BreakAt(t: string): (n: nat)
    ensures n <= |t| && (forall k | 0 <= k < n :: !IsBreak(t[k])) && (n < |t| ==> IsBreak(t[n]))
  {
    if t == "" || IsBreak(t[0]) then 0 else 1 + BreakAt(t[1..])
  }

  /** Carriage return and line feed together are one break. */
  function SplitLines(t: string): seq<string> {
    if t == "" then []
    else
      var n := BreakAt(t);
      if n == |t| then [t]
      else [t[..n]] + SplitLines(t[if t[n] == '\r' && n + 1 < |t| && t[n + 1] == '\n' then n + 2 else n + 1..])
  }

  // ----- comments -----

  /** The text up to an unquoted `#`. */
  function Uncommented(text: string, quote: Option<char>, escaped: bool): string {
    if text == "" then ""
    else
      var (c, rest) := (text[0], text[1..]);
      if escaped then [c] + Uncommented(rest, quote, false)
      else if c == '\\' && quote.Some? then [c] + Uncommented(rest, quote, true)
      else if c == '\'' || c == '"' then
        [c] + Uncommented(rest, if quote.None? then Some(c) else if quote.value == c then None else quote, false)
      else if c == '#' && quote.None? then ""
      else [c] + Uncommented(rest, quote, false)
  }

  function StripComment(text: string): string { RStrip(Uncommented(text, None, false)) }

  lemma AppendOne(out: string, c: char, rest: string)
    ensures out + ([c] + rest) == (out + [c]) + rest
  {
  }

  method StripCommentLoop(text: string) returns (r: string)
    ensures r == StripComment(text)
  {
    var quote: Option<char> := None;
    var escaped := false;
    var out: string := "";
    var i := 0;
    ghost var rest := text;
    while i < |text|
      invariant i <= |text| && rest == text[i..]
      invariant Uncommented(text, None, false) == out + Uncommented(rest, quote, escaped)
    {
      var c := text[i];
      assert rest[0] == c && rest[1..] == text[i + 1..];
      if escaped {
        escaped := false;
      } else if c == '\\' && quote.Some? {
        escaped := true;
      } else if c == '\'' || c == '"' {
        quote := if quote.None? then Some(c) else if quote.value == c then None else quote;
      } else if c == '#' && quote.None? {
        break;
      }
      AppendOne(out, c, Uncommented(rest[1..], quote, escaped));
      out := out + [c];
      i := i + 1;
      rest := rest[1..];
    }
    assert Uncommented(rest, quote, escaped) == "";
    assert out + "" == out;
    r := RStrip(out);
  }

  // ----- quoted strings -----

  function HexDigit(n: nat): (c: char)
    requires n < 16
  {
    "0123456789abcdef"[n]
  }

  function HexValue(c: char): (n: nat)
    ensures n <= 16
  {
    if '0' <= c <= '9' then c as int - '0' as int
    else if 'a' <= c <= 'f' then c as int - 'a' as int + 10
    else if 'A' <= c <= 'F' then c as int - 'A' as int + 10
    else 16
  }

  function EscapeChar(c: char): string {
    var n := c as int;
    if c == '\\' then "\\\\"
    else if c == '"' then "\\\""
    else if n == 8 then "\\b"
    else if c == '\t' then "\\t"
    else if c == '\n' then "\\n"
    else if n == 12 then "\\f"
    else if c == '\r' then "\\r"
    else if n < 32 then ['\\', 'u', '0', '0', HexDigit(n / 16), HexDigit(n % 16)]
    else [c]
  }

  function Escape(s: string): string {
    if s == "" then "" else EscapeChar(s[0]) + Escape(s[1..])
  }

  function Quoted(s: string): string { "\"" + Escape(s) + "\"" }

  function Cons(c: char, rest: Option<string>): Option<string> {
    if rest.None? then None else Some([c] + rest.value)
  }

  function Simple(c: char): Option<char> {
    if c == '"' || c == '\\' || c == '/' then Some(c)
    else if c == 'b' then Some(8 as char)
    else if c == 't' then Some('\t')
    else if c == 'n' then Some('\n')
    else if c == 'f' then Some(12 as char)
    else if c == 'r' then Some('\r')
    else None
  }

  /** The JSON string whose text after the opening quote is `t`, if the closing quote is the last character. */
  function Unquote(t: string): Option<string> {
    if t == "" then None
    else if t[0] == '"' then if |t| == 1 then Some("") else None
    else if t[0] == '\\' then
      if |t| < 2 then None
      else if t[1] == 'u' then
        if |t| < 6 || !(forall k | 2 <= k < 6 :: HexValue(t[k]) < 16) then None
        else
          var n := ((HexValue(t[2]) * 16 + HexValue(t[3])) * 16 + HexValue(t[4])) * 16 + HexValue(t[5]);
          if 0xd800 <= n < 0xe000 then None else Cons(n as char, Unquote(t[6..]))
      else
        match Simple(t[1]) case None => None case Some(c) => Cons(c, Unquote(t[2..]))
    else if t[0] as int < 32 then None
    else Cons(t[0], Unquote(t[1..]))
  }

  lemma HexRoundTrip(n: nat)
    requires n < 16
    ensures HexValue(HexDigit(n)) == n
  {
  }

  lemma UnquoteHex(n: nat, rest: string)
    requires n < 32
    ensures Unquote(['\\', 'u', '0', '0', HexDigit(n / 16), HexDigit(n % 16)] + rest) == Cons(n as char, Unquote(rest))
  {
    HexRoundTrip(n / 16);
    HexRoundTrip(n % 16);
    var t := ['\\', 'u', '0', '0', HexDigit(n / 16), HexDigit(n % 16)] + rest;
    assert t[6..] == rest;
    assert t[2] == '0' && t[3] == '0' && t[4] == HexDigit(n / 16) && t[5] == HexDigit(n % 16);
  }

  lemma UnquoteSimple(d: char, rest: string)
    requires Simple(d).Some?
    ensures Unquote(['\\', d] + rest) == Cons(Simple(d).value, Unquote(rest))
  {
    assert (['\\', d] + rest)[2..] == rest;
  }

  lemma UnquotePlain(c: char, rest: string)
    requires c as int >= 32 && c != '"' && c != '\\'
    ensures Unquote([c] + rest) == Cons(c, Unquote(rest))
  {
    assert ([c] + rest)[1..] == rest;
  }

  lemma UnquoteChar(c: char, rest: string)
    ensures Unquote(EscapeChar(c) + rest) == Cons(c, Unquote(rest))
  {
    var e := EscapeChar(c);
    if |e| == 6 {
      UnquoteHex(c as int, rest);
    } else if |e| == 2 {
      assert Simple(e[1]) == Some(c) && e == ['\\', e[1]];
      UnquoteSimple(e[1], rest);
    } else {
      UnquotePlain(c, rest);
    }
  }

  lemma {:induction false} UnquoteEscape(s: string)
    ensures Unquote(Escape(s) + "\"") == Some(s)
  {
    if s == "" {
    } else {
      UnquoteEscape(s[1..]);
      UnquoteChar(s[0], Escape(s[1..]) + "\"");
      assert Escape(s) + "\"" == EscapeChar(s[0]) + (Escape(s[1..]) + "\"");
      assert [s[0]] + s[1..] == s;
    }
  }

  // ----- integers -----

  predicate IsDigit(c: char) { '0' <= c <= '9' }

  function DigitChar(n: nat): char
    requires n < 10
  {
    "0123456789"[n]
  }

  function NatText(n: nat): (t: string)
    ensures t != "" && forall k | 0 <= k < |t| :: IsDigit(t[k])
  {
    if n < 10 then [DigitChar(n)] else NatText(n / 10) + [DigitChar(n % 10)]
  }

  function IntText(i: int): string { if i < 0 then "-" + NatText(-i) else NatText(i) }

  /** Decimal digits with single underscores between them. */
  function ParseNat(t: string): Option<nat> {
    if t == "" || !IsDigit(t[|t| - 1]) then None
    else
      var d := t[|t| - 1] as int - '0' as int;
      if |t| == 1 then Some(d)
      else
        var front := if t[|t| - 2] == '_' then t[..|t| - 2] else t[..|t| - 1];
        match ParseNat(front) case None => None case Some(m) => Some(10 * m + d)
  }

  function ParseInt(t: string): Option<int> {
    if t == "" then None
    else
      match ParseNat(if t[0] == '-' || t[0] == '+' then t[1..] else t)
      case None => None
      case Some(n) =>
        var sign: int := if t[0] == '-' then -1 else 1;
        Some(sign * n)
  }

  lemma {:induction false} ParseNatText(n: nat)
    ensures ParseNat(NatText(n)) == Some(n)
  {
    if n < 10 {
    } else {
      ParseNatText(n / 10);
      var t := NatText(n);
      assert t[..|t| - 1] == NatText(n / 10);
      assert t[|t| - 2] == NatText(n / 10)[|t| - 2];
    }
  }

  lemma ParseSigned(t: string, i: int)
    requires t != "" && IsDigit(t[0]) && ParseNat(t) == Some(if i < 0 then -i else i)
    ensures ParseInt(if i < 0 then "-" + t else t) == Some(i)
  {
    assert ("-" + t)[1..] == t;
  }

  lemma ParseIntText(i: int)
    ensures ParseInt(IntText(i)) == Some(i)
  {
    var n := if i < 0 then -i else i;
    ParseNatText(n);
    ParseSigned(NatText(n), i);
  }
}
