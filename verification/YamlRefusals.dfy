/** What the loader makes of text that the printer does not write: other spellings of scalars, and errors. */
module YamlRefusals {
  import opened ActionTypes
  import opened YamlText
  import opened Yaml
  import opened YamlRoundTrip

  // ----- lines -----

  /** A tab anywhere in a line is an error. */
  lemma TabIsRefused(s: Stack, raw: string)
    ensures Step(s, raw) == Err(Tabs) <==> '\t' in raw
  {
  }

  /** A key that the mapping it belongs to has already is an error. */
  lemma DuplicateIsRefused(s: Stack, indent: nat, key: string, tail: string, k: nat)
    requires PlainKey(key) && Tail(tail)
    requires k < |Top(Settle(s, indent)).entries| && Top(Settle(s, indent)).entries[k].key == key
    ensures Step(s, Spaces(indent) + key + ":" + tail) == Err(DuplicateKey)
  {
    StepIsPlace(s, indent, key, tail);
    PlaceOnLine(s, indent, key, tail);
  }

  /** A line with a plain key is placed by its key and what follows the colon. */
  lemma StepIsPlace(s: Stack, indent: nat, key: string, tail: string)
    requires PlainKey(key) && Tail(tail)
    ensures Step(s, Spaces(indent) + key + ":" + tail) == Place(s, indent, key + ":" + tail)
  {
    UncommentedLine(indent, key, tail);
    LineParts(indent, key, tail);
  }

  /** A bad scalar behind a new key is the error of that scalar. */
  lemma BadScalarIsRefused(s: Stack, indent: nat, key: string, tail: string)
    requires PlainKey(key) && Tail(tail) && ParseScalar(tail).Err?
    requires forall k | 0 <= k < |Top(Settle(s, indent)).entries| :: Top(Settle(s, indent)).entries[k].key != key
    ensures Step(s, Spaces(indent) + key + ":" + tail) == Err(ParseScalar(tail).error)
  {
    StepIsPlace(s, indent, key, tail);
    PlaceOnLine(s, indent, key, tail);
  }

  /** An indented line without comment. */
  lemma IndentedLine(indent: nat, body: string)
    requires Solid(body) && body[0] != ' '
    ensures var raw := Spaces(indent) + body;
            '\t' !in raw && StripComment(raw) == raw && LStripBlanks(raw) == body && Strip(raw) != ""
  {
    SolidLine(Spaces(indent), body);
    LStripBlanksSpaces(indent, body);
    StripKeepsSome(Spaces(indent) + body, indent);
  }

  /** A line that begins with a dash is a sequence, and an error. */
  lemma SequenceIsRefused(s: Stack, indent: nat, body: string)
    requires Solid(body) && body[0] == '-'
    ensures Step(s, Spaces(indent) + body) == Err(Sequences)
  {
    IndentedLine(indent, body);
  }

  /** Any other line without a colon is an error. */
  lemma NoColonIsRefused(s: Stack, indent: nat, body: string)
    requires Solid(body) && body[0] != '-' && ':' !in body
    ensures Step(s, Spaces(indent) + body) == Err(NoColon)
  {
    IndentedLine(indent, body);
  }

  /** A line that begins with its colon has no key, and is an error. */
  lemma NoKeyIsRefused(s: Stack, indent: nat, body: string)
    requires Solid(body) && body[0] == ':'
    ensures Step(s, Spaces(indent) + body) == Err(InvalidMapping)
  {
    IndentedLine(indent, body);
    assert ColonAt(body) == Some(0);
  }

  lemma {:induction false} StripOfSpaces(t: string)
    requires forall i | 0 <= i < |t| :: IsSpace(t[i])
    ensures RStrip(t) == "" && LStrip(t) == ""
  {
    if t == "" {
    } else {
      StripOfSpaces(t[..|t| - 1]);
      StripOfSpaces(t[1..]);
    }
  }

  /** Blank lines and comments change nothing. */
  lemma CommentIsSkipped(s: Stack, indent: nat, comment: string)
    requires '\t' !in comment && (comment == "" || comment[0] == '#')
    ensures Step(s, Spaces(indent) + comment) == Ok(s)
  {
    var raw := Spaces(indent) + comment;
    UncommentedPlain(Spaces(indent), comment);
    assert Uncommented(comment, None, false) == "";
    assert Spaces(indent) + "" == Spaces(indent);
    StripOfSpaces(Spaces(indent));
    assert '\t' !in raw;
  }

  // ----- scalars -----

  /** The three words are read in any mixture of upper and lower case. */
  predicate Spells(t: string, lower: string, upper: string) {
    |t| == |lower| == |upper| && forall i | 0 <= i < |t| :: t[i] == lower[i] || t[i] == upper[i]
  }

  lemma SpelledIsLower(t: string, lower: string, upper: string)
    requires |lower| == |upper|
    requires forall i | 0 <= i < |lower| :: 'A' <= upper[i] <= 'Z' && lower[i] as int == upper[i] as int + 32
    ensures Lower(t) == lower <==> Spells(t, lower, upper)
  {
    if Spells(t, lower, upper) { assert Lower(t) == lower; }
    if Lower(t) == lower {
      forall i | 0 <= i < |t| ensures t[i] == lower[i] || t[i] == upper[i] { assert Lower(t)[i] == lower[i]; }
    }
  }

  lemma WordsInAnyCase(t: string)
    requires t != "" && !IsSpace(t[0]) && !IsSpace(t[|t| - 1])
    ensures ParseScalar(t) == Ok(Bool(true)) <==> Spells(t, "true", "TRUE")
    ensures ParseScalar(t) == Ok(Bool(false)) <==> Spells(t, "false", "FALSE")
    ensures ParseScalar(t) == Ok(Null) <==> Spells(t, "null", "NULL") || t == "~"
  {
    StripSolid(t);
    SpelledIsLower(t, "true", "TRUE");
    SpelledIsLower(t, "false", "FALSE");
    SpelledIsLower(t, "null", "NULL");
    if Lower(t) == "~" { assert Lower(t)[0] == '~'; assert t == [t[0]]; }
    if t == "~" { assert Lower(t) == "~"; }
  }

  /** Single quotes within single quotes are written twice. */
  function Doubled(s: string): string {
    if s == "" then "" else (if s[0] == '\'' then "''" else [s[0]]) + Doubled(s[1..])
  }

  lemma {:induction false} UndoubleDoubled(s: string)
    ensures Undouble(Doubled(s)) == s
  {
    if s == "" {
    } else {
      var rest := Doubled(s[1..]);
      UndoubleDoubled(s[1..]);
      assert [s[0]] + s[1..] == s;
      if s[0] == '\'' {
        assert ("''" + rest)[2..] == rest;
      } else {
        assert ([s[0]] + rest)[1..] == rest;
        if rest == "" { assert s == [s[0]]; }
      }
    }
  }

  /** Every string can be written between single quotes. */
  lemma SingleQuotedRead(s: string)
    ensures ParseScalar("'" + Doubled(s) + "'") == Ok(Str(s))
  {
    var t := "'" + Doubled(s) + "'";
    StripSolid(t);
    UndoubleDoubled(s);
    assert t[1..|t| - 1] == Doubled(s);
    QuoteIsNoWord(t);
  }

  lemma QuoteIsNoWord(t: string)
    requires t != "" && (t[0] == '\'' || t[0] == '"')
    ensures Lower(t) != "true" && Lower(t) != "false" && Lower(t) != "null" && Lower(t) != "~"
  {
    assert Lower(t)[0] == t[0];
  }

  /** A quote that is not closed at the end is an error. */
  lemma UnclosedIsRefused(t: string)
    requires t != "" && (t[0] == '\'' || t[0] == '"') && !IsSpace(t[|t| - 1]) && (|t| == 1 || t[|t| - 1] != t[0])
    ensures ParseScalar(t) == Err(Unterminated)
  {
    StripSolid(t);
    QuoteIsNoWord(t);
  }

  const LOWER_HEX := "0123456789abcdef"
  const UPPER_HEX := "0123456789ABCDEF"

  lemma HexExactly(c: char, n: nat)
    requires n < 16
    ensures HexValue(c) == n <==> c == LOWER_HEX[n] || c == UPPER_HEX[n]
  {
  }

  /** The character an escape with four hexadecimal digits stands for. */
  function CodeOf(a: nat, b: nat, c: nat, d: nat): nat { ((a * 16 + b) * 16 + c) * 16 + d }

  /** Hexadecimal escapes are read in either case; one with another character in it, or a surrogate, is an error. */
  lemma HexEscapeRead(a: char, b: char, c: char, d: char, rest: string)
    ensures var n := CodeOf(HexValue(a), HexValue(b), HexValue(c), HexValue(d));
            var hex := HexValue(a) < 16 && HexValue(b) < 16 && HexValue(c) < 16 && HexValue(d) < 16;
            Unquote(['\\', 'u', a, b, c, d] + rest) ==
            if hex && (n < 0xd800 || 0xe000 <= n) then Cons(n as char, Unquote(rest)) else None
  {
    var t := ['\\', 'u', a, b, c, d] + rest;
    assert t[6..] == rest && t[2] == a && t[3] == b && t[4] == c && t[5] == d;
  }

  /** Integers are printed without leading zeros, and with a sign exactly when negative. */
  lemma {:induction false} NatTextCanonical(n: nat)
    ensures NatText(n)[0] == '0' ==> n == 0 && NatText(n) == "0"
    decreases n
  {
    if n < 10 {
    } else {
      NatTextCanonical(n / 10);
      assert NatText(n)[0] == NatText(n / 10)[0];
    }
  }

  lemma IntTextCanonical(i: int)
    ensures IntText(i)[0] == '-' <==> i < 0
    ensures IntText(i)[if i < 0 then 1 else 0] == '0' ==> i == 0 && IntText(i) == "0"
  {
    NatTextCanonical(if i < 0 then -i else i);
  }

  // ----- characters -----

  /** The white space and line breaks of Unicode that the loader's string functions know. */
  const WHITE := [9, 10, 11, 12, 13, 28, 29, 30, 31, 32, 133, 160, 5760, 8192, 8193, 8194, 8195, 8196, 8197, 8198, 8199,
                  8200, 8201, 8202, 8232, 8233, 8239, 8287, 12288]

  const BREAKS := [10, 11, 12, 13, 28, 29, 30, 133, 8232, 8233]

  lemma SpacesAre(c: char)
    ensures IsSpace(c) <==> c as int in WHITE
  {
  }

  lemma BreaksAre(c: char)
    ensures IsBreak(c) <==> c as int in BREAKS
  {
  }
}
