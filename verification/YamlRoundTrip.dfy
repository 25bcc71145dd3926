/** Loading what was dumped gives back the same mapping. */
module YamlRoundTrip {
  import opened ActionTypes
  import opened YamlText
  import opened Yaml

  // ----- what can be dumped -----

  /** Keys that need no quoting: no break, tab, colon, hash or quote, no outer spaces, no leading dash. */
  predicate PlainKey(k: string) {
    && k != "" && !IsSpace(k[0]) && !IsSpace(k[|k| - 1]) && k[0] != '-'
    && forall i | 0 <= i < |k| :: PlainChar(k[i])
  }

  predicate PlainChar(c: char) {
    !IsBreak(c) && c != '\t' && c != ':' && c != '#' && c != '\'' && c != '"'
  }

  /** Of the characters that break lines, only these three are dumped as they are. */
  predicate SplitsLine(c: char) { var n := c as int; n == 0x85 || n == 0x2028 || n == 0x2029 }

  predicate CleanValue(v: Value) {
    match v
    case Str(s) => forall i | 0 <= i < |s| :: !SplitsLine(s[i])
    case Map(entries) => CleanMap(entries)
    case _ => true
  }

  predicate CleanMap(entries: seq<Entry>) {
    && (forall i | 0 <= i < |entries| :: PlainKey(entries[i].key) && CleanValue(entries[i].value))
    && (forall i, j | 0 <= i < j < |entries| :: entries[i].key != entries[j].key)
  }

  /** The lines of a dump, without the blank ones. */
  function Flat(entries: seq<Entry>, indent: nat): seq<string> {
    if entries == [] then []
    else
      var e := entries[0];
      var head := Spaces(indent) + e.key + ":";
      (match e.value
       case Map(inner) => [head] + Flat(inner, indent + 2)
       case _ => [head + " " + ScalarText(e.value)])
      + Flat(entries[1..], indent)
  }

  // ----- scalars -----

  /** Text that stands on its own after a key: no tab, no break, no outer spaces, and no comment to strip. */
  ghost predicate Solid(t: string) {
    && t != "" && !IsSpace(t[0]) && !IsSpace(t[|t| - 1])
    && (forall i | 0 <= i < |t| :: t[i] != '\t' && !IsBreak(t[i]))
    && Uncommented(t, None, false) == t
  }

  lemma PlainFirst(c: char, t: string)
    requires c != '#' && c != '\'' && c != '"'
    ensures Uncommented([c] + t, None, false) == [c] + Uncommented(t, None, false)
  {
    assert ([c] + t)[1..] == t;
  }

  lemma {:induction false} UncommentedPlain(p: string, rest: string)
    requires forall i | 0 <= i < |p| :: p[i] != '#' && p[i] != '\'' && p[i] != '"'
    ensures Uncommented(p + rest, None, false) == p + Uncommented(rest, None, false)
  {
    if p == "" {
      assert p + rest == rest;
    } else {
      UncommentedPlain(p[1..], rest);
      PlainFirst(p[0], p[1..] + rest);
      assert p == [p[0]] + p[1..] && p + rest == [p[0]] + (p[1..] + rest);
      assert [p[0]] + (p[1..] + Uncommented(rest, None, false)) == p + Uncommented(rest, None, false);
    }
  }

  lemma UncommentedEscapedChar(c: char, rest: string)
    ensures Uncommented(EscapeChar(c) + rest, Some('"'), false) == EscapeChar(c) + Uncommented(rest, Some('"'), false)
  {
    var e := EscapeChar(c);
    var t := e + rest;
    var q := Some('"');
    assert t[0] == e[0];
    if |e| == 1 {
      assert t[1..] == rest;
    } else if |e| == 2 {
      assert t[1..][0] == e[1] && t[1..][1..] == rest;
      assert Uncommented(t[1..], q, true) == [e[1]] + Uncommented(rest, q, false);
    } else {
      assert t[1..] == [e[1]] + ([e[2]] + ([e[3]] + ([e[4]] + ([e[5]] + rest))));
      UncommentedOne(e[5], rest);
      UncommentedOne(e[4], [e[5]] + rest);
      UncommentedOne(e[3], [e[4]] + ([e[5]] + rest));
      UncommentedOne(e[2], [e[3]] + ([e[4]] + ([e[5]] + rest)));
      assert t[1..][1..] == [e[2]] + ([e[3]] + ([e[4]] + ([e[5]] + rest)));
      assert Uncommented(t[1..], q, true) == [e[1]] + Uncommented(t[1..][1..], q, false);
    }
  }

  lemma UncommentedOne(c: char, rest: string)
    requires c != '"' && c != '\\'
    ensures Uncommented([c] + rest, Some('"'), false) == [c] + Uncommented(rest, Some('"'), false)
  {
    assert ([c] + rest)[1..] == rest;
  }

  lemma {:induction false} UncommentedEscaped(s: string, rest: string)
    ensures Uncommented(Escape(s) + rest, Some('"'), false) == Escape(s) + Uncommented(rest, Some('"'), false)
  {
    if s == "" {
      assert Escape(s) + rest == rest;
    } else {
      UncommentedEscaped(s[1..], rest);
      UncommentedEscapedChar(s[0], Escape(s[1..]) + rest);
      assert Escape(s) + rest == EscapeChar(s[0]) + (Escape(s[1..]) + rest);
    }
  }

  lemma {:induction false} EscapeHasNoBreak(s: string)
    requires forall i | 0 <= i < |s| :: !SplitsLine(s[i])
    ensures forall i | 0 <= i < |Escape(s)| :: Escape(s)[i] != '\t' && !IsBreak(Escape(s)[i])
  {
    if s == "" {
    } else {
      EscapeHasNoBreak(s[1..]);
      assert forall i | 0 <= i < |EscapeChar(s[0])| :: EscapeChar(s[0])[i] != '\t' && !IsBreak(EscapeChar(s[0])[i]);
    }
  }

  lemma QuotedEnds(s: string)
    ensures var t := Quoted(s); |t| >= 2 && t[0] == '"' && t[|t| - 1] == '"' && t[1..] == Escape(s) + "\""
  {
  }

  lemma QuotedHasNoBreak(s: string)
    requires forall i | 0 <= i < |s| :: !SplitsLine(s[i])
    ensures forall i | 0 <= i < |Quoted(s)| :: Quoted(s)[i] != '\t' && !IsBreak(Quoted(s)[i])
  {
    EscapeHasNoBreak(s);
    var (e, t) := (Escape(s), Quoted(s));
    forall i | 0 <= i < |t| ensures t[i] == '"' || (0 < i <= |e| && t[i] == e[i - 1]) {}
  }

  lemma UncommentedQuote()
    ensures Uncommented("\"", Some('"'), false) == "\""
  {
    assert "\""[1..] == "";
  }

  lemma UncommentedQuoted(s: string)
    ensures Uncommented(Quoted(s), None, false) == Quoted(s)
  {
    QuotedEnds(s);
    UncommentedEscaped(s, "\"");
    UncommentedQuote();
    var rest := Escape(s) + "\"";
    assert Quoted(s) == ['"'] + rest;
  }

  lemma QuotedIsSolid(s: string)
    requires forall i | 0 <= i < |s| :: !SplitsLine(s[i])
    ensures Solid(Quoted(s))
  {
    QuotedEnds(s);
    QuotedHasNoBreak(s);
    UncommentedQuoted(s);
  }

  lemma PlainIsSolid(t: string)
    requires t != "" && forall i | 0 <= i < |t| :: PlainChar(t[i]) && !IsSpace(t[i])
    ensures Solid(t)
  {
    assert t == t + "";
    UncommentedPlain(t, "");
    assert t + Uncommented("", None, false) == t;
  }

  lemma IntTextIsSolid(i: int)
    ensures Solid(IntText(i))
  {
    var t := IntText(i);
    forall k | 0 <= k < |t| ensures t[k] == '-' || IsDigit(t[k]) {
      if i < 0 && k > 0 { assert t[k] == NatText(-i)[k - 1]; }
    }
    PlainIsSolid(t);
  }

  lemma ScalarIsSolid(v: Value)
    requires !v.Map? && CleanValue(v)
    ensures Solid(ScalarText(v))
  {
    match v
    case Str(s) => QuotedIsSolid(s);
    case Int(i) => IntTextIsSolid(i);
    case Bool(b) => PlainIsSolid(ScalarText(v));
    case Null => PlainIsSolid("null");
  }

  lemma StripSolid(t: string)
    requires t != "" && !IsSpace(t[0]) && !IsSpace(t[|t| - 1])
    ensures Strip(t) == t && Strip(" " + t) == t
  {
    assert (" " + t)[1..] == t;
    assert LStrip(" " + t) == LStrip(t);
  }

  lemma WordRoundTrip(v: Value)
    requires v.Bool? || v.Null?
    ensures ParseScalar(" " + ScalarText(v)) == Ok(v)
  {
    var t := ScalarText(v);
    ScalarIsSolid(v);
    StripSolid(t);
    assert Lower(t) == t;
  }

  lemma NoWord(t: string)
    requires t != "" && (t[0] == '-' || t[0] == '"' || IsDigit(t[0]))
    ensures Lower(t) != "true" && Lower(t) != "false" && Lower(t) != "null" && Lower(t) != "~"
  {
    assert Lower(t)[0] == t[0];
  }

  lemma IntRoundTrip(i: int)
    ensures ParseScalar(" " + IntText(i)) == Ok(Int(i))
  {
    var t := IntText(i);
    IntTextIsSolid(i);
    StripSolid(t);
    ParseIntText(i);
    NoWord(t);
  }

  lemma StrRoundTrip(s: string)
    requires forall i | 0 <= i < |s| :: !SplitsLine(s[i])
    ensures ParseScalar(" " + Quoted(s)) == Ok(Str(s))
  {
    var t := Quoted(s);
    StripSolid(t);
    UnquoteEscape(s);
    assert t[1..] == Escape(s) + "\"";
    assert t[|t| - 1] == '"';
    NoWord(t);
  }

  /** A scalar that was dumped is read back as itself. */
  lemma ScalarRoundTrip(v: Value)
    requires !v.Map? && CleanValue(v)
    ensures ParseScalar(" " + ScalarText(v)) == Ok(v)
  {
    match v
    case Str(s) => StrRoundTrip(s);
    case Int(i) => IntRoundTrip(i);
    case _ => WordRoundTrip(v);
  }

  // ----- lines -----

  lemma {:induction false} LStripBlanksSpaces(n: nat, t: string)
    requires t != "" && t[0] != ' '
    ensures LStripBlanks(Spaces(n) + t) == t
  {
    if n == 0 {
      assert Spaces(n) + t == t;
    } else {
      LStripBlanksSpaces(n - 1, t);
      assert (Spaces(n) + t)[1..] == Spaces(n - 1) + t;
    }
  }

  /** What follows a key: nothing, or a blank and a scalar. */
  ghost predicate Tail(t: string) { t == "" || (|t| >= 2 && t[0] == ' ' && Solid(t[1..])) }

  lemma PlainFront(indent: nat, key: string)
    requires PlainKey(key)
    ensures var f := Spaces(indent) + key + ":";
            && (forall i | 0 <= i < |f| :: f[i] != '#' && f[i] != '\'' && f[i] != '"' && f[i] != '\t')
            && f[|f| - 1] == ':'
  {
  }

  lemma NoTabBoth(p: string, end: string)
    requires '\t' !in p && '\t' !in end
    ensures '\t' !in p + end
  {
  }

  lemma RStripSolid(t: string)
    requires t != "" && !IsSpace(t[|t| - 1])
    ensures RStrip(t) == t
  {
  }

  /** Text in front of a solid end has no comment, no tab and nothing to strip. */
  lemma SolidLine(p: string, end: string)
    requires Solid(end) && forall i | 0 <= i < |p| :: p[i] != '#' && p[i] != '\'' && p[i] != '"' && p[i] != '\t'
    ensures StripComment(p + end) == p + end && '\t' !in p + end
  {
    UncommentedPlain(p, end);
    NoTabBoth(p, end);
    assert (p + end)[|p + end| - 1] == end[|end| - 1];
    RStripSolid(p + end);
  }

  lemma UncommentedLine(indent: nat, key: string, tail: string)
    requires PlainKey(key) && Tail(tail)
    ensures var line := Spaces(indent) + key + ":" + tail; StripComment(line) == line && '\t' !in line
  {
    var front := Spaces(indent) + key + ":";
    PlainFront(indent, key);
    if tail == "" {
      assert front + tail == front && front + "" == front;
      UncommentedPlain(front, "");
    } else {
      assert front + tail == (front + " ") + tail[1..];
      SolidLine(front + " ", tail[1..]);
    }
  }

  /** How a line with a plain key is taken apart, whatever follows the colon. */
  lemma LineParts(indent: nat, key: string, tail: string)
    requires PlainKey(key)
    ensures var line := Spaces(indent) + key + ":" + tail;
            var body := key + ":" + tail;
            LStripBlanks(line) == body && |line| - |body| == indent && Strip(line) != ""
  {
    var line := Spaces(indent) + key + ":" + tail;
    var body := key + ":" + tail;
    assert line == Spaces(indent) + body;
    LStripBlanksSpaces(indent, body);
    StripKeepsSome(line, indent);
  }

  lemma BodyParts(key: string, tail: string)
    requires PlainKey(key)
    ensures var body := key + ":" + tail;
            && body != "" && body[0] != '-' && ColonAt(body) == Some(|key|)
            && body[..|key|] == key && body[|key| + 1..] == tail && Strip(key) == key
  {
    var body := key + ":" + tail;
    StripSolid(key);
    assert body[|key|] == ':' && forall k | 0 <= k < |key| :: body[k] == key[k];
  }

  lemma {:induction false} StripKeepsSome(t: string, k: nat)
    requires k < |t| && !IsSpace(t[k])
    ensures Strip(t) != ""
    decreases |t|
  {
    LStripKeepsSome(t, k);
    var u := LStrip(t);
    RStripKeepsSome(u, 0);
  }

  lemma {:induction false} LStripKeepsSome(t: string, k: nat)
    requires k < |t| && !IsSpace(t[k])
    ensures LStrip(t) != "" && !IsSpace(LStrip(t)[0])
  {
    if IsSpace(t[0]) { LStripKeepsSome(t[1..], k - 1); }
  }

  lemma {:induction false} RStripKeepsSome(t: string, k: nat)
    requires k < |t| && !IsSpace(t[k])
    ensures RStrip(t) != ""
  {
    if IsSpace(t[|t| - 1]) { RStripKeepsSome(t[..|t| - 1], k); }
  }

  lemma PlaceOnLine(s: Stack, indent: nat, key: string, tail: string)
    requires PlainKey(key)
    ensures Place(s, indent, key + ":" + tail) ==
            if HasKey(Top(Settle(s, indent)).entries, key) then Err(DuplicateKey)
            else
              match ParseScalar(tail)
              case Err(e) => Err(e)
              case Ok(v) => Ok(Enter(Settle(s, indent), indent, key, v))
  {
    BodyParts(key, tail);
  }

  lemma StepOnLine(s: Stack, indent: nat, key: string, tail: string, v: Value)
    requires PlainKey(key) && Tail(tail) && ParseScalar(tail) == Ok(v) && !HasKey(Top(Settle(s, indent)).entries, key)
    ensures Step(s, Spaces(indent) + key + ":" + tail) == Ok(Enter(Settle(s, indent), indent, key, v))
  {
    UncommentedLine(indent, key, tail);
    LineParts(indent, key, tail);
    PlaceOnLine(s, indent, key, tail);
  }

  // ----- the loader on flat lines -----

  /** The stack after a mapping's entries have been read at some indentation. */
  function Added(s: Stack, entries: seq<Entry>): Stack { s[|s| - 1 := Top(s).(entries := Top(s).entries + entries)] }

  /** Closing down to a deeper level first makes no difference. */
  lemma {:induction false} SettleTwice(s: Stack, deep: nat, indent: nat)
    requires indent <= deep
    ensures Settle(Settle(s, deep), indent) == Settle(s, indent)
    decreases |s|
  {
    if |s| > 1 && deep <= Top(s).indent { SettleTwice(Close(s), deep, indent); }
  }

  lemma {:induction false} SettleOpen(s: Stack, indent: nat)
    ensures var r := Settle(s, indent); |r| == 1 || Top(r).indent < indent
    decreases |s|
  {
    if |s| > 1 && indent <= Top(s).indent { SettleOpen(Close(s), indent); }
  }

  lemma {:induction false} RunBoth(s: Stack, a: seq<string>, b: seq<string>)
    requires Run(s, a).Ok?
    ensures Run(s, a + b) == Run(Run(s, a).value, b)
    decreases |a|
  {
    if a == [] {
      assert a + b == b;
    } else {
      assert (a + b)[1..] == a[1..] + b;
      RunBoth(Step(s, a[0]).value, a[1..], b);
    }
  }

  lemma RunOne(s: Stack, line: string)
    ensures Run(s, [line]) == Step(s, line)
  {
    assert [line][1..] == [];
  }

  ghost predicate Disjoint(s: Stack, entries: seq<Entry>) {
    forall i | 0 <= i < |entries| :: !HasKey(Top(s).entries, entries[i].key)
  }

  /** Reading `lines` adds exactly `entries` to the mapping that is open at an indentation. */
  ghost predicate Reads(s: Stack, lines: seq<string>, indent: nat, entries: seq<Entry>) {
    && Run(s, lines).Ok?
    && Settle(Run(s, lines).value, indent) == Added(Settle(s, indent), entries)
  }

  lemma ReadsBoth(s: Stack, a: seq<string>, b: seq<string>, indent: nat, e: Entry, rest: seq<Entry>)
    requires Reads(s, a, indent, [e]) && Reads(Run(s, a).value, b, indent, rest)
    ensures Reads(s, a + b, indent, [e] + rest)
  {
    RunBoth(s, a, b);
    AddedTwice(Settle(s, indent), e, rest);
  }

  lemma AddedTwice(base: Stack, e: Entry, rest: seq<Entry>)
    ensures Added(Added(base, [e]), rest) == Added(base, [e] + rest)
  {
    assert (Top(base).entries + [e]) + rest == Top(base).entries + ([e] + rest);
  }

  lemma {:induction false} ReadsFlat(s: Stack, entries: seq<Entry>, indent: nat)
    requires CleanMap(entries) && Disjoint(Settle(s, indent), entries)
    ensures Reads(s, Flat(entries, indent), indent, entries)
    decreases entries
  {
    if entries == [] {
      ReadsNothing(s, indent);
    } else {
      var e := entries[0];
      var rest := entries[1..];
      ReadsEntry(s, e, indent);
      DisjointRest(Settle(s, indent), entries);
      var s1 := Run(s, Flat([e], indent)).value;
      assert CleanMap(rest);
      ReadsFlat(s1, rest, indent);
      FlatCons(entries, indent);
      ReadsBoth(s, Flat([e], indent), Flat(rest, indent), indent, e, rest);
      assert [e] + rest == entries;
    }
  }

  lemma ReadsNothing(s: Stack, indent: nat)
    ensures Reads(s, [], indent, [])
  {
    assert Top(Settle(s, indent)).entries + [] == Top(Settle(s, indent)).entries;
  }

  lemma FlatCons(entries: seq<Entry>, indent: nat)
    requires entries != []
    ensures Flat(entries, indent) == Flat([entries[0]], indent) + Flat(entries[1..], indent)
  {
    assert [entries[0]][1..] == [];
  }

  lemma DisjointRest(base: Stack, entries: seq<Entry>)
    requires CleanMap(entries) && Disjoint(base, entries) && entries != []
    ensures Disjoint(Added(base, [entries[0]]), entries[1..])
  {
    forall i | 0 <= i < |entries[1..]| ensures !HasKey(Top(base).entries + [entries[0]], entries[1..][i].key) {
      assert entries[1..][i] == entries[i + 1];
    }
  }

  lemma FlatOne(e: Entry, indent: nat)
    ensures var head := Spaces(indent) + e.key + ":";
            Flat([e], indent) == match e.value
                                 case Map(inner) => [head] + Flat(inner, indent + 2)
                                 case _ => [head + (" " + ScalarText(e.value))]
  {
    var head := Spaces(indent) + e.key + ":";
    assert [e][1..] == [];
    if !e.value.Map? { assert head + (" " + ScalarText(e.value)) == head + " " + ScalarText(e.value); }
  }

  lemma {:induction false} ReadsEntry(s: Stack, e: Entry, indent: nat)
    requires PlainKey(e.key) && CleanValue(e.value) && !HasKey(Top(Settle(s, indent)).entries, e.key)
    ensures Reads(s, Flat([e], indent), indent, [e])
    decreases e
  {
    FlatOne(e, indent);
    match e.value {
      case Map(inner) =>
        var inside := Settle(s, indent) + [Frame(indent, e.key, [])];
        assert Settle(inside, indent + 2) == inside;
        assert Disjoint(inside, inner);
        ReadsFlat(inside, inner, indent + 2);
        ReadsMap(s, e.key, inner, indent, Flat(inner, indent + 2));
      case _ => ReadsScalar(s, e, indent);
    }
  }

  lemma ReadsScalar(s: Stack, e: Entry, indent: nat)
    requires PlainKey(e.key) && CleanValue(e.value) && !e.value.Map? && !HasKey(Top(Settle(s, indent)).entries, e.key)
    ensures Reads(s, [Spaces(indent) + e.key + ":" + (" " + ScalarText(e.value))], indent, [e])
  {
    var tail := " " + ScalarText(e.value);
    ScalarIsSolid(e.value);
    ScalarRoundTrip(e.value);
    assert tail[1..] == ScalarText(e.value);
    StepOnLine(s, indent, e.key, tail, e.value);
    RunOne(s, Spaces(indent) + e.key + ":" + tail);
    SettleOpen(s, indent);
  }

  lemma ReadsMap(s: Stack, key: string, inner: seq<Entry>, indent: nat, lines: seq<string>)
    requires PlainKey(key) && !HasKey(Top(Settle(s, indent)).entries, key)
    requires Reads(Settle(s, indent) + [Frame(indent, key, [])], lines, indent + 2, inner)
    ensures Reads(s, [Spaces(indent) + key + ":"] + lines, indent, [Entry(key, Map(inner))])
  {
    var base := Settle(s, indent);
    var inside := base + [Frame(indent, key, [])];
    var head := Spaces(indent) + key + ":";
    assert head + "" == head;
    StepOnLine(s, indent, key, "", Map([]));
    RunOne(s, head);
    RunBoth(s, [head], lines);
    var s2 := Run(inside, lines).value;
    assert Settle(s2, indent + 2) == base + [Frame(indent, key, inner)] by {
      assert Settle(inside, indent + 2) == inside;
      assert [] + inner == inner;
    }
    SettleTwice(s2, indent + 2, indent);
    SettleOpen(s, indent);
    ClosedAgain(base, Frame(indent, key, inner), indent);
  }

  lemma ClosedAgain(base: Stack, child: Frame, indent: nat)
    requires child.indent == indent && (|base| == 1 || Top(base).indent < indent)
    ensures Settle(base + [child], indent) == Added(base, [Entry(child.key, Map(child.entries))])
  {
    var s := base + [child];
    assert s[..|s| - 2] == base[..|base| - 1];
    assert Close(s) == Added(base, [Entry(child.key, Map(child.entries))]);
  }
}
