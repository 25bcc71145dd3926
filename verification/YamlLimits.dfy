/** Exactly which strings survive a dump and a load: those without the three breaks that are dumped as they are. */
module YamlLimits {
  import opened ActionTypes
  import opened YamlText
  import opened Yaml
  import opened YamlRoundTrip
  import opened YamlLines

  predicate WellKeyedValue(v: Value) { v.Map? ==> WellKeyed(v.entries) }

  /** Plain and distinct keys at every depth. */
  predicate WellKeyed(entries: seq<Entry>) {
    && (forall i | 0 <= i < |entries| :: PlainKey(entries[i].key) && WellKeyedValue(entries[i].value))
    && (forall i, j | 0 <= i < j < |entries| :: entries[i].key != entries[j].key)
  }

  predicate SplitlessValue(v: Value) {
    match v
    case Str(s) => forall i | 0 <= i < |s| :: !SplitsLine(s[i])
    case Map(entries) => Splitless(entries)
    case _ => true
  }

  /** No string at any depth holds U+0085, U+2028 or U+2029. */
  predicate Splitless(entries: seq<Entry>) { forall i | 0 <= i < |entries| :: SplitlessValue(entries[i].value) }

  lemma {:induction false} CleanIsBoth(entries: seq<Entry>)
    ensures CleanMap(entries) <==> WellKeyed(entries) && Splitless(entries)
    decreases entries
  {
    forall i | 0 <= i < |entries|
      ensures CleanValue(entries[i].value) <==> WellKeyedValue(entries[i].value) && SplitlessValue(entries[i].value)
    {
      var v := entries[i].value;
      if v.Map? { CleanIsBoth(v.entries); }
    }
  }

  // ----- a line no loader state accepts -----

  ghost predicate Hopeless(line: string) { forall s: Stack :: Step(s, line).Err? }

  lemma {:induction false} RunFails(s: Stack, lines: seq<string>, k: nat)
    requires k < |lines| && Hopeless(lines[k])
    ensures Run(s, lines).Err?
    decreases |lines|
  {
    if k == 0 {
      FailsFirst(s, lines);
    } else {
      assert lines[1..][k - 1] == lines[k];
      if Step(s, lines[0]).Ok? { RunFails(Step(s, lines[0]).value, lines[1..], k - 1); }
      FailsLater(s, lines);
    }
  }

  lemma FailsFirst(s: Stack, lines: seq<string>)
    requires lines != [] && Hopeless(lines[0])
    ensures Run(s, lines).Err?
  {
  }

  lemma FailsLater(s: Stack, lines: seq<string>)
    requires lines != [] && (Step(s, lines[0]).Ok? ==> Run(Step(s, lines[0]).value, lines[1..]).Err?)
    ensures Run(s, lines).Err?
  {
  }

  lemma {:induction false} UnquoteUnclosed(s: string)
    ensures Unquote(Escape(s)) == None
  {
    if s == "" {
    } else {
      UnquoteUnclosed(s[1..]);
      UnquoteChar(s[0], Escape(s[1..]));
    }
  }

  lemma {:induction false} EscapeLast(s: string)
    requires s != ""
    ensures Escape(s) == Escape(s[..|s| - 1]) + EscapeChar(s[|s| - 1])
  {
    if |s| == 1 {
      assert s[1..] == "" && s[..0] == "";
    } else {
      EscapeLast(s[1..]);
      var front := s[..|s| - 1];
      assert s[1..][..|s| - 2] == front[1..] && s[1..][|s| - 2] == s[|s| - 1];
      assert front[0] == s[0];
    }
  }

  lemma EscapeCharEnds(c: char)
    ensures var e := EscapeChar(c); e != "" && (IsSpace(e[|e| - 1]) ==> |e| == 1)
  {
  }

  /** Stripping an unfinished quoted string cannot close it. */
  lemma {:induction false} UnquoteStripped(s: string)
    ensures Unquote(RStrip(Escape(s))) == None
    decreases |s|
  {
    if s == "" {
    } else {
      var front, e, t := Escape(s[..|s| - 1]), EscapeChar(s[|s| - 1]), Escape(s);
      EscapeLast(s);
      EscapeCharEnds(s[|s| - 1]);
      assert t == front + e && t[|t| - 1] == e[|e| - 1];
      if IsSpace(t[|t| - 1]) {
        assert t[..|t| - 1] == front;
        UnquoteStripped(s[..|s| - 1]);
      } else {
        UnquoteUnclosed(s);
      }
    }
  }

  lemma {:induction false} RStripBehind(f: string, y: string)
    requires f != "" && !IsSpace(f[|f| - 1])
    ensures RStrip(f + y) == f + RStrip(y)
    decreases |y|
  {
    if y == "" {
      assert f + y == f;
    } else {
      assert (f + y)[..|f + y| - 1] == f + y[..|y| - 1];
      if IsSpace(y[|y| - 1]) { RStripBehind(f, y[..|y| - 1]); }
    }
  }

  lemma {:induction false} RStripEnds(t: string)
    ensures var r := RStrip(t); r == "" || !IsSpace(r[|r| - 1])
  {
    if t != "" && IsSpace(t[|t| - 1]) { RStripEnds(t[..|t| - 1]); }
  }

  /** An unfinished quoted scalar is an error. */
  lemma UnfinishedScalar(s: string)
    ensures ParseScalar(" \"" + RStrip(Escape(s))).Err?
  {
    var x := RStrip(Escape(s));
    var v := "\"" + x;
    RStripEnds(Escape(s));
    assert v[|v| - 1] == (if x == "" then '"' else x[|x| - 1]);
    StripSolid(v);
    assert " \"" + x == " " + v;
    assert Lower(v)[0] == '"';
    UnquoteStripped(s);
    assert v[1..] == x;
  }

  function Piece(indent: nat, key: string, s: string): string { Spaces(indent) + key + ": \"" + Escape(s) }

  lemma UncommentedUnfinished(s: string)
    ensures Uncommented("\"" + Escape(s), None, false) == "\"" + Escape(s)
  {
    UncommentedEscaped(s, "");
    assert Escape(s) + "" == Escape(s);
    assert ("\"" + Escape(s))[1..] == Escape(s);
  }

  lemma UncommentedPiece(indent: nat, key: string, s: string)
    requires PlainKey(key)
    ensures Uncommented(Piece(indent, key, s), None, false) == Piece(indent, key, s)
  {
    var p := Spaces(indent) + key + ": ";
    PieceIs(indent, key, s);
    UncommentedPlain(p, "\"" + Escape(s));
    UncommentedUnfinished(s);
  }

  lemma PieceIs(indent: nat, key: string, s: string)
    ensures Piece(indent, key, s) == (Spaces(indent) + key + ": ") + ("\"" + Escape(s))
  {
  }

  lemma PieceHasNoTab(indent: nat, key: string, s: string)
    requires PlainKey(key) && forall i | 0 <= i < |s| :: !SplitsLine(s[i])
    ensures '\t' !in Piece(indent, key, s)
  {
    var f := Spaces(indent) + key + ": \"";
    var t := Piece(indent, key, s);
    EscapeHasNoBreak(s);
    forall i | 0 <= i < |t| ensures t[i] != '\t' {
      if i >= |f| { assert t[i] == Escape(s)[i - |f|]; }
    }
  }

  lemma PieceUncommented(indent: nat, key: string, s: string)
    requires PlainKey(key)
    ensures StripComment(Piece(indent, key, s)) == Spaces(indent) + key + ":" + (" \"" + RStrip(Escape(s)))
  {
    UncommentedPiece(indent, key, s);
    var f := Spaces(indent) + key + ": \"";
    RStripBehind(f, Escape(s));
    ColonThenQuote(Spaces(indent) + key, RStrip(Escape(s)));
  }

  lemma ColonThenQuote(k: string, x: string)
    ensures k + ": \"" + x == k + ":" + (" \"" + x)
  {
  }

  lemma PieceIsHopeless(indent: nat, key: string, s: string)
    requires PlainKey(key) && forall i | 0 <= i < |s| :: !SplitsLine(s[i])
    ensures Hopeless(Piece(indent, key, s))
  {
    var tail := " \"" + RStrip(Escape(s));
    PieceUncommented(indent, key, s);
    PieceHasNoTab(indent, key, s);
    LineParts(indent, key, tail);
    UnfinishedScalar(s);
    forall stack: Stack ensures Step(stack, Piece(indent, key, s)).Err? { PlaceOnLine(stack, indent, key, tail); }
  }

  // ----- text that holds such a line -----

  /** `line` is a whole line of the text, and something other than space comes after it. */
  ghost predicate Within(t: string, a: string, line: string, c: char, b: string) {
    && t == a + line + [c] + b
    && (a == "" || IsBreak(a[|a| - 1])) && IsBreak(c) && line != "" && NoBreak(line)
    && Strip(b) != ""
  }

  ghost predicate Doomed(t: string) {
    exists a, line, c, b :: Within(t, a, line, c, b) && Hopeless(line)
  }

  /** Where the text goes on after its first break. */
  function AfterBreak(t: string): nat {
    var n := BreakAt(t);
    if n + 1 < |t| && t[n] == '\r' && t[n + 1] == '\n' then n + 2 else n + 1
  }

  lemma SplitHead(t: string)
    requires BreakAt(t) < |t|
    ensures AfterBreak(t) <= |t| && SplitLines(t) == [t[..BreakAt(t)]] + SplitLines(t[AfterBreak(t)..])
  {
  }

  lemma WithinFirst(t: string, line: string, c: char, b: string)
    requires Within(t, "", line, c, b)
    ensures SplitLines(t) != [] && SplitLines(t)[0] == line
  {
    assert t == line + [c] + b;
    assert t[|line|] == c && forall i | 0 <= i < |line| :: t[i] == line[i];
    assert BreakAt(t) == |line| && t[..|line|] == line;
    SplitHead(t);
  }

  lemma WithinRest(t: string, a: string, line: string, c: char, b: string)
    requires Within(t, a, line, c, b) && a != ""
    ensures BreakAt(t) < |a| && AfterBreak(t) <= |a|
    ensures Within(t[AfterBreak(t)..], a[AfterBreak(t)..], line, c, b)
  {
    var m := AfterBreak(t);
    assert t[|a| - 1] == a[|a| - 1] && t[|a|] == line[0] && !IsBreak(line[0]);
    assert m <= |a|;
    CutPrefix(a, line, c, b, m);
  }

  lemma CutPrefix(a: string, line: string, c: char, b: string, m: nat)
    requires m <= |a|
    ensures (a + line + [c] + b)[m..] == a[m..] + line + [c] + b
    ensures m < |a| ==> a[m..][|a| - m - 1] == a[|a| - 1]
  {
  }

  lemma InRest(t: string, k: nat)
    requires BreakAt(t) < |t| && AfterBreak(t) <= |t| && k < |SplitLines(t[AfterBreak(t)..])|
    ensures k + 1 < |SplitLines(t)| && SplitLines(t)[k + 1] == SplitLines(t[AfterBreak(t)..])[k]
  {
    SplitHead(t);
  }

  lemma {:induction false} WithinSplits(t: string, a: string, line: string, c: char, b: string) returns (k: nat)
    requires Within(t, a, line, c, b)
    ensures k < |SplitLines(t)| && SplitLines(t)[k] == line
    decreases |a|
  {
    if a == "" {
      WithinFirst(t, line, c, b);
      k := 0;
    } else {
      WithinRest(t, a, line, c, b);
      assert |a| < |t|;
      var m := AfterBreak(t);
      var j := WithinSplits(t[m..], a[m..], line, c, b);
      InRest(t, j);
      k := j + 1;
    }
  }

  lemma DoomedFails(t: string)
    requires Doomed(t)
    ensures Load(t).Err?
  {
    var a, line, c, b :| Within(t, a, line, c, b) && Hopeless(line);
    var k := WithinSplits(t, a, line, c, b);
    RunFails(EMPTY, SplitLines(t), k);
  }

  lemma {:induction false} SomeSolid(b: string) returns (k: nat)
    requires Strip(b) != ""
    ensures k < |b| && !IsSpace(b[k])
  {
    if !IsSpace(b[0]) {
      k := 0;
    } else {
      k := SomeSolid(b[1..]);
      k := k + 1;
    }
  }

  lemma DoomedAfter(x: string, t: string)
    requires Doomed(t)
    ensures Doomed(x + "\n" + t)
  {
    var a, line, c, b :| Within(t, a, line, c, b) && Hopeless(line);
    var a1 := x + "\n" + a;
    assert a1[|a1| - 1] == if a == "" then '\n' else a[|a| - 1];
    assert x + "\n" + t == a1 + line + [c] + b;
    assert Within(x + "\n" + t, a1, line, c, b);
  }

  lemma DoomedBefore(t: string, y: string)
    requires Doomed(t)
    ensures Doomed(t + y)
  {
    var a, line, c, b :| Within(t, a, line, c, b) && Hopeless(line);
    var k := SomeSolid(b);
    assert (b + y)[k] == b[k];
    StripKeepsSome(b + y, k);
    assert t + y == a + line + [c] + (b + y);
    assert Within(t + y, a, line, c, b + y);
  }

  /** The rest of the text keeps its end away from the line. */
  lemma {:induction false} RStripKeepsTail(f: string, b: string, k: nat)
    requires k < |b| && !IsSpace(b[k])
    ensures RStrip(f + b) == f + RStrip(b) && k < |RStrip(b)| && RStrip(b)[k] == b[k]
    decreases |b|
  {
    var t := f + b;
    assert t[|t| - 1] == b[|b| - 1];
    if IsSpace(b[|b| - 1]) {
      assert t[..|t| - 1] == f + b[..|b| - 1];
      RStripKeepsTail(f, b[..|b| - 1], k);
    }
  }

  lemma DoomedStripped(t: string)
    requires Doomed(t)
    ensures Doomed(RStrip(t))
  {
    var a, line, c, b :| Within(t, a, line, c, b) && Hopeless(line);
    var k := SomeSolid(b);
    RStripKeepsTail(a + line + [c], b, k);
    StripKeepsSome(RStrip(b), k);
    assert Within(RStrip(t), a, line, c, RStrip(b));
  }

  // ----- dumping a string with a break -----

  lemma EscapeCons(c: char, t: string)
    ensures Escape([c] + t) == EscapeChar(c) + Escape(t)
  {
    assert ([c] + t)[1..] == t;
  }

  lemma EscapeBothStep(c: char, t: string, u: string)
    requires Escape(t + u) == Escape(t) + Escape(u)
    ensures Escape([c] + (t + u)) == Escape([c] + t) + Escape(u)
  {
    EscapeCons(c, t);
    EscapeCons(c, t + u);
    Assoc(EscapeChar(c), Escape(t), Escape(u));
  }

  lemma Assoc(a: string, b: string, c: string)
    ensures (a + b) + c == a + (b + c)
  {
  }

  lemma {:induction false} EscapeBoth(s: string, u: string)
    ensures Escape(s + u) == Escape(s) + Escape(u)
  {
    if s == "" {
      assert s + u == u;
    } else {
      var c, t := s[0], s[1..];
      TakenApart(s, c, t, u);
      EscapeBoth(t, u);
      EscapeBothStep(c, t, u);
    }
  }

  lemma TakenApart(s: string, c: char, t: string, u: string)
    requires s != "" && c == s[0] && t == s[1..]
    ensures s == [c] + t && s + u == [c] + (t + u)
  {
  }

  function FirstSplit(s: string): (n: nat)
    ensures n <= |s| && (forall k | 0 <= k < n :: !SplitsLine(s[k])) && (n < |s| ==> SplitsLine(s[n]))
  {
    if s == "" || SplitsLine(s[0]) then 0 else 1 + FirstSplit(s[1..])
  }

  lemma SplitStringDooms(indent: nat, key: string, s: string)
    requires PlainKey(key) && !SplitlessValue(Str(s))
    ensures Doomed(Spaces(indent) + key + ":" + " " + Quoted(s))
  {
    var n := FirstSplit(s);
    var front, back := s[..n], s[n + 1..];
    assert n < |s| && s == front + ([s[n]] + back);
    SplitText(indent, key, front, s[n], back);
    PieceIsHopeless(indent, key, front);
    PieceNoBreak(indent, key, front);
    QuoteStays(Escape(back));
    DoomedByFirst(Piece(indent, key, front), s[n], Escape(back) + "\"");
  }

  lemma QuoteStays(t: string)
    ensures Strip(t + "\"") != ""
  {
    StripKeepsSome(t + "\"", |t|);
  }

  lemma DoomedByFirst(line: string, c: char, rest: string)
    requires Hopeless(line) && line != "" && NoBreak(line) && IsBreak(c) && Strip(rest) != ""
    ensures Doomed(line + [c] + rest)
  {
    assert "" + line == line;
    assert Within(line + [c] + rest, "", line, c, rest);
  }

  lemma QuotedSplit(front: string, c: char, back: string)
    requires SplitsLine(c)
    ensures Quoted(front + ([c] + back)) == "\"" + (Escape(front) + ([c] + Escape(back))) + "\""
  {
    EscapeBoth(front, [c] + back);
    EscapeCons(c, back);
    assert EscapeChar(c) == [c];
  }

  lemma SplitText(indent: nat, key: string, front: string, c: char, back: string)
    requires SplitsLine(c)
    ensures Spaces(indent) + key + ":" + " " + Quoted(front + ([c] + back)) ==
            Piece(indent, key, front) + [c] + (Escape(back) + "\"")
  {
    QuotedSplit(front, c, back);
    Reassociate(Spaces(indent) + key, Escape(front), c, Escape(back));
  }

  lemma Reassociate(k: string, f: string, c: char, b: string)
    ensures k + ":" + " " + ("\"" + (f + ([c] + b)) + "\"") == (k + ": \"" + f) + [c] + (b + "\"")
  {
  }

  lemma PieceNoBreak(indent: nat, key: string, s: string)
    requires PlainKey(key) && forall i | 0 <= i < |s| :: !SplitsLine(s[i])
    ensures NoBreak(Piece(indent, key, s)) && Piece(indent, key, s) != ""
  {
    EscapeHasNoBreak(s);
    var f := Spaces(indent) + key + ": \"";
    var t := Piece(indent, key, s);
    forall i | 0 <= i < |t| ensures !IsBreak(t[i]) {
      if i >= |f| { assert t[i] == Escape(s)[i - |f|]; }
    }
  }

  lemma LineItemDoomed(line: string, tail: string)
    requires Doomed(line) || Doomed(tail)
    ensures Doomed(line + "\n" + tail)
  {
    if Doomed(tail) {
      DoomedAfter(line, tail);
    } else {
      DoomedBefore(line, "\n" + tail);
      assert line + ("\n" + tail) == line + "\n" + tail;
    }
  }

  lemma {:induction false} ItemsDoomed(entries: seq<Entry>, indent: nat)
    requires WellKeyed(entries) && !Splitless(entries)
    ensures Doomed(Ended(Items(entries, indent)))
    decreases entries, 0
  {
    var e := entries[0];
    var rest := entries[1..];
    var tail := Ended(Items(rest, indent));
    if SplitlessValue(e.value) {
      if Splitless(rest) { RestSplitless(entries); }
      RestWellKeyed(entries);
      ItemsDoomed(rest, indent);
    }
    if e.value.Map? {
      if !SplitlessValue(e.value) { DumpDoomed(e.value.entries, indent + 2); }
      MapItemsDoomed(e.key, e.value.entries, Items(rest, indent), indent);
    } else {
      if !SplitlessValue(e.value) { SplitStringDooms(indent, e.key, e.value.s); }
      var line := Spaces(indent) + e.key + ":" + " " + ScalarText(e.value);
      EndedOne(line, Items(rest, indent));
      LineItemDoomed(line, tail);
    }
  }

  lemma MapItemsDoomed(key: string, inner: seq<Entry>, rest: seq<string>, indent: nat)
    requires Doomed(Dump(inner, indent + 2)) || Doomed(Ended(rest))
    ensures Doomed(Ended([Spaces(indent) + key + ":", RStrip(Dump(inner, indent + 2))] + rest))
  {
    var head := Spaces(indent) + key + ":";
    var text := Dump(inner, indent + 2);
    var body := RStrip(text);
    if Doomed(text) { DoomedStripped(text); }
    EndedTwo(head, body, rest);
    LineItemDoomed(body, Ended(rest));
    DoomedAfter(head, body + "\n" + Ended(rest));
  }

  lemma RestWellKeyed(entries: seq<Entry>)
    requires WellKeyed(entries) && entries != []
    ensures WellKeyed(entries[1..])
  {
    forall i | 0 <= i < |entries[1..]| ensures PlainKey(entries[1..][i].key) && WellKeyedValue(entries[1..][i].value) {
      assert entries[1..][i] == entries[i + 1];
    }
  }

  lemma RestSplitless(entries: seq<Entry>)
    requires entries != [] && SplitlessValue(entries[0].value) && Splitless(entries[1..])
    ensures Splitless(entries)
  {
    forall i | 0 <= i < |entries| ensures SplitlessValue(entries[i].value) {
      if i > 0 { assert entries[i] == entries[1..][i - 1]; }
    }
  }

  lemma {:induction false} DumpDoomed(entries: seq<Entry>, indent: nat)
    requires WellKeyed(entries) && !Splitless(entries)
    ensures Doomed(Dump(entries, indent))
    decreases entries, 1
  {
    ItemsDoomed(entries, indent);
    EndedIsJoin(Items(entries, indent));
  }

  /**
   * The exact limit: a mapping with plain keys is loaded as it was dumped if and only if no string holds one of
   * the three breaks; otherwise loading fails.
   */
  lemma RoundTripExactly(entries: seq<Entry>)
    requires WellKeyed(entries)
    ensures Load(Dump(entries, 0)) == Ok(entries) <==> Splitless(entries)
    ensures !Splitless(entries) ==> Load(Dump(entries, 0)).Err?
  {
    CleanIsBoth(entries);
    if Splitless(entries) {
      RoundTrip(entries);
    } else {
      DumpDoomed(entries, 0);
      DoomedFails(Dump(entries, 0));
    }
  }
}
