/** The text of a dump, line by line, and the round trip on text. */
module YamlLines {
  import opened ActionTypes
  import opened YamlText
  import opened Yaml
  import opened YamlRoundTrip

  function NonEmpty(lines: seq<string>): seq<string> {
    if lines == [] then [] else (if lines[0] == "" then [] else [lines[0]]) + NonEmpty(lines[1..])
  }

  function Lines(t: string): seq<string> { NonEmpty(SplitLines(t)) }

  /** Line feeds are the only breaks. */
  predicate OnlyLineFeeds(t: string) { forall i | 0 <= i < |t| :: IsBreak(t[i]) ==> t[i] == '\n' }

  predicate NoBreak(t: string) { forall i | 0 <= i < |t| :: !IsBreak(t[i]) }

  lemma SplitFirst(x: string, rest: string)
    requires NoBreak(x)
    ensures SplitLines(x + "\n" + rest) == [x] + SplitLines(rest)
  {
    var t := x + "\n" + rest;
    assert t[|x|] == '\n' && forall k | 0 <= k < |x| :: t[k] == x[k];
    assert BreakAt(t) == |x|;
    assert t[..|x|] == x && t[|x| + 1..] == rest;
  }

  lemma NonEmptyFirst(x: string, rest: seq<string>)
    ensures NonEmpty([x] + rest) == (if x == "" then [] else [x]) + NonEmpty(rest)
  {
    assert ([x] + rest)[1..] == rest;
  }

  lemma LinesOfOne(x: string)
    requires NoBreak(x)
    ensures Lines(x) == if x == "" then [] else [x]
  {
    if x != "" {
      assert BreakAt(x) == |x|;
      NonEmptyFirst(x, []);
      assert [x] + [] == [x];
    }
  }

  lemma LinesFirst(x: string, rest: string)
    requires NoBreak(x)
    ensures Lines(x + "\n" + rest) == Lines(x) + Lines(rest)
  {
    SplitFirst(x, rest);
    NonEmptyFirst(x, SplitLines(rest));
    LinesOfOne(x);
  }

  lemma CutAt(t: string, n: nat)
    requires n < |t| && t[n] == '\n'
    ensures t == t[..n] + "\n" + t[n + 1..]
  {
  }

  lemma TailOnlyLineFeeds(t: string, n: nat)
    requires OnlyLineFeeds(t) && n <= |t|
    ensures OnlyLineFeeds(t[n..])
  {
  }

  lemma FirstBreakIsFeed(t: string)
    requires OnlyLineFeeds(t) && BreakAt(t) < |t|
    ensures t[BreakAt(t)] == '\n'
  {
  }

  lemma NoBreakBefore(t: string, n: nat)
    requires n <= |t| && forall k | 0 <= k < n :: !IsBreak(t[k])
    ensures NoBreak(t[..n])
  {
  }

  lemma AtFirstBreak(t: string)
    requires OnlyLineFeeds(t) && BreakAt(t) < |t|
    ensures t == t[..BreakAt(t)] + "\n" + t[BreakAt(t) + 1..]
    ensures NoBreak(t[..BreakAt(t)]) && OnlyLineFeeds(t[BreakAt(t) + 1..])
  {
    FirstBreakIsFeed(t);
    CutAt(t, BreakAt(t));
    NoBreakBefore(t, BreakAt(t));
    TailOnlyLineFeeds(t, BreakAt(t) + 1);
  }

  lemma LinesStep(x: string, rest: string, b: string)
    requires NoBreak(x) && Lines(rest + "\n" + b) == Lines(rest) + Lines(b)
    ensures Lines((x + "\n" + rest) + "\n" + b) == Lines(x + "\n" + rest) + Lines(b)
  {
    LinesFirst(x, rest);
    LinesFirst(x, rest + "\n" + b);
    Regroup(x, rest, b);
    AssocLines(Lines(x), Lines(rest), Lines(b));
  }

  lemma AssocLines(a: seq<string>, b: seq<string>, c: seq<string>)
    ensures (a + b) + c == a + (b + c)
  {
  }

  /** Blank lines aside, text splits where it was joined. */
  lemma {:induction false} LinesBoth(a: string, b: string)
    requires OnlyLineFeeds(a)
    ensures Lines(a + "\n" + b) == Lines(a) + Lines(b)
    decreases |a|
  {
    var n := BreakAt(a);
    if n == |a| {
      LinesFirst(a, b);
    } else {
      AtFirstBreak(a);
      LinesBoth(a[n + 1..], b);
      LinesStep(a[..n], a[n + 1..], b);
    }
  }

  lemma Regroup(x: string, y: string, z: string)
    ensures (x + "\n" + y) + "\n" + z == x + "\n" + (y + "\n" + z)
  {
  }

  /** The last line of the text ends as the text does. */
  ghost predicate EndsAlike(lines: seq<string>, t: string) {
    && lines != [] && lines[|lines| - 1] != "" && t != ""
    && var l := lines[|lines| - 1]; l[|l| - 1] == t[|t| - 1]
  }

  lemma EndsAlikeBoth(a: seq<string>, b: seq<string>, x: string, rest: string)
    requires EndsAlike(b, rest)
    ensures EndsAlike(a + b, x + "\n" + rest)
  {
    assert (a + b)[|a + b| - 1] == b[|b| - 1];
    assert (x + "\n" + rest)[|x + "\n" + rest| - 1] == rest[|rest| - 1];
  }

  lemma LastLineStep(x: string, rest: string)
    requires NoBreak(x) && EndsAlike(Lines(rest), rest)
    ensures EndsAlike(Lines(x + "\n" + rest), x + "\n" + rest)
  {
    LinesFirst(x, rest);
    EndsAlikeBoth(Lines(x), Lines(rest), x, rest);
  }

  lemma {:induction false} LastLine(t: string)
    requires OnlyLineFeeds(t) && t != "" && !IsBreak(t[|t| - 1])
    ensures EndsAlike(Lines(t), t)
    decreases |t|
  {
    var n := BreakAt(t);
    if n == |t| {
      LinesOfOne(t);
    } else {
      AtFirstBreak(t);
      LastLine(t[n + 1..]);
      LastLineStep(t[..n], t[n + 1..]);
    }
  }

  ghost predicate SolidEnds(lines: seq<string>) {
    forall i | 0 <= i < |lines| :: lines[i] != "" && !IsSpace(lines[i][|lines[i]| - 1])
  }

  /** Stripping the end of a dump removes blank lines only. */
  lemma {:induction false} LinesRStrip(t: string)
    requires OnlyLineFeeds(t) && SolidEnds(Lines(t))
    ensures OnlyLineFeeds(RStrip(t)) && Lines(RStrip(t)) == Lines(t)
  {
    if t != "" && IsSpace(t[|t| - 1]) {
      var front := t[..|t| - 1];
      if IsBreak(t[|t| - 1]) {
        assert t == front + "\n" + "";
        LinesBoth(front, "");
        assert Lines(front) + [] == Lines(front);
        LinesRStrip(front);
      } else {
        LastLine(t);
      }
    }
  }

  // ----- dumped text -----

  /** Every item followed by a line feed. */
  function Ended(items: seq<string>): string {
    if items == [] then "" else items[0] + "\n" + Ended(items[1..])
  }

  lemma {:induction false} EndedIsJoin(items: seq<string>)
    requires items != []
    ensures Join(items) + "\n" == Ended(items)
  {
    if |items| > 1 { EndedIsJoin(items[1..]); }
  }

  lemma HeadHasNoBreak(indent: nat, key: string)
    requires PlainKey(key)
    ensures NoBreak(Spaces(indent) + key + ":") && SolidEnds([Spaces(indent) + key + ":"])
  {
    var head := Spaces(indent) + key + ":";
    assert head[|head| - 1] == ':';
  }

  lemma ScalarLine(indent: nat, e: Entry)
    requires PlainKey(e.key) && CleanValue(e.value) && !e.value.Map?
    ensures var line := Spaces(indent) + e.key + ":" + " " + ScalarText(e.value); NoBreak(line) && SolidEnds([line])
  {
    var text := ScalarText(e.value);
    var front := Spaces(indent) + e.key + ":" + " ";
    var line := front + text;
    ScalarIsSolid(e.value);
    assert line[|line| - 1] == text[|text| - 1];
    forall i | 0 <= i < |line| ensures !IsBreak(line[i]) {
      if i >= |front| { assert line[i] == text[i - |front|]; }
    }
  }

  /** What a piece of dumped text has to be: these lines, cleanly. */
  ghost predicate Shows(t: string, lines: seq<string>) { OnlyLineFeeds(t) && Lines(t) == lines && SolidEnds(lines) }

  lemma ShowsLine(line: string)
    requires NoBreak(line) && SolidEnds([line])
    ensures Shows(line, [line])
  {
    assert [line][0] != "";
    LinesOfOne(line);
  }

  lemma ShowsBoth(a: string, la: seq<string>, b: string, lb: seq<string>)
    requires Shows(a, la) && Shows(b, lb)
    ensures Shows(a + "\n" + b, la + lb)
  {
    LinesBoth(a, b);
  }

  lemma {:induction false} ItemsShow(entries: seq<Entry>, indent: nat)
    requires CleanMap(entries)
    ensures Shows(Ended(Items(entries, indent)), Flat(entries, indent))
    decreases entries, 0
  {
    if entries == [] {
    } else {
      var e := entries[0];
      var rest := entries[1..];
      assert CleanMap(rest);
      ItemsShow(rest, indent);
      var head := Spaces(indent) + e.key + ":";
      match e.value {
        case Map(inner) =>
          DumpShows(inner, indent + 2);
          var body := RStrip(Dump(inner, indent + 2));
          LinesRStrip(Dump(inner, indent + 2));
          HeadHasNoBreak(indent, e.key);
          ShowsLine(head);
          EndedTwo(head, body, Items(rest, indent));
          ShowsBoth(body, Flat(inner, indent + 2), Ended(Items(rest, indent)), Flat(rest, indent));
          ShowsBoth(head, [head],
                    body + "\n" + Ended(Items(rest, indent)), Flat(inner, indent + 2) + Flat(rest, indent));
          assert Flat(entries, indent) == [head] + (Flat(inner, indent + 2) + Flat(rest, indent));
        case _ =>
          var line := head + " " + ScalarText(e.value);
          ScalarLine(indent, e);
          ShowsLine(line);
          EndedOne(line, Items(rest, indent));
          ShowsBoth(line, [line], Ended(Items(rest, indent)), Flat(rest, indent));
      }
    }
  }

  lemma EndedOne(a: string, rest: seq<string>)
    ensures Ended([a] + rest) == a + "\n" + Ended(rest)
  {
    assert ([a] + rest)[1..] == rest;
  }

  lemma EndedTwo(a: string, b: string, rest: seq<string>)
    ensures Ended([a, b] + rest) == a + "\n" + (b + "\n" + Ended(rest))
  {
    assert [a, b] + rest == [a] + ([b] + rest);
    EndedOne(a, [b] + rest);
    EndedOne(b, rest);
  }

  lemma EmptyShows()
    ensures Shows("" + "\n", [])
  {
    assert "" + "\n" == "" + "\n" + "";
    LinesFirst("", "");
  }

  lemma {:induction false} DumpShows(entries: seq<Entry>, indent: nat)
    requires CleanMap(entries)
    ensures Shows(Dump(entries, indent), Flat(entries, indent))
    decreases entries, 1
  {
    ItemsShow(entries, indent);
    if entries == [] {
      EmptyShows();
    } else {
      EndedIsJoin(Items(entries, indent));
    }
  }

  /** The loader does not see blank lines. */
  lemma {:induction false} RunNonEmpty(s: Stack, lines: seq<string>)
    ensures Run(s, NonEmpty(lines)) == Run(s, lines)
    decreases |lines|
  {
    if lines == [] {
    } else {
      var rest := lines[1..];
      if lines[0] == "" {
        assert Step(s, "") == Ok(s);
        assert NonEmpty(lines) == NonEmpty(rest);
        RunNonEmpty(s, rest);
      } else {
        assert NonEmpty(lines) == [lines[0]] + NonEmpty(rest);
        assert ([lines[0]] + NonEmpty(rest))[1..] == NonEmpty(rest);
        match Step(s, lines[0])
        case Err(_) =>
        case Ok(s1) => RunNonEmpty(s1, rest);
      }
    }
  }

  /**
   * Round trip: any nested mapping with plain keys and clean strings, empty mappings included, is loaded as it
   * was dumped.
   */
  lemma RoundTrip(entries: seq<Entry>)
    requires CleanMap(entries)
    ensures Load(Dump(entries, 0)) == Ok(entries)
  {
    var text := Dump(entries, 0);
    DumpShows(entries, 0);
    RunNonEmpty(EMPTY, SplitLines(text));
    assert Settle(EMPTY, 0) == EMPTY;
    ReadsFlat(EMPTY, entries, 0);
    assert [] + entries == entries;
  }
}
