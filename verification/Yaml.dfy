/** Loading and dumping nested mappings in the build manifest's YAML subset. */
module Yaml {
  import opened ActionTypes
  import opened YamlText

  datatype Value = Null | Bool(b: bool) | Int(i: int) | Str(s: string) | Map(entries: seq<Entry>)

  /** Mappings keep the order in which their keys were inserted. */
  datatype Entry = Entry(key: string, value: Value)

  datatype ConfigError = Tabs | Sequences | NoColon | InvalidMapping | DuplicateKey | Unterminated | InvalidQuoted

  datatype Result<T> = Ok(value: T) | Err(error: ConfigError)

  // ----- scalars -----

  /** Lower case as far as it matters: no other character maps to a letter of `true`, `false` or `null`. */
  function Lower(t: string): string {
    seq(|t|, i requires 0 <= i < |t| => if 'A' <= t[i] <= 'Z' then (t[i] as int + 32) as char else t[i])
  }

  /** Left to right, two single quotes become one. */
  function Undouble(t: string): string {
    if |t| < 2 then t
    else if t[0] == '\'' && t[1] == '\'' then "'" + Undouble(t[2..])
    else [t[0]] + Undouble(t[1..])
  }

  function ParseScalar(text: string): Result<Value> {
    var v := Strip(text);
    if v == "" then Ok(Map([]))
    else if Lower(v) == "true" then Ok(Bool(true))
    else if Lower(v) == "false" then Ok(Bool(false))
    else if Lower(v) == "null" || Lower(v) == "~" then Ok(Null)
    else if v[0] == '"' || v[0] == '\'' then
      if |v| < 2 || v[|v| - 1] != v[0] then Err(Unterminated)
      else if v[0] == '"' then match Unquote(v[1..]) case None => Err(InvalidQuoted) case Some(s) => Ok(Str(s))
      else Ok(Str(Undouble(v[1..|v| - 1])))
    else match ParseInt(v) case None => Ok(Str(v)) case Some(i) => Ok(Int(i))
  }

  // ----- loading -----

  /** An open mapping: the indentation and key that opened it, and its finished entries. */
  datatype Frame = Frame(indent: int, key: string, entries: seq<Entry>)

  type Stack = s: seq<Frame> | |s| > 0 witness [Frame(-1, "", [])]

  function Top(s: Stack): Frame { s[|s| - 1] }

  function Close(s: Stack): Stack
    requires |s| > 1
  {
    var below := s[|s| - 2];
    s[..|s| - 2] + [below.(entries := below.entries + [Entry(Top(s).key, Map(Top(s).entries))])]
  }

  /** Closes the mappings that a line with this indentation is not part of. */
  function Settle(s: Stack, indent: nat): Stack
    decreases |s|
  {
    if |s| > 1 && indent <= Top(s).indent then Settle(Close(s), indent) else s
  }

  function ColonAt(t: string): (c: Option<nat>)
    ensures c.Some? ==> c.value < |t| && t[c.value] == ':' && forall k | 0 <= k < c.value :: t[k] != ':'
    ensures c.None? ==> ':' !in t
  {
    if t == "" then None
    else if t[0] == ':' then Some(0)
    else match ColonAt(t[1..]) case None => None case Some(k) => Some(k + 1)
  }

  predicate HasKey(entries: seq<Entry>, key: string) { exists k :: 0 <= k < |entries| && entries[k].key == key }

  function Insert(s: Stack, e: Entry): Stack { s[|s| - 1 := Top(s).(entries := Top(s).entries + [e])] }

  /** The value of a new key: a scalar is finished, an empty value opens a mapping. */
  function Enter(s: Stack, indent: nat, key: string, v: Value): Stack {
    if v.Map? then s + [Frame(indent, key, [])] else Insert(s, Entry(key, v))
  }

  /** A line without its indentation and comment. */
  function Place(s: Stack, indent: nat, stripped: string): Result<Stack> {
    if stripped != "" && stripped[0] == '-' then Err(Sequences) else
    match ColonAt(stripped)
    case None => Err(NoColon)
    case Some(c) =>
      var key := Strip(stripped[..c]);
      var s1 := Settle(s, indent);
      if key == "" then Err(InvalidMapping)
      else if HasKey(Top(s1).entries, key) then Err(DuplicateKey)
      else match ParseScalar(stripped[c + 1..]) case Err(e) => Err(e) case Ok(v) => Ok(Enter(s1, indent, key, v))
  }

  function Step(s: Stack, raw: string): Result<Stack> {
    if '\t' in raw then Err(Tabs) else
    var line := StripComment(raw);
    if Strip(line) == "" then Ok(s) else
    var stripped := LStripBlanks(line);
    Place(s, |line| - |stripped|, stripped)
  }

  function Run(s: Stack, lines: seq<string>): Result<Stack>
    decreases |lines|
  {
    if lines == [] then Ok(s)
    else match Step(s, lines[0]) case Err(e) => Err(e) case Ok(s1) => Run(s1, lines[1..])
  }

  const EMPTY: Stack := [Frame(-1, "", [])]

  function Load(text: string): Result<seq<Entry>> {
    match Run(EMPTY, SplitLines(text)) case Err(e) => Err(e) case Ok(s) => Ok(Settle(s, 0)[0].entries)
  }

  /** One line at a time, closing finished mappings as indentation falls. */
  method LoadSimpleYaml(text: string) returns (r: Result<seq<Entry>>)
    ensures r == Load(text)
  {
    var lines := SplitLines(text);
    var stack: Stack := EMPTY;
    for n := 0 to |lines|
      invariant Run(EMPTY, lines) == Run(stack, lines[n..])
    {
      var raw := lines[n];
      assert lines[n..][0] == raw && lines[n..][1..] == lines[n + 1..];
      if '\t' in raw { return Err(Tabs); }
      var line := StripCommentLoop(raw);
      if Strip(line) == "" { continue; }
      var stripped := LStripBlanks(line);
      var indent := |line| - |stripped|;
      if stripped != "" && stripped[0] == '-' { return Err(Sequences); }
      var colon := ColonAt(stripped);
      if colon.None? { return Err(NoColon); }
      var key := Strip(stripped[..colon.value]);
      ghost var before := stack;
      stack := CloseDownTo(stack, indent);
      if key == "" { return Err(InvalidMapping); }
      if HasKey(Top(stack).entries, key) { return Err(DuplicateKey); }
      var parsed := ParseScalar(stripped[colon.value + 1..]);
      if parsed.Err? { return Err(parsed.error); }
      stack := Enter(stack, indent, key, parsed.value);
      assert Step(before, raw) == Ok(stack);
    }
    var root := CloseDownTo(stack, 0);
    r := Ok(root[0].entries);
  }

  method CloseDownTo(s: Stack, indent: nat) returns (r: Stack)
    ensures r == Settle(s, indent)
  {
    r := s;
    while |r| > 1 && indent <= Top(r).indent
      invariant Settle(s, indent) == Settle(r, indent)
      decreases |r|
    {
      r := Close(r);
    }
  }

  // ----- dumping -----

  function ScalarText(v: Value): string
    requires !v.Map?
  {
    match v
    case Bool(b) => if b then "true" else "false"
    case Null => "null"
    case Int(i) => IntText(i)
    case Str(s) => Quoted(s)
  }

  function Join(items: seq<string>): string {
    if items == [] then "" else if |items| == 1 then items[0] else items[0] + "\n" + Join(items[1..])
  }

  /** The items that one mapping contributes: a line per scalar, two items per nested mapping. */
  function Items(entries: seq<Entry>, indent: nat): seq<string>
    decreases entries, 0
  {
    if entries == [] then []
    else
      var e := entries[0];
      var head := Spaces(indent) + e.key + ":";
      (match e.value
       case Map(inner) => [head, RStrip(Dump(inner, indent + 2))]
       case _ => [head + " " + ScalarText(e.value)])
      + Items(entries[1..], indent)
  }

  function Dump(entries: seq<Entry>, indent: nat): string
    decreases entries, 1
  {
    Join(Items(entries, indent)) + "\n"
  }
}
