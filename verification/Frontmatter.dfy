/**
 * Frontmatter of knowledge-base pages (cli/src/kb-frontmatter.ts).
 *
 * Strings are sequences of Unicode scalar values.  The Unicode classes \p{L} and \p{N}
 * come in as a predicate on characters.
 */
module Frontmatter {
  import opened Wrappers
  import opened Text

  const FENCE: string := "---"

  // ----- Characters -----

  /** \s of a JavaScript regular expression, which is also what trim() removes. */
  predicate IsSpace(c: char) {
    var n := c as int;
    9 <= n <= 13 || n == 32 || n == 0xA0 || n == 0x1680 || 0x2000 <= n <= 0x200A
    || n == 0x2028 || n == 0x2029 || n == 0x202F || n == 0x205F || n == 0x3000 || n == 0xFEFF
  }

  /** What `.` does not match. */
  predicate IsTerminator(c: char) {
    c == '\n' || c == '\r' || c as int == 0x2028 || c as int == 0x2029
  }

  predicate HasTerminator(s: string) {
    exists i | 0 <= i < |s| :: IsTerminator(s[i])
  }

  predicate IsAlpha(c: char) {
    'a' <= c <= 'z' || 'A' <= c <= 'Z'
  }

  predicate IsDigit(c: char) {
    '0' <= c <= '9'
  }

  predicate KeyHead(c: char) {
    IsAlpha(c) || c == '_'
  }

  predicate KeyTail(c: char) {
    IsAlpha(c) || IsDigit(c) || c == '_' || c == '-'
  }

  // ----- Strings -----

  function TrimStart(s: string): string {
    if s != "" && IsSpace(s[0]) then TrimStart(s[1..]) else s
  }

  function TrimEnd(s: string): string {
    if s != "" && IsSpace(s[|s| - 1]) then TrimEnd(s[..|s| - 1]) else s
  }

  function Trim(s: string): string {
    TrimEnd(TrimStart(s))
  }

  function StripCr(line: string): string {
    if line != "" && line[|line| - 1] == '\r' then line[..|line| - 1] else line
  }

  /** split(/\r?\n/) */
  function SplitLines(s: string): seq<string>
    decreases |s|
  {
    var n := Span(s, c => c != '\n');
    if n == |s| then [s] else [StripCr(s[..n])] + SplitLines(s[n + 1..])
  }

  // ----- JSON strings -----

  function HexValue(c: char): Option<nat> {
    if '0' <= c <= '9' then Some(c as int - '0' as int)
    else if 'a' <= c <= 'f' then Some(c as int - 'a' as int + 10)
    else if 'A' <= c <= 'F' then Some(c as int - 'A' as int + 10)
    else None
  }

  /** The character of a \u escape's four digits; none for surrogates. */
  function UnicodeEscape(digits: string): Option<char>
    requires |digits| == 4
  {
    var a, b, c, d := HexValue(digits[0]), HexValue(digits[1]), HexValue(digits[2]), HexValue(digits[3]);
    if a.None? || b.None? || c.None? || d.None? then None
    else
      var n := a.value * 4096 + b.value * 256 + c.value * 16 + d.value;
      if n < 0xD800 || 0xE000 <= n < 0x10000 then Some(n as char) else None
  }

  /** The escaped character after a backslash and how many characters it took, or none. */
  function SimpleEscape(c: char): Option<char> {
    if c == '\"' || c == '\\' || c == '/' then Some(c)
    else if c == 'b' then Some(8 as char)
    else if c == 'f' then Some(12 as char)
    else if c == 'n' then Some('\n')
    else if c == 'r' then Some('\r')
    else if c == 't' then Some('\t')
    else None
  }

  /** The content of a JSON string literal; none if it is malformed. */
  function Unescape(s: string): Option<string>
    decreases |s|
  {
    if s == "" then Some("")
    else if s[0] == '\"' || s[0] as int < 0x20 then None
    else if s[0] != '\\' then Prefixed(s[0], Unescape(s[1..]))
    else if |s| == 1 then None
    else if s[1] == 'u' then
      if |s| < 6 || UnicodeEscape(s[2..6]).None? then None
      else Prefixed(UnicodeEscape(s[2..6]).value, Unescape(s[6..]))
    else if SimpleEscape(s[1]).None? then None
    else Prefixed(SimpleEscape(s[1]).value, Unescape(s[2..]))
  }

  function Prefixed(c: char, rest: Option<string>): Option<string> {
    if rest.None? then None else Some([c] + rest.value)
  }

  // ----- Scalars -----

  /** A value between two of these quotes, which may not be the same character. */
  predicate Between(value: string, quote: char) {
    |value| >= 2 && value[0] == quote && value[|value| - 1] == quote
  }

  /** replace(/''/g, "'") */
  function Undouble(s: string): string
    decreases |s|
  {
    if |s| < 2 then s
    else if s[0] == '\'' && s[1] == '\'' then "'" + Undouble(s[2..])
    else [s[0]] + Undouble(s[1..])
  }

  function ParseScalar(raw: string): string {
    var value := Trim(raw);
    if Between(value, '\"') then
      var inner := value[1..|value| - 1];
      Unescape(inner).GetOr(inner)
    else if Between(value, '\'') then Undouble(value[1..|value| - 1])
    else value
  }

  /** split(",") */
  function SplitCommas(s: string): seq<string>
    decreases |s|
  {
    var n := Span(s, c => c != ',');
    if n == |s| then [s] else [s[..n]] + SplitCommas(s[n + 1..])
  }

  /** map(parseScalar).filter(Boolean) */
  function NonEmptyScalars(parts: seq<string>): seq<string> {
    if parts == [] then []
    else (if ParseScalar(parts[0]) == "" then [] else [ParseScalar(parts[0])]) + NonEmptyScalars(parts[1..])
  }

  function ParseInlineList(raw: string): seq<string>
    requires |Trim(raw)| >= 2
  {
    var inner := Trim(raw)[1..|Trim(raw)| - 1];
    if Trim(inner) == "" then [] else NonEmptyScalars(SplitCommas(inner))
  }

  // ----- Parsing -----

  datatype Parsed = Scalar(text: string) | Items(items: seq<string>)

  type Meta = map<string, Parsed>

  datatype Page = Page(meta: Meta, body: string)

  datatype ParseState = ParseState(meta: Meta, listKey: Option<string>)

  /** /^([A-Za-z_][A-Za-z0-9_-]*)\s*:\s*(.*)$/ : the key and the rest. */
  function PairOf(line: string): Option<(string, string)> {
    if line == "" || !KeyHead(line[0]) then None
    else
      var n := Span(line, KeyTail);
      var rest := TrimStart(line[n..]);
      if rest == "" || rest[0] != ':' then None
      else
        var value := TrimStart(rest[1..]);
        if HasTerminator(value) then None else Some((line[..n], value))
  }

  /** /^\s*-\s+(.*)$/ : the item. */
  function ItemOf(line: string): Option<string> {
    var s := TrimStart(line);
    if |s| < 2 || s[0] != '-' || !IsSpace(s[1]) then None
    else
      var value := TrimStart(s[1..]);
      if HasTerminator(value) then None else Some(value)
  }

  /** `meta[key] = value`; on the key `__proto__` it creates no property of the object. */
  function Assign(meta: Meta, key: string, value: Parsed): Meta {
    if key == "__proto__" then meta else meta[key := value]
  }

  /** `meta[key].push(item)` on a list started before. */
  function Push(meta: Meta, key: string, item: string): Meta {
    if key in meta && meta[key].Items? then meta[key := Items(meta[key].items + [item])] else meta
  }

  predicate Skipped(line: string) {
    Trim(line) == "" || Trim(line)[0] == '#'
  }

  /** One turn of the loop over the fenced lines. */
  function ParseLine(state: ParseState, line: string): ParseState {
    if Skipped(line) then state
    else if ItemOf(line).Some? && state.listKey.Some? then
      state.(meta := Push(state.meta, state.listKey.value, ParseScalar(ItemOf(line).value)))
    else if PairOf(line).None? then state
    else
      var (key, rest) := PairOf(line).value;
      var value := Trim(rest);
      if value == "" then ParseState(Assign(state.meta, key, Items([])), Some(key))
      else if |value| >= 2 && value[0] == '[' && value[|value| - 1] == ']' then
        ParseState(Assign(state.meta, key, Items(ParseInlineList(rest))), None)
      else ParseState(Assign(state.meta, key, Scalar(ParseScalar(rest))), None)
  }

  function ParseLines(state: ParseState, lines: seq<string>): ParseState
    decreases |lines|
  {
    if lines == [] then state else ParseLines(ParseLine(state, lines[0]), lines[1..])
  }

  predicate IsFence(line: string) {
    Trim(line) == FENCE
  }

  /** How many lines come before the first fence. */
  function BeforeFence(lines: seq<string>): (n: nat)
    ensures n <= |lines| && (forall i | 0 <= i < n :: !IsFence(lines[i])) && (n < |lines| ==> IsFence(lines[n]))
  {
    if lines == [] || IsFence(lines[0]) then 0 else 1 + BeforeFence(lines[1..])
  }

  function DropBom(text: string): string {
    if text != "" && text[0] as int == 0xFEFF then text[1..] else text
  }

  function DropNewline(text: string): string {
    if text != "" && text[0] == '\n' then text[1..] else text
  }

  function Parse(text: string): Page {
    var normalized := DropBom(text);
    var lines := SplitLines(normalized);
    if lines == [] || !IsFence(lines[0]) then Page(map[], normalized)
    else
      var n := BeforeFence(lines[1..]);
      if n == |lines| - 1 then Page(map[], normalized)
      else Page(ParseLines(ParseState(map[], None), lines[1..n + 1]).meta, DropNewline(Join(lines[n + 2..])))
  }

  lemma {:induction false} ParseLinesSnoc(state: ParseState, lines: seq<string>, line: string)
    ensures ParseLines(state, lines + [line]) == ParseLine(ParseLines(state, lines), line)
    decreases |lines|
  {
    if lines == [] {
      assert [line][1..] == [];
    } else {
      assert (lines + [line])[1..] == lines[1..] + [line];
      ParseLinesSnoc(ParseLine(state, lines[0]), lines[1..], line);
    }
  }

  /** The body of the loop over the fenced lines. */
  method HandleLine(meta: Meta, listKey: Option<string>, line: string) returns (meta': Meta, listKey': Option<string>)
    ensures ParseState(meta', listKey') == ParseLine(ParseState(meta, listKey), line)
  {
    meta', listKey' := meta, listKey;
    if Trim(line) == "" || Trim(line)[0] == '#' {
      return;
    }
    var item := ItemOf(line);
    if item.Some? && listKey.Some? {
      meta' := Push(meta, listKey.value, ParseScalar(item.value));
      return;
    }
    var pair := PairOf(line);
    if pair.None? {
      return;
    }
    var key, rest := pair.value.0, pair.value.1;
    var value := Trim(rest);
    if value == "" {
      meta', listKey' := Assign(meta, key, Items([])), Some(key);
    } else if |value| >= 2 && value[0] == '[' && value[|value| - 1] == ']' {
      meta', listKey' := Assign(meta, key, Items(ParseInlineList(rest))), None;
    } else {
      meta', listKey' := Assign(meta, key, Scalar(ParseScalar(rest))), None;
    }
  }

  lemma FenceIsAt(lines: seq<string>, end: nat)
    requires 1 <= end <= |lines| && (forall i | 1 <= i < end :: !IsFence(lines[i]))
    requires end < |lines| ==> IsFence(lines[end])
    ensures BeforeFence(lines[1..]) == end - 1
  {
  }

  /** `parseFrontmatter` */
  method ParseFrontmatter(text: string) returns (meta: Meta, body: string)
    ensures Page(meta, body) == Parse(text)
  {
    var normalized := DropBom(text);
    var lines := SplitLines(normalized);
    if lines == [] || !IsFence(lines[0]) {
      return map[], normalized;
    }
    var end := 1;
    while end < |lines| && !IsFence(lines[end])
      invariant 1 <= end <= |lines|
      invariant forall i | 1 <= i < end :: !IsFence(lines[i])
    {
      end := end + 1;
    }
    FenceIsAt(lines, end);
    if end == |lines| {
      return map[], normalized;
    }
    meta := map[];
    var listKey: Option<string> := None;
    for i := 1 to end
      invariant ParseState(meta, listKey) == ParseLines(ParseState(map[], None), lines[1..i])
    {
      Extend(lines, 1, i);
      ParseLinesSnoc(ParseState(map[], None), lines[1..i], lines[i]);
      meta, listKey := HandleLine(meta, listKey, lines[i]);
    }
    body := DropNewline(Join(lines[end + 1..]));
  }

  // ----- Rendering -----

  /** A property value: a number by its String(), Absent for null and undefined. */
  datatype Value = Absent | Str(str: string) | Num(numeral: string) | List(list: seq<string>)

  datatype Entry = Entry(key: string, value: Value)

  predicate SafeHead(c: char, letter: char -> bool) {
    letter(c) || c == '_' || c == '.' || c == '/' || c == '@' || c == '+' || c == '-'
  }

  predicate SafeTail(c: char, letter: char -> bool) {
    SafeHead(c, letter) || IsSpace(c) || c == '(' || c == ')' || c as int == 0xFF08 || c as int == 0xFF09
    || c as int == 0xFF0C || c as int == 0x3002 || c as int == 0x3001
  }

  /** The strings that are printed as they are. */
  predicate Safe(s: string, letter: char -> bool) {
    && s != "" && SafeHead(s[0], letter) && (forall i | 0 < i < |s| :: SafeTail(s[i], letter))
    && !IsSpace(s[|s| - 1])
  }

  function RenderScalar(s: string, letter: char -> bool): string {
    if Safe(s, letter) then s else Quote(s)
  }

  function ItemLines(items: seq<string>, letter: char -> bool): seq<string> {
    if items == [] then [] else ["  - " + RenderScalar(items[0], letter)] + ItemLines(items[1..], letter)
  }

  /** The lines of one property; none for what is skipped. */
  function EntryLines(e: Entry, letter: char -> bool): seq<string> {
    match e.value
    case Absent => []
    case Str(s) => if s == "" then [] else [e.key + ": " + RenderScalar(s, letter)]
    case Num(n) => [e.key + ": " + n]
    case List(items) => if items == [] then [] else [e.key + ":"] + ItemLines(items, letter)
  }

  function FieldLines(entries: seq<Entry>, letter: char -> bool): seq<string> {
    if entries == [] then [] else EntryLines(entries[0], letter) + FieldLines(entries[1..], letter)
  }

  function Render(entries: seq<Entry>, body: string, letter: char -> bool): string {
    Join([FENCE] + FieldLines(entries, letter) + [FENCE]) + "\n" + body
  }

  lemma {:induction false} FieldLinesSnoc(entries: seq<Entry>, e: Entry, letter: char -> bool)
    ensures FieldLines(entries + [e], letter) == FieldLines(entries, letter) + EntryLines(e, letter)
  {
    if entries == [] {
      assert [e][1..] == [];
    } else {
      assert (entries + [e])[1..] == entries[1..] + [e];
      FieldLinesSnoc(entries[1..], e, letter);
    }
  }

  /** The lines that one turn of the loop over the properties adds. */
  method RenderEntry(e: Entry, letter: char -> bool) returns (lines: seq<string>)
    ensures lines == EntryLines(e, letter)
  {
    if e.value.Absent? || e.value == Str("") {
      return [];
    }
    match e.value {
      case Str(s) => lines := [e.key + ": " + RenderScalar(s, letter)];
      case Num(n) => lines := [e.key + ": " + n];
      case List(items) =>
        lines := if items == [] then [] else [e.key + ":"] + ItemLines(items, letter);
    }
  }

  /** `renderFrontmatter` */
  method RenderFrontmatter(entries: seq<Entry>, body: string, letter: char -> bool) returns (text: string)
    ensures text == Render(entries, body, letter)
  {
    var lines := [FENCE];
    for i := 0 to |entries|
      invariant lines == [FENCE] + FieldLines(entries[0..i], letter)
    {
      Extend(entries, 0, i);
      FieldLinesSnoc(entries[0..i], entries[i], letter);
      Assoc([FENCE], FieldLines(entries[0..i], letter), EntryLines(entries[i], letter));
      var more := RenderEntry(entries[i], letter);
      lines := lines + more;
    }
    assert entries[0..|entries|] == entries;
    lines := lines + [FENCE];
    text := Join(lines) + "\n" + body;
  }
}
