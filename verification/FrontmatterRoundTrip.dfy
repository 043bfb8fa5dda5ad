/** What a rendered page parses back to, and exactly which pages come back unchanged. */
module FrontmatterRoundTrip {
  import opened Wrappers
  import opened Text
  import opened Frontmatter

  /** What the Unicode classes \p{L} and \p{N} leave out: blanks and the syntax of a value. */
  ghost predicate Letters(letter: char -> bool) {
    forall c | letter(c) :: !IsSpace(c) && c != '\"' && c != '\'' && c != '['
  }

  // ----- Trimming -----

  lemma {:induction false} TrimStartOf(blanks: string, s: string)
    requires forall i | 0 <= i < |blanks| :: IsSpace(blanks[i])
    requires s == "" || !IsSpace(s[0])
    ensures TrimStart(blanks + s) == s
  {
    if blanks == "" {
      assert blanks + s == s;
    } else {
      assert (blanks + s)[1..] == blanks[1..] + s;
      TrimStartOf(blanks[1..], s);
    }
  }

  lemma TrimOfTight(s: string)
    requires s != "" && !IsSpace(s[0]) && !IsSpace(s[|s| - 1])
    ensures Trim(s) == s
  {
  }

  // ----- JSON strings -----

  lemma HexRoundTrip(n: nat)
    requires n < 16
    ensures HexValue(HexDigit(n)) == Some(n)
  {
  }

  lemma UnescapeOne(c: char, rest: string)
    ensures Unescape(EscapeChar(c) + rest) == Prefixed(c, Unescape(rest))
  {
    var e := EscapeChar(c);
    if |e| == 1 {
      assert (e + rest)[1..] == rest;
    } else if |e| == 2 {
      assert (e + rest)[2..] == rest;
    } else {
      UnescapeControl(c, rest);
    }
  }

  /** The four digits of an escaped control character. */
  lemma ControlParts(h: char, l: char, rest: string)
    ensures var s := "\\u00" + [h, l] + rest;
            |s| == 6 + |rest| && s[0] == '\\' && s[1] == 'u' && s[2..6] == ['0', '0', h, l] && s[6..] == rest
  {
  }

  lemma ControlCode(n: nat)
    requires n < 0x20
    ensures UnicodeEscape(['0', '0', HexDigit(n / 16), HexDigit(n % 16)]) == Some(n as char)
  {
    HexRoundTrip(n / 16);
    HexRoundTrip(n % 16);
  }

  lemma UnescapeControl(c: char, rest: string)
    requires |EscapeChar(c)| > 2
    ensures Unescape(EscapeChar(c) + rest) == Prefixed(c, Unescape(rest))
  {
    var n := c as int;
    var h, l := HexDigit(n / 16), HexDigit(n % 16);
    assert EscapeChar(c) == "\\u00" + [h, l];
    ControlParts(h, l, rest);
    ControlCode(n);
  }

  /** JSON.parse undoes JSON.stringify on every string. */
  lemma {:induction false} UnescapeOfEscape(s: string)
    ensures Unescape(Escape(s)) == Some(s)
  {
    if s != "" {
      UnescapeOfEscape(s[1..]);
      UnescapeOne(s[0], Escape(s[1..]));
      assert s == [s[0]] + s[1..];
    }
  }

  lemma QuoteRoundTrip(s: string)
    ensures ParseScalar(Quote(s)) == s
  {
    var q := Quote(s);
    TrimOfTight(q);
    assert q[1..|q| - 1] == Escape(s);
    UnescapeOfEscape(s);
  }

  // ----- One scalar -----

  /** Exactly the strings that come back: see FrontmatterPages.PageComesBackExactly. */
  predicate Renderable(s: string, letter: char -> bool) {
    if Safe(s, letter) then !HasTerminator(s)
    else forall i | 0 <= i < |s| :: s[i] as int != 0x2028 && s[i] as int != 0x2029
  }

  lemma {:induction false} EscapeHasNoTerminator(s: string)
    requires forall i | 0 <= i < |s| :: s[i] as int != 0x2028 && s[i] as int != 0x2029
    ensures !HasTerminator(Escape(s))
  {
    if s != "" {
      EscapeHasNoTerminator(s[1..]);
      var head, rest := EscapeChar(s[0]), Escape(s[1..]);
      assert !HasTerminator(head) by {
        EscapeCharIsPlain(s[0]);
      }
      forall i | 0 <= i < |Escape(s)| ensures !IsTerminator(Escape(s)[i]) {
        assert Escape(s)[i] == if i < |head| then head[i] else rest[i - |head|];
      }
    }
  }

  lemma EscapeCharIsPlain(c: char)
    requires c as int != 0x2028 && c as int != 0x2029
    ensures forall i | 0 <= i < |EscapeChar(c)| :: !IsTerminator(EscapeChar(c)[i])
  {
    if c as int < 0x20 {
      var a, b := HexDigit(c as int / 16), HexDigit(c as int % 16);
      HexIsPlain(c as int / 16);
      HexIsPlain(c as int % 16);
    }
  }

  lemma HexIsPlain(n: nat)
    requires n < 16
    ensures !IsTerminator(HexDigit(n))
  {
  }

  lemma QuoteTerminators(s: string)
    ensures HasTerminator(Quote(s)) <==> HasTerminator(Escape(s))
  {
    var q, e := Quote(s), Escape(s);
    assert |q| == |e| + 2 && forall i | 0 <= i < |e| :: q[i + 1] == e[i];
  }

  /** How a rendered scalar looks on its line. */
  ghost predicate Printed(r: string) {
    r != "" && !IsSpace(r[0]) && !IsSpace(r[|r| - 1]) && r[0] != '[' && !HasTerminator(r)
  }

  lemma ScalarRoundTrip(s: string, letter: char -> bool)
    requires Letters(letter) && Renderable(s, letter)
    ensures Printed(RenderScalar(s, letter)) && ParseScalar(RenderScalar(s, letter)) == s
  {
    if Safe(s, letter) {
      TrimOfTight(s);
      assert SafeHead(s[0], letter);
    } else {
      QuoteRoundTrip(s);
      EscapeHasNoTerminator(s);
      QuoteTerminators(s);
    }
  }

  // ----- Keys -----

  /** /^[A-Za-z_][A-Za-z0-9_-]*$/ */
  predicate WellFormedKey(key: string) {
    key != "" && KeyHead(key[0]) && forall i | 0 <= i < |key| :: KeyTail(key[i])
  }

  /** A line `key:tail` is a pair of the key and the tail without its leading blanks. */
  lemma PairOfKeyLine(key: string, tail: string)
    requires WellFormedKey(key)
    ensures PairOf(key + ":" + tail)
            == if HasTerminator(TrimStart(tail)) then None else Some((key, TrimStart(tail)))
    ensures ItemOf(key + ":" + tail).None? && !Skipped(key + ":" + tail) && !IsFence(key + ":" + tail)
  {
    KeyFirst(key, tail);
    SpanOf(key, ":" + tail, KeyTail);
    TrimKeepsHead(key + ":" + tail);
  }

  lemma KeyFirst(key: string, tail: string)
    requires WellFormedKey(key)
    ensures var line := key + ":" + tail;
            && line != "" && line[0] == key[0] && line == key + (":" + tail)
            && line[..|key|] == key && line[|key|..] == ":" + tail && line[|key|..][1..] == tail
            && TrimStart(line) == line && TrimStart(":" + tail) == ":" + tail
  {
  }

  lemma {:induction false} TrimEndKeepsHead(s: string)
    requires s != "" && !IsSpace(s[0])
    ensures TrimEnd(s) != "" && TrimEnd(s)[0] == s[0] && TrimEnd(s) <= s
    ensures forall i | 0 <= i < |s| && !IsSpace(s[i]) :: i < |TrimEnd(s)|
  {
    if IsSpace(s[|s| - 1]) {
      TrimEndKeepsHead(s[..|s| - 1]);
    }
  }

  lemma TrimKeepsHead(s: string)
    requires s != "" && !IsSpace(s[0])
    ensures Trim(s) != "" && Trim(s)[0] == s[0] && Trim(s) <= s
  {
    TrimEndKeepsHead(s);
  }

  // ----- One line -----

  lemma KeyAndScalar(key: string, r: string)
    ensures key + ": " + r == key + ":" + (" " + r)
  {
  }

  lemma TextOfLine(key: string, r: string)
    requires WellFormedKey(key) && Printed(r)
    ensures PairOf(key + ": " + r) == Some((key, r))
    ensures ItemOf(key + ": " + r).None? && !Skipped(key + ": " + r) && !IsFence(key + ": " + r)
  {
    KeyAndScalar(key, r);
    PairOfKeyLine(key, " " + r);
    TrimStartOf(" ", r);
  }

  lemma ScalarLine(state: ParseState, key: string, r: string)
    requires WellFormedKey(key) && Printed(r)
    ensures ParseLine(state, key + ": " + r) == ParseState(Assign(state.meta, key, Scalar(ParseScalar(r))), None)
  {
    TextOfLine(key, r);
    TrimOfTight(r);
  }

  lemma ScalarIsInner(key: string, r: string)
    requires WellFormedKey(key) && Printed(r)
    ensures Inner(key + ": " + r)
  {
    TextOfLine(key, r);
    var line := key + ": " + r;
    forall i | 0 <= i < |line| ensures !IsTerminator(line[i]) {
      assert line[i] == if i < |key| then key[i] else if i < |key| + 2 then ": "[i - |key|] else r[i - |key| - 2];
    }
  }

  lemma ListLine(state: ParseState, key: string)
    requires WellFormedKey(key)
    ensures ParseLine(state, key + ":") == ParseState(Assign(state.meta, key, Items([])), Some(key))
    ensures Inner(key + ":")
  {
    assert key + ":" == key + ":" + "";
    PairOfKeyLine(key, "");
  }

  lemma TrimOfItem(r: string)
    requires Printed(r)
    ensures TrimStart("  - " + r) == "- " + r && Trim("  - " + r) == "- " + r
  {
    assert "  - " + r == "  " + ("- " + r);
    TrimStartOf("  ", "- " + r);
    TrimOfTight("- " + r);
  }

  lemma ItemOfLine(r: string)
    requires Printed(r)
    ensures ItemOf("  - " + r) == Some(r)
  {
    TrimOfItem(r);
    assert ("- " + r)[1..] == " " + r;
    TrimStartOf(" ", r);
  }

  lemma ItemIsInner(r: string)
    requires Printed(r)
    ensures Inner("  - " + r)
  {
    TrimOfItem(r);
    assert ("- " + r)[1] == ' ';
  }

  lemma ItemLine(state: ParseState, key: string, r: string)
    requires Printed(r) && state.listKey == Some(key)
    ensures ParseLine(state, "  - " + r) == state.(meta := Push(state.meta, key, ParseScalar(r)))
  {
    TrimOfItem(r);
    ItemOfLine(r);
  }

  // ----- One property -----

  /** What String() of a number consists of. */
  predicate Numeral(n: string) {
    n != "" && forall i | 0 <= i < |n| :: IsDigit(n[i]) || IsAlpha(n[i]) || n[i] == '.' || n[i] == '+' || n[i] == '-'
  }

  lemma NumeralRoundTrip(n: string)
    requires Numeral(n)
    ensures Printed(n) && ParseScalar(n) == n
  {
    TrimOfTight(n);
  }

  predicate IsKept(e: Entry) {
    match e.value
    case Absent => false
    case Str(s) => s != ""
    case Num(_) => true
    case List(items) => items != []
  }

  /** What a kept property comes back as: numbers as their digits. */
  function Back(e: Entry): Parsed
    requires IsKept(e)
  {
    match e.value
    case Str(s) => Scalar(s)
    case Num(n) => Scalar(n)
    case List(items) => Items(items)
  }

  predicate GoodValue(v: Value, letter: char -> bool) {
    match v
    case Absent => true
    case Str(s) => Renderable(s, letter)
    case Num(n) => Numeral(n)
    case List(items) => forall i | 0 <= i < |items| :: Renderable(items[i], letter)
  }

  /** A property that is skipped, or one with a plain key and a value that comes back. */
  predicate GoodEntry(e: Entry, letter: char -> bool) {
    IsKept(e) ==> WellFormedKey(e.key) && e.key != "__proto__" && GoodValue(e.value, letter)
  }

  /** A line that stays one line between the fences. */
  predicate Inner(line: string) {
    !IsFence(line) && !HasTerminator(line)
  }

  ghost predicate AllInner(lines: seq<string>) {
    forall i | 0 <= i < |lines| :: Inner(lines[i])
  }

  lemma ParseItem(state: ParseState, key: string, done: seq<string>, item: string, letter: char -> bool)
    requires Letters(letter) && Renderable(item, letter) && state.listKey == Some(key)
    requires key in state.meta && state.meta[key] == Items(done)
    ensures ParseLine(state, "  - " + RenderScalar(item, letter))
            == state.(meta := state.meta[key := Items(done + [item])])
    ensures Inner("  - " + RenderScalar(item, letter))
  {
    ScalarRoundTrip(item, letter);
    ItemLine(state, key, RenderScalar(item, letter));
    ItemIsInner(RenderScalar(item, letter));
  }

  lemma MoveOne(done: seq<string>, items: seq<string>)
    requires items != []
    ensures done + [items[0]] + items[1..] == done + items
  {
  }

  /** A state with the items of its open list replaced. */
  function WithItems(state: ParseState, key: string, items: seq<string>): ParseState {
    state.(meta := state.meta[key := Items(items)])
  }

  lemma {:induction false} ItemLinesBack(state: ParseState, key: string, done: seq<string>, items: seq<string>,
        letter: char -> bool)
    requires Letters(letter) && state.listKey == Some(key)
    requires forall i | 0 <= i < |items| :: Renderable(items[i], letter)
    ensures ParseLines(WithItems(state, key, done), ItemLines(items, letter)) == WithItems(state, key, done + items)
    decreases |items|
  {
    if items == [] {
      assert done + items == done;
    } else {
      ParseItem(WithItems(state, key, done), key, done, items[0], letter);
      assert WithItems(WithItems(state, key, done), key, done + [items[0]]) == WithItems(state, key, done + [items[0]]);
      ItemLinesBack(state, key, done + [items[0]], items[1..], letter);
      MoveOne(done, items);
      FirstLine(WithItems(state, key, done), "  - " + RenderScalar(items[0], letter), ItemLines(items[1..], letter));
    }
  }

  lemma {:induction false} ItemsAreInner(items: seq<string>, letter: char -> bool)
    requires Letters(letter) && forall i | 0 <= i < |items| :: Renderable(items[i], letter)
    ensures AllInner(ItemLines(items, letter))
  {
    if items != [] {
      ScalarRoundTrip(items[0], letter);
      ItemIsInner(RenderScalar(items[0], letter));
      ItemsAreInner(items[1..], letter);
    }
  }

  lemma FirstLine(state: ParseState, line: string, rest: seq<string>)
    ensures ParseLines(state, [line] + rest) == ParseLines(ParseLine(state, line), rest)
  {
    assert ([line] + rest)[1..] == rest;
  }

  lemma ListBack(state: ParseState, key: string, items: seq<string>, letter: char -> bool)
    requires Letters(letter) && WellFormedKey(key) && key != "__proto__"
    requires forall i | 0 <= i < |items| :: Renderable(items[i], letter)
    ensures ParseLines(state, [key + ":"] + ItemLines(items, letter)).meta == state.meta[key := Items(items)]
    ensures AllInner([key + ":"] + ItemLines(items, letter))
  {
    ListLine(state, key);
    ItemsAreInner(items, letter);
    FirstLine(state, key + ":", ItemLines(items, letter));
    var open := state.(listKey := Some(key));
    assert ParseLine(state, key + ":") == WithItems(open, key, []);
    ItemLinesBack(open, key, [], items, letter);
    assert [] + items == items;
  }

  lemma ScalarBack(state: ParseState, key: string, r: string)
    requires WellFormedKey(key) && key != "__proto__" && Printed(r)
    ensures ParseLines(state, [key + ": " + r]).meta == state.meta[key := Scalar(ParseScalar(r))]
    ensures AllInner([key + ": " + r])
  {
    ScalarLine(state, key, r);
    ScalarIsInner(key, r);
    FirstLine(state, key + ": " + r, []);
  }

  /** The lines of one property add it to the result, whatever was parsed before. */
  lemma EntryBack(state: ParseState, e: Entry, letter: char -> bool)
    requires Letters(letter) && GoodEntry(e, letter)
    ensures ParseLines(state, EntryLines(e, letter)).meta
            == if IsKept(e) then state.meta[e.key := Back(e)] else state.meta
    ensures AllInner(EntryLines(e, letter))
  {
    if IsKept(e) {
      match e.value
      case Str(s) =>
        ScalarRoundTrip(s, letter);
        ScalarBack(state, e.key, RenderScalar(s, letter));
      case Num(n) =>
        NumeralRoundTrip(n);
        ScalarBack(state, e.key, n);
      case List(items) =>
        ListBack(state, e.key, items, letter);
    }
  }

  // ----- All properties -----

  predicate DistinctKeys(entries: seq<Entry>) {
    forall i, j | 0 <= i < j < |entries| :: entries[i].key != entries[j].key
  }

  /** The properties a reader gets back: empty ones dropped, numbers as text. */
  function Normal(entries: seq<Entry>): Meta {
    if entries == [] then map[]
    else
      var last := entries[|entries| - 1];
      var before := Normal(entries[..|entries| - 1]);
      if IsKept(last) then before[last.key := Back(last)] else before
  }

  lemma {:induction false} ParseLinesConcat(state: ParseState, a: seq<string>, b: seq<string>)
    ensures ParseLines(state, a + b) == ParseLines(ParseLines(state, a), b)
    decreases |a|
  {
    if a == [] {
      assert a + b == b;
    } else {
      assert (a + b)[1..] == a[1..] + b;
      ParseLinesConcat(ParseLine(state, a[0]), a[1..], b);
    }
  }

  lemma LastOf(entries: seq<Entry>)
    requires entries != []
    ensures entries == entries[..|entries| - 1] + [entries[|entries| - 1]]
  {
  }

  lemma InnerConcat(a: seq<string>, b: seq<string>)
    requires AllInner(a) && AllInner(b)
    ensures AllInner(a + b)
  {
  }

  lemma {:induction false} FieldsBack(entries: seq<Entry>, letter: char -> bool)
    requires Letters(letter) && forall i | 0 <= i < |entries| :: GoodEntry(entries[i], letter)
    ensures ParseLines(ParseState(map[], None), FieldLines(entries, letter)).meta == Normal(entries)
    ensures AllInner(FieldLines(entries, letter))
  {
    if entries != [] {
      var before, last := entries[..|entries| - 1], entries[|entries| - 1];
      FieldsBack(before, letter);
      LastOf(entries);
      FieldLinesSnoc(before, last, letter);
      var state := ParseLines(ParseState(map[], None), FieldLines(before, letter));
      ParseLinesConcat(ParseState(map[], None), FieldLines(before, letter), EntryLines(last, letter));
      EntryBack(state, last, letter);
      InnerConcat(FieldLines(before, letter), EntryLines(last, letter));
    }
  }

  // ----- Lines -----

  /** A line that splitting leaves alone. */
  predicate WholeLine(line: string) {
    (forall i | 0 <= i < |line| :: line[i] != '\n') && StripCr(line) == line
  }

  lemma SplitOff(line: string, rest: string)
    requires WholeLine(line)
    ensures SplitLines(line + "\n" + rest) == [line] + SplitLines(rest)
  {
    Around(line, rest);
    SpanOf(line, "\n" + rest, c => c != '\n');
  }

  /** Whole lines, each with its line break, and then a rest. */
  function Glue(lines: seq<string>, rest: string): string {
    if lines == [] then rest else lines[0] + "\n" + Glue(lines[1..], rest)
  }

  lemma {:induction false} GlueOfJoin(lines: seq<string>, rest: string)
    requires lines != []
    ensures Join(lines) + "\n" + rest == Glue(lines, rest)
  {
    if |lines| > 1 {
      GlueOfJoin(lines[1..], rest);
      assert Join(lines) + "\n" + rest == lines[0] + "\n" + (Join(lines[1..]) + "\n" + rest);
    }
  }

  lemma {:induction false} SplitOffAll(lines: seq<string>, rest: string)
    requires forall i | 0 <= i < |lines| :: WholeLine(lines[i])
    ensures SplitLines(Glue(lines, rest)) == lines + SplitLines(rest)
  {
    if lines == [] {
      NothingFirst(SplitLines(rest));
    } else {
      SplitOff(lines[0], Glue(lines[1..], rest));
      SplitOffAll(lines[1..], rest);
      Regroup(lines, SplitLines(rest));
    }
  }

  lemma NothingFirst(lines: seq<string>)
    ensures [] + lines == lines
  {
  }

  lemma Regroup(a: seq<string>, b: seq<string>)
    requires a != []
    ensures [a[0]] + (a[1..] + b) == a + b
  {
  }

  /** A string with every CR that precedes an LF removed. */
  function DropCrBeforeLf(s: string): string
    decreases |s|
  {
    if s == "" then ""
    else if |s| >= 2 && s[0] == '\r' && s[1] == '\n' then DropCrBeforeLf(s[1..])
    else [s[0]] + DropCrBeforeLf(s[1..])
  }
}
