/** Whole pages: what a rendered page parses back to, and exactly which pages come back. */
module FrontmatterPages {
  import opened Wrappers
  import opened Text
  import opened Frontmatter
  import opened FrontmatterRoundTrip

  // ----- The body -----

  lemma {:induction false} DropCrOfLine(line: string, rest: string)
    requires forall i | 0 <= i < |line| :: line[i] != '\n'
    ensures DropCrBeforeLf(line + "\n" + rest) == StripCr(line) + "\n" + DropCrBeforeLf(rest)
    decreases |line|
  {
    var s := line + "\n" + rest;
    if line == "" {
      assert s == "\n" + rest && s[1..] == rest;
    } else {
      var tail := line[1..];
      assert s[1..] == tail + "\n" + rest;
      DropCrOfLine(tail, rest);
      if |line| == 1 {
        assert tail == "";
      } else {
        StripCrOfTail(line);
      }
    }
  }

  lemma StripCrOfTail(line: string)
    requires |line| > 1
    ensures StripCr(line) == [line[0]] + StripCr(line[1..])
  {
  }

  lemma {:induction false} DropCrOfLastLine(line: string)
    requires forall i | 0 <= i < |line| :: line[i] != '\n'
    ensures DropCrBeforeLf(line) == line
  {
    if line != "" {
      DropCrOfLastLine(line[1..]);
    }
  }

  lemma {:induction false} JoinOfSplit(s: string)
    ensures SplitLines(s) != [] && Join(SplitLines(s)) == DropCrBeforeLf(s)
    decreases |s|
  {
    var n := Span(s, c => c != '\n');
    if n == |s| {
      DropCrOfLastLine(s);
    } else {
      JoinOfSplit(s[n + 1..]);
      DropCrOfLine(s[..n], s[n + 1..]);
      CutAt(s, n);
      JoinFirst(StripCr(s[..n]), SplitLines(s[n + 1..]));
    }
  }

  lemma JoinFirst(line: string, lines: seq<string>)
    requires lines != []
    ensures Join([line] + lines) == line + "\n" + Join(lines)
  {
    assert ([line] + lines)[1..] == lines;
  }

  predicate HasCrLf(s: string) {
    exists i | 0 <= i < |s| - 1 :: s[i] == '\r' && s[i + 1] == '\n'
  }

  lemma {:induction false} DropCrExactly(s: string)
    ensures |DropCrBeforeLf(s)| <= |s|
    ensures DropCrBeforeLf(s) == s <==> |DropCrBeforeLf(s)| == |s|
    ensures DropCrBeforeLf(s) == s <==> !HasCrLf(s)
  {
    if s != "" {
      DropCrExactly(s[1..]);
      if s[0] == '\r' && |s| >= 2 && s[1] == '\n' {
        assert HasCrLf(s) by { assert s[0] == '\r' && s[0 + 1] == '\n'; }
      } else {
        assert s == [s[0]] + s[1..];
        HasCrLfLater(s);
      }
    }
  }

  lemma HasCrLfLater(s: string)
    requires s != "" && !(s[0] == '\r' && |s| >= 2 && s[1] == '\n')
    ensures HasCrLf(s) <==> HasCrLf(s[1..])
  {
    var t := s[1..];
    if i :| 0 <= i < |s| - 1 && s[i] == '\r' && s[i + 1] == '\n' {
      assert t[i - 1] == '\r' && t[i - 1 + 1] == '\n';
    }
    if i :| 0 <= i < |t| - 1 && t[i] == '\r' && t[i + 1] == '\n' {
      assert s[i + 1] == '\r' && s[i + 1 + 1] == '\n';
    }
  }

  /** The bodies that come back: no CRLF anywhere and no line break at the start. */
  predicate PlainBody(body: string) {
    !HasCrLf(body) && (body == "" || body[0] != '\n')
  }

  lemma BodyComesBackExactly(body: string)
    ensures DropNewline(DropCrBeforeLf(body)) == body <==> PlainBody(body)
  {
    DropCrExactly(body);
  }

  // ----- Forward: good pages -----

  lemma CloseAfter(lines: seq<string>, fields: seq<string>, rest: seq<string>)
    requires lines == [FENCE] + fields + [FENCE] + rest && AllInner(fields)
    ensures BeforeFence(lines[1..]) == |fields| && lines[1..|fields| + 1] == fields && lines[|fields| + 2..] == rest
  {
    assert IsFence(FENCE);
    forall i | 1 <= i < |fields| + 1 ensures !IsFence(lines[i]) {
      assert lines[i] == fields[i - 1] && Inner(fields[i - 1]);
    }
    FenceIsAt(lines, |fields| + 1);
  }

  /** The fence that closes a page is the first fenced line after the fields. */
  lemma ParseBetween(text: string, fields: seq<string>, body: string)
    requires SplitLines(text) == [FENCE] + fields + [FENCE] + SplitLines(body)
    requires AllInner(fields) && DropBom(text) == text
    ensures Parse(text)
            == Page(ParseLines(ParseState(map[], None), fields).meta, DropNewline(DropCrBeforeLf(body)))
  {
    var lines := SplitLines(text);
    JoinOfSplit(body);
    CloseAfter(lines, fields, SplitLines(body));
    assert lines[0] == FENCE && IsFence(FENCE);
  }

  lemma InnerIsWhole(line: string)
    requires !HasTerminator(line)
    ensures WholeLine(line)
  {
    forall i | 0 <= i < |line| ensures line[i] != '\n' && line[i] != '\r' {
      assert !IsTerminator(line[i]);
    }
  }

  lemma FencedAreWhole(fields: seq<string>)
    requires AllInner(fields)
    ensures forall i | 0 <= i < |fields| + 2 :: WholeLine(([FENCE] + fields + [FENCE])[i])
  {
    var lines := [FENCE] + fields + [FENCE];
    forall i | 0 <= i < |lines| ensures WholeLine(lines[i]) {
      if 1 <= i <= |fields| {
        assert lines[i] == fields[i - 1] && Inner(fields[i - 1]);
        InnerIsWhole(lines[i]);
      }
    }
  }

  lemma RenderedText(entries: seq<Entry>, body: string, letter: char -> bool)
    ensures Render(entries, body, letter) == Glue([FENCE] + FieldLines(entries, letter) + [FENCE], body)
    ensures DropBom(Render(entries, body, letter)) == Render(entries, body, letter)
  {
    var lines := [FENCE] + FieldLines(entries, letter) + [FENCE];
    GlueOfJoin(lines, body);
    assert lines[0] == FENCE;
  }

  /**
   * A page with good properties parses back to those properties, empty values dropped and numbers
   * as text; the body loses the CR of each CRLF and then one leading line break.
   */
  lemma GoodPageBack(entries: seq<Entry>, body: string, letter: char -> bool)
    requires Letters(letter) && forall i | 0 <= i < |entries| :: GoodEntry(entries[i], letter)
    ensures Parse(Render(entries, body, letter)) == Page(Normal(entries), DropNewline(DropCrBeforeLf(body)))
  {
    var fields := FieldLines(entries, letter);
    FieldsBack(entries, letter);
    RenderedText(entries, body, letter);
    FencedAreWhole(fields);
    SplitOffAll([FENCE] + fields + [FENCE], body);
    ParseBetween(Render(entries, body, letter), fields, body);
  }

  /** With distinct keys the result has exactly the kept properties, each under its own key. */
  lemma {:induction false} NormalIsExact(entries: seq<Entry>)
    requires DistinctKeys(entries)
    ensures forall i | 0 <= i < |entries| && IsKept(entries[i]) ::
              entries[i].key in Normal(entries) && Normal(entries)[entries[i].key] == Back(entries[i])
    ensures forall k | k in Normal(entries) ::
              exists i | 0 <= i < |entries| :: IsKept(entries[i]) && entries[i].key == k
  {
    if entries != [] {
      var before := entries[..|entries| - 1];
      NormalIsExact(before);
      forall k | k in Normal(entries)
        ensures exists i | 0 <= i < |entries| :: IsKept(entries[i]) && entries[i].key == k
      {
        if k in Normal(before) {
          var i :| 0 <= i < |before| && IsKept(before[i]) && before[i].key == k;
          assert entries[i] == before[i];
        } else {
          assert entries[|entries| - 1].key == k;
        }
      }
    }
  }

  // ----- Backward: keys -----

  ghost predicate PlainKeys(meta: Meta) {
    forall k | k in meta :: WellFormedKey(k) && k != "__proto__"
  }

  lemma LineKeepsPlainKeys(state: ParseState, line: string)
    requires PlainKeys(state.meta)
    ensures PlainKeys(ParseLine(state, line).meta)
  {
    if PairOf(line).Some? {
      var n := Span(line, KeyTail);
      assert line[..n] == PairOf(line).value.0;
    }
  }

  lemma {:induction false} LinesKeepPlainKeys(state: ParseState, lines: seq<string>)
    requires PlainKeys(state.meta)
    ensures PlainKeys(ParseLines(state, lines).meta)
    decreases |lines|
  {
    if lines != [] {
      LineKeepsPlainKeys(state, lines[0]);
      LinesKeepPlainKeys(ParseLine(state, lines[0]), lines[1..]);
    }
  }

  /** No text at all yields another kind of key. */
  lemma KeysArePlain(text: string)
    ensures PlainKeys(Parse(text).meta)
  {
    var lines := SplitLines(DropBom(text));
    if lines != [] {
      var n := BeforeFence(lines[1..]);
      if n < |lines| - 1 {
        LinesKeepPlainKeys(ParseState(map[], None), lines[1..n + 1]);
      }
    }
  }

  // ----- Backward: values -----

  predicate AllRenderable(value: Parsed, letter: char -> bool) {
    match value
    case Scalar(t) => Renderable(t, letter)
    case Items(items) => forall i | 0 <= i < |items| :: Renderable(items[i], letter)
  }

  ghost predicate Known(meta: Meta, letter: char -> bool) {
    forall k | k in meta :: AllRenderable(meta[k], letter)
  }

  /** A line that adds only renderable values, whatever came before it. */
  ghost predicate Keeps(line: string, letter: char -> bool) {
    forall state: ParseState :: Known(state.meta, letter) ==> Known(ParseLine(state, line).meta, letter)
  }

  ghost predicate AllKeep(lines: seq<string>, letter: char -> bool) {
    forall i | 0 <= i < |lines| :: Keeps(lines[i], letter)
  }

  lemma {:induction false} LinesKeepKnown(state: ParseState, lines: seq<string>, letter: char -> bool)
    requires Known(state.meta, letter) && AllKeep(lines, letter)
    ensures Known(ParseLines(state, lines).meta, letter)
    decreases |lines|
  {
    if lines != [] {
      assert Keeps(lines[0], letter);
      LinesKeepKnown(ParseLine(state, lines[0]), lines[1..], letter);
    }
  }

  /** Nothing in the line starts a quoted string or an inline list. */
  predicate Bare(line: string) {
    forall i | 0 <= i < |line| :: line[i] != '\"' && line[i] != '\'' && line[i] != '['
  }

  lemma {:induction false} TrimStartIsSuffix(s: string)
    ensures |TrimStart(s)| <= |s| && TrimStart(s) == s[|s| - |TrimStart(s)|..]
  {
    if s != "" && IsSpace(s[0]) {
      TrimStartIsSuffix(s[1..]);
    }
  }

  lemma {:induction false} TrimEndIsPrefix(s: string)
    ensures TrimEnd(s) <= s
  {
    if s != "" && IsSpace(s[|s| - 1]) {
      TrimEndIsPrefix(s[..|s| - 1]);
    }
  }

  lemma BareValue(value: string, letter: char -> bool)
    requires Bare(value) && !HasTerminator(value)
    ensures Renderable(ParseScalar(value), letter)
    ensures Trim(value) != "" ==> Trim(value)[0] != '['
  {
    TrimStartIsSuffix(value);
    TrimEndIsPrefix(TrimStart(value));
    var t := Trim(value);
    var k := |value| - |TrimStart(value)|;
    forall i | 0 <= i < |t| ensures t[i] == value[k + i] && !IsTerminator(t[i]) {
    }
  }

  /** Whatever the line's item or pair holds reads as a renderable string. */
  ghost predicate ReadsWell(line: string, letter: char -> bool) {
    && (ItemOf(line).Some? ==> Renderable(ParseScalar(ItemOf(line).value), letter))
    && (PairOf(line).Some? ==>
          var rest := PairOf(line).value.1;
          Renderable(ParseScalar(rest), letter) && (Trim(rest) != "" ==> Trim(rest)[0] != '['))
  }

  lemma PushKeepsKnown(meta: Meta, key: string, item: string, letter: char -> bool)
    requires Known(meta, letter) && Renderable(item, letter)
    ensures Known(Push(meta, key, item), letter)
  {
    if key in meta && meta[key].Items? {
      var items := meta[key].items + [item];
      assert AllRenderable(meta[key], letter);
      forall i | 0 <= i < |items| ensures Renderable(items[i], letter) {
      }
    }
  }

  lemma ReadingKeeps(state: ParseState, line: string, letter: char -> bool)
    requires ReadsWell(line, letter) && Known(state.meta, letter)
    ensures Known(ParseLine(state, line).meta, letter)
  {
    if Skipped(line) {
    } else if ItemOf(line).Some? && state.listKey.Some? {
      PushKeepsKnown(state.meta, state.listKey.value, ParseScalar(ItemOf(line).value), letter);
    } else if PairOf(line).Some? {
      PairKeeps(state, line, letter);
    }
  }

  lemma PairKeeps(state: ParseState, line: string, letter: char -> bool)
    requires ReadsWell(line, letter) && Known(state.meta, letter) && PairOf(line).Some?
    requires !(ItemOf(line).Some? && state.listKey.Some?) && !Skipped(line)
    ensures Known(ParseLine(state, line).meta, letter)
  {
  }

  lemma LineKeeps(line: string, letter: char -> bool)
    requires ReadsWell(line, letter)
    ensures Keeps(line, letter)
  {
    forall state: ParseState | Known(state.meta, letter) ensures Known(ParseLine(state, line).meta, letter) {
      ReadingKeeps(state, line, letter);
    }
  }

  lemma BareItem(line: string, letter: char -> bool)
    requires Bare(line) && ItemOf(line).Some?
    ensures Renderable(ParseScalar(ItemOf(line).value), letter)
  {
    TrimStartIsSuffix(line);
    TrimStartIsSuffix(TrimStart(line)[1..]);
    BareValue(ItemOf(line).value, letter);
  }

  lemma BareLineKeeps(line: string, letter: char -> bool)
    requires Bare(line)
    ensures Keeps(line, letter)
  {
    if ItemOf(line).Some? {
      BareItem(line, letter);
    }
    if PairOf(line).Some? {
      var n := Span(line, KeyTail);
      TrimStartIsSuffix(line[n..]);
      TrimStartIsSuffix(TrimStart(line[n..])[1..]);
      BareValue(PairOf(line).value.1, letter);
    }
    LineKeeps(line, letter);
  }

  /** A string that is quoted and has a line or paragraph separator in it: no pattern matches its line. */
  lemma {:induction false} EscapeKeepsSeparators(s: string, i: nat)
    requires i < |s| && (s[i] as int == 0x2028 || s[i] as int == 0x2029)
    ensures HasTerminator(Escape(s))
  {
    if i == 0 {
      assert IsTerminator(Escape(s)[0]);
    } else {
      EscapeKeepsSeparators(s[1..], i - 1);
      var j :| 0 <= j < |Escape(s[1..])| && IsTerminator(Escape(s[1..])[j]);
      assert IsTerminator(Escape(s)[|EscapeChar(s[0])| + j]);
    }
  }

  lemma QuoteShape(v: string, letter: char -> bool)
    requires !Safe(v, letter)
    ensures HasTerminator(Quote(v)) <==> !Renderable(v, letter)
  {
    QuoteTerminators(v);
    if Renderable(v, letter) {
      EscapeHasNoTerminator(v);
    } else {
      var i :| 0 <= i < |v| && (v[i] as int == 0x2028 || v[i] as int == 0x2029);
      EscapeKeepsSeparators(v, i);
    }
  }

  lemma QuotedFieldKeeps(key: string, v: string, letter: char -> bool)
    requires WellFormedKey(key) && !Safe(v, letter)
    ensures Keeps(key + ": " + Quote(v), letter)
  {
    var q := Quote(v);
    QuoteShape(v, letter);
    assert key + ": " + q == key + ":" + (" " + q);
    PairOfKeyLine(key, " " + q);
    TrimStartOf(" ", q);
    QuoteRoundTrip(v);
    TrimOfTight(q);
    LineKeeps(key + ": " + q, letter);
  }

  lemma QuotedItemKeeps(v: string, letter: char -> bool)
    requires !Safe(v, letter)
    ensures Keeps("  - " + Quote(v), letter)
  {
    var q := Quote(v);
    QuoteShape(v, letter);
    QuoteRoundTrip(v);
    ItemOfQuoted(v);
    LineKeeps("  - " + q, letter);
  }

  lemma ItemOfQuoted(v: string)
    ensures ItemOf("  - " + Quote(v)) == if HasTerminator(Quote(v)) then None else Some(Quote(v))
  {
    var q := Quote(v);
    assert "  - " + q == "  " + ("- " + q);
    TrimStartOf("  ", "- " + q);
    assert ("- " + q)[1..] == " " + q;
    TrimStartOf(" ", q);
  }

  // ----- Backward: pages -----

  /** Every line again split at its own line breaks. */
  function SplitEach(lines: seq<string>): seq<string> {
    if lines == [] then [] else SplitLines(lines[0]) + SplitEach(lines[1..])
  }

  lemma SplitFirst(head: string, rest: string)
    requires forall i | 0 <= i < |head| :: head[i] != '\n'
    ensures SplitLines(head + "\n" + rest) == [StripCr(head)] + SplitLines(rest)
  {
    Around(head, rest);
    SpanOf(head, "\n" + rest, c => c != '\n');
  }

  lemma {:induction false} SplitAfter(line: string, rest: string)
    requires StripCr(line) == line
    ensures SplitLines(line + "\n" + rest) == SplitLines(line) + SplitLines(rest)
    decreases |line|
  {
    var n := Span(line, c => c != '\n');
    if n == |line| {
      SplitFirst(line, rest);
    } else {
      var head, tail := line[..n], line[n + 1..];
      SplitAfter(tail, rest);
      SplitFirst(head, tail + "\n" + rest);
      BreakAt(line, n, rest);
      Assoc([StripCr(head)], SplitLines(tail), SplitLines(rest));
    }
  }

  lemma BreakAt(line: string, n: nat, rest: string)
    requires n < |line| && line[n] == '\n'
    ensures line + "\n" + rest == line[..n] + "\n" + (line[n + 1..] + "\n" + rest)
  {
  }

  lemma {:induction false} SplitOfGlue(lines: seq<string>, rest: string)
    requires forall i | 0 <= i < |lines| :: StripCr(lines[i]) == lines[i]
    ensures SplitLines(Glue(lines, rest)) == SplitEach(lines) + SplitLines(rest)
  {
    if lines != [] {
      SplitAfter(lines[0], Glue(lines[1..], rest));
      SplitOfGlue(lines[1..], rest);
      Assoc(SplitLines(lines[0]), SplitEach(lines[1..]), SplitLines(rest));
    }
  }

  lemma {:induction false} SplitEachConcat(a: seq<string>, b: seq<string>)
    ensures SplitEach(a + b) == SplitEach(a) + SplitEach(b)
  {
    if a == [] {
      assert a + b == b;
    } else {
      assert (a + b)[1..] == a[1..] + b;
      SplitEachConcat(a[1..], b);
      Assoc(SplitLines(a[0]), SplitEach(a[1..]), SplitEach(b));
    }
  }

  lemma {:induction false} PiecesAreBare(s: string)
    requires Bare(s)
    ensures forall i | 0 <= i < |SplitLines(s)| :: Bare(SplitLines(s)[i])
    decreases |s|
  {
    var n := Span(s, c => c != '\n');
    if n < |s| {
      PiecesAreBare(s[n + 1..]);
    }
  }

  /** A rendered line: it does not end in CR, and whatever pieces it splits into add only renderable values. */
  ghost predicate GoodLine(line: string, letter: char -> bool) {
    StripCr(line) == line && AllKeep(SplitLines(line), letter)
  }

  ghost predicate GoodLines(lines: seq<string>, letter: char -> bool) {
    forall i | 0 <= i < |lines| :: GoodLine(lines[i], letter)
  }

  lemma BareIsGood(line: string, letter: char -> bool)
    requires Bare(line) && StripCr(line) == line
    ensures GoodLine(line, letter)
  {
    PiecesAreBare(line);
    forall i | 0 <= i < |SplitLines(line)| ensures Keeps(SplitLines(line)[i], letter) {
      BareLineKeeps(SplitLines(line)[i], letter);
    }
  }

  lemma SafeIsBare(s: string, letter: char -> bool)
    requires Letters(letter) && Safe(s, letter)
    ensures Bare(s) && !IsSpace(s[|s| - 1])
  {
  }

  lemma {:induction false} EscapeHasNoBreak(s: string)
    ensures forall i | 0 <= i < |Escape(s)| :: Escape(s)[i] != '\n' && Escape(s)[i] != '\r'
  {
    if s != "" {
      EscapeHasNoBreak(s[1..]);
      var head, rest := EscapeChar(s[0]), Escape(s[1..]);
      EscapeCharHasNoBreak(s[0]);
      forall i | 0 <= i < |Escape(s)| ensures Escape(s)[i] != '\n' && Escape(s)[i] != '\r' {
        assert Escape(s)[i] == if i < |head| then head[i] else rest[i - |head|];
      }
    }
  }

  lemma EscapeCharHasNoBreak(c: char)
    ensures forall i | 0 <= i < |EscapeChar(c)| :: EscapeChar(c)[i] != '\n' && EscapeChar(c)[i] != '\r'
  {
    if c as int < 0x20 {
      HexIsPlain(c as int / 16);
      HexIsPlain(c as int % 16);
    }
  }

  lemma QuoteHasNoBreak(v: string)
    ensures forall i | 0 <= i < |Quote(v)| :: Quote(v)[i] != '\n' && Quote(v)[i] != '\r'
  {
    EscapeHasNoBreak(v);
    var q := Quote(v);
    assert forall i | 0 < i < |q| - 1 :: q[i] == Escape(v)[i - 1];
  }

  /** No line break in the prefix: then a quoted string behind it stays on the same line. */
  lemma QuotedIsOneLine(prefix: string, v: string)
    requires forall i | 0 <= i < |prefix| :: prefix[i] != '\n'
    ensures SplitLines(prefix + Quote(v)) == [prefix + Quote(v)] && StripCr(prefix + Quote(v)) == prefix + Quote(v)
  {
    QuoteHasNoBreak(v);
    NoBreakIsOneLine(prefix, Quote(v));
  }

  lemma NoBreakIsOneLine(a: string, b: string)
    requires b != "" && b[|b| - 1] != '\r'
    requires (forall i | 0 <= i < |a| :: a[i] != '\n') && (forall i | 0 <= i < |b| :: b[i] != '\n')
    ensures SplitLines(a + b) == [a + b] && StripCr(a + b) == a + b
  {
  }

  lemma FieldIsGood(key: string, v: string, letter: char -> bool)
    requires Letters(letter) && WellFormedKey(key)
    ensures GoodLine(key + ": " + RenderScalar(v, letter), letter)
  {
    if Safe(v, letter) {
      SafeIsBare(v, letter);
      BareIsGood(key + ": " + v, letter);
    } else {
      assert key + ": " + Quote(v) == (key + ": ") + Quote(v);
      QuotedIsOneLine(key + ": ", v);
      QuotedFieldKeeps(key, v, letter);
    }
  }

  lemma ItemIsGood(v: string, letter: char -> bool)
    requires Letters(letter)
    ensures GoodLine("  - " + RenderScalar(v, letter), letter)
  {
    if Safe(v, letter) {
      SafeIsBare(v, letter);
      BareIsGood("  - " + v, letter);
    } else {
      QuotedIsOneLine("  - ", v);
      QuotedItemKeeps(v, letter);
    }
  }

  lemma {:induction false} ItemsAreGood(items: seq<string>, letter: char -> bool)
    requires Letters(letter)
    ensures GoodLines(ItemLines(items, letter), letter)
  {
    if items != [] {
      ItemIsGood(items[0], letter);
      ItemsAreGood(items[1..], letter);
    }
  }

  predicate PlainEntry(e: Entry) {
    IsKept(e) ==> WellFormedKey(e.key) && (e.value.Num? ==> Numeral(e.value.numeral))
  }

  lemma BareConcat(a: string, b: string)
    requires Bare(b) && forall i | 0 <= i < |a| :: KeyTail(a[i])
    ensures Bare(a + b)
  {
  }

  lemma BareField(key: string, n: string)
    requires Numeral(n) && forall i | 0 <= i < |key| :: KeyTail(key[i])
    ensures Bare(key + ": " + n) && StripCr(key + ": " + n) == key + ": " + n
  {
    assert Bare(": " + n);
    BareConcat(key, ": " + n);
    assert key + ": " + n == key + (": " + n);
  }

  lemma EntryIsGood(e: Entry, letter: char -> bool)
    requires Letters(letter) && PlainEntry(e)
    ensures GoodLines(EntryLines(e, letter), letter)
  {
    if IsKept(e) {
      match e.value
      case Str(s) => FieldIsGood(e.key, s, letter);
      case Num(n) =>
        BareField(e.key, n);
        BareIsGood(e.key + ": " + n, letter);
      case List(items) =>
        BareConcat(e.key, ":");
        BareIsGood(e.key + ":", letter);
        ItemsAreGood(items, letter);
    }
  }

  lemma {:induction false} FieldsAreGood(entries: seq<Entry>, letter: char -> bool)
    requires Letters(letter) && forall i | 0 <= i < |entries| :: PlainEntry(entries[i])
    ensures GoodLines(FieldLines(entries, letter), letter)
  {
    if entries != [] {
      EntryIsGood(entries[0], letter);
      FieldsAreGood(entries[1..], letter);
    }
  }

  lemma {:induction false} PiecesKeep(lines: seq<string>, letter: char -> bool)
    requires GoodLines(lines, letter)
    ensures AllKeep(SplitEach(lines), letter)
  {
    if lines != [] {
      assert GoodLine(lines[0], letter);
      PiecesKeep(lines[1..], letter);
    }
  }

  /** Whatever the values were, a rendered page yields only renderable ones. */
  lemma OnlyRenderableComesBack(entries: seq<Entry>, body: string, letter: char -> bool)
    requires Letters(letter) && forall i | 0 <= i < |entries| :: PlainEntry(entries[i])
    ensures Known(Parse(Render(entries, body, letter)).meta, letter)
  {
    var fields := FieldLines(entries, letter);
    FieldsAreGood(entries, letter);
    PiecesKeep(fields, letter);
    SplitPage(entries, body, letter);
    RenderedText(entries, body, letter);
    KnownBetween(Render(entries, body, letter), SplitEach(fields), SplitLines(body), letter);
  }

  lemma KnownBetween(text: string, pieces: seq<string>, rest: seq<string>, letter: char -> bool)
    requires SplitLines(text) == [FENCE] + pieces + [FENCE] + rest && DropBom(text) == text
    requires AllKeep(pieces, letter)
    ensures Known(Parse(text).meta, letter)
  {
    var lines := SplitLines(text);
    var n := BeforeFence(lines[1..]);
    FenceWithin(lines, pieces, rest);
    LinesKeepKnown(ParseState(map[], None), pieces[..n], letter);
  }

  /** The fields end at the closing fence at the latest. */
  lemma FenceWithin(lines: seq<string>, pieces: seq<string>, rest: seq<string>)
    requires lines == [FENCE] + pieces + [FENCE] + rest
    ensures var n := BeforeFence(lines[1..]); n <= |pieces| && lines[1..n + 1] == pieces[..n]
  {
    assert lines[1..][|pieces|] == FENCE && IsFence(FENCE);
  }

  lemma SplitPage(entries: seq<Entry>, body: string, letter: char -> bool)
    requires Letters(letter) && forall i | 0 <= i < |entries| :: PlainEntry(entries[i])
    ensures SplitLines(Render(entries, body, letter))
            == [FENCE] + SplitEach(FieldLines(entries, letter)) + [FENCE] + SplitLines(body)
  {
    var fields := FieldLines(entries, letter);
    FieldsAreGood(entries, letter);
    RenderedText(entries, body, letter);
    SplitOfGlue([FENCE] + fields + [FENCE], body);
    SplitEachConcat([FENCE] + fields, [FENCE]);
    SplitEachConcat([FENCE], fields);
    FenceIsOneLine();
  }

  lemma FenceIsOneLine()
    ensures SplitEach([FENCE]) == [FENCE]
  {
    NoBreakIsOneLine("", FENCE);
  }

  /** Everything a page must satisfy to come back. */
  predicate GoodEntries(entries: seq<Entry>, letter: char -> bool) {
    forall i | 0 <= i < |entries| :: GoodEntry(entries[i], letter)
  }

  /** String() of every number is a numeral. */
  predicate Numerals(entries: seq<Entry>) {
    forall i | 0 <= i < |entries| && entries[i].value.Num? :: Numeral(entries[i].value.numeral)
  }

  /**
   * A page comes back, numbers as text and without empty values, exactly if every kept property
   * is good and the body is plain.
   */
  lemma PageComesBackExactly(entries: seq<Entry>, body: string, letter: char -> bool)
    requires Letters(letter) && DistinctKeys(entries) && Numerals(entries)
    ensures Parse(Render(entries, body, letter)) == Page(Normal(entries), body)
            <==> GoodEntries(entries, letter) && PlainBody(body)
  {
    var page := Parse(Render(entries, body, letter));
    BodyComesBackExactly(body);
    if GoodEntries(entries, letter) {
      GoodPageBack(entries, body, letter);
    }
    if page == Page(Normal(entries), body) {
      NormalIsExact(entries);
      KeysArePlain(Render(entries, body, letter));
      OnlyRenderableComesBack(entries, body, letter);
      forall i | 0 <= i < |entries| && IsKept(entries[i]) ensures GoodEntry(entries[i], letter) {
        assert entries[i].key in page.meta && page.meta[entries[i].key] == Back(entries[i]);
        assert AllRenderable(Back(entries[i]), letter);
      }
    }
  }

  lemma SingleComesBackExactly(e: Entry, letter: char -> bool)
    requires Letters(letter) && IsKept(e) && (e.value.Num? ==> Numeral(e.value.numeral))
    ensures Parse(Render([e], "", letter)) == Page(map[e.key := Back(e)], "") <==> GoodEntry(e, letter)
  {
    PageComesBackExactly([e], "", letter);
    assert [e][..0] == [];
    assert Normal([e]) == map[e.key := Back(e)];
  }

  /** Three small pages that do not come back: a line break printed raw, a lost key, a lost body line. */
  lemma LineBreakIsLost(letter: char -> bool)
    requires Letters(letter) && letter('a') && letter('b')
    ensures Parse(Render([Entry("k", Str("a\nb"))], "", letter)) != Page(map["k" := Scalar("a\nb")], "")
  {
    SingleComesBackExactly(Entry("k", Str("a\nb")), letter);
    assert IsTerminator("a\nb"[1]);
  }

  lemma ProtoIsLost(letter: char -> bool)
    requires Letters(letter)
    ensures Parse(Render([Entry("__proto__", Num("1"))], "", letter)) != Page(map["__proto__" := Scalar("1")], "")
  {
    SingleComesBackExactly(Entry("__proto__", Num("1")), letter);
  }

  lemma FirstBlankLineIsLost(letter: char -> bool)
    requires Letters(letter)
    ensures Parse(Render([], "\nx", letter)) != Page(map[], "\nx")
  {
    PageComesBackExactly([], "\nx", letter);
  }
}
