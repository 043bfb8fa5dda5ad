/** What pages written by hand read as: inline lists, single quotes, escapes, blanks. */
module FrontmatterInput {
  import opened Wrappers
  import opened Text
  import opened Frontmatter
  import opened FrontmatterRoundTrip

  // ----- Inline lists -----

  /** An item that needs no quotes in an inline list. */
  predicate PlainItem(item: string) {
    && item != "" && !IsSpace(item[0]) && !IsSpace(item[|item| - 1]) && item[0] != '\"' && item[0] != '\''
    && forall i | 0 <= i < |item| :: item[i] != ',' && !IsTerminator(item[i])
  }

  predicate PlainItems(items: seq<string>) {
    forall i | 0 <= i < |items| :: PlainItem(items[i])
  }

  /** Further items, each behind a comma and a blank. */
  function More(items: seq<string>): string {
    if items == [] then "" else ", " + items[0] + More(items[1..])
  }

  /** [i1, i2, ...] */
  function Brackets(items: seq<string>): string {
    "[" + (if items == [] then "" else items[0] + More(items[1..])) + "]"
  }

  lemma PlainItemReads(blank: string, item: string)
    requires PlainItem(item) && (blank == "" || blank == " ")
    ensures ParseScalar(blank + item) == item
  {
    TrimStartOf(blank, item);
    TrimOfTight(item);
  }

  lemma SplitFirstComma(a: string, b: string)
    requires forall i | 0 <= i < |a| :: a[i] != ','
    ensures SplitCommas(a) == [a] && SplitCommas(a + "," + b) == [a] + SplitCommas(b)
  {
    var s := a + "," + b;
    SpanOf(a, "," + b, c => c != ',');
    SpanOf(a, "", c => c != ',');
    assert s == a + ("," + b) && a + "" == a;
    assert s[..|a|] == a && s[|a| + 1..] == b;
  }

  lemma CommaFirst(part: string, more: seq<string>)
    requires more != []
    ensures part + More(more) == part + "," + (" " + more[0] + More(more[1..]))
  {
    var rest := " " + more[0] + More(more[1..]);
    assert More(more) == "," + rest by {
      assert ", " == "," + " ";
      Assoc(",", " ", more[0]);
      Assoc(",", " " + more[0], More(more[1..]));
    }
    Assoc(part, ",", rest);
  }

  lemma {:induction false} ItemsOfSplit(blank: string, item: string, more: seq<string>)
    requires PlainItem(item) && PlainItems(more) && (blank == "" || blank == " ")
    ensures NonEmptyScalars(SplitCommas(blank + item + More(more))) == [item] + more
    decreases |more|
  {
    PlainItemReads(blank, item);
    if more == [] {
      LastItem(blank + item);
      assert blank + item + More(more) == blank + item && [item] + more == [item];
    } else {
      var rest := " " + more[0] + More(more[1..]);
      CommaFirst(blank + item, more);
      SplitFirstComma(blank + item, rest);
      FirstScalar(blank + item, SplitCommas(rest));
      ItemsOfSplit(" ", more[0], more[1..]);
      HeadAndTail(more);
    }
  }

  lemma HeadAndTail(items: seq<string>)
    requires items != []
    ensures [items[0]] + items[1..] == items
  {
  }

  lemma LastItem(part: string)
    requires ParseScalar(part) != "" && forall i | 0 <= i < |part| :: part[i] != ','
    ensures NonEmptyScalars(SplitCommas(part)) == [ParseScalar(part)]
  {
    SplitFirstComma(part, "");
    OneScalar(part);
  }

  lemma OneScalar(part: string)
    requires ParseScalar(part) != ""
    ensures NonEmptyScalars([part]) == [ParseScalar(part)]
  {
    assert [part][1..] == [];
  }

  lemma FirstScalar(part: string, parts: seq<string>)
    requires ParseScalar(part) != ""
    ensures NonEmptyScalars([part] + parts) == [ParseScalar(part)] + NonEmptyScalars(parts)
  {
    assert ([part] + parts)[1..] == parts;
  }

  lemma {:induction false} MoreIsPlain(items: seq<string>)
    requires PlainItems(items)
    ensures !HasTerminator(More(items))
  {
    if items != [] {
      MoreIsPlain(items[1..]);
      var a, b := ", " + items[0], More(items[1..]);
      assert More(items) == a + b;
      forall i | 0 <= i < |a + b| ensures !IsTerminator((a + b)[i]) {
        assert (a + b)[i] == if i < |a| then a[i] else b[i - |a|];
      }
    }
  }

  lemma BracketsArePrinted(items: seq<string>)
    requires PlainItems(items)
    ensures var r := Brackets(items);
            Trim(r) == r && !HasTerminator(r) && |r| >= 2 && r[0] == '[' && r[|r| - 1] == ']' && !IsSpace(r[0])
  {
    var r := Brackets(items);
    TrimOfTight(r);
    if items != [] {
      MoreIsPlain(items[1..]);
      var a, b := "[" + items[0], More(items[1..]) + "]";
      assert r == a + b;
      forall i | 0 <= i < |r| ensures !IsTerminator(r[i]) {
        assert r[i] == if i < |a| then a[i] else b[i - |a|];
      }
    }
  }

  lemma InlineListReads(items: seq<string>)
    requires PlainItems(items)
    ensures |Trim(Brackets(items))| >= 2 && ParseInlineList(Brackets(items)) == items
  {
    BracketsArePrinted(items);
    if items == [] {
      InnerOf("");
    } else {
      var inner := items[0] + More(items[1..]);
      InnerOf(inner);
      assert "" + items[0] == items[0];
      ItemsOfSplit("", items[0], items[1..]);
      TrimKeepsHead(inner);
      HeadAndTail(items);
    }
  }

  lemma InnerOf(inner: string)
    ensures var r := "[" + inner + "]"; r[1..|r| - 1] == inner
  {
  }

  /** The line `key: [i1, i2, ...]` sets the key to exactly these items and closes an open list. */
  lemma InlineListLine(state: ParseState, key: string, items: seq<string>)
    requires WellFormedKey(key) && PlainItems(items)
    ensures ParseLine(state, key + ": " + Brackets(items)) == ParseState(Assign(state.meta, key, Items(items)), None)
  {
    var r := Brackets(items);
    BracketsArePrinted(items);
    InlineListReads(items);
    KeyAndScalar(key, r);
    PairOfKeyLine(key, " " + r);
    TrimStartOf(" ", r);
  }

  // ----- Single quotes -----

  function Double(s: string): string {
    if s == "" then "" else (if s[0] == '\'' then "''" else [s[0]]) + Double(s[1..])
  }

  lemma UndoubleOne(c: char, rest: string)
    ensures Undouble((if c == '\'' then "''" else [c]) + rest) == [c] + Undouble(rest)
  {
    if c == '\'' {
      assert ("''" + rest)[2..] == rest;
    } else {
      assert ([c] + rest)[1..] == rest;
    }
  }

  lemma {:induction false} UndoubleOfDouble(s: string)
    ensures Undouble(Double(s)) == s
  {
    if s != "" {
      UndoubleOfDouble(s[1..]);
      UndoubleOne(s[0], Double(s[1..]));
    }
  }

  lemma {:induction false} DoubleIsPlain(s: string)
    requires !HasTerminator(s)
    ensures !HasTerminator(Double(s))
  {
    if s != "" {
      assert !IsTerminator(s[0]) && forall i | 0 <= i < |s| - 1 :: s[1..][i] == s[i + 1];
      DoubleIsPlain(s[1..]);
      var a, b := if s[0] == '\'' then "''" else [s[0]], Double(s[1..]);
      forall i | 0 <= i < |a + b| ensures !IsTerminator((a + b)[i]) {
        assert (a + b)[i] == if i < |a| then a[i] else b[i - |a|];
      }
    }
  }

  lemma SingleQuotedReads(s: string)
    ensures ParseScalar("'" + Double(s) + "'") == s
  {
    var r := "'" + Double(s) + "'";
    TrimOfTight(r);
    assert r[1..|r| - 1] == Double(s);
    UndoubleOfDouble(s);
  }

  /** The line `key: '...'`, with each quote of the text doubled, sets the key to exactly the text. */
  lemma SingleQuotedLine(state: ParseState, key: string, s: string)
    requires WellFormedKey(key) && !HasTerminator(s)
    ensures ParseLine(state, key + ": '" + Double(s) + "'") == ParseState(Assign(state.meta, key, Scalar(s)), None)
  {
    var r := "'" + Double(s) + "'";
    DoubleIsPlain(s);
    assert Printed(r) by {
      forall i | 0 <= i < |r| ensures !IsTerminator(r[i]) {
        assert r[i] == '\'' || r[i] == Double(s)[i - 1];
      }
    }
    SingleQuotedReads(s);
    assert key + ": '" + Double(s) + "'" == key + ": " + r;
    ScalarLine(state, key, r);
  }

  // ----- Blanks, escapes and the byte order mark -----

  /** Blanks before the colon do not matter. */
  lemma BlanksBeforeColon(key: string, blanks: string, tail: string)
    requires WellFormedKey(key) && forall i | 0 <= i < |blanks| :: IsSpace(blanks[i])
    ensures PairOf(key + blanks + ":" + tail) == PairOf(key + ":" + tail)
  {
    var line := key + blanks + ":" + tail;
    var rest := blanks + ":" + tail;
    assert line == key + rest;
    assert rest == blanks + (":" + tail);
    SpanOf(key, rest, KeyTail);
    assert line[..|key|] == key && line[|key|..] == rest;
    TrimStartOf(blanks, ":" + tail);
    assert (":" + tail)[1..] == tail;
    PairOfKeyLine(key, tail);
  }

  /** An item may be indented, and set off from its dash, by any blanks. */
  lemma BlanksAroundDash(indent: string, blanks: string, r: string)
    requires Printed(r) && blanks != ""
    requires forall i | 0 <= i < |indent| :: IsSpace(indent[i])
    requires forall i | 0 <= i < |blanks| :: IsSpace(blanks[i])
    ensures ItemOf(indent + "-" + blanks + r) == Some(r)
  {
    var rest := "-" + blanks + r;
    assert indent + "-" + blanks + r == indent + rest;
    TrimStartOf(indent, rest);
    assert rest[1..] == blanks + r;
    TrimStartOf(blanks, r);
  }

  /** Blank lines and comments, however indented, change nothing. */
  lemma CommentsAreSkipped(state: ParseState, indent: string, comment: string)
    requires (forall i | 0 <= i < |indent| :: IsSpace(indent[i])) && (comment == "" || comment[0] == '#')
    ensures ParseLine(state, indent + comment) == state
  {
    TrimStartOf(indent, comment);
    if comment != "" {
      TrimEndKeepsHead(comment);
    }
  }

  lemma {:induction false} TrimEndOf(s: string, blanks: string)
    requires forall i | 0 <= i < |blanks| :: IsSpace(blanks[i])
    requires s != "" && !IsSpace(s[|s| - 1])
    ensures TrimEnd(s + blanks) == s
  {
    if blanks == "" {
      assert s + blanks == s;
    } else {
      var shorter := blanks[..|blanks| - 1];
      assert (s + blanks)[..|s + blanks| - 1] == s + shorter;
      TrimEndOf(s, shorter);
    }
  }

  /** Three dashes with any blanks around them are a fence. */
  lemma BlanksAroundFence(before: string, after: string)
    requires forall i | 0 <= i < |before| :: IsSpace(before[i])
    requires forall i | 0 <= i < |after| :: IsSpace(after[i])
    ensures IsFence(before + "---" + after)
  {
    assert before + "---" + after == before + ("---" + after);
    TrimStartOf(before, "---" + after);
    TrimEndOf("---", after);
  }

  /** The n lines behind the first hold the properties, then comes a fence, and the rest is the body. */
  ghost predicate IsCut(page: Page, lines: seq<string>, n: nat) {
    && n + 1 < |lines| && IsFence(lines[n + 1]) && (forall i | 1 <= i <= n :: !IsFence(lines[i]))
    && page == Page(ParseLines(ParseState(map[], None), lines[1..n + 1]).meta, DropNewline(Join(lines[n + 2..])))
  }

  /**
   * A page is what stands between a first line that is a fence and the next fence, and behind that;
   * a text without such fences is all body.
   */
  lemma FencesExactly(text: string)
    requires text == "" || text[0] as int != 0xFEFF
    ensures var lines := SplitLines(text);
            if lines != [] && IsFence(lines[0]) && exists n | 1 <= n < |lines| :: IsFence(lines[n])
            then exists n :: IsCut(Parse(text), lines, n)
            else Parse(text) == Page(map[], text)
  {
    var lines := SplitLines(text);
    var page := Parse(text);
    assert DropBom(text) == text;
    if lines != [] && IsFence(lines[0]) {
      var n := BeforeFence(lines[1..]);
      NextFence(lines, n);
      if n < |lines| - 1 {
        assert IsCut(page, lines, n);
      }
    }
  }

  lemma NextFence(lines: seq<string>, n: nat)
    requires lines != [] && n == BeforeFence(lines[1..])
    ensures n < |lines| && (forall i | 1 <= i <= n :: !IsFence(lines[i]))
    ensures n < |lines| - 1 ==> IsFence(lines[n + 1])
    ensures n == |lines| - 1 ==> forall i | 1 <= i < |lines| :: !IsFence(lines[i])
  {
    assert n < |lines| - 1 ==> lines[1..][n] == lines[n + 1];
    forall i | 1 <= i <= n ensures !IsFence(lines[i]) {
      assert lines[i] == lines[1..][i - 1];
    }
  }

  // ----- Characters -----

  lemma KeyCharacters(c: char)
    ensures KeyHead(c) <==> 'A' <= c <= 'Z' || 'a' <= c <= 'z' || c == '_'
    ensures KeyTail(c) <==> 'A' <= c <= 'Z' || 'a' <= c <= 'z' || c == '_' || '0' <= c <= '9' || c == '-'
  {
  }

  lemma SafeCharacters(c: char, letter: char -> bool)
    ensures SafeHead(c, letter) <==> letter(c) || c in "_./@+-"
    ensures SafeTail(c, letter) <==> letter(c) || c in "_./@+-()（），。、" || IsSpace(c)
    ensures IsSpace(c) <==>
            c as int in [9, 10, 11, 12, 13, 0x20, 0xA0, 0x1680, 0x2000, 0x2001, 0x2002, 0x2003, 0x2004, 0x2005, 0x2006,
                         0x2007, 0x2008, 0x2009, 0x200A, 0x2028, 0x2029, 0x202F, 0x205F, 0x3000, 0xFEFF]
  {
  }

  function UpperHex(n: nat): char
    requires n < 16
  {
    "0123456789ABCDEF"[n]
  }

  /** A digit in lower or upper case. */
  function Digit4(n: nat, upper: bool): char
    requires n < 16
  {
    if upper then UpperHex(n) else HexDigit(n)
  }

  lemma DigitReads(n: nat, upper: bool)
    requires n < 16
    ensures HexValue(Digit4(n, upper)) == Some(n)
  {
  }

  /** The escape of any character of the basic plane reads as it, in either case. */
  lemma CodeReads(a: nat, b: nat, c: nat, d: nat, upper: bool, rest: string)
    requires a < 16 && b < 16 && c < 16 && d < 16
    requires var n := a * 4096 + b * 256 + c * 16 + d; n < 0xD800 || 0xE000 <= n
    ensures var digits := [Digit4(a, upper), Digit4(b, upper), Digit4(c, upper), Digit4(d, upper)];
            Unescape("\\u" + digits + rest) == Prefixed((a * 4096 + b * 256 + c * 16 + d) as char, Unescape(rest))
  {
    DigitReads(a, upper);
    DigitReads(b, upper);
    DigitReads(c, upper);
    DigitReads(d, upper);
    EscapeParts([Digit4(a, upper), Digit4(b, upper), Digit4(c, upper), Digit4(d, upper)], rest);
  }

  lemma EscapeParts(digits: string, rest: string)
    requires |digits| == 4
    ensures var s := "\\u" + digits + rest;
            |s| == 6 + |rest| && s[0] == '\\' && s[1] == 'u' && s[2..6] == digits && s[6..] == rest
  {
  }

  /** The escapes of one letter, and of the slash. */
  lemma LetterReads(letter: char, c: char, rest: string)
    requires (letter, c) in {('/', '/'), ('b', 8 as char), ('f', 12 as char), ('n', '\n'), ('r', '\r'), ('t', '\t')}
    ensures Unescape(['\\', letter] + rest) == Prefixed(c, Unescape(rest))
  {
    assert (['\\', letter] + rest)[2..] == rest;
  }

  /** A quote or a control character that is not escaped is no JSON, whatever plain text comes before it. */
  lemma {:induction false} RawControlIsRefused(plain: string, c: char, rest: string)
    requires forall i | 0 <= i < |plain| :: plain[i] != '\\'
    requires c == '\"' || c as int < 0x20
    ensures Unescape(plain + [c] + rest) == None
  {
    var s := plain + [c] + rest;
    if plain != "" {
      assert s[1..] == plain[1..] + [c] + rest;
      RawControlIsRefused(plain[1..], c, rest);
    }
  }

  /** What stands in double quotes and is no JSON loses the quotes only. */
  lemma BrokenQuotesRead(s: string)
    requires Unescape(s).None?
    ensures ParseScalar("\"" + s + "\"") == s
  {
    var r := "\"" + s + "\"";
    TrimOfTight(r);
    assert r[1..|r| - 1] == s;
  }

  /** A byte order mark at the start of a text is no part of it. */
  lemma BomIsIgnored(text: string)
    requires text == "" || text[0] as int != 0xFEFF
    ensures Parse([0xFEFF as char] + text) == Parse(text)
  {
    assert ([0xFEFF as char] + text)[1..] == text;
  }
}
