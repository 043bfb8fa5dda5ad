/** The text an envelope's signature covers (backend/hub/crypto.py, build_signing_input). */
module SigningInput {
  import opened Wrappers
  import opened Text

  const PLAIN_VERSION: string := "a2a/0.1"

  datatype Envelope = Envelope(
    v: string,
    msgId: string,
    ts: int,
    from: string,
    to: string,
    kind: string,
    replyTo: Option<string>,
    ttl: int,
    payloadHash: string,
    topic: Option<string>,
    goal: Option<string>)

  function OrEmpty(s: Option<string>): string {
    s.GetOr("")
  }

  function Parts(e: Envelope): seq<string> {
    [e.v, e.msgId, Decimal(e.ts), e.from, e.to, e.kind, OrEmpty(e.replyTo), Decimal(e.ttl), e.payloadHash]
    + if e.v == PLAIN_VERSION then [] else [OrEmpty(e.topic), OrEmpty(e.goal)]
  }

  function Input(e: Envelope): string {
    Join(Parts(e))
  }

  /** `build_signing_input`, before the text is encoded. */
  method BuildSigningInput(e: Envelope) returns (text: string)
    ensures text == Input(e)
  {
    var parts := [e.v, e.msgId, Decimal(e.ts), e.from, e.to, e.kind, e.replyTo.GetOr(""), Decimal(e.ttl),
          e.payloadHash];
    if e.v != PLAIN_VERSION {
      parts := parts + [e.topic.GetOr("")];
      parts := parts + [e.goal.GetOr("")];
    }
    assert parts == Parts(e);
    text := Join(parts);
  }

  // ----- Lines -----

  predicate OneLine(s: string) {
    forall i | 0 <= i < |s| :: s[i] != '\n'
  }

  /** split("\n") */
  function Split(s: string): seq<string>
    decreases |s|
  {
    var n := Span(s, c => c != '\n');
    if n == |s| then [s] else [s[..n]] + Split(s[n + 1..])
  }

  lemma SplitOfOneLine(s: string)
    ensures |Split(s)| >= 1
    ensures OneLine(s) <==> |Split(s)| == 1
    ensures OneLine(s) ==> Split(s) == [s]
  {
    var n := Span(s, c => c != '\n');
    if n < |s| {
      assert s[n] == '\n' && |Split(s[n + 1..])| >= 1;
    }
  }

  lemma {:induction false} SplitAfter(line: string, rest: string)
    ensures Split(line + "\n" + rest) == Split(line) + Split(rest)
    decreases |line|
  {
    var n := Span(line, c => c != '\n');
    var head := line[..n];
    if n == |line| {
      Around(line, rest);
      SpanOf(line, "\n" + rest, c => c != '\n');
    } else {
      var tail := line[n + 1..];
      CutAt(line, n);
      Nested(head, tail, rest);
      Around(head, tail + "\n" + rest);
      SpanOf(head, "\n" + (tail + "\n" + rest), c => c != '\n');
      SplitAfter(tail, rest);
      Assoc([head], Split(tail), Split(rest));
    }
  }

  lemma Nested(head: string, tail: string, rest: string)
    ensures head + "\n" + tail + "\n" + rest == head + "\n" + (tail + "\n" + rest)
  {
  }

  /** The lines of all the parts. */
  function Lines(parts: seq<string>): seq<string> {
    if parts == [] then [] else Split(parts[0]) + Lines(parts[1..])
  }

  lemma {:induction false} SplitOfJoin(parts: seq<string>)
    requires parts != []
    ensures Split(Join(parts)) == Lines(parts)
  {
    if |parts| > 1 {
      SplitAfter(parts[0], Join(parts[1..]));
      SplitOfJoin(parts[1..]);
    }
  }

  ghost predicate AllOneLine(parts: seq<string>) {
    forall i | 0 <= i < |parts| :: OneLine(parts[i])
  }

  /** As many lines as parts exactly if no part has a line break; then the lines are the parts. */
  lemma {:induction false} LinesExactly(parts: seq<string>)
    ensures |Lines(parts)| >= |parts|
    ensures AllOneLine(parts) <==> |Lines(parts)| == |parts|
    ensures AllOneLine(parts) ==> Lines(parts) == parts
  {
    if parts != [] {
      SplitOfOneLine(parts[0]);
      LinesExactly(parts[1..]);
      OneLineRest(parts);
    }
  }

  lemma OneLineRest(parts: seq<string>)
    requires parts != []
    ensures AllOneLine(parts) <==> OneLine(parts[0]) && AllOneLine(parts[1..])
    ensures parts == [parts[0]] + parts[1..]
  {
    assert forall i | 1 <= i < |parts| :: parts[i] == parts[1..][i - 1];
  }

  // ----- Envelopes -----

  /** No line break in a field the signature covers. */
  ghost predicate Clean(e: Envelope) {
    AllOneLine(Parts(e))
  }

  /** Equal in every covered field, an absent one taken as empty. */
  predicate SameCovered(a: Envelope, b: Envelope) {
    && a.v == b.v && a.msgId == b.msgId && a.ts == b.ts && a.from == b.from && a.to == b.to && a.kind == b.kind
    && OrEmpty(a.replyTo) == OrEmpty(b.replyTo) && a.ttl == b.ttl && a.payloadHash == b.payloadHash
    && (a.v != PLAIN_VERSION ==> OrEmpty(a.topic) == OrEmpty(b.topic) && OrEmpty(a.goal) == OrEmpty(b.goal))
  }

  lemma SamePartsExactly(a: Envelope, b: Envelope)
    ensures Parts(a) == Parts(b) <==> SameCovered(a, b)
  {
    var p, q := Parts(a), Parts(b);
    if p == q {
      assert p[0] == q[0] && p[1] == q[1] && p[2] == q[2] && p[3] == q[3] && p[4] == q[4] && p[5] == q[5];
      assert p[6] == q[6] && p[7] == q[7] && p[8] == q[8];
      DecimalsDiffer(a.ts, b.ts);
      DecimalsDiffer(a.ttl, b.ttl);
      if a.v != PLAIN_VERSION {
        assert p[9] == q[9] && p[10] == q[10];
      }
    }
  }

  /** Line by line: what stands where in the text of a clean envelope. */
  lemma FieldsByLine(e: Envelope)
    requires Clean(e)
    ensures Split(Input(e))
            == [e.v, e.msgId, Decimal(e.ts), e.from, e.to, e.kind, if e.replyTo.Some? then e.replyTo.value else "",
                Decimal(e.ttl), e.payloadHash]
               + if e.v == "a2a/0.1" then []
                 else [if e.topic.Some? then e.topic.value else "", if e.goal.Some? then e.goal.value else ""]
  {
    SplitOfJoin(Parts(e));
    LinesExactly(Parts(e));
  }

  /** The first line of the input is the version, or else the version has a line break. */
  lemma FirstLine(e: Envelope)
    ensures Lines(Parts(e)) != []
    ensures OneLine(e.v) ==> Lines(Parts(e))[0] == e.v
  {
    SplitOfOneLine(e.v);
    assert Parts(e)[0] == e.v;
  }

  /** Who has the lines of a clean envelope has as many parts. */
  lemma SameLines(a: Envelope, b: Envelope)
    requires Clean(a) && Lines(Parts(b)) == Parts(a)
    ensures |Parts(b)| == |Parts(a)|
  {
    LinesExactly(Parts(b));
    FirstLine(b);
    assert Parts(a)[0] == a.v && Parts(b)[0] == b.v;
  }

  /**
   * If one of two envelopes is clean, whatever is in the other, their inputs are equal
   * exactly if the covered fields are.
   */
  lemma InputIsUnambiguous(a: Envelope, b: Envelope)
    requires Clean(a)
    ensures Input(a) == Input(b) <==> SameCovered(a, b)
  {
    SamePartsExactly(a, b);
    if Input(a) == Input(b) {
      SplitOfJoin(Parts(a));
      SplitOfJoin(Parts(b));
      LinesExactly(Parts(a));
      LinesExactly(Parts(b));
      SameLines(a, b);
    }
  }

  /** With line breaks in both, two different envelopes can have the same input. */
  lemma LineBreaksCollide(e: Envelope)
    ensures var a, b := e.(from := "a\nb", to := "c"), e.(from := "a", to := "b\nc");
            !SameCovered(a, b) && Input(a) == Input(b)
  {
    var a, b := e.(from := "a\nb", to := "c"), e.(from := "a", to := "b\nc");
    var p, q := Parts(a), Parts(b);
    assert p[5..] == q[5..];
    assert Join(p[3..]) == "a\nb" + "\n" + ("c" + "\n" + Join(p[5..])) by {
      assert p[3..][1..] == p[4..] && p[4..][1..] == p[5..];
    }
    assert Join(q[3..]) == "a" + "\n" + ("b\nc" + "\n" + Join(q[5..])) by {
      assert q[3..][1..] == q[4..] && q[4..][1..] == q[5..];
    }
    assert Join(p[3..]) == Join(q[3..]);
    JoinFrom3(p);
    JoinFrom3(q);
  }

  /**
   * Envelopes of two kinds, clean or not, have an unambiguous input between them exactly if one of
   * the kinds is the clean one.
   */
  lemma UnambiguousExactly(ca: bool, cb: bool)
    ensures (forall a, b | Clean(a) == ca && Clean(b) == cb :: Input(a) == Input(b) <==> SameCovered(a, b))
            <==> ca || cb
  {
    if ca || cb {
      forall a, b | Clean(a) == ca && Clean(b) == cb ensures Input(a) == Input(b) <==> SameCovered(a, b) {
        if ca {
          InputIsUnambiguous(a, b);
        } else {
          InputIsUnambiguous(b, a);
        }
      }
    } else {
      var e := Envelope("", "", 0, "", "", "", None, 0, "", None, None);
      var a, b := e.(from := "a\nb", to := "c"), e.(from := "a", to := "b\nc");
      LineBreaksCollide(e);
      assert Parts(a)[3][1] == '\n' && Parts(b)[4][1] == '\n';
      assert !Clean(a) && !Clean(b);
    }
  }

  lemma JoinStep(p: seq<string>)
    requires |p| > 1
    ensures Join(p) == p[0] + "\n" + Join(p[1..])
  {
  }

  lemma JoinFrom3(p: seq<string>)
    requires |p| > 3
    ensures Join(p) == p[0] + "\n" + (p[1] + "\n" + (p[2] + "\n" + Join(p[3..])))
  {
    JoinStep(p);
    JoinStep(p[1..]);
    JoinStep(p[2..]);
    assert p[1..][1..] == p[2..] && p[2..][1..] == p[3..];
  }
}
