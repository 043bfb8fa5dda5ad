/**
 * Stream blocks of the owner-chat cache (backend/hub/owner_chat_cache.py): truncation, and the
 * byte cap of an event.
 */
module OwnerChatBlocks {
  import opened Wrappers
  import opened Text

  // ----- Truncation -----

  const MAX_LIST_ITEMS: nat := 100

  /** A JSON value; Atom is a number, a boolean or null. */
  datatype Json =
    | Str(text: string)
    | List(items: seq<Json>)
    | Dict(keys: seq<string>, values: seq<Json>)
    | Atom(atom: string)

  function More(n: int): Json {
    Str("… (+" + Decimal(n) + " more)")
  }

  /** `_truncate_deep` */
  function Truncate(v: Json, limit: nat): Json {
    match v
    case Str(s) => if |s| <= limit then v else Str(s[..limit] + "…")
    case Dict(keys, values) => Dict(keys, seq(|values|, i requires 0 <= i < |values| => Truncate(values[i], limit)))
    case List(items) =>
      var kept := if |items| <= MAX_LIST_ITEMS then |items| else MAX_LIST_ITEMS;
      List(seq(kept, i requires 0 <= i < kept => Truncate(items[i], limit))
           + if |items| > MAX_LIST_ITEMS then [More(|items| - MAX_LIST_ITEMS)] else [])
    case Atom(_) => v
  }

  /** The items that are looked at. */
  function First100(items: seq<Json>): nat {
    if |items| <= 100 then |items| else 100
  }

  /** What a truncated value looks like: every string cut, every list of at most 101 items with a note at its end. */
  predicate Bounded(v: Json, limit: nat) {
    match v
    case Str(s) => |s| <= limit + 1
    case Dict(_, values) => forall i | 0 <= i < |values| :: Bounded(values[i], limit)
    case List(items) =>
      && |items| <= 101
      && (forall i | 0 <= i < First100(items) :: Bounded(items[i], limit))
    case Atom(_) => true
  }

  /** Same constructors and keys; only longer strings and lists differ. */
  predicate SameShape(v: Json, t: Json, limit: nat) {
    match v
    case Str(s) => t.Str? && if |s| <= limit then t.text == s else s[..limit] <= t.text
    case Dict(keys, values) =>
      t.Dict? && t.keys == keys && |t.values| == |values|
      && forall i | 0 <= i < |values| :: SameShape(values[i], t.values[i], limit)
    case List(items) =>
      && t.List? && |t.items| == (if |items| <= 100 then |items| else 101)
      && (forall i | 0 <= i < First100(items) :: SameShape(items[i], t.items[i], limit))
      && (|items| > 100 ==> t.items[100] == More(|items| - 100))
    case Atom(_) => t == v
  }

  lemma {:induction false} TruncateKeepsShape(v: Json, limit: nat)
    ensures SameShape(v, Truncate(v, limit), limit) && Bounded(Truncate(v, limit), limit)
  {
    match v
    case Str(s) =>
    case Atom(_) =>
    case Dict(keys, values) =>
      forall i | 0 <= i < |values|
        ensures SameShape(values[i], Truncate(values[i], limit), limit) && Bounded(Truncate(values[i], limit), limit)
      {
        TruncateKeepsShape(values[i], limit);
      }
    case List(items) =>
      forall i | 0 <= i < First100(items)
        ensures SameShape(items[i], Truncate(items[i], limit), limit) && Bounded(Truncate(items[i], limit), limit)
      {
        TruncateKeepsShape(items[i], limit);
      }
  }

  /** Within the limits, or already cut at them. */
  predicate Settled(v: Json, limit: nat) {
    match v
    case Str(s) => |s| <= limit || (|s| == limit + 1 && s[limit] == '…')
    case Dict(_, values) => forall i | 0 <= i < |values| :: Settled(values[i], limit)
    case List(items) =>
      && (|items| <= 100 || (|items| == 101 && items[100] == More(1)))
      && (forall i | 0 <= i < First100(items) :: Settled(items[i], limit))
    case Atom(_) => true
  }

  /** Truncation changes nothing exactly if everything is settled. */
  lemma {:induction false} IdentityExactly(v: Json, limit: nat)
    ensures Truncate(v, limit) == v <==> Settled(v, limit)
  {
    match v
    case Str(s) =>
      if |s| == limit + 1 {
        assert s == s[..limit] + [s[limit]];
      }
    case Atom(_) =>
    case Dict(keys, values) =>
      var after := Truncate(v, limit).values;
      forall i | 0 <= i < |values| ensures after[i] == values[i] <==> Settled(values[i], limit) {
        IdentityExactly(values[i], limit);
      }
      assert after == values <==> forall i | 0 <= i < |values| :: after[i] == values[i];
    case List(items) =>
      var after := Truncate(v, limit).items;
      forall i | 0 <= i < First100(items) ensures after[i] == items[i] <==> Settled(items[i], limit) {
        IdentityExactly(items[i], limit);
      }
      if |items| <= 101 {
        assert after == items <==> forall i | 0 <= i < |items| :: after[i] == items[i];
      }
  }

  /** No list that truncation reaches has more than 101 items. */
  predicate ShortLists(v: Json) {
    match v
    case Str(_) => true
    case Dict(_, values) => forall i | 0 <= i < |values| :: ShortLists(values[i])
    case List(items) => |items| <= 101 && forall i | 0 <= i < First100(items) :: ShortLists(items[i])
    case Atom(_) => true
  }

  lemma NotesDiffer(n: int, m: int)
    ensures More(n) == More(m) <==> n == m
  {
    if More(n) == More(m) {
      var s, t := More(n).text, More(m).text;
      assert s[4..|s| - 6] == Decimal(n) && t[4..|t| - 6] == Decimal(m);
      DecimalsDiffer(n, m);
    }
  }

  lemma {:induction false} TruncatedIsSettled(v: Json, limit: nat)
    ensures Settled(Truncate(v, limit), limit) <==> ShortLists(v)
  {
    match v
    case Str(s) =>
    case Atom(_) =>
    case Dict(keys, values) =>
      forall i | 0 <= i < |values| ensures Settled(Truncate(values[i], limit), limit) <==> ShortLists(values[i]) {
        TruncatedIsSettled(values[i], limit);
      }
      var after := Truncate(v, limit).values;
      assert forall i | 0 <= i < |values| :: after[i] == Truncate(values[i], limit);
    case List(items) =>
      forall i | 0 <= i < First100(items) ensures Settled(Truncate(items[i], limit), limit) <==> ShortLists(items[i]) {
        TruncatedIsSettled(items[i], limit);
      }
      var after := Truncate(v, limit).items;
      assert forall i | 0 <= i < First100(items) :: after[i] == Truncate(items[i], limit);
      if |items| > MAX_LIST_ITEMS {
        NotesDiffer(|items| - MAX_LIST_ITEMS, 1);
      }
  }

  /** Truncating twice is truncating once exactly if no kept list has more than 101 items. */
  lemma IdempotentExactly(v: Json, limit: nat)
    ensures Truncate(Truncate(v, limit), limit) == Truncate(v, limit) <==> ShortLists(v)
  {
    IdentityExactly(Truncate(v, limit), limit);
    TruncatedIsSettled(v, limit);
  }

  // ----- Compact blocks -----

  const NULL: Json := Atom("null")
  const PREVIEW_LIMIT: nat := 280
  const MAX_STR_FIELD: nat := 4000

  /** `dict.get`, None for a missing key. */
  function Get(v: Json, key: string): Json
    requires v.Dict?
  {
    GetFrom(v.keys, v.values, key)
  }

  function GetFrom(keys: seq<string>, values: seq<Json>, key: string): Json {
    if keys == [] || values == [] then NULL
    else if keys[0] == key then values[0]
    else GetFrom(keys[1..], values[1..], key)
  }

  /** `compact_block` */
  function Compact(block: Json): (compact: Json)
    ensures compact.Dict?
  {
    if !block.Dict? then Dict(["kind"], [Str("unknown")])
    else
      var payload := Get(block, "payload");
      var seqNo := Get(block, "seq");
      var fields := if payload.Dict? then payload else Dict([], []);
      if seqNo == NULL then Dict(["kind", "payload"], [Get(block, "kind"), Truncate(fields, MAX_STR_FIELD)])
      else Dict(["kind", "payload", "seq"], [Get(block, "kind"), Truncate(fields, MAX_STR_FIELD), seqNo])
  }

  /** The compact block has the kind and the seq of the block as they are, and its payload truncated. */
  lemma CompactKeeps(block: Json)
    ensures var compact := Compact(block);
            if block.Dict? then
              && Get(compact, "kind") == Get(block, "kind") && Get(compact, "seq") == Get(block, "seq")
              && var payload := Get(block, "payload");
              Get(compact, "payload") == Truncate(if payload.Dict? then payload else Dict([], []), 4000)
            else Get(compact, "kind") == Str("unknown") && Get(compact, "payload") == Atom("null")
  {
    if block.Dict? {
      var c := Compact(block);
      if |c.keys| == 3 {
        GetOfThree("kind", "payload", "seq", c.values[0], c.values[1], c.values[2]);
      } else {
        GetOfTwo("kind", "payload", c.values[0], c.values[1]);
      }
    } else {
      assert ["kind"][1..] == [];
    }
  }

  lemma GetOfTwo(a: string, b: string, x: Json, y: Json)
    requires a != b
    ensures Get(Dict([a, b], [x, y]), a) == x && Get(Dict([a, b], [x, y]), b) == y
    ensures forall key | key !in [a, b] :: Get(Dict([a, b], [x, y]), key) == Atom("null")
  {
    assert [a, b][1..] == [b] && [x, y][1..] == [y] && [b][1..] == [] && [y][1..] == [];
    forall key ensures GetFrom([a, b], [x, y], key) == if key == a then x else if key == b then y else NULL {
      assert GetFrom([b], [y], key) == if key == b then y else NULL by {
        assert GetFrom([], [], key) == NULL;
      }
    }
  }

  lemma GetOfThree(a: string, b: string, c: string, x: Json, y: Json, z: Json)
    requires a != b && a != c && b != c
    ensures var v := Dict([a, b, c], [x, y, z]); Get(v, a) == x && Get(v, b) == y && Get(v, c) == z
  {
    assert [a, b, c][1..] == [b, c] && [x, y, z][1..] == [y, z];
    GetOfTwo(b, c, y, z);
  }

  // ----- Encoding -----

  /** json.dumps without ensure_ascii. */
  function Encode(v: Json): string
    decreases v
  {
    match v
    case Str(s) => Quote(s)
    case Atom(a) => a
    case List(items) => "[" + EncodeItems(items) + "]"
    case Dict(keys, values) => "{" + EncodeFields(keys, values) + "}"
  }

  function EncodeItems(items: seq<Json>): string
    decreases items
  {
    if items == [] then "" else Encode(items[0]) + (if |items| == 1 then "" else ", ") + EncodeItems(items[1..])
  }

  function EncodeFields(keys: seq<string>, values: seq<Json>): string
    decreases values
  {
    if keys == [] || values == [] then ""
    else
      Quote(keys[0]) + ": " + Encode(values[0])
      + (if |keys| == 1 || |values| == 1 then "" else ", ") + EncodeFields(keys[1..], values[1..])
  }

  function CharBytes(c: char): nat {
    var n := c as int;
    if n < 0x80 then 1 else if n < 0x800 then 2 else if n < 0x10000 then 3 else 4
  }

  /** The length of a string in UTF-8. */
  function Bytes(s: string): nat {
    if s == "" then 0 else CharBytes(s[0]) + Bytes(s[1..])
  }

  lemma {:induction false} BytesConcat(a: string, b: string)
    ensures Bytes(a + b) == Bytes(a) + Bytes(b)
  {
    if a == "" {
      assert a + b == b;
    } else {
      assert (a + b)[1..] == a[1..] + b;
      BytesConcat(a[1..], b);
    }
  }

  lemma {:induction false} AsciiBytes(s: string)
    requires forall i | 0 <= i < |s| :: s[i] as int < 0x80
    ensures Bytes(s) == |s|
  {
    if s != "" {
      AsciiBytes(s[1..]);
    }
  }

  lemma HexIsAscii(n: nat)
    requires n < 16
    ensures HexDigit(n) as int < 0x80
  {
  }

  lemma EscapeCharBytes(c: char)
    ensures Bytes(EscapeChar(c)) <= 6
  {
    var e := EscapeChar(c);
    if |e| == 1 {
      assert e[1..] == "";
    } else {
      if |e| == 6 {
        HexIsAscii(c as int / 16);
        HexIsAscii(c as int % 16);
      }
      AsciiBytes(e);
    }
  }

  /** An escaped character has at most six bytes. */
  lemma {:induction false} EscapeBytes(s: string)
    ensures Bytes(Escape(s)) <= 6 * |s|
  {
    if s != "" {
      EscapeCharBytes(s[0]);
      EscapeBytes(s[1..]);
      BytesConcat(EscapeChar(s[0]), Escape(s[1..]));
    }
  }

  lemma QuoteBytes(s: string)
    ensures Bytes(Quote(s)) == Bytes(Escape(s)) + 2
  {
    BytesConcat("\"" + Escape(s), "\"");
    BytesConcat("\"", Escape(s));
  }

  // ----- The byte cap -----

  datatype Event = Event(block: Json, truncated: bool, size: nat)

  /** `_preview` of a value that is not a string. */
  function Preview(v: Json): string {
    var text := if v.Str? then v.text else Encode(v);
    if |text| > PREVIEW_LIMIT then text[..PREVIEW_LIMIT] else text
  }

  /** The start of the value's text, of at most 280 characters and all of it if there are no more. */
  lemma PreviewIsStart(v: Json)
    ensures var text := if v.Str? then v.text else Encode(v);
            Preview(v) <= text && |Preview(v)| == if |text| <= 280 then |text| else 280
  {
  }

  /** How lists and objects are printed. */
  lemma EncodeOfTwo(k: string, l: string, v: Json, w: Json)
    ensures Encode(List([v, w])) == "[" + (Encode(v) + ", " + Encode(w)) + "]"
    ensures Encode(Dict([k, l], [v, w]))
            == "{" + (Quote(k) + ": " + Encode(v) + ", " + (Quote(l) + ": " + Encode(w))) + "}"
  {
    var values, keys := [v, w], [k, l];
    assert values[1..] == [w] && keys[1..] == [l] && [w][1..] == [] && [l][1..] == [];
    assert EncodeItems([w]) == Encode(w) by {
      assert Encode(w) + "" + "" == Encode(w);
    }
    assert EncodeFields([l], [w]) == Quote(l) + ": " + Encode(w) by {
      assert Quote(l) + ": " + Encode(w) + "" + "" == Quote(l) + ": " + Encode(w);
    }
  }

  /** What is left of a block that is too large. */
  function PreviewForm(compact: Json): Json
    requires compact.Dict?
  {
    var short := Dict(["preview"], [Str(Preview(Get(compact, "payload")))]);
    if "seq" in compact.keys then
      Dict(["kind", "truncated", "payload", "seq"], [Get(compact, "kind"), Atom("true"), short, Get(compact, "seq")])
    else Dict(["kind", "truncated", "payload"], [Get(compact, "kind"), Atom("true"), short])
  }

  /** `_enforce_event_byte_cap` */
  method EnforceEventByteCap(compact: Json, maxBytes: nat) returns (event: Event)
    requires compact.Dict?
    ensures event == CappedEvent(compact, maxBytes)
  {
    var encoded := Encode(compact);
    var sizeBytes := Bytes(encoded);
    if sizeBytes <= maxBytes {
      return Event(compact, false, sizeBytes);
    }
    var text := Preview(Get(compact, "payload"));
    var keys := ["kind", "truncated", "payload"];
    var values := [Get(compact, "kind"), Atom("true"), Dict(["preview"], [Str(text)])];
    if "seq" in compact.keys {
      keys, values := keys + ["seq"], values + [Get(compact, "seq")];
    }
    event := Event(Dict(keys, values), true, Bytes(Encode(Dict(keys, values))));
  }

  function CappedEvent(compact: Json, maxBytes: nat): Event
    requires compact.Dict?
  {
    var size := Bytes(Encode(compact));
    if size <= maxBytes then Event(compact, false, size)
    else Event(PreviewForm(compact), true, Bytes(Encode(PreviewForm(compact))))
  }

  lemma BytesOfFive(a: string, b: string, c: string, d: string, e: string)
    ensures Bytes(a + b + c + d + e) == Bytes(a) + Bytes(b) + Bytes(c) + Bytes(d) + Bytes(e)
  {
    BytesConcat(a + b + c + d, e);
    BytesConcat(a + b + c, d);
    BytesConcat(a + b, c);
    BytesConcat(a, b);
  }

  lemma KeyBytes(key: string)
    ensures Bytes(Quote(key)) <= 6 * |key| + 2
  {
    QuoteBytes(key);
    EscapeBytes(key);
  }

  lemma PrintedField(key: string, value: string, comma: string, rest: string)
    requires comma == "" || comma == ", "
    ensures Bytes(value) <= Bytes(Quote(key) + ": " + value + comma + rest) <= 6 * |key| + 6 + Bytes(value)
                + Bytes(rest)
  {
    BytesOfFive(Quote(key), ": ", value, comma, rest);
    KeyBytes(key);
    AsciiBytes(": ");
    AsciiBytes(comma);
  }

  /** The bytes of one field of an object, with the comma before the next. */
  lemma FieldBytes(keys: seq<string>, values: seq<Json>)
    requires keys != [] && values != []
    ensures Bytes(EncodeFields(keys, values))
            <= 6 * |keys[0]| + 6 + Bytes(Encode(values[0])) + Bytes(EncodeFields(keys[1..], values[1..]))
    ensures Bytes(EncodeFields(keys, values)) >= Bytes(Encode(values[0]))
  {
    PrintedField(keys[0], Encode(values[0]), if |keys| == 1 || |values| == 1 then "" else ", ",
                 EncodeFields(keys[1..], values[1..]));
  }

  lemma DictBytes(keys: seq<string>, values: seq<Json>)
    ensures Bytes(Encode(Dict(keys, values))) == Bytes(EncodeFields(keys, values)) + 2
  {
    BytesConcat("{" + EncodeFields(keys, values), "}");
    BytesConcat("{", EncodeFields(keys, values));
  }

  lemma PreviewBytes(v: Json)
    ensures Bytes(Encode(Dict(["preview"], [Str(Preview(v))]))) <= 6 * PREVIEW_LIMIT + 52
  {
    var keys, values := ["preview"], [Str(Preview(v))];
    DictBytes(keys, values);
    FieldBytes(keys, values);
    assert keys[1..] == [];
    QuoteBytes(Preview(v));
    EscapeBytes(Preview(v));
  }

  /** Bounds the fields from position `at` on, given bounds of each. */
  function FieldBounds(keys: seq<string>, bounds: seq<nat>): nat {
    if keys == [] || bounds == [] then 0
    else 6 * |keys[0]| + 6 + bounds[0] + FieldBounds(keys[1..], bounds[1..])
  }

  lemma {:induction false} FieldsAreBounded(keys: seq<string>, values: seq<Json>, bounds: seq<nat>)
    requires |keys| == |values| == |bounds|
    requires forall i | 0 <= i < |values| :: Bytes(Encode(values[i])) <= bounds[i]
    ensures Bytes(EncodeFields(keys, values)) <= FieldBounds(keys, bounds)
  {
    if keys != [] {
      FieldBytes(keys, values);
      forall i | 0 <= i < |values[1..]| ensures Bytes(Encode(values[1..][i])) <= bounds[1..][i] {
        assert values[1..][i] == values[i + 1];
      }
      FieldsAreBounded(keys[1..], values[1..], bounds[1..]);
    }
  }

  const PREVIEW_BYTES: nat := 2000

  lemma BoundsCons(key: string, keys: seq<string>, bound: nat, bounds: seq<nat>)
    ensures FieldBounds([key] + keys, [bound] + bounds) == 6 * |key| + 6 + bound + FieldBounds(keys, bounds)
  {
    assert ([key] + keys)[1..] == keys && ([bound] + bounds)[1..] == bounds;
  }

  /** The bounds of the fields of a preview form, with or without a seq. */
  lemma BoundsOfForm(kind: nat, short: nat, tailKeys: seq<string>, tailBounds: seq<nat>)
    ensures FieldBounds(["kind"] + (["truncated"] + (["payload"] + tailKeys)), [kind] + ([4] + ([short] + tailBounds)))
            == 142 + kind + short + FieldBounds(tailKeys, tailBounds)
  {
    BoundsCons("kind", ["truncated"] + (["payload"] + tailKeys), kind, [4] + ([short] + tailBounds));
    BoundsCons("truncated", ["payload"] + tailKeys, 4, [short] + tailBounds);
    BoundsCons("payload", tailKeys, short, tailBounds);
  }

  lemma SumOfForm(kind: nat, tailKeys: seq<string>, tailBounds: seq<nat>, last: nat)
    requires (tailKeys == [] && tailBounds == []) || (tailKeys == ["seq"] && tailBounds == [last])
    ensures FieldBounds(["kind", "truncated", "payload"] + tailKeys, [kind, 4, 6 * PREVIEW_LIMIT + 52] + tailBounds)
            <= PREVIEW_BYTES - 2 + kind + last
  {
    var short := 6 * PREVIEW_LIMIT + 52;
    BoundsOfForm(kind, short, tailKeys, tailBounds);
    assert ["kind", "truncated", "payload"] + tailKeys == ["kind"] + (["truncated"] + (["payload"] + tailKeys));
    assert [kind, 4, short] + tailBounds == [kind] + ([4] + ([short] + tailBounds));
    if tailKeys != [] {
      BoundsCons("seq", [], last, []);
      assert ["seq"] + [] == ["seq"] && [last] + [] == [last];
    }
  }

  lemma FormBounds(kind: Json, short: Json, tail: seq<Json>, last: nat)
    requires Bytes(Encode(short)) <= 6 * PREVIEW_LIMIT + 52
    requires tail == [] || (|tail| == 1 && Bytes(Encode(tail[0])) == last)
    ensures var values, bounds := [kind, Atom("true"), short] + tail,
                                  [Bytes(Encode(kind)), 4, 6 * PREVIEW_LIMIT + 52] + if tail == [] then [] else [last];
            forall i | 0 <= i < |values| :: Bytes(Encode(values[i])) <= bounds[i]
  {
    AsciiBytes("true");
    assert Encode(Atom("true")) == "true";
  }

  lemma DictIsBounded(keys: seq<string>, values: seq<Json>, bounds: seq<nat>, total: nat)
    requires |keys| == |values| == |bounds| && FieldBounds(keys, bounds) + 2 <= total
    requires forall i | 0 <= i < |values| :: Bytes(Encode(values[i])) <= bounds[i]
    ensures Bytes(Encode(Dict(keys, values))) <= total
  {
    DictBytes(keys, values);
    FieldsAreBounded(keys, values, bounds);
  }

  lemma FormFields(kind: Json, short: Json, tailKeys: seq<string>, tail: seq<Json>, last: nat)
    requires Bytes(Encode(short)) <= 6 * PREVIEW_LIMIT + 52
    requires (tailKeys == [] && tail == []) || (tailKeys == ["seq"] && |tail| == 1 && Bytes(Encode(tail[0])) == last)
    ensures Bytes(Encode(Dict(["kind", "truncated", "payload"] + tailKeys, [kind, Atom("true"), short] + tail)))
            <= PREVIEW_BYTES + Bytes(Encode(kind)) + last
  {
    var tailBounds := if tail == [] then [] else [last];
    var bounds := [Bytes(Encode(kind)), 4, 6 * PREVIEW_LIMIT + 52] + tailBounds;
    FormBounds(kind, short, tail, last);
    SumOfForm(Bytes(Encode(kind)), tailKeys, tailBounds, last);
    DictIsBounded(["kind", "truncated", "payload"] + tailKeys, [kind, Atom("true"), short] + tail, bounds,
                  PREVIEW_BYTES + Bytes(Encode(kind)) + last);
  }

  /** The preview form has at most 2000 bytes beside the encoded kind and seq. */
  lemma PreviewFormIsBounded(compact: Json)
    requires compact.Dict?
    ensures Bytes(Encode(PreviewForm(compact)))
            <= PREVIEW_BYTES + Bytes(Encode(Get(compact, "kind"))) + Bytes(Encode(Get(compact, "seq")))
  {
    var kind, last := Get(compact, "kind"), Get(compact, "seq");
    var short := Dict(["preview"], [Str(Preview(Get(compact, "payload")))]);
    PreviewBytes(Get(compact, "payload"));
    if "seq" in compact.keys {
      FormFields(kind, short, ["seq"], [last], Bytes(Encode(last)));
      assert ["kind", "truncated", "payload"] + ["seq"] == ["kind", "truncated", "payload", "seq"];
      assert [kind, Atom("true"), short] + [last] == [kind, Atom("true"), short, last];
    } else {
      FormFields(kind, short, [], [], 0);
      assert ["kind", "truncated", "payload"] + [] == ["kind", "truncated", "payload"];
      assert [kind, Atom("true"), short] + [] == [kind, Atom("true"), short];
    }
  }

  /** An event is within the cap, or a preview of at most 2000 bytes beside its kind and seq. */
  lemma EventIsBounded(compact: Json, maxBytes: nat)
    requires compact.Dict?
    ensures var event := CappedEvent(compact, maxBytes);
            && event.size == Bytes(Encode(event.block))
            && (event.truncated <==> Bytes(Encode(compact)) > maxBytes)
            && (!event.truncated ==> event.block == compact && event.size <= maxBytes)
            && (event.truncated ==>
                  event.size <= PREVIEW_BYTES + Bytes(Encode(Get(compact, "kind")))
                        + Bytes(Encode(Get(compact, "seq"))))
  {
    PreviewFormIsBounded(compact);
  }

  function Letters(n: nat): string {
    if n == 0 then "" else "a" + Letters(n - 1)
  }

  lemma {:induction false} LettersBytes(n: nat)
    ensures Bytes(Escape(Letters(n))) == n
  {
    if n > 0 {
      LettersBytes(n - 1);
      assert Letters(n)[1..] == Letters(n - 1) && EscapeChar('a') == "a";
      BytesConcat("a", Escape(Letters(n - 1)));
    }
  }

  /** The kind is never cut: whatever the cap, no bound holds for the size of an event. */
  lemma KindIsUnbounded(maxBytes: nat, n: nat)
    ensures CappedEvent(Compact(Dict(["kind"], [Str(Letters(n))])), maxBytes).size > n
  {
    var kind := Str(Letters(n));
    var compact := Compact(Dict(["kind"], [kind]));
    var event := CappedEvent(compact, maxBytes);
    assert Get(Dict(["kind"], [kind]), "kind") == kind;
    assert compact.values[0] == kind && Get(compact, "kind") == kind;
    assert event.block.keys[0] == "kind" && event.block.values[0] == kind;
    DictBytes(event.block.keys, event.block.values);
    FieldBytes(event.block.keys, event.block.values);
    LettersBytes(n);
    QuoteBytes(Letters(n));
  }
}
