/**
 The gateway executor's own canonical JSON (t3n-bridge/src/gateway_executor.ts), which is meant to give the
 text of Python's `json.dumps` with sorted keys, so that a receipt signed by the one verifies in the other
 (src/terminal3_agent_auth_adapter.py). It prints strings as `JSON.stringify` does and sorts keys by
 UTF-16 code unit; Python escapes everything outside printable ASCII and sorts by code point. A number is
 read into a JavaScript number first, so what is printed for an integer is left open. The two agree on a
 value exactly when its strings are ASCII up to '~' and its integers are printed as they were written.

 The request hash is one use of it; there the two sides also differ in what they take for no parameters.
 */
module GatewayCanonical {
  import opened KeyOrder
  import opened CanonicalJson
  import opened TsCanonical
  import JsonParser

  // ---------------------------------------------------------------- Python's json.dumps

  function EscapeAscii(c: char): string {
    if c == '\\' then "\\\\"
    else if c == '"' then "\\\""
    else if c == '\U{8}' then "\\b"
    else if c == '\t' then "\\t"
    else if c == '\n' then "\\n"
    else if c == '\U{C}' then "\\f"
    else if c == '\r' then "\\r"
    else if ' ' <= c <= '~' then [c]
    else if c as int < 0x1_0000 then HexEscape(c as int)
    else HexEscape(Utf16Char(c)[0]) + HexEscape(Utf16Char(c)[1])
  }

  function EscapeAllAscii(s: string): string {
    if s == "" then "" else EscapeAscii(s[0]) + EscapeAllAscii(s[1..])
  }

  function QuoteAscii(s: string): string {
    "\"" + EscapeAllAscii(s) + "\""
  }

  function DumpsText(v: Json): string
    decreases v, 1
  {
    match v
    case Null => "null"
    case Bool(b) => if b then "true" else "false"
    case Int(n) => PrintInt(n)
    case Str(s) => QuoteAscii(s)
    case Arr(items) => "[" + Join(DumpsItems(items)) + "]"
    case Obj(entries) => "{" + Join(Texts(Sort(PartKey, DumpsParts(entries)))) + "}"
  }

  function DumpsItems(items: seq<Json>): seq<string>
    decreases items, 0
  {
    if items == [] then [] else [DumpsText(items[0])] + DumpsItems(items[1..])
  }

  function DumpsParts(entries: seq<Entry>): seq<Part>
    decreases entries, 0
  {
    if entries == [] then []
    else [Part(entries[0].key, QuoteAscii(entries[0].key) + ":" + DumpsText(entries[0].value))]
         + DumpsParts(entries[1..])
  }

  // ---------------------------------------------------------------- the executor's canonicalJson

  /** `Object.keys(rec).sort()` compares UTF-16 code units. */
  function UnitKey(p: Part): Points {
    Utf16(p.key)
  }

  /** `JSON.stringify(JSON.parse(text))` of the decimal text of an integer. */
  type Numerals = int -> string

  function ExecText(js: Numerals, v: Json): string
    decreases v, 1
  {
    match v
    case Int(n) => js(n)
    case Arr(items) => "[" + Join(ExecItems(js, items)) + "]"
    case Obj(entries) => "{" + Join(Texts(Sort(UnitKey, ExecParts(js, entries)))) + "}"
    case _ => Canonical(v)
  }

  function ExecItems(js: Numerals, items: seq<Json>): seq<string>
    decreases items, 0
  {
    if items == [] then [] else [ExecText(js, items[0])] + ExecItems(js, items[1..])
  }

  function ExecParts(js: Numerals, entries: seq<Entry>): seq<Part>
    decreases entries, 0
  {
    if entries == [] then []
    else
      [Part(entries[0].key, Quote(entries[0].key) + ":" + ExecText(js, entries[0].value))]
      + ExecParts(js, entries[1..])
  }

  // ---------------------------------------------------------------- numbers

  /** What a number's text may consist of. */
  predicate TokenChar(c: char) {
    c <= '~' && c !in ",]}"
  }

  predicate Token(s: string) {
    s == "" || (TokenChar(s[0]) && Token(s[1..]))
  }

  ghost predicate PrintsTokens(js: Numerals) {
    forall n :: Token(js(n))
  }

  /** Every integer in the value is printed as Python prints it. */
  predicate NumbersAlike(js: Numerals, v: Json)
    decreases v, 1
  {
    match v
    case Int(n) => js(n) == PrintInt(n)
    case Arr(items) => ItemsAlike(js, items)
    case Obj(entries) => EntriesAlike(js, entries)
    case _ => true
  }

  predicate ItemsAlike(js: Numerals, items: seq<Json>)
    decreases items, 0
  {
    items == [] || (NumbersAlike(js, items[0]) && ItemsAlike(js, items[1..]))
  }

  predicate EntriesAlike(js: Numerals, entries: seq<Entry>)
    decreases entries, 0
  {
    entries == [] || (NumbersAlike(js, entries[0].value) && EntriesAlike(js, entries[1..]))
  }

  // ---------------------------------------------------------------- plain text

  predicate PlainChar(c: char) {
    c <= '~'
  }

  predicate Plain(s: string) {
    s == "" || (PlainChar(s[0]) && Plain(s[1..]))
  }

  /** Every string in the value, keys included, is plain. */
  predicate Ascii(v: Json)
    decreases v, 1
  {
    match v
    case Str(s) => Plain(s)
    case Arr(items) => AsciiItems(items)
    case Obj(entries) => AsciiEntries(entries)
    case _ => true
  }

  predicate AsciiItems(items: seq<Json>)
    decreases items, 0
  {
    items == [] || (Ascii(items[0]) && AsciiItems(items[1..]))
  }

  predicate AsciiEntries(entries: seq<Entry>)
    decreases entries, 0
  {
    entries == [] || (Plain(entries[0].key) && Ascii(entries[0].value) && AsciiEntries(entries[1..]))
  }

  lemma {:induction false} PlainConcat(s: string, t: string)
    ensures Plain(s + t) <==> Plain(s) && Plain(t)
  {
    if s == "" {
      assert s + t == t;
    } else {
      assert (s + t)[1..] == s[1..] + t;
      PlainConcat(s[1..], t);
    }
  }

  lemma {:induction false} LiteralIsPlain(s: string)
    requires forall i :: 0 <= i < |s| ==> PlainChar(s[i])
    ensures Plain(s)
  {
    if s != "" {
      LiteralIsPlain(s[1..]);
    }
  }

  predicate AllPlain(texts: seq<string>) {
    texts == [] || (Plain(texts[0]) && AllPlain(texts[1..]))
  }

  lemma {:induction false} JoinPlain(texts: seq<string>)
    ensures Plain(Join(texts)) <==> AllPlain(texts)
  {
    if |texts| == 1 {
      assert texts[1..] == [];
    } else if |texts| > 1 {
      JoinPlain(texts[1..]);
      PlainConcat(texts[0], "," + Join(texts[1..]));
      PlainConcat(",", Join(texts[1..]));
      assert texts[0] + "," + Join(texts[1..]) == texts[0] + ("," + Join(texts[1..]));
    }
  }

  predicate PlainParts(parts: seq<Part>) {
    parts == [] || (Plain(parts[0].text) && PlainParts(parts[1..]))
  }

  lemma {:induction false} TextsPlain(parts: seq<Part>)
    ensures AllPlain(Texts(parts)) <==> PlainParts(parts)
  {
    if parts != [] {
      assert Texts(parts)[1..] == Texts(parts[1..]);
      TextsPlain(parts[1..]);
    }
  }

  lemma {:induction false} InsertPlain(key: Part -> Points, x: Part, s: seq<Part>)
    ensures PlainParts(Insert(key, x, s)) <==> Plain(x.text) && PlainParts(s)
  {
    if s == [] || !Before(key(s[0]), key(x)) {
      assert ([x] + s)[1..] == s;
    } else {
      InsertPlain(key, x, s[1..]);
      assert ([s[0]] + Insert(key, x, s[1..]))[1..] == Insert(key, x, s[1..]);
    }
  }

  lemma {:induction false} SortPlain(key: Part -> Points, s: seq<Part>)
    ensures PlainParts(Sort(key, s)) <==> PlainParts(s)
  {
    if s != [] {
      SortPlain(key, s[1..]);
      InsertPlain(key, s[0], Sort(key, s[1..]));
    }
  }

  /** Brackets around joined texts, commas and colons change nothing. */
  lemma WrapPlain(open: string, inner: string, close: string)
    requires Plain(open) && Plain(close)
    ensures Plain(open + inner + close) <==> Plain(inner)
  {
    PlainConcat(open + inner, close);
    PlainConcat(open, inner);
  }

  // ---------------------------------------------------------------- strings

  lemma EscapesOf(c: char)
    ensures Plain(EscapeAscii(c))
    ensures PlainChar(c) ==> EscapeAscii(c) == EscapeChar(c)
    ensures Plain(EscapeChar(c)) <==> PlainChar(c)
  {
    if c < ' ' {
      ControlEscape(c);
      HexIsPlain(c as int);
    } else if !PlainChar(c) {
      assert !Plain([c]);
      if c as int < 0x1_0000 {
        HexIsPlain(c as int);
      } else {
        HexIsPlain(Utf16Char(c)[0]);
        HexIsPlain(Utf16Char(c)[1]);
        PlainConcat(HexEscape(Utf16Char(c)[0]), HexEscape(Utf16Char(c)[1]));
      }
    } else {
      assert [c][1..] == "";
    }
  }

  lemma HexIsPlain(u: Unit)
    ensures Plain(HexEscape(u))
  {
    LiteralIsPlain(HexEscape(u));
  }

  lemma WordsArePlain(b: bool)
    ensures Plain("null") && Plain(if b then "true" else "false")
  {
    LiteralIsPlain("null");
    LiteralIsPlain(if b then "true" else "false");
  }

  lemma {:induction false} QuotedStrings(s: string)
    ensures Plain(EscapeAllAscii(s))
    ensures Plain(s) ==> EscapeAllAscii(s) == Escape(s)
    ensures Plain(Escape(s)) <==> Plain(s)
  {
    if s != "" {
      EscapesOf(s[0]);
      QuotedStrings(s[1..]);
      PlainConcat(EscapeAscii(s[0]), EscapeAllAscii(s[1..]));
      PlainConcat(EscapeChar(s[0]), Escape(s[1..]));
    }
  }

  lemma QuotesOf(s: string)
    ensures Plain(QuoteAscii(s)) && (Plain(s) ==> QuoteAscii(s) == Quote(s))
    ensures Plain(Quote(s)) <==> Plain(s)
  {
    QuotedStrings(s);
    WrapPlain("\"", EscapeAllAscii(s), "\"");
    WrapPlain("\"", Escape(s), "\"");
  }

  lemma {:induction false} TokenIsPlain(s: string)
    requires Token(s)
    ensures Plain(s)
  {
    if s != "" {
      TokenIsPlain(s[1..]);
    }
  }

  lemma {:induction false} TokenConcat(s: string, t: string)
    ensures Token(s + t) <==> Token(s) && Token(t)
  {
    if s == "" {
      assert s + t == t;
    } else {
      assert (s + t)[1..] == s[1..] + t;
      TokenConcat(s[1..], t);
    }
  }

  lemma {:induction false} NatIsToken(n: nat)
    ensures Token(PrintNat(n))
  {
    if n < 10 {
      assert [HexDigit(n)][1..] == "";
    } else {
      NatIsToken(n / 10);
      assert [HexDigit(n % 10)][1..] == "";
      TokenConcat(PrintNat(n / 10), [HexDigit(n % 10)]);
    }
  }

  lemma IntIsToken(n: int)
    ensures Token(PrintInt(n)) && Plain(PrintInt(n))
  {
    NatIsToken(if n < 0 then -n else n);
    assert "-"[1..] == "";
    TokenConcat("-", PrintNat(if n < 0 then -n else n));
    TokenIsPlain(PrintInt(n));
  }

  // ---------------------------------------------------------------- Python's text is always plain

  lemma {:induction false} DumpsIsPlain(v: Json)
    ensures Plain(DumpsText(v))
    decreases v, 1
  {
    match v
    case Int(n) => IntIsToken(n);
    case Str(s) => QuotesOf(s);
    case Arr(items) =>
      DumpsItemsPlain(items);
      JoinPlain(DumpsItems(items));
      WrapPlain("[", Join(DumpsItems(items)), "]");
    case Obj(entries) =>
      var parts := Sort(PartKey, DumpsParts(entries));
      DumpsPartsPlain(entries);
      SortPlain(PartKey, DumpsParts(entries));
      TextsPlain(parts);
      JoinPlain(Texts(parts));
      WrapPlain("{", Join(Texts(parts)), "}");
    case Bool(b) => WordsArePlain(b);
    case Null => WordsArePlain(true);
  }

  lemma {:induction false} DumpsItemsPlain(items: seq<Json>)
    ensures AllPlain(DumpsItems(items))
    decreases items, 0
  {
    if items != [] {
      DumpsIsPlain(items[0]);
      DumpsItemsPlain(items[1..]);
      assert DumpsItems(items)[1..] == DumpsItems(items[1..]);
    }
  }

  lemma {:induction false} DumpsPartsPlain(entries: seq<Entry>)
    ensures PlainParts(DumpsParts(entries))
    decreases entries, 0
  {
    if entries != [] {
      DumpsIsPlain(entries[0].value);
      QuotesOf(entries[0].key);
      PlainConcat(QuoteAscii(entries[0].key) + ":", DumpsText(entries[0].value));
      PlainConcat(QuoteAscii(entries[0].key), ":");
      DumpsPartsPlain(entries[1..]);
      assert DumpsParts(entries)[1..] == DumpsParts(entries[1..]);
    }
  }

  // ---------------------------------------------------------------- the executor's is when the value is

  lemma {:induction false} ExecIsPlain(js: Numerals, v: Json)
    requires PrintsTokens(js)
    ensures Plain(ExecText(js, v)) <==> Ascii(v)
    decreases v, 1
  {
    match v
    case Int(n) => TokenIsPlain(js(n));
    case Str(s) => QuotesOf(s);
    case Arr(items) =>
      ExecItemsPlain(js, items);
      JoinPlain(ExecItems(js, items));
      WrapPlain("[", Join(ExecItems(js, items)), "]");
    case Obj(entries) =>
      var parts := Sort(UnitKey, ExecParts(js, entries));
      ExecPartsPlain(js, entries);
      SortPlain(UnitKey, ExecParts(js, entries));
      TextsPlain(parts);
      JoinPlain(Texts(parts));
      WrapPlain("{", Join(Texts(parts)), "}");
    case Bool(b) => WordsArePlain(b);
    case Null => WordsArePlain(true);
  }

  lemma {:induction false} ExecItemsPlain(js: Numerals, items: seq<Json>)
    requires PrintsTokens(js)
    ensures AllPlain(ExecItems(js, items)) <==> AsciiItems(items)
    decreases items, 0
  {
    if items != [] {
      ExecIsPlain(js, items[0]);
      ExecItemsPlain(js, items[1..]);
      assert ExecItems(js, items)[1..] == ExecItems(js, items[1..]);
    }
  }

  lemma {:induction false} ExecPartsPlain(js: Numerals, entries: seq<Entry>)
    requires PrintsTokens(js)
    ensures PlainParts(ExecParts(js, entries)) <==> AsciiEntries(entries)
    decreases entries, 0
  {
    if entries != [] {
      ExecIsPlain(js, entries[0].value);
      QuotesOf(entries[0].key);
      PlainConcat(Quote(entries[0].key) + ":", ExecText(js, entries[0].value));
      PlainConcat(Quote(entries[0].key), ":");
      ExecPartsPlain(js, entries[1..]);
      assert ExecParts(js, entries)[1..] == ExecParts(js, entries[1..]);
    }
  }

  // ---------------------------------------------------------------- plain values print alike

  /** On plain keys the two orders are one. */
  lemma {:induction false} PlainKey(s: string)
    requires Plain(s)
    ensures Utf16(s) == PointsOf(s)
  {
    if s != "" {
      PlainKey(s[1..]);
      assert PointsOf(s) == [s[0] as int] + PointsOf(s[1..]);
    }
  }

  lemma {:induction false} InsertSame<T>(k1: T -> Points, k2: T -> Points, x: T, s: seq<T>)
    requires k1(x) == k2(x) && forall i :: 0 <= i < |s| ==> k1(s[i]) == k2(s[i])
    ensures Insert(k1, x, s) == Insert(k2, x, s)
    ensures forall i :: 0 <= i < |Insert(k1, x, s)| ==> k1(Insert(k1, x, s)[i]) == k2(Insert(k1, x, s)[i])
  {
    if s != [] && Before(k1(s[0]), k1(x)) {
      InsertSame(k1, k2, x, s[1..]);
    }
  }

  lemma {:induction false} SortSame<T>(k1: T -> Points, k2: T -> Points, s: seq<T>)
    requires forall i :: 0 <= i < |s| ==> k1(s[i]) == k2(s[i])
    ensures Sort(k1, s) == Sort(k2, s)
    ensures forall i :: 0 <= i < |Sort(k1, s)| ==> k1(Sort(k1, s)[i]) == k2(Sort(k1, s)[i])
  {
    if s != [] {
      SortSame(k1, k2, s[1..]);
      InsertSame(k1, k2, s[0], Sort(k1, s[1..]));
    }
  }

  lemma {:induction false} PlainPrintsAlike(js: Numerals, v: Json)
    requires Ascii(v) && NumbersAlike(js, v)
    ensures ExecText(js, v) == DumpsText(v)
    decreases v, 1
  {
    match v
    case Str(s) => QuotesOf(s);
    case Arr(items) => PlainItemsAlike(js, items);
    case Obj(entries) =>
      PlainPartsAlike(js, entries);
      SortSame(UnitKey, PartKey, DumpsParts(entries));
    case _ =>
  }

  lemma {:induction false} PlainItemsAlike(js: Numerals, items: seq<Json>)
    requires AsciiItems(items) && ItemsAlike(js, items)
    ensures ExecItems(js, items) == DumpsItems(items)
    decreases items, 0
  {
    if items != [] {
      PlainPrintsAlike(js, items[0]);
      PlainItemsAlike(js, items[1..]);
    }
  }

  lemma {:induction false} PlainPartsAlike(js: Numerals, entries: seq<Entry>)
    requires AsciiEntries(entries) && EntriesAlike(js, entries)
    ensures ExecParts(js, entries) == DumpsParts(entries)
    ensures forall i :: 0 <= i < |DumpsParts(entries)| ==>
              UnitKey(DumpsParts(entries)[i]) == PartKey(DumpsParts(entries)[i])
    decreases entries, 0
  {
    if entries != [] {
      PlainPrintsAlike(js, entries[0].value);
      QuotesOf(entries[0].key);
      PlainKey(entries[0].key);
      PlainPartsAlike(js, entries[1..]);
    }
  }

  // ---------------------------------------------------------------- equal texts have equal numbers

  /** After a value there is nothing, or one of these. */
  predicate Stops(rest: string) {
    rest == "" || rest[0] in ",]}"
  }

  lemma {:induction false} TokensCancel(s: string, r1: string, t: string, r2: string)
    requires Token(s) && Token(t) && Stops(r1) && Stops(r2) && s + r1 == t + r2
    ensures s == t && r1 == r2
  {
    if s == "" || t == "" {
      NothingBefore(s, r1);
      NothingBefore(t, r2);
    } else {
      assert (s + r1)[0] == s[0] && (t + r2)[0] == t[0];
      assert (s + r1)[1..] == s[1..] + r1 && (t + r2)[1..] == t[1..] + r2;
      TokensCancel(s[1..], r1, t[1..], r2);
    }
  }

  lemma NothingBefore(s: string, rest: string)
    requires Token(s)
    ensures if s == "" then s + rest == rest else !Stops(s + rest)
  {
    if s != "" {
      assert (s + rest)[0] == s[0];
    }
  }

  lemma PrefixCancels(p: string, s: string, t: string)
    requires p + s == p + t
    ensures s == t
  {
    assert (p + s)[|p|..] == s && (p + t)[|p|..] == t;
  }

  lemma Associated(a: string, b: string, c: string)
    ensures (a + b) + c == a + (b + c)
  {
  }

  lemma Bracketed(open: string, s: string, close: string, rest: string)
    ensures open + s + close + rest == open + (s + (close + rest))
  {
  }

  /** Where the two texts of a value, each with something after it, are one, its numbers are printed alike and
      what comes after is the same. */
  lemma {:induction false} TextsCancel(js: Numerals, v: Json, r1: string, r2: string)
    requires PrintsTokens(js) && Ascii(v) && Stops(r1) && Stops(r2)
    requires ExecText(js, v) + r1 == DumpsText(v) + r2
    ensures NumbersAlike(js, v) && r1 == r2
    decreases v, 1, 0
  {
    match v
    case Int(n) =>
      IntIsToken(n);
      TokensCancel(js(n), r1, PrintInt(n), r2);
    case Str(s) =>
      QuotesOf(s);
      PrefixCancels(Quote(s), r1, r2);
    case Arr(items) =>
      var e, d := Join(ExecItems(js, items)), Join(DumpsItems(items));
      Bracketed("[", e, "]", r1);
      Bracketed("[", d, "]", r2);
      PrefixCancels("[", e + ("]" + r1), d + ("]" + r2));
      ItemsCancel(js, items, "]" + r1, "]" + r2);
      PrefixCancels("]", r1, r2);
    case Obj(entries) => ObjectsCancel(js, entries, r1, r2);
    case _ => PrefixCancels(DumpsText(v), r1, r2);
  }

  lemma {:induction false} ItemsCancel(js: Numerals, items: seq<Json>, r1: string, r2: string)
    requires PrintsTokens(js) && AsciiItems(items) && Stops(r1) && Stops(r2)
    requires Join(ExecItems(js, items)) + r1 == Join(DumpsItems(items)) + r2
    ensures ItemsAlike(js, items) && r1 == r2
    decreases items, 0, 0
  {
    if items == [] {
      assert Join([]) + r1 == r1 && Join([]) + r2 == r2;
    } else if |items| == 1 {
      assert items[1..] == [];
      TextsCancel(js, items[0], r1, r2);
    } else {
      var e, d := ExecItems(js, items[1..]), DumpsItems(items[1..]);
      var e0, d0 := ExecText(js, items[0]), DumpsText(items[0]);
      ItemsUnfold(js, items);
      Bracketed(e0, ",", Join(e), r1);
      Bracketed(d0, ",", Join(d), r2);
      TextsCancel(js, items[0], "," + (Join(e) + r1), "," + (Join(d) + r2));
      PrefixCancels(",", Join(e) + r1, Join(d) + r2);
      ItemsCancel(js, items[1..], r1, r2);
    }
  }

  lemma ItemsUnfold(js: Numerals, items: seq<Json>)
    requires |items| > 1
    ensures Join(ExecItems(js, items)) == ExecText(js, items[0]) + "," + Join(ExecItems(js, items[1..]))
    ensures Join(DumpsItems(items)) == DumpsText(items[0]) + "," + Join(DumpsItems(items[1..]))
  {
    assert ExecItems(js, items)[1..] == ExecItems(js, items[1..]) && ExecItems(js, items[1..]) != [];
    assert DumpsItems(items)[1..] == DumpsItems(items[1..]) && DumpsItems(items[1..]) != [];
  }

  // ---------------------------------------------------------------- members, in their common order

  function ExecPart(js: Numerals, e: Entry): Part {
    Part(e.key, Quote(e.key) + ":" + ExecText(js, e.value))
  }

  function DumpsPart(e: Entry): Part {
    Part(e.key, QuoteAscii(e.key) + ":" + DumpsText(e.value))
  }

  function EntryUnits(e: Entry): Points {
    Utf16(e.key)
  }

  lemma {:induction false} PartsMapped(js: Numerals, entries: seq<Entry>)
    ensures ExecParts(js, entries) == Map(e => ExecPart(js, e), entries)
    ensures DumpsParts(entries) == Map(DumpsPart, entries)
  {
    if entries != [] {
      PartsMapped(js, entries[1..]);
    }
  }

  lemma {:induction false} KeysArePlain(entries: seq<Entry>)
    requires AsciiEntries(entries)
    ensures forall e <- entries :: Plain(e.key) && Ascii(e.value) && EntryUnits(e) == EntryKey(e)
  {
    if entries != [] {
      PlainKey(entries[0].key);
      KeysArePlain(entries[1..]);
    }
  }

  lemma {:induction false} InsertKeeps<T>(key: T -> Points, x: T, s: seq<T>)
    ensures x in Insert(key, x, s) && forall y <- s :: y in Insert(key, x, s)
  {
    if s != [] && Before(key(s[0]), key(x)) {
      InsertKeeps(key, x, s[1..]);
    }
  }

  lemma {:induction false} SortKeeps<T>(key: T -> Points, s: seq<T>)
    ensures forall y <- s :: y in Sort(key, s)
  {
    if s != [] {
      SortKeeps(key, s[1..]);
      InsertKeeps(key, s[0], Sort(key, s[1..]));
    }
  }

  /** Both sides print the members of a plain object in one order. */
  lemma MembersInOrder(js: Numerals, entries: seq<Entry>)
    requires AsciiEntries(entries)
    ensures Sort(UnitKey, ExecParts(js, entries)) == ExecParts(js, Sort(EntryKey, entries))
    ensures Sort(PartKey, DumpsParts(entries)) == DumpsParts(Sort(EntryKey, entries))
    ensures forall e :: e in Sort(EntryKey, entries) <==> e in entries
  {
    KeysArePlain(entries);
    SortSame(EntryUnits, EntryKey, entries);
    PartsMapped(js, entries);
    PartsMapped(js, Sort(EntryKey, entries));
    SortMap(EntryUnits, UnitKey, e => ExecPart(js, e), entries);
    SortMap(EntryKey, PartKey, DumpsPart, entries);
    SortKeeps(EntryKey, entries);
  }

  lemma {:induction false} AllAlike(js: Numerals, entries: seq<Entry>)
    requires forall e <- entries :: NumbersAlike(js, e.value)
    ensures EntriesAlike(js, entries)
  {
    if entries != [] {
      AllAlike(js, entries[1..]);
    }
  }

  lemma {:induction false} ObjectsCancel(js: Numerals, entries: seq<Entry>, r1: string, r2: string)
    requires PrintsTokens(js) && AsciiEntries(entries) && Stops(r1) && Stops(r2)
    requires ExecText(js, Obj(entries)) + r1 == DumpsText(Obj(entries)) + r2
    ensures EntriesAlike(js, entries) && r1 == r2
    decreases entries, 1, 0
  {
    var ordered := Sort(EntryKey, entries);
    MembersInOrder(js, entries);
    KeysArePlain(entries);
    var e, d := Join(Texts(ExecParts(js, ordered))), Join(Texts(DumpsParts(ordered)));
    Bracketed("{", e, "}", r1);
    Bracketed("{", d, "}", r2);
    PrefixCancels("{", e + ("}" + r1), d + ("}" + r2));
    MembersCancel(js, entries, ordered, "}" + r1, "}" + r2);
    PrefixCancels("}", r1, r2);
    AllAlike(js, entries);
  }

  lemma {:induction false} MembersCancel(js: Numerals, whole: seq<Entry>, es: seq<Entry>, r1: string, r2: string)
    requires PrintsTokens(js) && Stops(r1) && Stops(r2)
    requires forall e <- es :: e in whole && Plain(e.key) && Ascii(e.value)
    requires Join(Texts(ExecParts(js, es))) + r1 == Join(Texts(DumpsParts(es))) + r2
    ensures (forall e <- es :: NumbersAlike(js, e.value)) && r1 == r2
    decreases whole, 0, |es|
  {
    if es == [] {
      assert Join([]) + r1 == r1 && Join([]) + r2 == r2;
    } else {
      assert es[0] in whole;
      var q, e0, d0 := Quote(es[0].key), ExecText(js, es[0].value), DumpsText(es[0].value);
      var e, d := Join(Texts(ExecParts(js, es[1..]))), Join(Texts(DumpsParts(es[1..])));
      QuotesOf(es[0].key);
      MembersUnfold(js, es);
      if |es| == 1 {
        Associated(q + ":", e0, r1);
        Associated(q + ":", d0, r2);
        PrefixCancels(q + ":", e0 + r1, d0 + r2);
        TextsCancel(js, es[0].value, r1, r2);
      } else {
        var t1, t2 := "," + (e + r1), "," + (d + r2);
        Bracketed(q + ":" + e0, ",", e, r1);
        Bracketed(q + ":" + d0, ",", d, r2);
        Associated(q + ":", e0, t1);
        Associated(q + ":", d0, t2);
        PrefixCancels(q + ":", e0 + t1, d0 + t2);
        TextsCancel(js, es[0].value, t1, t2);
        PrefixCancels(",", e + r1, d + r2);
        MembersCancel(js, whole, es[1..], r1, r2);
      }
    }
  }

  lemma MembersUnfold(js: Numerals, es: seq<Entry>)
    requires es != []
    ensures var e, d := Texts(ExecParts(js, es)), Texts(DumpsParts(es));
            && Join(e) == (if |es| == 1 then ExecPart(js, es[0]).text
                           else ExecPart(js, es[0]).text + "," + Join(Texts(ExecParts(js, es[1..]))))
            && Join(d) == (if |es| == 1 then DumpsPart(es[0]).text
                           else DumpsPart(es[0]).text + "," + Join(Texts(DumpsParts(es[1..]))))
  {
    var e, d := ExecParts(js, es), DumpsParts(es);
    PartsMapped(js, es);
    MapLength(x => ExecPart(js, x), es);
    MapLength(DumpsPart, es);
    assert e[1..] == ExecParts(js, es[1..]) && d[1..] == DumpsParts(es[1..]);
    TextsUnfold(e);
    TextsUnfold(d);
  }

  lemma TextsUnfold(parts: seq<Part>)
    requires parts != []
    ensures |Texts(parts)| == |parts| && Texts(parts)[0] == parts[0].text && Texts(parts)[1..] == Texts(parts[1..])
  {
  }

  // ---------------------------------------------------------------- the two texts

  /** The executor's text of a value is Python's exactly when no string in it goes beyond '~' and every integer in
      it is printed as it was written. */
  lemma TextsAgreeExactly(js: Numerals, v: Json)
    requires PrintsTokens(js)
    ensures ExecText(js, v) == DumpsText(v) <==> Ascii(v) && NumbersAlike(js, v)
  {
    DumpsIsPlain(v);
    ExecIsPlain(js, v);
    if Ascii(v) && NumbersAlike(js, v) {
      PlainPrintsAlike(js, v);
    } else if ExecText(js, v) == DumpsText(v) {
      TextsCancel(js, v, "", "");
    }
  }

  /** Integers that a JavaScript number cannot tell apart do not both agree: beyond 2^53 there are such. */
  lemma IndistinctNumbersDisagree(js: Numerals, m: int, n: int)
    requires PrintsTokens(js) && m != n && js(m) == js(n)
    ensures ExecText(js, Int(m)) != DumpsText(Int(m)) || ExecText(js, Int(n)) != DumpsText(Int(n))
  {
    JsonParser.CanonicalRoundTrip(Int(m));
    JsonParser.CanonicalRoundTrip(Int(n));
  }

  /** Every integer in the value is one that a JavaScript number holds exactly and prints in full. */
  predicate Safe(v: Json)
    decreases v, 1
  {
    match v
    case Int(n) => -9007199254740991 <= n <= 9007199254740991
    case Arr(items) => SafeItems(items)
    case Obj(entries) => SafeEntries(entries)
    case _ => true
  }

  predicate SafeItems(items: seq<Json>)
    decreases items, 0
  {
    items == [] || (Safe(items[0]) && SafeItems(items[1..]))
  }

  predicate SafeEntries(entries: seq<Entry>)
    decreases entries, 0
  {
    entries == [] || (Safe(entries[0].value) && SafeEntries(entries[1..]))
  }

  ghost predicate PrintsSafely(js: Numerals) {
    forall n :: -9007199254740991 <= n <= 9007199254740991 ==> js(n) == PrintInt(n)
  }

  lemma {:induction false} SafeIsAlike(js: Numerals, v: Json)
    requires PrintsSafely(js) && Safe(v)
    ensures NumbersAlike(js, v)
    decreases v, 1
  {
    match v
    case Arr(items) => SafeItemsAlike(js, items);
    case Obj(entries) => SafeEntriesAlike(js, entries);
    case _ =>
  }

  lemma {:induction false} SafeItemsAlike(js: Numerals, items: seq<Json>)
    requires PrintsSafely(js) && SafeItems(items)
    ensures ItemsAlike(js, items)
    decreases items, 0
  {
    if items != [] {
      SafeIsAlike(js, items[0]);
      SafeItemsAlike(js, items[1..]);
    }
  }

  lemma {:induction false} SafeEntriesAlike(js: Numerals, entries: seq<Entry>)
    requires PrintsSafely(js) && SafeEntries(entries)
    ensures EntriesAlike(js, entries)
    decreases entries, 0
  {
    if entries != [] {
      SafeIsAlike(js, entries[0].value);
      SafeEntriesAlike(js, entries[1..]);
    }
  }

  /** With safe integers only the strings matter. */
  lemma SafeTextsAgreeExactly(js: Numerals, v: Json)
    requires PrintsTokens(js) && PrintsSafely(js) && Safe(v)
    ensures ExecText(js, v) == DumpsText(v) <==> Ascii(v)
  {
    TextsAgreeExactly(js, v);
    SafeIsAlike(js, v);
  }

  // ---------------------------------------------------------------- the request hash

  /** What both sides hash to bind a receipt to a request. */
  function RequestValue(to: string, action: string, parameters: Json): Json {
    Obj([Entry("to_agent_id", Str(to)), Entry("action", Str(action)), Entry("parameters", parameters)])
  }

  /** Python's truth value. */
  predicate TruthyJson(v: Json) {
    v != Null && v != Bool(false) && v != Int(0) && v != Str("") && v != Arr([]) && v != Obj([])
  }

  /** `parameters or {}`. Absent parameters count as null on both sides. */
  function WorkerParameters(parameters: Json): Json {
    if TruthyJson(parameters) then parameters else Obj([])
  }

  /** `parameters ?? {}` */
  function ExecutorParameters(parameters: Json): Json {
    if parameters == Null then Obj([]) else parameters
  }

  function WorkerText(to: string, action: string, parameters: Json): string {
    DumpsText(RequestValue(to, action, WorkerParameters(parameters)))
  }

  function ExecutorText(js: Numerals, to: string, action: string, parameters: Json): string {
    ExecText(js, RequestValue(to, action, ExecutorParameters(parameters)))
  }

  /** Both sides read the parameters as the same. */
  predicate TakenAlike(parameters: Json) {
    parameters != Bool(false) && parameters != Int(0) && parameters != Str("") && parameters != Arr([])
  }

  /** So, hashing taken as injective, the worker recomputes the request hash that the executor signed exactly
      for requests in plain text, whose integers are printed as written, and whose parameters are not one of
      false, 0, "" and []; any other request is refused with a receipt that is otherwise good. */
  lemma RequestHashesAgreeExactly(js: Numerals, hash: string -> string, to: string, action: string, parameters: Json)
    requires PrintsTokens(js) && forall s, t :: hash(s) == hash(t) ==> s == t
    ensures hash(ExecutorText(js, to, action, parameters)) == hash(WorkerText(to, action, parameters))
       <==> && Plain(to) && Plain(action) && Ascii(parameters) && NumbersAlike(js, parameters)
            && TakenAlike(parameters)
  {
    if TakenAlike(parameters) {
      var p := WorkerParameters(parameters);
      assert ExecutorParameters(parameters) == p;
      TextsAgreeExactly(js, RequestValue(to, action, p));
      RequestIsAscii(to, action, p);
      RequestNumbers(js, to, action, p);
    } else {
      FalsyParametersDisagree(js, to, action, parameters);
    }
  }

  /** For false, 0, "" and [] the texts differ, whatever else is in the request: the worker hashes an empty
      object instead. */
  lemma FalsyParametersDisagree(js: Numerals, to: string, action: string, parameters: Json)
    requires PrintsTokens(js) && !TakenAlike(parameters)
    ensures ExecutorText(js, to, action, parameters) != WorkerText(to, action, parameters)
  {
    var t, a := Entry("to_agent_id", Str(to)), Entry("action", Str(action));
    FalsyEntriesDisagree(js, t, a, Entry("parameters", parameters), Entry("parameters", Obj([])));
  }

  /** Two members and a falsy one, in the order of their keys' first characters. */
  lemma FalsyEntriesDisagree(js: Numerals, t: Entry, a: Entry, p: Entry, q: Entry)
    requires PrintsTokens(js) && !TakenAlike(p.value) && q == Entry(p.key, Obj([])) && InOrder(t.key, a.key, p.key)
    requires t.value.Str? && a.value.Str?
    ensures ExecText(js, Obj([t, a, p])) != DumpsText(Obj([t, a, q]))
  {
    DumpsIsPlain(Obj([t, a, q]));
    ExecIsPlain(js, Obj([t, a, p]));
    if ExecText(js, Obj([t, a, p])) == DumpsText(Obj([t, a, q])) {
      ThreeEntries(t, a, p);
      ThreeEntries(t, a, q);
      ThreeInOrder(js, t, a, p);
      ThreeInOrder(js, t, a, q);
      QuotesOf(t.value.s);
      QuotesOf(a.value.s);
      FieldsCancel(Member(a.key, Quote(a.value.s)), p.key, ExecText(js, p.value), DumpsText(q.value),
                   Member(t.key, Quote(t.value.s)));
      FalsyText(js, p.value);
    }
  }

  ghost predicate InOrder(t: string, a: string, p: string) {
    && PlainThroughout(t) && PlainThroughout(a) && PlainThroughout(p)
    && t != "" && a != "" && p != "" && a[0] < p[0] < t[0]
  }

  function Member(key: string, text: string): string {
    Quote(key) + ":" + text
  }

  /** Three members in order, the second one with its value apart. */
  function Fields(first: string, key: string, text: string, last: string): string {
    "{" + ((first + "," + (Quote(key) + ":")) + (text + ("," + last + "}")))
  }

  lemma FieldsCancel(first: string, key: string, p: string, q: string, last: string)
    requires Fields(first, key, p, last) == Fields(first, key, q, last)
    ensures p == q
  {
    var before, after := first + "," + (Quote(key) + ":"), "," + last + "}";
    PrefixCancels("{", before + (p + after), before + (q + after));
    PrefixCancels(before, p + after, q + after);
    SuffixCancels(p, q, after);
  }

  lemma SuffixCancels(p: string, q: string, rest: string)
    requires p + rest == q + rest
    ensures p == q
  {
    assert |p + rest| == |p| + |rest| && |q + rest| == |q| + |rest|;
    assert (p + rest)[..|p|] == p && (q + rest)[..|q|] == q;
  }

  lemma FalsyText(js: Numerals, parameters: Json)
    requires PrintsTokens(js) && !TakenAlike(parameters)
    ensures ExecText(js, parameters) != DumpsText(Obj([]))
  {
    var empty := DumpsText(Obj([]));
    assert empty == "{}";
    assert empty[1..] == "}" && !Token("}");
    assert Canonical(Bool(false)) == "false" && Canonical(Str(""))[0] == '"';
  }

  /** The texts of three plain members, in key order. */
  lemma ThreeInOrder(js: Numerals, t: Entry, a: Entry, p: Entry)
    requires PrintsTokens(js) && Ascii(Obj([t, a, p])) && InOrder(t.key, a.key, p.key)
    ensures ExecText(js, Obj([t, a, p]))
         == Fields(Member(a.key, ExecText(js, a.value)), p.key, ExecText(js, p.value),
                   Member(t.key, ExecText(js, t.value)))
    ensures DumpsText(Obj([t, a, p]))
         == Fields(Member(a.key, DumpsText(a.value)), p.key, DumpsText(p.value), Member(t.key, DumpsText(t.value)))
  {
    MembersInOrder(js, [t, a, p]);
    SortedThree(t, a, p);
    ThreeQuoted(t.key, a.key, p.key);
    var ordered := [a, p, t];
    assert ordered[1..] == [p, t] && [p, t][1..] == [t];
    MembersUnfold(js, ordered);
    MembersUnfold(js, [p, t]);
    MembersUnfold(js, [t]);
    Joined(Member(a.key, ExecText(js, a.value)), Quote(p.key) + ":", ExecText(js, p.value),
           Member(t.key, ExecText(js, t.value)), p.key);
    Joined(Member(a.key, DumpsText(a.value)), Quote(p.key) + ":", DumpsText(p.value),
           Member(t.key, DumpsText(t.value)), p.key);
  }

  lemma ThreeQuoted(t: string, a: string, p: string)
    requires PlainThroughout(t) && PlainThroughout(a) && PlainThroughout(p)
    ensures QuoteAscii(t) == Quote(t) && QuoteAscii(a) == Quote(a) && QuoteAscii(p) == Quote(p)
  {
    LiteralIsPlain(t);
    LiteralIsPlain(a);
    LiteralIsPlain(p);
    QuotesOf(t);
    QuotesOf(a);
    QuotesOf(p);
  }

  lemma Joined(first: string, name: string, text: string, last: string, key: string)
    requires name == Quote(key) + ":"
    ensures "{" + (first + "," + (name + text + "," + last)) + "}" == Fields(first, key, text, last)
  {
    var before := first + "," + name;
    assert first + "," + (name + text + "," + last) == before + (text + ("," + last));
    assert (text + ("," + last)) + "}" == text + ("," + last + "}");
    assert "{" + (before + (text + ("," + last))) + "}" == "{" + (before + ((text + ("," + last)) + "}"));
  }

  lemma SortedThree(t: Entry, a: Entry, p: Entry)
    requires InOrder(t.key, a.key, p.key)
    ensures Sort(EntryKey, [t, a, p]) == [a, p, t]
  {
    assert EntryKey(a)[0] < EntryKey(p)[0] < EntryKey(t)[0];
    assert [t, a, p][1..] == [a, p] && [a, p][1..] == [p] && [p][1..] == [];
    assert Sort(EntryKey, [p]) == [p];
    assert Sort(EntryKey, [a, p]) == Insert(EntryKey, a, [p]) == [a, p];
    assert Insert(EntryKey, t, [p]) == [p] + Insert(EntryKey, t, []) == [p, t];
    assert Insert(EntryKey, t, [a, p]) == [a] + Insert(EntryKey, t, [p]);
  }

  lemma RequestNumbers(js: Numerals, to: string, action: string, parameters: Json)
    ensures NumbersAlike(js, RequestValue(to, action, parameters)) <==> NumbersAlike(js, parameters)
  {
    var a, b := Entry("to_agent_id", Str(to)), Entry("action", Str(action));
    var p := Entry("parameters", parameters);
    assert [a, b, p][1..] == [b, p] && [b, p][1..] == [p] && [p][1..] == [];
    assert EntriesAlike(js, [p]) <==> NumbersAlike(js, parameters);
    assert EntriesAlike(js, [b, p]) <==> NumbersAlike(js, parameters);
    assert EntriesAlike(js, [a, b, p]) <==> NumbersAlike(js, parameters);
  }

  predicate PlainThroughout(s: string) {
    forall i :: 0 <= i < |s| ==> PlainChar(s[i])
  }

  lemma ThreeEntries(a: Entry, b: Entry, c: Entry)
    requires PlainThroughout(a.key) && PlainThroughout(b.key) && PlainThroughout(c.key)
    ensures Ascii(Obj([a, b, c])) <==> Ascii(a.value) && Ascii(b.value) && Ascii(c.value)
  {
    LiteralIsPlain(a.key);
    LiteralIsPlain(b.key);
    LiteralIsPlain(c.key);
    assert [a, b, c][1..] == [b, c] && [b, c][1..] == [c] && [c][1..] == [];
    assert AsciiEntries([c]) <==> Ascii(c.value);
    assert AsciiEntries([b, c]) <==> Ascii(b.value) && Ascii(c.value);
    assert AsciiEntries([a, b, c]) <==> Ascii(a.value) && Ascii(b.value) && Ascii(c.value);
  }

  lemma RequestIsAscii(to: string, action: string, parameters: Json)
    ensures Ascii(RequestValue(to, action, parameters)) <==> Plain(to) && Plain(action) && Ascii(parameters)
  {
    ThreeEntries(Entry("to_agent_id", Str(to)), Entry("action", Str(action)), Entry("parameters", parameters));
  }
}
