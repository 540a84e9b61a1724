/**
 The TypeScript twin of the printer (t3n-bridge/src/release_proof.ts). Its strings are UTF-16 code
 units, its comparator decodes them to code points, and object entries may be undefined. On every value
 both sides can hold, its text is the UTF-16 encoding of the Python text.
 */
module TsCanonical {
  import opened Wrappers
  import opened KeyOrder
  import opened CanonicalJson

  const MAX_SAFE_INTEGER: int := 0x1F_FFFF_FFFF_FFFF

  type Unit = n: int | 0 <= n < 0x1_0000
  type Units = seq<Unit>

  datatype TsValue =
    | Undefined
    | TsNull
    | TsBool(b: bool)
    | TsNumber(n: int)
    | TsString(s: Units)
    | TsArray(items: seq<TsValue>)
    | TsObject(entries: seq<TsEntry>)

  datatype TsEntry = TsEntry(key: Units, value: TsValue)

  datatype TsPart = TsPart(key: Units, text: Units)

  // ---------------------------------------------------------------- UTF-16

  function Utf16Char(c: char): Units {
    var n := c as int;
    if n < 0x1_0000 then [n] else [0xD800 + (n - 0x1_0000) / 0x400, 0xDC00 + (n - 0x1_0000) % 0x400]
  }

  function Utf16(s: string): Units {
    if s == "" then [] else Utf16Char(s[0]) + Utf16(s[1..])
  }

  predicate IsPair(u: Units) {
    |u| >= 2 && 0xD800 <= u[0] < 0xDC00 && 0xDC00 <= u[1] < 0xE000
  }

  /** Array.from on a string: surrogate pairs are combined, anything else stands for itself. */
  function CodePoints(u: Units): Points {
    if u == [] then []
    else if IsPair(u) then [0x1_0000 + (u[0] - 0xD800) * 0x400 + (u[1] - 0xDC00)] + CodePoints(u[2..])
    else [u[0]] + CodePoints(u[1..])
  }

  lemma {:induction false} Utf16Concat(a: string, b: string)
    ensures Utf16(a + b) == Utf16(a) + Utf16(b)
  {
    if a == "" {
      assert a + b == b;
    } else {
      assert (a + b)[1..] == a[1..] + b;
      Utf16Concat(a[1..], b);
    }
  }

  lemma {:induction false} CodePointsOfUtf16(s: string)
    ensures CodePoints(Utf16(s)) == PointsOf(s)
  {
    if s != "" {
      var rest := Utf16(s[1..]);
      CodePointsOfUtf16(s[1..]);
      assert PointsOf(s) == [s[0] as int] + PointsOf(s[1..]);
      if s[0] as int < 0x1_0000 {
        assert Utf16(s) == [s[0] as int] + rest;
        assert Utf16(s)[1..] == rest;
      } else {
        assert Utf16(s)[2..] == rest;
      }
    }
  }

  // ---------------------------------------------------------------- JSON.stringify on strings

  function HexEscape(u: Unit): string {
    "\\u" + [HexDigit(u / 0x1000), HexDigit(u / 0x100 % 16), HexDigit(u / 16 % 16), HexDigit(u % 16)]
  }

  /** The escape of a code unit that stands alone, if it has one. */
  function UnitEscape(u: Unit): Option<string> {
    if u == 0x5C then Some("\\\\")
    else if u == 0x22 then Some("\\\"")
    else if u == 8 then Some("\\b")
    else if u == 9 then Some("\\t")
    else if u == 10 then Some("\\n")
    else if u == 12 then Some("\\f")
    else if u == 13 then Some("\\r")
    else if u < 0x20 || 0xD800 <= u < 0xE000 then Some(HexEscape(u))
    else None
  }

  function StringifyUnit(u: Unit): Units {
    match UnitEscape(u)
    case Some(text) => Utf16(text)
    case None => [u]
  }

  /** A unit stands for itself exactly when it is no control, quote, backslash or surrogate; a surrogate that
      stands alone is written in four hex digits. */
  lemma UnitsEscapedExactly(u: Unit)
    ensures StringifyUnit(u) == [u] <==> 0x20 <= u && u != 0x22 && u != 0x5C && !(0xD800 <= u <= 0xDFFF)
    ensures 0xD800 <= u <= 0xDFFF ==> StringifyUnit(u) == Utf16(HexEscape(u))
  {
    if UnitEscape(u).Some? {
      var text := UnitEscape(u).value;
      assert |text| >= 2;
      Utf16AtLeast(text);
    }
  }

  lemma {:induction false} Utf16AtLeast(s: string)
    ensures |s| <= |Utf16(s)|
  {
    if s != "" {
      Utf16AtLeast(s[1..]);
    }
  }

  function StringifyUnits(u: Units): Units {
    if u == [] then []
    else if IsPair(u) then u[..2] + StringifyUnits(u[2..])
    else StringifyUnit(u[0]) + StringifyUnits(u[1..])
  }

  function Stringify(u: Units): Units {
    Utf16("\"") + StringifyUnits(u) + Utf16("\"")
  }

  lemma ControlEscape(c: char)
    requires c < ' '
    ensures HexEscape(c as int) == "\\u00" + [HexDigit(c as int / 16), HexDigit(c as int % 16)]
  {
    var n := c as int;
    assert n / 0x1000 == 0 && n / 0x100 == 0 && n / 16 % 16 == n / 16;
    assert "\\u" + ['0', '0', HexDigit(n / 16), HexDigit(n % 16)]
        == "\\u00" + [HexDigit(n / 16), HexDigit(n % 16)];
  }

  lemma EscapesAgree(c: char)
    requires c as int < 0x1_0000
    ensures EscapeChar(c) == match UnitEscape(c as int) case Some(text) => text case None => [c]
  {
    if c < ' ' {
      ControlEscape(c);
    }
  }

  lemma StringifyBmp(c: char)
    requires c as int < 0x1_0000
    ensures StringifyUnit(c as int) == Utf16(EscapeChar(c))
  {
    EscapesAgree(c);
    if UnitEscape(c as int).None? {
      assert Utf16([c]) == [c as int];
    }
  }

  /** The units of one character are printed as the character is escaped, whatever follows. */
  lemma StringifyChar(c: char, rest: Units)
    ensures StringifyUnits(Utf16Char(c) + rest) == Utf16(EscapeChar(c)) + StringifyUnits(rest)
  {
    var u := Utf16Char(c) + rest;
    if c as int < 0x1_0000 {
      StringifyBmp(c);
      assert u[1..] == rest;
    } else {
      assert u[..2] == Utf16Char(c) && u[2..] == rest;
      assert EscapeChar(c) == [c] && [c][1..] == "";
      assert Utf16([c]) == Utf16Char(c);
    }
  }

  /** Both string printers write the same text, code unit by code unit. */
  lemma {:induction false} StringifyAgrees(s: string)
    ensures StringifyUnits(Utf16(s)) == Utf16(Escape(s))
  {
    if s != "" {
      StringifyAgrees(s[1..]);
      StringifyChar(s[0], Utf16(s[1..]));
      Utf16Concat(EscapeChar(s[0]), Escape(s[1..]));
    }
  }

  lemma StringifyIsQuote(s: string)
    ensures Stringify(Utf16(s)) == Utf16(Quote(s))
  {
    StringifyAgrees(s);
    Utf16Concat("\"" + Escape(s), "\"");
    Utf16Concat("\"", Escape(s));
  }

  // ---------------------------------------------------------------- the comparator as it runs

  /** The code units of a list of code points, which undoes the decoding even of lone surrogates. */
  function UnitsOf(points: Points): seq<int> {
    if points == [] then []
    else if points[0] < 0x1_0000 then [points[0]] + UnitsOf(points[1..])
    else [0xD800 + (points[0] - 0x1_0000) / 0x400, 0xDC00 + (points[0] - 0x1_0000) % 0x400] + UnitsOf(points[1..])
  }

  lemma {:induction false} UnitsComeBack(u: Units)
    ensures UnitsOf(CodePoints(u)) == u
  {
    if u != [] {
      if IsPair(u) {
        UnitsComeBack(u[2..]);
        PairComesBack(u[0], u[1]);
        assert u == [u[0], u[1]] + u[2..];
      } else {
        UnitsComeBack(u[1..]);
        assert u == [u[0]] + u[1..];
      }
    }
  }

  lemma PairComesBack(high: Unit, low: Unit)
    requires 0xD800 <= high < 0xDC00 && 0xDC00 <= low < 0xE000
    ensures var point := 0x1_0000 + (high - 0xD800) * 0x400 + (low - 0xDC00);
            0xD800 + (point - 0x1_0000) / 0x400 == high && 0xDC00 + (point - 0x1_0000) % 0x400 == low
  {
  }

  /** Different keys have different code points. */
  lemma CodePointsInjective(u: Units, w: Units)
    ensures CodePoints(u) == CodePoints(w) <==> u == w
  {
    UnitsComeBack(u);
    UnitsComeBack(w);
  }

  /** The sign of the result is the code-point order; it is zero exactly on equal keys. */
  method CompareJsonKeys(left: Units, right: Units) returns (delta: int)
    ensures delta < 0 <==> Before(CodePoints(left), CodePoints(right))
    ensures delta > 0 <==> Before(CodePoints(right), CodePoints(left))
    ensures delta == 0 <==> left == right
  {
    CodePointsInjective(left, right);
    var leftPoints, rightPoints := CodePoints(left), CodePoints(right);
    var length := if |leftPoints| < |rightPoints| then |leftPoints| else |rightPoints|;
    var index := 0;
    while index < length
      invariant 0 <= index <= length
      invariant leftPoints[..index] == rightPoints[..index]
    {
      delta := leftPoints[index] - rightPoints[index];
      if delta != 0 {
        BeforeAt(leftPoints, rightPoints, index);
        BeforeAt(rightPoints, leftPoints, index);
        return;
      }
      index := index + 1;
    }
    BeforeAt(leftPoints, rightPoints, index);
    BeforeAt(rightPoints, leftPoints, index);
    delta := |leftPoints| - |rightPoints|;
  }

  // ---------------------------------------------------------------- values

  function TsKey(p: TsPart): Points { CodePoints(p.key) }

  function TsJoin(texts: seq<TsPart>): Units {
    if |texts| == 0 then []
    else if |texts| == 1 then texts[0].text
    else texts[0].text + Utf16(",") + TsJoin(texts[1..])
  }

  function Wrap(open: string, body: Units, close: string): Units {
    Utf16(open) + body + Utf16(close)
  }

  function TsText(v: TsValue): Result<Units, string>
    decreases v, 1
  {
    match v
    case Undefined => Err("canonical JSON cannot encode undefined")
    case TsNull => Ok(Utf16("null"))
    case TsBool(b) => Ok(Utf16(if b then "true" else "false"))
    case TsNumber(n) => Ok(Utf16(PrintInt(n)))
    case TsString(s) => Ok(Stringify(s))
    case TsArray(items) =>
      (match TsItems(items)
       case Err(e) => Err(e)
       case Ok(parts) => Ok(Wrap("[", TsJoin(parts), "]")))
    case TsObject(entries) =>
      match TsParts(entries)
      case Err(e) => Err(e)
      case Ok(parts) => Ok(Wrap("{", TsJoin(Sort(TsKey, parts)), "}"))
  }

  function TsItems(items: seq<TsValue>): Result<seq<TsPart>, string>
    decreases items, 0
  {
    if items == [] then Ok([])
    else
      match TsText(items[0])
      case Err(e) => Err(e)
      case Ok(text) =>
        match TsItems(items[1..])
        case Err(e) => Err(e)
        case Ok(parts) => Ok([TsPart([], text)] + parts)
  }

  /** Entries whose value is undefined are filtered out; the others print as key, colon, value. */
  function TsParts(entries: seq<TsEntry>): Result<seq<TsPart>, string>
    decreases entries, 0
  {
    if entries == [] then Ok([])
    else if entries[0].value.Undefined? then TsParts(entries[1..])
    else
      match TsText(entries[0].value)
      case Err(e) => Err(e)
      case Ok(text) =>
        match TsParts(entries[1..])
        case Err(e) => Err(e)
        case Ok(parts) =>
          Ok([TsPart(entries[0].key, Stringify(entries[0].key) + Utf16(":") + text)] + parts)
  }

  // ---------------------------------------------------------------- agreement

  /** `t` is how JavaScript holds `v`, with undefined entries strewn in anywhere. */
  ghost predicate Represents(t: TsValue, v: Json)
    decreases t, 1
  {
    match (t, v)
    case (TsNull, Null) => true
    case (TsBool(b), Bool(c)) => b == c
    case (TsNumber(n), Int(m)) => n == m && -MAX_SAFE_INTEGER <= n <= MAX_SAFE_INTEGER
    case (TsString(u), Str(s)) => u == Utf16(s)
    case (TsArray(ts), Arr(vs)) => RepresentsItems(ts, vs)
    case (TsObject(ts), Obj(vs)) => RepresentsEntries(ts, vs)
    case _ => false
  }

  ghost predicate RepresentsItems(ts: seq<TsValue>, vs: seq<Json>)
    decreases ts, 0
  {
    if ts == [] then vs == []
    else vs != [] && Represents(ts[0], vs[0]) && RepresentsItems(ts[1..], vs[1..])
  }

  ghost predicate RepresentsEntries(ts: seq<TsEntry>, vs: seq<Entry>)
    decreases ts, 0
  {
    if ts == [] then vs == []
    else if ts[0].value.Undefined? then RepresentsEntries(ts[1..], vs)
    else
      && vs != [] && ts[0].key == Utf16(vs[0].key) && Represents(ts[0].value, vs[0].value)
      && RepresentsEntries(ts[1..], vs[1..])
  }

  function EncodePart(p: Part): TsPart {
    TsPart(Utf16(p.key), Utf16(p.text))
  }

  function EncodeItem(text: string): TsPart {
    TsPart([], Utf16(text))
  }

  /** The two printers agree on every value both can hold, whatever undefined entries there are. */
  lemma {:induction false} PrintersAgree(t: TsValue, v: Json)
    requires Represents(t, v)
    ensures TsText(t) == Ok(Utf16(Canonical(v)))
    decreases t, 1
  {
    match (t, v)
    case (TsString(u), Str(s)) => StringifyIsQuote(s);
    case (TsArray(ts), Arr(vs)) =>
      ItemsAgree(ts, vs);
      JoinItems(CanonicalItems(vs));
      WrapText("[", Join(CanonicalItems(vs)), "]");
    case (TsObject(ts), Obj(vs)) =>
      PartsAgree(ts, vs);
      SortedAgree(Parts(vs));
      var sorted := Sort(PartKey, Parts(vs));
      JoinParts(sorted);
      WrapText("{", Join(Texts(sorted)), "}");
    case _ =>
  }

  lemma WrapText(open: string, body: string, close: string)
    ensures Wrap(open, Utf16(body), close) == Utf16(open + body + close)
  {
    Utf16Concat(open + body, close);
    Utf16Concat(open, body);
  }

  lemma {:induction false} ItemsAgree(ts: seq<TsValue>, vs: seq<Json>)
    requires RepresentsItems(ts, vs)
    ensures TsItems(ts) == Ok(Map(EncodeItem, CanonicalItems(vs)))
    decreases ts, 0
  {
    if ts != [] {
      PrintersAgree(ts[0], vs[0]);
      ItemsAgree(ts[1..], vs[1..]);
      assert CanonicalItems(vs)[1..] == CanonicalItems(vs[1..]);
    }
  }

  lemma {:induction false} PartsAgree(ts: seq<TsEntry>, vs: seq<Entry>)
    requires RepresentsEntries(ts, vs)
    ensures TsParts(ts) == Ok(Map(EncodePart, Parts(vs)))
    decreases ts, 0
  {
    if ts == [] {
    } else if ts[0].value.Undefined? {
      PartsAgree(ts[1..], vs);
    } else {
      PrintersAgree(ts[0].value, vs[0].value);
      PartsAgree(ts[1..], vs[1..]);
      StringifyIsQuote(vs[0].key);
      Utf16Concat(Quote(vs[0].key) + ":", Canonical(vs[0].value));
      Utf16Concat(Quote(vs[0].key), ":");
      assert Parts(vs)[1..] == Parts(vs[1..]);
    }
  }

  lemma SortedAgree(parts: seq<Part>)
    ensures Sort(TsKey, Map(EncodePart, parts)) == Map(EncodePart, Sort(PartKey, parts))
  {
    forall i | 0 <= i < |parts| ensures TsKey(EncodePart(parts[i])) == PartKey(parts[i]) {
      CodePointsOfUtf16(parts[i].key);
    }
    SortMap(PartKey, TsKey, EncodePart, parts);
  }

  lemma {:induction false} JoinItems(texts: seq<string>)
    ensures TsJoin(Map(EncodeItem, texts)) == Utf16(Join(texts))
  {
    if texts != [] {
      MapLength(EncodeItem, texts);
      assert Map(EncodeItem, texts)[1..] == Map(EncodeItem, texts[1..]);
      JoinItems(texts[1..]);
      Utf16Concat(texts[0] + ",", Join(texts[1..]));
      Utf16Concat(texts[0], ",");
    }
  }

  lemma {:induction false} JoinParts(parts: seq<Part>)
    ensures TsJoin(Map(EncodePart, parts)) == Utf16(Join(Texts(parts)))
    ensures |Texts(parts)| == |parts|
  {
    if parts != [] {
      MapLength(EncodePart, parts);
      assert Map(EncodePart, parts)[1..] == Map(EncodePart, parts[1..]);
      assert Texts(parts)[1..] == Texts(parts[1..]);
      JoinParts(parts[1..]);
      Utf16Concat(parts[0].text + ",", Join(Texts(parts[1..])));
      Utf16Concat(parts[0].text, ",");
    }
  }
}
