/**
 A parser for the compact JSON texts the canonical printer writes, and the proof that it inverts the
 printer. Hence the canonical text determines the value up to the order of object entries, and nothing
 else about it.
 */
module JsonParser {
  import opened Wrappers
  import opened KeyOrder
  import opened CanonicalJson

  datatype Parsed<+T> = Fail | Done(value: T, rest: string)

  // ---------------------------------------------------------------- the parser

  function HexValue(c: char): (r: Option<nat>)
    ensures r.Some? ==> r.value < 16
  {
    if '0' <= c <= '9' then Some(c as int - '0' as int)
    else if 'a' <= c <= 'f' then Some(c as int - 'a' as int + 10)
    else if 'A' <= c <= 'F' then Some(c as int - 'A' as int + 10)
    else None
  }

  function Unescape(c: char): Option<char> {
    match c
    case '"' => Some('"')
    case '\\' => Some('\\')
    case '/' => Some('/')
    case 'b' => Some('\U{8}')
    case 'f' => Some('\U{C}')
    case 'n' => Some('\n')
    case 'r' => Some('\r')
    case 't' => Some('\t')
    case _ => None
  }

  /** The code unit written by four hex digits; a lone surrogate is not a character. */
  function HexChar(s: string): Option<char>
    requires |s| == 4
  {
    var a, b, c, d := HexValue(s[0]), HexValue(s[1]), HexValue(s[2]), HexValue(s[3]);
    if a.None? || b.None? || c.None? || d.None? then None
    else
      var n := ((a.value * 16 + b.value) * 16 + c.value) * 16 + d.value;
      if 0xD800 <= n < 0xE000 then None else Some(n as char)
  }

  function Prepend(c: char, p: Parsed<string>): Parsed<string> {
    match p
    case Fail => Fail
    case Done(t, rest) => Done([c] + t, rest)
  }

  function ParseChars(s: string): (r: Parsed<string>)
    ensures r.Done? ==> |r.rest| < |s|
    decreases |s|
  {
    if s == "" then Fail
    else if s[0] == '"' then Done("", s[1..])
    else if s[0] < ' ' then Fail
    else if s[0] != '\\' then Prepend(s[0], ParseChars(s[1..]))
    else if |s| >= 6 && s[1] == 'u' then
      var c := HexChar(s[2..6]);
      if c.None? then Fail else Prepend(c.value, ParseChars(s[6..]))
    else if |s| >= 2 && Unescape(s[1]).Some? then Prepend(Unescape(s[1]).value, ParseChars(s[2..]))
    else Fail
  }

  predicate StartsWithDigit(s: string) {
    s != "" && '0' <= s[0] <= '9'
  }

  function ParseDigits(s: string, acc: nat): (r: (nat, string))
    ensures |r.1| <= |s|
    decreases |s|
  {
    if StartsWithDigit(s) then ParseDigits(s[1..], acc * 10 + (s[0] as int - '0' as int)) else (acc, s)
  }

  function ParseWord(word: string, v: Json, s: string): Parsed<Json> {
    if word <= s then Done(v, s[|word|..]) else Fail
  }

  function ParseValue(s: string): (r: Parsed<Json>)
    ensures r.Done? ==> |r.rest| < |s|
    decreases |s|, 0
  {
    if s == "" then Fail
    else if s[0] == 'n' then ParseWord("null", Null, s)
    else if s[0] == 't' then ParseWord("true", Bool(true), s)
    else if s[0] == 'f' then ParseWord("false", Bool(false), s)
    else if s[0] == '"' then
      match ParseChars(s[1..])
      case Fail => Fail
      case Done(t, rest) => Done(Str(t), rest)
    else if s[0] == '[' then
      if |s| >= 2 && s[1] == ']' then Done(Arr([]), s[2..])
      else
        match ParseItems(s[1..])
        case Fail => Fail
        case Done(items, rest) => Done(Arr(items), rest)
    else if s[0] == '{' then
      if |s| >= 2 && s[1] == '}' then Done(Obj([]), s[2..])
      else
        match ParseMembers(s[1..])
        case Fail => Fail
        case Done(entries, rest) => Done(Obj(entries), rest)
    else if s[0] == '-' then
      if StartsWithDigit(s[1..]) then
        var (n, rest) := ParseDigits(s[1..], 0);
        Done(Int(0 - n), rest)
      else Fail
    else if StartsWithDigit(s) then
      var (n, rest) := ParseDigits(s[1..], s[0] as int - '0' as int);
      Done(Int(n), rest)
    else Fail
  }

  function ParseItems(s: string): (r: Parsed<seq<Json>>)
    ensures r.Done? ==> |r.rest| < |s|
    decreases |s|, 1
  {
    match ParseValue(s)
    case Fail => Fail
    case Done(v, rest) =>
      if rest != "" && rest[0] == ']' then Done([v], rest[1..])
      else if rest != "" && rest[0] == ',' then
        match ParseItems(rest[1..])
        case Fail => Fail
        case Done(vs, rest') => Done([v] + vs, rest')
      else Fail
  }

  function ParseMembers(s: string): (r: Parsed<seq<Entry>>)
    ensures r.Done? ==> |r.rest| < |s|
    decreases |s|, 1
  {
    if s == "" || s[0] != '"' then Fail
    else
      match ParseChars(s[1..])
      case Fail => Fail
      case Done(key, afterKey) =>
        if afterKey == "" || afterKey[0] != ':' then Fail
        else
          match ParseValue(afterKey[1..])
          case Fail => Fail
          case Done(v, rest) =>
            if rest != "" && rest[0] == '}' then Done([Entry(key, v)], rest[1..])
            else if rest != "" && rest[0] == ',' then
              match ParseMembers(rest[1..])
              case Fail => Fail
              case Done(es, rest') => Done([Entry(key, v)] + es, rest')
            else Fail
  }

  function Parse(s: string): Option<Json> {
    match ParseValue(s)
    case Fail => None
    case Done(v, rest) => if rest == "" then Some(v) else None
  }

  // ---------------------------------------------------------------- strings come back

  lemma HexDigitBack(n: nat)
    requires n < 16
    ensures HexValue(HexDigit(n)) == Some(n)
  {
    assert "0123456789abcdef"[n] == if n < 10 then ('0' as int + n) as char else ('a' as int + n - 10) as char;
  }

  lemma ControlCharBack(c: char, tail: string)
    requires c < ' '
    ensures var hex := [HexDigit(c as int / 16), HexDigit(c as int % 16)];
            ParseChars("\\u00" + hex + tail) == Prepend(c, ParseChars(tail))
  {
    var n := c as int;
    var hex := [HexDigit(n / 16), HexDigit(n % 16)];
    var s := "\\u00" + hex + tail;
    HexDigitBack(n / 16);
    HexDigitBack(n % 16);
    assert s[2..6] == ['0', '0', hex[0], hex[1]];
    assert s[6..] == tail;
    assert HexChar(s[2..6]) == Some(c);
  }

  lemma ShortEscapeBack(e: char, c: char, tail: string)
    requires Unescape(e) == Some(c) && e != 'u'
    ensures ParseChars(['\\', e] + tail) == Prepend(c, ParseChars(tail))
  {
    assert (['\\', e] + tail)[2..] == tail;
  }

  /** One escaped character, before anything, is read as that character. */
  lemma EscapedCharBack(c: char, tail: string)
    ensures ParseChars(EscapeChar(c) + tail) == Prepend(c, ParseChars(tail))
  {
    if EscapeChar(c) == [c] {
      assert ([c] + tail)[1..] == tail;
    } else if |EscapeChar(c)| == 2 {
      assert EscapeChar(c) == ['\\', EscapeChar(c)[1]];
      ShortEscapeBack(EscapeChar(c)[1], c, tail);
    } else {
      ControlCharBack(c, tail);
    }
  }

  /** Unquoting inverts quoting, on every code point and in front of any text. */
  lemma {:induction false} QuotedBack(t: string, rest: string)
    ensures ParseChars(Escape(t) + "\"" + rest) == Done(t, rest)
  {
    if t == "" {
      assert (Escape(t) + "\"" + rest)[1..] == rest;
    } else {
      var tail := Escape(t[1..]) + "\"" + rest;
      assert Escape(t) + "\"" + rest == EscapeChar(t[0]) + tail;
      EscapedCharBack(t[0], tail);
      QuotedBack(t[1..], rest);
      assert [t[0]] + t[1..] == t;
    }
  }

  // ---------------------------------------------------------------- integers come back

  lemma {:induction false} DigitsBack(n: nat, rest: string)
    ensures ParseDigits(PrintNat(n) + rest, 0) == ParseDigits(rest, n)
    ensures StartsWithDigit(PrintNat(n))
    decreases n
  {
    HexDigitBack(n % 10);
    if n < 10 {
      assert (PrintNat(n) + rest)[1..] == rest;
    } else {
      var last := [HexDigit(n % 10)];
      assert PrintNat(n) + rest == PrintNat(n / 10) + (last + rest);
      DigitsBack(n / 10, last + rest);
      assert (last + rest)[1..] == rest;
    }
  }

  /** A text that starts with a digit is read as a natural number. */
  lemma DigitsAreRead(s: string, n: nat, rest: string)
    requires StartsWithDigit(s) && ParseDigits(s, 0) == (n, rest)
    ensures ParseValue(s) == Done(Int(n), rest)
  {
    assert ParseDigits(s, 0) == ParseDigits(s[1..], s[0] as int - '0' as int);
  }

  lemma MinusIsRead(s: string, n: nat, rest: string)
    requires s != "" && s[0] == '-' && StartsWithDigit(s[1..]) && ParseDigits(s[1..], 0) == (n, rest)
    ensures ParseValue(s) == Done(Int(0 - n), rest)
  {
  }

  lemma NumeralBack(n: nat, rest: string)
    requires !StartsWithDigit(rest)
    ensures StartsWithDigit(PrintNat(n) + rest) && ParseDigits(PrintNat(n) + rest, 0) == (n, rest)
  {
    DigitsBack(n, rest);
    assert (PrintNat(n) + rest)[0] == PrintNat(n)[0];
  }

  lemma IntegerBack(n: int, rest: string)
    requires !StartsWithDigit(rest)
    ensures ParseValue(PrintInt(n) + rest) == Done(Int(n), rest)
  {
    var m := if n < 0 then -n else n;
    NumeralBack(m, rest);
    if n < 0 {
      assert (PrintInt(n) + rest)[1..] == PrintNat(m) + rest;
      MinusIsRead(PrintInt(n) + rest, m, rest);
    } else {
      DigitsAreRead(PrintNat(m) + rest, m, rest);
    }
  }

  // ---------------------------------------------------------------- values come back

  /** The value with the entries of every object in key order. */
  function Normal(v: Json): Json
    decreases v, 1
  {
    match v
    case Arr(items) => Arr(NormalItems(items))
    case Obj(entries) => Obj(Sort(EntryKey, NormalEntries(entries)))
    case _ => v
  }

  function NormalItems(items: seq<Json>): (r: seq<Json>)
    ensures |r| == |items|
    decreases items, 0
  {
    if items == [] then [] else [Normal(items[0])] + NormalItems(items[1..])
  }

  function NormalEntries(entries: seq<Entry>): (r: seq<Entry>)
    ensures |r| == |entries|
    decreases entries, 0
  {
    if entries == [] then []
    else [Entry(entries[0].key, Normal(entries[0].value))] + NormalEntries(entries[1..])
  }

  function NormalEntry(e: Entry): Entry {
    Entry(e.key, Normal(e.value))
  }

  lemma {:induction false} EntriesAreMapped(entries: seq<Entry>)
    ensures NormalEntries(entries) == Map(NormalEntry, entries)
  {
    if entries != [] {
      EntriesAreMapped(entries[1..]);
    }
  }

  lemma NormalOfSorted(entries: seq<Entry>)
    ensures Sort(EntryKey, NormalEntries(entries)) == NormalEntries(Sort(EntryKey, entries))
  {
    EntriesAreMapped(entries);
    EntriesAreMapped(Sort(EntryKey, entries));
    SortMap(EntryKey, EntryKey, NormalEntry, entries);
  }

  /** No text of a value begins like the end of a list or an object. */
  lemma TextStarts(v: Json)
    ensures Canonical(v) != "" && Canonical(v)[0] !in ",]}:"
  {
    if v.Int? {
      DigitsBack(if v.n < 0 then -v.n else v.n, "");
    }
  }

  lemma NullBack(rest: string)
    ensures ParseValue("null" + rest) == Done(Null, rest)
  {
    assert ("null" + rest)[4..] == rest;
  }

  lemma BoolBack(b: bool, rest: string)
    ensures ParseValue((if b then "true" else "false") + rest) == Done(Bool(b), rest)
  {
    assert ("true" + rest)[4..] == rest && ("false" + rest)[5..] == rest;
  }

  lemma StringBack(t: string, rest: string)
    ensures ParseValue(Quote(t) + rest) == Done(Str(t), rest)
  {
    assert (Quote(t) + rest)[1..] == Escape(t) + "\"" + rest;
    QuotedBack(t, rest);
  }

  lemma {:induction false} ValueBack(v: Json, rest: string)
    requires !StartsWithDigit(rest)
    ensures ParseValue(Canonical(v) + rest) == Done(Normal(v), rest)
    decreases v, 1, 0
  {
    match v
    case Null => NullBack(rest);
    case Bool(b) => BoolBack(b, rest);
    case Int(n) => IntegerBack(n, rest);
    case Str(t) => StringBack(t, rest);
    case Arr(items) => ArrayBack(items, rest);
    case Obj(entries) => ObjectBack(entries, rest);
  }

  lemma ArrayBack(items: seq<Json>, rest: string)
    ensures ParseValue(Canonical(Arr(items)) + rest) == Done(Normal(Arr(items)), rest)
    decreases items, 1, 0
  {
    var body := Join(CanonicalItems(items));
    var s := "[" + body + "]" + rest;
    assert Canonical(Arr(items)) + rest == s;
    if items == [] {
      assert s[2..] == rest;
    } else {
      assert s[1..] == body + "]" + rest;
      ItemsBack(items, rest);
      TextStarts(items[0]);
      assert body[0] == Canonical(items[0])[0];
    }
  }

  lemma {:induction false} ItemsBack(items: seq<Json>, rest: string)
    requires items != []
    ensures ParseItems(Join(CanonicalItems(items)) + "]" + rest) == Done(NormalItems(items), rest)
    decreases items, 0, |items|
  {
    var first := Canonical(items[0]);
    var s := Join(CanonicalItems(items)) + "]" + rest;
    assert CanonicalItems(items)[1..] == CanonicalItems(items[1..]);
    if |items| == 1 {
      assert s == first + ("]" + rest);
      ValueBack(items[0], "]" + rest);
      assert ("]" + rest)[1..] == rest;
      assert NormalItems(items) == [Normal(items[0])];
    } else {
      var tail := Join(CanonicalItems(items[1..])) + "]" + rest;
      assert s == first + ("," + tail);
      ValueBack(items[0], "," + tail);
      assert ("," + tail)[1..] == tail;
      ItemsBack(items[1..], rest);
    }
  }

  function Members(es: seq<Entry>): string {
    Join(Texts(Parts(es)))
  }

  lemma MembersUnfold(es: seq<Entry>)
    requires es != []
    ensures var first := Quote(es[0].key) + ":" + Canonical(es[0].value);
            Members(es) == if |es| == 1 then first else first + "," + Members(es[1..])
  {
    var parts := Parts(es);
    assert parts[1..] == Parts(es[1..]);
    assert Texts(parts)[1..] == Texts(parts[1..]);
    PartsAppend(es[1..], es[0]);
  }

  lemma ObjectText(entries: seq<Entry>)
    ensures Canonical(Obj(entries)) == "{" + Members(Sort(EntryKey, entries)) + "}"
    ensures Normal(Obj(entries)) == Obj(NormalEntries(Sort(EntryKey, entries)))
  {
    PartsOfSorted(entries);
    NormalOfSorted(entries);
  }

  lemma ObjectBack(entries: seq<Entry>, rest: string)
    ensures ParseValue(Canonical(Obj(entries)) + rest) == Done(Normal(Obj(entries)), rest)
    decreases entries, 1, 0
  {
    ObjectText(entries);
    SortMembers(entries);
    var ordered := Sort(EntryKey, entries);
    var inner := Members(ordered) + "}" + rest;
    assert ("{" + Members(ordered) + "}") + rest == "{" + inner;
    if ordered == [] {
      EmptyObjectBack(rest);
      assert inner == "}" + rest;
    } else {
      MembersBack(entries, ordered, rest);
      ObjectStarts(inner);
    }
  }

  lemma SortMembers(entries: seq<Entry>)
    ensures forall e :: e in Sort(EntryKey, entries) ==> e in entries
  {
    PartsOfSorted(entries);
  }

  lemma EmptyObjectBack(rest: string)
    ensures ParseValue("{" + ("}" + rest)) == Done(Obj([]), rest)
  {
    assert ("{" + ("}" + rest))[2..] == rest;
  }

  /** After an opening brace and a quote the object's members are read. */
  lemma ObjectStarts(inner: string)
    requires inner != "" && inner[0] == '"'
    ensures ParseValue("{" + inner)
         == match ParseMembers(inner)
            case Fail => Fail
            case Done(es, rest) => Done(Obj(es), rest)
  {
    assert ("{" + inner)[1..] == inner;
  }

  /** A quoted key and a colon are read, then the member's value. */
  lemma KeyBack(key: string, w: string)
    ensures ParseMembers(Quote(key) + ":" + w)
         == match ParseValue(w)
            case Fail => Fail
            case Done(v, rest) =>
              if rest != "" && rest[0] == '}' then Done([Entry(key, v)], rest[1..])
              else if rest != "" && rest[0] == ',' then
                match ParseMembers(rest[1..])
                case Fail => Fail
                case Done(es, rest') => Done([Entry(key, v)] + es, rest')
              else Fail
  {
    var s := Quote(key) + ":" + w;
    var afterKey := ":" + w;
    assert s[1..] == Escape(key) + "\"" + afterKey;
    QuotedBack(key, afterKey);
    assert afterKey[1..] == w;
  }

  /** What follows the first member's value. */
  function MembersTail(es: seq<Entry>, rest: string): string
    requires es != []
  {
    if |es| == 1 then "}" + rest else "," + (Members(es[1..]) + "}" + rest)
  }

  lemma MembersText(es: seq<Entry>, rest: string)
    requires es != []
    ensures Members(es) + "}" + rest
         == Quote(es[0].key) + ":" + (Canonical(es[0].value) + MembersTail(es, rest))
    ensures Members(es) != "" && Members(es)[0] == '"'
    ensures !StartsWithDigit(MembersTail(es, rest))
  {
    MembersUnfold(es);
    var q, c := Quote(es[0].key), Canonical(es[0].value);
    if |es| > 1 {
      Regroup(q, c, Members(es[1..]), rest);
    } else {
      assert (q + ":" + c) + "}" + rest == q + ":" + (c + ("}" + rest));
    }
  }

  lemma Regroup(q: string, c: string, more: string, rest: string)
    ensures (q + ":" + c + "," + more) + "}" + rest == q + ":" + (c + ("," + (more + "}" + rest)))
  {
    var tail := more + "}" + rest;
    assert (q + ":" + c + "," + more) + "}" + rest == q + ":" + c + "," + tail;
    assert q + ":" + c + "," + tail == q + ":" + (c + ("," + tail));
  }

  lemma {:induction false} MembersBack(whole: seq<Entry>, es: seq<Entry>, rest: string)
    requires es != [] && forall e :: e in es ==> e in whole
    ensures ParseMembers(Members(es) + "}" + rest) == Done(NormalEntries(es), rest)
    ensures Members(es) != "" && Members(es)[0] == '"'
    decreases whole, 0, |es|
  {
    assert es[0] in whole;
    var tail := MembersTail(es, rest);
    MembersText(es, rest);
    KeyBack(es[0].key, Canonical(es[0].value) + tail);
    ValueBack(es[0].value, tail);
    if |es| == 1 {
      assert tail[1..] == rest;
      assert NormalEntries(es) == [Entry(es[0].key, Normal(es[0].value))];
    } else {
      assert tail[1..] == Members(es[1..]) + "}" + rest;
      MembersBack(whole, es[1..], rest);
    }
  }

  /** Reading a canonical text gives the value back, its objects in key order. */
  lemma CanonicalRoundTrip(v: Json)
    ensures Parse(Canonical(v)) == Some(Normal(v))
  {
    ValueBack(v, "");
    assert Canonical(v) + "" == Canonical(v);
  }
}
