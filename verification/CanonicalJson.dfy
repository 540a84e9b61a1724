/**
 Canonical JSON as scripts/verify_release.py prints it, a parser that inverts it (strings as in
 section 7 of RFC 8259), and what the text determines: the value up to the order of object entries.
 */
module CanonicalJson {
  import opened Wrappers
  import opened KeyOrder

  /** A dict keeps its entries in insertion order. */
  datatype Json =
    | Null
    | Bool(b: bool)
    | Int(n: int)
    | Str(s: string)
    | Arr(items: seq<Json>)
    | Obj(entries: seq<Entry>)

  datatype Entry = Entry(key: string, value: Json)

  /** One printed object member, before the members are ordered. */
  datatype Part = Part(key: string, text: string)

  function EntryKey(e: Entry): Points { PointsOf(e.key) }

  function PartKey(p: Part): Points { PointsOf(p.key) }

  // ---------------------------------------------------------------- strings

  function HexDigit(n: nat): char
    requires n < 16
  {
    "0123456789abcdef"[n]
  }

  function EscapeChar(c: char): string {
    if c == '\\' then "\\\\"
    else if c == '"' then "\\\""
    else if c == '\U{8}' then "\\b"
    else if c == '\t' then "\\t"
    else if c == '\n' then "\\n"
    else if c == '\U{C}' then "\\f"
    else if c == '\r' then "\\r"
    else if c < ' ' then "\\u00" + [HexDigit(c as int / 16), HexDigit(c as int % 16)]
    else [c]
  }

  function Escape(s: string): string {
    if s == "" then "" else EscapeChar(s[0]) + Escape(s[1..])
  }

  function Quote(s: string): string {
    "\"" + Escape(s) + "\""
  }

  // ---------------------------------------------------------------- values

  function PrintNat(n: nat): string {
    if n < 10 then [HexDigit(n)] else PrintNat(n / 10) + [HexDigit(n % 10)]
  }

  function PrintInt(n: int): string {
    if n < 0 then "-" + PrintNat(-n) else PrintNat(n)
  }

  function Join(texts: seq<string>): string {
    if |texts| == 0 then "" else if |texts| == 1 then texts[0] else texts[0] + "," + Join(texts[1..])
  }

  function Texts(parts: seq<Part>): seq<string> {
    if parts == [] then [] else [parts[0].text] + Texts(parts[1..])
  }

  /** The canonical text: members in code-point order of their keys. */
  function Canonical(v: Json): string
    decreases v, 1
  {
    match v
    case Null => "null"
    case Bool(b) => if b then "true" else "false"
    case Int(n) => PrintInt(n)
    case Str(s) => Quote(s)
    case Arr(items) => "[" + Join(CanonicalItems(items)) + "]"
    case Obj(entries) => "{" + Join(Texts(Sort(PartKey, Parts(entries)))) + "}"
  }

  function CanonicalItems(items: seq<Json>): (r: seq<string>)
    ensures |r| == |items|
    decreases items, 0
  {
    if items == [] then [] else [Canonical(items[0])] + CanonicalItems(items[1..])
  }

  function Parts(entries: seq<Entry>): seq<Part>
    decreases entries, 0
  {
    if entries == [] then []
    else [Part(entries[0].key, Quote(entries[0].key) + ":" + Canonical(entries[0].value))] + Parts(entries[1..])
  }

  predicate Digit(c: char) {
    '0' <= c <= '9'
  }

  lemma {:induction false} NatShape(n: nat)
    ensures PrintNat(n) != "" && forall i :: 0 <= i < |PrintNat(n)| ==> Digit(PrintNat(n)[i])
    ensures PrintNat(n)[0] == '0' <==> n == 0
  {
    if n >= 10 {
      NatShape(n / 10);
    }
  }

  /** Integers are printed without leading zeros, and with a sign only when they are negative. */
  lemma IntegerShape(n: int)
    ensures var text := PrintInt(n);
            && text != "" && (text[0] == '-' <==> n < 0) && (text[0] == '0' <==> n == 0)
            && (n < 0 ==> |text| > 1 && text[1] != '0')
            && forall i :: (if n < 0 then 1 else 0) <= i < |text| ==> Digit(text[i])
  {
    NatShape(if n < 0 then -n else n);
  }

  // ---------------------------------------------------------------- the printer as it runs

  method QuoteJsonString(value: string) returns (text: string)
    ensures text == Quote(value)
  {
    var chars := "\"";
    for i := 0 to |value|
      invariant chars + Escape(value[i..]) == "\"" + Escape(value)
    {
      assert value[i..][1..] == value[i + 1..];
      chars := chars + EscapeChar(value[i]);
    }
    text := chars + "\"";
  }

  /** `json.dumps` on integers, digit by digit from the right. */
  method PrintInteger(n: int) returns (text: string)
    ensures text == PrintInt(n)
  {
    var rest := if n < 0 then -n else n;
    ghost var magnitude := rest;
    text := "";
    while rest >= 10
      invariant rest >= 0 && PrintNat(magnitude) == PrintNat(rest) + text
    {
      text := [HexDigit(rest % 10)] + text;
      rest := rest / 10;
    }
    text := [HexDigit(rest)] + text;
    if n < 0 {
      text := "-" + text;
    }
  }

  lemma {:induction false} JoinLast(texts: seq<string>, last: string)
    ensures Join(texts + [last]) == (if texts == [] then last else Join(texts) + "," + last)
  {
    if |texts| > 1 {
      assert (texts + [last])[1..] == texts[1..] + [last];
      JoinLast(texts[1..], last);
    } else if |texts| == 1 {
      assert (texts + [last])[1..] == [last];
    }
  }

  method CanonicalText(v: Json) returns (text: string)
    ensures text == Canonical(v)
    decreases v, 1
  {
    match v
    case Null => text := "null";
    case Bool(b) => text := if b then "true" else "false";
    case Int(n) => text := PrintInteger(n);
    case Str(s) => text := QuoteJsonString(s);
    case Arr(items) => text := CanonicalArray(items);
    case Obj(entries) => text := CanonicalObject(entries);
  }

  method CanonicalArray(items: seq<Json>) returns (text: string)
    ensures text == "[" + Join(CanonicalItems(items)) + "]"
    decreases items, 0
  {
    var body := "";
    for i := 0 to |items|
      invariant body == Join(CanonicalItems(items[..i]))
    {
      var item := CanonicalText(items[i]);
      assert items[..i + 1] == items[..i] + [items[i]];
      ItemsAppend(items[..i], items[i]);
      JoinLast(CanonicalItems(items[..i]), item);
      body := if i == 0 then item else body + "," + item;
    }
    assert items[..|items|] == items;
    text := "[" + body + "]";
  }

  method CanonicalMember(e: Entry) returns (text: string)
    ensures text == Quote(e.key) + ":" + Canonical(e.value)
    decreases e, 0
  {
    var key := QuoteJsonString(e.key);
    var value := CanonicalText(e.value);
    text := key + ":" + value;
  }

  /** One pass over the keys in order; a comma precedes every member but the first. */
  method CanonicalObject(entries: seq<Entry>) returns (text: string)
    ensures text == "{" + Join(Texts(Sort(PartKey, Parts(entries)))) + "}"
    decreases entries, 1
  {
    PartsOfSorted(entries);
    var body := CanonicalMembers(entries, Sort(EntryKey, entries));
    text := "{" + body + "}";
  }

  method CanonicalMembers(entries: seq<Entry>, ordered: seq<Entry>) returns (body: string)
    requires forall e <- ordered :: e in entries
    ensures body == Join(Texts(Parts(ordered)))
    decreases entries, 0
  {
    body := "";
    for i := 0 to |ordered|
      invariant body == Join(Texts(Parts(ordered[..i])))
    {
      assert ordered[i] in entries;
      var member := CanonicalMember(ordered[i]);
      MembersNext(ordered, i);
      body := if i == 0 then member else body + "," + member;
    }
    assert ordered[..|ordered|] == ordered;
  }

  lemma MembersNext(es: seq<Entry>, i: nat)
    requires i < |es|
    ensures var member := Quote(es[i].key) + ":" + Canonical(es[i].value);
            Join(Texts(Parts(es[..i + 1]))) == (if i == 0 then member else Join(Texts(Parts(es[..i]))) + "," + member)
  {
    assert es[..i + 1] == es[..i] + [es[i]];
    PartsAppend(es[..i], es[i]);
    JoinLast(Texts(Parts(es[..i])), Quote(es[i].key) + ":" + Canonical(es[i].value));
  }

  lemma {:induction false} ItemsAppend(items: seq<Json>, last: Json)
    ensures CanonicalItems(items + [last]) == CanonicalItems(items) + [Canonical(last)]
  {
    if items != [] {
      assert (items + [last])[1..] == items[1..] + [last];
      ItemsAppend(items[1..], last);
    }
  }

  lemma {:induction false} PartsAppend(entries: seq<Entry>, last: Entry)
    ensures Texts(Parts(entries + [last]))
         == Texts(Parts(entries)) + [Quote(last.key) + ":" + Canonical(last.value)]
    ensures |Texts(Parts(entries))| == |entries|
  {
    if entries != [] {
      assert (entries + [last])[1..] == entries[1..] + [last];
      PartsAppend(entries[1..], last);
    } else {
      assert [last][1..] == [];
      assert Parts([last]) == [Part(last.key, Quote(last.key) + ":" + Canonical(last.value))];
      assert Parts([last])[1..] == [];
    }
  }

  function PartOf(e: Entry): Part {
    Part(e.key, Quote(e.key) + ":" + Canonical(e.value))
  }

  lemma {:induction false} PartsAreMapped(entries: seq<Entry>)
    ensures Parts(entries) == Map(PartOf, entries)
  {
    if entries != [] {
      PartsAreMapped(entries[1..]);
    }
  }

  /** Printing in key order and ordering what was printed are the same. */
  lemma PartsOfSorted(entries: seq<Entry>)
    ensures Sort(PartKey, Parts(entries)) == Parts(Sort(EntryKey, entries))
    ensures forall e :: e in Sort(EntryKey, entries) ==> e in entries
  {
    PartsAreMapped(entries);
    PartsAreMapped(Sort(EntryKey, entries));
    SortMap(EntryKey, PartKey, PartOf, entries);
  }
}
