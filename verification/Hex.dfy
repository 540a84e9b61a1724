/** Lower-case hex printing, and the 20-byte address parser. */
module Hex {
  import opened Wrappers

  type Byte = n: int | 0 <= n < 0x100
  type Bytes = seq<Byte>

  const DIGITS: string := "0123456789abcdef"

  function HexPair(b: Byte): string {
    [DIGITS[b / 16], DIGITS[b % 16]]
  }

  function HexText(bytes: Bytes): (s: string)
    ensures |s| == 2 * |bytes|
  {
    if bytes == [] then "" else HexPair(bytes[0]) + HexText(bytes[1..])
  }

  method HexLower(bytes: Bytes) returns (s: string)
    ensures s == HexText(bytes)
  {
    s := "";
    for i := 0 to |bytes|
      invariant s + HexText(bytes[i..]) == HexText(bytes)
    {
      assert bytes[i..][1..] == bytes[i + 1..];
      s := s + HexPair(bytes[i]);
    }
  }

  function DigitValue(c: char): (r: Option<int>)
    ensures r.Some? ==> 0 <= r.value < 16
  {
    if '0' <= c <= '9' then Some(c as int - '0' as int)
    else if 'a' <= c <= 'f' then Some(c as int - 'a' as int + 10)
    else if 'A' <= c <= 'F' then Some(c as int - 'A' as int + 10)
    else None
  }

  /** `u8::from_str_radix` on two characters. Either case of digit will do, and a leading plus sign is
      skipped, so "+f" reads as 15. */
  function PairValue(a: char, b: char): Option<Byte> {
    match DigitValue(b)
    case None => None
    case Some(low) =>
      if a == '+' then Some(low)
      else
        match DigitValue(a)
        case None => None
        case Some(high) => Some(high * 16 + low)
  }

  function Unhex(s: string): Option<Bytes>
    requires |s| % 2 == 0
  {
    if s == "" then Some([])
    else
      match (PairValue(s[0], s[1]), Unhex(s[2..]))
      case (Some(b), Some(rest)) => Some([b] + rest)
      case _ => None
  }

  function StripPrefix(s: string): string {
    if "0x" <= s then s[2..] else s
  }

  function Prefixed(a: Bytes, rest: Option<Bytes>): Option<Bytes> {
    match rest
    case None => None
    case Some(bytes) => Some(a + bytes)
  }

  lemma PrefixedNothing(rest: Option<Bytes>)
    ensures Prefixed([], rest) == rest
  {
    if rest.Some? {
      assert [] + rest.value == rest.value;
    }
  }

  lemma PrefixedMore(a: Bytes, s: string)
    requires |s| % 2 == 0 && s != ""
    ensures var b := PairValue(s[0], s[1]);
            Prefixed(a, Unhex(s)) == if b.Some? then Prefixed(a + [b.value], Unhex(s[2..])) else None
  {
    var b, rest := PairValue(s[0], s[1]), Unhex(s[2..]);
    if b.Some? && rest.Some? {
      assert a + ([b.value] + rest.value) == (a + [b.value]) + rest.value;
    }
  }

  /** Twenty bytes from forty digits; None at the first pair that is not a number. */
  method ParseAddrHex(text: string) returns (r: Option<Bytes>)
    ensures r == (var s := StripPrefix(text); if |s| != 40 then None else Unhex(s))
    ensures r.Some? ==> |r.value| == 20
  {
    var s := StripPrefix(text);
    if |s| != 40 {
      return None;
    }
    var a: Bytes := [];
    assert s[2 * 0..] == s;
    PrefixedNothing(Unhex(s));
    for i := 0 to 20
      invariant |a| == i
      invariant Unhex(s) == Prefixed(a, Unhex(s[2 * i..]))
    {
      ghost var rest := s[2 * i..];
      assert |rest| == 40 - 2 * i && rest[0] == s[2 * i] && rest[1] == s[2 * i + 1];
      assert rest[2..] == s[2 * (i + 1)..];
      PrefixedMore(a, rest);
      var b := PairValue(s[2 * i], s[2 * i + 1]);
      if b.None? {
        return None;
      }
      a := a + [b.value];
    }
    assert s[2 * 20..] == "";
    assert a + [] == a;
    return Some(a);
  }

  /** The digits are those of either case and no other characters. */
  lemma DigitsExactly(c: char, n: int)
    ensures DigitValue(c) == Some(n) <==> 0 <= n < 16 && (c == "0123456789abcdef"[n] || c == "0123456789ABCDEF"[n])
  {
    if 0 <= n < 16 {
      assert "0123456789abcdef"[n] == if n < 10 then ('0' as int + n) as char else ('a' as int + n - 10) as char;
      assert "0123456789ABCDEF"[n] == if n < 10 then ('0' as int + n) as char else ('A' as int + n - 10) as char;
    }
  }

  lemma HexPairBack(b: Byte)
    ensures PairValue(HexPair(b)[0], HexPair(b)[1]) == Some(b)
  {
    DigitBack(b / 16);
    DigitBack(b % 16);
  }

  lemma DigitBack(n: int)
    requires 0 <= n < 16
    ensures DigitValue(DIGITS[n]) == Some(n) && DIGITS[n] != '+' && DIGITS[n] != 'x'
  {
    assert DIGITS[n] == if n < 10 then ('0' as int + n) as char else ('a' as int + n - 10) as char;
  }

  lemma {:induction false} UnhexInverts(bytes: Bytes)
    ensures Unhex(HexText(bytes)) == Some(bytes)
    ensures bytes != [] ==> HexText(bytes)[1] != 'x'
  {
    if bytes != [] {
      HexPairBack(bytes[0]);
      DigitBack(bytes[0] % 16);
      var text := HexText(bytes);
      assert text == HexPair(bytes[0]) + HexText(bytes[1..]);
      assert text[0] == HexPair(bytes[0])[0] && text[1] == HexPair(bytes[0])[1];
      assert text[2..] == HexText(bytes[1..]);
      UnhexInverts(bytes[1..]);
      assert [bytes[0]] + bytes[1..] == bytes;
    }
  }

  lemma HexInjective(a: Bytes, b: Bytes)
    requires HexText(a) == HexText(b)
    ensures a == b
  {
    UnhexInverts(a);
    UnhexInverts(b);
  }

  /** A printed address is read back, with the 0x prefix or without it. */
  lemma AddressRoundTrip(a: Bytes)
    requires |a| == 20
    ensures var s := StripPrefix(HexText(a)); |s| == 40 && Unhex(s) == Some(a)
    ensures var s := StripPrefix("0x" + HexText(a)); |s| == 40 && Unhex(s) == Some(a)
  {
    UnhexInverts(a);
    assert ("0x" + HexText(a))[2..] == HexText(a);
  }
}
