/** Newline-delimited framing: which complete lines a stream holds, and what is left over. */
module LineFraming {
  /** `indexOf("\n")` */
  function IndexOfNewline(s: string): (n: int)
    ensures -1 <= n < |s|
    ensures n == -1 ==> '\n' !in s
    ensures n >= 0 ==> s[n] == '\n' && '\n' !in s[..n]
  {
    if s == "" then -1
    else if s[0] == '\n' then 0
    else
      var n := IndexOfNewline(s[1..]);
      if n == -1 then -1
      else
        assert s[..n + 1] == [s[0]] + s[1..][..n];
        n + 1
  }

  function Lines(s: string): seq<string>
    decreases |s|
  {
    var n := IndexOfNewline(s);
    if n == -1 then [] else [s[..n]] + Lines(s[n + 1..])
  }

  function Tail(s: string): string
    decreases |s|
  {
    var n := IndexOfNewline(s);
    if n == -1 then s else Tail(s[n + 1..])
  }

  lemma LinesUnfold(s: string)
    ensures var n := IndexOfNewline(s);
            if n == -1 then Lines(s) == [] && Tail(s) == s
            else Lines(s) == [s[..n]] + Lines(s[n + 1..]) && Tail(s) == Tail(s[n + 1..])
  {
  }

  lemma {:induction false} NewlineUnique(s: string, n: nat)
    requires n < |s| && s[n] == '\n' && '\n' !in s[..n]
    ensures IndexOfNewline(s) == n
  {
    if n > 0 {
      assert s[0] == s[..n][0];
      assert s[1..][..n - 1] == s[..n][1..];
      NewlineUnique(s[1..], n - 1);
    }
  }

  /** Reading more of the stream continues from the tail. */
  lemma {:induction false} LinesContinue(s: string, t: string)
    ensures Lines(s + t) == Lines(s) + Lines(Tail(s) + t)
    ensures Tail(s + t) == Tail(Tail(s) + t)
    decreases |s|
  {
    var n := IndexOfNewline(s);
    if n >= 0 {
      assert (s + t)[..n] == s[..n];
      NewlineUnique(s + t, n);
      assert (s + t)[n + 1..] == s[n + 1..] + t;
      LinesContinue(s[n + 1..], t);
    }
  }

  function Concat(chunks: seq<string>): string {
    if chunks == [] then "" else Concat(chunks[..|chunks| - 1]) + chunks[|chunks| - 1]
  }

  lemma ConcatNext(chunks: seq<string>, i: nat)
    requires i < |chunks|
    ensures Concat(chunks[..i + 1]) == Concat(chunks[..i]) + chunks[i]
  {
    assert chunks[..i + 1][..i] == chunks[..i];
  }
}
