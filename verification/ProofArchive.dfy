/**
 Release proof inputs: their digest (scripts/verify_release.py), and the two ways of taking them out of a tar
 (scripts/verify_release_asset.py writes them into a directory, scripts/verify_release_remote.py collects
 them in memory first).

 The list of files is a parameter `files`; PROOF_INPUT_FILES is the one the scripts use.
 */
module ProofArchive {
  import opened Wrappers
  import opened CanonicalJson
  import JsonParser
  import JsonEquality
  import KeyOrder
  import opened Hex

  type Files = map<string, Bytes>

  const PROOF_INPUT_FILES: seq<string> :=
    ["deployment_manifest.json", "deployment_manifest.sig", "registration_response.json", "invocation_receipt.json",
     "t3n_evidence.json", "replay_restart_proof.json"]

  const PREFIX: string := "proof/release/"

  ghost predicate Distinct<T>(s: seq<T>) {
    forall i, j :: 0 <= i < j < |s| ==> s[i] != s[j]
  }

  /** SHA-256 in hex, and the encoding of text. */
  datatype Hashing = Hashing(sha: Bytes -> string, utf8: string -> Bytes)

  ghost predicate CollisionFree(h: Hashing) {
    && (forall a, b :: h.sha(a) == h.sha(b) ==> a == b)
    && (forall s, t :: h.utf8(s) == h.utf8(t) ==> s == t)
  }

  // ---------------------------------------------------------------- the digest

  /** The words of the payload. */
  datatype Words = Words(schema: string, files: string, path: string, sha: string, version: string)

  const WORDS: Words := Words("schema_version", "files", "path", "sha256", "adn-release-proof-input-v1")

  lemma FileShapes()
    ensures var n := PROOF_INPUT_FILES;
            && |n| == 6
            && |n[0]| == 24 && |n[1]| == 23 && |n[2]| == 26 && |n[3]| == 23 && |n[4]| == 17 && |n[5]| == 25
            && n[0][0] == 'd' && n[1][0] == 'd' && n[2][0] == 'r' && n[3][0] == 'i' && n[4][0] == 't' && n[5][0] == 'r'
  {
  }

  lemma Unprefixed(f: string)
    requires |f| > 0 && f[0] != 'p'
    ensures !(PREFIX <= f)
  {
    assert PREFIX[0] == 'p';
  }

  /** What the results ask of the lists of files and words. */
  lemma ConstantsFit()
    ensures Distinct(PROOF_INPUT_FILES) && forall f <- PROOF_INPUT_FILES :: !(PREFIX <= f)
    ensures WORDS.path != WORDS.sha && WORDS.schema != WORDS.files
  {
    FileShapes();
    var n := PROOF_INPUT_FILES;
    forall i | 0 <= i < |n| ensures !(PREFIX <= n[i]) {
      Unprefixed(n[i]);
    }
    assert |WORDS.path| != |WORDS.sha| && |WORDS.schema| != |WORDS.files|;
  }

  predicate Holds(content: Files, files: seq<string>) {
    forall f <- files :: f in content
  }

  function FileJson(h: Hashing, k: Words, name: string, bytes: Bytes): Json {
    Obj([Entry(k.path, Str(name)), Entry(k.sha, Str(h.sha(bytes)))])
  }

  function FileList(h: Hashing, k: Words, files: seq<string>, content: Files): (r: seq<Json>)
    requires Holds(content, files)
    ensures |r| == |files|
  {
    if files == [] then []
    else [FileJson(h, k, files[0], content[files[0]])] + FileList(h, k, files[1..], content)
  }

  function Payload(h: Hashing, k: Words, files: seq<string>, content: Files): Json
    requires Holds(content, files)
  {
    Obj([Entry(k.schema, Str(k.version)), Entry(k.files, Arr(FileList(h, k, files, content)))])
  }

  function InputDigest(h: Hashing, k: Words, files: seq<string>, content: Files): string
    requires Holds(content, files)
  {
    h.sha(h.utf8(Canonical(Payload(h, k, files, content))))
  }

  /** The digest of a directory; None when a file is missing. */
  function DirectoryDigest(h: Hashing, k: Words, files: seq<string>, dir: Files): Option<string> {
    if Holds(dir, files) then Some(InputDigest(h, k, files, dir)) else None
  }

  // ---------------------------------------------------------------- the digest decides the files

  ghost predicate Agree(files: seq<string>, a: Files, b: Files)
    requires Holds(a, files) && Holds(b, files)
  {
    forall f <- files :: a[f] == b[f]
  }

  /** Entries with the same distinct keys in the same places are told apart by their sorted form. */
  lemma SortSeparates(n: seq<Entry>, m: seq<Entry>)
    requires |n| == |m| && forall i :: 0 <= i < |n| ==> n[i].key == m[i].key
    requires KeyOrder.DistinctKeys(EntryKey, n) && KeyOrder.DistinctKeys(EntryKey, m)
    requires KeyOrder.Sort(EntryKey, n) == KeyOrder.Sort(EntryKey, m)
    ensures n == m
  {
    KeyOrder.SortIsSorted(EntryKey, n);
    KeyOrder.SortIsSorted(EntryKey, m);
    forall i | 0 <= i < |n| ensures n[i] == m[i] {
      assert n[i] in multiset(m);
      var j :| 0 <= j < |m| && m[j] == n[i];
      assert EntryKey(m[j]) == EntryKey(m[i]);
    }
  }

  lemma NormalKeys(es: seq<Entry>)
    requires forall i, j :: 0 <= i < j < |es| ==> es[i].key != es[j].key
    ensures KeyOrder.DistinctKeys(EntryKey, JsonParser.NormalEntries(es))
    ensures forall i :: 0 <= i < |es| ==>
              && JsonParser.NormalEntries(es)[i].key == es[i].key
              && JsonParser.NormalEntries(es)[i].value == JsonParser.Normal(es[i].value)
  {
    var n := JsonParser.NormalEntries(es);
    JsonEquality.NormalEntriesAt(es);
    forall i, j | 0 <= i < j < |n| ensures EntryKey(n[i]) != EntryKey(n[j]) {
      if EntryKey(n[i]) == EntryKey(n[j]) {
        KeyOrder.PointsInjective(es[i].key, es[j].key);
        assert false;
      }
    }
  }

  /** Objects with the same distinct keys in the same places, normalized alike, hold values normalized alike. */
  lemma SameObjectSameValues(es: seq<Entry>, fs: seq<Entry>)
    requires JsonParser.Normal(Obj(es)) == JsonParser.Normal(Obj(fs))
    requires |es| == |fs| && forall i :: 0 <= i < |es| ==> es[i].key == fs[i].key
    requires forall i, j :: 0 <= i < j < |es| ==> es[i].key != es[j].key
    ensures forall i :: 0 <= i < |es| ==> JsonParser.Normal(es[i].value) == JsonParser.Normal(fs[i].value)
  {
    NormalKeys(es);
    NormalKeys(fs);
    SortSeparates(JsonParser.NormalEntries(es), JsonParser.NormalEntries(fs));
  }

  lemma FileJsonDecides(h: Hashing, k: Words, name: string, a: Bytes, b: Bytes)
    requires CollisionFree(h) && k.path != k.sha
    requires JsonParser.Normal(FileJson(h, k, name, a)) == JsonParser.Normal(FileJson(h, k, name, b))
    ensures a == b
  {
    var es, fs := FileJson(h, k, name, a).entries, FileJson(h, k, name, b).entries;
    SameObjectSameValues(es, fs);
    assert JsonParser.Normal(es[1].value) == JsonParser.Normal(fs[1].value);
    assert JsonParser.Normal(es[1].value) == Str(h.sha(a)) && JsonParser.Normal(fs[1].value) == Str(h.sha(b));
  }

  lemma {:induction false} FileListDecides(h: Hashing, k: Words, files: seq<string>, a: Files, b: Files)
    requires CollisionFree(h) && k.path != k.sha && Holds(a, files) && Holds(b, files)
    requires JsonParser.NormalItems(FileList(h, k, files, a)) == JsonParser.NormalItems(FileList(h, k, files, b))
    ensures Agree(files, a, b)
  {
    if files != [] {
      var x, y := FileList(h, k, files, a), FileList(h, k, files, b);
      assert x[1..] == FileList(h, k, files[1..], a) && y[1..] == FileList(h, k, files[1..], b);
      assert JsonParser.NormalItems(x)[0] == JsonParser.Normal(x[0]);
      assert JsonParser.NormalItems(y)[0] == JsonParser.Normal(y[0]);
      assert JsonParser.NormalItems(x)[1..] == JsonParser.NormalItems(x[1..]);
      assert JsonParser.NormalItems(y)[1..] == JsonParser.NormalItems(y[1..]);
      FileJsonDecides(h, k, files[0], a[files[0]], b[files[0]]);
      FileListDecides(h, k, files[1..], a, b);
    }
  }

  lemma {:induction false} FileListOfAgreeing(h: Hashing, k: Words, files: seq<string>, a: Files, b: Files)
    requires Holds(a, files) && Holds(b, files) && Agree(files, a, b)
    ensures FileList(h, k, files, a) == FileList(h, k, files, b)
  {
    if files != [] {
      FileListOfAgreeing(h, k, files[1..], a, b);
    }
  }

  /** Two sets of proof inputs have the same digest exactly when they agree on every file. */
  lemma DigestDecidesFiles(h: Hashing, k: Words, files: seq<string>, a: Files, b: Files)
    requires CollisionFree(h) && k.path != k.sha && k.schema != k.files && Holds(a, files) && Holds(b, files)
    ensures InputDigest(h, k, files, a) == InputDigest(h, k, files, b) <==> Agree(files, a, b)
  {
    var p, q := Payload(h, k, files, a), Payload(h, k, files, b);
    if Canonical(p) == Canonical(q) {
      JsonParser.CanonicalRoundTrip(p);
      JsonParser.CanonicalRoundTrip(q);
      SameObjectSameValues(p.entries, q.entries);
      assert JsonParser.Normal(p.entries[1].value) == JsonParser.Normal(q.entries[1].value);
      FileListDecides(h, k, files, a, b);
    }
    if Agree(files, a, b) {
      FileListOfAgreeing(h, k, files, a, b);
    }
  }
}
