/** Taking the proof inputs out of a tar, and checking them against a directory. */
module ProofExtraction {
  import opened Wrappers
  import opened Hex
  import opened ProofArchive

  /** One tar member; None when its bytes cannot be read. */
  datatype Member = Member(name: string, isFile: bool, content: Option<Bytes>)

  /** What a path normalizes to. */
  type Normalizer = string -> string

  datatype Fault = UnexpectedPath | DuplicatePath | Unreadable | Occupied | MissingInput

  /** `name.replace("\\", "/")` */
  function Slashes(name: string): string {
    seq(|name|, i requires 0 <= i < |name| => if name[i] == '\\' then '/' else name[i])
  }

  predicate Plain(normal: Normalizer, m: Member) {
    var name := Slashes(m.name);
    !("/" <= name) && normal(name) == name && m.isFile
  }

  // ---------------------------------------------------------------- into a directory

  /** The file a member is written to: its own name, or its name without the prefix. */
  function Target(normal: Normalizer, files: seq<string>, m: Member): Option<string> {
    var name := Slashes(m.name);
    if !Plain(normal, m) then None
    else if name in files then Some(name)
    else if PREFIX <= name && name[|PREFIX|..] in files then Some(name[|PREFIX|..])
    else None
  }

  /** The name with slashes for backslashes. */
  ghost predicate Slashed(name: string, raw: string) {
    && |name| == |raw|
    && forall i :: 0 <= i < |raw| ==> (raw[i] == '\\' ==> name[i] == '/') && (raw[i] != '\\' ==> name[i] == raw[i])
  }

  /** A member goes to a file if and only if it is one, its path is relative and in normal form, and it names the
      file, or the file below the release directory. */
  lemma TargetExactly(normal: Normalizer, files: seq<string>, m: Member, name: string, f: string)
    requires Slashed(name, m.name)
    ensures Target(normal, files, m) == Some(f)
       <==> && m.isFile && f in files && normal(name) == name && (name == "" || name[0] != '/')
            && (name == f || (name !in files && name == "proof/release/" + f))
  {
    assert name == Slashes(m.name);
    if PREFIX <= name {
      assert name == PREFIX + name[|PREFIX|..];
    }
    assert (PREFIX + f)[|PREFIX|..] == f;
  }

  predicate Usable(normal: Normalizer, files: seq<string>, m: Member) {
    Target(normal, files, m).Some? && m.content.Some?
  }

  predicate AllUsable(normal: Normalizer, files: seq<string>, ms: seq<Member>) {
    forall m <- ms :: Usable(normal, files, m)
  }

  function Targets(normal: Normalizer, files: seq<string>, ms: seq<Member>): (r: seq<string>)
    requires AllUsable(normal, files, ms)
    ensures |r| == |ms|
    ensures forall i :: 0 <= i < |ms| ==>
              Usable(normal, files, ms[i]) && r[i] == Target(normal, files, ms[i]).value && r[i] in files
  {
    seq(|ms|, i requires 0 <= i < |ms| => assert Usable(normal, files, ms[i]); Target(normal, files, ms[i]).value)
  }

  /** What the members hold, in the order they come. */
  function Contents(normal: Normalizer, files: seq<string>, ms: seq<Member>): Files
    requires AllUsable(normal, files, ms)
  {
    if ms == [] then map[]
    else
      var last := ms[|ms| - 1];
      assert Usable(normal, files, last);
      Contents(normal, files, ms[..|ms| - 1])[Target(normal, files, last).value := last.content.value]
  }

  /** Every member can be written, and to a name that nothing has. */
  ghost predicate Writable(normal: Normalizer, files: seq<string>, ms: seq<Member>, dir: Files) {
    && AllUsable(normal, files, ms)
    && Distinct(Targets(normal, files, ms))
    && forall t <- Targets(normal, files, ms) :: t !in dir
  }

  lemma WritableMore(normal: Normalizer, files: seq<string>, ms: seq<Member>, m: Member, dir: Files)
    requires Writable(normal, files, ms, dir)
    ensures Writable(normal, files, ms + [m], dir) <==>
              && Usable(normal, files, m)
              && Target(normal, files, m).value !in Targets(normal, files, ms)
              && Target(normal, files, m).value !in dir
    ensures Usable(normal, files, m) ==>
              && AllUsable(normal, files, ms + [m])
              && Targets(normal, files, ms + [m]) == Targets(normal, files, ms) + [Target(normal, files, m).value]
              && Contents(normal, files, ms + [m])
              == Contents(normal, files, ms)[Target(normal, files, m).value := m.content.value]
  {
    var more := ms + [m];
    assert more[..|more| - 1] == ms && more[|ms|] == m;
    if Usable(normal, files, m) {
      var t := Targets(normal, files, more);
      assert t == Targets(normal, files, ms) + [Target(normal, files, m).value];
      assert t[|ms|] == Target(normal, files, m).value;
      if Target(normal, files, m).value in Targets(normal, files, ms) {
        var i :| 0 <= i < |ms| && Targets(normal, files, ms)[i] == Target(normal, files, m).value;
        assert t[i] == t[|ms|];
      }
    } else {
      assert m in more;
    }
  }

  lemma WritablePrefix(normal: Normalizer, files: seq<string>, ms: seq<Member>, n: nat, dir: Files)
    requires n <= |ms| && Writable(normal, files, ms, dir)
    ensures Writable(normal, files, ms[..n], dir)
  {
    assert forall i :: 0 <= i < n ==> ms[..n][i] == ms[i];
    assert forall m <- ms[..n] :: m in ms;
    assert Targets(normal, files, ms[..n]) == Targets(normal, files, ms)[..n];
  }

  /** The members are written and nothing else has changed. */
  ghost predicate Written(normal: Normalizer, files: seq<string>, ms: seq<Member>, dir: Files, extracted: set<string>,
                          out: Files)
  {
    && Writable(normal, files, ms, dir)
    && extracted == (set t | t in Targets(normal, files, ms))
    && out == dir + Contents(normal, files, ms)
    && forall f :: f in out <==> f in dir || f in extracted
  }

  lemma WrittenMore(normal: Normalizer, files: seq<string>, ms: seq<Member>, m: Member, dir: Files,
                    extracted: set<string>, out: Files)
    requires Written(normal, files, ms, dir, extracted, out)
    ensures Writable(normal, files, ms + [m], dir) <==>
              Usable(normal, files, m) && Target(normal, files, m).value !in out
    ensures Writable(normal, files, ms + [m], dir) ==>
              Written(normal, files, ms + [m], dir, extracted + {Target(normal, files, m).value},
                      out[Target(normal, files, m).value := m.content.value])
  {
    WritableMore(normal, files, ms, m, dir);
  }

  method WriteMember(normal: Normalizer, files: seq<string>, m: Member, out: Files, extracted: set<string>)
    returns (fault: Option<Fault>, more: Files, names: set<string>)
    requires forall f <- extracted :: f in out
    ensures fault.None? <==> Usable(normal, files, m) && Target(normal, files, m).value !in out
    ensures fault.None? ==>
              && more == out[Target(normal, files, m).value := m.content.value]
              && names == extracted + {Target(normal, files, m).value}
  {
    more, names := out, extracted;
    var target := Target(normal, files, m);
    if target.None? {
      return Some(UnexpectedPath), more, names;
    }
    if target.value in extracted {
      return Some(DuplicatePath), more, names;
    }
    if m.content.None? {
      return Some(Unreadable), more, names;
    }
    if target.value in out {
      return Some(Occupied), more, names;
    }
    more := out[target.value := m.content.value];
    names := extracted + {target.value};
    return None, more, names;
  }

  /** Writes member by member. It succeeds exactly when the names written are a permutation of the files and
      none of them was there; then the directory is what it was plus what the members hold. When it fails,
      the members before the bad one have been written. */
  method ExtractIntoDirectory(normal: Normalizer, files: seq<string>, members: seq<Member>, dir: Files)
    returns (fault: Option<Fault>, out: Files)
    requires Distinct(files)
    ensures fault.None? <==>
              && Writable(normal, files, members, dir)
              && multiset(Targets(normal, files, members)) == multiset(files)
    ensures fault.None? ==> out == dir + Contents(normal, files, members)
    ensures exists n :: 0 <= n <= |members| && Writable(normal, files, members[..n], dir)
                        && out == dir + Contents(normal, files, members[..n])
  {
    out := dir;
    var extracted: set<string> := {};
    assert members[..0] == [];
    for i := 0 to |members|
      invariant Written(normal, files, members[..i], dir, extracted, out)
    {
      assert members[..i + 1] == members[..i] + [members[i]];
      WrittenMore(normal, files, members[..i], members[i], dir, extracted, out);
      if Writable(normal, files, members, dir) {
        WritablePrefix(normal, files, members, i + 1, dir);
      }
      var wrong, more, names := WriteMember(normal, files, members[i], out, extracted);
      if wrong.Some? {
        return wrong, out;
      }
      out, extracted := more, names;
    }
    assert members[..|members|] == members;
    PermutationOrMissing(normal, files, members);
    if exists f <- files :: f !in extracted {
      return Some(MissingInput), out;
    }
    return None, out;
  }

  lemma {:induction false} MultiplicityOfDistinct<T>(s: seq<T>, x: T)
    requires Distinct(s)
    ensures multiset(s)[x] == if x in s then 1 else 0
  {
    if s != [] {
      var front, last := s[..|s| - 1], s[|s| - 1];
      assert s == front + [last];
      assert forall i :: 0 <= i < |front| ==> front[i] == s[i];
      MultiplicityOfDistinct(front, x);
    }
  }

  lemma PermutationOrMissing(normal: Normalizer, files: seq<string>, ms: seq<Member>)
    requires Distinct(files) && AllUsable(normal, files, ms) && Distinct(Targets(normal, files, ms))
    ensures multiset(Targets(normal, files, ms)) == multiset(files)
       <==> forall f <- files :: f in Targets(normal, files, ms)
  {
    var ts := Targets(normal, files, ms);
    if forall f <- files :: f in ts {
      forall x: string ensures multiset(ts)[x] == multiset(files)[x] {
        MultiplicityOfDistinct(ts, x);
        MultiplicityOfDistinct(files, x);
        assert x in ts <==> x in files;
      }
    } else {
      var f :| f in files && f !in ts;
      assert f in multiset(files) && f !in multiset(ts);
    }
  }

  // ---------------------------------------------------------------- into memory

  /** A member under the prefix with the name of a file; nothing else may be in the tar. */
  predicate Expected(normal: Normalizer, files: seq<string>, m: Member) {
    var name := Slashes(m.name);
    Plain(normal, m) && PREFIX <= name && name[|PREFIX|..] in files
  }

  /** A member is expected if and only if it is a file whose path, in normal form, is that of one of the files below
      the release directory. */
  lemma ExpectedExactly(normal: Normalizer, files: seq<string>, m: Member, name: string)
    requires Slashed(name, m.name)
    ensures Expected(normal, files, m)
       <==> m.isFile && normal(name) == name && exists f :: f in files && name == "proof/release/" + f
  {
    assert name == Slashes(m.name);
    if PREFIX <= name {
      assert name == PREFIX + name[|PREFIX|..];
    }
    if f :| f in files && name == PREFIX + f {
      assert name[|PREFIX|..] == f && name[0] == PREFIX[0];
    }
  }

  /** The last member with a path. */
  function Latest(ms: seq<Member>, path: string): Option<Member> {
    if ms == [] then None
    else if Slashes(ms[|ms| - 1].name) == path then Some(ms[|ms| - 1])
    else Latest(ms[..|ms| - 1], path)
  }

  predicate Available(ms: seq<Member>, file: string) {
    Latest(ms, PREFIX + file).Some? && Latest(ms, PREFIX + file).value.content.Some?
  }

  /** `extracted` holds the latest member of every file. */
  ghost predicate Collected(files: seq<string>, ms: seq<Member>, extracted: Files) {
    forall f <- files ::
      f in extracted && Available(ms, f) && Latest(ms, PREFIX + f).value.content == Some(extracted[f])
  }

  method CollectMembers(normal: Normalizer, files: seq<string>, ms: seq<Member>)
    returns (fault: Option<Fault>, table: map<string, Member>)
    ensures fault.None? <==> forall m <- ms :: Expected(normal, files, m)
    ensures fault.None? ==> forall path :: Latest(ms, path) == if path in table then Some(table[path]) else None
  {
    table := map[];
    for i := 0 to |ms|
      invariant forall m <- ms[..i] :: Expected(normal, files, m)
      invariant forall path :: Latest(ms[..i], path) == if path in table then Some(table[path]) else None
    {
      if !Expected(normal, files, ms[i]) {
        return Some(UnexpectedPath), table;
      }
      assert ms[..i + 1][..i] == ms[..i];
      table := table[Slashes(ms[i].name) := ms[i]];
    }
    assert ms[..|ms|] == ms;
    return None, table;
  }

  /** Collects in memory: it succeeds exactly when every member is expected and every file is there to be
      read; the result has exactly the files. A path may come twice, and then the last one counts. */
  method ExtractIntoMemory(normal: Normalizer, files: seq<string>, ms: seq<Member>) returns (r: Result<Files, Fault>)
    ensures r.Ok? <==> (forall m <- ms :: Expected(normal, files, m)) && (forall f <- files :: Available(ms, f))
    ensures r.Ok? ==> r.value.Keys == (set f | f in files) && Collected(files, ms, r.value)
  {
    var fault, table := CollectMembers(normal, files, ms);
    if fault.Some? {
      return Err(fault.value);
    }
    var extracted: Files := map[];
    for i := 0 to |files|
      invariant extracted.Keys == set f | f in files[..i]
      invariant forall f <- files[..i] :: Available(ms, f) && Some(extracted[f]) == Latest(ms, PREFIX + f).value.content
    {
      var path := PREFIX + files[i];
      assert files[i] in files && files[..i + 1] == files[..i] + [files[i]];
      if path !in table {
        return Err(MissingInput);
      }
      if table[path].content.None? {
        return Err(Unreadable);
      }
      extracted := extracted[files[i] := table[path].content.value];
    }
    assert files[..|files|] == files;
    return Ok(extracted);
  }

  /** The directory with these files written to it. */
  ghost predicate Overlaid(files: seq<string>, extracted: Files, dir: Files, out: Files) {
    && (forall f :: f in out <==> f in dir || f in files)
    && (forall f <- files :: f in out && f in extracted && out[f] == extracted[f])
    && (forall f <- dir :: f !in files ==> f in out && out[f] == dir[f])
  }

  /** Writes what was collected, in the order of the list, up to the first file that is there already. */
  method Materialize(files: seq<string>, extracted: Files, dir: Files)
    returns (fault: Option<Fault>, out: Files, ghost written: nat)
    requires Distinct(files) && Holds(extracted, files)
    ensures fault.None? <==> forall f <- files :: f !in dir
    ensures written <= |files| && Overlaid(files[..written], extracted, dir, out)
    ensures forall f <- files[..written] :: f !in dir
    ensures if fault.None? then written == |files| else written < |files| && files[written] in dir
  {
    out := dir;
    for i := 0 to |files|
      invariant forall f <- files[..i] :: f !in dir
      invariant Overlaid(files[..i], extracted, dir, out)
    {
      assert files[i] in files && files[..i + 1] == files[..i] + [files[i]];
      assert files[i] !in files[..i];
      if files[i] in out {
        return Some(Occupied), out, i;
      }
      out := out[files[i] := extracted[files[i]]];
    }
    assert files[..|files|] == files;
    return None, out, |files|;
  }

  /** The directory that holds what was collected has the digest computed from memory. */
  lemma MaterializedDigest(h: Hashing, k: Words, files: seq<string>, extracted: Files, out: Files)
    requires Holds(extracted, files) && Holds(out, files) && forall f <- files :: out[f] == extracted[f]
    ensures DirectoryDigest(h, k, files, out) == Some(InputDigest(h, k, files, extracted))
  {
    FileListOfAgreeing(h, k, files, out, extracted);
  }

  // ---------------------------------------------------------------- the two ways agree

  lemma {:induction false} ContentsAreLatest(normal: Normalizer, files: seq<string>, ms: seq<Member>, f: string)
    requires AllUsable(normal, files, ms)
    requires forall m <- ms :: PREFIX <= Slashes(m.name) && Slashes(m.name) !in files
    ensures f in Contents(normal, files, ms) <==> Latest(ms, PREFIX + f).Some?
    ensures f in Contents(normal, files, ms) ==>
              Latest(ms, PREFIX + f).value.content == Some(Contents(normal, files, ms)[f])
  {
    if ms != [] {
      var front, last := ms[..|ms| - 1], ms[|ms| - 1];
      assert forall m <- front :: m in ms;
      ContentsAreLatest(normal, files, front, f);
      assert Usable(normal, files, last) && Slashes(last.name) !in files;
      var name := Slashes(last.name);
      assert name == PREFIX + name[|PREFIX|..];
      assert (PREFIX + f)[|PREFIX|..] == f;
    }
  }

  lemma {:induction false} TargetsAreHeld(normal: Normalizer, files: seq<string>, ms: seq<Member>, f: string)
    requires AllUsable(normal, files, ms)
    ensures f in Contents(normal, files, ms) <==> f in Targets(normal, files, ms)
  {
    if ms != [] {
      var front, last := ms[..|ms| - 1], ms[|ms| - 1];
      assert forall m <- front :: m in ms;
      TargetsAreHeld(normal, files, front, f);
      assert Usable(normal, files, last);
      assert Targets(normal, files, ms) == Targets(normal, files, front) + [Target(normal, files, last).value];
    }
  }

  /** When a tar whose paths all carry the prefix is taken into an empty directory, it can be collected in
      memory too, file by file the same, so both have one digest. */
  lemma ExtractorsAgree(h: Hashing, k: Words, normal: Normalizer, files: seq<string>, ms: seq<Member>)
    requires Writable(normal, files, ms, map[]) && multiset(Targets(normal, files, ms)) == multiset(files)
    requires forall m <- ms :: PREFIX <= Slashes(m.name) && Slashes(m.name) !in files
    ensures (forall m <- ms :: Expected(normal, files, m)) && (forall f <- files :: Available(ms, f))
    ensures forall extracted: Files ::
              Collected(files, ms, extracted) ==>
                DirectoryDigest(h, k, files, Contents(normal, files, ms)) == Some(InputDigest(h, k, files, extracted))
  {
    var dir := Contents(normal, files, ms);
    forall m <- ms ensures Expected(normal, files, m) {
      assert Usable(normal, files, m);
    }
    forall f <- files ensures f in dir && Available(ms, f) && Latest(ms, PREFIX + f).value.content == Some(dir[f]) {
      assert f in multiset(files);
      assert f in multiset(Targets(normal, files, ms));
      TargetsAreHeld(normal, files, ms, f);
      ContentsAreLatest(normal, files, ms, f);
    }
    forall extracted: Files | Collected(files, ms, extracted)
      ensures DirectoryDigest(h, k, files, dir) == Some(InputDigest(h, k, files, extracted))
    {
      MaterializedDigest(h, k, files, extracted, dir);
    }
  }

  // ---------------------------------------------------------------- checking an archive

  ghost predicate Matches(h: Hashing, k: Words, files: seq<string>, dir: Files, extracted: Files, expected: string)
    requires Holds(extracted, files)
  {
    && (forall f <- files :: f in dir && h.sha(dir[f]) == h.sha(extracted[f]))
    && InputDigest(h, k, files, extracted) == expected
  }

  method VerifyArchiveContents(h: Hashing, k: Words, files: seq<string>, dir: Files, extracted: Files, expected: string)
    returns (ok: bool)
    requires Holds(extracted, files)
    ensures ok <==> Matches(h, k, files, dir, extracted, expected)
  {
    for i := 0 to |files|
      invariant forall f <- files[..i] :: f in dir && h.sha(dir[f]) == h.sha(extracted[f])
    {
      assert files[i] in files && files[..i + 1] == files[..i] + [files[i]];
      if files[i] !in dir {
        return false;
      }
      if h.sha(dir[files[i]]) != h.sha(extracted[files[i]]) {
        return false;
      }
    }
    assert files[..|files|] == files;
    return InputDigest(h, k, files, extracted) == expected;
  }

  /** An archive passes exactly when the directory has every file, byte for byte the archive's, and itself
      has the attested digest. */
  lemma MatchesExactly(h: Hashing, k: Words, files: seq<string>, dir: Files, extracted: Files, expected: string)
    requires CollisionFree(h) && Holds(extracted, files)
    ensures Matches(h, k, files, dir, extracted, expected)
       <==> Holds(dir, files) && Agree(files, dir, extracted) && DirectoryDigest(h, k, files, dir) == Some(expected)
  {
    if Holds(dir, files) && Agree(files, dir, extracted) {
      FileListOfAgreeing(h, k, files, dir, extracted);
    }
  }
}
