/**
 The metadata file of a CI artifacts archive (internal/zipartifacts/metadata.go):
 which paths it lists, in which order, and its length-prefixed framing. A string is
 a string of bytes, one per character. The archive is the sequence of its entry
 names, and `json` the encoded attributes of an entry, or of none.
 */
module ZipMetadata {
  import opened Wrappers
  import opened PathClean

  // ---------------------------------------------------------------------------
  // Framing
  // ---------------------------------------------------------------------------

  function Pow256(k: nat): nat { if k == 0 then 1 else 256 * Pow256(k - 1) }

  /** The k low bytes of n, most significant first. */
  function BigEndian(n: nat, k: nat): (s: string)
    ensures |s| == k
  {
    if k == 0 then "" else BigEndian(n / 256, k - 1) + [(n % 256) as char]
  }

  function Value(s: string): (n: nat)
    ensures n < Pow256(|s|)
  {
    if s == "" then 0 else Value(s[..|s| - 1]) * 256 + s[|s| - 1] as int % 256
  }

  lemma {:induction false} ValueUndoesBigEndian(n: nat, k: nat)
    requires n < Pow256(k)
    ensures Value(BigEndian(n, k)) == n
  {
    if k > 0 {
      ValueUndoesBigEndian(n / 256, k - 1);
      assert BigEndian(n, k)[..k - 1] == BigEndian(n / 256, k - 1);
    }
  }

  /** The uint32 that starts a record. */
  function PrefixValue(s: string): nat
    requires |s| >= 4
  {
    Value(s[..4])
  }

  predicate Fits(r: string) { |r| < Pow256(4) }

  /** Records shorter than 2^32 bytes. */
  predicate Short(records: seq<string>) { forall i | 0 <= i < |records| :: Fits(records[i]) }

  lemma Pow256Of4()
    ensures Pow256(4) == 0x1_0000_0000
  {
    assert Pow256(1) == 256 && Pow256(2) == 0x1_0000 && Pow256(3) == 0x100_0000;
  }

  /** writeBytes: the conversion to uint32 loses the high bits of longer records. */
  function Frame(data: string): string { BigEndian(|data|, 4) + data }

  function Encode(records: seq<string>): string {
    if records == [] then "" else Frame(records[0]) + Encode(records[1..])
  }

  function Decode(s: string): Option<seq<string>>
    decreases |s|
  {
    if s == "" then Some([])
    else if |s| < 4 || |s| < 4 + PrefixValue(s) then None
    else
      match Decode(s[4 + PrefixValue(s)..])
      case None => None
      case Some(rest) => Some([s[4..4 + PrefixValue(s)]] + rest)
  }

  lemma FirstFrame(r: string, rest: string)
    requires Fits(r)
    ensures var s := Frame(r) + rest;
            |s| >= 4 && PrefixValue(s) == |r| && |s| == 4 + |r| + |rest|
            && s[4..4 + |r|] == r && s[4 + |r|..] == rest
  {
    ValueUndoesBigEndian(|r|, 4);
    assert Frame(r) + rest == BigEndian(|r|, 4) + (r + rest);
    assert (Frame(r) + rest)[..4] == BigEndian(|r|, 4);
  }

  lemma DecodeStep(s: string, n: nat, rest: seq<string>)
    requires |s| >= 4 && PrefixValue(s) == n && |s| >= 4 + n && Decode(s[4 + n..]) == Some(rest)
    ensures Decode(s) == Some([s[4..4 + n]] + rest)
  {
  }

  lemma {:induction false} DecodeUndoesEncode(records: seq<string>)
    requires Short(records)
    ensures Decode(Encode(records)) == Some(records)
  {
    if records != [] {
      var r, rest := records[0], records[1..];
      assert Fits(records[0]);
      assert Short(rest) by {
        forall i | 0 <= i < |rest| ensures Fits(rest[i]) {
          assert Fits(records[i + 1]);
        }
      }
      DecodeUndoesEncode(rest);
      FirstFrame(r, Encode(rest));
      DecodeStep(Frame(r) + Encode(rest), |r|, rest);
      assert [r] + rest == records;
    }
  }

  lemma {:induction false} DecodedIsShort(s: string)
    ensures Decode(s).Some? ==> Short(Decode(s).value)
    decreases |s|
  {
    if s != "" && |s| >= 4 && |s| >= 4 + PrefixValue(s) {
      DecodedIsShort(s[4 + PrefixValue(s)..]);
    }
  }

  /** The framing can be undone exactly when no record needs a 33rd bit of length. */
  lemma FramingCanBeUndone(records: seq<string>)
    ensures Decode(Encode(records)) == Some(records)
            <==> forall r | r in records :: |r| < 0x1_0000_0000
  {
    Pow256Of4();
    assert Short(records) <==> forall r | r in records :: Fits(r);
    if Short(records) {
      DecodeUndoesEncode(records);
    } else {
      DecodedIsShort(Encode(records));
    }
  }

  lemma EncodeIsInjective(a: seq<string>, b: seq<string>)
    requires Short(a) && Short(b) && Encode(a) == Encode(b)
    ensures a == b
  {
    DecodeUndoesEncode(a);
    DecodeUndoesEncode(b);
  }

  lemma {:induction false} EncodeAppend(a: seq<string>, b: seq<string>)
    ensures Encode(a + b) == Encode(a) + Encode(b)
  {
    if a == [] {
      assert a + b == b;
    } else {
      assert (a + b)[1..] == a[1..] + b;
      EncodeAppend(a[1..], b);
    }
  }

  // ---------------------------------------------------------------------------
  // The paths
  // ---------------------------------------------------------------------------

  /** The directory made of the first j components before the last slash. */
  function AncestorDir(name: string, j: nat): string
    requires j <= |DirComponents(name)|
  {
    PathOf(Rooted(name), DirComponents(name)[..j]) + "/"
  }

  function AncestorsFrom(name: string, k: nat): set<string> {
    set j | k < j <= |DirComponents(name)| :: AncestorDir(name, j)
  }

  /** Every directory above the entry, with a slash at the end. */
  function Ancestors(name: string): set<string> { AncestorsFrom(name, 0) }

  function Paths(names: seq<string>): set<string> {
    (set n | n in names) + (set n, d | n in names && d in Ancestors(n) :: d)
  }

  /** The last entry of that name; None stands for a directory that was made up. */
  function Owner(names: seq<string>, path: string): Option<nat> {
    if names == [] then None
    else if names[|names| - 1] == path then Some(|names| - 1)
    else Owner(names[..|names| - 1], path)
  }

  lemma {:induction false} OwnerIsLast(names: seq<string>, path: string)
    ensures Owner(names, path).Some? <==> path in names
    ensures Owner(names, path).Some? ==>
              var i := Owner(names, path).value;
              i < |names| && names[i] == path && forall j | i < j < |names| :: names[j] != path
  {
    if names != [] {
      var n := |names| - 1;
      OwnerIsLast(names[..n], path);
      assert names == names[..n] + [names[n]];
    }
  }

  function PrefixDirs(rooted: bool, cs: seq<string>, n: nat): set<string>
    requires n <= |cs|
  {
    set j | 1 <= j <= n :: PathOf(rooted, cs[..j]) + "/"
  }

  lemma AncestorsArePrefixes(name: string, cs: seq<string>)
    requires DirComponents(name) <= cs
    ensures Ancestors(name) == PrefixDirs(Rooted(name), cs, |DirComponents(name)|)
  {
    forall j | 1 <= j <= |DirComponents(name)|
      ensures AncestorDir(name, j) == PathOf(Rooted(name), cs[..j]) + "/"
    {
      assert DirComponents(name)[..j] == cs[..j];
    }
  }

  /** For a clean name the ancestors are its proper prefixes; a directory entry, whose
      name ends with a slash, is among its own. */
  lemma AncestorsOfCleanName(rooted: bool, cs: seq<string>)
    requires Normal(rooted, cs) && cs != []
    ensures var name := PathOf(rooted, cs);
            && Ancestors(name) == PrefixDirs(rooted, cs, |cs| - 1)
            && Ancestors(name + "/") == PrefixDirs(rooted, cs, |cs|)
            && name + "/" in Ancestors(name + "/")
  {
    var name := PathOf(rooted, cs);
    RootedOfPath(rooted, cs);
    DirComponentsOfPath(rooted, cs);
    AncestorsArePrefixes(name, cs);
    assert name + "/" == name + "/" + "";
    SplitConcat(name, "");
    SplitOfPath(rooted, cs);
    ResolveSelf(rooted, cs);
    assert (Split(name) + [""])[..|Split(name)|] == Split(name);
    AncestorsArePrefixes(name + "/", cs);
    assert cs[..|cs|] == cs;
  }

  /** Enough of a measure for the ancestor loop: the length until the top is reached. */
  function LoopMeasure(d: string): nat { if d == "." || d == "/" then 0 else |d| }

  lemma OneMoreAncestor(name: string, k: nat)
    requires 0 < k <= |DirComponents(name)|
    ensures AncestorsFrom(name, k - 1)
            == AncestorsFrom(name, k) + {PathOf(Rooted(name), DirComponents(name)[..k]) + "/"}
  {
    hide PathOf, Rooted, DirComponents;
    var last := AncestorDir(name, k);
    forall j | k - 1 < j <= |DirComponents(name)|
      ensures AncestorDir(name, j) in AncestorsFrom(name, k) + {last}
    {
      if j > k {
        assert AncestorDir(name, j) in AncestorsFrom(name, k);
      }
    }
    assert last in AncestorsFrom(name, k - 1);
  }

  /** One turn of the loop: Dir drops a component and the measure. */
  lemma AncestorStep(name: string, k: nat)
    requires 0 < k <= |DirComponents(name)|
    ensures var rooted, cs := Rooted(name), DirComponents(name);
            var d := PathOf(rooted, cs[..k]);
            && d != "." && d != "/"
            && Dir(d) == PathOf(rooted, cs[..k - 1])
            && LoopMeasure(Dir(d)) < LoopMeasure(d)
            && (k == 1 <==> Dir(d) == "." || Dir(d) == "/")
            && AncestorsFrom(name, k - 1) == AncestorsFrom(name, k) + {d + "/"}
  {
    hide Resolve, Split, DirComponents, Dir, AncestorsFrom, Join;
    var rooted, cs := Rooted(name), DirComponents(name);
    DirIsPathOf(name);
    NormalPrefix(rooted, cs, k);
    NormalPrefix(rooted, cs, k - 1);
    RootedOfPath(rooted, cs[..k]);
    RootedOfPath(rooted, cs[..k - 1]);
    DirOfPath(rooted, cs[..k]);
    assert cs[..k][..k - 1] == cs[..k - 1];
    assert Plain(cs[..k][0]);
    JoinStart(cs[..k]);
    OneMoreAncestor(name, k);
    hide Normal, Plain, Rooted;
  }

  /** The map of paths: real entries by index, made-up directories as None. */
  predicate MapOf(zipMap: map<string, Option<nat>>, names: seq<string>, keys: set<string>) {
    && zipMap.Keys == keys
    && forall p | p in zipMap :: zipMap[p] == Owner(names, p)
  }

  /** One entry: its name always overrides, its ancestors never do. */
  method AddEntry(before: map<string, Option<nat>>, names: seq<string>, i: nat)
    returns (zipMap: map<string, Option<nat>>)
    requires i < |names| && MapOf(before, names[..i], Paths(names[..i]))
    ensures MapOf(zipMap, names[..i + 1], Paths(names[..i + 1]))
  {
    var name := names[i];
    ghost var seen := names[..i + 1];
    assert seen[..i] == names[..i];
    assert seen == names[..i] + [name];
    zipMap := before[name := Some(i)];
    var d := Dir(name);
    ghost var k: nat := |DirComponents(name)|;
    ghost var keys := Paths(names[..i]) + {name};
    DirIsPathOf(name);
    RootedOfPath(Rooted(name), DirComponents(name));
    assert DirComponents(name)[..k] == DirComponents(name);
    forall p | p in zipMap ensures zipMap[p] == Owner(seen, p) {
    }
    while d != "." && d != "/"
      invariant k <= |DirComponents(name)|
      invariant d == PathOf(Rooted(name), DirComponents(name)[..k])
      invariant k == 0 <==> d == "." || d == "/"
      invariant MapOf(zipMap, seen, keys + AncestorsFrom(name, k))
      decreases LoopMeasure(d)
    {
      AncestorStep(name, k);
      var entryDir := d + "/";
      if entryDir !in zipMap {
        OwnerIsLast(seen, entryDir);
        OwnerIsLast(names[..i], entryDir);
        zipMap := zipMap[entryDir := None];
      }
      d := Dir(d);
      k := k - 1;
    }
    PathsAppend(names[..i], name);
  }

  lemma PathsAppend(names: seq<string>, name: string)
    ensures Paths(names + [name]) == Paths(names) + {name} + Ancestors(name)
  {
    var more := names + [name];
    assert forall n :: n in more <==> n in names || n == name;
    forall p ensures p in Paths(more) <==> p in Paths(names) + {name} + Ancestors(name) {
      if p in Ancestors(name) {
        assert name in more;
      }
      if n :| n in names && p in Ancestors(n) {
        assert n in more;
      }
    }
  }

  // ---------------------------------------------------------------------------
  // The order
  // ---------------------------------------------------------------------------

  /** Bytewise comparison. */
  predicate Less(a: string, b: string) {
    b != "" && (a == "" || a[0] < b[0] || (a[0] == b[0] && Less(a[1..], b[1..])))
  }

  lemma {:induction false} LessIsTotal(a: string, b: string)
    ensures a == b || Less(a, b) || Less(b, a)
    ensures !(Less(a, b) && Less(b, a)) && !Less(a, a)
    decreases |a|
  {
    if a != "" {
      LessIsTotal(a[1..], a[1..]);
      if b != "" {
        LessIsTotal(a[1..], b[1..]);
        assert a == [a[0]] + a[1..] && b == [b[0]] + b[1..];
      }
    }
  }

  lemma {:induction false} LessIsTransitive(a: string, b: string, c: string)
    requires Less(a, b) && Less(b, c)
    ensures Less(a, c)
    decreases |a|
  {
    if a != "" && a[0] == b[0] == c[0] {
      LessIsTransitive(a[1..], b[1..], c[1..]);
    }
  }

  /** The first difference is at i, and a has the smaller byte there. */
  predicate SmallerAt(a: string, b: string, i: nat) {
    i < |a| && i < |b| && a[..i] == b[..i] && a[i] < b[i]
  }

  /** The order of strings: a proper prefix comes first, else the smaller byte at the first difference. */
  ghost predicate Precedes(a: string, b: string) { a < b || exists i: nat :: SmallerAt(a, b, i) }

  lemma SmallerAtNext(a: string, b: string, i: nat)
    requires a != "" && b != "" && a[0] == b[0]
    ensures SmallerAt(a, b, i + 1) <==> SmallerAt(a[1..], b[1..], i)
    ensures !SmallerAt(a, b, 0)
  {
    if i + 1 <= |a| && i + 1 <= |b| {
      assert a[..i + 1] == [a[0]] + a[1..][..i] && b[..i + 1] == [b[0]] + b[1..][..i];
      assert a[1..][..i] == a[..i + 1][1..] && b[1..][..i] == b[..i + 1][1..];
    }
  }

  lemma {:induction false} LessIff(a: string, b: string)
    ensures Less(a, b) <==> Precedes(a, b)
    decreases |a|
  {
    if a == "" || b == "" {
    } else if a[0] == b[0] {
      LessIff(a[1..], b[1..]);
      assert a == [a[0]] + a[1..] && b == [b[0]] + b[1..];
      assert a < b <==> a[1..] < b[1..];
      hide Less, SmallerAt;
      if i: nat :| SmallerAt(a[1..], b[1..], i) {
        SmallerAtNext(a, b, i);
      }
      if i: nat :| SmallerAt(a, b, i) {
        SmallerAtNext(a, b, if i > 0 then i - 1 else 0);
      }
      assert Less(a, b) <==> Less(a[1..], b[1..]) by { LessStep(a, b); }
    } else {
      assert SmallerAt(a, b, 0) <==> a[0] < b[0];
      if i: nat :| SmallerAt(a, b, i) && i > 0 {
        assert a[..i][0] == b[..i][0];
      }
    }
  }

  lemma LessStep(a: string, b: string)
    requires a != "" && b != "" && a[0] == b[0]
    ensures Less(a, b) <==> Less(a[1..], b[1..])
  {
  }

  predicate StrictlySorted(ps: seq<string>) {
    forall i, j | 0 <= i < j < |ps| :: Less(ps[i], ps[j])
  }

  /** In the order of strings. */
  ghost predicate InOrder(ps: seq<string>) {
    forall i, j | 0 <= i < j < |ps| :: Precedes(ps[i], ps[j])
  }

  lemma StrictlySortedIff(ps: seq<string>)
    ensures StrictlySorted(ps) <==> InOrder(ps)
  {
    forall i, j | 0 <= i < j < |ps| ensures Less(ps[i], ps[j]) <==> Precedes(ps[i], ps[j]) {
      LessIff(ps[i], ps[j]);
    }
  }

  function Members(ps: seq<string>): set<string> { set p | p in ps }

  /** sort.Strings, as insertion; SortingIsUnique says the method does not matter. */
  function Insert(p: string, ps: seq<string>): seq<string> {
    if ps == [] || Less(p, ps[0]) then [p] + ps else [ps[0]] + Insert(p, ps[1..])
  }

  lemma {:induction false} InsertSorts(p: string, ps: seq<string>)
    requires StrictlySorted(ps) && p !in ps
    ensures StrictlySorted(Insert(p, ps)) && Members(Insert(p, ps)) == Members(ps) + {p}
  {
    if ps != [] {
      assert ps == [ps[0]] + ps[1..];
      if Less(p, ps[0]) {
        forall j | 0 < j < |ps| ensures Less(p, ps[j]) {
          LessIsTransitive(p, ps[0], ps[j]);
        }
      } else {
        LessIsTotal(p, ps[0]);
        InsertSorts(p, ps[1..]);
        var rest := Insert(p, ps[1..]);
        forall j | 0 <= j < |rest| ensures Less(ps[0], rest[j]) {
          assert rest[j] in Members(ps[1..]) + {p};
        }
      }
    }
  }

  /** There is only one strictly sorted sequence of a set. */
  lemma {:induction false} SortingIsUnique(a: seq<string>, b: seq<string>)
    requires StrictlySorted(a) && StrictlySorted(b) && Members(a) == Members(b)
    ensures a == b
  {
    SomeMember(a);
    SomeMember(b);
    if a != [] {
      assert a[0] in Members(a) && a[0] in b;
      assert b[0] in Members(b) && b[0] in a;
      if a[0] != b[0] {
        var i :| 0 <= i < |b| && b[i] == a[0];
        var j :| 0 <= j < |a| && a[j] == b[0];
        LessIsTotal(a[0], b[0]);
      }
      LessIsTotal(a[0], a[0]);
      assert Members(a[1..]) == Members(a) - {a[0]} by { RestMembers(a); }
      assert Members(b[1..]) == Members(b) - {b[0]} by { RestMembers(b); }
      SortingIsUnique(a[1..], b[1..]);
      assert a == [a[0]] + a[1..] && b == [b[0]] + b[1..];
    }
  }

  lemma SomeMember(ps: seq<string>)
    ensures ps != [] ==> Members(ps) != {}
  {
    if ps != [] {
      assert ps[0] in Members(ps);
    }
  }

  lemma RestMembers(a: seq<string>)
    requires StrictlySorted(a) && a != []
    ensures Members(a[1..]) == Members(a) - {a[0]}
  {
    assert a == [a[0]] + a[1..];
    forall p | p in a[1..] ensures p != a[0] {
      LessIsTotal(p, p);
    }
  }

  /** Collects the keys in whatever order the map yields them and sorts them. */
  method SortKeys(keys: set<string>) returns (paths: seq<string>)
    ensures StrictlySorted(paths) && InOrder(paths) && Members(paths) == keys
  {
    paths := [];
    var left := keys;
    while left != {}
      invariant left <= keys && StrictlySorted(paths) && Members(paths) == keys - left
      decreases left
    {
      var p :| p in left;
      assert p !in Members(paths);
      InsertSorts(p, paths);
      paths := Insert(p, paths);
      left := left - {p};
    }
    StrictlySortedIff(paths);
  }

  // ---------------------------------------------------------------------------
  // The file
  // ---------------------------------------------------------------------------

  const METADATA_HEADER := "GitLab Build Artifacts Metadata 0.0.2\n"

  /** The alternating path and metadata records. */
  function EntryRecords(paths: seq<string>, names: seq<string>, json: Option<nat> -> string): seq<string> {
    if paths == [] then []
    else
      var n := |paths| - 1;
      EntryRecords(paths[..n], names, json) + [paths[n], json(Owner(names, paths[n])) + "\n"]
  }

  /** The path of an entry comes before its attributes. */
  lemma {:induction false} PathThenAttributes(paths: seq<string>, names: seq<string>, json: Option<nat> -> string,
                                              i: nat)
    requires i < |paths|
    ensures var records := EntryRecords(paths, names, json);
            && |records| == 2 * |paths|
            && records[2 * i] == paths[i] && records[2 * i + 1] == json(Owner(names, paths[i])) + "\n"
    decreases |paths|
  {
    var n := |paths| - 1;
    if n > 0 {
      PathThenAttributes(paths[..n], names, json, if i < n then i else 0);
    }
  }

  function Records(paths: seq<string>, names: seq<string>, json: Option<nat> -> string): seq<string> {
    [METADATA_HEADER, "{}"] + EntryRecords(paths, names, json)
  }

  /** Two records: the path, and the attributes with a newline. */
  method WriteZipEntryMetadata(before: string, path: string, attributes: string) returns (output: string)
    ensures output == before + Frame(path) + Frame(attributes + "\n")
  {
    output := before + Frame(path);
    output := output + Frame(attributes + "\n");
  }

  method WriteEntries(paths: seq<string>, names: seq<string>, zipMap: map<string, Option<nat>>,
                      json: Option<nat> -> string)
    returns (output: string)
    requires forall p | p in paths :: p in zipMap && zipMap[p] == Owner(names, p)
    ensures output == Encode(EntryRecords(paths, names, json))
  {
    output := "";
    for i := 0 to |paths|
      invariant output == Encode(EntryRecords(paths[..i], names, json))
    {
      assert paths[..i + 1][..i] == paths[..i];
      PairEncodes(EntryRecords(paths[..i], names, json), paths[i], json(zipMap[paths[i]]) + "\n");
      output := WriteZipEntryMetadata(output, paths[i], json(zipMap[paths[i]]));
    }
    assert paths[..|paths|] == paths;
  }

  method AddMissingEntries(names: seq<string>) returns (zipMap: map<string, Option<nat>>)
    ensures MapOf(zipMap, names, Paths(names))
  {
    zipMap := map[];
    assert Paths([]) == {};
    for i := 0 to |names|
      invariant MapOf(zipMap, names[..i], Paths(names[..i]))
    {
      zipMap := AddEntry(zipMap, names, i);
    }
    assert names[..|names|] == names;
  }

  /**
   The output is the framing of the header, the empty error record and one pair of
   records for every path, the path before its attributes, in the order of strings. A path
   that is an entry's name carries the last such entry, any other stands for a directory.
   */
  method GenerateZipMetadata(names: seq<string>, json: Option<nat> -> string)
    returns (output: string, paths: seq<string>)
    ensures StrictlySorted(paths) && InOrder(paths) && Members(paths) == Paths(names)
    ensures output == Encode(Records(paths, names, json))
    ensures var records := Records(paths, names, json);
            && |records| == 2 + 2 * |paths| && records[0] == METADATA_HEADER && records[1] == "{}"
            && forall i | 0 <= i < |paths| ::
                 && records[2 + 2 * i] == paths[i]
                 && records[3 + 2 * i] == json(Owner(names, paths[i])) + "\n"
    ensures Short(Records(paths, names, json)) ==>
              Decode(output) == Some(Records(paths, names, json))
  {
    output := Frame(METADATA_HEADER);
    output := output + Frame("{}");
    var zipMap := AddMissingEntries(names);
    paths := SortKeys(zipMap.Keys);
    forall p | p in paths ensures p in zipMap {
      assert p in Members(paths);
    }
    var entries := WriteEntries(paths, names, zipMap, json);
    output := output + entries;
    HeadEncodes();
    EncodeAppend([METADATA_HEADER, "{}"], EntryRecords(paths, names, json));
    RecordsInPairs(paths, names, json);
    if Short(Records(paths, names, json)) {
      DecodeUndoesEncode(Records(paths, names, json));
    }
  }

  lemma RecordsInPairs(paths: seq<string>, names: seq<string>, json: Option<nat> -> string)
    ensures var records := Records(paths, names, json);
            && |records| == 2 + 2 * |paths| && records[0] == METADATA_HEADER && records[1] == "{}"
            && forall i | 0 <= i < |paths| ::
                 && records[2 + 2 * i] == paths[i]
                 && records[3 + 2 * i] == json(Owner(names, paths[i])) + "\n"
  {
    forall i | 0 <= i < |paths|
      ensures var records := EntryRecords(paths, names, json);
              && |records| == 2 * |paths|
              && records[2 * i] == paths[i] && records[2 * i + 1] == json(Owner(names, paths[i])) + "\n"
    {
      PathThenAttributes(paths, names, json, i);
    }
    hide Owner, METADATA_HEADER;
  }

  lemma HeadEncodes()
    ensures Frame(METADATA_HEADER) + Frame("{}") == Encode([METADATA_HEADER, "{}"])
  {
    var head := [METADATA_HEADER, "{}"];
    assert head[1..] == ["{}"] && ["{}"][1..] == [];
    assert Encode(["{}"]) == Frame("{}") + "";
  }

  lemma PairEncodes(records: seq<string>, a: string, b: string)
    ensures Encode(records + [a, b]) == Encode(records) + Frame(a) + Frame(b)
  {
    EncodeAppend(records, [a, b]);
    assert [a, b][1..] == [b] && [b][1..] == [];
    assert Encode([b]) == Frame(b) + "";
  }

  /** The file starts with the published magic prefix and header. */
  lemma StartsWithMagic(paths: seq<string>, names: seq<string>, json: Option<nat> -> string)
    ensures ['\0', '\0', '\0', '&'] + METADATA_HEADER <= Encode(Records(paths, names, json))
  {
    var rest := EntryRecords(paths, names, json);
    EncodeAppend([METADATA_HEADER, "{}"], rest);
    HeadEncodes();
    PrefixOfHeader();
  }

  lemma PrefixOfHeader()
    ensures BigEndian(|METADATA_HEADER|, 4) == ['\0', '\0', '\0', '&']
  {
    assert |METADATA_HEADER| == 38;
    assert BigEndian(0, 1) == ['\0'] && BigEndian(0, 2) == ['\0', '\0'];
    assert BigEndian(0, 3) == ['\0', '\0', '\0'] && BigEndian(38, 4) == BigEndian(0, 3) + ['&'];
  }

  /**
   The order of the archive does not matter: whatever the loop over the entries has made
   of two orders, the maps list the same paths, a path that is an entry's name is kept as
   an entry of that name in both, and a made-up directory stands only where there is none.
   */
  lemma OrderDoesNotHideEntries(a: seq<string>, b: seq<string>,
                                ma: map<string, Option<nat>>, mb: map<string, Option<nat>>)
    requires multiset(a) == multiset(b) && MapOf(ma, a, Paths(a)) && MapOf(mb, b, Paths(b))
    ensures ma.Keys == mb.Keys
    ensures forall p :: p in a ==>
              && p in ma && ma[p].Some? && ma[p].value < |a| && a[ma[p].value] == p
              && p in mb && mb[p].Some? && mb[p].value < |b| && b[mb[p].value] == p
    ensures forall p :: p in ma && p !in a ==> p in mb && ma[p].None? && mb[p].None?
  {
    SameNames(a, b);
    forall p | p in ma
      ensures p in a ==> ma[p].Some? && ma[p].value < |a| && a[ma[p].value] == p
      ensures p !in a ==> ma[p].None?
    {
      OwnerIsLast(a, p);
    }
    forall p | p in mb
      ensures p in b ==> mb[p].Some? && mb[p].value < |b| && b[mb[p].value] == p
      ensures p !in b ==> mb[p].None?
    {
      OwnerIsLast(b, p);
    }
  }

  lemma SameNames(a: seq<string>, b: seq<string>)
    requires multiset(a) == multiset(b)
    ensures (forall p :: p in a <==> p in b) && Paths(a) == Paths(b)
    ensures forall p :: p in a ==> p in Paths(a)
  {
    assert forall p :: p in a <==> p in multiset(a);
    assert forall p :: p in b <==> p in multiset(b);
    assert (set n | n in a) == (set n | n in b);
  }

  /** Two archives with the same names list the same paths in the same order. */
  lemma ListingDependsOnNamesOnly(a: seq<string>, b: seq<string>, pa: seq<string>, pb: seq<string>)
    requires (set n | n in a) == (set n | n in b)
    requires StrictlySorted(pa) && Members(pa) == Paths(a)
    requires StrictlySorted(pb) && Members(pb) == Paths(b)
    ensures pa == pb
    ensures forall p | p in pa :: Owner(a, p).Some? <==> Owner(b, p).Some?
  {
    var members := set n | n in a;
    forall n ensures n in a <==> n in b {
      assert n in members <==> n in a;
      assert n in (set n' | n' in b) <==> n in b;
    }
    forall p ensures p in Paths(a) <==> p in Paths(b) {
    }
    SortingIsUnique(pa, pb);
    forall p ensures Owner(a, p).Some? <==> Owner(b, p).Some? {
      OwnerIsLast(a, p);
      OwnerIsLast(b, p);
    }
  }
}
