/**
 Lexical path processing: the rules of Go's path.Clean, path.Dir and filepath.Join,
 on the stack of path components.
 */
module PathClean {

  // ---------------------------------------------------------------------------
  // Components
  // ---------------------------------------------------------------------------

  /** The texts between slashes; always at least one. */
  function Split(p: string): (parts: seq<string>)
    ensures |parts| >= 1
    ensures forall c | c in parts :: '/' !in c
  {
    if p == "" then [""]
    else
      var rest := Split(p[1..]);
      if p[0] == '/' then [""] + rest else [[p[0]] + rest[0]] + rest[1..]
  }

  function Join(cs: seq<string>): string {
    if cs == [] then "" else if |cs| == 1 then cs[0] else cs[0] + "/" + Join(cs[1..])
  }

  lemma {:induction false} SplitConcat(a: string, b: string)
    ensures Split(a + "/" + b) == Split(a) + Split(b)
  {
    if a == "" {
      assert a + "/" + b == ['/'] + b;
      assert Split("") + Split(b) == [""] + Split(b);
    } else {
      assert (a + "/" + b)[1..] == a[1..] + "/" + b;
      SplitConcat(a[1..], b);
    }
  }

  lemma {:induction false} SplitPlain(c: string)
    requires '/' !in c
    ensures Split(c) == [c]
  {
    if c != "" {
      assert c[0] in c && forall x | x in c[1..] :: x in c;
      SplitPlain(c[1..]);
      assert [c[0]] + c[1..] == c;
    }
  }

  lemma {:induction false} SplitJoin(cs: seq<string>)
    requires cs != [] && forall c | c in cs :: '/' !in c
    ensures Split(Join(cs)) == cs
  {
    assert cs[0] in cs;
    SplitPlain(cs[0]);
    if |cs| > 1 {
      assert forall c | c in cs[1..] :: c in cs;
      SplitJoin(cs[1..]);
      SplitConcat(cs[0], Join(cs[1..]));
    }
  }

  lemma {:induction false} JoinSplit(p: string)
    ensures Join(Split(p)) == p
  {
    if p != "" {
      JoinSplit(p[1..]);
      var rest := Split(p[1..]);
      assert p == [p[0]] + p[1..];
      if p[0] == '/' {
        assert ([""] + rest)[1..] == rest;
        assert "" + "/" + Join(rest) == p;
      } else if |rest| > 1 {
        assert ([[p[0]] + rest[0]] + rest[1..])[1..] == rest[1..];
      }
    }
  }

  lemma {:induction false} JoinConcat(a: seq<string>, b: seq<string>)
    requires a != [] && b != []
    ensures Join(a + b) == Join(a) + "/" + Join(b)
  {
    if |a| == 1 {
      assert (a + b)[1..] == b;
    } else {
      assert (a + b)[1..] == a[1..] + b;
      JoinConcat(a[1..], b);
    }
  }

  // ---------------------------------------------------------------------------
  // Clean
  // ---------------------------------------------------------------------------

  /** One component onto the stack: "" and "." vanish, ".." takes the last one away
      if it can, vanishes at the root, and stays otherwise. */
  function Push(rooted: bool, stack: seq<string>, c: string): seq<string> {
    if c == "" || c == "." then stack
    else if c != ".." then stack + [c]
    else if stack != [] && stack[|stack| - 1] != ".." then stack[..|stack| - 1]
    else if rooted then stack
    else stack + [c]
  }

  function Resolve(rooted: bool, stack: seq<string>, cs: seq<string>): seq<string>
    decreases |cs|
  {
    if cs == [] then stack else Resolve(rooted, Push(rooted, stack, cs[0]), cs[1..])
  }

  function PathOf(rooted: bool, cs: seq<string>): string {
    if rooted then "/" + Join(cs) else if cs == [] then "." else Join(cs)
  }

  predicate Rooted(p: string) { p != "" && p[0] == '/' }

  function Components(p: string): seq<string> { Resolve(Rooted(p), [], Split(p)) }

  /** path.Clean. */
  function Clean(p: string): string { PathOf(Rooted(p), Components(p)) }

  predicate Plain(c: string) { c != "" && c != "." && '/' !in c }

  /** What cleaning leaves: plain components; ".." only in front and never at a root. */
  predicate Normal(rooted: bool, cs: seq<string>) {
    && (forall c | c in cs :: Plain(c))
    && (forall i | 0 <= i < |cs| && cs[i] == ".." :: !rooted && (i == 0 || cs[i - 1] == ".."))
  }

  lemma PushKeepsNormal(rooted: bool, stack: seq<string>, c: string)
    requires Normal(rooted, stack) && '/' !in c
    ensures Normal(rooted, Push(rooted, stack, c))
  {
  }

  lemma {:induction false} ResolveIsNormal(rooted: bool, stack: seq<string>, cs: seq<string>)
    requires Normal(rooted, stack) && forall c | c in cs :: '/' !in c
    ensures Normal(rooted, Resolve(rooted, stack, cs))
    decreases |cs|
  {
    if cs != [] {
      assert cs[0] in cs && forall c | c in cs[1..] :: c in cs;
      PushKeepsNormal(rooted, stack, cs[0]);
      ResolveIsNormal(rooted, Push(rooted, stack, cs[0]), cs[1..]);
    }
  }

  lemma {:induction false} ResolveConcat(rooted: bool, stack: seq<string>, a: seq<string>, b: seq<string>)
    ensures Resolve(rooted, stack, a + b) == Resolve(rooted, Resolve(rooted, stack, a), b)
    decreases |a|
  {
    if a == [] {
      assert a + b == b;
    } else {
      assert (a + b)[1..] == a[1..] + b;
      ResolveConcat(rooted, Push(rooted, stack, a[0]), a[1..], b);
    }
  }

  /** Normal components are pushed unchanged. */
  lemma {:induction false} ResolveNormal(rooted: bool, stack: seq<string>, cs: seq<string>)
    requires Normal(rooted, stack + cs)
    ensures Resolve(rooted, stack, cs) == stack + cs
    decreases |cs|
  {
    if cs == [] {
      assert stack + cs == stack;
    } else {
      assert cs[0] == (stack + cs)[|stack|] && cs[0] in stack + cs;
      assert stack != [] ==> stack[|stack| - 1] == (stack + cs)[|stack| - 1];
      assert (stack + [cs[0]]) + cs[1..] == stack + cs;
      ResolveNormal(rooted, stack + [cs[0]], cs[1..]);
    }
  }

  lemma NormalPrefix(rooted: bool, cs: seq<string>, n: nat)
    requires Normal(rooted, cs) && n <= |cs|
    ensures Normal(rooted, cs[..n])
  {
  }

  /** Empty components do not count. */
  lemma ResolveEmpty(rooted: bool, stack: seq<string>)
    ensures Resolve(rooted, stack, [""]) == stack
  {
    assert [""][1..] == [];
  }

  lemma CleanIsNormal(p: string)
    ensures Normal(Rooted(p), Components(p))
  {
    ResolveIsNormal(Rooted(p), [], Split(p));
  }

  lemma SplitOfPath(rooted: bool, cs: seq<string>)
    requires Normal(rooted, cs) && cs != []
    ensures Split(PathOf(rooted, cs)) == if rooted then [""] + cs else cs
  {
    assert forall c | c in cs :: Plain(c) && '/' !in c;
    SplitJoin(cs);
    if rooted {
      assert PathOf(rooted, cs) == "" + "/" + Join(cs);
      SplitConcat("", Join(cs));
    }
  }

  /** Normal components resolve to themselves, behind the empty one of a root too. */
  lemma ResolveSelf(rooted: bool, cs: seq<string>)
    requires Normal(rooted, cs)
    ensures Resolve(rooted, [], cs) == cs && Resolve(rooted, [], [""] + cs) == cs
  {
    assert [] + cs == cs;
    ResolveNormal(rooted, [], cs);
    ResolveEmpty(rooted, []);
    ResolveConcat(rooted, [], [""], cs);
  }

  lemma RootedOfPath(rooted: bool, cs: seq<string>)
    requires Normal(rooted, cs)
    ensures Rooted(PathOf(rooted, cs)) == rooted
    ensures PathOf(rooted, cs) in {".", "/"} <==> cs == []
  {
    if cs != [] {
      assert Plain(cs[0]);
      JoinStart(cs);
      if !rooted && |cs| == 1 {
        assert Plain(Join(cs)) && "/"[0] in "/";
      } else if !rooted {
        assert cs == cs[..1] + cs[1..];
        JoinConcat(cs[..1], cs[1..]);
        assert |Join(cs)| > 1;
      }
    } else if rooted {
      assert PathOf(rooted, cs) == "/";
    }
  }

  /** The components of a rendered normal path are the ones it was rendered from. */
  lemma ComponentsOfPath(rooted: bool, cs: seq<string>)
    requires Normal(rooted, cs)
    ensures Rooted(PathOf(rooted, cs)) == rooted && Components(PathOf(rooted, cs)) == cs
  {
    RootedOfPath(rooted, cs);
    ResolveSelf(rooted, cs);
    if cs != [] {
      SplitOfPath(rooted, cs);
    } else if rooted {
      assert PathOf(rooted, cs) == "/" && "/" == "" + "/" + "";
      SplitConcat("", "");
      ResolveConcat(true, [], [""], [""]);
      ResolveEmpty(true, []);
    } else {
      SplitPlain(".");
      assert ["."][1..] == [];
    }
  }

  lemma JoinStart(cs: seq<string>)
    requires cs != [] && Plain(cs[0])
    ensures Join(cs) != "" && Join(cs)[0] == cs[0][0] != '/'
  {
    assert cs[0][0] in cs[0];
  }

  lemma CleanIdempotent(p: string)
    ensures Clean(Clean(p)) == Clean(p)
  {
    CleanIsNormal(p);
    ComponentsOfPath(Rooted(p), Components(p));
  }

  /** A path is clean exactly when it is the rendering of normal components. */
  lemma CleanFixpoint(p: string)
    ensures Clean(p) == p <==> exists rooted, cs :: Normal(rooted, cs) && p == PathOf(rooted, cs)
  {
    CleanIsNormal(p);
    if rooted, cs :| Normal(rooted, cs) && p == PathOf(rooted, cs) {
      ComponentsOfPath(rooted, cs);
    }
  }

  // ---------------------------------------------------------------------------
  // The documented rules
  // ---------------------------------------------------------------------------

  /** Components that come to nothing on a stack: empty ones, ".", and one that ".." takes away. */
  predicate Void(rooted: bool, stack: seq<string>, cs: seq<string>) {
    || cs == [""] || cs == ["."]
    || (|cs| == 2 && Plain(cs[0]) && cs[0] != ".." && cs[1] == "..")
    || (rooted && stack == [] && cs == [".."])
  }

  lemma VoidVanishes(rooted: bool, stack: seq<string>, cs: seq<string>)
    requires Void(rooted, stack, cs)
    ensures Resolve(rooted, stack, cs) == stack
  {
    if |cs| == 2 {
      var more := stack + [cs[0]];
      assert Push(rooted, stack, cs[0]) == more && more[..|stack|] == stack;
      assert cs[1..] == [".."] && [".."][1..] == [];
      assert Resolve(rooted, more, [".."]) == Resolve(rooted, Push(rooted, more, ".."), []);
    } else {
      assert cs[1..] == [];
    }
  }

  /** A path without such a middle part is cleaned to the same. */
  lemma CleanWithoutMiddle(a: string, m: string, b: string)
    requires Void(Rooted(a + "/"), Resolve(Rooted(a + "/"), [], Split(a)), Split(m))
    ensures Clean(a + "/" + m + "/" + b) == Clean(a + "/" + b)
  {
    var rooted := Rooted(a + "/");
    var stack := Resolve(rooted, [], Split(a));
    assert a + "/" + m + "/" + b == a + "/" + (m + "/" + b);
    SplitConcat(a, m + "/" + b);
    SplitConcat(m, b);
    SplitConcat(a, b);
    VoidVanishes(rooted, stack, Split(m));
    ResolveConcat(rooted, [], Split(a), Split(m) + Split(b));
    ResolveConcat(rooted, stack, Split(m), Split(b));
    ResolveConcat(rooted, [], Split(a), Split(b));
    assert (a + "/" + m + "/" + b)[0] == (a + "/")[0] == (a + "/" + b)[0];
    hide Resolve, Split, Void, Join;
  }

  /**
   The rules that path.Clean documents. Two slashes are one; "." vanishes; ".." takes away
   the component before it, unless that is ".." itself, also at the start of a relative
   path; and at a root it vanishes. What none of them applies to stays (CleanFixpoint).
   */
  lemma CleanRules(a: string, c: string, b: string)
    ensures Clean(a + "//" + b) == Clean(a + "/" + b)
    ensures Clean(a + "/./" + b) == Clean(a + "/" + b)
    ensures Plain(c) && c != ".." ==> Clean(a + "/" + c + "/../" + b) == Clean(a + "/" + b)
    ensures Plain(c) && c != ".." && !Rooted(b) ==> Clean(c + "/../" + b) == Clean(b)
    ensures Clean("/../" + b) == Clean("/" + b)
  {
    hide Clean, Resolve;
    SlashAndDot(a, b);
    if Plain(c) && c != ".." {
      UpFromMiddle(a, c, b);
      if !Rooted(b) {
        UpFromStart(c, b);
      }
    }
    UpFromRoot(b);
  }

  lemma SlashAndDot(a: string, b: string)
    ensures Clean(a + "//" + b) == Clean(a + "/" + b) && Clean(a + "/./" + b) == Clean(a + "/" + b)
  {
    hide Clean, Resolve;
    CleanWithoutMiddle(a, "", b);
    assert a + "/" + "" + "/" + b == a + "//" + b;
    SplitPlain(".");
    CleanWithoutMiddle(a, ".", b);
    assert a + "/" + "." + "/" + b == a + "/./" + b;
  }

  lemma UpFromMiddle(a: string, c: string, b: string)
    requires Plain(c) && c != ".."
    ensures Clean(a + "/" + c + "/../" + b) == Clean(a + "/" + b)
  {
    hide Clean, Resolve;
    var m := c + "/" + "..";
    SplitPlain(c);
    SplitPlain("..");
    SplitConcat(c, "..");
    assert Split(m) == [c, ".."];
    CleanWithoutMiddle(a, m, b);
    assert a + "/" + m + "/" + b == a + "/" + c + "/../" + b;
  }

  lemma UpFromStart(c: string, b: string)
    requires Plain(c) && c != ".." && !Rooted(b)
    ensures Clean(c + "/../" + b) == Clean(b)
  {
    hide Resolve, Split, Join;
    var m := c + "/" + "..";
    SplitPlain(c);
    SplitPlain("..");
    SplitConcat(c, "..");
    assert Split(m) == [c, ".."];
    SplitConcat(m, b);
    assert c + "/../" + b == m + "/" + b;
    VoidVanishes(false, [], [c, ".."]);
    ResolveConcat(false, [], [c, ".."], Split(b));
    assert c[0] in c && (c + "/../" + b)[0] == c[0];
  }

  lemma UpFromRoot(b: string)
    ensures Clean("/../" + b) == Clean("/" + b)
  {
    hide Clean;
    SplitPlain("..");
    ResolveEmpty(true, []);
    CleanWithoutMiddle("", "..", b);
    assert "" + "/" + ".." + "/" + b == "/../" + b && "" + "/" + b == "/" + b;
  }

  // ---------------------------------------------------------------------------
  // Length
  // ---------------------------------------------------------------------------

  /** Length of the components, each with one slash. */
  function Weight(cs: seq<string>): nat {
    if cs == [] then 0 else |cs[0]| + 1 + Weight(cs[1..])
  }

  lemma {:induction false} WeightConcat(a: seq<string>, b: seq<string>)
    ensures Weight(a + b) == Weight(a) + Weight(b)
    decreases |a|
  {
    if a == [] {
      assert a + b == b;
    } else {
      assert (a + b)[1..] == a[1..] + b;
      WeightConcat(a[1..], b);
    }
  }

  lemma {:induction false} JoinLength(cs: seq<string>)
    requires cs != []
    ensures |Join(cs)| + 1 == Weight(cs)
    decreases |cs|
  {
    if |cs| == 1 {
      assert cs[1..] == [];
    } else {
      JoinLength(cs[1..]);
    }
  }

  lemma PushWeight(rooted: bool, stack: seq<string>, c: string)
    ensures Weight(Push(rooted, stack, c)) <= Weight(stack) + |c| + 1
  {
    assert [c][1..] == [];
    WeightConcat(stack, [c]);
    if stack != [] {
      var n := |stack| - 1;
      assert stack == stack[..n] + [stack[n]];
      WeightConcat(stack[..n], [stack[n]]);
    }
  }

  lemma {:induction false} ResolveWeight(rooted: bool, stack: seq<string>, cs: seq<string>)
    ensures Weight(Resolve(rooted, stack, cs)) <= Weight(stack) + Weight(cs)
    decreases |cs|
  {
    if cs != [] {
      PushWeight(rooted, stack, cs[0]);
      ResolveWeight(rooted, Push(rooted, stack, cs[0]), cs[1..]);
    }
  }

  /** Cleaning makes no path longer but the empty one. */
  lemma CleanShortens(p: string)
    ensures p != "" ==> |Clean(p)| <= |p|
  {
    if p != "" {
      var rooted, cs := Rooted(p), Components(p);
      JoinSplit(p);
      JoinLength(Split(p));
      ResolveWeight(rooted, [], Split(p));
      if rooted {
        assert Split(p) == [""] + Split(p[1..]);
        ResolveWeight(rooted, [], Split(p)[1..]);
      }
      if cs != [] {
        JoinLength(cs);
      }
    }
  }

  // ---------------------------------------------------------------------------
  // Dir
  // ---------------------------------------------------------------------------

  /** path.Dir: all up to the last slash, cleaned. */
  function Dir(p: string): string {
    var cs := Split(p);
    if |cs| == 1 then Clean("") else Clean(Join(cs[..|cs| - 1]) + "/")
  }

  /** The components of everything before the last slash. */
  function DirComponents(p: string): seq<string> {
    Resolve(Rooted(p), [], Split(p)[..|Split(p)| - 1])
  }

  lemma RootedJoin(p: string)
    requires |Split(p)| > 1
    ensures Rooted(Join(Split(p)[..|Split(p)| - 1]) + "/") == Rooted(p)
  {
    var cs := Split(p);
    var front := cs[..|cs| - 1];
    JoinSplit(p);
    assert cs == front + [cs[|cs| - 1]];
    JoinConcat(front, [cs[|cs| - 1]]);
    assert p == Join(front) + "/" + cs[|cs| - 1];
  }

  lemma DirIsPathOf(p: string)
    ensures Dir(p) == PathOf(Rooted(p), DirComponents(p))
    ensures Normal(Rooted(p), DirComponents(p))
  {
    var cs := Split(p);
    var front := cs[..|cs| - 1];
    assert forall c | c in front :: c in cs;
    ResolveIsNormal(Rooted(p), [], front);
    if |cs| > 1 {
      RootedJoin(p);
      SplitJoin(front);
      assert Join(front) + "/" == Join(front) + "/" + "";
      SplitConcat(Join(front), "");
      ResolveConcat(Rooted(p), [], front, [""]);
      ResolveEmpty(Rooted(p), Resolve(Rooted(p), [], front));
    } else {
      ResolveEmpty(false, []);
      JoinSplit(p);
      assert cs[0] in cs && p == cs[0] && !Rooted(p);
    }
  }

  lemma DirComponentsOfPath(rooted: bool, cs: seq<string>)
    requires Normal(rooted, cs) && cs != []
    ensures DirComponents(PathOf(rooted, cs)) == cs[..|cs| - 1]
  {
    var front := cs[..|cs| - 1];
    RootedOfPath(rooted, cs);
    SplitOfPath(rooted, cs);
    NormalPrefix(rooted, cs, |cs| - 1);
    ResolveSelf(rooted, front);
    assert rooted ==> ([""] + cs)[..|cs|] == [""] + front;
  }

  /** Dir of a clean path drops its last component, so that it gets shorter until
      it is "." or "/". */
  lemma DirOfPath(rooted: bool, cs: seq<string>)
    requires Normal(rooted, cs) && cs != []
    ensures Dir(PathOf(rooted, cs)) == PathOf(rooted, cs[..|cs| - 1])
    ensures |cs| > 1 ==> |PathOf(rooted, cs[..|cs| - 1])| < |PathOf(rooted, cs)|
  {
    RootedOfPath(rooted, cs);
    DirComponentsOfPath(rooted, cs);
    DirIsPathOf(PathOf(rooted, cs));
    var front := cs[..|cs| - 1];
    if front != [] {
      assert cs == front + [cs[|cs| - 1]];
      JoinConcat(front, [cs[|cs| - 1]]);
    }
  }
}
