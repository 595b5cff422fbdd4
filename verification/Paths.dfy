/**
  Unix path manipulation as the store uses it: `filepath.Clean`, `Dir`, `Base` and `Join`.

  A watched file is stored as the pair (Dir(p), Base(p)) and read back as Join(dir, base).
  The module proves exactly for which paths that round trip is the identity.
 */
module Paths {

  predicate SlashFree(s: string) {
    '/' !in s
  }

  predicate Rooted(p: string) {
    p != "" && p[0] == '/'
  }

  /** The components of a path: the pieces between its slashes. */
  function Split(s: string): (cs: seq<string>)
    ensures |cs| >= 1
  {
    if s == "" then [""]
    else if s[0] == '/' then [""] + Split(s[1..])
    else
      var rest := Split(s[1..]);
      [[s[0]] + rest[0]] + rest[1..]
  }

  /** Components put back together with single slashes. */
  function Slashed(cs: seq<string>): string {
    if cs == [] then ""
    else if |cs| == 1 then cs[0]
    else Slashed(cs[..|cs| - 1]) + "/" + cs[|cs| - 1]
  }

  /** Processes components left to right: "" and "." vanish, ".." eats the component before it. */
  function Resolve(rooted: bool, done: seq<string>, todo: seq<string>): seq<string>
    decreases |todo|
  {
    if todo == [] then done
    else if todo[0] == "" || todo[0] == "." then Resolve(rooted, done, todo[1..])
    else if todo[0] == ".." then
      if done != [] && done[|done| - 1] != ".." then Resolve(rooted, done[..|done| - 1], todo[1..])
      else if rooted then Resolve(rooted, done, todo[1..])
      else Resolve(rooted, done + [".."], todo[1..])
    else Resolve(rooted, done + [todo[0]], todo[1..])
  }

  function Render(rooted: bool, cs: seq<string>): string {
    if rooted then "/" + Slashed(cs)
    else if cs == [] then "."
    else Slashed(cs)
  }

  function Parts(p: string): seq<string> {
    Resolve(Rooted(p), [], Split(p))
  }

  /** `filepath.Clean`. */
  function Clean(p: string): string {
    Render(Rooted(p), Parts(p))
  }

  predicate IsClean(p: string) {
    Clean(p) == p
  }

  /** The path up to and including its last slash. */
  function Head(p: string): (h: string)
    ensures |h| <= |p|
  {
    if p == "" || p[|p| - 1] == '/' then p else Head(p[..|p| - 1])
  }

  function TrimSlashes(p: string): string {
    if p != "" && p[|p| - 1] == '/' then TrimSlashes(p[..|p| - 1]) else p
  }

  /** `filepath.Dir`. */
  function Dir(p: string): string {
    Clean(Head(p))
  }

  /** `filepath.Base`. */
  function Base(p: string): string {
    if p == "" then "."
    else
      var q := TrimSlashes(p);
      var b := q[|Head(q)|..];
      if b == "" then "/" else b
  }

  /** `filepath.Join` of two elements: leading empty elements are dropped. */
  function Join(dir: string, name: string): string {
    if dir != "" then Clean(dir + "/" + name)
    else if name != "" then Clean(name)
    else ""
  }

  // ---------------------------------------------------------------- components

  lemma SplitLetter(c: char, s: string, b: seq<string>)
    requires c != '/'
    ensures Split([c] + s) == [[c] + Split(s)[0]] + Split(s)[1..]
    ensures Split([c] + s) + b == [[c] + (Split(s) + b)[0]] + (Split(s) + b)[1..]
  {
  }

  lemma SplitAfterLetter(c: char, a: string, b: string)
    requires c != '/' && Split(a + "/" + b) == Split(a) + Split(b)
    ensures Split([c] + (a + "/" + b)) == Split([c] + a) + Split(b)
  {
    SplitLetter(c, a, Split(b));
    SplitLetter(c, a + "/" + b, []);
  }

  lemma SplitAfterSlash(a: string, b: string)
    requires Split(a + "/" + b) == Split(a) + Split(b)
    ensures Split("/" + (a + "/" + b)) == Split("/" + a) + Split(b)
  {
    assert ("/" + a)[1..] == a && ("/" + (a + "/" + b))[1..] == a + "/" + b;
    assert [""] + (Split(a) + Split(b)) == ([""] + Split(a)) + Split(b);
  }

  lemma {:induction false} SplitConcat(a: string, b: string)
    ensures Split(a + "/" + b) == Split(a) + Split(b)
  {
    var s := a + "/" + b;
    if a == "" {
      assert s[1..] == b;
    } else {
      var rest := a[1..];
      assert s[0] == a[0] && s[1..] == rest + "/" + b;
      SplitConcat(rest, b);
      if a[0] == '/' {
        SplitAfterSlash(rest, b);
        assert a == "/" + rest && s == "/" + (rest + "/" + b);
      } else {
        assert a == [a[0]] + rest && s == [a[0]] + s[1..];
        SplitAfterLetter(a[0], rest, b);
      }
    }
  }

  lemma {:induction false} SplitSlashFree(s: string)
    requires SlashFree(s)
    ensures Split(s) == [s]
  {
    if s != "" {
      SplitSlashFree(s[1..]);
      assert s == [s[0]] + s[1..];
    }
  }

  lemma {:induction false} SplitPieces(s: string)
    ensures forall i :: 0 <= i < |Split(s)| ==> SlashFree(Split(s)[i])
  {
    if s != "" {
      SplitPieces(s[1..]);
    }
  }

  lemma {:induction false} SplitSlashed(cs: seq<string>)
    requires cs != [] && forall c :: c in cs ==> SlashFree(c)
    ensures Split(Slashed(cs)) == cs
  {
    var n := |cs| - 1;
    SplitSlashFree(cs[n]);
    if n > 0 {
      SplitSlashed(cs[..n]);
      SplitConcat(Slashed(cs[..n]), cs[n]);
      assert cs == cs[..n] + [cs[n]];
    }
  }

  // ---------------------------------------------------------------- canonical components

  /** What Clean leaves: real names only, and ".." only in front of a relative path. */
  predicate Canonical(rooted: bool, cs: seq<string>) {
    && (forall i :: 0 <= i < |cs| ==> SlashFree(cs[i]) && cs[i] != "" && cs[i] != ".")
    && (forall i, j :: 0 <= j <= i < |cs| && cs[i] == ".." ==> !rooted && cs[j] == "..")
  }

  lemma {:induction false} ResolveCanonical(rooted: bool, done: seq<string>, todo: seq<string>)
    requires Canonical(rooted, done)
    requires forall i :: 0 <= i < |todo| ==> SlashFree(todo[i])
    ensures Canonical(rooted, Resolve(rooted, done, todo))
    decreases |todo|
  {
    if todo != [] {
      var next :=
        if todo[0] == "" || todo[0] == "." then done
        else if todo[0] == ".." then
          if done != [] && done[|done| - 1] != ".." then done[..|done| - 1]
          else if rooted then done else done + [".."]
        else done + [todo[0]];
      ResolveCanonical(rooted, next, todo[1..]);
    }
  }

  lemma {:induction false} ResolveConcat(rooted: bool, done: seq<string>, a: seq<string>, b: seq<string>)
    ensures Resolve(rooted, done, a + b) == Resolve(rooted, Resolve(rooted, done, a), b)
    decreases |a|
  {
    if a == [] {
      assert a + b == b;
    } else {
      assert (a + b)[1..] == a[1..] + b;
      var next :=
        if a[0] == "" || a[0] == "." then done
        else if a[0] == ".." then
          if done != [] && done[|done| - 1] != ".." then done[..|done| - 1]
          else if rooted then done else done + [".."]
        else done + [a[0]];
      ResolveConcat(rooted, next, a[1..], b);
    }
  }

  lemma {:induction false} ResolveKeeps(rooted: bool, done: seq<string>, todo: seq<string>)
    requires Canonical(rooted, done + todo)
    ensures Resolve(rooted, done, todo) == done + todo
    decreases |todo|
  {
    if todo == [] {
      assert done + todo == done;
    } else {
      var all := done + todo;
      assert all[|done|] == todo[0];
      assert done != [] ==> all[|done| - 1] == done[|done| - 1];
      assert all == (done + [todo[0]]) + todo[1..];
      ResolveKeeps(rooted, done + [todo[0]], todo[1..]);
    }
  }

  lemma {:induction false} SlashedStart(cs: seq<string>)
    requires cs != [] && forall i :: 0 <= i < |cs| ==> SlashFree(cs[i]) && cs[i] != ""
    ensures Slashed(cs) != "" && Slashed(cs)[0] != '/'
  {
    if |cs| > 1 {
      SlashedStart(cs[..|cs| - 1]);
    }
  }

  lemma SplitRender(rooted: bool, cs: seq<string>)
    requires Canonical(rooted, cs) && cs != []
    ensures Rooted(Render(rooted, cs)) == rooted && Render(rooted, cs) != ""
    ensures Split(Render(rooted, cs)) == if rooted then [""] + cs else cs
  {
    SplitSlashed(cs);
    SlashedStart(cs);
    if rooted {
      SplitConcat("", Slashed(cs));
      assert "" + "/" + Slashed(cs) == Render(rooted, cs);
    }
  }

  lemma SplitRoot()
    ensures Split("/") == ["", ""] && Split(".") == ["."]
    ensures forall r, done :: Resolve(r, done, ["", ""]) == done && Resolve(r, done, ["."]) == done
    ensures forall r, done :: Resolve(r, done, [""]) == done
  {
    SplitSlashFree(".");
    SplitConcat("", "");
    assert "" + "/" + "" == "/";
    assert ["", ""][1..] == [""] && [""][1..] == [] && ["."][1..] == [];
  }

  /** Reading a rendered canonical path gives back the same components. */
  lemma ParseRender(rooted: bool, cs: seq<string>)
    requires Canonical(rooted, cs)
    ensures Rooted(Render(rooted, cs)) == rooted && Parts(Render(rooted, cs)) == cs
    ensures Render(rooted, cs) != ""
  {
    if cs == [] {
      SplitRoot();
      assert rooted ==> Render(rooted, cs) == "/";
    } else {
      SplitRender(rooted, cs);
      assert [] + cs == cs;
      ResolveKeeps(rooted, [], cs);
      assert ([""] + cs)[1..] == cs;
    }
  }

  lemma CleanIsCanonical(p: string)
    ensures Canonical(Rooted(p), Parts(p))
  {
    SplitPieces(p);
    ResolveCanonical(Rooted(p), [], Split(p));
  }

  lemma CleanIdempotent(p: string)
    ensures IsClean(Clean(p))
  {
    CleanIsCanonical(p);
    ParseRender(Rooted(p), Parts(p));
  }

  // ---------------------------------------------------------------- what cleaning does

  /** A component in the middle of a path: everything before it is resolved first. */
  lemma CleanMiddle(a: string, c: string, b: string)
    requires a != "" && SlashFree(c)
    ensures Clean(a + "/" + c + "/" + b)
            == Render(Rooted(a), Resolve(Rooted(a), Resolve(Rooted(a), Parts(a), [c]), Split(b)))
  {
    SplitConcat(a + "/" + c, b);
    SplitConcat(a, c);
    SplitSlashFree(c);
    ResolveConcat(Rooted(a), [], Split(a) + [c], Split(b));
    ResolveConcat(Rooted(a), [], Split(a), [c]);
  }

  lemma CleanPair(a: string, b: string)
    requires a != ""
    ensures Clean(a + "/" + b) == Render(Rooted(a), Resolve(Rooted(a), Parts(a), Split(b)))
  {
    SplitConcat(a, b);
    ResolveConcat(Rooted(a), [], Split(a), Split(b));
  }

  /** A doubled slash and a "." vanish, */
  lemma CleanDropsDot(a: string, b: string)
    requires a != ""
    ensures Clean(a + "/" + "" + "/" + b) == Clean(a + "/" + b)
    ensures Clean(a + "/" + "." + "/" + b) == Clean(a + "/" + b)
  {
    SplitRoot();
    CleanPair(a, b);
    CleanMiddle(a, "", b);
    CleanMiddle(a, ".", b);
  }

  /** a ".." takes the name before it with it, */
  lemma CleanDotDot(a: string, n: string, b: string)
    requires a != "" && SlashFree(n) && n != "" && n != "." && n != ".."
    ensures Clean(a + "/" + n + "/" + ".." + "/" + b) == Clean(a + "/" + b)
  {
    var r, parts := Rooted(a), Parts(a);
    CleanMiddle(a + "/" + n, "..", b);
    CleanPair(a, b);
    SplitConcat(a, n);
    SplitSlashFree(n);
    ResolveConcat(r, [], Split(a), [n]);
    assert [n][1..] == [] && [".."][1..] == [];
    assert (parts + [n])[..|parts|] == parts;
  }

  /** and vanishes at the top of a rooted path. */
  lemma CleanRootDotDot(b: string)
    ensures Clean("/" + ".." + "/" + b) == Clean("/" + b)
  {
    RootParts();
    CleanPair("/" + "..", b);
    SplitConcat("", b);
    assert "" + "/" + b == "/" + b;
    assert ([""] + Split(b))[1..] == Split(b);
  }

  lemma RootParts()
    ensures Rooted("/" + "..") && Parts("/" + "..") == []
  {
    SplitSlashFree("..");
    SplitConcat("", "..");
    assert "" + "/" + ".." == "/" + "..";
    assert Split("/" + "..") == ["", ".."] && ["", ".."][1..] == [".."] && [".."][1..] == [];
  }

  // ---------------------------------------------------------------- the round trip

  lemma {:induction false} HeadOfConcat(pre: string, last: string)
    requires pre == "" || pre[|pre| - 1] == '/'
    requires SlashFree(last)
    ensures Head(pre + last) == pre
  {
    if last == "" {
      assert pre + last == pre;
    } else {
      var n := |last| - 1;
      assert (pre + last)[|pre + last| - 1] == last[n];
      assert (pre + last)[..|pre + last| - 1] == pre + last[..n];
      HeadOfConcat(pre, last[..n]);
    }
  }

  /** Dir and Base of a path that ends in a name. */
  lemma DirBaseOfConcat(pre: string, last: string)
    requires pre == "" || pre[|pre| - 1] == '/'
    requires SlashFree(last) && last != ""
    ensures Dir(pre + last) == Clean(pre) && Base(pre + last) == last
  {
    HeadOfConcat(pre, last);
    var p := pre + last;
    assert p[|p| - 1] == last[|last| - 1];
    assert p[|pre|..] == last;
  }

  lemma CleanAppend(dir: string, name: string)
    requires dir != "" && SlashFree(name)
    ensures Clean(dir + "/" + name) == Render(Rooted(dir), Resolve(Rooted(dir), Parts(dir), [name]))
  {
    SplitConcat(dir, name);
    SplitSlashFree(name);
    ResolveConcat(Rooted(dir), [], Split(dir), [name]);
  }

  lemma RootRoundTrip()
    ensures Join(Dir("/"), Base("/")) == "/"
    ensures Join(Dir("."), Base(".")) == "."
  {
    SplitRoot();
    assert Head("/") == "/" && Clean("/") == "/";
    assert TrimSlashes("/") == TrimSlashes("") == "";
    assert "/" + "/" + "/" == "///";
    SplitConcat("/", "/");
    ResolveConcat(true, [], ["", ""], ["", ""]);
    assert "" + "." == ".";
    DirBaseOfConcat("", ".");
    assert Split("") == [""] && Clean("") == ".";
    CleanAppend(".", ".");
  }

  /** What stands in front of the last component of a rendered path. */
  function Before(rooted: bool, front: seq<string>): string {
    if front != [] then Render(rooted, front) + "/" else if rooted then "/" else ""
  }

  lemma RenderSnoc(rooted: bool, front: seq<string>, name: string)
    ensures Render(rooted, front + [name]) == Before(rooted, front) + name
  {
  }

  lemma CleanBefore(rooted: bool, front: seq<string>)
    requires Canonical(rooted, front)
    ensures Clean(Before(rooted, front)) == Render(rooted, front)
  {
    SplitRoot();
    if front != [] {
      var dir := Render(rooted, front);
      ParseRender(rooted, front);
      CleanAppend(dir, "");
      assert dir + "/" + "" == dir + "/";
    } else {
      assert Split("") == [""];
    }
  }

  lemma CanonicalFront(rooted: bool, front: seq<string>, name: string)
    requires Canonical(rooted, front + [name])
    ensures Canonical(rooted, front) && SlashFree(name) && name != ""
  {
    var cs := front + [name];
    assert cs[|front|] == name;
    assert forall i :: 0 <= i < |front| ==> cs[i] == front[i];
  }

  lemma JoinNormal(rooted: bool, front: seq<string>, name: string)
    requires Canonical(rooted, front + [name])
    ensures Join(Render(rooted, front), name) == Render(rooted, front + [name])
  {
    CanonicalFront(rooted, front, name);
    ParseRender(rooted, front);
    CleanAppend(Render(rooted, front), name);
    ResolveKeeps(rooted, front, [name]);
  }

  lemma NamedRoundTrip(rooted: bool, front: seq<string>, name: string)
    requires Canonical(rooted, front + [name])
    ensures var p := Render(rooted, front + [name]); Join(Dir(p), Base(p)) == p
  {
    CanonicalFront(rooted, front, name);
    RenderSnoc(rooted, front, name);
    CleanBefore(rooted, front);
    DirBaseOfConcat(Before(rooted, front), name);
    JoinNormal(rooted, front, name);
  }

  lemma EmptyRoundTrip(rooted: bool)
    ensures var p := Render(rooted, []); Join(Dir(p), Base(p)) == p
  {
    RootRoundTrip();
    assert Render(rooted, []) == if rooted then "/" else ".";
  }

  lemma PartsRoundTrip(rooted: bool, cs: seq<string>)
    requires Canonical(rooted, cs)
    ensures var p := Render(rooted, cs); Join(Dir(p), Base(p)) == p
  {
    if cs == [] {
      EmptyRoundTrip(rooted);
    } else {
      assert cs == cs[..|cs| - 1] + [cs[|cs| - 1]];
      NamedRoundTrip(rooted, cs[..|cs| - 1], cs[|cs| - 1]);
    }
  }

  lemma CleanRoundTrip(p: string)
    requires IsClean(p)
    ensures Join(Dir(p), Base(p)) == p
  {
    CleanIsCanonical(p);
    PartsRoundTrip(Rooted(p), Parts(p));
  }

  /** A path survives being stored as (Dir, Base) exactly when it is already clean. */
  lemma PathRoundTrip(p: string)
    ensures Join(Dir(p), Base(p)) == p <==> IsClean(p)
  {
    if IsClean(p) {
      CleanRoundTrip(p);
    } else {
      CleanIdempotent(Dir(p) + "/" + Base(p));
      CleanIdempotent(Base(p));
      CleanIsCanonical(Head(p));
      ParseRender(Rooted(Head(p)), Parts(Head(p)));
    }
  }

  /** Distinct clean paths have distinct keys. */
  lemma PathKeyInjective(p: string, q: string)
    requires IsClean(p) && IsClean(q)
    ensures Dir(p) == Dir(q) && Base(p) == Base(q) <==> p == q
  {
    PathRoundTrip(p);
    PathRoundTrip(q);
  }
}
