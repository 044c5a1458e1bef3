/**
 * Lexical path arithmetic: the containment test `IsIn` of internal/utils/fs.go
 * and the parts of Go's `path/filepath`, `path` and `strings` packages it and the
 * request router rely on, in their Unix form ('/' is the only separator and
 * there are no volume names). Nothing here touches a file system: a path is a
 * string, and the working directory is a parameter.
 */
module Paths {
  import opened Wrappers

  /** `filepath.IsAbs`: a path is absolute when it starts with the separator. */
  predicate IsAbs(p: string) {
    |p| > 0 && p[0] == '/'
  }

  /** The working directory `filepath.Abs` asks the OS for: `None` when `os.Getwd`
      fails, otherwise an absolute path (which is all `os.Getwd` ever returns). */
  type Cwd = c: Option<string> | c.None? || IsAbs(c.value) witness None

  /** A working directory that is never consulted successfully. */
  const NoCwd: Cwd := None

  /** `strings.HasPrefix`: a character prefix, not a path-element prefix. */
  predicate HasPrefix(s: string, prefix: string) {
    |prefix| <= |s| && s[..|prefix|] == prefix
  }

  /** `strings.Split(s, "/")`: the pieces between separators, empty ones included. */
  function Split(s: string): (r: seq<string>)
    ensures |r| >= 1
    ensures NoSeparator(r)
    decreases |s|
  {
    if s == [] then [""]
    else
      var rest := Split(s[1..]);
      if s[0] == '/' then [""] + rest
      else [[s[0]] + rest[0]] + rest[1..]
  }

  /** `strings.Join(segs, "/")`. */
  function Join(segs: seq<string>): string
    decreases |segs|
  {
    if segs == [] then ""
    else if |segs| == 1 then segs[0]
    else segs[0] + "/" + Join(segs[1..])
  }

  predicate NoSeparator(segs: seq<string>) {
    forall i :: 0 <= i < |segs| ==> '/' !in segs[i]
  }

  /** An element that survives cleaning in every path: not empty, not "." or "..",
      and without a separator. */
  predicate IsName(e: string) {
    e != "" && e != "." && e != ".." && '/' !in e
  }

  /** The elements of a cleaned path: only names when the path is rooted; names and
      leading ".." elements (which cannot be resolved lexically) when it is relative. */
  predicate CleanElems(rooted: bool, es: seq<string>) {
    (forall i :: 0 <= i < |es| ==> IsName(es[i]) || (!rooted && es[i] == ".."))
    && (forall i, j :: 0 <= i < j < |es| && es[j] == ".." ==> es[i] == "..")
  }

  /** One element of `filepath.Clean`'s scan, applied to the elements kept so far:
      empty and "." elements vanish, ".." removes the last kept name, is dropped at
      the root of a rooted path, and is kept when nothing can be removed in a
      relative path. */
  function Step(rooted: bool, stack: seq<string>, seg: string): seq<string> {
    if seg == "" || seg == "." then stack
    else if seg == ".." then
      if |stack| > 0 && stack[|stack| - 1] != ".." then stack[..|stack| - 1]
      else if rooted then stack
      else stack + [seg]
    else stack + [seg]
  }

  /** `Step` over `segs`, left to right, starting from `stack`. */
  function Resolve(rooted: bool, stack: seq<string>, segs: seq<string>): (r: seq<string>)
    ensures CleanElems(rooted, stack) && NoSeparator(segs) ==> CleanElems(rooted, r)
    decreases |segs|
  {
    if segs == [] then stack
    else Resolve(rooted, Step(rooted, stack, segs[0]), segs[1..])
  }

  /** The elements of the cleaned form of an absolute path. */
  function Elements(p: string): (es: seq<string>)
    ensures CleanElems(true, es)
  {
    Resolve(true, [], Split(p))
  }

  /** `filepath.Clean`: repeated separators collapse, "." elements vanish, "name/.."
      pairs cancel, ".." right after the root is dropped, no trailing separator is
      left (except for "/"), and an empty result reads ".". */
  function Clean(p: string): (c: string) {
    var rooted := IsAbs(p);
    var es := Resolve(rooted, [], Split(p));
    if rooted then "/" + Join(es)
    else if es == [] then "."
    else Join(es)
  }

  /** `filepath.Join` and `path.Join`: leading empty elements are skipped, the rest
      are joined with separators and the result is cleaned; all-empty gives "". */
  function JoinElems(elems: seq<string>): string
    decreases |elems|
  {
    if elems == [] then ""
    else if elems[0] == "" then JoinElems(elems[1..])
    else Clean(Join(elems))
  }

  /** The index of the last separator in `p`, or -1 when there is none. */
  function LastSlash(p: string): (i: int)
    ensures -1 <= i < |p|
    ensures i >= 0 ==> p[i] == '/'
    ensures forall j :: i < j < |p| ==> p[j] != '/'
    decreases |p|
  {
    if p == [] then -1
    else if p[|p| - 1] == '/' then |p| - 1
    else LastSlash(p[..|p| - 1])
  }

  /** `path.Dir`: everything up to the last separator, cleaned. */
  function DirOf(p: string): string {
    Clean(p[..LastSlash(p) + 1])
  }

  /** `filepath.Abs`: an absolute path is only cleaned; a relative one is joined to
      the working directory, which fails when there is none. */
  function Abs(cwd: Cwd, p: string): (r: Option<string>)
    ensures r.Some? ==> IsAbs(r.value)
    ensures r.None? <==> !IsAbs(p) && cwd.None?
  {
    if IsAbs(p) then Some(Clean(p))
    else if cwd.None? then None
    else Some(JoinElems([cwd.value, p]))
  }

  /** The elements of `Abs(cwd, p)`, when it exists. */
  function AbsElems(cwd: Cwd, p: string): (r: Option<seq<string>>) {
    if IsAbs(p) then Some(Elements(p))
    else if cwd.None? then None
    else Some(Elements(cwd.value + "/" + p))
  }

  /** The length of the longest common prefix of two element lists. */
  function CommonPrefixLen(a: seq<string>, b: seq<string>): (k: nat)
    ensures k <= |a| && k <= |b|
    ensures a[..k] == b[..k]
    ensures k < |a| && k < |b| ==> a[k] != b[k]
    decreases |a|
  {
    if a == [] || b == [] || a[0] != b[0] then 0
    else 1 + CommonPrefixLen(a[1..], b[1..])
  }

  /** `n` further "/.." steps. */
  function Ups(n: nat): string {
    if n == 0 then "" else "/.." + Ups(n - 1)
  }

  /** The relative path `filepath.Rel` builds from the elements of a cleaned base
      and a cleaned target once they differ: one ".." per base element past the
      common prefix, then the rest of the target. */
  function RelElems(base: seq<string>, targ: seq<string>): string {
    var k := CommonPrefixLen(base, targ);
    if k < |base| then
      ".." + Ups(|base| - k - 1) + (if k < |targ| then "/" + Join(targ[k..]) else "")
    else Join(targ[k..])
  }

  /** `filepath.Rel` for two absolute paths (the only way `IsIn` calls it); for such
      arguments it never fails. */
  function Rel(basepath: string, targpath: string): string
    requires IsAbs(basepath) && IsAbs(targpath)
  {
    var base, targ := Clean(basepath), Clean(targpath);
    if targ == base then "."
    else RelElems(Elements(base), Elements(targ))
  }

  /** `IsIn` (internal/utils/fs.go): is `path` the directory `dir` or inside it? */
  function IsIn(cwd: Cwd, path: string, dir: string): bool {
    match Abs(cwd, path)
    case None => false
    case Some(absPath) =>
      match Abs(cwd, dir)
      case None => false
      case Some(absDir) =>
        if absPath == absDir then true
        else
          // filepath.Rel of two absolute paths cannot fail, so the error branch
          // of the source is never taken
          var relPath := Rel(absDir, absPath);
          |relPath| != 0 && !HasPrefix(relPath, "..")
  }

  /** The reference definition of containment on cleaned elements: `p` is `d`
      itself, or `d` is a proper element prefix of `p` whose next element does not
      begin with the characters "..". */
  predicate Within(d: seq<string>, p: seq<string>) {
    d == p || (|d| < |p| && p[..|d|] == d && !HasPrefix(p[|d|], ".."))
  }

  // ---------------------------------------------------------------------------
  // Splitting and joining

  lemma {:induction false} SplitName(a: string)
    requires '/' !in a
    ensures Split(a) == [a]
    decreases |a|
  {
    if a != [] {
      SplitName(a[1..]);
      assert [a[0]] + a[1..] == a;
    }
  }

  /** `Split` of a string given by its first character. */
  lemma SplitFirst(c: char, t: string)
    ensures Split([c] + t) ==
      if c == '/' then [""] + Split(t) else [[c] + Split(t)[0]] + Split(t)[1..]
  {
    assert ([c] + t)[0] == c;
    assert ([c] + t)[1..] == t;
  }

  /** Splitting distributes over a separator. */
  lemma {:induction false} SplitConcat(a: string, b: string)
    ensures Split(a + "/" + b) == Split(a) + Split(b)
    decreases |a|
  {
    if a == [] {
      assert a + "/" + b == ['/'] + b;
      SplitFirst('/', b);
      SplitName("");
    } else {
      var c, t := a[0], a[1..];
      assert a == [c] + t;
      SplitConcat(t, b);
      SplitConsConcat(c, t, b);
    }
  }

  /** The step of `SplitConcat`: one more character in front. */
  lemma SplitConsConcat(c: char, t: string, b: string)
    requires Split(t + "/" + b) == Split(t) + Split(b)
    ensures Split([c] + t + "/" + b) == Split([c] + t) + Split(b)
  {
    assert [c] + t + "/" + b == [c] + (t + "/" + b);
    SplitFirst(c, t);
    SplitFirst(c, t + "/" + b);
    if c != '/' {
      HeadTailConcat([c], Split(t), Split(b));
    } else {
      SeqAssoc([""], Split(t), Split(b));
    }
  }

  lemma HeadTailConcat(h: string, r0: seq<string>, rb: seq<string>)
    requires |r0| >= 1
    ensures [h + (r0 + rb)[0]] + (r0 + rb)[1..] == ([h + r0[0]] + r0[1..]) + rb
  {
    assert (r0 + rb)[0] == r0[0];
    assert (r0 + rb)[1..] == r0[1..] + rb;
  }

  lemma SeqAssoc<T>(x: seq<T>, y: seq<T>, z: seq<T>)
    ensures x + (y + z) == (x + y) + z
  {
  }

  /** `Split` undoes `Join` when no piece holds a separator. */
  lemma {:induction false} SplitJoin(segs: seq<string>)
    requires |segs| >= 1 && NoSeparator(segs)
    ensures Split(Join(segs)) == segs
    decreases |segs|
  {
    SplitName(segs[0]);
    if |segs| > 1 {
      SplitJoin(segs[1..]);
      SplitConcat(segs[0], Join(segs[1..]));
      assert segs == [segs[0]] + segs[1..];
    }
  }

  /** The joined elements start with the first element. */
  lemma {:induction false} JoinHead(es: seq<string>)
    requires |es| >= 1
    ensures |Join(es)| >= |es[0]| && Join(es)[..|es[0]|] == es[0]
    ensures |es| > 1 ==> Join(es) == es[0] + "/" + Join(es[1..])
  {
  }

  /** Joined names determine the names. */
  lemma JoinInjective(a: seq<string>, b: seq<string>)
    requires CleanElems(true, a) && CleanElems(true, b)
    requires Join(a) == Join(b)
    ensures a == b
  {
    if a == [] || b == [] {
      if a != [] { JoinHead(a); }
      if b != [] { JoinHead(b); }
    } else {
      SplitJoin(a);
      SplitJoin(b);
    }
  }

  // ---------------------------------------------------------------------------
  // Cleaning

  /** Resolving a concatenation resolves the parts in turn. */
  lemma {:induction false} ResolveConcat(rooted: bool, stack: seq<string>, s: seq<string>, t: seq<string>)
    ensures Resolve(rooted, stack, s + t) == Resolve(rooted, Resolve(rooted, stack, s), t)
    decreases |s|
  {
    if s == [] {
      assert s + t == t;
    } else {
      assert (s + t)[0] == s[0];
      assert (s + t)[1..] == s[1..] + t;
      ResolveConcat(rooted, Step(rooted, stack, s[0]), s[1..], t);
    }
  }

  /** Elements that are already clean are kept as they are. */
  lemma {:induction false} ResolveClean(rooted: bool, stack: seq<string>, es: seq<string>)
    requires CleanElems(rooted, stack + es)
    ensures Resolve(rooted, stack, es) == stack + es
    decreases |es|
  {
    if es != [] {
      var next := stack + [es[0]];
      var all := stack + es;
      assert all == next + es[1..];
      assert all[|stack|] == es[0];
      assert IsName(all[|stack|]) || (!rooted && all[|stack|] == "..");
      if es[0] == ".." && |stack| > 0 {
        assert all[|stack| - 1] == "..";
        assert stack[|stack| - 1] == all[|stack| - 1];
      }
      assert Step(rooted, stack, es[0]) == next;
      ResolveClean(rooted, next, es[1..]);
    }
  }

  /** The cleaned form of an absolute path is "/" followed by its elements. */
  lemma CleanRooted(p: string)
    requires IsAbs(p)
    ensures Clean(p) == "/" + Join(Elements(p))
  {
  }

  /** The elements of a path written as "/" and clean names are those names. */
  lemma ElementsOfJoined(es: seq<string>)
    requires CleanElems(true, es)
    ensures Elements("/" + Join(es)) == es
  {
    SplitConcat("", Join(es));
    assert "" + "/" + Join(es) == "/" + Join(es);
    if es == [] {
      assert Split("") == [""];
      assert Split("/" + Join(es)) == ["", ""];
      assert Resolve(true, [], ["", ""]) == Resolve(true, [], [""]);
      assert Resolve(true, [], [""]) == Resolve(true, [], []);
    } else {
      SplitJoin(es);
      ResolveClean(true, [], es);
      assert Split("/" + Join(es)) == [""] + es;
      assert Step(true, [], "") == [];
    }
  }

  /** Cleaning an absolute path keeps its elements. */
  lemma ElementsOfClean(p: string)
    requires IsAbs(p)
    ensures Elements(Clean(p)) == Elements(p)
  {
    ElementsOfJoined(Elements(p));
  }

  /** `Clean` is idempotent. */
  lemma CleanIdempotent(p: string)
    ensures Clean(Clean(p)) == Clean(p)
  {
    var rooted := IsAbs(p);
    var es := Resolve(rooted, [], Split(p));
    if rooted {
      ElementsOfClean(p);
    } else if es == [] {
      SplitName(".");
      assert Step(false, [], ".") == [];
    } else {
      JoinHead(es);
      assert Join(es)[0] == es[0][0];
      assert !IsAbs(Join(es));
      SplitJoin(es);
      assert [] + es == es;
      ResolveClean(false, [], es);
      assert Resolve(false, [], Split(Join(es))) == es;
    }
  }

  /** Joining a name onto an absolute path appends the name to its elements. */
  lemma ElementsOfChild(p: string, name: string)
    requires IsAbs(p) && IsName(name)
    ensures IsAbs(JoinElems([p, name]))
    ensures Elements(JoinElems([p, name])) == Elements(p) + [name]
  {
    assert Join([p, name]) == p + "/" + name;
    var joined := p + "/" + name;
    assert joined[0] == '/';
    ElementsOfClean(joined);
    SplitConcat(p, name);
    SplitName(name);
    ResolveConcat(true, [], Split(p), [name]);
  }

  /** `path.Dir` of an absolute path whose last element is a name has the
      elements of that path without the name: it is the parent directory. */
  lemma DirOfIsParent(p: string)
    requires IsAbs(p) && IsName(p[LastSlash(p) + 1..])
    ensures IsAbs(DirOf(p))
    ensures Elements(p) == Elements(DirOf(p)) + [p[LastSlash(p) + 1..]]
  {
    var i := LastSlash(p);
    assert i >= 0 by { assert p[0] == '/'; }
    var last := p[i + 1..];
    var head := p[..i + 1];
    assert head == p[..i] + "/" + "";
    assert p == p[..i] + "/" + last;
    SplitConcat(p[..i], "");
    SplitConcat(p[..i], last);
    SplitName(last);
    var r := Resolve(true, [], Split(p[..i]));
    ResolveConcat(true, [], Split(p[..i]), [""]);
    ResolveConcat(true, [], Split(p[..i]), [last]);
    assert head[0] == '/';
    ElementsOfClean(head);
  }

  /** `path.Dir` of an absolute path with a trailing separator names that same
      directory, not its parent. */
  lemma DirOfTrailingSlash(p: string)
    requires IsAbs(p) && |p| > 1 && p[|p| - 1] == '/'
    ensures Elements(DirOf(p)) == Elements(p)
  {
    assert LastSlash(p) == |p| - 1;
    assert p[..|p|] == p;
    ElementsOfClean(p);
  }

  // ---------------------------------------------------------------------------
  // Absolute paths

  /** `Abs` is "/" followed by the elements `AbsElems` gives. */
  lemma AbsIsJoinedElems(cwd: Cwd, p: string)
    ensures AbsElems(cwd, p).Some? <==> Abs(cwd, p).Some?
    ensures Abs(cwd, p).Some? ==> Abs(cwd, p).value == "/" + Join(AbsElems(cwd, p).value)
  {
    if !IsAbs(p) && cwd.Some? {
      var joined := cwd.value + "/" + p;
      assert Join([cwd.value, p]) == joined;
      assert joined[0] == '/';
    }
  }

  /** A trailing separator does not change the absolute form. */
  lemma AbsTrailingSlash(cwd: Cwd, p: string)
    requires p != ""
    ensures AbsElems(cwd, p + "/") == AbsElems(cwd, p)
  {
    var q := p + "/";
    assert IsAbs(q) == IsAbs(p);
    assert q == p + "/" + "";
    SplitConcat(p, "");
    ResolveConcat(true, [], Split(p), [""]);
    if !IsAbs(p) && cwd.Some? {
      var w := cwd.value + "/" + p;
      assert cwd.value + "/" + q == w + "/" + "";
      SplitConcat(w, "");
      ResolveConcat(true, [], Split(w), [""]);
    }
  }

  /** A trailing "." element does not change the absolute form. */
  lemma AbsTrailingDot(cwd: Cwd, p: string)
    requires p != ""
    ensures AbsElems(cwd, p + "/.") == AbsElems(cwd, p)
  {
    var q := p + "/.";
    assert IsAbs(q) == IsAbs(p);
    assert q == p + "/" + ".";
    SplitConcat(p, ".");
    SplitName(".");
    ResolveConcat(true, [], Split(p), ["."]);
    if !IsAbs(p) && cwd.Some? {
      var w := cwd.value + "/" + p;
      assert cwd.value + "/" + q == w + "/" + ".";
      SplitConcat(w, ".");
      ResolveConcat(true, [], Split(w), ["."]);
    }
  }

  lemma ResolveNameDotDot(stack: seq<string>, name: string)
    requires IsName(name)
    ensures Resolve(true, stack, [name, ".."]) == stack
  {
    assert [name, ".."][1..] == [".."];
    assert Step(true, stack, name) == stack + [name];
    assert (stack + [name])[..|stack|] == stack;
    assert Resolve(true, stack + [name], [".."]) == Resolve(true, stack, []);
  }

  lemma SplitNameDotDot(p: string, name: string)
    requires IsName(name)
    ensures Split(p + "/" + name + "/..") == Split(p) + [name, ".."]
  {
    assert p + "/" + name + "/.." == p + "/" + (name + "/" + "..");
    SplitConcat(p, name + "/" + "..");
    SplitConcat(name, "..");
    SplitName(name);
    SplitName("..");
  }

  /** A name followed by ".." cancels out of the absolute form. */
  lemma AbsNameDotDot(cwd: Cwd, p: string, name: string)
    requires p != "" && IsName(name)
    ensures AbsElems(cwd, p + "/" + name + "/..") == AbsElems(cwd, p)
  {
    var q := p + "/" + name + "/..";
    assert IsAbs(q) == IsAbs(p);
    if IsAbs(p) {
      SplitNameDotDot(p, name);
      ResolveConcat(true, [], Split(p), [name, ".."]);
      ResolveNameDotDot(Resolve(true, [], Split(p)), name);
    } else if cwd.Some? {
      var w := cwd.value + "/" + p;
      assert cwd.value + "/" + q == w + "/" + name + "/..";
      SplitNameDotDot(w, name);
      ResolveConcat(true, [], Split(w), [name, ".."]);
      ResolveNameDotDot(Resolve(true, [], Split(w)), name);
    }
  }

  // ---------------------------------------------------------------------------
  // Containment

  lemma {:induction false} PrefixIsCommon(base: seq<string>, targ: seq<string>)
    ensures |base| <= |targ| && targ[..|base|] == base ==> CommonPrefixLen(base, targ) == |base|
    decreases |base|
  {
    if base != [] && |base| <= |targ| && targ[..|base|] == base {
      assert targ[0] == base[0];
      assert targ[1..][..|base| - 1] == base[1..];
      PrefixIsCommon(base[1..], targ[1..]);
    }
  }

  /** What the relative path says about two different cleaned element lists:
      it is non-empty and free of a leading ".." exactly when the base is a proper
      prefix of the target whose next element does not begin with "..". */
  lemma RelElemsAccepts(base: seq<string>, targ: seq<string>)
    requires CleanElems(true, base) && CleanElems(true, targ) && base != targ
    ensures var rel := RelElems(base, targ);
      (|rel| != 0 && !HasPrefix(rel, "..")) <==> Within(base, targ)
  {
    var k := CommonPrefixLen(base, targ);
    var rel := RelElems(base, targ);
    PrefixIsCommon(base, targ);
    if k < |base| {
      assert rel[..2] == "..";
    } else {
      assert base == targ[..k];
      assert |targ| > k;
      var rest := targ[k..];
      JoinHead(rest);
      var head := rest[0];
      assert head == targ[|base|];
      if |head| == 1 {
        assert |rest| > 1 ==> Join(rest)[..2] == [head[0], '/'];
        assert !HasPrefix(head, "..");
      } else {
        assert Join(rest)[..2] == head[..2];
      }
    }
  }

  /** `IsIn` is exactly `Within` on the elements of the two absolute forms, and is
      false when either absolute form cannot be computed. */
  lemma IsInCharacterized(cwd: Cwd, path: string, dir: string)
    ensures IsIn(cwd, path, dir) <==>
      AbsElems(cwd, path).Some? && AbsElems(cwd, dir).Some? &&
      Within(AbsElems(cwd, dir).value, AbsElems(cwd, path).value)
  {
    AbsIsJoinedElems(cwd, path);
    AbsIsJoinedElems(cwd, dir);
    if AbsElems(cwd, path).Some? && AbsElems(cwd, dir).Some? {
      var p, d := AbsElems(cwd, path).value, AbsElems(cwd, dir).value;
      var ap, ad := Abs(cwd, path).value, Abs(cwd, dir).value;
      if ap == ad {
        assert Join(p) == ap[1..] && Join(d) == ad[1..];
        JoinInjective(p, d);
      } else {
        assert p != d;
        ElementsOfJoined(p);
        ElementsOfJoined(d);
        CleanRooted(ap);
        CleanRooted(ad);
        RelElemsAccepts(d, p);
      }
    }
  }

  /** A path is in itself whenever its absolute form exists. */
  lemma IsInSelf(cwd: Cwd, p: string)
    requires IsAbs(p) || cwd.Some?
    ensures IsIn(cwd, p, p)
  {
  }

  /** Without a working directory a relative argument is never in anything, and
      nothing is in a relative directory. */
  lemma IsInWithoutCwd(path: string, dir: string)
    requires !IsAbs(path) || !IsAbs(dir)
    ensures !IsIn(NoCwd, path, dir)
  {
  }

  /** A path whose elements do not extend those of the directory is not in it:
      this covers every strict ancestor and every path in a sibling tree. */
  lemma IsInRejectsOutside(cwd: Cwd, path: string, dir: string)
    requires AbsElems(cwd, path).Some? && AbsElems(cwd, dir).Some?
    requires var p, d := AbsElems(cwd, path).value, AbsElems(cwd, dir).value;
      !(|d| <= |p| && p[..|d|] == d)
    ensures !IsIn(cwd, path, dir)
  {
    IsInCharacterized(cwd, path, dir);
  }

  /** A child whose name begins with ".." is not in its own parent. */
  lemma IsInRejectsDotDotName(cwd: Cwd, dir: string, name: string)
    requires IsAbs(dir) && IsName(name) && HasPrefix(name, "..")
    ensures !IsIn(cwd, JoinElems([dir, name]), dir)
  {
    ElementsOfChild(dir, name);
    IsInCharacterized(cwd, JoinElems([dir, name]), dir);
    var d := Elements(dir);
    assert (d + [name])[|d|] == name;
  }

  /** Joining a name that does not begin with ".." onto a path inside `dir` stays
      inside `dir`. */
  lemma IsInChild(cwd: Cwd, p: string, dir: string, name: string)
    requires IsAbs(p) && IsName(name) && !HasPrefix(name, "..")
    requires IsIn(cwd, p, dir)
    ensures IsIn(cwd, JoinElems([p, name]), dir)
  {
    var child := JoinElems([p, name]);
    ElementsOfChild(p, name);
    IsInCharacterized(cwd, p, dir);
    IsInCharacterized(cwd, child, dir);
    var d, e := AbsElems(cwd, dir).value, Elements(p);
    if d == e {
      assert (e + [name])[..|d|] == d;
    } else {
      assert (e + [name])[..|d|] == e[..|d|];
      assert (e + [name])[|d|] == e[|d|];
    }
  }

  /** Appending "/", "/." or "/<name>/.." to either argument does not change the
      answer. */
  lemma IsInIgnoresRedundantSuffixes(cwd: Cwd, path: string, dir: string, name: string)
    requires path != "" && dir != "" && IsName(name)
    ensures IsIn(cwd, path + "/", dir) == IsIn(cwd, path, dir)
    ensures IsIn(cwd, path + "/.", dir) == IsIn(cwd, path, dir)
    ensures IsIn(cwd, path + "/" + name + "/..", dir) == IsIn(cwd, path, dir)
    ensures IsIn(cwd, path, dir + "/") == IsIn(cwd, path, dir)
    ensures IsIn(cwd, path, dir + "/.") == IsIn(cwd, path, dir)
    ensures IsIn(cwd, path, dir + "/" + name + "/..") == IsIn(cwd, path, dir)
  {
    AbsTrailingSlash(cwd, path);
    AbsTrailingDot(cwd, path);
    AbsNameDotDot(cwd, path, name);
    AbsTrailingSlash(cwd, dir);
    AbsTrailingDot(cwd, dir);
    AbsNameDotDot(cwd, dir, name);
    IsInCharacterized(cwd, path, dir);
    IsInCharacterized(cwd, path + "/", dir);
    IsInCharacterized(cwd, path + "/.", dir);
    IsInCharacterized(cwd, path + "/" + name + "/..", dir);
    IsInCharacterized(cwd, path, dir + "/");
    IsInCharacterized(cwd, path, dir + "/.");
    IsInCharacterized(cwd, path, dir + "/" + name + "/..");
  }

  // ---------------------------------------------------------------------------
  // The cases of internal/utils/fs_test.go, for any names in place of the
  // test's "home", "user", ".config", "a", "b", "c", "d" and "e", and any
  // working directory

  /** A name that may follow a directory inside it: not beginning with "..". */
  predicate PlainName(e: string) {
    IsName(e) && !HasPrefix(e, "..")
  }

  /** The elements of "/" followed by separated pieces. */
  lemma ElementsOfPieces(segs: seq<string>)
    requires |segs| >= 1 && NoSeparator(segs)
    ensures Elements("/" + Join(segs)) == Resolve(true, [], segs)
  {
    SplitJoin(segs);
    SplitConcat("", Join(segs));
    assert "" + "/" + Join(segs) == "/" + Join(segs);
    assert Split("") == [""];
    assert Step(true, [], "") == [];
  }

  /** What follows a separator is resolved against the elements before it. */
  lemma ElementsAppend(w: string, s: string)
    ensures Elements(w + "/" + s) == Resolve(true, Elements(w), Split(s))
  {
    SplitConcat(w, s);
    ResolveConcat(true, [], Split(w), Split(s));
  }

  lemma ResolveCons(rooted: bool, stack: seq<string>, seg: string, rest: seq<string>)
    ensures Resolve(rooted, stack, [seg] + rest) == Resolve(rooted, Step(rooted, stack, seg), rest)
  {
    assert ([seg] + rest)[0] == seg;
    assert ([seg] + rest)[1..] == rest;
  }

  /** Names followed by "..": the last name is removed. */
  lemma StepBack(stack: seq<string>, name: string)
    requires IsName(name)
    ensures Step(true, stack + [name], "..") == stack
  {
    assert (stack + [name])[..|stack|] == stack;
  }

  /** One more element after a separator is one more `Step`. */
  lemma ElementsAfter(w: string, seg: string)
    requires '/' !in seg
    ensures Elements(w + "/" + seg) == Step(true, Elements(w), seg)
  {
    ElementsAppend(w, seg);
    SplitName(seg);
    assert [seg][1..] == [];
  }

  /** "/" and "/." after a path leave its elements alone; "/.." is one `Step`. */
  lemma ElementsOfSuffixes(p: string)
    ensures Elements(p + "/") == Elements(p)
    ensures Elements(p + "/.") == Elements(p)
    ensures Elements(p + "/..") == Step(true, Elements(p), "..")
  {
    assert p + "/" == p + "/" + "";
    assert p + "/." == p + "/" + ".";
    assert p + "/.." == p + "/" + "..";
    ElementsAfter(p, "");
    ElementsAfter(p, ".");
    ElementsAfter(p, "..");
  }

  lemma HomeElements(home: string, user: string, config: string)
    requires PlainName(home) && PlainName(user) && PlainName(config)
    ensures Elements("/" + home + "/" + user) == [home, user]
    ensures Elements("/" + home + "/" + user + "/" + config) == [home, user, config]
  {
    var top := "/" + home;
    ElementsOfPieces([home]);
    assert Resolve(true, [], [home]) == [home] by { ResolveClean(true, [], [home]); }
    ElementsAfter(top, user);
    ElementsAfter(top + "/" + user, config);
  }

  /** "/../../" after a path takes two steps up. */
  lemma ElementsTwoUp(p: string)
    ensures Elements(p + "/../../") == Step(true, Step(true, Elements(p), ".."), "..")
  {
    var up := p + "/..";
    assert p + "/../../" == up + "/.." + "/";
    ElementsOfSuffixes(p);
    ElementsOfSuffixes(up);
    ElementsOfSuffixes(up + "/..");
  }

  /** fs_test.go lines 18-25: "/home/user/.config" is in "/home/user" (with or
      without a trailing separator), in itself (also written with "/", "/.",
      "/.." and "/../../" after it), and "/home/user/.config/.." is in "/home/user/". */
  lemma TestTableAbsolute(cwd: Cwd, home: string, user: string, config: string)
    requires PlainName(home) && PlainName(user) && PlainName(config)
    ensures var p, d := "/" + home + "/" + user + "/" + config, "/" + home + "/" + user;
      IsIn(cwd, p, d) && IsIn(cwd, p, d + "/") && IsIn(cwd, p, p) &&
      IsIn(cwd, p, p + "/") && IsIn(cwd, p, p + "/.") && IsIn(cwd, p, p + "/..") &&
      IsIn(cwd, p, p + "/../../") && IsIn(cwd, p + "/..", d + "/")
  {
    var d := "/" + home + "/" + user;
    var p := d + "/" + config;
    HomeElements(home, user, config);
    ElementsOfSuffixes(d);
    ElementsOfSuffixes(p);
    StepBack([home, user], config);
    StepBack([home], user);
    ElementsTwoUp(p);
    assert [home, user, config][..2] == [home, user];
    assert [home, user, config][..1] == [home];
    IsInCharacterized(cwd, p, d);
    IsInCharacterized(cwd, p, d + "/");
    IsInCharacterized(cwd, p, p + "/");
    IsInCharacterized(cwd, p, p + "/.");
    IsInCharacterized(cwd, p, p + "/..");
    IsInCharacterized(cwd, p, p + "/../../");
    IsInCharacterized(cwd, p + "/..", d + "/");
  }

  lemma Under(w: string, s: string, seg: string)
    requires '/' !in seg
    ensures Elements(w + "/" + (s + "/" + seg)) == Step(true, Elements(w + "/" + s), seg)
  {
    assert w + "/" + (s + "/" + seg) == (w + "/" + s) + "/" + seg;
    ElementsAfter(w + "/" + s, seg);
  }

  lemma RelativeDescent(w: string, a: string, b: string, c: string)
    requires PlainName(a) && PlainName(b) && PlainName(c)
    ensures var x := Elements(w);
      Elements(w + "/" + ("." + "/" + a)) == x + [a] &&
      Elements(w + "/" + ("." + "/" + a + "/" + b)) == x + [a, b] &&
      Elements(w + "/" + ("." + "/" + a + "/" + b + "/" + c)) == x + [a, b, c]
  {
    assert w + "/" + "." == w + "/.";
    ElementsOfSuffixes(w);
    Under(w, ".", a);
    Under(w, "." + "/" + a, b);
    Under(w, "." + "/" + a + "/" + b, c);
  }

  lemma RelativeAscent(w: string, a: string, b: string, c: string, d: string, e: string)
    requires PlainName(a) && PlainName(b) && PlainName(c) && PlainName(d) && PlainName(e)
    ensures var x := Elements(w);
      var pc := "." + "/" + a + "/" + b + "/" + c;
      Elements(w + "/" + (pc + "/" + "..")) == x + [a, b] &&
      Elements(w + "/" + (pc + "/" + ".." + "/" + "..")) == x + [a] &&
      Elements(w + "/" + (pc + "/" + ".." + "/" + d + "/" + "." + "/" + e)) == x + [a, b, d, e]
  {
    var x := Elements(w);
    var pc := "." + "/" + a + "/" + b + "/" + c;
    var pu := pc + "/" + "..";
    RelativeDescent(w, a, b, c);
    Under(w, pc, "..");
    StepBack(x + [a, b], c);
    assert x + [a, b] + [c] == x + [a, b, c];
    Under(w, pu, "..");
    StepBack(x + [a], b);
    assert x + [a] + [b] == x + [a, b];
    Under(w, pu, d);
    Under(w, pu + "/" + d, ".");
    Under(w, pu + "/" + d + "/" + ".", e);
  }

  /** fs_test.go lines 26-27 (relative arguments, resolved against any working
      directory): "./a/b/c" is in "./a/b" and "./a/b/c/../d/./e" is in "./a/b/c/..". */
  lemma TestTableRelativeIn(w: string, a: string, b: string, c: string, d: string, e: string)
    requires IsAbs(w)
    requires PlainName(a) && PlainName(b) && PlainName(c) && PlainName(d) && PlainName(e)
    ensures var cwd: Cwd := Some(w);
      var pab := "." + "/" + a + "/" + b;
      var pu := pab + "/" + c + "/" + "..";
      IsIn(cwd, pab + "/" + c, pab) &&
      IsIn(cwd, pu + "/" + d + "/" + "." + "/" + e, pu)
  {
    var cwd: Cwd := Some(w);
    var x := Elements(w);
    var pab := "." + "/" + a + "/" + b;
    var pabc := pab + "/" + c;
    var pu := pabc + "/" + "..";
    RelativeDescent(w, a, b, c);
    RelativeAscent(w, a, b, c, d, e);
    assert (x + [a, b, c])[..|x| + 2] == x + [a, b];
    assert (x + [a, b, c])[|x| + 2] == c;
    assert (x + [a, b, d, e])[..|x| + 2] == x + [a, b];
    assert (x + [a, b, d, e])[|x| + 2] == d;
    IsInCharacterized(cwd, pabc, pab);
    IsInCharacterized(cwd, pu + "/" + d + "/" + "." + "/" + e, pu);
  }

  /** fs_test.go lines 30-32: "./a" is not in "./a/b/c/..", "./a/b/c/.." is not in
      "./d" (for d other than a), and "./a/b/c/../.." is not in "./a/b/c/..". */
  lemma TestTableRelativeOut(w: string, a: string, b: string, c: string, d: string)
    requires IsAbs(w)
    requires PlainName(a) && PlainName(b) && PlainName(c) && PlainName(d) && a != d
    ensures var cwd: Cwd := Some(w);
      var pu := "." + "/" + a + "/" + b + "/" + c + "/" + "..";
      !IsIn(cwd, "." + "/" + a, pu) &&
      !IsIn(cwd, pu, "." + "/" + d) &&
      !IsIn(cwd, pu + "/" + "..", pu)
  {
    var cwd: Cwd := Some(w);
    var x := Elements(w);
    var pa := "." + "/" + a;
    var pu := pa + "/" + b + "/" + c + "/" + "..";
    RelativeDescent(w, a, b, c);
    RelativeAscent(w, a, b, c, a, a);
    RelativeDescent(w, d, b, c);
    assert (x + [a, b])[..|x| + 1] != x + [d] by {
      assert (x + [a, b])[..|x| + 1][|x|] == a;
      assert (x + [d])[|x|] == d;
    }
    IsInCharacterized(cwd, pa, pu);
    IsInCharacterized(cwd, pu, "." + "/" + d);
    IsInCharacterized(cwd, pu + "/" + "..", pu);
  }

  /** fs_test.go line 33: "/a/b/c/../.." is not in "/a/b/c/..". */
  lemma TestTableAncestor(cwd: Cwd, a: string, b: string, c: string)
    requires PlainName(a) && PlainName(b) && PlainName(c)
    ensures !IsIn(cwd, "/" + a + "/" + b + "/" + c + "/../..", "/" + a + "/" + b + "/" + c + "/..")
  {
    var pabc := "/" + a + "/" + b + "/" + c;
    HomeElements(a, b, c);
    ElementsOfSuffixes(pabc);
    StepBack([a, b], c);
    var up := pabc + "/..";
    ElementsOfSuffixes(up);
    StepBack([a], b);
    assert pabc + "/../.." == up + "/..";
    IsInCharacterized(cwd, up + "/..", up);
  }
}
