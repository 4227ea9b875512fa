/** Relative POSIX paths: splitting, normalizing, joining and the way from one to another. */
module DocsPaths {

  function Split(s: string): (parts: seq<string>)
    ensures parts != []
  {
    if s == "" then [""]
    else if s[0] == '/' then [""] + Split(s[1..])
    else
      var rest := Split(s[1..]);
      [[s[0]] + rest[0]] + rest[1..]
  }

  function Join(parts: seq<string>): string {
    if parts == [] then "" else if |parts| == 1 then parts[0] else parts[0] + "/" + Join(parts[1..])
  }

  predicate NoSlash(s: string) {
    forall i | 0 <= i < |s| :: s[i] != '/'
  }

  /** A component that normalizing keeps. */
  predicate Name(part: string) {
    part != "" && part != "." && part != ".." && NoSlash(part)
  }

  predicate Names(parts: seq<string>) {
    forall i | 0 <= i < |parts| :: Name(parts[i])
  }

  /** One component on the stack of those kept so far; `rooted` after a leading slash. */
  function Step(stack: seq<string>, part: string, rooted: bool): seq<string> {
    if part == "" || part == "." then stack
    else if part != ".." || (!rooted && stack == []) || (stack != [] && stack[|stack| - 1] == "..") then stack + [part]
    else if stack != [] then stack[..|stack| - 1]
    else stack
  }

  function Fold(stack: seq<string>, parts: seq<string>, rooted: bool): seq<string>
    decreases |parts|
  {
    if parts == [] then stack else Fold(Step(stack, parts[0], rooted), parts[1..], rooted)
  }

  function Slashes(path: string): nat {
    if !("/" <= path) then 0 else if "//" <= path && !("///" <= path) then 2 else 1
  }

  /** `posixpath.normpath`. */
  function Normal(path: string): string {
    if path == "" then "."
    else
      var n := Slashes(path);
      var body := seq(n, _ => '/') + Join(Fold([], Split(path), n > 0));
      if body == "" then "." else body
  }

  /** `posixpath.join` of two. */
  function JoinPaths(a: string, b: string): string {
    if "/" <= b then b else if a == "" || a[|a| - 1] == '/' then a + b else a + "/" + b
  }

  function LastSlash(s: string): (n: nat)
    ensures n <= |s|
    ensures n > 0 ==> s[n - 1] == '/'
    ensures forall i | n <= i < |s| :: s[i] != '/'
    decreases |s|
  {
    if s == "" then 0 else if s[|s| - 1] == '/' then |s| else LastSlash(s[..|s| - 1])
  }

  function StripSlashes(s: string): string
    decreases |s|
  {
    if s != "" && s[|s| - 1] == '/' then StripSlashes(s[..|s| - 1]) else s
  }

  /** `posixpath.dirname`. */
  function DirName(path: string): string {
    var head := path[..LastSlash(path)];
    var stripped := StripSlashes(head);
    if stripped == "" then head else stripped
  }

  /** How many components two lists have in common from the start. */
  function Common(a: seq<string>, b: seq<string>): (n: nat)
    ensures n <= |a| && n <= |b| && a[..n] == b[..n]
    ensures n < |a| && n < |b| ==> a[n] != b[n]
  {
    if a == [] || b == [] || a[0] != b[0] then 0
    else
      var n := Common(a[1..], b[1..]);
      assert a[..n + 1] == [a[0]] + a[1..][..n] && b[..n + 1] == [b[0]] + b[1..][..n];
      n + 1
  }

  function Ups(n: nat): seq<string> {
    seq(n, _ => "..")
  }

  /** `relpath` of two absolute component lists. */
  function Way(start: seq<string>, target: seq<string>): string {
    var i := Common(start, target);
    var parts := Ups(|start| - i) + target[i..];
    if parts == [] then "." else Join(parts)
  }

  /** The components of `abspath`, in the directory `cwd`. */
  function Absolute(cwd: seq<string>, path: string): seq<string> {
    Fold(if "/" <= path then [] else cwd, Split(path), true)
  }

  /** `_relative`: the way from a page's directory to another page. */
  function Relative(cwd: seq<string>, source: string, target: string): string {
    var dir := DirName(source);
    Way(Absolute(cwd, if dir == "" then "." else dir), Absolute(cwd, target))
  }

  /** A normalized relative path without "..", as a manifest may hold. */
  predicate Tidy(path: string) {
    Names(Split(path))
  }

  // ----- Splitting and joining -----

  lemma {:induction false} SplitAppend(a: string, b: string)
    ensures Split(a + "/" + b) == Split(a) + Split(b)
    decreases |a|
  {
    if a == "" {
      assert (a + "/" + b)[0] == '/' && (a + "/" + b)[1..] == b;
    } else {
      assert (a + "/" + b)[1..] == a[1..] + "/" + b;
      SplitAppend(a[1..], b);
    }
  }

  lemma {:induction false} SplitWhole(s: string)
    requires NoSlash(s)
    ensures Split(s) == [s]
    decreases |s|
  {
    if s != "" {
      SplitWhole(s[1..]);
      assert [s[0]] + s[1..] == s;
    }
  }

  lemma {:induction false} SplitJoin(parts: seq<string>)
    requires parts != [] && forall i | 0 <= i < |parts| :: NoSlash(parts[i])
    ensures Split(Join(parts)) == parts
    decreases |parts|
  {
    if |parts| == 1 {
      SplitWhole(parts[0]);
    } else {
      SplitJoin(parts[1..]);
      SplitWhole(parts[0]);
      SplitAppend(parts[0], Join(parts[1..]));
    }
  }

  lemma JoinLonger(c: char, parts: seq<string>)
    requires parts != []
    ensures Join([[c] + parts[0]] + parts[1..]) == [c] + Join(parts)
  {
    var longer := [[c] + parts[0]] + parts[1..];
    assert longer[1..] == parts[1..];
    if |parts| > 1 {
      assert [c] + parts[0] + "/" + Join(parts[1..]) == [c] + (parts[0] + "/" + Join(parts[1..]));
    }
  }

  lemma {:induction false} JoinSplit(s: string)
    ensures Join(Split(s)) == s
    decreases |s|
  {
    if s != "" {
      JoinSplit(s[1..]);
      var rest := Split(s[1..]);
      if s[0] == '/' {
        assert ([""] + rest)[1..] == rest;
        assert "" + "/" + s[1..] == s;
      } else {
        JoinLonger(s[0], rest);
        hide Join;
        assert [s[0]] + s[1..] == s;
      }
    }
  }

  lemma {:induction false} JoinAppend(a: seq<string>, b: seq<string>)
    requires a != [] && b != []
    ensures Join(a + b) == Join(a) + "/" + Join(b)
    decreases |a|
  {
    if |a| == 1 {
      assert (a + b)[1..] == b;
    } else {
      assert (a + b)[1..] == a[1..] + b;
      JoinAppend(a[1..], b);
    }
  }

  lemma {:induction false} FoldAppend(stack: seq<string>, a: seq<string>, b: seq<string>, rooted: bool)
    ensures Fold(stack, a + b, rooted) == Fold(Fold(stack, a, rooted), b, rooted)
    decreases |a|
  {
    if a == [] {
      assert a + b == b;
    } else {
      assert (a + b)[1..] == a[1..] + b;
      FoldAppend(Step(stack, a[0], rooted), a[1..], b, rooted);
    }
  }

  lemma {:induction false} FoldNames(stack: seq<string>, parts: seq<string>, rooted: bool)
    requires Names(parts)
    ensures Fold(stack, parts, rooted) == stack + parts
    decreases |parts|
  {
    if parts == [] {
      assert stack + parts == stack;
    } else {
      FoldNames(stack + [parts[0]], parts[1..], rooted);
      assert stack + [parts[0]] + parts[1..] == stack + parts;
    }
  }

  lemma {:induction false} FoldUps(stack: seq<string>, n: nat, rooted: bool)
    requires n <= |stack| && Names(stack)
    ensures Fold(stack, Ups(n), rooted) == stack[..|stack| - n]
    decreases n
  {
    if n > 0 {
      assert Ups(n)[1..] == Ups(n - 1);
      FoldUps(stack[..|stack| - 1], n - 1, rooted);
    } else {
      assert Ups(0) == [];
    }
  }

  lemma TidyIsRelative(path: string)
    requires Tidy(path)
    ensures path != "" && path[0] != '/' && Slashes(path) == 0
  {
    assert Name(Split(path)[0]);
  }

  /** A tidy path is already normal. */
  lemma TidyIsNormal(path: string)
    requires Tidy(path)
    ensures Normal(path) == path
  {
    TidyIsRelative(path);
    FoldNames([], Split(path), false);
    JoinSplit(path);
    assert [] + Split(path) == Split(path);
  }

  // ----- Directories of tidy paths -----

  /** The directory of a path whose last component is `base`. */
  lemma DirNameOf(dir: string, base: string)
    requires base != "" && NoSlash(base) && dir != "" && dir[|dir| - 1] != '/'
    ensures DirName(base) == "" && DirName(dir + "/" + base) == dir
  {
    LastSlashIs(base, 0);
    var head := dir + "/";
    var path := head + base;
    LastSlashIs(path, |head|);
    assert path[..|head|] == head && head[..|head| - 1] == dir && head[|head| - 1] == '/';
    assert StripSlashes(dir) == dir;
    assert StripSlashes(head) == dir;
  }

  lemma TidyDirName(path: string)
    requires Tidy(path)
    ensures var parts := Split(path);
            DirName(path) == Join(parts[..|parts| - 1])
  {
    var parts := Split(path);
    var dir, base := parts[..|parts| - 1], parts[|parts| - 1];
    JoinSplit(path);
    assert Name(base);
    assert Join([base]) == base;
    hide DirName, Split;
    if dir == [] {
      assert parts == [base];
      DirNameOf("d", base);
    } else {
      assert parts == dir + [base];
      JoinAppend(dir, [base]);
      JoinEndsWithName(dir);
      hide Join;
      DirNameOf(Join(dir), base);
    }
  }

  lemma LastSlashIs(s: string, n: nat)
    requires n <= |s| && (n > 0 ==> s[n - 1] == '/') && forall i | n <= i < |s| :: s[i] != '/'
    ensures LastSlash(s) == n
  {
  }

  lemma {:induction false} JoinEndsWithName(parts: seq<string>)
    requires parts != [] && Names(parts)
    ensures var s := Join(parts); s != "" && s[|s| - 1] != '/' && s[0] != '/'
    decreases |parts|
  {
    assert Name(parts[0]);
    if |parts| > 1 { JoinEndsWithName(parts[1..]); }
  }

  lemma TidyAbsolute(cwd: seq<string>, path: string)
    requires Tidy(path)
    ensures Absolute(cwd, path) == cwd + Split(path)
  {
    TidyIsRelative(path);
    FoldNames(cwd, Split(path), true);
  }

  lemma {:induction false} CommonPrefixCancels(cwd: seq<string>, a: seq<string>, b: seq<string>)
    ensures Common(cwd + a, cwd + b) == |cwd| + Common(a, b)
    decreases |cwd|
  {
    if cwd == [] {
      assert cwd + a == a && cwd + b == b;
    } else {
      assert (cwd + a)[1..] == cwd[1..] + a && (cwd + b)[1..] == cwd[1..] + b;
      CommonPrefixCancels(cwd[1..], a, b);
    }
  }

  lemma AbsoluteDir(cwd: seq<string>, source: string)
    requires Tidy(source)
    ensures Absolute(cwd, if DirName(source) == "" then "." else DirName(source)) == cwd + DirParts(source)
  {
    TidyDirName(source);
    var dir := DirParts(source);
    if dir == [] {
      HereIsCwd(cwd);
      assert cwd + [] == cwd;
    } else {
      SplitJoin(dir);
      JoinEndsWithName(dir);
      TidyAbsolute(cwd, Join(dir));
    }
    hide DirName, Absolute, Split, Join;
  }

  lemma HereIsCwd(cwd: seq<string>)
    ensures Absolute(cwd, ".") == cwd && Join([]) == ""
  {
    SplitWhole(".");
    assert ["."][1..] == [];
  }

  /** The current directory does not matter. */
  lemma RelativeIsWay(cwd: seq<string>, source: string, target: string)
    requires Tidy(source) && Tidy(target)
    ensures Relative(cwd, source, target) == Way(DirParts(source), Split(target))
  {
    hide Fold, Common, Split, Join, DirName, Absolute;
    var dir, parts := DirParts(source), Split(target);
    AbsoluteDir(cwd, source);
    TidyAbsolute(cwd, target);
    CommonPrefixCancels(cwd, dir, parts);
    var i := Common(dir, parts);
    assert (cwd + parts)[|cwd| + i..] == parts[i..];
  }

  /** The components of a page's directory. */
  function DirParts(path: string): seq<string> {
    Split(path)[..|Split(path)| - 1]
  }

  // ----- The way leads to the target -----

  /** Where a relative link from a directory leads. */
  function Follow(dir: seq<string>, link: string): seq<string> {
    Fold(dir, Split(link), false)
  }

  lemma DotStays(dir: seq<string>)
    ensures Follow(dir, ".") == dir
  {
    SplitWhole(".");
    assert ["."][1..] == [];
  }

  lemma WayLeads(dir: seq<string>, target: seq<string>)
    requires Names(dir) && Names(target)
    ensures Follow(dir, Way(dir, target)) == target
  {
    hide Split, Join, Fold;
    var i := Common(dir, target);
    var parts := Ups(|dir| - i) + target[i..];
    if parts == [] {
      DotStays(dir);
      assert dir[..i] == dir && target[..i] == target;
    } else {
      SplitJoin(parts);
      FoldAppend(dir, Ups(|dir| - i), target[i..], false);
      FoldUps(dir, |dir| - i, false);
      FoldNames(dir[..i], target[i..], false);
      assert target[..i] + target[i..] == target;
    }
  }

  function OrDot(path: string): string {
    if path == "" then "." else path
  }

  lemma RelativeNormal(path: string)
    requires !("/" <= path)
    ensures Normal(path) == OrDot(Join(Fold([], Split(path), false)))
  {
    if path == "" {
      assert [""][1..] == [];
      assert Fold([], [""], false) == [];
    } else {
      assert Slashes(path) == 0;
      assert seq(0, _ => '/') + Join(Fold([], Split(path), false)) == Join(Fold([], Split(path), false));
    }
    hide Fold, Split;
  }

  /** Following a link from a page's directory, as strings. */
  lemma NormalFollows(source: string, link: string)
    requires Tidy(source) && !("/" <= link)
    ensures Normal(JoinPaths(DirName(source), link)) == OrDot(Join(Follow(DirParts(source), link)))
  {
    TidyDirName(source);
    var dir := DirParts(source);
    hide DirName, Normal, OrDot;
    if dir == [] {
      assert Join(dir) == "";
      hide Join;
      assert JoinPaths("", link) == link by { assert "" + link == link; }
      RelativeNormal(link);
    } else {
      JoinEndsWithName(dir);
      SplitJoin(dir);
      hide Split, Fold, Join;
      var path := Join(dir) + "/" + link;
      assert JoinPaths(Join(dir), link) == path;
      SplitAppend(Join(dir), link);
      FoldAppend([], dir, Split(link), false);
      FoldNames([], dir, false);
      assert [] + dir == dir;
      assert path[0] == Join(dir)[0];
      RelativeNormal(path);
    }
  }

  // ----- No shorter link leads there -----

  /** The characters, with a slash after each component, that any link from `stack` to `target` takes at least. */
  function Needed(stack: seq<string>, target: seq<string>): nat {
    var i := Common(stack, target);
    3 * (|stack| - i) + Length(target[i..])
  }

  function Length(parts: seq<string>): nat {
    if parts == [] then 0 else |parts[0]| + 1 + Length(parts[1..])
  }

  lemma {:induction false} LengthOfSplit(s: string)
    ensures Length(Split(s)) == |s| + 1
    decreases |s|
  {
    if s != "" {
      LengthOfSplit(s[1..]);
      var rest := Split(s[1..]);
      if s[0] == '/' {
        assert Split(s)[1..] == rest;
      } else {
        assert Split(s)[1..] == rest[1..];
      }
    } else {
      assert [""][1..] == [];
    }
  }

  lemma {:induction false} CommonIs(a: seq<string>, b: seq<string>, n: nat)
    requires n <= |a| && n <= |b| && a[..n] == b[..n] && (n < |a| && n < |b| ==> a[n] != b[n])
    ensures Common(a, b) == n
    decreases n
  {
    if n > 0 {
      assert a[..n][0] == b[..n][0];
      assert a[1..][..n - 1] == a[..n][1..] && b[1..][..n - 1] == b[..n][1..];
      CommonIs(a[1..], b[1..], n - 1);
    }
  }

  /** One component brings the target nearer by at most its own length and a slash. */
  lemma StepIsSlow(stack: seq<string>, part: string, target: seq<string>)
    requires Names(target)
    ensures Needed(stack, target) <= |part| + 1 + Needed(Step(stack, part, false), target)
  {
    var i, after := Common(stack, target), Step(stack, part, false);
    if after == stack + [part] {
      if i == |stack| && i < |target| && part == target[i] {
        assert after[..i + 1] == target[..i + 1];
        NextIsNoCommon(after, target, i + 1);
        assert target[i..][1..] == target[i + 1..];
      } else {
        assert after[..i] == stack[..i];
        CommonIs(after, target, i);
      }
    } else if after != stack {
      var n := |stack| - 1;
      if i == |stack| {
        CommonIs(after, target, n);
        assert target[n..][1..] == target[i..];
      } else {
        assert after[..i] == stack[..i];
        CommonIs(after, target, i);
      }
    }
    hide Common, Length;
  }

  lemma NextIsNoCommon(a: seq<string>, b: seq<string>, n: nat)
    requires n == |a| <= |b| && a[..n] == b[..n]
    ensures Common(a, b) == n
  {
    CommonIs(a, b, n);
  }

  lemma {:induction false} FoldIsSlow(stack: seq<string>, parts: seq<string>, target: seq<string>)
    requires Names(target) && Fold(stack, parts, false) == target
    ensures Needed(stack, target) <= Length(parts)
    decreases |parts|
  {
    if parts == [] {
      CommonIs(target, target, |target|);
      assert target[|target|..] == [];
    } else {
      StepIsSlow(stack, parts[0], target);
      FoldIsSlow(Step(stack, parts[0], false), parts[1..], target);
      hide Needed, Step, Common;
    }
  }

  lemma {:induction false} LengthAppend(a: seq<string>, b: seq<string>)
    ensures Length(a + b) == Length(a) + Length(b)
    decreases |a|
  {
    if a == [] {
      assert a + b == b;
    } else {
      assert (a + b)[1..] == a[1..] + b;
      LengthAppend(a[1..], b);
    }
  }

  lemma {:induction false} LengthOfUps(n: nat)
    ensures Length(Ups(n)) == 3 * n
  {
    if n > 0 {
      assert Ups(n)[1..] == Ups(n - 1);
      LengthOfUps(n - 1);
    }
  }

  /** The way is a shortest link: nothing shorter than it leads from the directory to the target, unless the way is
      the single dot. */
  lemma WayIsShortest(dir: seq<string>, target: seq<string>, link: string)
    requires Names(dir) && Names(target) && Follow(dir, link) == target && Way(dir, target) != "."
    ensures |link| >= |Way(dir, target)|
  {
    hide Fold, Split, Join, Length;
    var i := Common(dir, target);
    var parts := Ups(|dir| - i) + target[i..];
    FoldIsSlow(dir, Split(link), target);
    LengthOfSplit(link);
    LengthAppend(Ups(|dir| - i), target[i..]);
    LengthOfUps(|dir| - i);
    if parts != [] {
      SplitJoin(parts);
      LengthOfSplit(Join(parts));
    }
    hide Common, Ups;
  }
}
