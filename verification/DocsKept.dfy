/** Links the site build keeps as they are: where they lead from the page's output, against where they led from its
    source. */
module DocsKept {
  import opened DocsLinks
  import opened DocsPaths
  import opened Options

  // ----- Links out of the site, and within the page -----

  /** UTF-8 decoding gives an ASCII byte at the start as its character and goes on behind it. */
  ghost predicate AsciiFirst(decode: seq<nat> -> string) {
    forall b: nat, rest: seq<nat> | b < 128 :: decode([b] + rest) == [b as char] + decode(rest)
  }

  /** No source in the targets starts with a slash. */
  predicate NoneRooted(targets: map<string, string>) {
    forall path <- targets :: !("/" <= path)
  }

  /** `build` sees to that: it takes no such source. */
  lemma TargetsAreUnrooted(entries: seq<Entry>)
    requires Buildable(entries)
    ensures NoneRooted(TargetMap(entries))
  {
    TargetsAreDistinct(entries);
    var t := TargetMap(entries);
    forall path <- t
      ensures !("/" <= path)
    {
      var i :| 0 <= i < |entries| && entries[i] == Entry(path, t[path]);
      assert InsidePath(entries[i].source);
    }
  }

  lemma {:induction false} AfterAuthorityStarts(s: string)
    ensures var t := AfterAuthority(s); t == "" || t[0] == '/' || t[0] == '?' || t[0] == '#'
  {
    if s != "" { AfterAuthorityStarts(s[1..]); }
  }

  lemma PathStartsLikeBody(body: string)
    requires body == "" || body[0] == '/' || body[0] == '?' || body[0] == '#'
    ensures PathOf(body) == "" || "/" <= PathOf(body)
  {
  }

  lemma RootStaysFirst(decode: seq<nat> -> string, path: string)
    requires AsciiFirst(decode) && "/" <= path
    ensures "/" <= Unquote(decode, path)
  {
    var n := AsciiRun(path);
    var run := path[..n];
    assert n > 0 && run[0] == '/' && !EscapeAt(run, 0);
    assert ToBytes(run) == [run[0] as int] + ToBytes(run[1..]);
    assert decode(ToBytes(run))[0] == '/';
  }

  /** A link that leads out of the site is kept, and leads out of it from the output as well. */
  lemma OutsideLinksStayOutside(decode: seq<nat> -> string, cwd: seq<string>, targets: map<string, string>,
                                source: string, output: string, value: string)
    requires AsciiFirst(decode) && NoneRooted(targets) && Resolve(decode, source, value) == None
    ensures Rewrite(decode, cwd, targets, source, output, true, value) == value
    ensures Resolve(decode, output, Rewrite(decode, cwd, targets, source, output, true, value)) == None
  {
    var u := Clean(value);
    AfterAuthorityStarts(if "//" <= u[SchemeEnd(u)..] then u[SchemeEnd(u)..][2..] else "");
    PathStartsLikeBody(if "//" <= u[SchemeEnd(u)..] then Body(u) else "");
    var path := UrlSplit(value).path;
    hide Normal, JoinPaths, DirName, Unquote, Clean, SchemeEnd, PathOf, QueryOf, FragmentOf, Body;
    if UrlSplit(value).scheme == "" && path != "" {
      RootStaysFirst(decode, path);
      RootedStaysRooted(source, Unquote(decode, path));
    }
  }

  /** A link within the page is kept, and leads from the output to the same place of the output. */
  lemma PageLinksStayOnThePage(decode: seq<nat> -> string, cwd: seq<string>, targets: map<string, string>,
                               source: string, output: string, value: string)
    requires Resolve(decode, source, value).Some? && UrlSplit(value).path == ""
    ensures var was := Resolve(decode, source, value).value;
      && was.path == source
      && Resolve(decode, output, Rewrite(decode, cwd, targets, source, output, true, value))
         == Some(was.(path := output))
  {
    hide UrlSplit;
  }

  // ----- Links to what the manifest does not list -----

  /** What a relative link comes to: how many directories up, and the names down from there. */
  function Net(parts: seq<string>, ups: nat, names: seq<string>): (nat, seq<string>)
    decreases |parts|
  {
    if parts == [] then (ups, names)
    else if parts[0] == "" || parts[0] == "." then Net(parts[1..], ups, names)
    else if parts[0] != ".." then Net(parts[1..], ups, names + [parts[0]])
    else if names != [] then Net(parts[1..], ups, names[..|names| - 1])
    else Net(parts[1..], ups + 1, names)
  }

  function UpsOf(link: string): nat {
    Net(Split(link), 0, []).0
  }

  /** The directory a number of levels above one, as far as there are any. */
  function Above(dir: seq<string>, ups: nat): seq<string> {
    if ups <= |dir| then dir[..|dir| - ups] else Ups(ups - |dir|)
  }

  lemma UpsEnd(n: nat)
    ensures n > 0 ==> Ups(n) != [] && Ups(n)[|Ups(n)| - 1] == ".."
    ensures Ups(n + 1) == Ups(n) + [".."]
  {
  }

  lemma StepUp(dir: seq<string>, ups: nat)
    requires Names(dir)
    ensures Step(Above(dir, ups), "..", false) == Above(dir, ups + 1)
  {
    if ups < |dir| {
      var stack := dir[..|dir| - ups];
      assert stack[|stack| - 1] == dir[|dir| - ups - 1] && Name(dir[|dir| - ups - 1]);
    } else {
      assert ups == |dir| ==> dir[..0] == [] == Ups(0);
      UpsEnd(ups - |dir|);
    }
  }

  lemma StepName(front: seq<string>, names: seq<string>, part: string)
    requires part != "" && part != "." && part != ".."
    ensures Step(front + names, part, false) == front + (names + [part])
  {
  }

  lemma StepBack(front: seq<string>, names: seq<string>)
    requires names != [] && names[|names| - 1] != ".."
    ensures Step(front + names, "..", false) == front + names[..|names| - 1]
  {
    var stack := front + names;
    assert stack[|stack| - 1] == names[|names| - 1];
  }

  predicate NoDots(names: seq<string>) {
    forall i | 0 <= i < |names| :: names[i] != ".."
  }

  /** From any directory, a link goes up and down as it does from any other. */
  lemma {:induction false} FollowsNet(dir: seq<string>, parts: seq<string>, ups: nat, names: seq<string>)
    requires Names(dir) && NoDots(names)
    ensures var (k, down) := Net(parts, ups, names);
            Fold(Above(dir, ups) + names, parts, false) == Above(dir, k) + down
    decreases |parts|
  {
    hide Above, Step, Names;
    if parts != [] {
      var part, rest, front := parts[0], parts[1..], Above(dir, ups);
      if part == "" || part == "." {
        StayPut(front + names, part);
        FollowsNet(dir, rest, ups, names);
      } else if part != ".." {
        StepName(front, names, part);
        FollowsNet(dir, rest, ups, names + [part]);
      } else if names != [] {
        StepBack(front, names);
        FollowsNet(dir, rest, ups, names[..|names| - 1]);
      } else {
        StepUp(dir, ups);
        assert front + names == front && Above(dir, ups + 1) + [] == Above(dir, ups + 1);
        FollowsNet(dir, rest, ups + 1, []);
      }
    }
  }

  lemma StayPut(stack: seq<string>, part: string)
    requires part == "" || part == "."
    ensures Step(stack, part, false) == stack
  {
  }

  lemma LeadAlikeIff(a: seq<string>, b: seq<string>, link: string)
    requires Names(a) && Names(b)
    ensures Follow(a, link) == Follow(b, link) <==> Above(a, UpsOf(link)) == Above(b, UpsOf(link))
  {
    FollowsNet(a, Split(link), 0, []);
    FollowsNet(b, Split(link), 0, []);
    assert Above(a, 0) + [] == a && Above(b, 0) + [] == b;
    var down := Net(Split(link), 0, []).1;
    var x, y := Above(a, UpsOf(link)), Above(b, UpsOf(link));
    hide Fold, Split, Net, Above;
    if x + down == y + down { assert x == (x + down)[..|x|] && y == (y + down)[..|y|]; }
  }

  /** Paths put together from components are the same only if the components are. */
  lemma PathsTellParts(a: seq<string>, b: seq<string>)
    requires NoSlashes(a) && NoSlashes(b) && "." !in a && "." !in b && "" !in a && "" !in b
    ensures OrDot(Join(a)) == OrDot(Join(b)) <==> a == b
  {
    JoinedIsSome(a);
    JoinedIsSome(b);
    if a != [] { SplitJoin(a); }
    if b != [] { SplitJoin(b); }
    SplitWhole(".");
    hide Split, Join;
  }

  lemma JoinedIsSome(a: seq<string>)
    requires "" !in a
    ensures Join(a) == "" <==> a == []
  {
    if a != [] { assert a[0] in a; }
  }

  lemma {:induction false} FoldedAreParts(stack: seq<string>, parts: seq<string>)
    requires "." !in stack && "" !in stack
    ensures "." !in Fold(stack, parts, false) && "" !in Fold(stack, parts, false)
    decreases |parts|
  {
    if parts != [] { FoldedAreParts(Step(stack, parts[0], false), parts[1..]); }
  }

  lemma DirOfTidy(path: string)
    requires Tidy(path)
    ensures Names(DirParts(path)) && NoSlashes(DirParts(path)) && "." !in DirParts(path) && "" !in DirParts(path)
  {
    SplitHasNoSlash(path);
  }

  /** A relative link to what the manifest does not list is kept, and leads from the output to the same place if and
      only if the directories of source and output are the same from as many levels up as the link goes. */
  lemma UnlistedLinksLeadIff(decode: seq<nat> -> string, cwd: seq<string>, targets: map<string, string>,
                             source: string, output: string, value: string)
    requires Tidy(source) && Tidy(output)
    requires Resolve(decode, source, value).Some? && UrlSplit(value).path != ""
    requires Resolve(decode, source, value).value.path !in targets
    requires !("/" <= Unquote(decode, UrlSplit(value).path))
    ensures var ups := UpsOf(Unquote(decode, UrlSplit(value).path));
      Resolve(decode, output, Rewrite(decode, cwd, targets, source, output, true, value))
        == Resolve(decode, source, value)
      <==> Above(DirParts(source), ups) == Above(DirParts(output), ups)
  {
    var link := Unquote(decode, UrlSplit(value).path);
    NormalFollows(source, link);
    NormalFollows(output, link);
    DirOfTidy(source);
    DirOfTidy(output);
    LeadAlikeIff(DirParts(source), DirParts(output), link);
    var a, b := Follow(DirParts(source), link), Follow(DirParts(output), link);
    SplitHasNoSlash(link);
    FoldHasNoSlash(DirParts(source), Split(link));
    FoldHasNoSlash(DirParts(output), Split(link));
    FoldedAreParts(DirParts(source), Split(link));
    FoldedAreParts(DirParts(output), Split(link));
    PathsTellParts(a, b);
    hide Fold, Split, Join, Normal, JoinPaths, DirName, Unquote, UrlSplit, Above, Net, Tidy, Names;
  }

  /** One that starts at the root leads to the same place from everywhere. */
  lemma RootedLinksLeadAlike(decode: seq<nat> -> string, cwd: seq<string>, targets: map<string, string>,
                             source: string, output: string, value: string)
    requires Resolve(decode, source, value).Some? && NoneRooted(targets)
    requires "/" <= Unquote(decode, UrlSplit(value).path)
    ensures Resolve(decode, output, Rewrite(decode, cwd, targets, source, output, true, value))
         == Resolve(decode, source, value)
  {
    RootedStaysRooted(source, Unquote(decode, UrlSplit(value).path));
    hide Normal, DirName, Unquote, UrlSplit;
  }
}
