/** Links of the documentation: taking a URL apart, what it leads to from a page, and the link rewriting of the
    site build. */
module DocsLinks {
  import opened DocsPaths
  import opened Numerals
  import opened Options

  // ----- URLs -----

  datatype Url = Url(scheme: string, authority: bool, path: string, query: string, fragment: string)

  /** A tab or a line end: taken out of a URL wherever it stands. */
  predicate Unsafe(c: char) {
    c == '\t' || c == '\r' || c == '\n'
  }

  function Remove(s: string): string {
    if s == "" then "" else if Unsafe(s[0]) then Remove(s[1..]) else [s[0]] + Remove(s[1..])
  }

  /** Control characters and blanks at the start go too. */
  function Clean(s: string): string {
    if s == "" then "" else if s[0] <= ' ' then Clean(s[1..]) else Remove(s)
  }

  /** The index of the first `c`, or the length. */
  function Find(s: string, c: char): (n: nat)
    ensures n <= |s|
    ensures n < |s| ==> s[n] == c
    ensures forall i | 0 <= i < n :: s[i] != c
  {
    if s == "" || s[0] == c then 0 else 1 + Find(s[1..], c)
  }

  predicate Letter(c: char) {
    'a' <= c <= 'z' || 'A' <= c <= 'Z'
  }

  predicate SchemeChar(c: char) {
    Letter(c) || '0' <= c <= '9' || c == '+' || c == '-' || c == '.'
  }

  /** The length of a scheme and its colon at the start, or 0. */
  function SchemeEnd(s: string): (n: nat)
    ensures n <= |s|
  {
    var i := Find(s, ':');
    if 0 < i < |s| && Letter(s[0]) && (forall k | 0 <= k < i :: SchemeChar(s[k])) then i + 1 else 0
  }

  function AfterAuthority(s: string): string {
    if s == "" || s[0] == '/' || s[0] == '?' || s[0] == '#' then s else AfterAuthority(s[1..])
  }

  /** A URL after its scheme and authority. */
  function Body(u: string): string {
    var rest := u[SchemeEnd(u)..];
    if "//" <= rest then AfterAuthority(rest[2..]) else rest
  }

  function PathOf(body: string): string {
    var head := body[..Find(body, '#')];
    head[..Find(head, '?')]
  }

  function QueryOf(body: string): string {
    var head := body[..Find(body, '#')];
    var q := Find(head, '?');
    if q < |head| then head[q + 1..] else ""
  }

  function FragmentOf(body: string): string {
    var h := Find(body, '#');
    if h < |body| then body[h + 1..] else ""
  }

  /** `urlsplit`. */
  function UrlSplit(href: string): Url {
    var u := Clean(href);
    Url(u[..SchemeEnd(u)], "//" <= u[SchemeEnd(u)..], PathOf(Body(u)), QueryOf(Body(u)), FragmentOf(Body(u)))
  }

  /** A query and a fragment with their marks, where there is one. */
  function Tail(query: string, fragment: string): string {
    (if query != "" then "?" + query else "") + (if fragment != "" then "#" + fragment else "")
  }

  /** `urlunsplit` without a scheme or an authority. */
  function UrlUnsplit(path: string, query: string, fragment: string): string {
    path + Tail(query, fragment)
  }

  // ----- Percent escapes -----

  predicate EscapeAt(s: string, i: nat) {
    i + 2 < |s| && s[i] == '%' && Hex(s[i + 1]) && Hex(s[i + 2])
  }

  predicate HasEscape(s: string) {
    exists i: nat | i < |s| :: EscapeAt(s, i)
  }

  function ToBytes(s: string): seq<nat> {
    if s == "" then []
    else if EscapeAt(s, 0) then [HexValue(s[1]) * 16 + HexValue(s[2])] + ToBytes(s[3..])
    else [s[0] as int] + ToBytes(s[1..])
  }

  function AsciiRun(s: string): (n: nat)
    ensures n <= |s|
    ensures forall i | 0 <= i < n :: s[i] as int < 128
    ensures n < |s| ==> s[n] as int >= 128
  {
    if s == "" || s[0] as int >= 128 then 0 else 1 + AsciiRun(s[1..])
  }

  /** `unquote`: each run of ASCII characters as bytes, decoded. */
  function Unquote(decode: seq<nat> -> string, s: string): string
    decreases |s|
  {
    if s == "" then ""
    else
      var n := AsciiRun(s);
      if n == 0 then [s[0]] + Unquote(decode, s[1..]) else decode(ToBytes(s[..n])) + Unquote(decode, s[n..])
  }

  function Codes(s: string): seq<nat> {
    seq(|s|, i requires 0 <= i < |s| => s[i] as int)
  }

  /** What is used of UTF-8 decoding with replacement: never more characters than bytes, and ASCII is itself. */
  ghost predicate Decoder(decode: seq<nat> -> string) {
    && (forall bytes :: |decode(bytes)| <= |bytes|)
    && (forall s: string | (forall i | 0 <= i < |s| :: s[i] as int < 128) :: decode(Codes(s)) == s)
  }

  // ----- Links -----

  datatype Place = Place(path: string, query: string, fragment: string)

  /** Where a link on a page leads: nowhere local with a scheme or an authority, the page itself without a path. */
  function Resolve(decode: seq<nat> -> string, page: string, href: string): Option<Place> {
    var u := UrlSplit(href);
    if u.scheme != "" || u.authority then None
    else if u.path == "" then Some(Place(page, u.query, u.fragment))
    else Some(Place(Normal(JoinPaths(DirName(page), Unquote(decode, u.path))), u.query, u.fragment))
  }

  /** `rewrite`: `safe` says whether the link may be kept at all. */
  function Rewrite(decode: seq<nat> -> string, cwd: seq<string>, targets: map<string, string>, source: string,
                   output: string, safe: bool, value: string): string
  {
    if !safe then "#"
    else
      var u := UrlSplit(value);
      if u.scheme != "" || u.path == "" then value
      else
        var path := Normal(JoinPaths(DirName(source), Unquote(decode, u.path)));
        if path in targets then UrlUnsplit(Relative(cwd, output, targets[path]), u.query, u.fragment) else value
  }

  /** A relative path that is a URL path as it stands. */
  predicate PlainHref(r: string) {
    && r != "" && r[0] > ' '
    && (forall i | 0 <= i < |r| :: !Unsafe(r[i]) && r[i] != '?' && r[i] != '#')
    && SchemeEnd(r) == 0
    && !HasEscape(r)
  }

  /** A link of which nothing is left but its query and fragment, so that it leads to the page it stands on. */
  predicate Vanishes(r: string, query: string, fragment: string) {
    var c := Clean(r);
    c == "" || (query == "" && (c == "?" || (fragment == "" && (c == "#" || c == "?#"))))
  }

  // ----- Cleaning -----

  lemma {:induction false} RemoveAppend(a: string, b: string)
    ensures Remove(a + b) == Remove(a) + Remove(b)
    decreases |a|
  {
    if a == "" {
      assert a + b == b;
    } else {
      assert (a + b)[1..] == a[1..] + b;
      RemoveAppend(a[1..], b);
    }
  }

  lemma {:induction false} RemoveShrinks(s: string)
    ensures |Remove(s)| <= |s|
    ensures (forall i | 0 <= i < |s| :: !Unsafe(s[i])) ==> Remove(s) == s
    ensures (exists i | 0 <= i < |s| :: Unsafe(s[i])) ==> |Remove(s)| < |s|
    ensures forall i | 0 <= i < |Remove(s)| :: !Unsafe(Remove(s)[i]) && Remove(s)[i] in s
    decreases |s|
  {
    if s != "" {
      RemoveShrinks(s[1..]);
      if !Unsafe(s[0]) && forall i | 0 <= i < |s[1..]| :: !Unsafe(s[1..][i]) {
        assert [s[0]] + s[1..] == s;
      }
      if exists i | 0 <= i < |s| :: Unsafe(s[i]) {
        var i :| 0 <= i < |s| && Unsafe(s[i]);
        if i > 0 { assert Unsafe(s[1..][i - 1]); }
      }
    }
  }

  lemma {:induction false} CleanShrinks(s: string)
    ensures |Clean(s)| <= |s|
    ensures s != "" && s[0] <= ' ' ==> |Clean(s)| < |s|
    ensures (exists i | 0 <= i < |s| :: Unsafe(s[i])) ==> |Clean(s)| < |s|
    ensures (s == "" || s[0] > ' ') && (forall i | 0 <= i < |s| :: !Unsafe(s[i])) ==> Clean(s) == s
    ensures forall i | 0 <= i < |Clean(s)| :: !Unsafe(Clean(s)[i]) && Clean(s)[i] in s
    decreases |s|
  {
    RemoveShrinks(s);
    if s != "" && s[0] <= ' ' { CleanShrinks(s[1..]); }
  }

  predicate Marked(s: string) {
    s == "" || s[0] == '?' || s[0] == '#'
  }

  lemma {:induction false} CleanAppend(a: string, b: string)
    requires Marked(b)
    ensures Clean(a + b) == Clean(a) + Remove(b)
    decreases |a|
  {
    if a == "" {
      assert a + b == b;
    } else {
      assert (a + b)[1..] == a[1..] + b;
      CleanAppend(a[1..], b);
      RemoveAppend(a, b);
    }
  }

  // ----- Taking apart what was put together -----

  predicate NoMarks(s: string) {
    forall i | 0 <= i < |s| :: s[i] != '?' && s[i] != '#'
  }

  lemma FindIs(s: string, c: char, n: nat)
    requires n <= |s| && (n < |s| ==> s[n] == c) && forall i | 0 <= i < n :: s[i] != c
    ensures Find(s, c) == n
  {
    var m := Find(s, c);
  }

  /** A scheme never reaches past a mark. */
  lemma SchemeBeforeMark(a: string, b: string)
    requires NoMarks(a) && Marked(b)
    ensures SchemeEnd(a + b) == SchemeEnd(a)
  {
    var i := Find(a, ':');
    if i < |a| {
      FindIs(a + b, ':', i);
      assert forall k | 0 <= k < |a| :: (a + b)[k] == a[k];
    } else {
      var j := Find(a + b, ':');
      if j < |a + b| {
        assert j > |a|;
        assert (a + b)[|a|] == b[0];
      }
    }
  }

  /** The path of a URL ends at the first mark. */
  lemma PathEndsAtMark(a: string, b: string)
    requires NoMarks(a) && Marked(b)
    ensures var u := UrlSplit(a + b);
            var c := Clean(a);
            var n := SchemeEnd(c);
            && u.scheme == c[..n]
            && (!u.authority ==> u.path == c[n..])
  {
    hide Clean, Remove, SchemeEnd, PathOf, QueryOf, FragmentOf, NoMarks, Marked, AfterAuthority;
    CleanAppend(a, b);
    CleanKeepsMarks(a, b);
    var c, d := Clean(a), Remove(b);
    SchemeBeforeMark(c, d);
    var n := SchemeEnd(c);
    assert (c + d)[n..] == c[n..] + d && (c + d)[..n] == c[..n];
    NoMarksInRest(c, n);
    PathBeforeMark(c[n..], d);
  }

  lemma NoMarksInRest(c: string, n: nat)
    requires NoMarks(c) && n <= |c|
    ensures NoMarks(c[n..])
  {
  }

  lemma CleanKeepsMarks(a: string, b: string)
    requires NoMarks(a) && Marked(b)
    ensures NoMarks(Clean(a)) && Marked(Remove(b))
  {
    CleanShrinks(a);
    if b != "" { assert Remove(b)[0] == b[0]; }
    hide Clean;
  }

  lemma PathBeforeMark(c: string, d: string)
    requires NoMarks(c) && Marked(d)
    ensures PathOf(c + d) == c
  {
    var body := c + d;
    var h := Find(body, '#');
    assert forall k | 0 <= k < |c| :: body[k] == c[k];
    var q := Find(body[..h], '?');
    if d != "" {
      assert body[|c|] == d[0];
      if d[0] == '#' { FindIs(body, '#', |c|); } else { FindIs(body[..h], '?', |c|); }
    }
    assert body[..|c|] == c;
  }

  predicate AllSafe(s: string) {
    forall i | 0 <= i < |s| :: !Unsafe(s[i])
  }

  lemma RestIsSafe(s: string, n: nat)
    requires AllSafe(s) && n <= |s|
    ensures AllSafe(s[n..])
  {
  }

  lemma BodyIsSafe(u: string)
    requires AllSafe(u)
    ensures AllSafe(Body(u))
  {
    hide SchemeEnd, AfterAuthority, AllSafe;
    var rest := u[SchemeEnd(u)..];
    RestIsSafe(u, SchemeEnd(u));
    if "//" <= rest {
      var cut := rest[2..];
      RestIsSafe(rest, 2);
      AuthorityIsCut(cut);
      RestIsSafe(cut, |cut| - |AfterAuthority(cut)|);
    }
  }

  lemma PartsOfBody(body: string)
    requires AllSafe(body)
    ensures AllSafe(QueryOf(body)) && AllSafe(FragmentOf(body)) && NoMarks(PathOf(body)) && '#' !in QueryOf(body)
  {
    hide Unsafe;
  }

  /** The marks of a URL do not survive in its parts, and neither does anything unsafe. */
  lemma PartsAreClean(href: string)
    ensures var u := UrlSplit(href);
            AllSafe(u.query) && AllSafe(u.fragment) && NoMarks(u.path) && '#' !in u.query
  {
    CleanShrinks(href);
    BodyIsSafe(Clean(href));
    PartsOfBody(Body(Clean(href)));
    hide Clean, SchemeEnd, Body, PathOf, QueryOf, FragmentOf, AllSafe;
  }

  lemma {:induction false} AuthorityIsCut(s: string)
    ensures var t := AfterAuthority(s); |t| <= |s| && t == s[|s| - |t|..]
    decreases |s|
  {
    if s != "" && s[0] != '/' && s[0] != '?' && s[0] != '#' {
      AuthorityIsCut(s[1..]);
      var t := AfterAuthority(s[1..]);
      assert s[1..][|s| - 1 - |t|..] == s[|s| - |t|..];
    }
  }

  lemma TailIsMarked(query: string, fragment: string)
    ensures Marked(Tail(query, fragment))
    ensures AllSafe(query) && AllSafe(fragment) ==> AllSafe(Tail(query, fragment))
  {
  }

  /** A plain path, a query without "#" and a fragment come apart again. */
  lemma PlainComesApart(r: string, query: string, fragment: string)
    requires PlainHref(r) && !("//" <= r) && AllSafe(query) && AllSafe(fragment) && '#' !in query
    ensures UrlSplit(UrlUnsplit(r, query, fragment)) == Url("", false, r, query, fragment)
  {
    var body := UrlUnsplit(r, query, fragment);
    PlainStaysClean(r, query, fragment);
    TailComesApart(r, query, fragment);
    hide Clean, SchemeEnd, UrlUnsplit, PathOf, QueryOf, FragmentOf, PlainHref;
    assert body[0..] == body && body[..0] == "";
    assert Body(body) == body;
  }

  lemma PlainStaysClean(r: string, query: string, fragment: string)
    requires PlainHref(r) && !("//" <= r) && AllSafe(query) && AllSafe(fragment)
    ensures var body := UrlUnsplit(r, query, fragment); Clean(body) == body && SchemeEnd(body) == 0 && !("//" <= body)
  {
    var tail := Tail(query, fragment);
    TailIsMarked(query, fragment);
    hide Tail;
    CleanAppend(r, tail);
    CleanShrinks(r);
    RemoveShrinks(tail);
    SchemeBeforeMark(r, tail);
    hide Clean, SchemeEnd, Remove, HasEscape, Unsafe;
    NoAuthorityAdded(r, tail);
  }

  lemma NoAuthorityAdded(r: string, tail: string)
    requires r != "" && !("//" <= r) && Marked(tail)
    ensures !("//" <= r + tail)
  {
    var body := r + tail;
    assert body[0] == r[0];
    if |r| == 1 { if tail != "" { assert body[1] == tail[0]; } } else { assert body[1] == r[1]; }
  }

  lemma TailComesApart(r: string, query: string, fragment: string)
    requires NoMarks(r) && '#' !in query
    ensures var body := UrlUnsplit(r, query, fragment);
            PathOf(body) == r && QueryOf(body) == query && FragmentOf(body) == fragment
  {
    hide Find, PathOf, QueryOf, FragmentOf;
    var head := r + if query != "" then "?" + query else "";
    HeadHasNoHash(r, query);
    HashComesApart(head, fragment);
    QueryComesApart(r, query);
    assert UrlUnsplit(r, query, fragment) == head + if fragment != "" then "#" + fragment else "";
    HeadComesApart(UrlUnsplit(r, query, fragment), head);
  }

  lemma HeadComesApart(body: string, head: string)
    requires body[..Find(body, '#')] == head
    ensures var q := Find(head, '?');
            PathOf(body) == head[..q] && QueryOf(body) == if q < |head| then head[q + 1..] else ""
  {
    hide Find;
  }

  lemma HeadHasNoHash(r: string, query: string)
    requires NoMarks(r) && '#' !in query
    ensures var head := r + if query != "" then "?" + query else ""; forall i | 0 <= i < |head| :: head[i] != '#'
  {
  }

  lemma HashComesApart(head: string, fragment: string)
    requires forall i | 0 <= i < |head| :: head[i] != '#'
    ensures var body := head + if fragment != "" then "#" + fragment else "";
            body[..Find(body, '#')] == head && FragmentOf(body) == fragment
  {
    var body := head + if fragment != "" then "#" + fragment else "";
    FindIs(body, '#', |head|);
    hide Find;
  }

  lemma QueryComesApart(r: string, query: string)
    requires NoMarks(r)
    ensures var head := r + if query != "" then "?" + query else "";
            var q := Find(head, '?');
            head[..q] == r && (if q < |head| then head[q + 1..] else "") == query
  {
    var head := r + if query != "" then "?" + query else "";
    FindIs(head, '?', |r|);
    hide Find;
  }

  // ----- Unquoting -----

  lemma {:induction false} BytesShrink(s: string)
    ensures |ToBytes(s)| <= |s|
    ensures HasEscape(s) ==> |ToBytes(s)| < |s|
    ensures !HasEscape(s) ==> ToBytes(s) == Codes(s)
    decreases |s|
  {
    if s == "" {
    } else if EscapeAt(s, 0) {
      BytesShrink(s[3..]);
      assert HasEscape(s);
    } else {
      BytesShrink(s[1..]);
      EscapeLater(s);
      assert Codes(s) == [s[0] as int] + Codes(s[1..]);
    }
  }

  lemma EscapeLater(s: string)
    requires s != "" && !EscapeAt(s, 0)
    ensures HasEscape(s) <==> HasEscape(s[1..])
  {
    if HasEscape(s) {
      var i: nat :| i < |s| && EscapeAt(s, i);
      assert EscapeAt(s[1..], i - 1);
    }
    if HasEscape(s[1..]) {
      var i: nat :| i < |s[1..]| && EscapeAt(s[1..], i);
      assert EscapeAt(s, i + 1);
    }
  }

  /** An escape lies wholly in the run of ASCII characters it starts in. */
  lemma EscapeInRun(s: string, n: nat)
    requires 0 < n <= |s| && (n < |s| ==> s[n] as int >= 128)
    ensures HasEscape(s) <==> HasEscape(s[..n]) || HasEscape(s[n..])
  {
    if HasEscape(s) {
      var i: nat :| i < |s| && EscapeAt(s, i);
      if i < n {
        assert i + 1 != n && i + 2 != n;
        assert EscapeAt(s[..n], i);
      } else {
        assert EscapeAt(s[n..], i - n);
      }
    }
    if HasEscape(s[..n]) {
      var i: nat :| i < n && EscapeAt(s[..n], i);
      assert EscapeAt(s, i);
    }
    if HasEscape(s[n..]) {
      var i: nat :| i < |s[n..]| && EscapeAt(s[n..], i);
      assert EscapeAt(s, n + i);
    }
  }

  lemma RunShrinks(decode: seq<nat> -> string, run: string)
    requires Decoder(decode) && forall i | 0 <= i < |run| :: run[i] as int < 128
    ensures |decode(ToBytes(run))| <= |run|
    ensures HasEscape(run) ==> |decode(ToBytes(run))| < |run|
    ensures !HasEscape(run) ==> decode(ToBytes(run)) == run
  {
    BytesShrink(run);
    hide HasEscape, ToBytes, Codes;
    assert |decode(ToBytes(run))| <= |ToBytes(run)|;
  }

  lemma NoEscapeInNothing()
    ensures !HasEscape("")
  {
  }

  lemma {:induction false} UnquoteShrinks(decode: seq<nat> -> string, s: string)
    requires Decoder(decode)
    ensures |Unquote(decode, s)| <= |s|
    ensures HasEscape(s) ==> |Unquote(decode, s)| < |s|
    ensures !HasEscape(s) ==> Unquote(decode, s) == s
    decreases |s|
  {
    hide Decoder, HasEscape, ToBytes;
    if s == "" {
      NoEscapeInNothing();
    } else {
      var n := AsciiRun(s);
      if n == 0 {
        UnquoteShrinks(decode, s[1..]);
        EscapeLater(s);
        assert [s[0]] + s[1..] == s;
      } else {
        UnquoteShrinks(decode, s[n..]);
        RunShrinks(decode, s[..n]);
        EscapeInRun(s, n);
        assert s[..n] + s[n..] == s;
      }
    }
  }

  // ----- The links of a site -----

  predicate NoSlashes(parts: seq<string>) {
    forall i | 0 <= i < |parts| :: NoSlash(parts[i])
  }

  lemma {:induction false} FoldHasNoSlash(stack: seq<string>, parts: seq<string>)
    requires NoSlashes(stack) && NoSlashes(parts)
    ensures NoSlashes(Fold(stack, parts, false))
    decreases |parts|
  {
    hide NoSlash;
    if parts != [] {
      assert NoSlashes(parts[1..]);
      FoldHasNoSlash(Step(stack, parts[0], false), parts[1..]);
    }
  }

  lemma {:induction false} SplitHasNoSlash(s: string)
    ensures NoSlashes(Split(s))
    decreases |s|
  {
    if s != "" {
      SplitHasNoSlash(s[1..]);
      var rest := Split(s[1..]);
      assert NoSlash(rest[0]);
      if s[0] != '/' { assert NoSlash([s[0]] + rest[0]); }
    }
  }

  /** A relative link leads to a tidy path if and only if its components fold to the path's. */
  lemma LeadsTo(page: string, link: string, target: string)
    requires Tidy(page) && Tidy(target) && !("/" <= link)
    ensures Normal(JoinPaths(DirName(page), link)) == target <==> Follow(DirParts(page), link) == Split(target)
  {
    NormalFollows(page, link);
    var parts := Follow(DirParts(page), link);
    SplitHasNoSlash(link);
    SplitHasNoSlash(page);
    FoldHasNoSlash(DirParts(page), Split(link));
    JoinSplit(target);
    TidyIsRelative(target);
    TidyIsNotDot(target);
    if parts != [] { SplitJoin(parts); }
    hide Split, Fold, Normal, DirName, JoinPaths;
  }

  lemma TidyIsNotDot(path: string)
    requires Tidy(path)
    ensures path != "."
  {
    SplitWhole(".");
    assert Name(Split(path)[0]);
  }

  /** A rooted path stays rooted. */
  lemma RootedStaysRooted(page: string, link: string)
    requires "/" <= link
    ensures "/" <= Normal(JoinPaths(DirName(page), link))
  {
    assert JoinPaths(DirName(page), link) == link;
    var n := Slashes(link);
    assert n > 0;
    assert (seq(n, _ => '/') + Join(Fold([], Split(link), true)))[0] == '/';
  }

  /** Nothing shorter than the way to a page leads there. */
  lemma ShorterLeadsElsewhere(page: string, link: string, target: string)
    requires Tidy(page) && Tidy(target)
    requires |link| < |Way(DirParts(page), Split(target))| && Way(DirParts(page), Split(target)) != "."
    ensures Normal(JoinPaths(DirName(page), link)) != target
  {
    hide Normal, DirName, Fold, Split, Way, JoinPaths;
    if "/" <= link {
      RootedStaysRooted(page, link);
      TidyIsRelative(target);
    } else {
      LeadsTo(page, link, target);
      if Follow(DirParts(page), link) == Split(target) {
        WayIsShortest(DirParts(page), Split(target), link);
      }
    }
  }

  /** The index of the first mark, or the length. */
  function FirstMark(s: string): (n: nat)
    ensures n <= |s| && NoMarks(s[..n]) && Marked(s[n..])
  {
    if s == "" || s[0] == '?' || s[0] == '#' then 0
    else
      var n := FirstMark(s[1..]);
      assert s[..n + 1] == [s[0]] + s[1..][..n] && s[n + 1..] == s[1..][n..];
      n + 1
  }

  /** Nothing cut, cleaned or escaped: the path is plain. */
  lemma WholePathIsPlain(r: string, c: string)
    requires r != "" && NoMarks(r) && Clean(r) == c && |c| == |r| && SchemeEnd(c) == 0 && !HasEscape(c)
    ensures PlainHref(r)
  {
    CleanShrinks(r);
    hide Clean, SchemeEnd, HasEscape;
    if r[0] > ' ' {
      assert forall i | 0 <= i < |r| :: !Unsafe(r[i]);
    }
  }

  /** What is left of a path that is not plain is shorter, unless it is no local path any more. */
  lemma UnplainShrinks(decode: seq<nat> -> string, r: string, query: string, fragment: string)
    requires Decoder(decode) && r != "" && !PlainHref(r)
    ensures var u := UrlSplit(UrlUnsplit(r, query, fragment));
            u.scheme != "" || u.authority || |Unquote(decode, u.path)| < |r|
  {
    hide UrlSplit, Clean, SchemeEnd, Unquote, HasEscape, PlainHref, Tail, Decoder, NoMarks;
    var tail := Tail(query, fragment);
    TailIsMarked(query, fragment);
    var n := FirstMark(r);
    var a, b := r[..n], r[n..] + tail;
    assert r + tail == a + b;
    assert Marked(b) by { if n < |r| { assert b[0] == r[n]; } else { assert b == tail; } }
    PathEndsAtMark(a, b);
    PathIsShorter(decode, r, n);
  }

  lemma PathIsShorter(decode: seq<nat> -> string, r: string, n: nat)
    requires Decoder(decode) && r != "" && !PlainHref(r) && n <= |r| && NoMarks(r[..n])
    ensures var c := Clean(r[..n]);
            SchemeEnd(c) == 0 ==> c[0..] == c && |Unquote(decode, c)| < |r|
  {
    hide Clean, SchemeEnd, Unquote, HasEscape, PlainHref;
    var a := r[..n];
    var c := Clean(a);
    CleanShrinks(a);
    if SchemeEnd(c) == 0 {
      UnquoteShrinks(decode, c);
      if |c| == |r| && !HasEscape(c) {
        assert a == r;
        WholePathIsPlain(r, c);
      }
    }
  }

  /** The way of tidy paths never starts with a slash. */
  lemma WayIsRelative(dir: seq<string>, target: seq<string>)
    requires Names(dir) && Names(target)
    ensures var w := Way(dir, target); w != "" && w[0] != '/'
  {
    var i := Common(dir, target);
    var parts := Ups(|dir| - i) + target[i..];
    if parts != [] {
      assert parts[0] != "" && parts[0][0] != '/' by {
        if |dir| == i { assert parts[0] == target[i]; assert Name(target[i]); }
      }
      assert Join(parts)[0] == parts[0][0];
    }
  }

  /** Rewriting a link to a page of the manifest keeps where it leads, with its query and fragment, if and only if the
      link may be kept and the way between the two outputs is a URL path as it stands. Only a link to the very page
      it stands on has a second chance: where nothing but query and fragment is left of its way, or of an unsafe link
      without them. */
  lemma RewritingKeepsMeaning(decode: seq<nat> -> string, cwd: seq<string>, targets: map<string, string>,
                              source: string, output: string, safe: bool, value: string)
    requires Decoder(decode) && Tidy(output)
    requires Resolve(decode, source, value).Some? && UrlSplit(value).path != ""
    requires Resolve(decode, source, value).value.path in targets
    requires Tidy(targets[Resolve(decode, source, value).value.path])
    ensures var was := Resolve(decode, source, value).value;
            var target := targets[was.path];
            var way := Relative(cwd, output, target);
            Resolve(decode, output, Rewrite(decode, cwd, targets, source, output, safe, value))
              == Some(Place(target, was.query, was.fragment))
            <==> if safe then PlainHref(way) || (target == output && Vanishes(way, was.query, was.fragment))
                 else target == output && was.query == was.fragment == ""
  {
    var was := Resolve(decode, source, value).value;
    var target := targets[was.path];
    var r := Relative(cwd, output, target);
    if !safe {
      HashLeadsToThePage(decode, output);
    } else {
      assert Rewrite(decode, cwd, targets, source, output, true, value) == UrlUnsplit(r, was.query, was.fragment);
      PartsAreClean(value);
      hide Rewrite, UrlSplit, UrlUnsplit, Relative, Resolve, PlainHref, Vanishes;
      RelativeIsWay(cwd, output, target);
      if PlainHref(r) {
        PlainWayLeads(decode, output, target, was.query, was.fragment);
      } else {
        UnplainWayLeadsIff(decode, output, target, was.query, was.fragment);
      }
    }
  }

  lemma HashLeadsToThePage(decode: seq<nat> -> string, page: string)
    ensures Resolve(decode, page, "#") == Some(Place(page, "", ""))
  {
    assert Clean("#") == "#" && Find("#", ':') == 1 && Find("#", '#') == 0;
  }

  lemma PlainWayLeads(decode: seq<nat> -> string, output: string, target: string, query: string, fragment: string)
    requires Decoder(decode) && Tidy(output) && Tidy(target) && PlainHref(Way(DirParts(output), Split(target)))
    requires AllSafe(query) && AllSafe(fragment) && '#' !in query
    ensures Resolve(decode, output, UrlUnsplit(Way(DirParts(output), Split(target)), query, fragment))
         == Some(Place(target, query, fragment))
  {
    var dir, parts := DirParts(output), Split(target);
    WayIsRelative(dir, parts);
    WayLeads(dir, parts);
    var r := Way(dir, parts);
    LeadsTo(output, r, target);
    PlainComesApart(r, query, fragment);
    UnquoteShrinks(decode, r);
    hide Way, UrlSplit, UrlUnsplit, Normal, DirName, JoinPaths, Unquote, SchemeEnd, Split;
  }

  lemma UnplainWayLeadsIff(decode: seq<nat> -> string, output: string, target: string, query: string,
                           fragment: string)
    requires Decoder(decode) && Tidy(output) && Tidy(target)
    requires AllSafe(query) && AllSafe(fragment) && '#' !in query
    requires !PlainHref(Way(DirParts(output), Split(target)))
    ensures var r := Way(DirParts(output), Split(target));
            Resolve(decode, output, UrlUnsplit(r, query, fragment)) == Some(Place(target, query, fragment))
            <==> target == output && Vanishes(r, query, fragment)
  {
    var dir, parts := DirParts(output), Split(target);
    WayIsRelative(dir, parts);
    DotIsPlain();
    var r := Way(dir, parts);
    VanishingIff(r, query, fragment);
    hide Way, PlainHref, UrlSplit, UrlUnsplit, Normal, DirName, JoinPaths, Unquote, Split, Vanishes;
    UnplainShrinks(decode, r, query, fragment);
    var u := UrlSplit(UrlUnsplit(r, query, fragment));
    if u.scheme == "" && !u.authority && u.path != "" {
      ShorterLeadsElsewhere(output, Unquote(decode, u.path), target);
    }
  }

  /** What is left of a way and its tail is the tail alone exactly when the way vanishes. */
  lemma VanishingIff(r: string, query: string, fragment: string)
    requires AllSafe(query) && AllSafe(fragment) && '#' !in query
    ensures UrlSplit(UrlUnsplit(r, query, fragment)) == Url("", false, "", query, fragment)
       <==> Vanishes(r, query, fragment)
  {
    var c, tail := Clean(r), Tail(query, fragment);
    TailIsMarked(query, fragment);
    CleanAppend(r, tail);
    RemoveShrinks(tail);
    assert Clean(UrlUnsplit(r, query, fragment)) == c + tail;
    hide Clean, Remove, Tail, SchemeEnd, PathOf, QueryOf, FragmentOf;
    BareIff(c, query, fragment);
    MarkedHasNoFront(c + tail);
    FrontIsMarked(c + tail);
  }

  /** A URL that starts with a mark has neither scheme nor authority. */
  lemma MarkedHasNoFront(u: string)
    ensures Marked(u) ==> SchemeEnd(u) == 0 && Body(u) == u && !("//" <= u)
  {
    if Marked(u) && u != "" { assert !Letter(u[0]); }
    assert u[0..] == u;
  }

  /** And one with neither and without a path starts with a mark. */
  lemma FrontIsMarked(u: string)
    ensures SchemeEnd(u) == 0 && !("//" <= u) && PathOf(u) == "" ==> Marked(u)
    ensures SchemeEnd(u) == 0 && !("//" <= u) ==> Body(u) == u
  {
    assert u[0..] == u;
    var head := u[..Find(u, '#')];
    if u != "" && head != "" { assert head[0] == u[0]; }
  }

  /** A URL put back together from its parts: a mark may stand for an empty query or fragment. */
  lemma PartsJoin(u: string) returns (asked: bool, hashed: bool)
    ensures u == PathOf(u) + (if asked then "?" + QueryOf(u) else "") + (if hashed then "#" + FragmentOf(u) else "")
    ensures QueryOf(u) != "" ==> asked
    ensures FragmentOf(u) != "" ==> hashed
  {
    var h := Find(u, '#');
    var head := u[..h];
    var q := Find(head, '?');
    asked, hashed := q < |head|, h < |u|;
    FoundJoins(u, '#');
    FoundJoins(head, '?');
    hide Find;
  }

  lemma FoundJoins(s: string, c: char)
    ensures var n := Find(s, c); s == s[..n] + if n < |s| then [c] + s[n + 1..] else ""
  {
  }

  lemma BareIff(c: string, query: string, fragment: string)
    requires '#' !in query
    ensures var u := c + Tail(query, fragment);
            PathOf(u) == "" && QueryOf(u) == query && FragmentOf(u) == fragment && Marked(u)
            <==> c == "" || (query == "" && (c == "?" || (fragment == "" && (c == "#" || c == "?#"))))
  {
    var u := c + Tail(query, fragment);
    if c == "" {
      assert u == UrlUnsplit("", query, fragment);
      TailComesApart("", query, fragment);
      TailIsMarked(query, fragment);
    } else if query == "" && c == "?" {
      AskedComesApart(fragment);
    } else if query == "" && fragment == "" && (c == "#" || c == "?#") {
      assert u == c;
      MarksComeApart();
    } else if PathOf(u) == "" && QueryOf(u) == query && FragmentOf(u) == fragment {
      var asked, hashed := PartsJoin(u);
      hide PathOf, QueryOf, FragmentOf;
      assert u == (if asked then "?" + query else "") + (if hashed then "#" + fragment else "");
      OnlyMarks(c, query, fragment, asked, hashed);
    }
  }

  lemma AskedComesApart(fragment: string)
    ensures var u := "?" + Tail("", fragment);
            PathOf(u) == "" && QueryOf(u) == "" && FragmentOf(u) == fragment && Marked(u)
  {
    HashComesApart("?", fragment);
    HeadComesApart("?" + if fragment != "" then "#" + fragment else "", "?");
    FindIs("?", '?', 0);
    assert "?" + Tail("", fragment) == "?" + if fragment != "" then "#" + fragment else "";
    hide PathOf, QueryOf, FragmentOf, Find;
  }

  lemma MarksComeApart()
    ensures PathOf("#") == "" && QueryOf("#") == "" && FragmentOf("#") == ""
    ensures PathOf("?#") == "" && QueryOf("?#") == "" && FragmentOf("?#") == ""
  {
    FindIs("#", '#', 0);
    FindIs("?#", '#', 1);
    assert "?#"[..1] == "?";
    FindIs("?", '?', 0);
    hide Find;
  }

  /** What stands before the tail is then made of marks. */
  lemma OnlyMarks(c: string, query: string, fragment: string, asked: bool, hashed: bool)
    requires '#' !in query && (query != "" ==> asked) && (fragment != "" ==> hashed)
    requires c + Tail(query, fragment)
          == (if asked then "?" + query else "") + (if hashed then "#" + fragment else "")
    ensures c == "" || (query == "" && (c == "?" || (fragment == "" && (c == "#" || c == "?#"))))
  {
    var u := c + Tail(query, fragment);
    if query != "" {
      assert u[|u| - 1] == (if fragment != "" then fragment[|fragment| - 1] else query[|query| - 1]);
    } else if fragment != "" {
      assert u[..|c|] == c;
    } else {
      assert u == c;
    }
  }

  lemma DotIsPlain()
    ensures PlainHref(".")
  {
    assert Find(".", ':') == 1;
  }

  lemma TopPageIsTidy(name: string)
    requires Name(name)
    ensures Tidy(name) && Split(name) == [name] && DirParts(name) == []
  {
    SplitWhole(name);
  }

  /** Where a link by its plain name leads from another page beside it. */
  lemma PlainNameLeads(decode: seq<nat> -> string, page: string, name: string)
    requires Decoder(decode) && Name(page) && Name(name) && PlainHref(name)
    ensures Resolve(decode, page, name) == Some(Place(name, "", "")) && UrlSplit(name).path != ""
  {
    TopPageIsTidy(page);
    TopPageIsTidy(name);
    WayToTopPage(name);
    WayIsRelative([], [name]);
    PlainComesApart(name, "", "");
    assert UrlUnsplit(name, "", "") == name;
    hide Tidy, UrlSplit, UrlUnsplit, Way, Resolve;
    PlainWayLeads(decode, page, name, "", "");
  }

  lemma WayToTopPage(name: string)
    requires Name(name)
    ensures Way([], [name]) == name
  {
    assert Common([], [name]) == 0 && Ups(0) == [];
    assert [name][0..] == [name] && Ups(0) + [name] == [name];
  }

  /** Between two pages, a link to the other by its source strays if the other's output has a name that is no URL path
      as it stands. */
  lemma LinkStrays(decode: seq<nat> -> string, cwd: seq<string>, name: string)
    requires Decoder(decode) && Name(name) && !PlainHref(name)
    ensures var targets := map["b.md" := name];
            && Resolve(decode, "x.md", "b.md") == Some(Place("b.md", "", ""))
            && Resolve(decode, "x.html", Rewrite(decode, cwd, targets, "x.md", "x.html", true, "b.md"))
               != Some(Place(name, "", ""))
  {
    PlainPages();
    PlainNameLeads(decode, "x.md", "b.md");
    TopPageIsTidy("x.html");
    TopPageIsTidy(name);
    WayToTopPage(name);
    RelativeIsWay(cwd, "x.html", name);
    hide Tidy, Name, UrlSplit, Way, Resolve, Relative, PlainHref, Rewrite;
    RewritingKeepsMeaning(decode, cwd, map["b.md" := name], "x.md", "x.html", true, "b.md");
  }

  /** Of letters and dots only. */
  predicate Lettered(r: string) {
    forall i | 0 <= i < |r| :: Letter(r[i]) || r[i] == '.'
  }

  lemma LetteredIsPlain(r: string)
    requires r != "" && Lettered(r)
    ensures PlainHref(r)
  {
    assert !HasEscape(r) by { hide SchemeEnd, Hex; }
    FindIs(r, ':', |r|);
    hide Find, HasEscape;
  }

  lemma PlainPages()
    ensures PlainHref("b.md") && PlainHref("x.html") && Name("b.md") && Name("x.html") && Name("x.md")
  {
    hide PlainHref;
    assert Lettered("b.md") && Lettered("x.html");
    LetteredIsPlain("b.md");
    LetteredIsPlain("x.html");
  }

  lemma UnplainNames()
    ensures Name("a%41.html") && !PlainHref("a%41.html")
    ensures Name("a?b.html") && !PlainHref("a?b.html")
    ensures Name("a:b.html") && !PlainHref("a:b.html")
  {
    assert EscapeAt("a%41.html", 1);
    assert "a?b.html"[1] == '?';
    FindIs("a:b.html", ':', 1);
    assert SchemeEnd("a:b.html") == 2;
    hide SchemeEnd;
  }

  /** An output whose name holds a percent escape is not found under its rewritten link. */
  lemma EscapedNameStrays(decode: seq<nat> -> string, cwd: seq<string>)
    requires Decoder(decode)
    ensures Resolve(decode, "x.md", "b.md") == Some(Place("b.md", "", ""))
    ensures Resolve(decode, "x.html", Rewrite(decode, cwd, map["b.md" := "a%41.html"], "x.md", "x.html", true, "b.md"))
            != Some(Place("a%41.html", "", ""))
  {
    UnplainNames();
    hide PlainHref, Resolve, Rewrite, Decoder;
    LinkStrays(decode, cwd, "a%41.html");
  }

  /** Nor is one whose name holds a question mark. */
  lemma MarkedNameStrays(decode: seq<nat> -> string, cwd: seq<string>)
    requires Decoder(decode)
    ensures Resolve(decode, "x.md", "b.md") == Some(Place("b.md", "", ""))
    ensures Resolve(decode, "x.html", Rewrite(decode, cwd, map["b.md" := "a?b.html"], "x.md", "x.html", true, "b.md"))
            != Some(Place("a?b.html", "", ""))
  {
    UnplainNames();
    hide PlainHref, Resolve, Rewrite, Decoder;
    LinkStrays(decode, cwd, "a?b.html");
  }

  /** Nor is one whose name starts like a scheme. */
  lemma SchemedNameStrays(decode: seq<nat> -> string, cwd: seq<string>)
    requires Decoder(decode)
    ensures Resolve(decode, "x.md", "b.md") == Some(Place("b.md", "", ""))
    ensures Resolve(decode, "x.html", Rewrite(decode, cwd, map["b.md" := "a:b.html"], "x.md", "x.html", true, "b.md"))
            != Some(Place("a:b.html", "", ""))
  {
    UnplainNames();
    hide PlainHref, Resolve, Rewrite, Decoder;
    LinkStrays(decode, cwd, "a:b.html");
  }

  // ----- The outputs of a manifest -----

  /** One language of one page: a source and the output it is built to. */
  datatype Entry = Entry(source: string, output: string)

  predicate InsidePath(path: string) {
    path != "" && path[0] != '/' && ".." !in Split(path) && '\\' !in path
  }

  predicate Buildable(entries: seq<Entry>) {
    && (forall i | 0 <= i < |entries| :: InsidePath(entries[i].source) && InsidePath(entries[i].output))
    && (forall i, j | 0 <= i < j < |entries| :: entries[i].output != entries[j].output)
  }

  function TargetMap(entries: seq<Entry>): map<string, string> {
    if entries == [] then map[]
    else
      var n := |entries| - 1;
      TargetMap(entries[..n])[entries[n].source := entries[n].output]
  }

  function Outputs(entries: seq<Entry>): set<string> {
    set e <- entries :: e.output
  }

  /** Every source listed has a target, the output of its last entry, and no two sources share one. */
  lemma {:induction false} TargetsAreDistinct(entries: seq<Entry>)
    requires Buildable(entries)
    ensures var t := TargetMap(entries);
            && t.Keys == (set e <- entries :: e.source)
            && (forall s <- t :: Entry(s, t[s]) in entries)
            && (forall a, b | a in t && b in t && a != b :: t[a] != t[b])
    decreases |entries|
  {
    hide InsidePath;
    if entries != [] {
      var n := |entries| - 1;
      var before, e := entries[..n], entries[n];
      assert entries == before + [e];
      TargetsAreDistinct(before);
      var t := TargetMap(before);
      forall s <- t ensures t[s] != e.output {
        assert Entry(s, t[s]) in before;
        var i :| 0 <= i < n && before[i] == Entry(s, t[s]);
        assert entries[i] == before[i];
      }
    }
  }

  lemma OneMoreEntry(entries: seq<Entry>, n: nat)
    requires n < |entries| && Buildable(entries[..n])
    ensures entries[..n + 1][..n] == entries[..n]
        && Outputs(entries[..n + 1]) == Outputs(entries[..n]) + {entries[n].output}
    ensures Buildable(entries[..n + 1]) <==>
              InsidePath(entries[n].source) && InsidePath(entries[n].output)
                  && entries[n].output !in Outputs(entries[..n])
    ensures Buildable(entries) ==> Buildable(entries[..n + 1])
  {
    hide InsidePath;
    var before, after := entries[..n], entries[..n + 1];
    assert after == before + [entries[n]];
    if entries[n].output in Outputs(before) {
      var i :| 0 <= i < n && before[i].output == entries[n].output;
      assert after[i].output == after[n].output;
    }
  }

  /** The `targets` loop of `build`: an error for a path that leaves the tree or an output named twice. */
  method Targets(entries: seq<Entry>) returns (targets: Option<map<string, string>>)
    ensures targets == if Buildable(entries) then Some(TargetMap(entries)) else None
  {
    hide InsidePath, Buildable;
    var found: map<string, string> := map[];
    var seen: set<string> := {};
    assert Buildable(entries[..0]) by { NothingIsBuildable(); assert entries[..0] == []; }
    for n := 0 to |entries|
      invariant Buildable(entries[..n]) && seen == Outputs(entries[..n]) && found == TargetMap(entries[..n])
    {
      var e := entries[n];
      OneMoreEntry(entries, n);
      if !InsidePath(e.source) || !InsidePath(e.output) || e.output in seen {
        return None;
      }
      seen := seen + {e.output};
      found := found[e.source := e.output];
    }
    assert entries[..|entries|] == entries;
    targets := Some(found);
  }

  lemma NothingIsBuildable()
    ensures Buildable([])
  {
  }
}
