/** Copying a built stage into a checkout: the moves folder is replaced, the other pictures are written over. */
module ArtPromotion {

  type Path = seq<string>

  newtype Byte = x: int | 0 <= x < 256

  type Data = seq<Byte>

  /** Files by their path from the top, and the folders; a stage or a checkout. */
  datatype Disk = Disk(files: map<Path, Data>, dirs: set<Path>)

  function Moves(): Path {
    ["support", "gateway", "static", "moves"]
  }

  predicate Tidy(d: Disk) {
    && [] in d.dirs
    && (forall p :: p in d.files ==> p !in d.dirs && p != [] && p[..|p| - 1] in d.dirs)
    && (forall p :: p in d.dirs && p != [] ==> p[..|p| - 1] in d.dirs)
  }

  function Above(p: Path): set<Path> {
    set i | 0 <= i < |p| :: p[..i]
  }

  function AboveAll(s: set<Path>): set<Path> {
    set p, i | p in s && 0 <= i < |p| :: p[..i]
  }

  /** A direct child of the moves folder. */
  predicate InMoves(p: Path) {
    |p| == |Moves()| + 1 && p[..|Moves()|] == Moves()
  }

  datatype Kind = New | Changed | Removed

  datatype Change = Change(path: Path, kind: Kind)

  datatype Outcome = Done(changes: seq<Change>, same: nat) | Raised

  /** A checkout, changed in place. */
  class Tree {
    var files: map<Path, Data>
    var dirs: set<Path>

    function View(): Disk
      reads this
    {
      Disk(files, dirs)
    }

    method Unlink(p: Path)
      requires p in files
      modifies this
      ensures View() == Disk(old(files) - {p}, old(dirs))
    {
      files := files - {p};
    }

    /** All folders down to `p`; refused where one of them is a file. */
    method MakeDirs(p: Path) returns (ok: bool)
      modifies this
      ensures ok <==> (Above(p) + {p}) * old(files).Keys == {}
      ensures View() == if ok then Disk(old(files), old(dirs) + Above(p) + {p}) else old(View())
    {
      ok := (Above(p) + {p}) * files.Keys == {};
      if ok {
        dirs := dirs + Above(p) + {p};
      }
    }

    method WriteBytes(p: Path, data: Data) returns (ok: bool)
      modifies this
      ensures ok <==> p !in old(dirs)
      ensures View() == if ok then Disk(old(files)[p := data], old(dirs)) else old(View())
    {
      ok := p !in dirs;
      if ok {
        files := files[p := data];
      }
    }
  }

  // ----- What a promotion comes to -----

  /** A file of the moves folder whose name the stage's moves folder does not hold. */
  predicate Stale(stage: Disk, d: Disk, p: Path) {
    p in d.files && InMoves(p) && p !in stage.files && p !in stage.dirs
  }

  function StaleFiles(stage: Disk, d: Disk): set<Path> {
    set p | p in d.files && Stale(stage, d, p)
  }

  function Cleared(stage: Disk, d: Disk): Disk {
    d.(files := d.files - StaleFiles(stage, d))
  }

  function Promoted(stage: Disk, d: Disk): Disk {
    Disk((d.files - StaleFiles(stage, d)) + stage.files, d.dirs + AboveAll(stage.files.Keys))
  }

  /** Nothing is in the way of one staged file: no folder in its place, no file above it. */
  predicate FitsOne(d: Disk, p: Path) {
    p !in d.dirs && Above(p) * d.files.Keys == {}
  }

  predicate AllFit(stage: Disk, d: Disk) {
    forall p :: p in stage.files ==> FitsOne(d, p)
  }

  /** Nothing is in the way: the stage has a moves folder to replace one, and every staged file has its place. */
  predicate Fits(stage: Disk, d: Disk) {
    (Moves() in d.dirs ==> Moves() in stage.dirs) && AllFit(stage, d)
  }

  function Removals(stage: Disk, d: Disk, listing: seq<Path>): seq<Change> {
    if listing == [] then []
    else
      var p := listing[|listing| - 1];
      Removals(stage, d, listing[..|listing| - 1])
      + (if Stale(stage, d, p) then [Change(p, Removed)] else [])
  }

  predicate Same(stage: Disk, d: Disk, p: Path) {
    p in stage.files && p in d.files && stage.files[p] == d.files[p]
  }

  function Writes(stage: Disk, d: Disk, listing: seq<Path>): seq<Change> {
    if listing == [] then []
    else
      var p := listing[|listing| - 1];
      Writes(stage, d, listing[..|listing| - 1])
      + (if p in stage.files && !Same(stage, d, p) then [Change(p, if p in d.files then Changed else New)] else [])
  }

  function CountSame(stage: Disk, d: Disk, listing: seq<Path>): nat {
    if listing == [] then 0
    else
      CountSame(stage, d, listing[..|listing| - 1])
      + (if Same(stage, d, listing[|listing| - 1]) then 1 else 0)
  }

  ghost predicate Distinct(listing: seq<Path>) {
    forall i, j :: 0 <= i < j < |listing| ==> listing[i] != listing[j]
  }

  /** Everything of a set, once each, in some order. */
  ghost predicate Lists(listing: seq<Path>, s: set<Path>) {
    && (forall p :: p in listing <==> p in s)
    && Distinct(listing)
  }

  function Children(d: Disk): set<Path> {
    set p | p in d.files.Keys + d.dirs && InMoves(p)
  }

  /** Everything below the top of a stage. */
  function Entries(stage: Disk): set<Path> {
    stage.files.Keys + stage.dirs - {[]}
  }

  /** The part of the stage that a listing has reached. */
  function Reached(stage: Disk, listing: seq<Path>): map<Path, Data> {
    map p | p in stage.files && p in listing :: stage.files[p]
  }

  /** A file of the stage reached in its turn. */
  ghost function After(stage: Disk, base: Disk, listing: seq<Path>): Disk {
    Disk(base.files + Reached(stage, listing), base.dirs + AboveAll(Reached(stage, listing).Keys))
  }

  lemma ReachOne(stage: Disk, listing: seq<Path>, p: Path)
    ensures p in stage.files ==> Reached(stage, listing + [p]) == Reached(stage, listing)[p := stage.files[p]]
    ensures p !in stage.files ==> Reached(stage, listing + [p]) == Reached(stage, listing)
  {
  }

  lemma AboveOneMore(s: set<Path>, p: Path)
    ensures AboveAll(s + {p}) == AboveAll(s) + Above(p)
  {
    forall q | q in AboveAll(s) + Above(p) ensures q in AboveAll(s + {p}) {
      if q in Above(p) {
        var i :| 0 <= i < |p| && q == p[..i];
        assert p in s + {p};
      }
    }
  }

  lemma {:induction false} AncestorsAreFolders(d: Disk, p: Path)
    requires Tidy(d) && (p in d.files || p in d.dirs)
    ensures Above(p) <= d.dirs
    decreases |p|
  {
    if p != [] {
      var parent := p[..|p| - 1];
      AncestorsAreFolders(d, parent);
      forall i | 0 <= i < |p| ensures p[..i] in d.dirs {
        if i < |p| - 1 { assert p[..i] == parent[..i]; }
      }
    }
  }

  lemma ParentsOf(p: Path)
    requires p != []
    ensures Above(p[..|p| - 1]) + {p[..|p| - 1]} == Above(p)
  {
    var parent := p[..|p| - 1];
    forall i | 0 <= i < |p| - 1 ensures p[..i] == parent[..i] {}
    forall q | q in Above(p) ensures q in Above(parent) + {parent} {
      var i :| 0 <= i < |p| && q == p[..i];
      if i < |p| - 1 { assert q == parent[..i]; }
    }
    forall q | q in Above(parent) ensures q in Above(p) {
      var i :| 0 <= i < |parent| && q == parent[..i];
      assert q == p[..i];
    }
  }

  /** What stands in the way of a staged file in the middle of the run stood there at its start. */
  lemma WayIsUnchanged(stage: Disk, d: Disk, listing: seq<Path>, p: Path)
    requires Tidy(stage) && Tidy(d)
    requires p in stage.files && p !in listing
    ensures var now := After(stage, Cleared(stage, d), listing);
      && (p in now.files <==> p in d.files)
      && (p in d.files ==> now.files[p] == d.files[p])
      && (Above(p) * now.files.Keys == {} <==> Above(p) * d.files.Keys == {})
      && (p in now.dirs + Above(p) <==> p in d.dirs)
  {
    AncestorsAreFolders(stage, p);
    var now := After(stage, Cleared(stage, d), listing);
    forall q | q in Above(p) ensures q in now.files <==> q in d.files {
      assert q in stage.dirs;
    }
    forall q | q in Reached(stage, listing) ensures p !in Above(q) {
      AncestorsAreFolders(stage, q);
    }
  }

  lemma FileIsInPlace(d: Disk, p: Path)
    requires Tidy(d) && p in d.files
    ensures Above(p) <= d.dirs && FitsOne(d, p)
  {
    AncestorsAreFolders(d, p);
  }

  lemma NotTheTop(d: Disk, p: Path)
    requires Tidy(d) && p in d.files
    ensures p != []
  {
  }

  lemma AfterWritten(stage: Disk, base: Disk, listing: seq<Path>, p: Path)
    requires p in stage.files
    ensures var now := After(stage, base, listing);
            After(stage, base, listing + [p]) == Disk(now.files[p := stage.files[p]], now.dirs + Above(p))
  {
    ReachOne(stage, listing, p);
    assert Reached(stage, listing + [p]).Keys == Reached(stage, listing).Keys + {p};
    AboveOneMore(Reached(stage, listing).Keys, p);
  }

  lemma AfterSame(stage: Disk, d: Disk, listing: seq<Path>, p: Path)
    requires Tidy(stage) && Tidy(d) && Same(stage, d, p) && p !in listing
    ensures After(stage, Cleared(stage, d), listing + [p]) == After(stage, Cleared(stage, d), listing)
  {
    hide After, StaleFiles;
    AfterWritten(stage, Cleared(stage, d), listing, p);
    WayIsUnchanged(stage, d, listing, p);
    FileIsInPlace(d, p);
    var now := After(stage, Cleared(stage, d), listing);
    assert d.dirs <= now.dirs by { FoldersStay(stage, d, listing); }
    assert now.files[p := stage.files[p]] == now.files;
  }

  lemma FoldersStay(stage: Disk, d: Disk, listing: seq<Path>)
    ensures d.dirs <= After(stage, Cleared(stage, d), listing).dirs
  {
  }

  /** One turn of the copying loop: the file is the same, is written, or something is in its way. */
  method CopyOne(stage: Disk, root: Tree, p: Path, ghost d: Disk, ghost listing: seq<Path>)
    returns (ok: bool, change: seq<Change>)
    requires Tidy(stage) && Tidy(d) && p in stage.files && p !in listing
    requires root.View() == After(stage, Cleared(stage, d), listing)
    modifies root
    ensures ok <==> FitsOne(d, p)
    ensures ok ==> root.View() == After(stage, Cleared(stage, d), listing + [p])
    ensures ok ==> change == if Same(stage, d, p) then [] else [Change(p, if p in d.files then Changed else New)]
    ensures !ok ==> root.files == old(root.files)
  {
    hide After, Above, Cleared, Tidy;
    WayIsUnchanged(stage, d, listing, p);
    NotTheTop(stage, p);
    ParentsOf(p);
    AfterWritten(stage, Cleared(stage, d), listing, p);
    var data := stage.files[p];
    if p in root.files && root.files[p] == data {
      FileIsInPlace(d, p);
      AfterSame(stage, d, listing, p);
      return true, [];
    }
    change := [Change(p, if p in root.files then Changed else New)];
    ok := root.MakeDirs(p[..|p| - 1]);
    if ok {
      ok := root.WriteBytes(p, data);
    }
  }

  /** The files of the moves folder whose names are not kept, removed one by one in the order they are listed in. */
  method ClearMoves(stage: Disk, root: Tree, names: seq<Path>) returns (changes: seq<Change>)
    requires Lists(names, Children(root.View()))
    modifies root
    ensures root.View() == Cleared(stage, old(root.View()))
    ensures changes == Removals(stage, old(root.View()), names)
  {
    hide Children, InMoves, Moves;
    changes := [];
    ghost var d := root.View();
    var i := 0;
    assert names[..0] == [];
    while i < |names|
      invariant 0 <= i <= |names|
      invariant root.View() == d.(files := d.files - (StaleFiles(stage, d) * set p | p in names[..i]))
      invariant changes == Removals(stage, d, names[..i])
    {
      var p := names[i];
      assert names[..i + 1][..i] == names[..i];
      assert p in d.files.Keys + d.dirs && InMoves(p) by { ChildIsInMoves(d, names, p); }
      if p in root.files && p !in stage.files && p !in stage.dirs {
        root.Unlink(p);
        changes := changes + [Change(p, Removed)];
      }
      i := i + 1;
    }
    assert names[..|names|] == names;
    StaleAreChildren(stage, d);
    assert StaleFiles(stage, d) * (set p | p in names) == StaleFiles(stage, d);
  }

  lemma ChildIsInMoves(d: Disk, names: seq<Path>, p: Path)
    requires Lists(names, Children(d)) && p in names
    ensures p in d.files.Keys + d.dirs && InMoves(p)
  {
    hide InMoves;
  }

  lemma StaleAreChildren(stage: Disk, d: Disk)
    ensures StaleFiles(stage, d) <= Children(d)
  {
    hide InMoves;
  }

  lemma MovesIsAbove(p: Path)
    requires InMoves(p)
    ensures p != [] && p[..|p| - 1] == Moves()
  {
  }

  /** Without a moves folder there is nothing in it to remove. */
  lemma {:induction false} NothingToClear(stage: Disk, d: Disk, names: seq<Path>)
    requires Tidy(d) && Moves() !in d.dirs
    ensures Cleared(stage, d) == d
    ensures Removals(stage, d, names) == []
    decreases |names|
  {
    hide Moves, InMoves;
    forall p | p in d.files ensures !InMoves(p) {
      if InMoves(p) { MovesIsAbove(p); assert false; }
    }
    assert StaleFiles(stage, d) == {};
    if names != [] { NothingToClear(stage, d, names[..|names| - 1]); }
  }

  lemma AllReached(stage: Disk, d: Disk, entries: seq<Path>)
    requires Tidy(stage) && Lists(entries, Entries(stage))
    ensures Reached(stage, entries) == stage.files
    ensures After(stage, Cleared(stage, d), entries) == Promoted(stage, d)
  {
    forall p | p in stage.files ensures p in entries { NotTheTop(stage, p); }
  }

  lemma NotListedYet(listing: seq<Path>, s: set<Path>, j: nat)
    requires j < |listing| && Lists(listing, s)
    ensures listing[..j + 1] == listing[..j] + [listing[j]] && listing[..j + 1][..j] == listing[..j]
    ensures listing[j] !in listing[..j]
  {
  }

  lemma NothingReached(stage: Disk, d: Disk)
    ensures After(stage, Cleared(stage, d), []) == Cleared(stage, d)
  {
    assert Reached(stage, []) == map[];
  }

  lemma NotReached(stage: Disk, d: Disk, listing: seq<Path>, p: Path)
    requires p !in stage.files
    ensures After(stage, Cleared(stage, d), listing + [p]) == After(stage, Cleared(stage, d), listing)
  {
    ReachOne(stage, listing, p);
  }

  /** The files of a listing that are reached fit. */
  predicate FitSoFar(stage: Disk, d: Disk, listing: seq<Path>, n: nat)
    requires n <= |listing|
  {
    forall i :: 0 <= i < n && listing[i] in stage.files ==> FitsOne(d, listing[i])
  }

  lemma OneMoreFits(stage: Disk, d: Disk, listing: seq<Path>, n: nat)
    requires n < |listing| && FitSoFar(stage, d, listing, n)
    requires listing[n] in stage.files ==> FitsOne(d, listing[n])
    ensures FitSoFar(stage, d, listing, n + 1)
  {
    hide FitsOne;
  }

  lemma OneDoesNotFit(stage: Disk, d: Disk, p: Path)
    requires p in stage.files && !FitsOne(d, p)
    ensures !AllFit(stage, d)
  {
    hide FitsOne;
  }

  lemma AllHaveFit(stage: Disk, d: Disk, entries: seq<Path>)
    requires Tidy(stage) && Lists(entries, Entries(stage))
    requires FitSoFar(stage, d, entries, |entries|)
    ensures AllFit(stage, d)
  {
    hide FitsOne;
    forall p | p in stage.files ensures FitsOne(d, p) {
      NotTheTop(stage, p);
      assert p in Entries(stage);
      assert p in entries;
    }
  }

  lemma OneMoreSaid(stage: Disk, d: Disk, listing: seq<Path>, p: Path)
    ensures var more := if Same(stage, d, p) then [] else [Change(p, if p in d.files then Changed else New)];
      && Writes(stage, d, listing + [p]) == Writes(stage, d, listing) + (if p in stage.files then more else [])
      && CountSame(stage, d, listing + [p])
         == CountSame(stage, d, listing) + (if p in stage.files && more == [] then 1 else 0)
  {
    assert (listing + [p])[..|listing|] == listing;
  }

  /** The loop has reached entry `j`: the checkout, the list of changes and the count. */
  ghost predicate Stands(stage: Disk, d: Disk, entries: seq<Path>, j: nat, now: Disk, changes: seq<Change>, same: nat)
    requires j <= |entries|
  {
    && now == After(stage, Cleared(stage, d), entries[..j])
    && changes == Writes(stage, d, entries[..j])
    && same == CountSame(stage, d, entries[..j])
    && FitSoFar(stage, d, entries, j)
  }

  lemma StandsAtTheStart(stage: Disk, d: Disk, entries: seq<Path>)
    ensures Stands(stage, d, entries, 0, Cleared(stage, d), [], 0)
  {
    assert entries[..0] == [];
    NothingReached(stage, d);
  }

  lemma StandsAtTheEnd(stage: Disk, d: Disk, entries: seq<Path>, now: Disk, changes: seq<Change>, same: nat)
    requires Tidy(stage) && Lists(entries, Entries(stage))
    requires Stands(stage, d, entries, |entries|, now, changes, same)
    ensures now == Promoted(stage, d) && AllFit(stage, d)
    ensures changes == Writes(stage, d, entries) && same == CountSame(stage, d, entries)
  {
    hide After, Cleared, Promoted, AllFit, FitSoFar, Entries, Lists;
    assert entries[..|entries|] == entries;
    AllReached(stage, d, entries);
    AllHaveFit(stage, d, entries);
  }

  /** One turn of the copying loop. */
  method Turn(stage: Disk, root: Tree, entries: seq<Path>, j: nat, changes: seq<Change>, same: nat, ghost d: Disk)
    returns (ok: bool, moreChanges: seq<Change>, moreSame: nat)
    requires Tidy(stage) && Tidy(d) && Lists(entries, Entries(stage)) && j < |entries|
    requires Stands(stage, d, entries, j, root.View(), changes, same)
    modifies root
    ensures ok ==> Stands(stage, d, entries, j + 1, root.View(), moreChanges, moreSame)
    ensures !ok ==> !AllFit(stage, d) && root.files == After(stage, Cleared(stage, d), entries[..j]).files
  {
    hide After, Cleared, Tidy, FitsOne, AllFit, FitSoFar, Entries, Same, Lists;
    var p := entries[j];
    NotListedYet(entries, Entries(stage), j);
    ok, moreChanges, moreSame := true, changes, same;
    if p in stage.files {
      var change: seq<Change>;
      ok, change := CopyOne(stage, root, p, d, entries[..j]);
      if !ok {
        OneDoesNotFit(stage, d, p);
        return;
      }
      moreChanges := changes + change;
      moreSame := same + (if change == [] then 1 else 0);
    } else {
      NotReached(stage, d, entries[..j], p);
    }
    OneMoreSaid(stage, d, entries[..j], p);
    OneMoreFits(stage, d, entries, j);
  }

  /** The copying loop, over a checkout whose moves folder is cleared; `stopped` is where something was in the way. */
  method CopyStage(stage: Disk, root: Tree, entries: seq<Path>, ghost d: Disk)
    returns (ok: bool, changes: seq<Change>, same: nat, ghost stopped: nat)
    requires Tidy(stage) && Tidy(d) && root.View() == Cleared(stage, d)
    requires Lists(entries, Entries(stage))
    modifies root
    ensures ok <==> AllFit(stage, d)
    ensures ok ==> root.View() == Promoted(stage, d)
    ensures ok ==> changes == Writes(stage, d, entries) && same == CountSame(stage, d, entries)
    ensures !ok ==> stopped < |entries| && root.files == After(stage, Cleared(stage, d), entries[..stopped]).files
  {
    hide After, Cleared, Tidy, AllFit, Promoted, Lists, Entries, Writes, CountSame, Stands;
    StandsAtTheStart(stage, d, entries);
    ok, changes, same, stopped := true, [], 0, 0;
    var j := 0;
    while j < |entries|
      invariant 0 <= j <= |entries|
      invariant ok && Stands(stage, d, entries, j, root.View(), changes, same)
    {
      stopped := j;
      ok, changes, same := Turn(stage, root, entries, j, changes, same, d);
      if !ok {
        return;
      }
      j := j + 1;
    }
    StandsAtTheEnd(stage, d, entries, root.View(), changes, same);
  }

  /** Ends well exactly where nothing is in the way. */
  method Promote(stage: Disk, root: Tree, names: seq<Path>, entries: seq<Path>) returns (r: Outcome)
    requires Tidy(stage) && Tidy(root.View())
    requires Lists(names, Children(root.View()))
    requires Lists(entries, Entries(stage))
    modifies root
    ensures r.Done? <==> Fits(stage, old(root.View()))
    ensures r.Done? ==> root.View() == Promoted(stage, old(root.View()))
    ensures r.Done? ==> r.changes == Removals(stage, old(root.View()), names) + Writes(stage, old(root.View()), entries)
    ensures r.Done? ==> r.same == CountSame(stage, old(root.View()), entries)
    ensures r.Raised? ==>
      root.files == old(root.files)
      || exists j ::
           0 <= j < |entries| && root.files == After(stage, Cleared(stage, old(root.View())), entries[..j]).files
  {
    hide Children, Moves, Cleared, Tidy, AllFit, Removals, Promoted, After, Writes, CountSame, Lists;
    ghost var d := root.View();
    var removals: seq<Change> := [];
    if Moves() in root.dirs {
      if Moves() !in stage.dirs {
        return Raised;
      }
      removals := ClearMoves(stage, root, names);
    } else {
      NothingToClear(stage, d, names);
    }
    var ok, changes, same, stopped := CopyStage(stage, root, entries, d);
    r := if ok then Done(removals + changes, same) else Raised;
  }

  // ----- What a promotion is good for -----

  /** Every staged file is in the checkout byte for byte; no other path changes but for the stale files. */
  lemma StageArrives(stage: Disk, d: Disk, p: Path)
    ensures p in stage.files ==> p in Promoted(stage, d).files && Promoted(stage, d).files[p] == stage.files[p]
    ensures p !in stage.files && !(InMoves(p) && p in d.files) ==>
      (p in Promoted(stage, d).files <==> p in d.files)
      && (p in d.files ==> Promoted(stage, d).files[p] == d.files[p])
  {
    hide InMoves;
  }

  /** The moves folder's direct files are exactly the staged ones, unless a file there has the name of a staged folder:
      such a file counts as kept and stays. */
  lemma MovesAreReplacedIff(stage: Disk, d: Disk)
    requires Tidy(stage) && Tidy(d)
    ensures (forall p :: InMoves(p) ==> (p in Promoted(stage, d).files <==> p in stage.files))
            <==> (forall p :: p in d.files && InMoves(p) ==> p !in stage.dirs)
  {
    hide InMoves;
    forall p | InMoves(p) && p !in stage.files
      ensures p in Promoted(stage, d).files <==> p in d.files && p in stage.dirs
    {
      assert p in StaleFiles(stage, d) <==> p in d.files && p !in stage.dirs;
    }
  }

  lemma WayDown(p: Path)
    ensures forall q :: q in Above(p) + {p} && q != [] ==> q[..|q| - 1] in Above(p)
    ensures [] in Above(p) + {p}
  {
    forall q | q in Above(p) + {p} && q != [] ensures q[..|q| - 1] in Above(p) {
      assert q == p[..|q|];
      assert q[..|q| - 1] == p[..|q| - 1];
    }
    if p != [] { assert p[..0] == []; }
  }

  /** A stage with an empty folder where the checkout's moves folder has a file: the promotion ends well, the file
      stays. */
  lemma AFolderKeepsAFile(name: string)
    ensures var p := Moves() + [name];
      var dirs := Above(Moves()) + {Moves()};
      var stage, d := Disk(map[], dirs + {p}), Disk(map[p := []], dirs);
      && Tidy(stage) && Tidy(d) && Fits(stage, d)
      && InMoves(p) && p in Promoted(stage, d).files && p !in stage.files
  {
    hide Moves, Tidy, InMoves, StaleFiles;
    var p := Moves() + [name];
    assert p[..|p| - 1] == Moves() && p[..|Moves()|] == Moves();
    OneFileIsTidy(p, Moves());
    var dirs := Above(Moves()) + {Moves()};
    var stage, d := Disk(map[], dirs + {p}), Disk(map[p := []], dirs);
    BelowMoves(name);
    NamedFilesStay(stage, d, p);
  }

  lemma BelowMoves(name: string)
    ensures InMoves(Moves() + [name])
  {
    hide Moves;
  }

  lemma OneFileIsTidy(p: Path, parent: Path)
    requires p != [] && p[..|p| - 1] == parent
    ensures Tidy(Disk(map[], Above(parent) + {parent} + {p}))
    ensures Tidy(Disk(map[p := []], Above(parent) + {parent}))
  {
    WayDown(parent);
  }

  lemma NamedFilesStay(stage: Disk, d: Disk, p: Path)
    requires p in d.files && p in stage.dirs
    ensures p in Promoted(stage, d).files
  {
    hide InMoves;
  }

  lemma PromotedAbove(stage: Disk, d: Disk, p: Path)
    requires Tidy(stage) && Tidy(d) && Fits(stage, d) && p in stage.files
    ensures p !in Promoted(stage, d).dirs && Above(p) <= Promoted(stage, d).dirs
    ensures Above(p) * Promoted(stage, d).files.Keys == {}
  {
    hide StaleFiles;
    assert FitsOne(d, p);
    AncestorsAreFolders(stage, p);
    forall q | q in stage.files ensures p !in Above(q) { AncestorsAreFolders(stage, q); }
  }

  /** The checkout is a tree again. */
  lemma PromotedIsTidy(stage: Disk, d: Disk)
    requires Tidy(stage) && Tidy(d) && Fits(stage, d)
    ensures Tidy(Promoted(stage, d))
  {
    var now := Promoted(stage, d);
    hide StaleFiles, Moves, Above;
    forall p | p in now.files ensures p !in now.dirs && p != [] && p[..|p| - 1] in now.dirs {
      if p in stage.files { StagedIsPlaced(stage, d, p); } else { OldIsPlaced(stage, d, p); }
    }
    forall p | p in now.dirs && p != [] ensures p[..|p| - 1] in now.dirs {
      if p !in d.dirs { NewFolderIsPlaced(stage, d, p); }
    }
  }

  lemma StagedIsPlaced(stage: Disk, d: Disk, p: Path)
    requires Tidy(stage) && Tidy(d) && Fits(stage, d) && p in stage.files
    ensures var now := Promoted(stage, d); p !in now.dirs && p != [] && p[..|p| - 1] in now.dirs
  {
    PromotedAbove(stage, d, p);
    NotTheTop(stage, p);
    assert p[..|p| - 1] in Above(p);
  }

  lemma OldIsPlaced(stage: Disk, d: Disk, p: Path)
    requires Tidy(stage) && Tidy(d) && Fits(stage, d) && p in d.files
    ensures var now := Promoted(stage, d); p !in now.dirs && p != [] && p[..|p| - 1] in now.dirs
  {
    hide StaleFiles, Moves;
    forall q | q in stage.files ensures p !in Above(q) {
      assert FitsOne(d, q);
      assert p in Above(q) * d.files.Keys <==> p in Above(q);
    }
  }

  lemma NewFolderIsPlaced(stage: Disk, d: Disk, p: Path)
    requires p in AboveAll(stage.files.Keys) && p != []
    ensures p[..|p| - 1] in Promoted(stage, d).dirs
  {
    hide StaleFiles, Moves;
    var q, i :| q in stage.files.Keys && 0 <= i < |q| && p == q[..i];
    assert p[..|p| - 1] == q[..i - 1];
  }

  /** How a file differs between two states of the checkout. */
  predicate Differs(before: Disk, after: Disk, p: Path, kind: Kind) {
    match kind
    case New => p !in before.files && p in after.files
    case Removed => p in before.files && p !in after.files
    case Changed => p in before.files && p in after.files && before.files[p] != after.files[p]
  }

  lemma {:induction false} RemovalsSay(stage: Disk, d: Disk, names: seq<Path>)
    ensures forall change :: change in Removals(stage, d, names) <==>
              change.kind == Removed && change.path in names && Stale(stage, d, change.path)
    decreases |names|
  {
    hide Stale;
    if names != [] {
      var p := names[|names| - 1];
      RemovalsSay(stage, d, names[..|names| - 1]);
      assert names == names[..|names| - 1] + [p];
    }
  }

  lemma {:induction false} WritesSay(stage: Disk, d: Disk, entries: seq<Path>)
    ensures forall change :: change in Writes(stage, d, entries) <==>
              change.path in entries && change.path in stage.files && !Same(stage, d, change.path)
              && change.kind == (if change.path in d.files then Changed else New)
    decreases |entries|
  {
    hide Same;
    if entries != [] {
      var p := entries[|entries| - 1];
      WritesSay(stage, d, entries[..|entries| - 1]);
      assert entries == entries[..|entries| - 1] + [p];
    }
  }

  /** The list of changes says of every path exactly how it differs, whatever order the folders are listed in. */
  lemma ChangesSayAll(stage: Disk, d: Disk, names: seq<Path>, entries: seq<Path>, change: Change)
    requires Tidy(stage) && Lists(names, Children(d)) && Lists(entries, Entries(stage))
    ensures change in Removals(stage, d, names) + Writes(stage, d, entries)
            <==> Differs(d, Promoted(stage, d), change.path, change.kind)
  {
    hide InMoves, Moves;
    RemovalsSay(stage, d, names);
    WritesSay(stage, d, entries);
    var p := change.path;
    if p in stage.files { NotTheTop(stage, p); }
    StaleAreChildren(stage, d);
    assert Stale(stage, d, p) <==> p in StaleFiles(stage, d);
  }

  lemma MovesAreStaged(stage: Disk, d: Disk)
    requires Tidy(stage) && Fits(stage, d)
    ensures Moves() in Promoted(stage, d).dirs ==> Moves() in stage.dirs
  {
    hide Moves, StaleFiles;
    if Moves() in AboveAll(stage.files.Keys) {
      var q, i :| q in stage.files.Keys && 0 <= i < |q| && Moves() == q[..i];
      AncestorsAreFolders(stage, q);
    }
  }

  lemma StageFitsAgain(stage: Disk, d: Disk)
    requires Tidy(stage) && Tidy(d) && Fits(stage, d)
    ensures AllFit(stage, Promoted(stage, d)) && Fits(stage, Promoted(stage, d))
  {
    hide Above, Promoted, Moves;
    forall p | p in stage.files ensures FitsOne(Promoted(stage, d), p) { PromotedAbove(stage, d, p); }
    MovesAreStaged(stage, d);
  }

  lemma NothingIsStaleAgain(stage: Disk, d: Disk)
    ensures StaleFiles(stage, Promoted(stage, d)) == {}
  {
    hide InMoves;
    var now := Promoted(stage, d);
    forall p | p in now.files ensures !Stale(stage, now, p) {
      assert Stale(stage, d, p) ==> p in StaleFiles(stage, d);
    }
  }

  lemma PromotedTwice(stage: Disk, d: Disk)
    requires StaleFiles(stage, Promoted(stage, d)) == {}
    ensures Promoted(stage, Promoted(stage, d)) == Promoted(stage, d)
    ensures forall p :: p in stage.files ==> Same(stage, Promoted(stage, d), p)
  {
    hide StaleFiles;
  }

  /** Where nothing is stale and every staged file is the same, a run reports nothing but sames. */
  lemma {:induction false} NothingToSay(stage: Disk, d: Disk, listing: seq<Path>)
    requires StaleFiles(stage, d) == {} && forall p :: p in stage.files ==> Same(stage, d, p)
    ensures Removals(stage, d, listing) == [] && Writes(stage, d, listing) == []
    decreases |listing|
  {
    hide Same, InMoves;
    if listing != [] {
      NothingToSay(stage, d, listing[..|listing| - 1]);
      var p := listing[|listing| - 1];
      assert Stale(stage, d, p) ==> p in StaleFiles(stage, d);
    }
  }

  /** A second promotion fits again, changes nothing and reports no change, in whatever order it goes. */
  lemma SecondRunChangesNothing(stage: Disk, d: Disk, names: seq<Path>, entries: seq<Path>)
    requires Tidy(stage) && Tidy(d) && Fits(stage, d)
    ensures var now := Promoted(stage, d);
      && Fits(stage, now) && Promoted(stage, now) == now
      && Removals(stage, now, names) == [] && Writes(stage, now, entries) == []
  {
    hide StaleFiles, Promoted, Fits, Tidy, Same;
    var now := Promoted(stage, d);
    StageFitsAgain(stage, d);
    NothingIsStaleAgain(stage, d);
    PromotedTwice(stage, d);
    NothingToSay(stage, now, names);
    NothingToSay(stage, now, entries);
  }

  /** The members of a set that a listing has reached. */
  function Met(listing: seq<Path>, s: set<Path>): set<Path> {
    set p | p in s && p in listing
  }

  lemma MeetOne(listing: seq<Path>, s: set<Path>, p: Path)
    requires p !in listing
    ensures |Met(listing + [p], s)| == |Met(listing, s)| + (if p in s then 1 else 0)
  {
    if p in s {
      assert Met(listing + [p], s) == Met(listing, s) + {p};
    } else {
      assert Met(listing + [p], s) == Met(listing, s);
    }
  }

  lemma {:induction false} WritesAndSames(stage: Disk, d: Disk, entries: seq<Path>)
    requires Distinct(entries)
    ensures |Writes(stage, d, entries)| + CountSame(stage, d, entries) == |Met(entries, stage.files.Keys)|
    decreases |entries|
  {
    if entries != [] {
      var front, p := entries[..|entries| - 1], entries[|entries| - 1];
      assert entries == front + [p];
      WritesAndSames(stage, d, front);
      MeetOne(front, stage.files.Keys, p);
    } else {
      assert Met([], stage.files.Keys) == {};
    }
  }

  lemma {:induction false} RemovalsCount(stage: Disk, d: Disk, names: seq<Path>)
    requires Distinct(names)
    ensures |Removals(stage, d, names)| == |Met(names, StaleFiles(stage, d))|
    decreases |names|
  {
    hide InMoves;
    if names != [] {
      var front, p := names[..|names| - 1], names[|names| - 1];
      assert names == front + [p];
      RemovalsCount(stage, d, front);
      MeetOne(front, StaleFiles(stage, d), p);
      assert p in StaleFiles(stage, d) <==> Stale(stage, d, p);
    } else {
      assert Met([], StaleFiles(stage, d)) == {};
    }
  }

  /** Every staged file and every stale file is reported once: as a change, or in the count of the same ones. */
  lemma ReportAddsUp(stage: Disk, d: Disk, names: seq<Path>, entries: seq<Path>)
    requires Tidy(stage) && Lists(names, Children(d)) && Lists(entries, Entries(stage))
    ensures |Removals(stage, d, names) + Writes(stage, d, entries)| + CountSame(stage, d, entries)
            == |StaleFiles(stage, d)| + |stage.files|
  {
    hide InMoves, Tidy;
    WritesAndSames(stage, d, entries);
    RemovalsCount(stage, d, names);
    StaleAreChildren(stage, d);
    assert Met(names, StaleFiles(stage, d)) == StaleFiles(stage, d);
    forall p | p in stage.files ensures p in entries { NotTheTop(stage, p); }
    assert Met(entries, stage.files.Keys) == stage.files.Keys;
    assert |stage.files.Keys| == |stage.files|;
  }
}
