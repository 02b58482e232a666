/** The recency scan shared by both storage classes: a descent of
    `depth` levels of integer-named directories, newest name first, that
    collects the newest `.json` files of the leaf directories and stops as
    soon as `limit` files have been collected. */
module RecencyScan {
  import opened Base
  import opened Text
  import opened Sorting
  import opened FileSystem

  /** The year, month and day levels under a type's base directory. */
  const SearchDepth: nat := 3

  const ContentSuffix: string := ".json"

  /** Why a scan fails; each storage class reports these as its own exceptions. */
  datatype ScanError =
    | ListingFailed           // Files.list threw an IOException
    | DirNameNotInteger       // Integer.valueOf threw inside the directory comparator
    | CreationTimeUnreadable  // readAttributes threw inside the file comparator

  /** The entries `Files.isDirectory` accepts, in listing order. */
  function SubDirectories(entries: seq<Node>): seq<Node>
  {
    if entries == [] then []
    else if entries[0].Dir? then [entries[0]] + SubDirectories(entries[1..])
    else SubDirectories(entries[1..])
  }

  /** The filter keeps exactly the directories. */
  lemma {:induction false} SubDirectoriesSpec(entries: seq<Node>)
    ensures forall d :: d in SubDirectories(entries) <==> d in entries && d.Dir?
  {
    if entries != [] {
      SubDirectoriesSpec(entries[1..]);
      assert entries == [entries[0]] + entries[1..];
    }
  }

  predicate IsContentFile(e: Node)
  {
    e.File? && EndsWith(e.name, ContentSuffix)
  }

  /** The entries that are not directories and whose name ends in ".json". */
  function ContentFiles(entries: seq<Node>): seq<Node>
  {
    if entries == [] then []
    else if IsContentFile(entries[0]) then [entries[0]] + ContentFiles(entries[1..])
    else ContentFiles(entries[1..])
  }

  /** The filter keeps exactly the content files. */
  lemma {:induction false} ContentFilesSpec(entries: seq<Node>)
    ensures forall f :: f in ContentFiles(entries) <==> f in entries && IsContentFile(f)
  {
    if entries != [] {
      ContentFilesSpec(entries[1..]);
      assert entries == [entries[0]] + entries[1..];
    }
  }

  /** The sort key of a directory: its name as an integer. The comparator
      only runs when there are two directories or more, and then every name
      parses, so the default never takes part in a comparison. */
  function DirNumber(d: Node): int
  {
    match ParseInt(d.name)
    case Some(v) => v
    case None => 0
  }

  /** The sort key of a file: its creation time, under the same proviso. */
  function CreationTime(f: Node): int
  {
    if f.File? && f.ctime.Some? then f.ctime.value else 0
  }

  predicate Listable(n: Node)
  {
    n.Dir? && n.listable
  }

  /** Some directory name is not an integer, so the comparator throws. */
  predicate SomeNameNotInteger(ds: seq<Node>)
  {
    ds != [] && (ParseInt(ds[0].name).None? || SomeNameNotInteger(ds[1..]))
  }

  lemma {:induction false} SomeNameNotIntegerMeans(ds: seq<Node>)
    ensures SomeNameNotInteger(ds) <==> exists d :: d in ds && ParseInt(d.name).None?
  {
    if ds != [] {
      SomeNameNotIntegerMeans(ds[1..]);
      assert ds == [ds[0]] + ds[1..];
    }
  }

  /** `readAttributes` cannot report the creation time of `f`. */
  predicate NoCreationTime(f: Node)
  {
    !(f.File? && f.ctime.Some?)
  }

  /** Some creation time cannot be read, so the comparator throws. */
  predicate SomeCreationTimeMissing(fs: seq<Node>)
  {
    fs != [] && (NoCreationTime(fs[0]) || SomeCreationTimeMissing(fs[1..]))
  }

  lemma {:induction false} SomeCreationTimeMissingMeans(fs: seq<Node>)
    ensures SomeCreationTimeMissing(fs) <==> exists f :: f in fs && NoCreationTime(f)
  {
    if fs != [] {
      SomeCreationTimeMissingMeans(fs[1..]);
      assert fs == [fs[0]] + fs[1..];
    }
  }

  /** `getDirectories` / `toList`: the subdirectories of `n`, largest number
      first. The comparator parses both names it compares, and with two
      directories or more every directory is compared at least once. */
  function ListDirectories(n: Node): (r: Result<seq<Node>, ScanError>)
    ensures r.Err? ==> r.error == ListingFailed || r.error == DirNameNotInteger
    ensures r.Ok? ==> n.Dir? && |r.value| == |SubDirectories(n.children)|
  {
    if !Listable(n) then Err(ListingFailed)
    else
      var ds := SubDirectories(n.children);
      SortDescSpec(ds, DirNumber);
      if |ds| >= 2 && SomeNameNotInteger(ds) then Err(DirNameNotInteger)
      else Ok(SortDesc(ds, DirNumber))
  }

  /** What `getDirectories` promises: a listing failure exactly when the
      directory cannot be listed; a NumberFormatException exactly when there
      are two subdirectories or more and one name is not an integer;
      otherwise every subdirectory of `n` once, in descending order of the
      number its name denotes, every name an integer when there are two or
      more. */
  lemma ListDirectoriesSpec(n: Node)
    ensures ListDirectories(n) == Err(ListingFailed) <==> !Listable(n)
    ensures ListDirectories(n) == Err(DirNameNotInteger) <==>
      Listable(n) && |SubDirectories(n.children)| >= 2 &&
      exists d :: d in n.children && d.Dir? && ParseInt(d.name).None?
    ensures ListDirectories(n).Ok? ==> SortedDesc(ListDirectories(n).value, DirNumber)
    ensures ListDirectories(n).Ok? ==>
      multiset(ListDirectories(n).value) == multiset(SubDirectories(n.children))
    ensures ListDirectories(n).Ok? ==> forall d :: d in ListDirectories(n).value <==> d in n.children && d.Dir?
    ensures ListDirectories(n).Ok? && |ListDirectories(n).value| >= 2 ==>
      forall i :: 0 <= i < |ListDirectories(n).value| ==>
        ParseInt(ListDirectories(n).value[i].name) == Some(DirNumber(ListDirectories(n).value[i]))
  {
    if Listable(n) {
      var ds := SubDirectories(n.children);
      SubDirectoriesSpec(n.children);
      SomeNameNotIntegerMeans(ds);
      SortDescSpec(ds, DirNumber);
      var sorted := SortDesc(ds, DirNumber);
      forall d ensures d in sorted <==> d in ds {
        assert d in sorted <==> d in multiset(sorted);
        assert d in ds <==> d in multiset(ds);
      }
    }
  }

  /** Directory names compare as numbers, not as strings: "10" is listed
      before "9", where a string order would put "9" first. */
  lemma NamesSortAsNumbers()
    ensures ListDirectories(Dir("11", true, [Dir("9", true, []), Dir("10", true, [])])) ==
      Ok([Dir("10", true, []), Dir("9", true, [])])
  {
    assert DigitsValue("9") == 9;
    assert DigitsValue("10") == 10 by {
      assert "10"[..1] == "1";
    }
    assert ParseInt("9") == Some(9);
    assert ParseInt("10") == Some(10);
    var nine, ten := Dir("9", true, []), Dir("10", true, []);
    var ds := [nine, ten];
    assert ds[1..] == [ten] && [ten][1..] == [];
    assert SubDirectories([ten]) == [ten] + SubDirectories([]);
    assert SubDirectories(ds) == [nine] + SubDirectories([ten]);
    assert !SomeNameNotInteger([ten]);
    assert !SomeNameNotInteger(ds);
    assert SortDesc([ten], DirNumber) == [ten] by {
      assert [ten][1..] == [];
    }
    assert SortDesc(ds, DirNumber) == Insert(nine, [ten], DirNumber);
    assert Insert(nine, [ten], DirNumber) == [ten] + Insert(nine, [], DirNumber) by {
      assert DirNumber(nine) == 9 && DirNumber(ten) == 10;
      assert [ten][1..] == [];
    }
    assert Insert(nine, [], DirNumber) == [nine];
    assert ListDirectories(Dir("11", true, ds)) == Ok(SortDesc(ds, DirNumber));
    assert [ten] + [nine] == [ten, nine];
  }

  /** `getFiles` / `toFiles`: the content files of `n`, newest first. The
      comparator reads both creation times it compares. */
  function ListContentFiles(n: Node): (r: Result<seq<Node>, ScanError>)
    ensures r.Err? ==> r.error == ListingFailed || r.error == CreationTimeUnreadable
    ensures r.Ok? ==> n.Dir? && |r.value| == |ContentFiles(n.children)|
  {
    if !Listable(n) then Err(ListingFailed)
    else
      var fs := ContentFiles(n.children);
      SortDescSpec(fs, CreationTime);
      if |fs| >= 2 && SomeCreationTimeMissing(fs) then Err(CreationTimeUnreadable)
      else Ok(SortDesc(fs, CreationTime))
  }

  /** What `getFiles` promises: a listing failure exactly when the
      directory cannot be listed; a creation-time failure exactly when there
      are two content files or more and one creation time is unreadable;
      otherwise every content file of `n` once, newest first. */
  lemma ListContentFilesSpec(n: Node)
    ensures ListContentFiles(n) == Err(ListingFailed) <==> !Listable(n)
    ensures ListContentFiles(n) == Err(CreationTimeUnreadable) <==>
      Listable(n) && |ContentFiles(n.children)| >= 2 &&
      exists f :: f in n.children && IsContentFile(f) && f.ctime.None?
    ensures ListContentFiles(n).Ok? ==> SortedDesc(ListContentFiles(n).value, CreationTime)
    ensures ListContentFiles(n).Ok? ==>
      multiset(ListContentFiles(n).value) == multiset(ContentFiles(n.children))
    ensures ListContentFiles(n).Ok? ==> forall f :: f in ListContentFiles(n).value <==> f in n.children && IsContentFile(f)
  {
    if Listable(n) {
      var fs := ContentFiles(n.children);
      ContentFilesSpec(n.children);
      SomeCreationTimeMissingMeans(fs);
      SortDescSpec(fs, CreationTime);
      var sorted := SortDesc(fs, CreationTime);
      forall f ensures f in sorted <==> f in fs {
        assert f in sorted <==> f in multiset(sorted);
        assert f in fs <==> f in multiset(fs);
      }
    }
  }

  /** The path of each entry: the directory's path resolved with its name. */
  function PathsOf(at: Path, entries: seq<Node>): (r: seq<Path>)
    ensures |r| == |entries|
    ensures forall i :: 0 <= i < |r| ==> r[i] == at + [entries[i].name]
  {
    if entries == [] then [] else [at + [entries[0].name]] + PathsOf(at, entries[1..])
  }

  /** The scan of the directory `n` found at path `at`: at depth 0 the
      newest `limit` content files of `n`; above it, the scan of each
      subdirectory in turn, each with the budget that is left. */
  function Scan(n: Node, at: Path, depth: nat, limit: nat): (r: Result<seq<Path>, ScanError>)
    ensures r.Ok? ==> |r.value| <= limit
    decreases depth, 0, 0
  {
    match ListDirectories(n)
    case Err(e) => Err(e)
    case Ok(dirs) =>
      if depth != 0 then ScanSiblings(dirs, at, depth - 1, limit)
      else
        match ListContentFiles(n)
        case Err(e) => Err(e)
        case Ok(files) => Ok(Take(PathsOf(at, files), limit))
  }

  /** The loop over the sorted subdirectories of one directory: each is
      scanned with what is left of the budget, and the loop stops as soon as
      the budget is used up. */
  function ScanSiblings(dirs: seq<Node>, at: Path, depth: nat, limit: nat): (r: Result<seq<Path>, ScanError>)
    ensures r.Ok? ==> |r.value| <= limit
    decreases depth, 1, |dirs|
  {
    if dirs == [] then Ok([])
    else
      match Scan(dirs[0], at + [dirs[0].name], depth, limit)
      case Err(e) => Err(e)
      case Ok(first) =>
        if |first| == limit then Ok(first)
        else
          match ScanSiblings(dirs[1..], at, depth, limit - |first|)
          case Err(e) => Err(e)
          case Ok(rest) => Ok(first + rest)
  }

  /** The scan of whatever the path `p` names under the root `root`;
      listing a missing path fails like any other listing. */
  function ScanAt(root: Node, p: Path, depth: nat, limit: nat): Result<seq<Path>, ScanError>
  {
    match Lookup(root, p)
    case None => Err(ListingFailed)
    case Some(n) => Scan(n, p, depth, limit)
  }

  /** Prefixes the paths collected so far to a scan's outcome. */
  function Prepend(acc: seq<Path>, r: Result<seq<Path>, ScanError>): Result<seq<Path>, ScanError>
  {
    match r
    case Ok(v) => Ok(acc + v)
    case Err(e) => Err(e)
  }

  lemma PrependNothing(r: Result<seq<Path>, ScanError>)
    ensures Prepend([], r) == r
  {
    if r.Ok? {
      assert [] + r.value == r.value;
    }
  }

  /** One turn of the sibling loop: the first subdirectory's outcome either
      ends the loop or is followed by the scan of the rest. */
  lemma ScanSiblingsStep(dirs: seq<Node>, at: Path, depth: nat, limit: nat)
    requires dirs != []
    ensures var first := Scan(dirs[0], at + [dirs[0].name], depth, limit);
      && (first.Err? ==> ScanSiblings(dirs, at, depth, limit) == Err(first.error))
      && (first.Ok? && |first.value| == limit ==> ScanSiblings(dirs, at, depth, limit) == first)
      && (first.Ok? && |first.value| < limit ==>
            ScanSiblings(dirs, at, depth, limit) ==
            Prepend(first.value, ScanSiblings(dirs[1..], at, depth, limit - |first.value|)))
  {
  }

  /** One turn of a sibling loop that has collected `acc` towards `goal`:
      a failure of the next subdirectory is the outcome, a full budget ends
      the loop with what was collected, and otherwise the rest of the
      siblings follow with the smaller budget. */
  lemma SiblingsLoopStep(goal: Result<seq<Path>, ScanError>, acc: seq<Path>, dirs: seq<Node>, at: Path,
                         depth: nat, remaining: nat)
    requires dirs != []
    requires goal == Prepend(acc, ScanSiblings(dirs, at, depth, remaining))
    ensures var first := Scan(dirs[0], at + [dirs[0].name], depth, remaining);
      && (first.Err? ==> goal == Err(first.error))
      && (first.Ok? && |first.value| == remaining ==> goal == Ok(acc + first.value))
      && (first.Ok? && |first.value| < remaining ==>
            goal == Prepend(acc + first.value, ScanSiblings(dirs[1..], at, depth, remaining - |first.value|)))
  {
    ScanSiblingsStep(dirs, at, depth, remaining);
    var first := Scan(dirs[0], at + [dirs[0].name], depth, remaining);
    if first.Ok? && |first.value| < remaining {
      PrependPrepend(acc, first.value, ScanSiblings(dirs[1..], at, depth, remaining - |first.value|));
    }
  }

  lemma PrependPrepend(a: seq<Path>, b: seq<Path>, r: Result<seq<Path>, ScanError>)
    ensures Prepend(a, Prepend(b, r)) == Prepend(a + b, r)
  {
    if r.Ok? {
      assert a + (b + r.value) == (a + b) + r.value;
    }
  }

  /** At depth 0 the scan returns the first content files of the
      directory in the order `getFiles` sorted them, newest first. */
  lemma LeafScanNewestFirst(n: Node, at: Path, limit: nat)
    requires Scan(n, at, 0, limit).Ok?
    ensures ListContentFiles(n).Ok?
    ensures SortedDesc(ListContentFiles(n).value, CreationTime)
    ensures |Scan(n, at, 0, limit).value| <= |ListContentFiles(n).value|
    ensures forall i :: 0 <= i < |Scan(n, at, 0, limit).value| ==>
      Scan(n, at, 0, limit).value[i] == at + [ListContentFiles(n).value[i].name]
  {
    ListContentFilesSpec(n);
  }

  /** Every path a scan returns lies `depth + 1` levels below the scanned
      directory. */
  lemma {:induction false} ScanPathsUnder(n: Node, at: Path, depth: nat, limit: nat)
    requires Scan(n, at, depth, limit).Ok?
    ensures forall p :: p in Scan(n, at, depth, limit).value ==> |p| == |at| + depth + 1 && p[..|at|] == at
    decreases depth, 0, 0
  {
    var dirs := ListDirectories(n).value;
    if depth != 0 {
      SiblingPathsUnder(dirs, at, depth - 1, limit);
    } else {
      var all := PathsOf(at, ListContentFiles(n).value);
      forall p | p in Scan(n, at, depth, limit).value
        ensures |p| == |at| + 1 && p[..|at|] == at
      {
        var i :| 0 <= i < |Take(all, limit)| && Take(all, limit)[i] == p;
        assert p == all[i];
      }
    }
  }

  /** Every path the sibling loop returns lies under one of the siblings. */
  lemma {:induction false} SiblingPathsUnder(dirs: seq<Node>, at: Path, depth: nat, limit: nat)
    requires ScanSiblings(dirs, at, depth, limit).Ok?
    ensures forall p :: p in ScanSiblings(dirs, at, depth, limit).value ==>
      |p| == |at| + depth + 2 && p[..|at|] == at && exists d :: d in dirs && p[|at|] == d.name
    decreases depth, 1, |dirs|
  {
    if dirs != [] {
      var child := at + [dirs[0].name];
      var first := Scan(dirs[0], child, depth, limit).value;
      ScanPathsUnder(dirs[0], child, depth, limit);
      ChildPathsUnder(first, at, dirs[0].name, depth);
      if |first| < limit {
        SiblingPathsUnder(dirs[1..], at, depth, limit - |first|);
        assert forall d :: d in dirs[1..] ==> d in dirs;
      }
    }
  }

  /** Paths under `at + [name]` are paths under `at` whose next segment is `name`. */
  lemma ChildPathsUnder(ps: seq<Path>, at: Path, name: string, depth: nat)
    requires forall p :: p in ps ==> |p| == |at + [name]| + depth + 1 && p[..|at + [name]|] == at + [name]
    ensures forall p :: p in ps ==> |p| == |at| + depth + 2 && p[..|at|] == at && p[|at|] == name
  {
    forall p | p in ps
      ensures |p| == |at| + depth + 2 && p[..|at|] == at && p[|at|] == name
    {
      assert p[..|at|] == p[..|at| + 1][..|at|];
      assert p[|at|] == p[..|at| + 1][|at|];
    }
  }

  /** Backfill: with a limit of 3, a newer day directory holding two
      content files gives both, and the next, older day directory gives
      only its newest file. */
  lemma BackfillFromOlderDay(newer: Node, older: Node, at: Path)
    requires ListDirectories(newer) == Ok([]) && ListDirectories(older) == Ok([])
    requires ListContentFiles(newer).Ok? && |ListContentFiles(newer).value| == 2
    requires ListContentFiles(older).Ok? && |ListContentFiles(older).value| == 5
    ensures ScanSiblings([newer, older], at, 0, 3) ==
      Ok(PathsOf(at + [newer.name], ListContentFiles(newer).value) +
         [at + [older.name, ListContentFiles(older).value[0].name]])
  {
    var dirs := [newer, older];
    var first := PathsOf(at + [newer.name], ListContentFiles(newer).value);
    assert Scan(newer, at + [newer.name], 0, 3) == Ok(Take(first, 3));
    assert Take(first, 3) == first;
    ScanSiblingsStep(dirs, at, 0, 3);
    assert dirs[1..] == [older];
    var second := PathsOf(at + [older.name], ListContentFiles(older).value);
    assert Scan(older, at + [older.name], 0, 1) == Ok(Take(second, 1));
    assert Take(second, 1) == [second[0]];
    assert second[0] == at + [older.name, ListContentFiles(older).value[0].name];
    ScanSiblingsStep([older], at, 0, 1);
  }

  // ---------------------------------------------------------------------
  // The reference: the same walk without a budget.

  /** Every content file of the subtree, in the order the scan visits them. */
  function AllFiles(n: Node, at: Path, depth: nat): Result<seq<Path>, ScanError>
    decreases depth, 0, 0
  {
    match ListDirectories(n)
    case Err(e) => Err(e)
    case Ok(dirs) =>
      if depth != 0 then AllSiblings(dirs, at, depth - 1)
      else
        match ListContentFiles(n)
        case Err(e) => Err(e)
        case Ok(files) => Ok(PathsOf(at, files))
  }

  function AllSiblings(dirs: seq<Node>, at: Path, depth: nat): Result<seq<Path>, ScanError>
    decreases depth, 1, |dirs|
  {
    if dirs == [] then Ok([])
    else
      match AllFiles(dirs[0], at + [dirs[0].name], depth)
      case Err(e) => Err(e)
      case Ok(first) =>
        match AllSiblings(dirs[1..], at, depth)
        case Err(e) => Err(e)
        case Ok(rest) => Ok(first + rest)
  }

  /** Whenever the whole walk succeeds, the scan returns its first `limit`
      files: the scan never reorders, skips or invents a file, and it cuts
      the walk exactly at `limit`. */
  lemma {:induction false} ScanIsPrefixOfAll(n: Node, at: Path, depth: nat, limit: nat)
    requires AllFiles(n, at, depth).Ok?
    ensures Scan(n, at, depth, limit) == Ok(Take(AllFiles(n, at, depth).value, limit))
    decreases depth, 0, 0
  {
    var dirs := ListDirectories(n).value;
    if depth != 0 {
      SiblingsArePrefixOfAll(dirs, at, depth - 1, limit);
    }
  }

  lemma {:induction false} SiblingsArePrefixOfAll(dirs: seq<Node>, at: Path, depth: nat, limit: nat)
    requires AllSiblings(dirs, at, depth).Ok?
    ensures ScanSiblings(dirs, at, depth, limit) == Ok(Take(AllSiblings(dirs, at, depth).value, limit))
    decreases depth, 1, |dirs|
  {
    if dirs != [] {
      var child := at + [dirs[0].name];
      var firstAll := AllFiles(dirs[0], child, depth).value;
      var restAll := AllSiblings(dirs[1..], at, depth).value;
      assert AllSiblings(dirs, at, depth).value == firstAll + restAll;
      ScanIsPrefixOfAll(dirs[0], child, depth, limit);
      var first := Take(firstAll, limit);
      assert Scan(dirs[0], child, depth, limit) == Ok(first);
      TakeAppend(firstAll, restAll, limit);
      if |firstAll| >= limit {
        assert |first| == limit;
      } else {
        assert first == firstAll;
        SiblingsArePrefixOfAll(dirs[1..], at, depth, limit - |first|);
      }
    }
  }

  /** A scan that returns fewer than `limit` files has walked the whole
      subtree: it returns fewer only when fewer exist. */
  lemma {:induction false} ShortScanIsAll(n: Node, at: Path, depth: nat, limit: nat)
    requires Scan(n, at, depth, limit).Ok?
    requires |Scan(n, at, depth, limit).value| < limit
    ensures AllFiles(n, at, depth) == Scan(n, at, depth, limit)
    decreases depth, 0, 0
  {
    var dirs := ListDirectories(n).value;
    if depth != 0 {
      ShortSiblingsAreAll(dirs, at, depth - 1, limit);
    }
  }

  lemma {:induction false} ShortSiblingsAreAll(dirs: seq<Node>, at: Path, depth: nat, limit: nat)
    requires ScanSiblings(dirs, at, depth, limit).Ok?
    requires |ScanSiblings(dirs, at, depth, limit).value| < limit
    ensures AllSiblings(dirs, at, depth) == ScanSiblings(dirs, at, depth, limit)
    decreases depth, 1, |dirs|
  {
    if dirs != [] {
      var child := at + [dirs[0].name];
      var first := Scan(dirs[0], child, depth, limit).value;
      ShortScanIsAll(dirs[0], child, depth, limit);
      ShortSiblingsAreAll(dirs[1..], at, depth, limit - |first|);
    }
  }

  /** Once the subdirectories already visited have filled the budget, the
      ones after them are never visited: whatever they hold, failures
      included, the outcome is the same. */
  lemma {:induction false} SiblingsStopWhenFull(visited: seq<Node>, later: seq<Node>, at: Path, depth: nat, limit: nat)
    requires visited != []
    requires ScanSiblings(visited, at, depth, limit).Ok?
    requires |ScanSiblings(visited, at, depth, limit).value| == limit
    ensures ScanSiblings(visited + later, at, depth, limit) == ScanSiblings(visited, at, depth, limit)
    decreases |visited|
  {
    var all := visited + later;
    assert all[0] == visited[0];
    assert all[1..] == visited[1..] + later;
    var first := Scan(visited[0], at + [visited[0].name], depth, limit).value;
    if |first| != limit && visited[1..] != [] {
      SiblingsStopWhenFull(visited[1..], later, at, depth, limit - |first|);
    }
  }
}
