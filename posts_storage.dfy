/** `alexnerd.content.posts.control.Storage`: the directory store of the
    posts package. Its recency scan threads one list through the whole
    descent and only ever appends to it. */
module PostsStorage {
  import opened Base
  import opened FileSystem
  import opened Domain
  import opened RecencyScan

  /** How this class reports a failed scan: only a listing failure becomes
      a StorageException; the NumberFormatException of a name and the
      RuntimeException of a creation time pass through. */
  function ScanFailure(e: ScanError): (r: Failure)
    ensures r.StorageException? <==> e == ListingFailed
    ensures r == NumberFormatException <==> e == DirNameNotInteger
    ensures r.RuntimeException? <==> e == CreationTimeUnreadable
  {
    match e
    case ListingFailed => StorageException(Default, "Can't fetch last posts")
    case DirNameNotInteger => NumberFormatException
    case CreationTimeUnreadable => RuntimeException("Can't read creation time")
  }

  function Reported(r: Result<seq<Path>, ScanError>): Result<seq<Path>, Failure>
  {
    match r
    case Ok(v) => Ok(v)
    case Err(e) => Err(ScanFailure(e))
  }

  /** What a scan that appended `added` to the shared list and ended with
    `failure` delivers to its caller. */
  function Outcome(failure: Option<Failure>, added: seq<Path>): Result<seq<Path>, Failure>
  {
    match failure
    case Some(f) => Err(f)
    case None => Ok(added)
  }

  /** Reading back the scan outcome a recursive call reported. */
  lemma OutcomeOf(failure: Option<Failure>, added: seq<Path>, r: Result<seq<Path>, ScanError>)
    requires Outcome(failure, added) == Reported(r)
    ensures failure.None? <==> r.Ok?
    ensures r.Ok? ==> r.value == added
    ensures r.Err? ==> failure == Some(ScanFailure(r.error))
  {
  }

  /** One turn of the directory loop of `getLastItems`, given what the
    recursive call on the next subdirectory appended and how it ended. */
  lemma LoopTurn(goal: Result<seq<Path>, ScanError>, acc: seq<Path>, dirs: seq<Node>, at: Path,
                 depth: nat, remaining: nat, failure: Option<Failure>, sub: seq<Path>)
    requires dirs != []
    requires goal == Prepend(acc, ScanSiblings(dirs, at, depth, remaining))
    requires Outcome(failure, sub) == Reported(Scan(dirs[0], at + [dirs[0].name], depth, remaining))
    ensures failure.Some? ==> Outcome(failure, acc + sub) == Reported(goal)
    ensures failure.None? ==> |sub| <= remaining
    ensures failure.None? && |sub| == remaining ==> goal == Ok(acc + sub)
    ensures failure.None? && |sub| < remaining ==>
      goal == Prepend(acc + sub, ScanSiblings(dirs[1..], at, depth, remaining - |sub|))
  {
    SiblingsLoopStep(goal, acc, dirs, at, depth, remaining);
    OutcomeOf(failure, sub, Scan(dirs[0], at + [dirs[0].name], depth, remaining));
  }

  /** The `List<Path> lastCreated` shared by every level of the scan. */
  class PathList {
    var items: seq<Path>

    constructor ()
      ensures items == []
    {
      items := [];
    }

    /** `List.add`. */
    method Add(p: Path)
      modifies this
      ensures items == old(items) + [p]
    {
      items := items + [p];
    }

    /** `forEach(lastCreated::add)` over a stream: each path in turn. */
    method AddEach(ps: seq<Path>)
      modifies this
      ensures items == old(items) + ps
    {
      var k := 0;
      while k < |ps|
        invariant 0 <= k <= |ps|
        invariant items == old(items) + ps[..k]
      {
        Add(ps[k]);
        assert ps[..k + 1] == ps[..k] + [ps[k]];
        k := k + 1;
      }
      assert ps[..k] == ps;
    }
  }

  class Storage {
    /** The `root.storage.dir` configuration value; `setStorageDir` replaces it. */
    var baseDir: string
    /** Set once by `init` to `Path.of(baseDir)`. */
    var storageDirectoryPath: Path
    /** The host filesystem. */
    const root: Node

    /** Injection followed by `init`. */
    constructor (baseDir: string, root: Node)
      ensures this.baseDir == baseDir && this.root == root
      ensures storageDirectoryPath == Segments(baseDir)
    {
      this.baseDir := baseDir;
      this.root := root;
      this.storageDirectoryPath := Segments(baseDir);
    }

    /** `getContentDirectoryPath`: `Path.of` of the base directory, the
      language and the type's base directory joined by slashes. */
    function GetContentDirectoryPath(lang: Lang, t: ContentType): (p: Path)
      reads this
      ensures p == Segments(baseDir) + Segments(lang.name) + Segments(t.baseDir)
    {
      SegmentsAround(baseDir + "/" + lang.name, t.baseDir);
      SegmentsAround(baseDir, lang.name);
      Segments(baseDir + "/" + lang.name + "/" + t.baseDir)
    }

    /** `getStorageDirectoryPath`. */
    function GetStorageDirectoryPath(): Path
      reads this
    {
      storageDirectoryPath
    }

    /** `setStorageDir`: later scans look under the new directory, while
      the storage directory fixed by `init` stays as it was. */
    method SetStorageDir(storageDir: string)
      modifies this`baseDir
      ensures baseDir == storageDir
      ensures storageDirectoryPath == old(storageDirectoryPath)
      ensures forall lang: Lang, t: ContentType ::
        (GetContentDirectoryPath(lang, t) == Segments(storageDir) + Segments(lang.name) + Segments(t.baseDir))
    {
      baseDir := storageDir;
    }

    /** `getLastItems`: appends the scan of the directory `dir` found at
      `at` to `lastCreated`, with the budget `limit` counted over the whole
      list, so that `budget` paths may still be added. Entries already in
      the list are never touched; on a failure the entries appended so far
      stay in the list. `added` names what this call appended. */
    method GetLastItems(dir: Node, at: Path, searchDepth: nat, lastCreated: PathList, limit: nat,
                        ghost budget: nat)
      returns (failure: Option<Failure>, ghost added: seq<Path>)
      requires budget == limit - |lastCreated.items|
      modifies lastCreated
      ensures lastCreated.items == old(lastCreated.items) + added
      ensures Outcome(failure, added) == Reported(Scan(dir, at, searchDepth, budget))
      decreases searchDepth, 1
    {
      added := [];
      var items := ListDirectories(dir);
      if items.Err? {
        return Some(ScanFailure(items.error)), added;
      }
      if searchDepth != 0 {
        failure, added := GetLastItemsOfEach(items.value, at, searchDepth - 1, lastCreated, limit, budget);
      } else {
        var listed := ListContentFiles(dir);
        if listed.Err? {
          return Some(ScanFailure(listed.error)), added;
        }
        var posts := Take(PathsOf(at, listed.value), limit - |lastCreated.items|);
        lastCreated.AddEach(posts);
        return None, posts;
      }
    }

    /** The `while (iterator.hasNext())` loop of `getLastItems`: scans the
      sibling directories `directories` in order into `lastCreated` and
      stops as soon as the list holds `limit` paths. */
    method GetLastItemsOfEach(directories: seq<Node>, at: Path, depth: nat, lastCreated: PathList, limit: nat,
                              ghost budget: nat)
      returns (failure: Option<Failure>, ghost added: seq<Path>)
      requires budget == limit - |lastCreated.items|
      modifies lastCreated
      ensures lastCreated.items == old(lastCreated.items) + added
      ensures Outcome(failure, added) == Reported(ScanSiblings(directories, at, depth, budget))
      decreases depth + 1, 0
    {
      ghost var start := lastCreated.items;
      ghost var goal := ScanSiblings(directories, at, depth, budget);
      PrependNothing(goal);
      added := [];
      assert start + [] == start;
      failure := None;
      var unvisited := directories;
      while unvisited != []
        invariant failure.None?
        invariant |added| <= budget
        invariant lastCreated.items == start + added
        invariant goal == Prepend(added, ScanSiblings(unvisited, at, depth, budget - |added|))
        decreases |unvisited|
      {
        var next := unvisited[0];
        ghost var remaining := budget - |added|;
        ghost var sub;
        failure, sub := GetLastItems(next, at + [next.name], depth, lastCreated, limit, remaining);
        LoopTurn(goal, added, unvisited, at, depth, remaining, failure, sub);
        assert (start + added) + sub == start + (added + sub);
        added := added + sub;
        if failure.Some? {
          return;
        }
        unvisited := unvisited[1..];
        if |lastCreated.items| == limit {
          break;
        }
      }
      if unvisited == [] {
        assert added + [] == added;
      }
    }

    /** `getLastItemsPath`: the newest `limit` items of a language and type,
      starting from an empty list. */
    method GetLastItemsPath(lang: Lang, t: ContentType, searchDepth: nat, limit: nat)
      returns (r: Result<seq<Path>, Failure>)
      ensures r == Reported(ScanAt(root, GetContentDirectoryPath(lang, t), searchDepth, limit))
    {
      var lastCreated := new PathList();
      var contentPath := GetContentDirectoryPath(lang, t);
      var found := Lookup(root, contentPath);
      if found.None? {
        return Err(ScanFailure(ListingFailed));
      }
      var failure, added := GetLastItems(found.value, contentPath, searchDepth, lastCreated, limit, limit);
      if failure.Some? {
        return Err(failure.value);
      }
      assert [] + added == added;
      return Ok(lastCreated.items);
    }
  }
}
