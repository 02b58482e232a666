/** `alexnerd.content.content.control.Storage`: the directory store of the
    content package. Its recency scan builds a fresh list at every level of
    the descent and returns it. The filesystem is the snapshot `root`; a
    directory the Java code names by its path is passed here as the node
    found at that path together with the path. */
module ContentStorage {
  import opened Base
  import opened Text
  import opened FileSystem
  import opened Domain
  import opened RecencyScan

  /** How this class reports a failed scan: a StorageException with the
      default status, except for a directory name that is not an integer,
      whose NumberFormatException is not caught. */
  function ScanFailure(e: ScanError): (r: Failure)
    ensures r == NumberFormatException <==> e == DirNameNotInteger
    ensures r != NumberFormatException ==> r.StorageException? && r.status == Default
  {
    match e
    case ListingFailed => StorageException(Default, "Can't get directories from path")
    case DirNameNotInteger => NumberFormatException
    case CreationTimeUnreadable => StorageException(Default, "Can't read creation time")
  }

  function Reported(r: Result<seq<Path>, ScanError>): Result<seq<Path>, Failure>
  {
    match r
    case Ok(v) => Ok(v)
    case Err(e) => Err(ScanFailure(e))
  }

  /** Reading back the scan outcome a recursive call reported. */
  lemma ReportedOf(r: Result<seq<Path>, Failure>, s: Result<seq<Path>, ScanError>)
    requires r == Reported(s)
    ensures r.Ok? <==> s.Ok?
    ensures r.Ok? ==> s.value == r.value
  {
  }

  /** One turn of the directory loop of `getLastContentPath`, given what the
      recursive call on the next subdirectory reported. */
  lemma LoopTurn(goal: Result<seq<Path>, ScanError>, acc: seq<Path>, dirs: seq<Node>, at: Path,
                 depth: nat, remaining: nat, sub: Result<seq<Path>, Failure>)
    requires dirs != []
    requires goal == Prepend(acc, ScanSiblings(dirs, at, depth, remaining))
    requires sub == Reported(Scan(dirs[0], at + [dirs[0].name], depth, remaining))
    ensures sub.Err? ==> Reported(goal) == sub
    ensures sub.Ok? ==> |sub.value| <= remaining
    ensures sub.Ok? && |sub.value| == remaining ==> goal == Ok(acc + sub.value)
    ensures sub.Ok? && |sub.value| < remaining ==>
      goal == Prepend(acc + sub.value, ScanSiblings(dirs[1..], at, depth, remaining - |sub.value|))
  {
    SiblingsLoopStep(goal, acc, dirs, at, depth, remaining);
    ReportedOf(sub, Scan(dirs[0], at + [dirs[0].name], depth, remaining));
  }

  /** The message of a failed `readContent`. */
  function ReadFailure(p: Path): string
  {
    "Can't read content from file: " + FileName(p)
  }

  /** The segments that the date tokens add, each resolved in turn. */
  function DateSegments(tokens: seq<string>): Path
  {
    if tokens == [] then []
    else DateSegments(tokens[..|tokens| - 1]) + Segments(tokens[|tokens| - 1])
  }

  /** Resolving one more token adds its segments. */
  lemma DateSegmentsStep(tokens: seq<string>, i: nat)
    requires i < |tokens|
    ensures DateSegments(tokens[..i + 1]) == DateSegments(tokens[..i]) + Segments(tokens[i])
  {
    assert tokens[..i + 1][..i] == tokens[..i];
  }

  /** Resolving the next date token against the path built so far. */
  lemma ResolveDateToken(base: Path, tokens: seq<string>, i: nat, path: Path)
    requires i < |tokens|
    requires path == base + DateSegments(tokens[..i])
    ensures Resolve(path, tokens[i]) == base + DateSegments(tokens[..i + 1])
  {
    DateSegmentsStep(tokens, i);
    AppendAssociates(base, DateSegments(tokens[..i]), Segments(tokens[i]));
  }

  lemma AppendAssociates(a: Path, b: Path, c: Path)
    ensures (a + b) + c == a + (b + c)
  {
  }

  /** The exact path of a document: the storage root, the language, the
      type's base directory, one level per `-`-separated date token, and
      the file name with ".json". */
  function ContentPath(storageRoot: Path, lang: Lang, t: ContentType, date: string, fileName: string): Path
  {
    Resolve(Resolve(storageRoot, lang.name), t.baseDir) + DateSegments(JavaSplit(date, '-'))
      + Segments(fileName + ContentSuffix)
  }

  /** The read failure for a document names the requested file: its
      normalised title with ".json". */
  lemma ReadFailureNamesFile(storageRoot: Path, lang: Lang, t: ContentType, date: string, fileName: string)
    requires '/' !in fileName
    ensures FileName(ContentPath(storageRoot, lang, t, date, fileName)) == fileName + ContentSuffix
    ensures ReadFailure(ContentPath(storageRoot, lang, t, date, fileName)) ==
      "Can't read content from file: " + fileName + ContentSuffix
  {
    assert '/' !in fileName + ContentSuffix;
    SegmentsOfName(fileName + ContentSuffix);
  }

  /** Tokens that are non-empty and slash-free are one segment each. */
  lemma {:induction false} DateSegmentsOfNames(tokens: seq<string>)
    requires forall i :: 0 <= i < |tokens| ==> tokens[i] != "" && '/' !in tokens[i]
    ensures DateSegments(tokens) == tokens
  {
    if tokens != [] {
      var last := |tokens| - 1;
      var init := tokens[..last];
      assert forall i :: 0 <= i < |init| ==> init[i] == tokens[i];
      DateSegmentsOfNames(init);
      SegmentsOfName(tokens[last]);
      assert DateSegments(tokens) == init + [tokens[last]];
      assert tokens == init + [tokens[last]];
    }
  }

  /** With names that are single segments, the exact path is the root
      followed by language, base directory, every date token and the file. */
  lemma ContentPathShape(storageRoot: Path, lang: Lang, t: ContentType, date: string, fileName: string)
    requires lang.name != "" && '/' !in lang.name
    requires t.baseDir != "" && '/' !in t.baseDir
    requires '/' !in fileName
    requires forall i :: 0 <= i < |JavaSplit(date, '-')| ==> JavaSplit(date, '-')[i] != "" && '/' !in JavaSplit(date, '-')[i]
    ensures ContentPath(storageRoot, lang, t, date, fileName) ==
      storageRoot + [lang.name, t.baseDir] + JavaSplit(date, '-') + [fileName + ContentSuffix]
  {
    SegmentsOfName(lang.name);
    SegmentsOfName(t.baseDir);
    SegmentsOfName(fileName + ContentSuffix);
    DateSegmentsOfNames(JavaSplit(date, '-'));
  }

  lemma SplitOfDate()
    ensures SplitOn("2016-1-1", '-') == ["2016", "1", "1"]
  {
    SplitOnWithout("2016", '-');
    SplitOnWithout("1", '-');
    SplitOnAround("1", "1", '-');
    assert "1" + ['-'] + "1" == "1-1";
    SplitOnAround("2016", "1-1", '-');
    assert "2016" + ['-'] + "1-1" == "2016-1-1";
  }

  lemma JavaSplitOfDate()
    ensures JavaSplit("2016-1-1", '-') == ["2016", "1", "1"]
  {
    SplitOfDate();
    assert "2016-1-1"[4] == '-';
  }

  lemma DateTokensAreNames(parts: seq<string>)
    requires parts == ["2016", "1", "1"]
    ensures forall i :: 0 <= i < |parts| ==> parts[i] != "" && '/' !in parts[i]
  {
    assert '/' !in "2016" && '/' !in "1";
    forall i | 0 <= i < |parts| ensures parts[i] != "" && '/' !in parts[i] {
      if i == 0 {
        assert parts[i] == "2016";
      } else {
        assert parts[i] == "1";
      }
    }
  }

  /** "2016-1-1" is three date levels. */
  lemma DateOfThreeLevels()
    ensures JavaSplit("2016-1-1", '-') == ["2016", "1", "1"]
    ensures DateSegments(JavaSplit("2016-1-1", '-')) == ["2016", "1", "1"]
  {
    JavaSplitOfDate();
    var parts := ["2016", "1", "1"];
    DateTokensAreNames(parts);
    DateSegmentsOfNames(parts);
  }

  class Storage {
    /** The `root.storage.dir` configuration value. */
    const baseDir: string
    /** The host filesystem. */
    const root: Node
    /** Set once by `init` to `Path.of(baseDir)`. */
    const storageDirectoryPath: Path

    /** Injection followed by `init`. */
    constructor (baseDir: string, root: Node)
      ensures this.baseDir == baseDir && this.root == root
      ensures storageDirectoryPath == Segments(baseDir)
    {
      this.baseDir := baseDir;
      this.root := root;
      this.storageDirectoryPath := Segments(baseDir);
    }

    /** `getContentDirectoryPath`: root, language, type base directory. */
    function GetContentDirectoryPath(lang: Lang, t: ContentType): (p: Path)
      ensures p == Segments(baseDir) + Segments(lang.name) + Segments(t.baseDir)
    {
      Resolve(Resolve(Segments(baseDir), lang.name), t.baseDir)
    }

    /** `readContent`. */
    function ReadContent(p: Path): (r: Result<string, Failure>)
      ensures r.Ok? <==> ReadString(root, p).Some?
      ensures r.Ok? ==> r.value == ReadString(root, p).value
      ensures r.Err? ==> r.error == StorageException(Default, ReadFailure(p))
    {
      match ReadString(root, p)
      case Some(s) => Ok(s)
      case None => Err(StorageException(Default, ReadFailure(p)))
    }

    /** The `map(this::readContent)` of `getLastContent`: one text per path,
      in order; the first unreadable path fails the whole list. */
    function ReadContents(paths: seq<Path>): (r: Result<seq<string>, Failure>)
      ensures r.Ok? ==> |r.value| == |paths|
      ensures r.Ok? ==> forall i :: 0 <= i < |paths| ==> ReadString(root, paths[i]) == Some(r.value[i])
    {
      if paths == [] then Ok([])
      else
        match ReadContent(paths[0])
        case Err(e) => Err(e)
        case Ok(text) =>
          match ReadContents(paths[1..])
          case Err(e) => Err(e)
          case Ok(rest) =>
            assert forall i :: 1 <= i < |paths| ==> paths[i] == paths[1..][i - 1];
            Ok([text] + rest)
    }

    /** The list fails exactly when some path is unreadable, and then with
      the exception of the first unreadable path. */
    lemma {:induction false} ReadContentsFailure(paths: seq<Path>)
      ensures ReadContents(paths).Ok? <==> forall i :: 0 <= i < |paths| ==> ReadString(root, paths[i]).Some?
      ensures ReadContents(paths).Err? ==>
        exists i :: 0 <= i < |paths| && ReadContent(paths[i]) == Err(ReadContents(paths).error) &&
                    (forall j :: 0 <= j < i ==> ReadString(root, paths[j]).Some?)
    {
      if paths != [] && ReadString(root, paths[0]).Some? {
        ReadContentsFailure(paths[1..]);
        assert forall i :: 1 <= i < |paths| ==> paths[i] == paths[1..][i - 1];
        if ReadContents(paths[1..]).Err? {
          var k :| 0 <= k < |paths[1..]| && ReadContent(paths[1..][k]) == Err(ReadContents(paths[1..]).error) &&
            forall j :: 0 <= j < k ==> ReadString(root, paths[1..][j]).Some?;
          assert ReadContent(paths[k + 1]) == Err(ReadContents(paths).error);
        }
      }
    }

    /** `constructContentPath`. */
    method ConstructContentPath(lang: Lang, t: ContentType, date: string, fileName: string) returns (path: Path)
      ensures path == ContentPath(storageDirectoryPath, lang, t, date, fileName)
    {
      path := Resolve(Resolve(storageDirectoryPath, lang.name), t.baseDir);
      ghost var base := path;
      var split := JavaSplit(date, '-');
      var i := 0;
      while i < |split|
        invariant 0 <= i <= |split|
        invariant path == base + DateSegments(split[..i])
      {
        ResolveDateToken(base, split, i, path);
        path := Resolve(path, split[i]);
        i := i + 1;
      }
      assert split[..i] == split;
      path := Resolve(path, fileName + ContentSuffix);
    }

    /** `getContent`: FileNotFoundException exactly when the exact path is
      missing or is not a regular file; otherwise the file's text. */
    method GetContent(lang: Lang, t: ContentType, date: string, fileName: string) returns (r: Result<string, Failure>)
      ensures var p := ContentPath(storageDirectoryPath, lang, t, date, fileName);
        if IsRegularFile(root, p) then r == ReadContent(p)
        else r == Err(FileNotFoundException("Can't fetch content: " + fileName))
    {
      var contentPath := ConstructContentPath(lang, t, date, fileName);
      if !Exists(root, contentPath) || !IsRegularFile(root, contentPath) {
        return Err(FileNotFoundException("Can't fetch content: " + fileName));
      }
      r := ReadContent(contentPath);
    }

    /** `getLastContentPath`: the scan of the directory `currentDir` found at
      `at`, `searchDepth` levels above the files, keeping at most `limit`. */
    method GetLastContentPath(currentDir: Node, at: Path, searchDepth: nat, limit: nat)
      returns (r: Result<seq<Path>, Failure>)
      ensures r == Reported(Scan(currentDir, at, searchDepth, limit))
      decreases searchDepth
    {
      var lastCreated: seq<Path> := [];
      var listed := ListDirectories(currentDir);
      if listed.Err? {
        return Err(ScanFailure(listed.error));
      }
      var directories := listed.value;
      if searchDepth != 0 {
        var depth := searchDepth - 1;
        ghost var goal := ScanSiblings(directories, at, depth, limit);
        assert goal == Scan(currentDir, at, searchDepth, limit);
        PrependNothing(goal);
        var unvisited := directories;
        while unvisited != []
          invariant |lastCreated| <= limit
          invariant goal == Prepend(lastCreated, ScanSiblings(unvisited, at, depth, limit - |lastCreated|))
          decreases |unvisited|
        {
          var next := unvisited[0];
          var remaining := limit - |lastCreated|;
          var sub := GetLastContentPath(next, at + [next.name], depth, remaining);
          LoopTurn(goal, lastCreated, unvisited, at, depth, remaining, sub);
          if sub.Err? {
            return sub;
          }
          lastCreated := lastCreated + sub.value;
          unvisited := unvisited[1..];
          if |lastCreated| == limit {
            break;
          }
        }
        if unvisited == [] {
          assert lastCreated + [] == lastCreated;
        }
      } else {
        var listedFiles := ListContentFiles(currentDir);
        if listedFiles.Err? {
          return Err(ScanFailure(listedFiles.error));
        }
        lastCreated := lastCreated + Take(PathsOf(at, listedFiles.value), limit - |lastCreated|);
        assert lastCreated == Take(PathsOf(at, listedFiles.value), limit);
      }
      return Ok(lastCreated);
    }

    /** `getLastContent`: the texts of the newest `limit` documents of a
      language and type, in scan order. */
    method GetLastContent(lang: Lang, t: ContentType, limit: nat) returns (r: Result<seq<string>, Failure>)
      ensures match Reported(ScanAt(root, GetContentDirectoryPath(lang, t), SearchDepth, limit))
        case Err(e) => r == Err(e)
        case Ok(paths) => r == ReadContents(paths)
    {
      var contentPath := GetContentDirectoryPath(lang, t);
      var found := Lookup(root, contentPath);
      if found.None? {
        return Err(ScanFailure(ListingFailed));
      }
      var paths := GetLastContentPath(found.value, contentPath, SearchDepth, limit);
      if paths.Err? {
        return Err(paths.error);
      }
      r := ReadContents(paths.value);
    }
  }
}
