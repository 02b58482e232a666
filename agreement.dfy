/** How the content package and the posts package relate: they locate the
    same directories and documents, their two recency scans return the same
    paths, and they fail in corresponding ways. */
module Agreement {
  import opened Base
  import opened Text
  import opened FileSystem
  import opened Domain
  import opened RecencyScan
  import opened ContentDeserializer
  import ContentStorage
  import PostsStorage
  import ContentStore
  import PostStore

  /** Resolving the date directories of a post path adds the same segments
      as resolving the date tokens one by one. */
  lemma {:induction false} DateDirsSegments(tokens: seq<string>, rest: string)
    ensures Segments(PostStore.DateDirs(tokens) + rest) == ContentStorage.DateSegments(tokens) + Segments(rest)
    decreases |tokens|
  {
    if tokens != [] {
      var init := tokens[..|tokens| - 1];
      var last := tokens[|tokens| - 1];
      var tail := last + "/" + rest;
      assert PostStore.DateDirs(tokens) + rest == PostStore.DateDirs(init) + tail;
      DateDirsSegments(init, tail);
      SegmentsAround(last, rest);
      assert ContentStorage.DateSegments(tokens) == ContentStorage.DateSegments(init) + Segments(last);
      assert ContentStorage.DateSegments(init) + (Segments(last) + Segments(rest)) ==
        ContentStorage.DateSegments(tokens) + Segments(rest);
    } else {
      assert PostStore.DateDirs(tokens) + rest == rest;
    }
  }

  /** The string path `getPostPath` builds, resolved against a storage
      directory, names the file `constructContentPath` names. */
  lemma PostPathIsContentPath(storageRoot: Path, lang: Lang, t: ContentType, date: string, fileName: string)
    ensures Resolve(storageRoot, PostStore.PostPath(lang, t, date, fileName)) ==
      ContentStorage.ContentPath(storageRoot, lang, t, date, fileName)
  {
    var dates := PostStore.DateDirs(JavaSplit(date, '-'));
    var file := fileName + ContentSuffix;
    assert PostStore.PostPath(lang, t, date, fileName) == lang.name + "/" + (t.baseDir + "/" + (dates + file));
    SegmentsAround(lang.name, t.baseDir + "/" + (dates + file));
    SegmentsAround(t.baseDir, dates + file);
    DateDirsSegments(JavaSplit(date, '-'), file);
  }

  /** The read failure for a post names the requested file: its
      normalised title with ".json". */
  lemma PostReadFailureNamesFile(storageRoot: Path, lang: Lang, t: ContentType, date: string, fileName: string)
    requires '/' !in fileName
    ensures PostStore.ReadFailure(Resolve(storageRoot, PostStore.PostPath(lang, t, date, fileName))) ==
      "Can't read post " + fileName + ContentSuffix
  {
    PostPathIsContentPath(storageRoot, lang, t, date, fileName);
    ContentStorage.ReadFailureNamesFile(storageRoot, lang, t, date, fileName);
  }

  /** With the same non-empty configured base directory, both storages scan
      the same directory for a language and type. With an empty base the
      posts package's string starts with a slash and names an absolute
      directory, while the content package's path stays relative. */
  lemma DirectoryPathsAgree(cs: ContentStorage.Storage, ps: PostsStorage.Storage, lang: Lang, t: ContentType)
    requires cs.baseDir == ps.baseDir && cs.baseDir != ""
    ensures cs.GetContentDirectoryPath(lang, t) == ps.GetContentDirectoryPath(lang, t)
  {
    assert Segments(cs.baseDir) + Segments(lang.name) + Segments(t.baseDir) ==
      Segments(ps.baseDir) + (Segments(lang.name) + Segments(t.baseDir));
  }

  /** The failure the posts package reports where the content package
      reports `c`, for the same cause. */
  predicate SameCause(c: Failure, p: Failure)
  {
    exists e :: c == ContentStorage.ScanFailure(e) && p == PostsStorage.ScanFailure(e)
  }

  /** The two recency scans agree: over the same tree and non-empty base directory,
      `getLastContentPath` (fresh lists) succeeds exactly when `getLastItems`
      (shared list) does, with the same paths in the same order, and
      otherwise both fail for the same cause. */
  lemma ScanVersionsAgree(cs: ContentStorage.Storage, ps: PostsStorage.Storage, lang: Lang, t: ContentType, limit: nat)
    requires cs.root == ps.root && cs.baseDir == ps.baseDir && cs.baseDir != ""
    ensures var c := ContentStorage.Reported(ScanAt(cs.root, cs.GetContentDirectoryPath(lang, t), SearchDepth, limit));
      var p := PostsStorage.Reported(ScanAt(ps.root, ps.GetContentDirectoryPath(lang, t), SearchDepth, limit));
      && (c.Ok? <==> p.Ok?)
      && (c.Ok? ==> c.value == p.value)
      && (c.Err? ==> SameCause(c.error, p.error))
  {
    DirectoryPathsAgree(cs, ps, lang, t);
    var s := ScanAt(cs.root, cs.GetContentDirectoryPath(lang, t), SearchDepth, limit);
    if s.Err? {
      assert ContentStorage.Reported(s).error == ContentStorage.ScanFailure(s.error);
      assert PostsStorage.Reported(s).error == PostsStorage.ScanFailure(s.error);
    }
  }

  /** The causes map to the same exception except for an unreadable
      creation time, which the content package wraps in a StorageException
      and the posts package in a plain RuntimeException. */
  lemma CausesDifferOnlyInCreationTime(e: ScanError)
    ensures ContentStorage.ScanFailure(e).StorageException? <==> e != DirNameNotInteger
    ensures PostsStorage.ScanFailure(e).StorageException? <==> e == ListingFailed
    ensures ContentStorage.ScanFailure(e) == NumberFormatException <==> PostsStorage.ScanFailure(e) == NumberFormatException
  {
  }

  /** When every post of a list is readable, the posts package's
      read-and-deserialise-each stream gives what the content package gets
      by reading all texts first and deserialising them after. */
  lemma {:induction false} LoadPostsAgree(cs: ContentStorage.Storage, ps: PostStore.Store, paths: seq<Path>, t: ContentType)
    requires cs.root == ps.storage.root
    requires cs.ReadContents(paths).Ok?
    ensures ps.LoadPosts(paths, t) == ContentStore.DeserializeAll(cs.ReadContents(paths).value, t, ps.load)
    decreases |paths|
  {
    if paths != [] {
      LoadPostsAgree(cs, ps, paths[1..], t);
      assert cs.ReadContents(paths).value == [ReadString(cs.root, paths[0]).value] + cs.ReadContents(paths[1..]).value;
    }
  }
}
