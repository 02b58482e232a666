/** `alexnerd.content.posts.control.PostStore`: the posts package's
    counterpart of the content store. It builds the document's path as a
    string relative to the storage directory, counts a hit before it knows
    whether the post exists, and reads and deserialises each post of a
    recency scan in turn. The posts package's `TitleNormalizer` and `Lang`
    are taken to be those of the content package. */
module PostStore {
  import opened Base
  import opened Text
  import opened FileSystem
  import opened Domain
  import opened Metrics
  import opened RecencyScan
  import opened TitleNormalizer
  import opened ContentDeserializer
  import opened PostsStorage

  /** The date levels of a post path: each `-`-token followed by "/". */
  function DateDirs(tokens: seq<string>): string
  {
    if tokens == [] then ""
    else DateDirs(tokens[..|tokens| - 1]) + tokens[|tokens| - 1] + "/"
  }

  /** The relative path of a post as a string: language, type base
      directory, one directory per date token, then the file name with
      ".json", all separated by "/". */
  function PostPath(lang: Lang, t: ContentType, date: string, fileName: string): string
  {
    lang.name + "/" + t.baseDir + "/" + DateDirs(JavaSplit(date, '-')) + fileName + ContentSuffix
  }

  /** The message of the 404 answer for a missing post. */
  function NotFoundMessage(fileName: string): string
  {
    "Can't fetch post: " + fileName
  }

  /** The message of a failed `readString`. */
  function ReadFailure(p: Path): string
  {
    "Can't read post " + FileName(p)
  }

  class Store {
    const normalizer: Normalizer
    const storage: Storage
    /** `Mapper.load`. */
    const load: string -> Option<Content>
    /** The `post_hits_<title>` counters, by raw title. */
    var hits: map<string, nat>
    /** The `fetch_post_with_not_existing_title` counter. */
    var notExisting: nat

    /** The constructor taking the normaliser, the metrics and the storage. */
    constructor (normalizer: Normalizer, storage: Storage, load: string -> Option<Content>)
      ensures this.normalizer == normalizer && this.storage == storage && this.load == load
      ensures hits == map[] && notExisting == 0
    {
      this.normalizer := normalizer;
      this.storage := storage;
      this.load := load;
      hits := map[];
      notExisting := 0;
    }

    /** `getPostPath`: appends the pieces of the path to a string builder. */
    method GetPostPath(lang: Lang, t: ContentType, date: string, fileName: string) returns (s: string)
      ensures s == PostPath(lang, t, date, fileName)
    {
      var builder := "";
      builder := builder + lang.name;
      builder := builder + "/";
      builder := builder + t.baseDir;
      builder := builder + "/";
      ghost var prefix := builder;
      var split := JavaSplit(date, '-');
      var i := 0;
      while i < |split|
        invariant 0 <= i <= |split|
        invariant builder == prefix + DateDirs(split[..i])
      {
        assert split[..i + 1][..i] == split[..i];
        builder := builder + split[i];
        builder := builder + "/";
        i := i + 1;
      }
      assert split[..i] == split;
      builder := builder + fileName;
      builder := builder + ContentSuffix;
      s := builder;
    }

    /** `fileExists`: whether anything, a directory included, is at the
      path relative to the storage directory. */
    predicate FileExists(fileName: string)
      reads storage
      ensures IsRegularFile(storage.root, Resolve(storage.storageDirectoryPath, fileName)) ==> FileExists(fileName)
      ensures !FileExists(fileName) ==> ReadString(storage.root, Resolve(storage.storageDirectoryPath, fileName)).None?
    {
      Exists(storage.root, Resolve(storage.storageDirectoryPath, fileName))
    }

    /** A directory at the post's path passes `fileExists`, and reading it
      then fails with the read exception rather than a 404. */
    lemma DirectoryPassesExistenceCheck(p: Path, t: ContentType)
      requires Lookup(storage.root, p).Some? && Lookup(storage.root, p).value.Dir?
      ensures Exists(storage.root, p)
      ensures LoadPost(p, t) == Err(StorageException(Default, ReadFailure(p)))
    {
    }

    /** `readString(Path)`: the file's text, or the exception naming it. */
    function ReadPost(p: Path): (r: Result<string, Failure>)
      ensures r.Ok? <==> ReadString(storage.root, p).Some?
      ensures r.Ok? ==> r.value == ReadString(storage.root, p).value
      ensures r.Err? ==> r.error == StorageException(Default, ReadFailure(p))
    {
      match ReadString(storage.root, p)
      case Some(text) => Ok(text)
      case None => Err(StorageException(Default, ReadFailure(p)))
    }

    /** `deserializeContent` after `readString`, for one post. */
    function LoadPost(p: Path, t: ContentType): Result<Content, Failure>
    {
      match ReadPost(p)
      case Err(e) => Err(e)
      case Ok(text) => Deserialize(text, t, load)
    }

    /** The stream of `readLast`: each path is read and deserialised before
      the next one is touched, so the first post that fails to read or to
      deserialise fails the list. */
    function LoadPosts(paths: seq<Path>, t: ContentType): (r: Result<seq<Content>, Failure>)
      ensures r.Ok? ==> |r.value| == |paths|
      ensures r.Ok? ==> forall i :: 0 <= i < |paths| ==> LoadPost(paths[i], t) == Ok(r.value[i])
    {
      if paths == [] then Ok([])
      else
        match LoadPost(paths[0], t)
        case Err(e) => Err(e)
        case Ok(c) =>
          match LoadPosts(paths[1..], t)
          case Err(e) => Err(e)
          case Ok(rest) =>
            assert forall i :: 1 <= i < |paths| ==> paths[i] == paths[1..][i - 1];
            Ok([c] + rest)
    }

    /** The list fails exactly when some post fails, and then with the
      failure of the first post that fails. */
    lemma {:induction false} LoadPostsFailure(paths: seq<Path>, t: ContentType)
      ensures LoadPosts(paths, t).Ok? <==> forall i :: 0 <= i < |paths| ==> LoadPost(paths[i], t).Ok?
      ensures LoadPosts(paths, t).Err? ==>
        exists i :: 0 <= i < |paths| && LoadPost(paths[i], t) == Err(LoadPosts(paths, t).error) &&
                    (forall j :: 0 <= j < i ==> LoadPost(paths[j], t).Ok?)
    {
      if paths != [] && LoadPost(paths[0], t).Ok? {
        LoadPostsFailure(paths[1..], t);
        assert forall i :: 1 <= i < |paths| ==> paths[i] == paths[1..][i - 1];
        if LoadPosts(paths[1..], t).Err? {
          var k :| 0 <= k < |paths[1..]| && LoadPost(paths[1..][k], t) == Err(LoadPosts(paths[1..], t).error) &&
            forall j :: 0 <= j < k ==> LoadPost(paths[1..][j], t).Ok?;
          assert LoadPost(paths[k + 1], t) == Err(LoadPosts(paths, t).error);
        }
      }
    }

    /** `read`: the hit for the raw title is counted first, whatever
      follows. A post missing under the storage directory counts one miss
      and answers 404 without reading; otherwise the post is read and
      deserialised with the requested type. */
    method Read(lang: Lang, t: ContentType, date: string, title: string) returns (r: Result<Content, Failure>)
      modifies this
      ensures hits == CountHit(old(hits), title)
      ensures var fileName := Normalize(normalizer, title);
        var p := Resolve(storage.storageDirectoryPath, PostPath(lang, t, date, fileName));
        if !Exists(storage.root, p) then
          && r == Err(StorageException(NotFound404, NotFoundMessage(fileName)))
          && notExisting == old(notExisting) + 1
        else
          && r == LoadPost(p, t)
          && notExisting == old(notExisting)
    {
      var fileName := Normalize(normalizer, title);
      hits := CountHit(hits, title);
      var postPath := GetPostPath(lang, t, date, fileName);
      if !FileExists(postPath) {
        notExisting := notExisting + 1;
        return Err(StorageException(NotFound404, NotFoundMessage(fileName)));
      }
      var stringified := ReadPost(Resolve(storage.GetStorageDirectoryPath(), postPath));
      if stringified.Err? {
        return Err(stringified.error);
      }
      r := Deserialize(stringified.value, t, load);
    }

    /** `readLast`: the posts of the newest `limit` paths of a depth-3
      scan, in scan order; no counter changes. */
    method ReadLast(lang: Lang, t: ContentType, limit: nat) returns (r: Result<seq<Content>, Failure>)
      ensures var found := Reported(ScanAt(storage.root, storage.GetContentDirectoryPath(lang, t), SearchDepth, limit));
        found.Err? ==> r == Err(found.error)
      ensures var found := Reported(ScanAt(storage.root, storage.GetContentDirectoryPath(lang, t), SearchDepth, limit));
        found.Ok? ==> r == LoadPosts(found.value, t)
      ensures r.Ok? ==> |r.value| <= limit
    {
      var paths := storage.GetLastItemsPath(lang, t, SearchDepth, limit);
      if paths.Err? {
        return Err(paths.error);
      }
      r := LoadPosts(paths.value, t);
    }
  }
}
