/** `alexnerd.content.content.control.ContentStore`: answers a request for
    one document, or for the newest documents, of a language and type. It
    normalises the title into a file name, asks the content `Storage` for
    the text, counts hits and misses, and deserialises by type. */
module ContentStore {
  import opened Base
  import opened FileSystem
  import opened Domain
  import opened Metrics
  import opened RecencyScan
  import opened TitleNormalizer
  import opened ContentDeserializer
  import opened ContentStorage

  /** The `map(deserialize).toList()` of `readLast`: one record per text,
      in order; the first text that does not deserialise fails the list. */
  function DeserializeAll(texts: seq<string>, t: ContentType, load: string -> Option<Content>)
    : (r: Result<seq<Content>, Failure>)
    ensures r.Ok? ==> |r.value| == |texts|
    ensures r.Ok? ==> forall i :: 0 <= i < |texts| ==> Deserialize(texts[i], t, load) == Ok(r.value[i])
  {
    if texts == [] then Ok([])
    else
      match Deserialize(texts[0], t, load)
      case Err(e) => Err(e)
      case Ok(c) =>
        match DeserializeAll(texts[1..], t, load)
        case Err(e) => Err(e)
        case Ok(rest) =>
          assert forall i :: 1 <= i < |texts| ==> texts[i] == texts[1..][i - 1];
          Ok([c] + rest)
  }

  /** The list fails exactly when some text fails, and then with the
      failure of the first text that fails. */
  lemma {:induction false} DeserializeAllFailure(texts: seq<string>, t: ContentType, load: string -> Option<Content>)
    ensures DeserializeAll(texts, t, load).Ok? <==> forall i :: 0 <= i < |texts| ==> Deserialize(texts[i], t, load).Ok?
    ensures DeserializeAll(texts, t, load).Err? ==>
      exists i :: 0 <= i < |texts| && Deserialize(texts[i], t, load) == Err(DeserializeAll(texts, t, load).error) &&
                  (forall j :: 0 <= j < i ==> Deserialize(texts[j], t, load).Ok?)
  {
    if texts != [] && Deserialize(texts[0], t, load).Ok? {
      DeserializeAllFailure(texts[1..], t, load);
      assert forall i :: 1 <= i < |texts| ==> texts[i] == texts[1..][i - 1];
      if DeserializeAll(texts[1..], t, load).Err? {
        var k :| 0 <= k < |texts[1..]| && Deserialize(texts[1..][k], t, load) == Err(DeserializeAll(texts[1..], t, load).error) &&
          forall j :: 0 <= j < k ==> Deserialize(texts[1..][j], t, load).Ok?;
        assert Deserialize(texts[k + 1], t, load) == Err(DeserializeAll(texts, t, load).error);
      }
    }
  }

  /** The message of the 404 answer for a missing document. */
  function NotFoundMessage(fileName: string): string
  {
    "Can't fetch content: " + fileName
  }

  class Store {
    const normalizer: Normalizer
    const storage: Storage
    /** `JsonMapper.load`. */
    const load: string -> Option<Content>
    /** The `content_hits_<title>` counters, by raw title. */
    var hits: map<string, nat>
    /** The `fetch_content_with_not_existing_title` counter. */
    var notExisting: nat

    /** Injection; the registry starts with no counters. */
    constructor (normalizer: Normalizer, storage: Storage, load: string -> Option<Content>)
      ensures this.normalizer == normalizer && this.storage == storage && this.load == load
      ensures hits == map[] && notExisting == 0
    {
      this.normalizer := normalizer;
      this.storage := storage;
      this.load := load;
      hits := map[];
      notExisting := 0;
    }

    /** `read`: the document is looked up under the normalised title. A
      missing document counts one miss, no hit, and answers 404; a document
      that cannot be read fails with the storage's exception and counts
      nothing; a read document counts one hit for the raw title and is then
      deserialised with the requested type, whether or not that succeeds. */
    method Read(lang: Lang, t: ContentType, date: string, title: string) returns (r: Result<Content, Failure>)
      modifies this
      ensures var fileName := Normalize(normalizer, title);
        var p := ContentPath(storage.storageDirectoryPath, lang, t, date, fileName);
        if !IsRegularFile(storage.root, p) then
          && r == Err(StorageException(NotFound404, NotFoundMessage(fileName)))
          && notExisting == old(notExisting) + 1 && hits == old(hits)
        else if ReadString(storage.root, p).None? then
          && r == Err(StorageException(Default, ReadFailure(p)))
          && notExisting == old(notExisting) && hits == old(hits)
        else
          && r == Deserialize(ReadString(storage.root, p).value, t, load)
          && notExisting == old(notExisting) && hits == CountHit(old(hits), title)
    {
      var fileName := Normalize(normalizer, title);
      var stringified := storage.GetContent(lang, t, date, fileName);
      match stringified
      case Err(FileNotFoundException(_)) =>
        notExisting := notExisting + 1;
        r := Err(StorageException(NotFound404, NotFoundMessage(fileName)));
      case Err(e) =>
        r := Err(e);
      case Ok(text) =>
        hits := CountHit(hits, title);
        r := Deserialize(text, t, load);
    }

    /** `readLast`: the records of the newest `limit` documents, in scan
      order; no counter changes. */
    method ReadLast(lang: Lang, t: ContentType, limit: nat) returns (r: Result<seq<Content>, Failure>)
      ensures var found := Reported(ScanAt(storage.root, storage.GetContentDirectoryPath(lang, t), SearchDepth, limit));
        found.Err? ==> r == Err(found.error)
      ensures var found := Reported(ScanAt(storage.root, storage.GetContentDirectoryPath(lang, t), SearchDepth, limit));
        found.Ok? && storage.ReadContents(found.value).Err? ==> r == Err(storage.ReadContents(found.value).error)
      ensures var found := Reported(ScanAt(storage.root, storage.GetContentDirectoryPath(lang, t), SearchDepth, limit));
        found.Ok? && storage.ReadContents(found.value).Ok? ==> r == DeserializeAll(storage.ReadContents(found.value).value, t, load)
      ensures r.Ok? ==> |r.value| <= limit
    {
      var texts := storage.GetLastContent(lang, t, limit);
      if texts.Err? {
        return Err(texts.error);
      }
      r := DeserializeAll(texts.value, t, load);
    }
  }
}
