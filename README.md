# Blog content store: storage layer

A Dafny model of the storage layer of a read-only blog content store. The
store keeps JSON documents in a directory tree laid out as
`<root>/<language>/<type base directory>/<year>/<month>/<day>/<title>.json`
and answers two requests:

- **One document.** Given (language, type, date, title), the title is
  normalised into a file name, the exact path is built, and the file is
  read and deserialised.
- **The newest documents.** Given (language, type, limit), a recency scan
  descends three levels of integer-named directories, largest number first,
  collects the newest `.json` files of the day directories and stops as soon
  as `limit` files have been collected.

The repository implements this storage layer twice, and the model keeps
both:

- **Content package.** `ContentStore` with a `Storage` whose scan builds a
  fresh list at every level of the descent.
- **Posts package.** `PostStore` with a `Storage` whose scan appends to one
  list shared by the whole descent.

Both scans are proved equal to one specification, `RecencyScan.Scan`. They
differ only in how they report failures.

Modules, in dependency order:

- `Base`: options, results, and `Take`, which models `Stream.limit`.
- `Text`: `String.split` with a one-character separator, and `Integer.valueOf`.
- `Sorting`: a stable descending sort, standing in for `Stream.sorted` with a comparator.
- `FileSystem`: the filesystem as a snapshot tree of `Node`s. Paths are
  sequences of names. `Path.of` is `Segments`; `resolve` is `Resolve`.
  `Files.exists`, `isRegularFile` and `readString` are functions of the
  snapshot.
- `Domain`: languages, content types, the `Content` record, and the exceptions.
- `TitleNormalizer`: turns a title into a file name.
- `ContentDeserializer`: the type switch and the LAST_ARTICLES projection, shared by both packages.
- `RecencyScan`: the scan specification. It includes the reference walk
  `AllFiles`, which has no limit, and the lemmas about ordering, the bound,
  and early termination.
- `ContentStorage`, `PostsStorage`: the two storage classes.
- `Metrics`: the hit counter.
- `ContentStore`, `PostStore`: the two store classes, with their hit and miss counters.
- `Agreement`: the two packages locate the same files and scan to the same
  paths.

How the environment is modelled:

- **Filesystem.**
  - A directory that cannot be listed is `listable = false`.
  - A file whose creation time cannot be read has `ctime = None`.
  - A file that cannot be read has `text = None`.
- **JSON binding.** `JsonMapper.load` is the parameter `load`, which
  returns `None` where binding throws.
- **Letter-or-digit test.** `Character.isLetterOrDigit` is a parameter of
  the normaliser.

## Behaviour worth noting

- **Existence check in `PostStore`.** `fileExists`
  (`posts/control/PostStore.java:76-79`) uses `Files.exists` alone, so a
  directory at a post's path passes the check. Reading it then fails with
  the read exception, not a 404. See
  `PostStore.Store.DirectoryPassesExistenceCheck`.
- **Non-integer directory names.** Such a name fails a scan only when the
  directory has at least one sibling directory. The names are parsed inside
  the sort comparator (`content/control/Storage.java:104-105`,
  `posts/control/Storage.java:93-94`), and the comparator runs only when
  there are two elements or more.
- **Creation-time failures.** The posts package reports an unreadable
  creation time as a plain `RuntimeException`
  (`posts/control/Storage.java:118-124`). The content package reports it
  as a `StorageException` (`content/control/Storage.java:126-132`).

## Model

| member | source | states |
|---|---|---|
| Base.Take | src/main/java/alexnerd/content/content/control/Storage.java:96-98 | `limit(n)` keeps a prefix of the stream, of length `n` when the stream has that many elements and the whole stream otherwise |
| Text.JavaSplit | src/main/java/alexnerd/content/content/control/Storage.java:146 | no piece of `date.split("-")` contains the separator, and a date without a separator is a single piece |
| Text.JavaSplitTrailingSeparator | src/main/java/alexnerd/content/content/control/Storage.java:146 | `split` drops the empty piece a trailing separator leaves: "2016-1-1-" splits as "2016-1-1" does |
| Text.JoinJavaSplit | src/main/java/alexnerd/content/content/control/Storage.java:146 | when the string does not end with the separator, joining the pieces of `split` with the separator gives the string back |
| Text.ParseInt | src/main/java/alexnerd/content/content/control/Storage.java:104-105 | `Integer.valueOf` yields only 32-bit values |
| Text.ParseIntSyntax | src/main/java/alexnerd/content/content/control/Storage.java:104-105 | only an optional sign followed by at least one ASCII digit parses, and only a name with a minus sign is negative; any other name is a NumberFormatException |
| Text.ParseIntPadded | src/main/java/alexnerd/content/content/control/Storage.java:104-105 | a zero-padded decimal name such as "01" parses to the number it pads |
| Text.ParseIntSigned | src/main/java/alexnerd/content/content/control/Storage.java:104-105 | "+n" parses to n and "-n" to -n, down to the smallest 32-bit value |
| Text.ParseIntRejectsLetters | src/main/java/alexnerd/content/content/control/Storage.java:104-105 | "2016a", "" and "-" are NumberFormatExceptions |
| Text.ParseIntDecimal | src/main/java/alexnerd/content/content/control/Storage.java:104-105 | a directory named by the decimal digits of a 32-bit natural number parses back to that number |
| FileSystem.Segments | src/main/java/alexnerd/content/content/control/Storage.java:51 | `Path.of` yields non-empty names without a slash |
| FileSystem.SegmentsAround | src/main/java/alexnerd/content/posts/control/Storage.java:50 | `Path.of` of two strings joined by "/" is the path of the first followed by the path of the second |
| FileSystem.ReadString | src/main/java/alexnerd/content/content/control/Storage.java:136 | `Files.readString` succeeds only on a regular file |
| TitleNormalizer.Init | src/main/java/alexnerd/content/content/control/TitleNormalizer.java:26-36 | the separator is the first code point of the configured string; an empty string fails with NoSuchElementException, and only then |
| TitleNormalizer.ReplaceDigitOrLetter | src/main/java/alexnerd/content/content/control/TitleNormalizer.java:45-51 | a code point is kept or replaced by the separator, and kept exactly when it is a letter or digit or already the separator |
| TitleNormalizer.Normalize | src/main/java/alexnerd/content/content/control/TitleNormalizer.java:38-51 | same length as the title; each letter or digit kept in place, every other code point replaced by the separator |
| TitleNormalizer.NormalizedAlphabet | src/main/java/alexnerd/content/content/control/TitleNormalizer.java:45-51 | a normalised title holds only letters, digits and the separator |
| TitleNormalizer.NormalizeIdempotent | src/main/java/alexnerd/content/content/control/TitleNormalizer.java:45-51 | normalising twice gives what normalising once gives |
| TitleNormalizer.NormalizedHasNoSlash | src/main/java/alexnerd/content/content/control/TitleNormalizer.java:38-51 | with a separator other than '/', a normalised title is a single path name |
| TitleNormalizer.NormalizeHelloWorld | src/test/java/alexnerd/content/posts/control/TitleNormalizerTest.java:40-45 | with separator "-", "hello%world" normalises to "hello-world" |
| ContentDeserializer.LastArticlesProjection | src/main/java/alexnerd/content/content/control/adapters/ContentDeserializer.java:27-30 | the projection keeps title, creation date and link, and has the LAST_ARTICLES type and no content or rubric |
| ContentDeserializer.ProjectionIdempotent | src/main/java/alexnerd/content/content/control/adapters/ContentDeserializer.java:27-31 | projecting a projection changes nothing |
| ContentDeserializer.Deserialize | src/main/java/alexnerd/content/content/control/adapters/ContentDeserializer.java:24-34 | an unsupported type fails with IllegalStateException naming it; otherwise success exactly when binding succeeds, with POST, ARTICLE and ARTICLE_TEASER returning the bound record unchanged and LAST_ARTICLES its projection |
| ContentDeserializer.DeserializeProjectionFixed | src/main/java/alexnerd/content/content/control/adapters/ContentDeserializer.java:27-31 | a stored LAST_ARTICLES projection comes back unchanged |
| Sorting.SortDescSpec | src/main/java/alexnerd/content/content/control/Storage.java:108 | the sort yields a permutation of its input, in descending order of the key |
| Sorting.SortDescMembers | src/main/java/alexnerd/content/content/control/Storage.java:119 | every sorted element comes from the input |
| RecencyScan.SubDirectoriesSpec | src/main/java/alexnerd/content/content/control/Storage.java:107 | the `isDirectory` filter keeps exactly the directories |
| RecencyScan.ContentFilesSpec | src/main/java/alexnerd/content/content/control/Storage.java:117-118 | the file filters keep exactly the non-directories whose name ends in ".json" |
| RecencyScan.SomeNameNotIntegerMeans | src/main/java/alexnerd/content/content/control/Storage.java:104-105 | the comparator's parse fails exactly when some directory name is not an integer |
| RecencyScan.SomeCreationTimeMissingMeans | src/main/java/alexnerd/content/content/control/Storage.java:126-131 | the comparator's attribute read fails exactly when some file's creation time is unreadable |
| RecencyScan.ListDirectories | src/main/java/alexnerd/content/content/control/Storage.java:103-113 | listing the subdirectories fails only on the listing or on a name that is not an integer, never on a creation time; a listing holds as many entries as there are subdirectories, and `RecencyScan.ListDirectoriesSpec` states which and in what order |
| RecencyScan.NamesSortAsNumbers | src/main/java/alexnerd/content/content/control/Storage.java:104-105 | directories "9" and "10" are listed "10" first: names compare as numbers, not as strings |
| RecencyScan.ListContentFiles | src/main/java/alexnerd/content/content/control/Storage.java:115-124 | listing the files fails only on the listing or on a creation time; a listing holds as many entries as there are content files, and `RecencyScan.ListContentFilesSpec` states which and in what order |
| RecencyScan.ListDirectoriesSpec | src/main/java/alexnerd/content/content/control/Storage.java:103-113 | listing fails exactly when the directory cannot be listed. Parsing fails exactly when there are two or more subdirectories and one name is not an integer. Otherwise every subdirectory appears once, in descending number order |
| RecencyScan.ListContentFilesSpec | src/main/java/alexnerd/content/content/control/Storage.java:115-124 | listing fails exactly when the directory cannot be listed. The creation-time read fails exactly when there are two or more content files and one is unreadable. Otherwise every content file appears once, newest first |
| RecencyScan.PathsOf | src/main/java/alexnerd/content/content/control/Storage.java:106 | each listed entry's path is the directory's path followed by its name, in listing order |
| RecencyScan.Scan | src/main/java/alexnerd/content/content/control/Storage.java:82-101 | a successful scan returns at most `limit` paths |
| RecencyScan.ScanSiblings | src/main/java/alexnerd/content/content/control/Storage.java:87-93 | the sibling loop returns at most `limit` paths |
| RecencyScan.ScanSiblingsStep | src/main/java/alexnerd/content/content/control/Storage.java:88-92 | a subdirectory's failure ends the loop. A subdirectory that fills the budget ends it too. Otherwise the subdirectory's paths come before those of the later subdirectories |
| RecencyScan.SiblingsLoopStep | src/main/java/alexnerd/content/content/control/Storage.java:88-93 | one turn of the loop takes the collected paths plus one subdirectory's result to the outcome of the whole loop |
| RecencyScan.LeafScanNewestFirst | src/main/java/alexnerd/content/content/control/Storage.java:94-99 | at depth 0 the scan returns the first content files of the newest-first listing, in that order |
| RecencyScan.ScanPathsUnder | src/main/java/alexnerd/content/content/control/Storage.java:82-101 | every path returned lies exactly depth + 1 levels below the scanned directory |
| RecencyScan.SiblingPathsUnder | src/main/java/alexnerd/content/content/control/Storage.java:87-93 | every path the loop returns lies under one of the visited subdirectories |
| RecencyScan.BackfillFromOlderDay | src/main/java/alexnerd/content/content/control/Storage.java:87-99 | with limit 3, a newer day directory with 2 files gives both, and the next older day directory gives only its newest file |
| RecencyScan.ScanIsPrefixOfAll | src/main/java/alexnerd/content/content/control/Storage.java:82-101 | whenever the whole walk succeeds, the scan is its first `limit` paths: nothing reordered, skipped or invented |
| RecencyScan.SiblingsArePrefixOfAll | src/main/java/alexnerd/content/content/control/Storage.java:87-93 | the same for the sibling loop |
| RecencyScan.ShortScanIsAll | src/main/java/alexnerd/content/content/control/Storage.java:82-101 | a scan returns fewer than `limit` paths only when the subtree holds no more |
| RecencyScan.ShortSiblingsAreAll | src/main/java/alexnerd/content/content/control/Storage.java:87-93 | the same for the sibling loop |
| RecencyScan.SiblingsStopWhenFull | src/main/java/alexnerd/content/content/control/Storage.java:90-92 | once the budget is filled, later subdirectories are never visited: whatever they hold, failures included, the outcome stays the same |
| ContentStorage.ScanFailure | src/main/java/alexnerd/content/content/control/Storage.java:110-112 | a scan failure is a StorageException with the default status, except a non-integer directory name, whose NumberFormatException passes through |
| ContentStorage.DateSegmentsOfNames | src/main/java/alexnerd/content/content/control/Storage.java:146-149 | date tokens that are plain names each add one level, in order |
| ContentStorage.ContentPathShape | src/main/java/alexnerd/content/content/control/Storage.java:142-151 | the document path is the storage root, then the language, the base directory, each date token and the file name with ".json" |
| ContentStorage.ReadFailureNamesFile | src/main/java/alexnerd/content/content/control/Storage.java:134-140 | the read failure for a document names the requested file, its normalised title with ".json" |
| ContentStorage.DateOfThreeLevels | src/main/java/alexnerd/content/content/control/Storage.java:146-149 | "2016-1-1" splits into three date levels |
| ContentStorage.Storage.constructor | src/main/java/alexnerd/content/content/control/Storage.java:49-52 | the storage directory is `Path.of` of the configured base directory |
| ContentStorage.Storage.GetContentDirectoryPath | src/main/java/alexnerd/content/content/control/Storage.java:54-58 | the type's directory is the base directory, then the language, then the type's base directory |
| ContentStorage.Storage.ReadContent | src/main/java/alexnerd/content/content/control/Storage.java:134-140 | the text of a readable file; otherwise a StorageException naming the file |
| ContentStorage.Storage.ReadContents | src/main/java/alexnerd/content/content/control/Storage.java:77-79 | a successful read gives one text per path, each that path's content, in the same order |
| ContentStorage.Storage.ReadContentsFailure | src/main/java/alexnerd/content/content/control/Storage.java:77-79 | the list fails exactly when some path is unreadable, and then with the exception of the first unreadable path |
| ContentStorage.Storage.ConstructContentPath | src/main/java/alexnerd/content/content/control/Storage.java:142-151 | the loop builds exactly the document path: root, language, base directory, each date token in turn, and the file name with ".json" |
| ContentStorage.Storage.GetContent | src/main/java/alexnerd/content/content/control/Storage.java:64-72 | FileNotFoundException exactly when the path is missing or is not a regular file; otherwise the read outcome of that path |
| ContentStorage.Storage.GetLastContentPath | src/main/java/alexnerd/content/content/control/Storage.java:82-101 | the loop with fresh lists returns exactly the scan specification, with failures reported as this class's exceptions |
| ContentStorage.Storage.GetLastContent | src/main/java/alexnerd/content/content/control/Storage.java:74-80 | the texts of the scanned paths, one per path, in scan order |
| Metrics.CountHit | src/main/java/alexnerd/content/metrics/ContentMetrics.java:49-51 | the title's counter goes up by one, starting from zero, and every other counter is unchanged |
| Metrics.CountHitCounts | src/main/java/alexnerd/content/metrics/PostsMetrics.java:49-51 | a hit adds one to that title's count and leaves the other titles' counts |
| ContentStore.DeserializeAll | src/main/java/alexnerd/content/content/control/ContentStore.java:52-57 | on success, one record per text, same length and order, each the deserialisation of its text |
| ContentStore.DeserializeAllFailure | src/main/java/alexnerd/content/content/control/ContentStore.java:52-57 | the list fails exactly when some text fails to deserialise, and then with the first text's failure |
| ContentStore.Store.constructor | src/main/java/alexnerd/content/content/control/ContentStore.java:29-38 | the store starts with no hits and no misses |
| ContentStore.Store.Read | src/main/java/alexnerd/content/content/control/ContentStore.java:40-50 | looks up the normalised title. A miss counts one miss and no hit, and answers 404. A read failure propagates and counts nothing. A read document counts one hit for the raw title, then is deserialised with the requested type |
| ContentStore.Store.ReadLast | src/main/java/alexnerd/content/content/control/ContentStore.java:52-57 | the records of the scanned texts in scan order, at most `limit` of them |
| PostsStorage.ScanFailure | src/main/java/alexnerd/content/posts/control/Storage.java:100-102 | only a listing failure is a StorageException; a non-integer name is a NumberFormatException and an unreadable creation time a RuntimeException |
| PostsStorage.PathList.constructor | src/main/java/alexnerd/content/posts/control/Storage.java:63 | the shared list starts empty |
| PostsStorage.PathList.Add | src/main/java/alexnerd/content/posts/control/Storage.java:88 | `add` appends one path and keeps the rest |
| PostsStorage.PathList.AddEach | src/main/java/alexnerd/content/posts/control/Storage.java:86-88 | `forEach(add)` appends the paths in order |
| PostsStorage.Storage.constructor | src/main/java/alexnerd/content/posts/control/Storage.java:44-47 | the storage directory is `Path.of` of the configured base directory |
| PostsStorage.Storage.GetContentDirectoryPath | src/main/java/alexnerd/content/posts/control/Storage.java:49-51 | `Path.of` of the slash-joined string is the base directory, then the language, then the type's base directory |
| PostsStorage.Storage.SetStorageDir | src/main/java/alexnerd/content/posts/control/Storage.java:57-59 | only the base directory changes. Later directory paths use the new value; the storage directory stays as it was |
| PostsStorage.Storage.GetLastItems | src/main/java/alexnerd/content/posts/control/Storage.java:73-90 | appends to the shared list and never removes or reorders earlier entries. What it appends, and how it fails, is the scan specification with the budget left |
| PostsStorage.Storage.GetLastItemsOfEach | src/main/java/alexnerd/content/posts/control/Storage.java:77-83 | the sibling loop over the shared list appends exactly the specification of the sibling loop and stops when the list holds `limit` paths |
| PostsStorage.Storage.GetLastItemsPath | src/main/java/alexnerd/content/posts/control/Storage.java:62-71 | starts from an empty list and returns exactly the scan specification of the type's directory, with failures reported as this class's exceptions |
| PostStore.Store.constructor | src/main/java/alexnerd/content/posts/control/PostStore.java:48-52 | the store starts with no hits and no misses |
| PostStore.Store.GetPostPath | src/main/java/alexnerd/content/posts/control/PostStore.java:106-120 | the builder loop yields language "/" base directory "/", then each date token followed by "/", then the file name with ".json" |
| PostStore.Store.FileExists | src/main/java/alexnerd/content/posts/control/PostStore.java:76-79 | a regular file at the path passes the check, and a path that fails it cannot be read |
| PostStore.Store.DirectoryPassesExistenceCheck | src/main/java/alexnerd/content/posts/control/PostStore.java:76-79 | a directory at a post's path counts as existing, and reading it then fails with the read exception |
| PostStore.Store.ReadPost | src/main/java/alexnerd/content/posts/control/PostStore.java:98-104 | the text of a readable file; otherwise a StorageException naming the file |
| PostStore.Store.LoadPosts | src/main/java/alexnerd/content/posts/control/PostStore.java:68-74 | on success, one post per path, in order, each the read and deserialised file of its path |
| PostStore.Store.LoadPostsFailure | src/main/java/alexnerd/content/posts/control/PostStore.java:68-74 | each path is read and deserialised in turn, so the list fails exactly when some post fails to read or deserialise, and then with the first such failure |
| PostStore.Store.Read | src/main/java/alexnerd/content/posts/control/PostStore.java:54-66 | the hit for the raw title is always counted. A missing path counts one miss and answers 404 without reading. Otherwise the post is read and deserialised |
| PostStore.Store.ReadLast | src/main/java/alexnerd/content/posts/control/PostStore.java:68-74 | the posts of a depth-3 scan, in scan order, at most `limit` of them |
| Agreement.DateDirsSegments | src/main/java/alexnerd/content/posts/control/PostStore.java:112-116 | the date part of a post path string resolves to the same levels as resolving the date tokens one by one |
| Agreement.PostPathIsContentPath | src/main/java/alexnerd/content/posts/control/PostStore.java:106-120 | the post path string resolved against the storage directory is the path the content package builds |
| Agreement.PostReadFailureNamesFile | src/main/java/alexnerd/content/posts/control/PostStore.java:98-104 | the read failure for a post names the requested file, its normalised title with ".json" |
| Agreement.DirectoryPathsAgree | src/main/java/alexnerd/content/posts/control/Storage.java:49-51 | with the same non-empty base directory, both packages scan the same directory for a language and type |
| Agreement.ScanVersionsAgree | src/main/java/alexnerd/content/posts/control/Storage.java:73-90 | with the same non-empty base directory, the shared-list scan and the fresh-list scan succeed together with the same paths in the same order, or fail for the same cause |
| Agreement.CausesDifferOnlyInCreationTime | src/main/java/alexnerd/content/posts/control/Storage.java:118-124 | both packages raise NumberFormatException for the same cause. An unreadable creation time is a StorageException only in the content package |
| Agreement.LoadPostsAgree | src/main/java/alexnerd/content/posts/control/PostStore.java:68-74 | when every post is readable, reading and deserialising each in turn equals reading all first and deserialising after |

## Left out

- Negative limits: `Stream.limit` throws IllegalArgumentException on them, and the limit is a natural number throughout the model. The REST resources accept only 1 to 10.
- Names within a directory are assumed unique, as on a real filesystem. The `Node` tree does not enforce it; `FindChild` takes the first child with the name, so a tree with duplicate names is a state the model admits and no filesystem reaches.
- Real I/O: the filesystem is a fixed snapshot. Concurrent changes to the tree between listing and reading are not modelled.
- `Path.of` and `resolve` are modelled for Unix relative names only. Absolute second arguments, ".", "..", symbolic links, the working directory and other platforms are not modelled.
- ContentStorage.ScanFailure: the Java messages for listing failures and unreadable creation times end with the path or file name. The model keeps only the fixed text before it.
- PostsStorage.ScanFailure: the same; `getCreationTime`'s message names the file, and the model keeps only the fixed text.
- A failure of `getFiles` after `getDirectories` listed the same directory cannot happen on a snapshot. Both are one listing failure.
- TimSort's exact comparisons are not modelled. A comparator failure is taken to surface exactly when two or more elements are sorted, since every element is then compared at least once.
- The order of entries with equal keys is the listing order, as in a stable sort. The snapshot's child order stands for the order `Files.list` returns.
- `Character.isLetterOrDigit` and Unicode data are a parameter. Dafny characters are Unicode scalar values, so lone surrogates in a title are not modelled.
- JSON binding (`JsonMapper`, `Mapper`) is the parameter `load`.
- Text.ParseInt: only the ASCII digits '0' to '9' are modelled. `Integer.valueOf` reads digits with `Character.digit`, which also accepts the other Unicode decimal digits (such as '٢' or '２'); a directory named with them is an integer in Java and a NumberFormatException in the model.
- ContentDeserializer.Deserialize: `load` either binds a record or fails. JSON-B binds the document `null` to a null record without throwing; Java then returns null for POST, ARTICLE and ARTICLE_TEASER and throws a NullPointerException for LAST_ARTICLES. Neither outcome is modelled.
- Agreement.DirectoryPathsAgree: not claimed for an empty base directory. The posts package then scans the absolute "/<language>/<type>" and the content package the relative "<language>/<type>"; paths in the model carry no absolute flag, so `Segments` cannot tell the two apart.
- Agreement.ScanVersionsAgree: not claimed for an empty base directory, for the same reason.
- The metric registry and the disk-space gauges are not modelled. The counters are a map and a number in each store.
- The REST resources, the liveness check, dependency injection and configuration lookup are not modelled. Configuration values are constructor arguments.
- The posts package's `TitleNormalizer`, `Lang`, `ContentType`, `Post` and `Mapper` are not part of this model. They are taken to behave as the content package's, with `Post` holding the same six fields as `Content`.
- `ContentType.java` is not part of this model. A content type carries the directory name `getBaseDir()` returns.
- The directory loop of `getLastItems` is modelled as its own method, `PostsStorage.Storage.GetLastItemsOfEach`, which the recursion calls.
