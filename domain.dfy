/** The values the store hands around: the language and content type that
    select a partition of the tree, the stored record, and the exceptions. */
module Domain {
  import opened Base

  /** A language constant; `name` is what `Lang.name()` returns. */
  datatype Lang = Lang(name: string)

  /** The constants of the content-type enumeration. `Other` stands for any
      further constant, which no deserialisation rule covers. */
  datatype Kind = POST | ARTICLE | ARTICLE_TEASER | LAST_ARTICLES | Other(constant: string)

  /** A content type with the directory name its `getBaseDir()` returns. */
  datatype ContentType = ContentType(kind: Kind, baseDir: string)

  /** The stored record; every reference field may be null after JSON
      binding, hence the options. */
  datatype Content = Content(
    title: Option<string>,
    contentType: Option<ContentType>,
    content: Option<string>,
    rubric: Option<string>,
    createDate: Option<string>,
    link: Option<string>)

  /** Whether a StorageException carries the 404 status or the default one. */
  datatype Status = NotFound404 | Default

  /** The exceptions the core throws or lets through. */
  datatype Failure =
    | StorageException(status: Status, message: string)
    | FileNotFoundException(message: string)
    | NumberFormatException
    | IllegalStateException(message: string)
    | RuntimeException(message: string)
    | NoSuchElementException

  /** The message a JSON binding failure carries once `JsonMapper.load` has
      wrapped it in a RuntimeException. */
  const JsonBindingFailed: string := "JSON binding failed"

  /** The name of a constant as `toString()` gives it, for messages. */
  function KindName(k: Kind): string
  {
    match k
    case POST => "POST"
    case ARTICLE => "ARTICLE"
    case ARTICLE_TEASER => "ARTICLE_TEASER"
    case LAST_ARTICLES => "LAST_ARTICLES"
    case Other(c) => c
  }
}
