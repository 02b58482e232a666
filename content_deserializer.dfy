/** `alexnerd.content.content.control.adapters.ContentDeserializer`: turns
    a stored document into the record to answer with, by content type. The
    posts package's `PostStore.deserializeContent` is the same switch over a
    record of the same six fields and is modelled by the same function.
    `JsonMapper.load` is JSON binding and is taken as given: a function
    that yields the bound record, or `None` where it throws. */
module ContentDeserializer {
  import opened Base
  import opened Domain

  /** The LAST_ARTICLES view of a record: title, creation date and link
      only, under the requested type. */
  function LastArticlesProjection(c: Content, t: ContentType): (r: Content)
    ensures r.title == c.title && r.createDate == c.createDate && r.link == c.link
    ensures r.contentType == Some(t) && r.content.None? && r.rubric.None?
  {
    Content(c.title, Some(t), None, None, c.createDate, c.link)
  }

  /** Projecting a projected record gives the same record. */
  lemma ProjectionIdempotent(c: Content, t: ContentType)
    ensures LastArticlesProjection(LastArticlesProjection(c, t), t) == LastArticlesProjection(c, t)
  {
  }

  predicate StoredAsIs(k: Kind)
  {
    k == POST || k == ARTICLE || k == ARTICLE_TEASER
  }

  /** `deserialize`: the switch on the type is taken before anything is
      bound, so an unsupported type fails even on text that would not bind. */
  function Deserialize(text: string, t: ContentType, load: string -> Option<Content>): (r: Result<Content, Failure>)
    ensures t.kind.Other? ==> r == Err(IllegalStateException("Unsupported content type: " + KindName(t.kind)))
    ensures !t.kind.Other? ==> (r.Ok? <==> load(text).Some?)
    ensures !t.kind.Other? && load(text).None? ==> r == Err(RuntimeException(JsonBindingFailed))
    ensures StoredAsIs(t.kind) && r.Ok? ==> r.value == load(text).value
    ensures t.kind == LAST_ARTICLES && r.Ok? ==>
      r.value.contentType == Some(t) && r.value.content.None? && r.value.rubric.None? &&
      r.value.title == load(text).value.title && r.value.createDate == load(text).value.createDate &&
      r.value.link == load(text).value.link
  {
    match t.kind
    case POST | ARTICLE | ARTICLE_TEASER =>
      (match load(text)
       case Some(c) => Ok(c)
       case None => Err(RuntimeException(JsonBindingFailed)))
    case LAST_ARTICLES =>
      (match load(text)
       case Some(c) => Ok(LastArticlesProjection(c, t))
       case None => Err(RuntimeException(JsonBindingFailed)))
    case Other(_) => Err(IllegalStateException("Unsupported content type: " + KindName(t.kind)))
  }

  /** Deserialising a LAST_ARTICLES record that is already a projection
      returns it unchanged, when binding reproduces it. */
  lemma DeserializeProjectionFixed(text: string, t: ContentType, load: string -> Option<Content>)
    requires t.kind == LAST_ARTICLES
    requires load(text).Some?
    requires load(text).value == LastArticlesProjection(load(text).value, t)
    ensures Deserialize(text, t, load) == Ok(load(text).value)
  {
  }
}
