/** The normalisation of one parsed feed item into an article record
    (utils/fetchFeeds.js, the body of `items.forEach`). */
module Articles {
  import opened JsValues
  import opened ImageExtractor

  /** A date field as the parser hands it over: its text, which decides the
      `||` chain, and the timestamp `new Date(text).getTime()` gives for it. */
  datatype Stamp = Stamp(text: string, millis: int)

  predicate StampTruthy(d: Option<Stamp>) {
    d.Some? && d.value.text != ""
  }

  datatype Enclosure = Enclosure(url: Option<string>)

  /** An item of a parsed feed; every field may be missing. */
  datatype RawItem = RawItem(
    title: Option<string>,
    link: Option<string>,
    guid: Option<string>,
    isoDate: Option<Stamp>,
    pubDate: Option<Stamp>,
    contentSnippet: Option<string>,
    summary: Option<string>,
    enclosure: Option<Enclosure>,
    content: Option<string>,
    contentEncoded: Option<string>)  // the field named `content:encoded`

  /** The normalised article the aggregator stores. */
  datatype Article = Article(
    title: string,
    link: string,
    pubDate: Option<Stamp>,
    snippet: string,
    source: string,
    image: Option<string>)

  /** `item.enclosure && item.enclosure.url ? item.enclosure.url : null` */
  function EnclosureImage(item: RawItem): (r: Option<string>)
    ensures r.Some? <==> item.enclosure.Some? && Truthy(item.enclosure.value.url)
    ensures r.Some? ==> r == item.enclosure.value.url
  {
    if item.enclosure.Some? && Truthy(item.enclosure.value.url) then item.enclosure.value.url else None
  }

  /** The HTML handed to extractImage: `item['content:encoded'] || item.content || ''`. */
  function ImageHtml(item: RawItem): (html: string)
    ensures Truthy(item.contentEncoded) ==> html == item.contentEncoded.value
    ensures !Truthy(item.contentEncoded) && Truthy(item.content) ==> html == item.content.value
    ensures !Truthy(item.contentEncoded) && !Truthy(item.content) ==> html == ""
  {
    OrElse(Or(item.contentEncoded, item.content), "")
  }

  /** `enclosureImage || contentImage` */
  function ImageOf(item: RawItem): (r: Option<string>)
    ensures EnclosureImage(item).Some? ==> r == item.enclosure.value.url
    ensures EnclosureImage(item).None? && Truthy(item.contentEncoded) ==> r == ExtractImage(item.contentEncoded)
    ensures EnclosureImage(item).None? && !Truthy(item.contentEncoded) && Truthy(item.content) ==>
              r == ExtractImage(item.content)
    ensures EnclosureImage(item).None? && !Truthy(item.contentEncoded) && !Truthy(item.content) ==> r.None?
    ensures r.None? <==> EnclosureImage(item).None? && forall p, q, n :: !Matches(ImageHtml(item), p, q, n)
  {
    var contentImage := ExtractImage(Some(ImageHtml(item)));
    match EnclosureImage(item)
    case Some(url) => Some(url)
    case None => contentImage
  }

  /** `item.isoDate || item.pubDate || null` */
  function DateOf(item: RawItem): (r: Option<Stamp>)
    ensures StampTruthy(item.isoDate) ==> r == item.isoDate
    ensures !StampTruthy(item.isoDate) && StampTruthy(item.pubDate) ==> r == item.pubDate
    ensures !StampTruthy(item.isoDate) && !StampTruthy(item.pubDate) ==> r.None?
  {
    if StampTruthy(item.isoDate) then item.isoDate
    else if StampTruthy(item.pubDate) then item.pubDate
    else None
  }

  /** The article pushed for `item` of the feed whose configured name is `source`. */
  function Normalise(item: RawItem, source: string): (a: Article)
    ensures a.source == source
    ensures Truthy(item.title) ==> a.title == item.title.value
    ensures !Truthy(item.title) ==> a.title == ""
    ensures Truthy(item.link) ==> a.link == item.link.value
    ensures !Truthy(item.link) && Truthy(item.guid) ==> a.link == item.guid.value
    ensures !Truthy(item.link) && !Truthy(item.guid) ==> a.link == "#"
    ensures a.pubDate == DateOf(item)
    ensures a.pubDate.Some? ==> a.pubDate.value.text != ""
    ensures Truthy(item.contentSnippet) ==> a.snippet == item.contentSnippet.value
    ensures !Truthy(item.contentSnippet) && Truthy(item.summary) ==> a.snippet == item.summary.value
    ensures !Truthy(item.contentSnippet) && !Truthy(item.summary) ==> a.snippet == ""
    ensures a.image == ImageOf(item)
  {
    Article(
      title := OrElse(item.title, ""),
      link := OrElse(Or(item.link, item.guid), "#"),
      pubDate := DateOf(item),
      snippet := OrElse(Or(item.contentSnippet, item.summary), ""),
      source := source,
      image := ImageOf(item))
  }

  /** A non-empty `content:encoded` hides `content`: what `content` holds, with or
      without an image, never changes the article. */
  lemma ContentIgnoredWhenEncoded(item: RawItem, other: Option<string>, source: string)
    requires Truthy(item.contentEncoded)
    ensures Normalise(item.(content := other), source) == Normalise(item, source)
  {
  }

  /** The enclosure URL beats any HTML image; a missing enclosure URL leaves the
      choice to the HTML. */
  lemma EnclosureWins(item: RawItem, url: string, source: string)
    requires url != ""
    ensures Normalise(item.(enclosure := Some(Enclosure(Some(url)))), source).image == Some(url)
  {
  }
}
