/**
 * The per-item derivations of `FetchSource` (backend/pkg/rss/rss.go): the
 * fallback rules that turn one parsed feed item into the column values of
 * the inserted article. Feed fetching and parsing happen before these
 * functions; the item arrives as data.
 */
module FeedItem {
  import opened Common
  import opened Text
  import opened StripHtml

  datatype Person = Person(name: string)
  datatype Enclosure = Enclosure(url: string, mimeType: string)

  /**
   * A parsed feed item. `image` is the URL of `item.Image` when the item
   * has an image element; dates are day numbers.
   */
  datatype Item = Item(
    title: string,
    link: string,
    description: string,
    content: string,
    image: Option<string>,
    enclosures: seq<Enclosure>,
    authors: seq<Person>,
    author: Option<Person>,
    publishedParsed: Option<int>,
    updatedParsed: Option<int>)

  /** The values `FetchSource` inserts for one item. */
  datatype ArticleRow = ArticleRow(
    title: string,
    url: string,
    description: string,
    content: string,
    author: Option<string>,
    publishedAt: Option<int>,
    imageUrl: Option<string>,
    readingTimeMinutes: int)

  const DescriptionLimit := 500
  const WordsPerMinute := 200

  /**
   * The description before HTML stripping: the item's own when it has one,
   * else its content, cut to 500 characters plus "..." when longer.
   */
  function RawDescription(description: string, content: string): (r: string)
    ensures description != "" ==> r == description
    ensures description == "" && |content| <= DescriptionLimit ==> r == content
    ensures description == "" && |content| > DescriptionLimit ==>
      |r| == DescriptionLimit + 3 && r[..DescriptionLimit] == content[..DescriptionLimit] && r[DescriptionLimit..] == "..."
  {
    if description == "" && content != "" then
      if |content| > DescriptionLimit then content[..DescriptionLimit] + "..." else content
    else description
  }

  /** The stored description: the raw description with its HTML stripped. */
  function Description(item: Item): (r: string)
    ensures NoAngle(r) && Normalized(r)
  {
    StripHtml.StrippedShape(RawDescription(item.description, item.content));
    Stripped(RawDescription(item.description, item.content))
  }

  predicate IsImage(e: Enclosure) {
    HasPrefix(e.mimeType, "image/")
  }

  /** The index of the first image enclosure, or |es| when there is none. */
  function FirstImage(es: seq<Enclosure>): (k: nat)
    ensures k <= |es|
    ensures forall j :: 0 <= j < k ==> !IsImage(es[j])
    ensures k < |es| ==> IsImage(es[k])
  {
    if es == [] then 0
    else if IsImage(es[0]) then 0
    else 1 + FirstImage(es[1..])
  }

  /**
   * The image: the item's image URL when non-empty, else the URL of the
   * first enclosure whose type starts with "image/", else none.
   */
  function ImageUrl(item: Item): (r: Option<string>)
    ensures item.image.Some? && item.image.value != "" ==> r == item.image
    ensures !(item.image.Some? && item.image.value != "") ==>
      (r.None? <==> forall j :: 0 <= j < |item.enclosures| ==> !IsImage(item.enclosures[j]))
    ensures !(item.image.Some? && item.image.value != "") && r.Some? ==>
      exists j :: 0 <= j < |item.enclosures| && IsImage(item.enclosures[j]) && r.value == item.enclosures[j].url
        && forall i :: 0 <= i < j ==> !IsImage(item.enclosures[i])
  {
    if item.image.Some? && item.image.value != "" then item.image
    else
      var k := FirstImage(item.enclosures);
      if k < |item.enclosures| then Some(item.enclosures[k].url) else None
  }

  /** The author: the first of `Authors`, else `Author`, else none. */
  function AuthorName(item: Item): (r: Option<string>)
    ensures |item.authors| > 0 ==> r == Some(item.authors[0].name)
    ensures |item.authors| == 0 && item.author.Some? ==> r == Some(item.author.value.name)
    ensures r.None? <==> |item.authors| == 0 && item.author.None?
  {
    if |item.authors| > 0 then Some(item.authors[0].name)
    else if item.author.Some? then Some(item.author.value.name)
    else None
  }

  /** The publication date: `PublishedParsed`, else `UpdatedParsed`, else none. */
  function PublishedAt(item: Item): (r: Option<int>)
    ensures item.publishedParsed.Some? ==> r == item.publishedParsed
    ensures item.publishedParsed.None? ==> r == item.updatedParsed
  {
    if item.publishedParsed.Some? then item.publishedParsed else item.updatedParsed
  }

  /** `int(math.Max(1, float64(words)/200))`: whole minutes at 200 words a minute, at least one. */
  function ReadingMinutes(words: nat): (m: int)
    ensures m >= 1
    ensures words >= WordsPerMinute ==> m * WordsPerMinute <= words < (m + 1) * WordsPerMinute
    ensures words < 2 * WordsPerMinute ==> m == 1
  {
    if words / WordsPerMinute < 1 then 1 else words / WordsPerMinute
  }

  /** Words are counted in the content, or in the stripped description when the content has none. */
  function WordCount(content: string, description: string): (n: nat)
    ensures |Fields(content)| > 0 ==> n == |Fields(content)|
    ensures |Fields(content)| == 0 ==> n == |Fields(description)|
  {
    var n := |Fields(content)|;
    if n == 0 then |Fields(description)| else n
  }

  /** The row `FetchSource` inserts for `item`. */
  function DeriveRow(item: Item): (r: ArticleRow)
    ensures r.title == item.title && r.url == item.link && r.content == item.content
    ensures NoAngle(r.description) && Normalized(r.description)
    ensures r.readingTimeMinutes >= 1
    ensures r.description == Description(item) && r.imageUrl == ImageUrl(item)
    ensures r.author == AuthorName(item) && r.publishedAt == PublishedAt(item)
    ensures r.readingTimeMinutes == ReadingMinutes(WordCount(item.content, r.description))
  {
    var description := Description(item);
    ArticleRow(item.title, item.link, description, item.content, AuthorName(item), PublishedAt(item),
               ImageUrl(item), ReadingMinutes(WordCount(item.content, description)))
  }

  /** Content becomes the description only when the description is empty and content is not. */
  lemma ContentUsedOnlyAsFallback(item: Item)
    ensures item.description != "" ==> Description(item) == Stripped(item.description)
    ensures item.description == "" && item.content == "" ==> Description(item) == ""
  {
    if item.description == "" && item.content == "" {
      assert Untagged("", false) == "";
      assert Fields("") == [];
    }
  }
}
