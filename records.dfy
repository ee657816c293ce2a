/** The crawler's entities: listing results, saved bot records, category tags and per-category snapshots. */
module Records {
  import opened Wrappers

  /** Prefix of every url the crawler builds from an `href`. */
  const BASE_URI: string := "https://slack.com"

  /** What the detail parser stores for a missing description or install link. */
  const NULL_ENTRY: string := "null"

  /** A `{ name, url }` pair: a category tag on a bot's detail page. */
  datatype Tag = Tag(name: string, url: string)

  /** One result of a category listing page; `rank` is its 1-based position on the page. */
  datatype Listing = Listing(name: string, url: string, tagline: string, rank: nat)

  /**
   * A record of the saved-bots map (bots.json). Created skeletal from a listing,
   * later replaced as a whole by the detail fetch. It is complete once its
   * description is non-empty.
   */
  datatype Bot = Bot(name: string, url: string, tagline: string,
                     categories: seq<Tag>, description: string, site: string)

  /** The `category` field of a snapshot; `url` is absent when the category was not in the saved categories. */
  datatype CategoryRef = CategoryRef(url: Option<string>, name: string)

  /** The snapshot of one category listing: its date stamp, the category and the results in page order. */
  datatype CategoryPage = CategoryPage(date: string, category: CategoryRef, results: seq<Listing>)

  /** The skeletal saved record for a bot first seen in a listing. */
  function BuildBotFromSnapshot(l: Listing): Bot {
    Bot(l.name, l.url, l.tagline, [], "", "")
  }

  /** The JavaScript test `!description`: a record whose description is the empty string lacks details. */
  predicate LacksDescription(b: Bot) {
    b.description == ""
  }

  /** `m[k]` on a JavaScript object used as a dictionary: absent keys read as missing. */
  function Lookup<V>(m: map<string, V>, k: string): Option<V> {
    if k in m then Some(m[k]) else None
  }
}
