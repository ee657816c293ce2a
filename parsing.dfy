/**
 * The page parser. The selector queries and the HTML library are outside the
 * model: each page arrives as the strings the queries extracted, and the
 * HTML-to-Markdown conversion is the uninterpreted parameter `md`.
 */
module Parsing {
  import opened Wrappers
  import opened Text
  import opened Records

  /** An anchor element: its inner HTML and its `href` attribute, if any. */
  datatype Anchor = Anchor(html: string, href: Option<string>)

  /** A listing entry: the HTML of its first and second `span` and the anchor's `href`. */
  datatype ListingElement = ListingElement(nameHtml: string, href: Option<string>, taglineHtml: string)

  /**
   * A bot's detail page: the HTML of the description block, the `href` of the
   * first install link (each absent when the page lacks it) and the tag anchors
   * in document order.
   */
  datatype DetailPage = DetailPage(output: Option<string>, installHref: Option<string>, tags: seq<Anchor>)

  /** A calendar date as JavaScript's `Date` reports it: `month` counts from 0. */
  datatype Date = Date(fullYear: int, month: int, day: int)

  /** `getDate()` without the clock: year, month + 1 and day joined by '_'. */
  function DateStamp(d: Date): string {
    Join([IntToString(d.fullYear), IntToString(d.month + 1), IntToString(d.day)], '_')
  }

  /** Reads a date stamp back into the date it was written from. */
  function ParseDateStamp(s: string): Option<Date> {
    var parts := Split(s, '_');
    if |parts| == 3 && ParseInt(parts[0]).Some? && ParseInt(parts[1]).Some? && ParseInt(parts[2]).Some?
    then Some(Date(ParseInt(parts[0]).value, ParseInt(parts[1]).value - 1, ParseInt(parts[2]).value))
    else None
  }

  /** A date stamp determines its date: the stamp parses back to the year, the 0-based month and the day. */
  lemma DateStampRoundTrip(d: Date)
    ensures ParseDateStamp(DateStamp(d)) == Some(d)
  {
    var parts := [IntToString(d.fullYear), IntToString(d.month + 1), IntToString(d.day)];
    IntToStringHasNo(d.fullYear, '_');
    IntToStringHasNo(d.month + 1, '_');
    IntToStringHasNo(d.day, '_');
    SplitJoin(parts, '_');
    IntToStringRoundTrip(d.fullYear);
    IntToStringRoundTrip(d.month + 1);
    IntToStringRoundTrip(d.day);
  }

  /** The listing record of the entry at 0-based position `index`. */
  function ParseOneBot(md: string -> string, index: nat, el: ListingElement): Listing {
    Listing(md(el.nameHtml), BASE_URI + AttrText(el.href), md(el.taglineHtml), index + 1)
  }

  /**
   * The snapshot of one category page. A missing selection gives no snapshot
   * (the source returns `{}`); otherwise the results keep document order, the
   * i-th (0-based) ranked i + 1 with its url built from its `href`.
   */
  method ParseAllBots(md: string -> string, bots: Option<seq<ListingElement>>, categoryName: string,
                      savedCategories: map<string, string>, today: Date)
    returns (page: Option<CategoryPage>)
    ensures page.None? <==> bots.None?
    ensures page.Some? ==> page.value.date == DateStamp(today)
    ensures page.Some? ==> page.value.category == CategoryRef(Lookup(savedCategories, categoryName), categoryName)
    ensures page.Some? ==> |page.value.results| == |bots.value|
    ensures page.Some? ==> forall i :: 0 <= i < |bots.value| ==>
              var r := page.value.results[i];
              r.rank == i + 1 && r.url == BASE_URI + AttrText(bots.value[i].href) &&
              r.name == md(bots.value[i].nameHtml) && r.tagline == md(bots.value[i].taglineHtml)
  {
    if bots.None? {
      return None;
    }
    var elements := bots.value;
    var date := DateStamp(today);
    var category := CategoryRef(Lookup(savedCategories, categoryName), categoryName);
    var results: seq<Listing> := [];
    for i := 0 to |elements|
      invariant |results| == i
      invariant forall j :: 0 <= j < i ==> results[j] == ParseOneBot(md, j, elements[j])
    {
      results := results + [ParseOneBot(md, i, elements[i])];
    }
    page := Some(CategoryPage(date, category, results));
  }

  /** Name and url of a category link. */
  function CategoryName(md: string -> string, a: Anchor): string {
    md(a.html)
  }

  function CategoryUrl(a: Anchor): string {
    BASE_URI + AttrText(a.href)
  }

  /** No link after position `i` carries the same category name. */
  ghost predicate LastOfName(md: string -> string, cs: seq<Anchor>, i: int)
    requires 0 <= i < |cs|
  {
    forall j :: i < j < |cs| ==> CategoryName(md, cs[j]) != CategoryName(md, cs[i])
  }

  /**
   * The category map of the directory page: every category name maps to the
   * url of the LAST link carrying that name; a missing selection gives the
   * empty map.
   */
  method ParseAllCategories(md: string -> string, categories: Option<seq<Anchor>>)
    returns (json: map<string, string>)
    ensures categories.None? ==> json == map[]
    ensures categories.Some? ==> forall k :: k in json <==>
              exists i :: 0 <= i < |categories.value| && CategoryName(md, categories.value[i]) == k
    ensures categories.Some? ==> forall i :: 0 <= i < |categories.value| && LastOfName(md, categories.value, i) ==>
              json[CategoryName(md, categories.value[i])] == CategoryUrl(categories.value[i])
  {
    json := map[];
    if categories.None? {
      return;
    }
    var cs := categories.value;
    for i := 0 to |cs|
      invariant forall k :: k in json <==> exists j :: 0 <= j < i && CategoryName(md, cs[j]) == k
      invariant forall j :: 0 <= j < i && (forall j' :: j < j' < i ==> CategoryName(md, cs[j']) != CategoryName(md, cs[j])) ==>
                  json[CategoryName(md, cs[j])] == CategoryUrl(cs[j])
    {
      json := json[CategoryName(md, cs[i]) := CategoryUrl(cs[i])];
    }
  }

  /** A tag anchor as a `{ name, url }` pair: Markdown of its trimmed HTML and the url of its `href`. */
  function ParseTag(md: string -> string, a: Anchor): Tag {
    Tag(md(Trim(a.html)), BASE_URI + AttrText(a.href))
  }

  /** The tag anchors of a detail page as tags, in document order. */
  method ParseTags(md: string -> string, tags: seq<Anchor>) returns (categories: seq<Tag>)
    ensures |categories| == |tags|
    ensures forall i :: 0 <= i < |tags| ==> categories[i] == ParseTag(md, tags[i])
  {
    categories := [];
    for i := 0 to |tags|
      invariant |categories| == i
      invariant forall j :: 0 <= j < i ==> categories[j] == ParseTag(md, tags[j])
    {
      categories := categories + [ParseTag(md, tags[i])];
    }
  }

  /**
   * The detail record of bot `name`: a copy of its saved record with only
   * description, categories and site replaced. A missing or empty description
   * or install link falls back to "null"; the categories follow tag order.
   * A name with no saved record has no copy to take: the source's deep copy
   * throws, modelled as `None`.
   */
  method ParseDetailedBotData(md: string -> string, page: DetailPage, name: string, savedBots: map<string, Bot>)
    returns (r: Option<Bot>)
    ensures r.None? <==> name !in savedBots
    ensures r.Some? ==> r.value.name == savedBots[name].name && r.value.url == savedBots[name].url
                        && r.value.tagline == savedBots[name].tagline
    ensures r.Some? ==> r.value.description == md(OrElse(page.output, NULL_ENTRY))
                        && r.value.site == OrElse(page.installHref, NULL_ENTRY)
    ensures r.Some? ==> r.value.site != ""
    ensures r.Some? ==> |r.value.categories| == |page.tags|
    ensures r.Some? ==> forall i :: 0 <= i < |page.tags| ==>
              r.value.categories[i].name == md(Trim(page.tags[i].html)) &&
              r.value.categories[i].url == BASE_URI + AttrText(page.tags[i].href)
  {
    if name !in savedBots {
      return None;
    }
    var botCopy := savedBots[name];
    var description := OrElse(page.output, NULL_ENTRY);
    var site := OrElse(page.installHref, NULL_ENTRY);
    var categories := ParseTags(md, page.tags);
    botCopy := botCopy.(description := md(description), categories := categories, site := site);
    r := Some(botCopy);
  }
}
