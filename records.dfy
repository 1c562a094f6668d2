/** The values the scrapers pass around: the article record they emit, the
    source configuration they read, the feed entries feedparser hands them,
    and the outside world (network, parsers, URL library) as an
    environment of functions. */
module Records {
  import opened Text
  import opened Html

  /** Seconds on the local wall clock; `datetime` values compare as these. */
  type Timestamp = int

  /** The article dictionary both scrapers build: `title`, `link`,
      `source`, `date` (`None` when the HTML path finds no `<time>`),
      `description` and `scraped_at`. */
  datatype Article = Article(
    title: string,
    link: string,
    source: string,
    date: Option<string>,
    description: string,
    scrapedAt: Timestamp)

  /** One configured source dictionary. A key that is absent is `None`:
      `'rss_url'` may be present with any value, `'url'` and
      `'selectors'` may be missing. */
  datatype SourceConfig = SourceConfig(
    name: string,
    url: Option<string>,
    rssUrl: Option<string>,
    selectors: Option<map<string, Selector>>)

  /** A `published_parsed` / `updated_parsed` time tuple: one that
      `datetime(*t[:6])` accepts, giving a timestamp, or one it rejects
      with a `ValueError`. */
  datatype StructTime = Convertible(ts: Timestamp) | OutOfRange

  /** A feedparser entry; each field is `None` when the entry lacks that key. */
  datatype Entry = Entry(
    title: Option<string>,
    link: Option<string>,
    published: Option<string>,
    updated: Option<string>,
    publishedParsed: Option<StructTime>,
    updatedParsed: Option<StructTime>,
    summary: Option<string>,
    description: Option<string>)

  /** What `dateutil.parser.parse` returns: the wall-clock reading and, when
      the string named one, a UTC offset in seconds. */
  datatype DateTime = DateTime(wall: Timestamp, offset: Option<int>)

  /** The outside world as functions of their arguments.
      - `page(url)`: `requests.get` then `raise_for_status` then the lxml
        parse; `None` when a `RequestException` is raised.
      - `feed(url)`: the entries feedparser yields for a feed URL, after
        fetching it by `requests` or by feedparser's own fallback.
      - `head(url)`: the status of `requests.head`; `None` when it raises.
      - `join(base, ref)`: `urljoin`; `None` when it raises `ValueError`.
      - `origin(url)`: `scheme://netloc` from `urlparse`; `None` when it raises.
      - `plainText(html)`: `BeautifulSoup(html).get_text(strip=True)`.
      - `parseDate(s)`: `dateutil` parsing; `None` when it raises. */
  datatype Env = Env(
    page: string -> Option<Element>,
    feed: string -> seq<Entry>,
    head: string -> Option<int>,
    join: (string, string) -> Option<string>,
    origin: string -> Option<string>,
    plainText: string -> string,
    parseDate: string -> Option<DateTime>)

  /** What extracting one container gives: no record (`None` in the code),
      a record, or an exception the per-element handler swallows. */
  datatype Extracted = NoRecord | Record(article: Article) | Raised

  /** What scraping one source gives: its articles, or an exception that
      reaches the per-source handler of `scrape_all_sources`. */
  datatype Outcome = Done(articles: seq<Article>) | Failed

  /** What one source adds to the aggregated list: nothing when it failed. */
  function Contribution(o: Outcome): seq<Article> {
    match o
    case Done(a) => a
    case Failed => []
  }

  const SecondsPerHour := 3600

  /** The aggregation loop both scrapers run: each source's contribution,
      in configured order, where `scrape` gives what one source yields. */
  function Aggregate(sources: seq<SourceConfig>, scrape: SourceConfig -> Outcome): seq<Article> {
    if sources == [] then []
    else Aggregate(sources[..|sources| - 1], scrape) + Contribution(scrape(sources[|sources| - 1]))
  }

  /** One more source processed appends its contribution. */
  lemma AggregateStep(sources: seq<SourceConfig>, i: nat, scrape: SourceConfig -> Outcome)
    requires i < |sources|
    ensures Aggregate(sources[..i + 1], scrape) == Aggregate(sources[..i], scrape) + Contribution(scrape(sources[i]))
  {
    assert sources[..i + 1][..i] == sources[..i];
  }

  /** Aggregation distributes over concatenation of source lists. */
  lemma {:induction false} AggregateAppend(a: seq<SourceConfig>, b: seq<SourceConfig>, scrape: SourceConfig -> Outcome)
    ensures Aggregate(a + b, scrape) == Aggregate(a, scrape) + Aggregate(b, scrape)
    decreases |b|
  {
    if b == [] {
      assert a + b == a;
    } else {
      assert (a + b)[..|a + b| - 1] == a + b[..|b| - 1];
      AggregateAppend(a, b[..|b| - 1], scrape);
    }
  }

  /** A source whose processing raises contributes nothing, and the sources
      after it are still processed. */
  lemma FailedSourceIsolated(sources: seq<SourceConfig>, k: nat, scrape: SourceConfig -> Outcome)
    requires k < |sources| && scrape(sources[k]).Failed?
    ensures Aggregate(sources, scrape) == Aggregate(sources[..k], scrape) + Aggregate(sources[k + 1..], scrape)
  {
    var front, back := sources[..k], sources[k + 1..];
    var upto := front + [sources[k]];
    assert sources == upto + back;
    AggregateAppend(upto, back, scrape);
    assert upto[..|upto| - 1] == front && upto[|upto| - 1] == sources[k];
    assert Aggregate(upto, scrape) == Aggregate(front, scrape) + [];
    assert Aggregate(front, scrape) + [] == Aggregate(front, scrape);
  }

  /** The names of the configured sources. */
  function Names(sources: seq<SourceConfig>): set<string> {
    set k | 0 <= k < |sources| :: sources[k].name
  }

  /** `lst[:n]` for the caps of 30 and 50. */
  function Take<T>(s: seq<T>, n: nat): (r: seq<T>)
    ensures |r| <= n && |r| <= |s|
    ensures |s| <= n ==> r == s
    ensures |s| > n ==> |r| == n
    ensures r == s[..|r|]
  {
    if |s| <= n then s else s[..n]
  }

  /** The date rule both scrapers share for a date element:
      `elem.get('datetime') or elem.get_text(strip=True)`. */
  function DateAttrOrText(e: Element): string {
    if "datetime" in e.attrs && e.attrs["datetime"] != "" then e.attrs["datetime"] else e.text
  }
}
