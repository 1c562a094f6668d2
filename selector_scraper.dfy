/** The selector-driven scraper: each source names, in its `'selectors'`
    dictionary, the CSS selectors of its article containers and of the
    title, link, date and description inside them; containers are capped at
    50 and filtered by recency. */
module SelectorScraping {
  import opened Text
  import opened Html
  import opened Records

  const ArticleDefault := Tag("article")
  const TitleDefault := Tag("h2")
  const LinkDefault := Tag("a")
  const DateDefault := Tag("time")
  /** Only the first this many containers are examined. */
  const ElementCap: nat := 50

  /** `selectors.get(key, default)`. */
  function SelectorOr(sels: map<string, Selector>, key: string, default: Selector): (r: Selector)
    ensures key in sels ==> r == sels[key]
    ensures key !in sels ==> r == default
  {
    if key in sels then sels[key] else default
  }

  /** The title text: `None` when the title selector matches nothing. */
  function TitleText(e: Element, sels: map<string, Selector>): Option<string> {
    match SelectOne(e, SelectorOr(sels, "title", TitleDefault))
    case None => None
    case Some(t) => Some(t.text)
  }

  /** The link: the matched element's `href`, else `""`; joined to the base
      URL when non-empty and not starting with `http`; `None` when the join
      raises. */
  function LinkText(e: Element, sels: map<string, Selector>, baseUrl: string, env: Env): Option<string> {
    var href :=
      match SelectOne(e, SelectorOr(sels, "link", LinkDefault))
      case None => ""
      case Some(l) => if "href" in l.attrs then l.attrs["href"] else "";
    if href != "" && !StartsWith(href, "http") then env.join(baseUrl, href) else Some(href)
  }

  /** The date: the `datetime` attribute of the matched element, else its
      text; `None` when the date selector matches nothing. */
  function DateText(e: Element, sels: map<string, Selector>): Option<string> {
    match SelectOne(e, SelectorOr(sels, "date", DateDefault))
    case None => None
    case Some(d) => Some(DateAttrOrText(d))
  }

  /** The description: read only when a `'description'` selector is
      configured, and `""` when it matches nothing. */
  function DescriptionText(e: Element, sels: map<string, Selector>): (r: string)
    ensures "description" !in sels ==> r == ""
    ensures "description" in sels && SelectOne(e, sels["description"]).Some? ==> r == SelectOne(e, sels["description"]).value.text
    ensures "description" in sels && SelectOne(e, sels["description"]).None? ==> r == ""
  {
    if "description" in sels then
      match SelectOne(e, sels["description"])
      case None => ""
      case Some(d) => d.text
    else ""
  }

  /** What `_extract_article_data` gives for one container: no record
      without a non-empty title, an exception when the link join raises,
      else the record. */
  function ExtractData(e: Element, sels: map<string, Selector>, name: string, baseUrl: string, now: Timestamp, env: Env): (r: Extracted)
    ensures r.Record? ==> r.article.title != "" && r.article.source == name && r.article.scrapedAt == now
    ensures r.NoRecord? <==> TitleText(e, sels).GetOr("") == ""
    ensures r.Raised? <==> TitleText(e, sels).GetOr("") != "" && LinkText(e, sels, baseUrl, env).None?
    ensures r.Record? ==> Some(r.article.title) == TitleText(e, sels) && Some(r.article.link) == LinkText(e, sels, baseUrl, env)
    ensures r.Record? ==> r.article.date == DateText(e, sels) && r.article.description == DescriptionText(e, sels)
  {
    match TitleText(e, sels)
    case None => NoRecord
    case Some(title) =>
      if title == "" then NoRecord
      else
        match LinkText(e, sels, baseUrl, env)
        case None => Raised
        case Some(link) => Record(Article(title, link, name, DateText(e, sels), DescriptionText(e, sels), now))
  }

  /** The `'description'` selector affects nothing but the description:
      without it the same containers give a record, no record or an
      exception alike, and a record differs only in its description, which
      is then empty. */
  lemma DescriptionSelectorIsolated(e: Element, sels: map<string, Selector>, name: string, baseUrl: string, now: Timestamp, env: Env)
    ensures var with, without := ExtractData(e, sels, name, baseUrl, now, env), ExtractData(e, sels - {"description"}, name, baseUrl, now, env);
      && with.NoRecord? == without.NoRecord?
      && with.Raised? == without.Raised?
      && (with.Record? ==> without.article == with.article.(description := ""))
  {
    var rest := sels - {"description"};
    assert SelectorOr(rest, "title", TitleDefault) == SelectorOr(sels, "title", TitleDefault);
    assert SelectorOr(rest, "link", LinkDefault) == SelectorOr(sels, "link", LinkDefault);
    assert SelectorOr(rest, "date", DateDefault) == SelectorOr(sels, "date", DateDefault);
  }

  /** `_is_recent(date_str, cutoff_time)`: kept unless the date is present,
      non-empty, parses, and its wall-clock reading (the offset dropped) is
      strictly before the cutoff. */
  predicate IsRecent(date: Option<string>, cutoff: Timestamp, env: Env) {
    date.None? || date.value == "" || env.parseDate(date.value).None? || env.parseDate(date.value).value.wall >= cutoff
  }

  /** Undated and unparseable records are the ones kept whatever the
      cutoff: a record with a parsed date is dropped once the cutoff passes
      that date. */
  lemma IsRecentAlwaysIffUndated(date: Option<string>, env: Env)
    ensures (forall cutoff :: IsRecent(date, cutoff, env)) <==>
      date.None? || date.value == "" || env.parseDate(date.value).None?
  {
    if !(date.None? || date.value == "" || env.parseDate(date.value).None?) {
      assert !IsRecent(date, env.parseDate(date.value).value.wall + 1, env);
    }
  }

  /** The time zone is ignored: two parses that differ only in their UTC
      offset give the same answer. */
  lemma IsRecentIgnoresOffset(s: string, cutoff: Timestamp, env1: Env, env2: Env, wall: Timestamp, o1: Option<int>, o2: Option<int>)
    requires env1.parseDate(s) == Some(DateTime(wall, o1)) && env2.parseDate(s) == Some(DateTime(wall, o2))
    ensures IsRecent(Some(s), cutoff, env1) == IsRecent(Some(s), cutoff, env2)
  {
  }

  /** A record recent for a cutoff stays recent for any earlier cutoff. */
  lemma IsRecentMonotone(date: Option<string>, earlier: Timestamp, later: Timestamp, env: Env)
    requires earlier <= later && IsRecent(date, later, env)
    ensures IsRecent(date, earlier, env)
  {
  }

  /** Kept from one container: a record that is recent. */
  predicate Keeps(x: Extracted, cutoff: Timestamp, env: Env) {
    x.Record? && IsRecent(x.article.date, cutoff, env)
  }

  /** What extraction gives for each container, in container order. */
  function Extractions(els: seq<Element>, sels: map<string, Selector>, name: string, baseUrl: string, now: Timestamp, env: Env): (r: seq<Extracted>)
    ensures |r| == |els|
    ensures forall k :: 0 <= k < |r| && r[k].Record? ==> r[k].article.title != "" && r[k].article.source == name
  {
    if els == [] then []
    else Extractions(els[..|els| - 1], sels, name, baseUrl, now, env) + [ExtractData(els[|els| - 1], sels, name, baseUrl, now, env)]
  }

  /** The recent records among the extraction results, in order. */
  function Collect(xs: seq<Extracted>, cutoff: Timestamp, env: Env): (r: seq<Article>)
    ensures |r| <= |xs|
  {
    if xs == [] then []
    else
      var x := xs[|xs| - 1];
      Collect(xs[..|xs| - 1], cutoff, env) + (if Keeps(x, cutoff, env) then [x.article] else [])
  }

  /** A record is collected exactly when some extraction yields it and it
      is recent. */
  lemma {:induction false} CollectMembership(xs: seq<Extracted>, cutoff: Timestamp, env: Env)
    ensures forall a :: a in Collect(xs, cutoff, env) <==>
      exists k :: 0 <= k < |xs| && Keeps(xs[k], cutoff, env) && a == xs[k].article
  {
    if xs != [] {
      var init := xs[..|xs| - 1];
      CollectMembership(init, cutoff, env);
      forall a | (exists k :: 0 <= k < |xs| && Keeps(xs[k], cutoff, env) && a == xs[k].article)
        ensures a in Collect(xs, cutoff, env)
      {
        var k :| 0 <= k < |xs| && Keeps(xs[k], cutoff, env) && a == xs[k].article;
        if k < |init| {
          assert init[k] == xs[k];
        }
      }
      forall a | a in Collect(xs, cutoff, env)
        ensures exists k :: 0 <= k < |xs| && Keeps(xs[k], cutoff, env) && a == xs[k].article
      {
        if a in Collect(init, cutoff, env) {
          var k :| 0 <= k < |init| && Keeps(init[k], cutoff, env) && a == init[k].article;
          assert init[k] == xs[k];
        }
      }
    }
  }

  /** Every record collected from a source's containers has a non-empty
      title, the source's name and a recent date. */
  lemma CollectValid(els: seq<Element>, sels: map<string, Selector>, name: string, baseUrl: string, cutoff: Timestamp, now: Timestamp, env: Env)
    ensures forall a :: a in Collect(Extractions(els, sels, name, baseUrl, now, env), cutoff, env) ==>
      a.title != "" && a.source == name && IsRecent(a.date, cutoff, env)
  {
    var xs := Extractions(els, sels, name, baseUrl, now, env);
    CollectMembership(xs, cutoff, env);
    forall a | a in Collect(xs, cutoff, env)
      ensures a.title != "" && a.source == name && IsRecent(a.date, cutoff, env)
    {
      var k :| 0 <= k < |xs| && Keeps(xs[k], cutoff, env) && a == xs[k].article;
    }
  }

  /** One more container processed: its extraction is appended, and its
      record collected when it is recent. */
  lemma CollectStep(els: seq<Element>, i: nat, sels: map<string, Selector>, name: string, baseUrl: string, cutoff: Timestamp, now: Timestamp, env: Env)
    requires i < |els|
    ensures var x := ExtractData(els[i], sels, name, baseUrl, now, env);
      Collect(Extractions(els[..i + 1], sels, name, baseUrl, now, env), cutoff, env)
        == Collect(Extractions(els[..i], sels, name, baseUrl, now, env), cutoff, env) + (if Keeps(x, cutoff, env) then [x.article] else [])
  {
    assert els[..i + 1][..i] == els[..i];
    var xs := Extractions(els[..i + 1], sels, name, baseUrl, now, env);
    assert xs[..i] == Extractions(els[..i], sels, name, baseUrl, now, env);
  }

  /** What `_scrape_source` gives: a missing `'url'` or `'selectors'` raises
      past its handler; a failed request gives nothing; otherwise the recent
      records of the first 50 containers. */
  function SourceOutcome(source: SourceConfig, cutoff: Timestamp, now: Timestamp, env: Env): Outcome {
    match source.url
    case None => Failed
    case Some(u) =>
      match env.page(u)
      case None => Done([])
      case Some(doc) =>
        match source.selectors
        case None => Failed
        case Some(sels) =>
          Done(Collect(Extractions(Take(Select(doc, SelectorOr(sels, "article", ArticleDefault)), ElementCap), sels, source.name, u, now, env), cutoff, env))
  }

  /** At most 50 records per source, each titled, named after the source and
      recent. */
  lemma SourceOutcomeValid(source: SourceConfig, cutoff: Timestamp, now: Timestamp, env: Env)
    ensures var r := SourceOutcome(source, cutoff, now, env);
      r.Done? ==> (|r.articles| <= ElementCap
        && forall a :: a in r.articles ==> a.title != "" && a.source == source.name && IsRecent(a.date, cutoff, env))
  {
    if source.url.Some? && env.page(source.url.value).Some? && source.selectors.Some? {
      var doc, sels := env.page(source.url.value).value, source.selectors.value;
      CollectValid(Take(Select(doc, SelectorOr(sels, "article", ArticleDefault)), ElementCap), sels, source.name, source.url.value, cutoff, now, env);
    }
  }

  /** What one source yields in one run. */
  function Scrape(cutoff: Timestamp, now: Timestamp, env: Env): SourceConfig -> Outcome {
    source => SourceOutcome(source, cutoff, now, env)
  }

  /** Every aggregated article is titled, recent, and names a configured
      source; the list is no longer than 50 per source. */
  lemma {:induction false} AllArticlesValid(sources: seq<SourceConfig>, cutoff: Timestamp, now: Timestamp, env: Env)
    ensures |Aggregate(sources, Scrape(cutoff, now, env))| <= ElementCap * |sources|
    ensures forall a :: a in Aggregate(sources, Scrape(cutoff, now, env)) ==>
      a.title != "" && a.source in Names(sources) && IsRecent(a.date, cutoff, env)
  {
    if sources != [] {
      var init := sources[..|sources| - 1];
      var last := sources[|sources| - 1];
      AllArticlesValid(init, cutoff, now, env);
      SourceOutcomeValid(last, cutoff, now, env);
      assert forall k :: 0 <= k < |init| ==> init[k] == sources[k];
      assert Names(init) + {last.name} <= Names(sources);
    }
  }

  class ArticleScraper {
    /** The configured source dictionaries. */
    var sources: seq<SourceConfig>

    constructor (sources: seq<SourceConfig>)
      ensures this.sources == sources
    {
      this.sources := sources;
    }

    /** `scrape_all_sources(hours_ago)`. */
    method ScrapeAllSources(hoursAgo: int, now: Timestamp, env: Env) returns (all: seq<Article>)
      ensures all == Aggregate(sources, Scrape(now - hoursAgo * SecondsPerHour, now, env))
    {
      var cutoff := now - hoursAgo * SecondsPerHour;
      all := [];
      var i := 0;
      while i < |sources|
        invariant 0 <= i <= |sources|
        invariant all == Aggregate(sources[..i], Scrape(cutoff, now, env))
      {
        var outcome := ScrapeSource(sources[i], cutoff, now, env);
        AggregateStep(sources, i, Scrape(cutoff, now, env));
        all := all + Contribution(outcome);
        i := i + 1;
      }
      assert sources[..i] == sources;
    }

    /** `_scrape_source(source, cutoff_time)`. */
    method ScrapeSource(source: SourceConfig, cutoff: Timestamp, now: Timestamp, env: Env) returns (outcome: Outcome)
      ensures outcome == SourceOutcome(source, cutoff, now, env)
    {
      if source.url.None? {
        return Failed;
      }
      var url := source.url.value;
      var page := env.page(url);
      if page.None? {
        return Done([]);
      }
      if source.selectors.None? {
        return Failed;
      }
      var sels := source.selectors.value;
      var elements := Take(Select(page.value, SelectorOr(sels, "article", ArticleDefault)), ElementCap);
      var articles := CollectRecent(elements, sels, source.name, url, cutoff, now, env);
      return Done(articles);
    }

    /** The loop of `_scrape_source` over the containers: each record
        extracted and recent is appended, in container order. */
    method CollectRecent(elements: seq<Element>, sels: map<string, Selector>, name: string, url: string, cutoff: Timestamp, now: Timestamp, env: Env)
      returns (articles: seq<Article>)
      ensures articles == Collect(Extractions(elements, sels, name, url, now, env), cutoff, env)
    {
      articles := [];
      var i := 0;
      while i < |elements|
        invariant 0 <= i <= |elements|
        invariant articles == Collect(Extractions(elements[..i], sels, name, url, now, env), cutoff, env)
      {
        var x := ExtractData(elements[i], sels, name, url, now, env);
        CollectStep(elements, i, sels, name, url, cutoff, now, env);
        if Keeps(x, cutoff, env) {
          articles := articles + [x.article];
        }
        i := i + 1;
      }
      assert elements[..i] == elements;
    }
  }
}
