/** The automatic scraper: for each configured source, a feed when one is
    configured or can be discovered, otherwise heuristic extraction from the
    page's HTML; failures of one source are isolated from the others. */
module AutoScraping {
  import opened Text
  import opened Html
  import opened Records

  /** Container patterns, tried in this order; the first with a match wins. */
  const ContainerPatterns: seq<Selector> := [
    Tag("article"), ClassContains("article"), ClassContains("story"),
    ClassContains("post"), ClassContains("card"), ClassContains("item")]
  /** Only the first this many containers are examined. */
  const ContainerCap: nat := 30
  const TitlePatterns: seq<Selector> := [
    Tag("h1"), Tag("h2"), Tag("h3"), ClassContains("title"), ClassContains("headline")]
  /** A title candidate ends the search when it is longer than this. */
  const TitleMinLength: nat := 10
  const DescriptionPatterns: seq<Selector> := [
    Tag("p"), ClassContains("description"), ClassContains("summary"), ClassContains("excerpt")]
  /** A description candidate ends the search when it is longer than this. */
  const DescriptionMinLength: nat := 20
  const RssType := "application/rss+xml"
  const AtomType := "application/atom+xml"
  const StatusOk := 200

  /** `_clean_html`: the empty string stays empty without being parsed. */
  function CleanHtml(html: string, env: Env): (r: string)
    ensures html == "" ==> r == ""
  {
    if html == "" then "" else env.plainText(html)
  }

  // ---------------------------------------------------------------------
  // Feed filtering (`_scrape_rss`)
  // ---------------------------------------------------------------------

  /** The time tuple the code converts: `published_parsed` wins over
      `updated_parsed`. */
  function ChosenTime(e: Entry): Option<StructTime> {
    if e.publishedParsed.Some? then e.publishedParsed else e.updatedParsed
  }

  /** Converting the chosen tuple raises, which aborts the whole feed. */
  predicate RaisesOnDate(e: Entry) {
    ChosenTime(e) == Some(OutOfRange)
  }

  predicate AnyRaisesOnDate(entries: seq<Entry>) {
    exists k :: 0 <= k < |entries| && RaisesOnDate(entries[k])
  }

  /** Dropped as old: a converted date strictly earlier than the cutoff.
      An entry with no date is never old. */
  predicate IsOld(e: Entry, cutoff: Timestamp) {
    match ChosenTime(e)
    case Some(Convertible(t)) => t < cutoff
    case _ => false
  }

  /** Emitted: not old, and with a non-empty (untrimmed) title. */
  predicate Kept(e: Entry, cutoff: Timestamp) {
    !IsOld(e, cutoff) && e.title.GetOr("") != ""
  }

  /** The record built for one entry. */
  function EntryArticle(e: Entry, name: string, now: Timestamp, env: Env): Article {
    Article(
      e.title.GetOr(""),
      e.link.GetOr(""),
      name,
      Some(if e.published.Some? then e.published.value else e.updated.GetOr("")),
      CleanHtml(if e.summary.Some? then e.summary.value else e.description.GetOr(""), env),
      now)
  }

  /** The records of the kept entries, in feed order. */
  function FeedArticles(entries: seq<Entry>, name: string, cutoff: Timestamp, now: Timestamp, env: Env): (r: seq<Article>)
    ensures |r| <= |entries|
  {
    if entries == [] then []
    else
      var last := entries[|entries| - 1];
      FeedArticles(entries[..|entries| - 1], name, cutoff, now, env)
      + (if Kept(last, cutoff) then [EntryArticle(last, name, now, env)] else [])
  }

  /** Every emitted record has a non-empty title and the source's name. */
  lemma {:induction false} FeedArticlesValid(entries: seq<Entry>, name: string, cutoff: Timestamp, now: Timestamp, env: Env)
    ensures forall a :: a in FeedArticles(entries, name, cutoff, now, env) ==> a.title != "" && a.source == name
  {
    if entries != [] {
      FeedArticlesValid(entries[..|entries| - 1], name, cutoff, now, env);
    }
  }

  function CountOld(entries: seq<Entry>, cutoff: Timestamp): nat {
    if entries == [] then 0
    else CountOld(entries[..|entries| - 1], cutoff) + (if IsOld(entries[|entries| - 1], cutoff) then 1 else 0)
  }

  function CountUntitled(entries: seq<Entry>, cutoff: Timestamp): nat {
    if entries == [] then 0
    else
      var last := entries[|entries| - 1];
      CountUntitled(entries[..|entries| - 1], cutoff) + (if !IsOld(last, cutoff) && !Kept(last, cutoff) then 1 else 0)
  }

  /** What `_scrape_rss` returns for a list of entries: nothing for an empty
      feed or when any chosen date fails to convert, else the kept records. */
  function RssArticles(entries: seq<Entry>, name: string, cutoff: Timestamp, now: Timestamp, env: Env): seq<Article> {
    if |entries| == 0 || AnyRaisesOnDate(entries) then []
    else FeedArticles(entries, name, cutoff, now, env)
  }

  /** `_scrape_rss` on a source: a source without `'rss_url'` raises a
      `KeyError` inside the handler and yields nothing. */
  function RssOf(source: SourceConfig, cutoff: Timestamp, now: Timestamp, env: Env): seq<Article> {
    match source.rssUrl
    case None => []
    case Some(u) => RssArticles(env.feed(u), source.name, cutoff, now, env)
  }

  /** An entry's record is emitted exactly when the entry is kept: both
      directions of the filter. */
  lemma {:induction false} FeedArticlesMembership(entries: seq<Entry>, name: string, cutoff: Timestamp, now: Timestamp, env: Env)
    ensures forall k :: 0 <= k < |entries| && Kept(entries[k], cutoff) ==>
      EntryArticle(entries[k], name, now, env) in FeedArticles(entries, name, cutoff, now, env)
    ensures forall a :: a in FeedArticles(entries, name, cutoff, now, env) ==>
      exists k :: 0 <= k < |entries| && Kept(entries[k], cutoff) && a == EntryArticle(entries[k], name, now, env)
  {
    if entries != [] {
      var init := entries[..|entries| - 1];
      FeedArticlesMembership(init, name, cutoff, now, env);
      forall a | a in FeedArticles(entries, name, cutoff, now, env)
        ensures exists k :: 0 <= k < |entries| && Kept(entries[k], cutoff) && a == EntryArticle(entries[k], name, now, env)
      {
        if a in FeedArticles(init, name, cutoff, now, env) {
          var k :| 0 <= k < |init| && Kept(init[k], cutoff) && a == EntryArticle(init[k], name, now, env);
          assert entries[k] == init[k];
        } else {
          assert a == EntryArticle(entries[|entries| - 1], name, now, env);
        }
      }
      forall k | 0 <= k < |entries| && Kept(entries[k], cutoff)
        ensures EntryArticle(entries[k], name, now, env) in FeedArticles(entries, name, cutoff, now, env)
      {
        if k < |init| {
          assert entries[k] == init[k];
        }
      }
    }
  }

  /** Every entry is either emitted, dropped as old, or dropped for an empty
      title: the counts add up to the feed's length. */
  lemma {:induction false} FeedCount(entries: seq<Entry>, name: string, cutoff: Timestamp, now: Timestamp, env: Env)
    ensures |FeedArticles(entries, name, cutoff, now, env)| + CountOld(entries, cutoff) + CountUntitled(entries, cutoff) == |entries|
  {
    if entries != [] {
      FeedCount(entries[..|entries| - 1], name, cutoff, now, env);
    }
  }

  /** A feed of three titled entries, dated two hours ago, dated 48 hours
      ago and undated, with a cutoff 24 hours ago, yields the first and the
      third. */
  lemma ThreeEntryFeed(now: Timestamp, env: Env)
    ensures var recent := Entry(Some("Recent story"), None, None, None, Some(Convertible(now - 2 * SecondsPerHour)), None, None, None);
      var stale := Entry(Some("Stale story"), None, None, None, Some(Convertible(now - 48 * SecondsPerHour)), None, None, None);
      var undated := Entry(Some("Undated story"), None, None, None, None, None, None, None);
      RssArticles([recent, stale, undated], "Feed", now - 24 * SecondsPerHour, now, env)
        == [EntryArticle(recent, "Feed", now, env), EntryArticle(undated, "Feed", now, env)]
  {
    var recent := Entry(Some("Recent story"), None, None, None, Some(Convertible(now - 2 * SecondsPerHour)), None, None, None);
    var stale := Entry(Some("Stale story"), None, None, None, Some(Convertible(now - 48 * SecondsPerHour)), None, None, None);
    var undated := Entry(Some("Undated story"), None, None, None, None, None, None, None);
    var es := [recent, stale, undated];
    var cutoff := now - 24 * SecondsPerHour;
    assert es[..2] == [recent, stale];
    assert [recent, stale][..1] == [recent];
    assert [recent][..0] == [];
    assert Kept(recent, cutoff) && !Kept(stale, cutoff) && Kept(undated, cutoff);
    assert FeedArticles([recent], "Feed", cutoff, now, env) == [EntryArticle(recent, "Feed", now, env)];
    assert FeedArticles([recent, stale], "Feed", cutoff, now, env) == [EntryArticle(recent, "Feed", now, env)];
    assert !AnyRaisesOnDate(es);
  }

  /** Titles are not trimmed: an entry whose title is a single space is
      emitted. */
  lemma BlankTitleEmitted(name: string, cutoff: Timestamp, now: Timestamp, env: Env)
    ensures var e := Entry(Some(" "), None, None, None, None, None, None, None);
      RssArticles([e], name, cutoff, now, env) == [Article(" ", "", name, Some(""), "", now)]
  {
    var e := Entry(Some(" "), None, None, None, None, None, None, None);
    assert [e][..0] == [];
    assert !AnyRaisesOnDate([e]);
  }

  // ---------------------------------------------------------------------
  // Feed discovery (`_discover_rss`)
  // ---------------------------------------------------------------------

  /** The `href` of the first `<link>` of the given type, when it has a
      non-empty one; a later link of the same type is never looked at. */
  function LinkHref(doc: Element, linkType: string): Option<string> {
    match SelectOne(doc, TagWithAttrValue("link", "type", linkType))
    case None => None
    case Some(l) => if "href" in l.attrs && l.attrs["href"] != "" then Some(l.attrs["href"]) else None
  }

  /** The six conventional feed locations, in probing order. */
  function FeedCandidates(url: string, origin: string): seq<string> {
    [url + "/rss", url + "/feed", url + "/rss.xml", url + "/feed.xml", origin + "/rss", origin + "/feed"]
  }

  predicate Answers(url: string, env: Env) {
    env.head(url) == Some(StatusOk)
  }

  /** The first candidate whose HEAD status is exactly 200. */
  function FirstOk(cands: seq<string>, env: Env): Option<string> {
    if cands == [] then None
    else if Answers(cands[0], env) then Some(cands[0])
    else FirstOk(cands[1..], env)
  }

  /** Probing finds nothing exactly when no candidate answers, and what it
      finds is the first candidate that answers. */
  lemma {:induction false} FirstOkSpec(cands: seq<string>, env: Env)
    ensures FirstOk(cands, env).None? <==> forall k :: 0 <= k < |cands| ==> !Answers(cands[k], env)
    ensures FirstOk(cands, env).Some? ==> exists k :: (0 <= k < |cands| && FirstOk(cands, env) == Some(cands[k])
      && Answers(cands[k], env) && forall j :: 0 <= j < k ==> !Answers(cands[j], env))
  {
    if cands != [] && !Answers(cands[0], env) {
      FirstOkSpec(cands[1..], env);
      assert forall k :: 1 <= k < |cands| ==> cands[k] == cands[1..][k - 1];
      if FirstOk(cands, env).Some? {
        var k :| 0 <= k < |cands[1..]| && FirstOk(cands[1..], env) == Some(cands[1..][k])
          && Answers(cands[1..][k], env) && forall j :: 0 <= j < k ==> !Answers(cands[1..][j], env);
        assert FirstOk(cands, env) == Some(cands[k + 1]);
      }
    } else if cands != [] {
      assert FirstOk(cands, env) == Some(cands[0]);
    }
  }

  /** What `_discover_rss(url)` returns: `None` when the page cannot be
      fetched; else the first RSS link, else the first Atom link (both
      joined to `url`; a join that raises gives `None`); else the first
      conventional location that answers 200. */
  function DiscoverFeed(url: string, env: Env): Option<string> {
    match env.page(url)
    case None => None
    case Some(doc) =>
      match LinkHref(doc, RssType)
      case Some(h) => env.join(url, h)
      case None =>
        match LinkHref(doc, AtomType)
        case Some(h) => env.join(url, h)
        case None =>
          match env.origin(url)
          case None => None
          case Some(o) => FirstOk(FeedCandidates(url, o), env)
  }

  /** A discovered feed that the code accepts (`if rss_url:`). */
  predicate HasFeed(d: Option<string>) {
    d.Some? && d.value != ""
  }

  // ---------------------------------------------------------------------
  // Heuristic extraction (`_scrape_html_intelligent`, `_extract_article_intelligent`)
  // ---------------------------------------------------------------------

  function TextOf(o: Option<Element>): Option<string> {
    match o
    case None => None
    case Some(x) => Some(x.text)
  }

  /** The text `select_one` finds for each pattern, in order. */
  function Candidates(e: Element, pats: seq<Selector>): (r: seq<Option<string>>)
    ensures |r| == |pats|
  {
    if pats == [] then [] else [TextOf(SelectOne(e, pats[0]))] + Candidates(e, pats[1..])
  }

  predicate Long(c: Option<string>, min: nat) {
    c.Some? && |c.value| > min
  }

  /** The first-match loop of the title and description searches: a text
      longer than `min` ends the search; any other text found replaces the
      running value `acc`. */
  function Pick(cands: seq<Option<string>>, min: nat, acc: string): string {
    if cands == [] then acc
    else
      match cands[0]
      case None => Pick(cands[1..], min, acc)
      case Some(t) => if |t| > min then t else Pick(cands[1..], min, t)
  }

  /** The text of the last candidate that was found, or `acc` when none was. */
  function LastFound(cands: seq<Option<string>>, acc: string): string {
    if cands == [] then acc
    else
      match cands[|cands| - 1]
      case Some(t) => t
      case None => LastFound(cands[..|cands| - 1], acc)
  }

  lemma {:induction false} LastFoundCons(c: Option<string>, rest: seq<Option<string>>, acc: string)
    ensures LastFound([c] + rest, acc) == LastFound(rest, if c.Some? then c.value else acc)
    decreases |rest|
  {
    if rest != [] {
      assert ([c] + rest)[..|rest|] == [c] + rest[..|rest| - 1];
      LastFoundCons(c, rest[..|rest| - 1], acc);
    }
  }

  /** When some candidate is long enough, the first such one is chosen. */
  lemma {:induction false} PickFirstLong(cands: seq<Option<string>>, min: nat, acc: string, k: nat)
    requires k < |cands| && Long(cands[k], min)
    requires forall j :: 0 <= j < k ==> !Long(cands[j], min)
    ensures Pick(cands, min, acc) == cands[k].value
  {
    if k > 0 {
      var next := if cands[0].Some? then cands[0].value else acc;
      assert forall j :: 0 <= j < k - 1 ==> cands[1..][j] == cands[j + 1];
      PickFirstLong(cands[1..], min, next, k - 1);
    }
  }

  /** When no candidate is long enough, the last one found is kept however
      short it is: the length gate is not enforced. */
  lemma {:induction false} PickNoLong(cands: seq<Option<string>>, min: nat, acc: string)
    requires forall j :: 0 <= j < |cands| ==> !Long(cands[j], min)
    ensures Pick(cands, min, acc) == LastFound(cands, acc)
  {
    if cands != [] {
      var next := if cands[0].Some? then cands[0].value else acc;
      assert forall j :: 0 <= j < |cands| - 1 ==> cands[1..][j] == cands[j + 1];
      PickNoLong(cands[1..], min, next);
      LastFoundCons(cands[0], cands[1..], acc);
      assert [cands[0]] + cands[1..] == cands;
    }
  }

  /** With nothing found, the running value is kept. */
  lemma {:induction false} PickNothingFound(cands: seq<Option<string>>, min: nat, acc: string)
    requires forall k :: 0 <= k < |cands| ==> cands[k].None?
    ensures Pick(cands, min, acc) == acc
  {
    if cands != [] {
      PickNothingFound(cands[1..], min, acc);
    }
  }

  function TitleOf(e: Element): string {
    Pick(Candidates(e, TitlePatterns), TitleMinLength, "")
  }

  function DescriptionOf(e: Element): string {
    Pick(Candidates(e, DescriptionPatterns), DescriptionMinLength, "")
  }

  /** The link: the first anchor with an `href`, joined to the base URL
      unless it starts with `http`; `""` without an anchor; `None` when the
      join raises. */
  function LinkOf(e: Element, baseUrl: string, env: Env): Option<string> {
    match SelectOne(e, TagWithAttr("a", "href"))
    case None => Some("")
    case Some(a) =>
      var href := a.attrs["href"];
      if href != "" && !StartsWith(href, "http") then
        match env.join(baseUrl, href)
        case None => None
        case Some(j) => Some(j)
      else Some(href)
  }

  /** The date: the first `<time>`'s `datetime` attribute, else its text;
      `None` without a `<time>`. */
  function DateOf(e: Element): Option<string> {
    match SelectOne(e, Tag("time"))
    case None => None
    case Some(t) => Some(DateAttrOrText(t))
  }

  /** What `_extract_article_intelligent` gives for one container. */
  function ExtractIntelligent(e: Element, name: string, baseUrl: string, now: Timestamp, env: Env): (r: Extracted)
    ensures r.Record? ==> r.article.title == TitleOf(e) != "" && r.article.source == name
    ensures r.Record? ==> r.article.description == DescriptionOf(e) && r.article.date == DateOf(e)
    ensures r.NoRecord? <==> TitleOf(e) == ""
    ensures r.Record? ==> LinkOf(e, baseUrl, env) == Some(r.article.link) && r.article.scrapedAt == now
    ensures r.Raised? <==> TitleOf(e) != "" && LinkOf(e, baseUrl, env).None?
  {
    var title := TitleOf(e);
    if title == "" then NoRecord
    else
      match LinkOf(e, baseUrl, env)
      case None => Raised
      case Some(link) => Record(Article(title, link, name, DateOf(e), DescriptionOf(e), now))
  }

  /** The containers: the matches of the first pattern that has any. */
  function FirstNonEmpty(doc: Element, pats: seq<Selector>): seq<Element> {
    if pats == [] then []
    else if Select(doc, pats[0]) != [] then Select(doc, pats[0])
    else FirstNonEmpty(doc, pats[1..])
  }

  /** No containers exactly when no pattern matches anything; otherwise the
      matches of the first pattern that has any. */
  lemma {:induction false} FirstNonEmptySpec(doc: Element, pats: seq<Selector>)
    ensures FirstNonEmpty(doc, pats) == [] <==> forall k :: 0 <= k < |pats| ==> Select(doc, pats[k]) == []
    ensures FirstNonEmpty(doc, pats) != [] ==> exists k :: (0 <= k < |pats| && FirstNonEmpty(doc, pats) == Select(doc, pats[k])
      && forall j :: 0 <= j < k ==> Select(doc, pats[j]) == [])
  {
    if pats != [] && Select(doc, pats[0]) == [] {
      FirstNonEmptySpec(doc, pats[1..]);
      assert forall k :: 1 <= k < |pats| ==> pats[k] == pats[1..][k - 1];
      if FirstNonEmpty(doc, pats) != [] {
        var k :| 0 <= k < |pats[1..]| && FirstNonEmpty(doc, pats[1..]) == Select(doc, pats[1..][k])
          && forall j :: 0 <= j < k ==> Select(doc, pats[1..][j]) == [];
        assert FirstNonEmpty(doc, pats) == Select(doc, pats[k + 1]);
      }
    }
  }

  /** The records extracted from the containers, in order; containers that
      give no record, an empty title or an exception are skipped. */
  function Harvest(els: seq<Element>, name: string, baseUrl: string, now: Timestamp, env: Env): (r: seq<Article>)
    ensures |r| <= |els|
  {
    if els == [] then []
    else
      var x := ExtractIntelligent(els[|els| - 1], name, baseUrl, now, env);
      Harvest(els[..|els| - 1], name, baseUrl, now, env)
      + (if x.Record? && x.article.title != "" then [x.article] else [])
  }

  /** Every harvested record has a non-empty title and the source's name. */
  lemma {:induction false} HarvestValid(els: seq<Element>, name: string, baseUrl: string, now: Timestamp, env: Env)
    ensures forall a :: a in Harvest(els, name, baseUrl, now, env) ==> a.title != "" && a.source == name
  {
    if els != [] {
      HarvestValid(els[..|els| - 1], name, baseUrl, now, env);
    }
  }

  /** A container's record is harvested exactly when its extraction gives
      a record: containers that give none or raise are the only ones
      skipped. */
  lemma HarvestMembership(els: seq<Element>, name: string, baseUrl: string, now: Timestamp, env: Env)
    ensures forall a :: a in Harvest(els, name, baseUrl, now, env) <==>
      exists k :: (0 <= k < |els| && ExtractIntelligent(els[k], name, baseUrl, now, env).Record?
        && a == ExtractIntelligent(els[k], name, baseUrl, now, env).article)
  {
    forall a
      ensures a in Harvest(els, name, baseUrl, now, env) ==>
        exists k :: (0 <= k < |els| && ExtractIntelligent(els[k], name, baseUrl, now, env).Record?
          && a == ExtractIntelligent(els[k], name, baseUrl, now, env).article)
    {
      if a in Harvest(els, name, baseUrl, now, env) {
        HarvestFrom(els, a, name, baseUrl, now, env);
      }
    }
    forall k | 0 <= k < |els| && ExtractIntelligent(els[k], name, baseUrl, now, env).Record?
      ensures ExtractIntelligent(els[k], name, baseUrl, now, env).article in Harvest(els, name, baseUrl, now, env)
    {
      HarvestContains(els, k, name, baseUrl, now, env);
    }
  }

  /** The record of every container that gives one is harvested. */
  lemma {:induction false} HarvestContains(els: seq<Element>, k: nat, name: string, baseUrl: string, now: Timestamp, env: Env)
    requires k < |els| && ExtractIntelligent(els[k], name, baseUrl, now, env).Record?
    ensures ExtractIntelligent(els[k], name, baseUrl, now, env).article in Harvest(els, name, baseUrl, now, env)
  {
    var n := |els| - 1;
    var init := els[..n];
    var last := ExtractIntelligent(els[n], name, baseUrl, now, env);
    var tail := if last.Record? && last.article.title != "" then [last.article] else [];
    assert Harvest(els, name, baseUrl, now, env) == Harvest(init, name, baseUrl, now, env) + tail;
    var x := ExtractIntelligent(els[k], name, baseUrl, now, env);
    if k < n {
      assert init[k] == els[k];
      HarvestContains(init, k, name, baseUrl, now, env);
      assert x.article in Harvest(init, name, baseUrl, now, env);
    } else {
      assert k == n && x == last;
      assert tail == [x.article];
    }
    assert x.article in Harvest(init, name, baseUrl, now, env) + tail;
  }

  /** Every harvested record comes from a container that gives it. */
  lemma {:induction false} HarvestFrom(els: seq<Element>, a: Article, name: string, baseUrl: string, now: Timestamp, env: Env)
    requires a in Harvest(els, name, baseUrl, now, env)
    ensures exists k :: (0 <= k < |els| && ExtractIntelligent(els[k], name, baseUrl, now, env).Record?
      && a == ExtractIntelligent(els[k], name, baseUrl, now, env).article)
  {
    var n := |els| - 1;
    var init := els[..n];
    var last := ExtractIntelligent(els[n], name, baseUrl, now, env);
    var tail := if last.Record? && last.article.title != "" then [last.article] else [];
    assert Harvest(els, name, baseUrl, now, env) == Harvest(init, name, baseUrl, now, env) + tail;
    if a in Harvest(init, name, baseUrl, now, env) {
      HarvestFrom(init, a, name, baseUrl, now, env);
      var k :| 0 <= k < |init| && ExtractIntelligent(init[k], name, baseUrl, now, env).Record?
        && a == ExtractIntelligent(init[k], name, baseUrl, now, env).article;
      assert init[k] == els[k];
    } else {
      assert a in tail;
    }
  }

  /** Harvesting distributes over concatenation of container lists. */
  lemma {:induction false} HarvestAppend(a: seq<Element>, b: seq<Element>, name: string, baseUrl: string, now: Timestamp, env: Env)
    ensures Harvest(a + b, name, baseUrl, now, env) == Harvest(a, name, baseUrl, now, env) + Harvest(b, name, baseUrl, now, env)
    decreases |b|
  {
    if b == [] {
      assert a + b == a;
    } else {
      assert (a + b)[..|a + b| - 1] == a + b[..|b| - 1];
      HarvestAppend(a, b[..|b| - 1], name, baseUrl, now, env);
    }
  }

  /** A container whose extraction raises (or gives no record) contributes
      nothing, and the containers after it are still harvested. */
  lemma SkippedContainerIsolated(els: seq<Element>, k: nat, name: string, baseUrl: string, now: Timestamp, env: Env)
    requires k < |els| && !ExtractIntelligent(els[k], name, baseUrl, now, env).Record?
    ensures Harvest(els, name, baseUrl, now, env) == Harvest(els[..k], name, baseUrl, now, env) + Harvest(els[k + 1..], name, baseUrl, now, env)
  {
    var front, back := els[..k], els[k + 1..];
    var upto := front + [els[k]];
    assert els == upto + back;
    HarvestAppend(upto, back, name, baseUrl, now, env);
    assert upto[..|upto| - 1] == front && upto[|upto| - 1] == els[k];
    assert Harvest(upto, name, baseUrl, now, env) == Harvest(front, name, baseUrl, now, env) + [];
    assert Harvest(front, name, baseUrl, now, env) + [] == Harvest(front, name, baseUrl, now, env);
  }

  lemma HarvestStep(els: seq<Element>, i: nat, name: string, baseUrl: string, now: Timestamp, env: Env)
    requires i < |els|
    ensures var x := ExtractIntelligent(els[i], name, baseUrl, now, env);
      Harvest(els[..i + 1], name, baseUrl, now, env)
        == Harvest(els[..i], name, baseUrl, now, env) + (if x.Record? && x.article.title != "" then [x.article] else [])
  {
    assert els[..i + 1][..i] == els[..i];
  }

  /** What the heuristic path returns for a page: nothing when it cannot
      be fetched, else the records of the first 30 containers. */
  function HtmlArticles(name: string, url: string, now: Timestamp, env: Env): (r: seq<Article>)
    ensures |r| <= ContainerCap
  {
    match env.page(url)
    case None => []
    case Some(doc) => Harvest(Take(FirstNonEmpty(doc, ContainerPatterns), ContainerCap), name, url, now, env)
  }

  /** `_scrape_html_intelligent` on a source: a missing `'url'` raises a
      `KeyError` that its handler does not catch. There is no cutoff. */
  function HtmlOutcome(source: SourceConfig, now: Timestamp, env: Env): Outcome {
    match source.url
    case None => Failed
    case Some(u) => Done(HtmlArticles(source.name, u, now, env))
  }

  /** A page with no element matching any container pattern yields no
      records and no failure. */
  lemma NoContainersNoArticles(name: string, url: string, doc: Element, now: Timestamp, env: Env)
    requires env.page(url) == Some(doc)
    requires forall k :: 0 <= k < |ContainerPatterns| ==> Select(doc, ContainerPatterns[k]) == []
    ensures HtmlArticles(name, url, now, env) == []
  {
    FirstNonEmptySpec(doc, ContainerPatterns);
  }

  /** With no candidate long enough, the kept text is no longer than the
      threshold either. */
  lemma {:induction false} LastFoundShort(cands: seq<Option<string>>, min: nat, acc: string)
    requires forall j :: 0 <= j < |cands| ==> !Long(cands[j], min)
    requires |acc| <= min
    ensures |LastFound(cands, acc)| <= min
  {
    if cands != [] && cands[|cands| - 1].None? {
      LastFoundShort(cands[..|cands| - 1], min, acc);
    }
  }

  /** The title gate is not enforced: when no title candidate is longer than
      10 characters, the last one found is the title, and a container whose
      last found title is non-empty is not dropped, however short it is. */
  lemma ShortTitleEmitted(e: Element, name: string, baseUrl: string, now: Timestamp, env: Env)
    requires forall j :: 0 <= j < |TitlePatterns| ==> !Long(Candidates(e, TitlePatterns)[j], TitleMinLength)
    ensures TitleOf(e) == LastFound(Candidates(e, TitlePatterns), "") && |TitleOf(e)| <= TitleMinLength
    ensures TitleOf(e) != "" ==> !ExtractIntelligent(e, name, baseUrl, now, env).NoRecord?
  {
    PickNoLong(Candidates(e, TitlePatterns), TitleMinLength, "");
    LastFoundShort(Candidates(e, TitlePatterns), TitleMinLength, "");
  }

  /** Candidate `j` is what `select_one` finds for pattern `j`. */
  lemma {:induction false} CandidatesIndex(e: Element, pats: seq<Selector>)
    ensures forall j :: 0 <= j < |pats| ==> Candidates(e, pats)[j] == TextOf(SelectOne(e, pats[j]))
    decreases |pats|
  {
    if pats != [] {
      CandidatesIndex(e, pats[1..]);
    }
  }

  /** A container holding `<h1>Short</h1>` and then an empty element of
      class `title`. */
  function ShortThenEmptyTitle(): Element {
    Element("div", map[], "", [Element("h1", map[], "Short", []), Element("span", map["class" := "title"], "", [])])
  }

  /** The title candidates of that container: the `h1` text, then the empty
      text of the `title` element. */
  lemma ShortThenEmptyCandidates()
    ensures Candidates(ShortThenEmptyTitle(), TitlePatterns) == [Some("Short"), None, None, Some(""), None]
  {
    var e := ShortThenEmptyTitle();
    var h1, span := e.children[0], e.children[1];
    forall sel: Selector
      ensures Select(e, sel) == (if Matches(h1, sel) then [h1] else []) + (if Matches(span, sel) then [span] else [])
    {
      assert e.children[1..] == [span] && [span][1..] == [];
      assert SelectIn([span], sel) == (if Matches(span, sel) then [span] else []) + SelectIn([], sel) + SelectIn([], sel);
    }
    assert Select(e, ClassContains("title")) == [span] by {
      assert Contains("title", "title");
    }
    assert Select(e, ClassContains("headline")) == [] by {
      assert !Contains("title", "headline");
    }
    CandidatesIndex(e, TitlePatterns);
  }

  /** The search ends on the empty text, found after the short one. */
  lemma ShortThenEmptyPick()
    ensures Pick([Some("Short"), None, None, Some(""), None], TitleMinLength, "") == ""
  {
    var cands: seq<Option<string>> := [Some("Short"), None, None, Some(""), None];
    assert cands[1..] == [None, None, Some(""), None];
    assert cands[1..][1..] == [None, Some(""), None];
    assert cands[1..][1..][1..] == [Some(""), None];
    assert cands[1..][1..][1..][1..] == [None];
  }

  /** A later title candidate with empty text overwrites an earlier short
      one, and the container is then dropped: `<h1>Short</h1>` followed by
      an empty element of class `title` gives no record. */
  lemma EmptyLaterTitleDropped(name: string, baseUrl: string, now: Timestamp, env: Env)
    ensures Candidates(ShortThenEmptyTitle(), TitlePatterns)[0] == Some("Short")
    ensures ExtractIntelligent(ShortThenEmptyTitle(), name, baseUrl, now, env).NoRecord?
  {
    ShortThenEmptyCandidates();
    ShortThenEmptyPick();
  }

  // ---------------------------------------------------------------------
  // Aggregation (`scrape_all_sources`, `_auto_scrape`)
  // ---------------------------------------------------------------------

  /** `_auto_scrape` on a source: a missing `'url'` fails; a discovered
      feed is scraped; otherwise the heuristic path runs. */
  function AutoOutcome(source: SourceConfig, cutoff: Timestamp, now: Timestamp, env: Env): Outcome {
    match source.url
    case None => Failed
    case Some(u) =>
      var d := DiscoverFeed(u, env);
      if HasFeed(d) then Done(RssArticles(env.feed(d.value), source.name, cutoff, now, env))
      else HtmlOutcome(source, now, env)
  }

  /** The source after `_auto_scrape`: the discovered feed is written into
      `'rss_url'`. */
  function AutoUpdated(source: SourceConfig, env: Env): SourceConfig {
    match source.url
    case None => source
    case Some(u) => var d := DiscoverFeed(u, env); if HasFeed(d) then source.(rssUrl := d) else source
  }

  /** A discovered feed is written into `'rss_url'`, nothing else about
      the source changes, and the articles are those of the feed path run
      on the updated source. */
  lemma DiscoveryWritesFeed(source: SourceConfig, cutoff: Timestamp, now: Timestamp, env: Env)
    requires source.rssUrl.None? && source.url.Some? && HasFeed(DiscoverFeed(source.url.value, env))
    ensures UpdatedSource(source, env) == source.(rssUrl := DiscoverFeed(source.url.value, env))
    ensures SourceOutcome(source, cutoff, now, env) == Done(RssOf(UpdatedSource(source, env), cutoff, now, env))
  {
  }

  /** Without a usable discovered feed the heuristic path runs, the source
      is left as it was, and the cutoff plays no part in the result. */
  lemma HtmlPathIgnoresCutoff(source: SourceConfig, cutoff1: Timestamp, cutoff2: Timestamp, now: Timestamp, env: Env)
    requires source.rssUrl.None? && source.url.Some? && !HasFeed(DiscoverFeed(source.url.value, env))
    ensures SourceOutcome(source, cutoff1, now, env) == SourceOutcome(source, cutoff2, now, env) == HtmlOutcome(source, now, env)
    ensures UpdatedSource(source, env) == source
  {
  }

  /** One iteration of the aggregation loop. */
  function SourceOutcome(source: SourceConfig, cutoff: Timestamp, now: Timestamp, env: Env): Outcome {
    if source.rssUrl.Some? then Done(RssOf(source, cutoff, now, env))
    else AutoOutcome(source, cutoff, now, env)
  }

  /** Whatever path a source takes, its articles carry a non-empty title and
      the source's name. */
  lemma SourceOutcomeValid(source: SourceConfig, cutoff: Timestamp, now: Timestamp, env: Env)
    ensures var r := SourceOutcome(source, cutoff, now, env);
      r.Done? ==> forall a :: a in r.articles ==> a.title != "" && a.source == source.name
  {
    if source.rssUrl.Some? {
      FeedArticlesValid(env.feed(source.rssUrl.value), source.name, cutoff, now, env);
    } else if source.url.Some? {
      var u := source.url.value;
      var d := DiscoverFeed(u, env);
      if HasFeed(d) {
        FeedArticlesValid(env.feed(d.value), source.name, cutoff, now, env);
      } else if env.page(u).Some? {
        HarvestValid(Take(FirstNonEmpty(env.page(u).value, ContainerPatterns), ContainerCap), source.name, u, now, env);
      }
    }
  }

  /** The source after its iteration: only a source without a feed URL can
      change, and only its `'rss_url'`, which becomes a non-empty URL. */
  function UpdatedSource(source: SourceConfig, env: Env): (r: SourceConfig)
    ensures r.name == source.name && r.url == source.url && r.selectors == source.selectors
    ensures r != source ==> source.rssUrl.None? && r.rssUrl.Some? && r.rssUrl.value != ""
  {
    if source.rssUrl.Some? then source else AutoUpdated(source, env)
  }

  /** The source list after a run. */
  function UpdatedSources(sources: seq<SourceConfig>, env: Env): (r: seq<SourceConfig>)
    ensures |r| == |sources|
  {
    if sources == [] then []
    else UpdatedSources(sources[..|sources| - 1], env) + [UpdatedSource(sources[|sources| - 1], env)]
  }

  /** What one source yields in one run. */
  function Scrape(cutoff: Timestamp, now: Timestamp, env: Env): SourceConfig -> Outcome {
    source => SourceOutcome(source, cutoff, now, env)
  }

  /** Every aggregated article has a non-empty title and names one of the
      configured sources. */
  lemma {:induction false} AllArticlesValid(sources: seq<SourceConfig>, cutoff: Timestamp, now: Timestamp, env: Env)
    ensures forall a :: a in Aggregate(sources, Scrape(cutoff, now, env)) ==> a.title != "" && a.source in Names(sources)
  {
    if sources != [] {
      var init := sources[..|sources| - 1];
      var last := sources[|sources| - 1];
      AllArticlesValid(init, cutoff, now, env);
      SourceOutcomeValid(last, cutoff, now, env);
      assert forall k :: 0 <= k < |init| ==> init[k] == sources[k];
      assert Names(init) + {last.name} <= Names(sources);
    }
  }

  /** Writing the discovered feed back is stable: a second run over the
      updated sources changes nothing more and, in the same world, yields
      the same articles. */
  lemma {:induction false} RerunIsStable(sources: seq<SourceConfig>, cutoff: Timestamp, now: Timestamp, env: Env)
    ensures UpdatedSources(UpdatedSources(sources, env), env) == UpdatedSources(sources, env)
    ensures Aggregate(UpdatedSources(sources, env), Scrape(cutoff, now, env)) == Aggregate(sources, Scrape(cutoff, now, env))
  {
    if sources != [] {
      var init := sources[..|sources| - 1];
      RerunIsStable(init, cutoff, now, env);
      var u := UpdatedSources(sources, env);
      assert u[..|u| - 1] == UpdatedSources(init, env);
    }
  }

  /** The list `scrape_all_sources` returns for these sources: each source's
      articles in configured order, nothing from a source that raised. It
      is `Aggregate` with this scraper's step (`AllArticlesIsAggregate`),
      written over `SourceOutcome` directly so that the loop invariant of
      `ScrapeAllSources` holds no function value. */
  function AllArticles(sources: seq<SourceConfig>, cutoff: Timestamp, now: Timestamp, env: Env): seq<Article> {
    if sources == [] then []
    else AllArticles(sources[..|sources| - 1], cutoff, now, env) + Contribution(SourceOutcome(sources[|sources| - 1], cutoff, now, env))
  }

  /** It is the shared aggregation with this scraper's per-source step. */
  lemma {:induction false} AllArticlesIsAggregate(sources: seq<SourceConfig>, cutoff: Timestamp, now: Timestamp, env: Env)
    ensures AllArticles(sources, cutoff, now, env) == Aggregate(sources, Scrape(cutoff, now, env))
  {
    if sources != [] {
      AllArticlesIsAggregate(sources[..|sources| - 1], cutoff, now, env);
    }
  }

  /** One more source processed appends that source's contribution. */
  lemma AllArticlesStep(orig: seq<SourceConfig>, i: nat, cutoff: Timestamp, now: Timestamp, env: Env)
    requires i < |orig|
    ensures AllArticles(orig[..i + 1], cutoff, now, env) == AllArticles(orig[..i], cutoff, now, env) + Contribution(SourceOutcome(orig[i], cutoff, now, env))
  {
    assert orig[..i + 1][..i] == orig[..i];
  }

  /** Updating the list updates each source on its own, in place. */
  lemma {:induction false} UpdatedSourcesIndex(sources: seq<SourceConfig>, env: Env)
    ensures forall k :: 0 <= k < |sources| ==> UpdatedSources(sources, env)[k] == UpdatedSource(sources[k], env)
  {
    if sources != [] {
      var init := sources[..|sources| - 1];
      UpdatedSourcesIndex(init, env);
      assert forall k :: 0 <= k < |init| ==> init[k] == sources[k];
    }
  }

  class AutoScraper {
    /** The caller's source dictionaries; discovery writes into them. */
    var sources: seq<SourceConfig>

    constructor (sources: seq<SourceConfig>)
      ensures this.sources == sources
    {
      this.sources := sources;
    }

    /** `scrape_all_sources(hours_ago)`. A source dictionary updated by
        discovery is written back in place. */
    method ScrapeAllSources(hoursAgo: int, now: Timestamp, env: Env) returns (all: seq<Article>)
      modifies this
      ensures all == AllArticles(old(sources), now - hoursAgo * SecondsPerHour, now, env)
      ensures sources == UpdatedSources(old(sources), env)
    {
      var cutoff := now - hoursAgo * SecondsPerHour;
      ghost var orig := sources;
      all := [];
      var i := 0;
      assert orig[..0] == [];
      while i < |sources|
        invariant 0 <= i <= |orig| == |sources|
        invariant forall k :: 0 <= k < i ==> sources[k] == UpdatedSource(orig[k], env)
        invariant forall k :: i <= k < |orig| ==> sources[k] == orig[k]
        invariant all == AllArticles(orig[..i], cutoff, now, env)
      {
        AllArticlesStep(orig, i, cutoff, now, env);
        var outcome, updated := ScrapeOne(sources[i], cutoff, now, env);
        sources := sources[i := updated];
        all := all + Contribution(outcome);
        i := i + 1;
      }
      assert orig[..i] == orig;
      UpdatedSourcesIndex(orig, env);
    }

    /** The body of the aggregation loop for one source: its feed when
        `'rss_url'` is present, the automatic path otherwise. */
    method ScrapeOne(source: SourceConfig, cutoff: Timestamp, now: Timestamp, env: Env) returns (outcome: Outcome, updated: SourceConfig)
      ensures outcome == SourceOutcome(source, cutoff, now, env)
      ensures updated == UpdatedSource(source, env)
    {
      updated := source;
      if source.rssUrl.Some? {
        var articles, _ := ScrapeRss(source, cutoff, now, env);
        outcome := Done(articles);
      } else {
        outcome, updated := AutoScrape(source, cutoff, now, env);
      }
    }

    /** `_scrape_rss(source, cutoff_time)`; `filtered` is the number of
        entries it logs as dropped for age. */
    method ScrapeRss(source: SourceConfig, cutoff: Timestamp, now: Timestamp, env: Env) returns (articles: seq<Article>, filtered: nat)
      ensures articles == RssOf(source, cutoff, now, env)
      ensures source.rssUrl.Some? && !AnyRaisesOnDate(env.feed(source.rssUrl.value))
        ==> filtered == CountOld(env.feed(source.rssUrl.value), cutoff)
    {
      if source.rssUrl.None? {
        return [], 0;
      }
      var entries := env.feed(source.rssUrl.value);
      if |entries| == 0 {
        return [], 0;
      }
      articles, filtered := [], 0;
      var i := 0;
      while i < |entries|
        invariant 0 <= i <= |entries|
        invariant forall j :: 0 <= j < i ==> !RaisesOnDate(entries[j])
        invariant articles == FeedArticles(entries[..i], source.name, cutoff, now, env)
        invariant filtered == CountOld(entries[..i], cutoff)
      {
        var entry := entries[i];
        var pubDate: Option<Timestamp> := None;
        if entry.publishedParsed.Some? {
          if entry.publishedParsed.value.OutOfRange? {
            assert RaisesOnDate(entries[i]);
            return [], 0;
          }
          pubDate := Some(entry.publishedParsed.value.ts);
        } else if entry.updatedParsed.Some? {
          if entry.updatedParsed.value.OutOfRange? {
            assert RaisesOnDate(entries[i]);
            return [], 0;
          }
          pubDate := Some(entry.updatedParsed.value.ts);
        }
        assert entries[..i + 1][..i] == entries[..i];
        if pubDate.Some? && pubDate.value < cutoff {
          filtered := filtered + 1;
        } else {
          var article := EntryArticle(entry, source.name, now, env);
          if article.title != "" {
            articles := articles + [article];
          }
        }
        i := i + 1;
      }
      assert entries[..i] == entries;
    }

    /** `_auto_scrape(source, cutoff_time)`; `updated` is the source
        dictionary afterwards, with a discovered feed written into it. */
    method AutoScrape(source: SourceConfig, cutoff: Timestamp, now: Timestamp, env: Env) returns (outcome: Outcome, updated: SourceConfig)
      ensures outcome == AutoOutcome(source, cutoff, now, env)
      ensures updated == AutoUpdated(source, env)
    {
      updated := source;
      if source.url.None? {
        return Failed, updated;
      }
      var rssUrl, _ := DiscoverRss(source.url.value, env);
      if rssUrl.Some? && rssUrl.value != "" {
        updated := source.(rssUrl := rssUrl);
        var articles, _ := ScrapeRss(updated, cutoff, now, env);
        return Done(articles), updated;
      }
      outcome := ScrapeHtmlIntelligent(source, cutoff, now, env);
    }

    /** `_discover_rss(url)`; `probed` lists the HEAD requests made. */
    method DiscoverRss(url: string, env: Env) returns (r: Option<string>, ghost probed: seq<string>)
      ensures r == DiscoverFeed(url, env)
      ensures probed != [] ==> env.origin(url).Some? && probed <= FeedCandidates(url, env.origin(url).value)
      ensures forall j :: 0 <= j < |probed| - 1 ==> !Answers(probed[j], env)
    {
      probed := [];
      var page := env.page(url);
      if page.None? {
        return None, probed;
      }
      var doc := page.value;
      var rssLink := SelectOne(doc, TagWithAttrValue("link", "type", RssType));
      if rssLink.Some? && "href" in rssLink.value.attrs && rssLink.value.attrs["href"] != "" {
        return env.join(url, rssLink.value.attrs["href"]), probed;
      }
      var atomLink := SelectOne(doc, TagWithAttrValue("link", "type", AtomType));
      if atomLink.Some? && "href" in atomLink.value.attrs && atomLink.value.attrs["href"] != "" {
        return env.join(url, atomLink.value.attrs["href"]), probed;
      }
      var origin := env.origin(url);
      if origin.None? {
        return None, probed;
      }
      r, probed := Probe(FeedCandidates(url, origin.value), env);
    }

    /** The probing loop of `_discover_rss`: a HEAD request per candidate,
        in order, until one answers 200; `probed` lists the requests made. */
    method Probe(cands: seq<string>, env: Env) returns (r: Option<string>, ghost probed: seq<string>)
      ensures r == FirstOk(cands, env)
      ensures probed <= cands
      ensures forall j :: 0 <= j < |probed| - 1 ==> !Answers(probed[j], env)
      ensures r.Some? ==> probed != [] && r.value == probed[|probed| - 1]
    {
      probed := [];
      var i := 0;
      while i < |cands|
        invariant 0 <= i <= |cands|
        invariant probed == cands[..i]
        invariant forall j :: 0 <= j < i ==> !Answers(cands[j], env)
        invariant FirstOk(cands, env) == FirstOk(cands[i..], env)
      {
        assert cands[i..][1..] == cands[i + 1..];
        var status := env.head(cands[i]);
        probed := probed + [cands[i]];
        if status == Some(StatusOk) {
          return Some(cands[i]), probed;
        }
        i := i + 1;
      }
      return None, probed;
    }

    /** `_scrape_html_intelligent(source, cutoff_time)`: the cutoff is
        accepted and never used. */
    method ScrapeHtmlIntelligent(source: SourceConfig, cutoff: Timestamp, now: Timestamp, env: Env) returns (outcome: Outcome)
      ensures outcome == HtmlOutcome(source, now, env)
    {
      if source.url.None? {
        return Failed;
      }
      var url := source.url.value;
      var page := env.page(url);
      if page.None? {
        return Done([]);
      }
      var doc := page.value;
      var elements: seq<Element> := [];
      var p := 0;
      while p < |ContainerPatterns|
        invariant 0 <= p <= |ContainerPatterns|
        invariant elements == []
        invariant FirstNonEmpty(doc, ContainerPatterns) == FirstNonEmpty(doc, ContainerPatterns[p..])
      {
        assert ContainerPatterns[p..][1..] == ContainerPatterns[p + 1..];
        var found := Select(doc, ContainerPatterns[p]);
        if found != [] {
          elements := found;
          break;
        }
        p := p + 1;
      }
      assert elements == FirstNonEmpty(doc, ContainerPatterns);
      var capped := Take(elements, ContainerCap);
      var articles: seq<Article> := [];
      var i := 0;
      while i < |capped|
        invariant 0 <= i <= |capped|
        invariant articles == Harvest(capped[..i], source.name, url, now, env)
      {
        var x := ExtractArticleIntelligent(capped[i], source.name, url, now, env);
        HarvestStep(capped, i, source.name, url, now, env);
        if x.Record? && x.article.title != "" {
          articles := articles + [x.article];
        }
        i := i + 1;
      }
      assert capped[..i] == capped;
      return Done(articles);
    }

    /** `_extract_article_intelligent(element, source_name, base_url)`. */
    method ExtractArticleIntelligent(element: Element, name: string, baseUrl: string, now: Timestamp, env: Env) returns (r: Extracted)
      ensures r == ExtractIntelligent(element, name, baseUrl, now, env)
    {
      var title := SearchText(element, TitlePatterns, TitleMinLength);
      if title.None? || title.value == "" {
        return NoRecord;
      }

      var link: Option<string> := None;
      var linkElem := SelectOne(element, TagWithAttr("a", "href"));
      if linkElem.Some? {
        link := Some(linkElem.value.attrs["href"]);
        if link.value != "" && !StartsWith(link.value, "http") {
          var joined := env.join(baseUrl, link.value);
          if joined.None? {
            return Raised;
          }
          link := joined;
        }
      }

      var dateStr: Option<string> := None;
      var timeElem := SelectOne(element, Tag("time"));
      if timeElem.Some? {
        dateStr := Some(DateAttrOrText(timeElem.value));
      }

      var description := SearchText(element, DescriptionPatterns, DescriptionMinLength);
      return Record(Article(title.value, link.GetOr(""), name, dateStr, description.GetOr(""), now));
    }

    /** The title and description searches: each pattern in turn, the text
        found replacing the previous one, until a text longer than `min`. */
    method SearchText(element: Element, pats: seq<Selector>, min: nat) returns (text: Option<string>)
      ensures text.GetOr("") == Pick(Candidates(element, pats), min, "")
      ensures text.None? <==> forall k :: 0 <= k < |pats| ==> SelectOne(element, pats[k]).None?
    {
      text := None;
      var k := 0;
      while k < |pats|
        invariant 0 <= k <= |pats|
        invariant Pick(Candidates(element, pats), min, "") == Pick(Candidates(element, pats[k..]), min, text.GetOr(""))
        invariant text.None? <==> forall j :: 0 <= j < k ==> SelectOne(element, pats[j]).None?
      {
        var found := SelectOne(element, pats[k]);
        assert pats[k..][1..] == pats[k + 1..];
        if found.Some? {
          text := Some(found.value.text);
          if text.value != "" && |text.value| > min {
            return;
          }
        }
        k := k + 1;
      }
    }
  }
}
