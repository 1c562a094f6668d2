# News scrapers and analyzer helpers, modelled in Dafny

This project models the article-gathering core of a newsletter generator.

- **The automatic scraper** (`src/auto_scraper.py`) handles each configured source in turn:
  - a source with an `'rss_url'` is read as a feed, filtered by a recency cutoff;
  - any other source first tries feed discovery, using the page's `<link>` tags and then six conventional paths probed with HEAD requests;
  - when discovery finds nothing, articles are extracted heuristically from the page's HTML.
- **The selector-driven scraper** (`src/scraper.py`) reads each source's page with the CSS selectors configured for it. It caps the containers at 50 and keeps only records whose date is recent.
- **The analyzer helpers** (`src/ai_analyzer.py`) cover the deterministic parts around the language-model calls:
  - the numbered article list sent in the prompt;
  - removing a Markdown code fence from a reply;
  - mapping 1-based article numbers in the reply back to articles;
  - the fallback analysis;
  - the per-story text used for the newsletter prompt.

## Files

- `text.dfy` (module `Text`): Python string operations the code relies on:
  - `find`, `in`, `startswith`;
  - slicing with negative or out-of-range bounds;
  - `strip`, `join`;
  - decimal rendering of a number.
- `html.dfy` (module `Html`): a parsed page as an element tree; `select` (every match in document order) and `select_one` / `find` (the first match).
- `records.dfy` (module `Records`):
  - the article record, the source configuration and the feed entry;
  - the outside world as an `Env` of functions (page fetch and parse, feed entries, HEAD status, `urljoin`, origin of a URL, `get_text`, `dateutil` parsing);
  - the per-source aggregation loop shared by both scrapers.
- `auto_scraper.dfy` (module `AutoScraping`): class `AutoScraper`, whose `sources` field is the caller's list of source dictionaries. Feed discovery writes into it.
- `selector_scraper.dfy` (module `SelectorScraping`): class `ArticleScraper`.
- `analyzer.dfy` (module `Analyzer`): the analyzer helpers.

Each loop in the code is a Dafny method with loop invariants. Each method is proved equal to a recursive specification function, and the properties the code promises are lemmas about those functions.

An exception that the code catches is a value:
- `Outcome.Failed` is a source whose processing raised past its own handler;
- `Extracted.Raised` is a container whose extraction raised;
- `None` is an oracle call that raised.

### Behaviour of the code worth noting

- The feed path tests the title as given, without trimming it. An entry whose title is `" "` is emitted (`BlankTitleEmitted`), so the number of emitted entries is the entry count minus the old entries *and* minus the untitled ones (`FeedCount`).
- The title loop overwrites `title` at every match and stops at the first candidate longer than 10 characters. When no candidate is longer than 10 characters, the last one found becomes the title (`ShortTitleEmitted`). The container is kept only if that last text is non-empty: a later empty match discards an earlier short title (`EmptyLaterTitleDropped`). The description loop does the same with 20 characters.
- The heuristic HTML path never uses the cutoff (`HtmlPathIgnoresCutoff`).
- Successful discovery writes the feed URL into the caller's source dictionary (`DiscoveryWritesFeed`, `AutoScraper.ScrapeAllSources`). Because of that, a second run over the same list takes the feed path directly (`RerunIsStable`).
- A discovered feed URL that is the empty string is not used (`if rss_url:`), and the heuristic path runs.
- A feed whose chosen date tuple cannot be converted aborts the whole feed, which then yields nothing, rather than skipping the entry.

## Model

| member | source | states |
|---|---|---|
| Text.Find | src/ai_analyzer.py:99-100 | `find` gives the first occurrence at or after the start, or -1 when there is none |
| Text.Prefix | src/ai_analyzer.py:46 | `s[:n]` is the first `min(n, len)` elements for `n >= 0`, and drops `-n` from the end for negative `n` |
| Text.StripIdempotent | src/ai_analyzer.py:101 | a stripped text has no white space at either end, and stripping it again changes nothing |
| Text.DecimalRoundTrip | src/ai_analyzer.py:44 | the digits printed for a number read back as that number |
| Html.SelectInIsFilter | src/auto_scraper.py:216 | `select` keeps exactly the descendants that match |
| Html.SelectInFirst | src/auto_scraper.py:216 | the first element `select` gives is the first match in document order: nothing before it in the tree matches |
| Html.SelectOneSpec | src/auto_scraper.py:243 | `select_one` finds nothing exactly when no descendant matches; otherwise it finds a matching descendant, and no descendant before it in document order matches |
| Records.Take | src/auto_scraper.py:221 | `lst[:n]` is a prefix of at most `n` elements; the whole list when it is short enough, exactly `n` otherwise |
| Records.AggregateStep | src/auto_scraper.py:52 | one more source processed appends its contribution to the aggregate |
| Records.AggregateAppend | src/auto_scraper.py:42-55 | the aggregate over two lists of sources is the concatenation of their aggregates |
| Records.FailedSourceIsolated | src/auto_scraper.py:44-55 | a source that raises contributes nothing, and every later source is still processed |
| AutoScraping.CleanHtml | src/auto_scraper.py:285-290 | cleaning the empty string gives the empty string without parsing |
| AutoScraping.FeedArticles | src/auto_scraper.py:89-117 | the feed path never emits more records than the feed has entries |
| AutoScraping.FeedArticlesValid | src/auto_scraper.py:107-117 | every emitted feed record has a non-empty title and the source's name |
| AutoScraping.FeedArticlesMembership | src/auto_scraper.py:89-117 | an entry's record is emitted if and only if the entry is not old and has a non-empty title; old means a chosen date strictly before the cutoff |
| AutoScraping.FeedCount | src/auto_scraper.py:97-117 | emitted, dropped-as-old and dropped-for-empty-title entries add up to the number of entries |
| AutoScraping.ThreeEntryFeed | src/auto_scraper.py:89-117 | entries 2 hours old, 48 hours old and undated, with a 24-hour cutoff: the first and the third are emitted, in that order |
| AutoScraping.BlankTitleEmitted | src/auto_scraper.py:116-117 | a title made of one space is emitted, because the title is not trimmed |
| AutoScraping.FirstOkSpec | src/auto_scraper.py:178-186 | probing finds nothing exactly when no candidate answers 200; otherwise it finds the first candidate that answers 200 |
| AutoScraping.Candidates | src/auto_scraper.py:242-245 | one candidate per title or description pattern |
| AutoScraping.PickFirstLong | src/auto_scraper.py:242-247 | when some candidate is longer than the threshold, the first such candidate is chosen |
| AutoScraping.PickNoLong | src/auto_scraper.py:240-248 | when no candidate is long enough, the last candidate found is chosen |
| AutoScraping.PickNothingFound | src/auto_scraper.py:240-249 | with nothing found, the initial value is kept |
| AutoScraping.LastFoundShort | src/auto_scraper.py:240-248 | when no candidate is long enough, the chosen text is no longer than the threshold |
| AutoScraping.CandidatesIndex | src/auto_scraper.py:242-243 | candidate `j` is what `select_one` finds for title or description pattern `j` |
| AutoScraping.EmptyLaterTitleDropped | src/auto_scraper.py:240-250 | `<h1>Short</h1>` followed by an empty element of class `title`: the first candidate is `Short`, yet the empty later match overwrites it and the container gives no record |
| AutoScraping.ShortTitleEmitted | src/auto_scraper.py:240-250 | with no title candidate over 10 characters, the title is the last one found, at most 10 long, and a non-empty one is not dropped |
| AutoScraping.ExtractIntelligent | src/auto_scraper.py:236-283 | no record exactly when the chosen title is empty; an exception exactly when a title is found but the link join raises; a record carries the chosen title, the joined link of the first `<a href>`, the source name, the chosen description, the `<time>` date and the scrape time |
| AutoScraping.FirstNonEmptySpec | src/auto_scraper.py:214-219 | no containers exactly when no pattern matches; otherwise the matches of the first pattern that has any |
| AutoScraping.Harvest | src/auto_scraper.py:221-228 | no more records than containers |
| AutoScraping.HarvestMembership | src/auto_scraper.py:221-225 | a record is harvested if and only if some container yields it |
| AutoScraping.HarvestAppend | src/auto_scraper.py:221-228 | the containers are processed independently: harvesting two runs of containers is concatenating their harvests |
| AutoScraping.SkippedContainerIsolated | src/auto_scraper.py:221-228 | a container with no title or whose extraction raises is skipped, and the containers after it are still processed |
| AutoScraping.HarvestValid | src/auto_scraper.py:221-225 | every harvested record has a non-empty title and the source's name |
| AutoScraping.HtmlArticles | src/auto_scraper.py:197-230 | the heuristic path yields at most 30 records |
| AutoScraping.NoContainersNoArticles | src/auto_scraper.py:214-230 | a page where no container pattern matches yields no records |
| AutoScraping.DiscoveryWritesFeed | src/auto_scraper.py:140-144 | a discovered feed is written into `'rss_url'`, nothing else changes, and the feed path runs on the updated source |
| AutoScraping.HtmlPathIgnoresCutoff | src/auto_scraper.py:141-147 | without a usable feed, the result is the heuristic path's whatever the cutoff, and the source is unchanged |
| AutoScraping.SourceOutcomeValid | src/auto_scraper.py:42-52 | whatever path a source takes, its records have a non-empty title and the source's name |
| AutoScraping.UpdatedSource | src/auto_scraper.py:140-143 | only a source without `'rss_url'` can change, only in `'rss_url'`, and only to a non-empty URL |
| AutoScraping.UpdatedSources | src/auto_scraper.py:42-50 | the updated list has as many sources as the original |
| AutoScraping.AllArticlesValid | src/auto_scraper.py:39-57 | every aggregated record has a non-empty title and names a configured source |
| AutoScraping.RerunIsStable | src/auto_scraper.py:46-50 | running again over the updated sources changes nothing more and, in the same world, yields the same records |
| AutoScraping.AllArticlesIsAggregate | src/auto_scraper.py:39-57 | this scraper's result is the shared per-source aggregation with its own per-source step |
| AutoScraping.UpdatedSourcesIndex | src/auto_scraper.py:42-50 | the list is updated one source at a time, each in its own position |
| AutoScraping.AutoScraper.constructor | src/auto_scraper.py:23-24 | the scraper holds the caller's sources |
| AutoScraping.AutoScraper.ScrapeAllSources | src/auto_scraper.py:29-57 | the result is each source's contribution in configured order, and the source list afterwards is the list with discovered feeds written in |
| AutoScraping.AutoScraper.ScrapeOne | src/auto_scraper.py:44-52 | a source with `'rss_url'` takes the feed path, any other the automatic path |
| AutoScraping.AutoScraper.ScrapeRss | src/auto_scraper.py:59-132 | nothing for a missing key, an empty feed or a date that fails to convert; otherwise the kept entries' records; the counter is the number of old entries |
| AutoScraping.AutoScraper.AutoScrape | src/auto_scraper.py:134-147 | a missing `'url'` raises; a usable discovered feed is written into the source and scraped; otherwise the heuristic path runs |
| AutoScraping.AutoScraper.DiscoverRss | src/auto_scraper.py:149-190 | nothing for a failed fetch; else the RSS link, the Atom link, or the first of six probes to answer 200; the probes are a prefix of the six, all but the last unanswered |
| AutoScraping.AutoScraper.Probe | src/auto_scraper.py:178-186 | HEAD probes in order until the first 200; the one returned is the last probed |
| AutoScraping.AutoScraper.ScrapeHtmlIntelligent | src/auto_scraper.py:192-234 | a missing `'url'` raises; a failed fetch gives nothing; otherwise the records of the first 30 containers of the first pattern that matches |
| AutoScraping.AutoScraper.ExtractArticleIntelligent | src/auto_scraper.py:236-283 | the loop-and-break extraction computes the record the specification function describes |
| AutoScraping.AutoScraper.SearchText | src/auto_scraper.py:240-248 | the text found is the first-long-else-last-found choice, and nothing is found exactly when no pattern matches |
| SelectorScraping.DescriptionText | src/scraper.py:104-108 | empty unless a `'description'` selector is configured; else the matched text, and `""` when the configured selector matches nothing |
| SelectorScraping.ExtractData | src/scraper.py:78-117 | no record exactly when the title selector finds nothing or empty text; an exception exactly when a title is found and the link join raises; otherwise a record whose title, link, date and description are what the configured selectors find, with the source's name and the scrape time |
| SelectorScraping.DescriptionSelectorIsolated | src/scraper.py:103-108 | the optional `'description'` selector changes nothing but the description: without it the outcome is the same and a record only loses its description |
| SelectorScraping.IsRecentAlwaysIffUndated | src/scraper.py:119-133 | a record is kept whatever the cutoff if and only if its date is missing, empty or unparseable |
| SelectorScraping.IsRecentIgnoresOffset | src/scraper.py:126-130 | the UTC offset of a parsed date plays no part |
| SelectorScraping.IsRecentMonotone | src/scraper.py:119-133 | a record recent for a cutoff stays recent for every earlier cutoff |
| SelectorScraping.Extractions | src/scraper.py:63-65 | one extraction per container; each record is titled and named after the source |
| SelectorScraping.Collect | src/scraper.py:63-67 | no more records than extractions |
| SelectorScraping.CollectMembership | src/scraper.py:63-67 | a record is kept if and only if some container yields it and it is recent |
| SelectorScraping.CollectValid | src/scraper.py:63-72 | every kept record is titled, named after the source and recent |
| SelectorScraping.SourceOutcomeValid | src/scraper.py:50-76 | at most 50 records per source, each titled, named after the source and recent |
| SelectorScraping.AllArticlesValid | src/scraper.py:36-48 | at most 50 records per source overall, each titled, recent and naming a configured source |
| SelectorScraping.ArticleScraper.constructor | src/scraper.py:20-21 | the scraper holds the caller's sources |
| SelectorScraping.ArticleScraper.ScrapeAllSources | src/scraper.py:26-48 | the result is each source's contribution in configured order |
| SelectorScraping.ArticleScraper.ScrapeSource | src/scraper.py:50-76 | a missing `'url'` or `'selectors'` raises; a failed request gives nothing; otherwise the recent records of the first 50 containers |
| SelectorScraping.ArticleScraper.CollectRecent | src/scraper.py:63-70 | the container loop appends each extracted, recent record in container order, skipping containers that give no record or raise |
| Analyzer.SummaryLines | src/ai_analyzer.py:42-47 | one line per article |
| Analyzer.SummaryLinesIndex | src/ai_analyzer.py:43-47 | line `k` is the line of article `k` |
| Analyzer.SummaryLineNumber | src/ai_analyzer.py:44-46 | the number heading line `i` reads back as `i + 1`; the line keeps the source and title, and at most 150 description characters |
| Analyzer.NumberingConsistent | src/ai_analyzer.py:44-113 | the line numbered `n` shows `articles[n-1]`, and the number `n` in a reply maps back to exactly that article |
| Analyzer.ReferencedOne | src/ai_analyzer.py:111-113 | a single in-range number maps to exactly its article |
| Analyzer.ArticlesText | src/ai_analyzer.py:42-49 | the loop builds the article lines joined by newlines |
| Analyzer.FenceBodyShorter | src/ai_analyzer.py:98-105 | removing a fence makes the reply shorter by at least the marker |
| Analyzer.UnfenceUnchanged | src/ai_analyzer.py:98-107 | a reply comes back unchanged if and only if it holds neither the opener nor a plain fence |
| Analyzer.UnfenceRoundTrip | src/ai_analyzer.py:98-101 | a reply with a fenced body gives back the stripped body |
| Analyzer.UnfenceUnclosed | src/ai_analyzer.py:99-101 | with no closing fence, the body loses its final character before stripping |
| Analyzer.UnfencePlain | src/ai_analyzer.py:102-105 | a body in a fence without a language tag is recovered the same way |
| Analyzer.NewsletterHtmlUnwrapped | src/ai_analyzer.py:223-233 | a newsletter in an `html` fence comes back as its stripped body |
| Analyzer.ValidNumbers | src/ai_analyzer.py:112-113 | filtering keeps no more numbers than it was given |
| Analyzer.Referenced | src/ai_analyzer.py:111-114 | no more articles than numbers |
| Analyzer.ValidNumbersMembership | src/ai_analyzer.py:112-113 | a number survives if and only if it is given and `0 < num <= len(articles)` |
| Analyzer.ReferencedSpec | src/ai_analyzer.py:110-114 | the articles are `articles[num-1]` for the surviving numbers, in order and with repeats |
| Analyzer.ReferencedAllInRange | src/ai_analyzer.py:110-114 | when every number is in range, none is dropped |
| Analyzer.Attached | src/ai_analyzer.py:110-114 | one story out per story in |
| Analyzer.AttachedSpec | src/ai_analyzer.py:110-114 | each story gets the articles of its own numbers, and nothing else about it changes |
| Analyzer.AttachedIdempotent | src/ai_analyzer.py:110-114 | mapping the numbers twice is mapping them once |
| Analyzer.AttachArticles | src/ai_analyzer.py:110-114 | the in-place loop sets every story's articles as specified |
| Analyzer.FallbackSpec | src/ai_analyzer.py:122-136 | `min(top_count, len(articles))` stories for a non-negative count; story `i` has number `i+1`, the source as category, the title as headline, and that article |
| Analyzer.FallbackAttachedStable | src/ai_analyzer.py:122-132 | the fallback's numbers point back at its own articles |
| Analyzer.AnalyzeAndSelect | src/ai_analyzer.py:39-136 | the decoded reply with articles attached, or the fallback when the call or the decoding fails |
| Analyzer.StoryText | src/ai_analyzer.py:159-170 | the story's header lines followed by one block per source article |
| Analyzer.HeaderText | src/ai_analyzer.py:160-163 | the four header appends, with `Untitled` and `General` for a missing headline or category |
| Analyzer.AppendArticle | src/ai_analyzer.py:166-169 | an article line, then a `Link:` line only when the link is non-empty |
| Analyzer.StoryTexts | src/ai_analyzer.py:158-171 | one text per story |
| Analyzer.NewsletterContext | src/ai_analyzer.py:157-175 | the story texts joined by newlines, the themes joined by `", "`, and the narrative (empty when missing) |
| Analyzer.StoryHeaderLines | src/ai_analyzer.py:160-163 | the header is five lines when no field holds a line break |
| Analyzer.BlockLines | src/ai_analyzer.py:166-169 | an article takes one line, or two with a link |
| Analyzer.ArticleLinesCount | src/ai_analyzer.py:166-169 | the article blocks take one line per article plus one per link |
| Analyzer.StoryTextLines | src/ai_analyzer.py:159-170 | a story's text is `5 + articles + linked articles` lines |

## Left out

- HTTP is a function of its arguments in `Env`, and so are the parsers: `requests.get`/`head`, `raise_for_status`, timeouts and headers, feedparser and its own fetch fallback, BeautifulSoup/lxml, `get_text(strip=True)`, `urljoin`, `urlparse` and `dateutil`. So a URL fetched twice in one run gives the same answer both times.
- The wall clock is a single parameter `now`. It gives both the cutoff and every record's `scraped_at`, which is a number rather than an ISO string.
- CSS selection covers only the four query forms the code issues. A tag, a class substring, a tag with an attribute, and a tag with an attribute value; the `class` attribute is one string. The configured selector strings of the selector-driven scraper are taken to be of these forms.
- `datetime(*t[:6])` is a time tuple that either converts to a timestamp or raises; timestamps compare as naive wall-clock seconds.
- A source without `'name'` raises outside the per-source handler and ends the whole run; every modelled source has a name.
- A source whose `'rss_url'` key is present with a null value is treated as having no `'rss_url'`.
- AutoScraping.AutoScraper.ScrapeAllSources: the in-place write into a source dictionary is modelled as replacing that source in the scraper's list. Another reference to the same dictionary, held outside the scraper, is not modelled.
- Logging and the diagnostics around the loops are not modelled: the all-filtered warning, the feed status, traceback output. `_scrape_rss`'s `filtered_count` is returned so that its value can be stated.
- Analyzer.AnalyzeAndSelect: the prompt prose, the audience and the model call are a parameter `ask`, and `json.loads` is a parameter `decode`. Failures that only a malformed decoded value can cause are not modelled: a non-dictionary analysis or story, non-integer article numbers, or JSON `null` fields. Such failures send the code to the fallback.
- Analyzer.NewsletterHtml: only the successful reply is modelled. The call's exception, which `generate_newsletter_content` re-raises, the newsletter name and the style guide are not part of this model.
- `get_article_content` (`src/scraper.py:135-163`) is a fetch followed by text extraction and is not modelled.
- The demo, command-line, configuration and diagnostic scripts are not modelled, nor is the `OTTAWA_RSS_FEEDS` table.
