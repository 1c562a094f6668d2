/** The deterministic parts of the newsletter analyzer: the numbered
    article list it sends to the language model, the recovery of a reply
    wrapped in a Markdown code fence, the mapping of the article numbers in
    the reply back to articles, the fallback analysis used when anything
    goes wrong, and the per-story text it sends for the newsletter. The
    model's replies and the JSON decoder are parameters. */
module Analyzer {
  import opened Text
  import opened Records

  /** How much of a description the numbered list shows. */
  const PreviewLength := 150

  const Fence := "```"
  const JsonFence := "```json"
  const HtmlFence := "```html"

  /** The labels of the story text. */
  const StoryLabel := "Story "
  const CategoryLabel := "Category: "
  const WhyLabel := "Why it matters: "
  const PointsLabel := "Key points: "
  const BulletLabel := "  - ["
  const LinkLabel := "    Link: "

  const FallbackWhy := "Breaking news"
  const FallbackThemes := ["Technology", "Business"]
  const FallbackNarrative := "Today's top stories from the tech world."

  /** One entry of `top_stories`. A key the reply leaves out is `None`, or
      the empty list where the code reads it with a list default. */
  datatype Story = Story(
    articleNumbers: seq<int>,
    category: Option<string>,
    headline: Option<string>,
    whyItMatters: Option<string>,
    keyPoints: seq<string>,
    articles: seq<Article>)

  /** The analysis dictionary: its stories, themes and narrative. */
  datatype Analysis = Analysis(topStories: seq<Story>, themes: seq<string>, narrative: Option<string>)

  // ---------------------------------------------------------------------
  // The numbered article list

  /** Line `i` of the list: `"{i+1}. [{source}] {title}"`, then `" - "` and
      at most 150 characters of the description when it is non-empty. */
  function SummaryLine(i: nat, a: Article): string {
    Decimal(i + 1) + ". [" + a.source + "] " + a.title
    + (if a.description != "" then " - " + Prefix(a.description, PreviewLength) else "")
  }

  /** The lines of the list, one per article, in order. */
  function SummaryLines(articles: seq<Article>): (r: seq<string>)
    ensures |r| == |articles|
  {
    if articles == [] then []
    else SummaryLines(articles[..|articles| - 1]) + [SummaryLine(|articles| - 1, articles[|articles| - 1])]
  }

  /** The lines of the list are the articles' lines, each under its own
      position. */
  lemma {:induction false} SummaryLinesIndex(articles: seq<Article>, k: nat)
    requires k < |articles|
    ensures SummaryLines(articles)[k] == SummaryLine(k, articles[k])
  {
    var n := |articles| - 1;
    if k < n {
      SummaryLinesIndex(articles[..n], k);
    }
  }

  /** Digits followed by a non-digit: the longest digit prefix is exactly
      those digits. */
  lemma {:induction false} DigitPrefixOfDigits(d: string, rest: string)
    requires forall k :: 0 <= k < |d| ==> IsDigit(d[k])
    requires rest != [] && !IsDigit(rest[0])
    ensures DigitPrefix(d + rest) == d
  {
    if d != [] {
      assert (d + rest)[1..] == d[1..] + rest;
      DigitPrefixOfDigits(d[1..], rest);
    }
  }

  /** The number at the head of line `i` reads back as `i + 1`, and the
      line keeps the title and at most 150 characters of description. */
  lemma SummaryLineNumber(i: nat, a: Article)
    ensures ParseDecimal(DigitPrefix(SummaryLine(i, a))) == i + 1
    ensures var head := Decimal(i + 1) + ". [" + a.source + "] " + a.title;
      StartsWith(SummaryLine(i, a), head)
      && (a.description == "" ==> SummaryLine(i, a) == head)
      && |SummaryLine(i, a)| <= |head| + 3 + PreviewLength
  {
    var d := Decimal(i + 1);
    var rest := ". [" + a.source + "] " + a.title
      + (if a.description != "" then " - " + Prefix(a.description, PreviewLength) else "");
    assert SummaryLine(i, a) == d + rest;
    DigitPrefixOfDigits(d, rest);
    DecimalRoundTrip(i + 1);
  }

  /** The numbering the list shows is the numbering the reply is read back
      with: the line whose number reads `n` is the line of `articles[n-1]`,
      and the number `n` alone refers to exactly that article. */
  lemma NumberingConsistent(articles: seq<Article>, n: int)
    requires 0 < n <= |articles|
    ensures ParseDecimal(DigitPrefix(SummaryLines(articles)[n - 1])) == n
    ensures SummaryLines(articles)[n - 1] == SummaryLine(n - 1, articles[n - 1])
    ensures Referenced(articles, [n]) == [articles[n - 1]]
  {
    SummaryLinesIndex(articles, n - 1);
    SummaryLineNumber(n - 1, articles[n - 1]);
    ReferencedOne(articles, n);
  }

  /** A single in-range number refers to exactly its article. */
  lemma ReferencedOne(articles: seq<Article>, n: int)
    requires 0 < n <= |articles|
    ensures Referenced(articles, [n]) == [articles[n - 1]]
  {
    assert [n][..0] == [];
  }

  /** The loop that builds `article_summaries`, then the join. */
  method ArticlesText(articles: seq<Article>) returns (text: string)
    ensures text == Join(SummaryLines(articles), "\n")
  {
    var summaries: seq<string> := [];
    for i := 0 to |articles|
      invariant summaries == SummaryLines(articles[..i])
    {
      assert articles[..i + 1][..i] == articles[..i];
      summaries := summaries + [SummaryLine(i, articles[i])];
    }
    assert articles[..|articles|] == articles;
    text := Join(summaries, "\n");
  }

  // ---------------------------------------------------------------------
  // Code fences around a reply

  /** The text between the first `marker` and the next closing fence after
      it. With no closing fence `find` gives -1, so the slice ends one
      character before the end of the text. */
  function FenceSlice(text: string, marker: string): string
    requires Contains(text, marker)
  {
    var start := Find(text, marker, 0) + |marker|;
    Slice(text, start, Find(text, Fence, start))
  }

  /** That text, stripped. */
  function FenceBody(text: string, marker: string): string
    requires Contains(text, marker)
  {
    Strip(FenceSlice(text, marker))
  }

  /** The reply with its fence removed: the body after `opener` (`"```json"`
      or `"```html"`) when that occurs, else after a plain fence when one
      occurs, else the reply unchanged. */
  function Unfence(text: string, opener: string): string {
    if Contains(text, opener) then FenceBody(text, opener)
    else if Contains(text, Fence) then FenceBody(text, Fence)
    else text
  }

  predicate NoBacktick(s: string) {
    forall k :: 0 <= k < |s| ==> s[k] != '`'
  }

  /** A fence body is shorter than the text it came from by at least the
      marker. */
  lemma FenceBodyShorter(text: string, marker: string)
    requires Contains(text, marker)
    ensures |FenceBody(text, marker)| + |marker| <= |text|
  {
    var at := Find(text, marker, 0);
    assert 0 <= at && at + |marker| <= |text|;
    var start := at + |marker|;
    var close := Find(text, Fence, start);
    var sl := Slice(text, start, close);
    assert FenceSlice(text, marker) == sl;
    SliceFromShorter(text, start, close);
    StripShorter(sl);
  }

  /** Stripping never lengthens a text. */
  lemma StripShorter(s: string)
    ensures |Strip(s)| <= |s|
  {
    assert |StripLeft(s)| <= |s|;
  }

  /** A slice starting at `a` is no longer than what follows `a`. */
  lemma SliceFromShorter(s: string, a: nat, b: int)
    requires a <= |s|
    ensures |Slice(s, a, b)| <= |s| - a
  {
    assert SliceBound(a, |s|) == a;
  }

  /** A reply comes back unchanged exactly when it holds neither the
      opener nor a plain fence. */
  lemma UnfenceUnchanged(text: string, opener: string)
    requires opener != ""
    ensures Unfence(text, opener) == text <==> !Contains(text, opener) && !Contains(text, Fence)
  {
    if Contains(text, opener) {
      FenceBodyShorter(text, opener);
    } else if Contains(text, Fence) {
      FenceBodyShorter(text, Fence);
    }
  }

  /** With no backtick in `[start, at)`, nothing starting with a backtick
      occurs there. */
  lemma NoOccurrenceBefore(text: string, sub: string, start: nat, at: nat)
    requires sub != [] && sub[0] == '`'
    requires at <= |text|
    requires forall k :: start <= k < at ==> text[k] != '`'
    ensures forall j :: start <= j < at ==> !OccursAt(text, sub, j)
  {
    forall j | start <= j < at
      ensures !OccursAt(text, sub, j)
    {
      if j + |sub| <= |text| {
        assert text[j..j + |sub|][0] == text[j];
      }
    }
  }

  /** When `sub` occurs at `at` and nowhere in `[start, at)`, `Find` gives `at`. */
  lemma FindIs(text: string, sub: string, start: nat, at: nat)
    requires start <= at && OccursAt(text, sub, at)
    requires forall j :: start <= j < at ==> !OccursAt(text, sub, j)
    ensures Find(text, sub, start) == at
  {
  }

  /** A piece of `text` placed at `offset`, free of backticks, leaves that
      stretch of `text` free of them. */
  lemma PlacedNoBacktick(text: string, piece: string, offset: nat)
    requires offset + |piece| <= |text| && text[offset..offset + |piece|] == piece
    requires NoBacktick(piece)
    ensures forall k :: offset <= k < offset + |piece| ==> text[k] != '`'
  {
    forall k | offset <= k < offset + |piece|
      ensures text[k] != '`'
    {
      assert text[k] == text[offset..offset + |piece|][k - offset];
    }
  }

  /** The marker at `at` is the first backtick of the text, and the next
      backtick after it starts a closing fence at `close` (or there is none,
      `close` being the end of the text): the result is the stripped text
      between them, short of the final character when unclosed. */
  lemma FenceBodyAt(text: string, marker: string, at: nat, close: nat)
    requires marker != [] && marker[0] == '`'
    requires OccursAt(text, marker, at)
    requires forall k :: 0 <= k < at ==> text[k] != '`'
    requires at + |marker| <= close <= |text|
    requires forall k :: at + |marker| <= k < close ==> text[k] != '`'
    requires close == |text| || OccursAt(text, Fence, close)
    ensures Contains(text, marker)
    ensures close < |text| ==> FenceSlice(text, marker) == text[at + |marker|..close]
    ensures close == |text| > at + |marker| ==> FenceSlice(text, marker) == text[at + |marker|..close - 1]
  {
    NoOccurrenceBefore(text, marker, 0, at);
    FindIs(text, marker, 0, at);
    var s := at + |marker|;
    NoOccurrenceBefore(text, Fence, s, close);
    if close < |text| {
      FindIs(text, Fence, s, close);
    } else {
      assert Find(text, Fence, s) == -1;
    }
  }

  /** A well-formed reply: text without backticks, the opener, a body
      without backticks, a closing fence and anything after it. The result
      is the stripped body. */
  lemma UnfenceRoundTrip(pre: string, body: string, post: string, opener: string)
    requires opener == JsonFence || opener == HtmlFence
    requires NoBacktick(pre) && NoBacktick(body)
    ensures Unfence(pre + opener + body + Fence + post, opener) == Strip(body)
  {
    var text := pre + opener + body + Fence + post;
    var s := |pre| + |opener|;
    assert text[..|pre|] == pre;
    PlacedNoBacktick(text, pre, 0);
    assert text[|pre|..s] == opener;
    assert text[s..s + |body|] == body;
    PlacedNoBacktick(text, body, s);
    assert text[s + |body|..s + |body| + 3] == Fence;
    FenceBodyAt(text, opener, |pre|, s + |body|);
    assert FenceSlice(text, opener) == body;
    assert FenceBody(text, opener) == Strip(body);
    assert Unfence(text, opener) == FenceBody(text, opener);
  }

  /** A reply whose opening fence is never closed loses its final
      character: the slice ends at index -1. */
  lemma UnfenceUnclosed(pre: string, body: string, opener: string)
    requires opener == JsonFence || opener == HtmlFence
    requires NoBacktick(pre) && NoBacktick(body) && body != ""
    ensures Unfence(pre + opener + body, opener) == Strip(body[..|body| - 1])
  {
    var text := pre + opener + body;
    var s := |pre| + |opener|;
    assert text[..|pre|] == pre;
    PlacedNoBacktick(text, pre, 0);
    assert text[|pre|..s] == opener;
    assert text[s..] == body;
    PlacedNoBacktick(text, body, s);
    FenceBodyAt(text, opener, |pre|, |text|);
    assert text[s..|text| - 1] == body[..|body| - 1];
    assert FenceSlice(text, opener) == body[..|body| - 1];
    assert FenceBody(text, opener) == Strip(body[..|body| - 1]);
    assert Unfence(text, opener) == FenceBody(text, opener);
  }

  /** A reply fenced without a language tag, and not holding the opener,
      gives its stripped body the same way. */
  lemma UnfencePlain(pre: string, body: string, post: string, opener: string)
    requires NoBacktick(pre) && NoBacktick(body)
    requires !Contains(pre + Fence + body + Fence + post, opener)
    ensures Unfence(pre + Fence + body + Fence + post, opener) == Strip(body)
  {
    var text := pre + Fence + body + Fence + post;
    var s := |pre| + 3;
    assert text[..|pre|] == pre;
    PlacedNoBacktick(text, pre, 0);
    assert text[|pre|..s] == Fence;
    assert text[s..s + |body|] == body;
    PlacedNoBacktick(text, body, s);
    assert text[s + |body|..s + |body| + 3] == Fence;
    FenceBodyAt(text, Fence, |pre|, s + |body|);
    assert FenceSlice(text, Fence) == body;
    assert FenceBody(text, Fence) == Strip(body);
    assert Unfence(text, opener) == FenceBody(text, Fence);
  }

  // ---------------------------------------------------------------------
  // Article numbers

  /** The numbers that name an article: `0 < num <= len(articles)`. */
  function ValidNumbers(nums: seq<int>, count: nat): (r: seq<int>)
    ensures |r| <= |nums|
  {
    if nums == [] then []
    else
      var n := nums[|nums| - 1];
      ValidNumbers(nums[..|nums| - 1], count) + (if 0 < n <= count then [n] else [])
  }

  /** `[articles[num - 1] for num in nums if 0 < num <= len(articles)]`. */
  function Referenced(articles: seq<Article>, nums: seq<int>): (r: seq<Article>)
    ensures |r| <= |nums|
  {
    if nums == [] then []
    else
      var n := nums[|nums| - 1];
      Referenced(articles, nums[..|nums| - 1]) + (if 0 < n <= |articles| then [articles[n - 1]] else [])
  }

  /** A number survives exactly when it is one of the given numbers and in
      range. */
  lemma {:induction false} ValidNumbersMembership(nums: seq<int>, count: nat, n: int)
    ensures n in ValidNumbers(nums, count) <==> n in nums && 0 < n <= count
  {
    if nums != [] {
      var init := nums[..|nums| - 1];
      ValidNumbersMembership(init, count, n);
      assert nums == init + [nums[|nums| - 1]];
    }
  }

  /** The referenced articles are the in-range numbers, in the order given
      and with repeats kept, each mapped to `articles[num - 1]`. */
  lemma {:induction false} ReferencedSpec(articles: seq<Article>, nums: seq<int>)
    ensures |Referenced(articles, nums)| == |ValidNumbers(nums, |articles|)|
    ensures forall k :: 0 <= k < |Referenced(articles, nums)| ==>
      0 < ValidNumbers(nums, |articles|)[k] <= |articles|
      && Referenced(articles, nums)[k] == articles[ValidNumbers(nums, |articles|)[k] - 1]
  {
    if nums != [] {
      ReferencedSpec(articles, nums[..|nums| - 1]);
    }
  }

  /** When every number is in range, nothing is dropped. */
  lemma {:induction false} ReferencedAllInRange(articles: seq<Article>, nums: seq<int>)
    requires forall k :: 0 <= k < |nums| ==> 0 < nums[k] <= |articles|
    ensures ValidNumbers(nums, |articles|) == nums
    ensures |Referenced(articles, nums)| == |nums|
  {
    if nums != [] {
      var init := nums[..|nums| - 1];
      ReferencedAllInRange(articles, init);
      assert nums == init + [nums[|nums| - 1]];
    }
    ReferencedSpec(articles, nums);
  }

  /** Story `s` with its `'articles'` key set from its numbers. */
  function WithArticles(s: Story, articles: seq<Article>): Story {
    s.(articles := Referenced(articles, s.articleNumbers))
  }

  /** Every story with its articles attached, in order. */
  function Attached(stories: seq<Story>, articles: seq<Article>): (r: seq<Story>)
    ensures |r| == |stories|
  {
    if stories == [] then []
    else Attached(stories[..|stories| - 1], articles) + [WithArticles(stories[|stories| - 1], articles)]
  }

  /** Attaching sets each story's articles from its own numbers and
      changes nothing else about it. */
  lemma {:induction false} AttachedSpec(stories: seq<Story>, articles: seq<Article>, k: nat)
    requires k < |stories|
    ensures Attached(stories, articles)[k].articles == Referenced(articles, stories[k].articleNumbers)
    ensures Attached(stories, articles)[k].(articles := stories[k].articles) == stories[k]
  {
    var n := |stories| - 1;
    if k < n {
      AttachedSpec(stories[..n], articles, k);
    }
  }

  /** Attaching twice is attaching once. */
  lemma {:induction false} AttachedIdempotent(stories: seq<Story>, articles: seq<Article>)
    ensures Attached(Attached(stories, articles), articles) == Attached(stories, articles)
  {
    if stories != [] {
      var n := |stories| - 1;
      AttachedIdempotent(stories[..n], articles);
      assert Attached(stories, articles)[..n] == Attached(stories[..n], articles);
    }
  }

  lemma AttachedStep(stories: seq<Story>, i: nat, articles: seq<Article>)
    requires i < |stories|
    ensures (Attached(stories[..i], articles) + stories[i..])[i] == stories[i]
    ensures (Attached(stories[..i], articles) + stories[i..])[i := WithArticles(stories[i], articles)]
      == Attached(stories[..i + 1], articles) + stories[i + 1..]
  {
    assert stories[..i + 1][..i] == stories[..i];
    var before := Attached(stories[..i], articles) + stories[i..];
    var after := Attached(stories[..i + 1], articles) + stories[i + 1..];
    forall k | 0 <= k < |stories|
      ensures before[i := WithArticles(stories[i], articles)][k] == after[k]
    {
      if k > i {
        assert after[k] == stories[k] == before[k];
      }
    }
  }

  /** The loop over `top_stories` that sets each story's `'articles'` in
      place. */
  method AttachArticles(stories: seq<Story>, articles: seq<Article>) returns (attached: seq<Story>)
    ensures attached == Attached(stories, articles)
  {
    attached := stories;
    var i := 0;
    assert stories[..0] == [];
    while i < |attached|
      invariant 0 <= i <= |stories| == |attached|
      invariant attached == Attached(stories[..i], articles) + stories[i..]
    {
      AttachedStep(stories, i, articles);
      attached := attached[i := WithArticles(attached[i], articles)];
      i := i + 1;
    }
    assert stories[..i] == stories;
  }

  // ---------------------------------------------------------------------
  // The fallback analysis

  function FallbackStory(i: nat, a: Article): Story {
    Story([i + 1], Some(a.source), Some(a.title), Some(FallbackWhy), [], [a])
  }

  /** One story per article of `articles[:top_count]`, numbered from 1. */
  function FallbackStories(articles: seq<Article>, topCount: int): seq<Story> {
    var chosen := Prefix(articles, topCount);
    seq(|chosen|, i requires 0 <= i < |chosen| => FallbackStory(i, chosen[i]))
  }

  /** The structure returned when the call, the fence recovery or the JSON
      decoding raises. */
  function Fallback(articles: seq<Article>, topCount: int): Analysis {
    Analysis(FallbackStories(articles, topCount), FallbackThemes, Some(FallbackNarrative))
  }

  /** There are `min(top_count, len(articles))` fallback stories for a
      non-negative count; a negative count drops that many articles from
      the end, as Python slicing does. Story `i` is about `articles[i]`. */
  lemma FallbackSpec(articles: seq<Article>, topCount: int)
    ensures var r := FallbackStories(articles, topCount);
      |r| == (if topCount >= 0 then (if topCount < |articles| then topCount else |articles|)
              else if |articles| + topCount < 0 then 0 else |articles| + topCount)
      && forall i :: 0 <= i < |r| ==>
        r[i].articleNumbers == [i + 1] && r[i].articles == [articles[i]]
        && r[i].category == Some(articles[i].source) && r[i].headline == Some(articles[i].title)
        && r[i].whyItMatters == Some(FallbackWhy) && r[i].keyPoints == []
  {
  }

  /** The fallback's numbers point back at its own articles: attaching
      articles to the fallback stories changes nothing. */
  lemma FallbackAttachedStable(articles: seq<Article>, topCount: int)
    ensures Attached(FallbackStories(articles, topCount), articles) == FallbackStories(articles, topCount)
  {
    var r := FallbackStories(articles, topCount);
    var chosen := Prefix(articles, topCount);
    forall k | 0 <= k < |r|
      ensures Attached(r, articles)[k] == r[k]
    {
      AttachedSpec(r, articles, k);
      assert [k + 1][..0] == [];
      assert chosen[k] == articles[k];
    }
  }

  /** `analyze_and_select_top_stories`: `ask` is the model's reply to the
      prompt built from the numbered list (`None` when the call raises) and
      `decode` is `json.loads` (`None` when it raises). */
  method AnalyzeAndSelect(articles: seq<Article>, topCount: int, ask: string -> Option<string>,
                          decode: string -> Option<Analysis>) returns (analysis: Analysis)
    ensures var reply := ask(Join(SummaryLines(articles), "\n"));
      var decoded := if reply.Some? then decode(Unfence(reply.value, JsonFence)) else None;
      analysis == if decoded.Some? then decoded.value.(topStories := Attached(decoded.value.topStories, articles))
                  else Fallback(articles, topCount)
  {
    var articlesText := ArticlesText(articles);
    var reply := ask(articlesText);
    if reply.None? {
      return Fallback(articles, topCount);
    }
    var decoded := decode(Unfence(reply.value, JsonFence));
    if decoded.None? {
      return Fallback(articles, topCount);
    }
    analysis := decoded.value;
    var stories := AttachArticles(analysis.topStories, articles);
    analysis := analysis.(topStories := stories);
  }

  // ---------------------------------------------------------------------
  // Story text for the newsletter prompt

  function Line(s: string): string {
    s + "\n"
  }

  /** The four lines that open story `i`, after a blank line; a missing
      headline reads `Untitled`, a missing category `General`. */
  function StoryHeader(i: nat, s: Story): string {
    "\n" + Line(StoryLabel + Decimal(i + 1) + ": " + s.headline.GetOr("Untitled"))
    + Line(CategoryLabel + s.category.GetOr("General"))
    + Line(WhyLabel + s.whyItMatters.GetOr(""))
    + Line(PointsLabel + Join(s.keyPoints, ", "))
  }

  /** The line for one source article, and a `Link:` line under it when its
      link is non-empty. */
  function ArticleBlock(a: Article): string {
    Line(BulletLabel + a.source + "] " + a.title)
    + (if a.link != "" then Line(LinkLabel + a.link) else "")
  }

  function ArticleLines(articles: seq<Article>): string {
    if articles == [] then ""
    else ArticleLines(articles[..|articles| - 1]) + ArticleBlock(articles[|articles| - 1])
  }

  lemma AppendAssociative(a: string, b: string, c: string)
    ensures (a + b) + c == a + (b + c)
  {
  }

  lemma ArticleLinesStep(articles: seq<Article>, k: nat)
    requires k < |articles|
    ensures ArticleLines(articles[..k + 1]) == ArticleLines(articles[..k]) + ArticleBlock(articles[k])
  {
    assert articles[..k + 1][..k] == articles[..k];
  }

  /** The text for story `i`: the header, then a line per article as the
      inner loop appends them. */
  method StoryText(i: nat, s: Story) returns (text: string)
    ensures text == StoryHeader(i, s) + ArticleLines(s.articles)
  {
    text := HeaderText(i, s);
    ghost var header := text;
    assert s.articles[..0] == [];
    assert text == header + ArticleLines(s.articles[..0]);
    for k := 0 to |s.articles|
      invariant text == header + ArticleLines(s.articles[..k])
    {
      ArticleLinesStep(s.articles, k);
      AppendAssociative(header, ArticleLines(s.articles[..k]), ArticleBlock(s.articles[k]));
      text := AppendArticle(text, s.articles[k]);
    }
    assert s.articles[..|s.articles|] == s.articles;
  }

  /** The four appends that open the text of story `i`. */
  method HeaderText(i: nat, s: Story) returns (text: string)
    ensures text == StoryHeader(i, s)
  {
    text := "\n" + Line(StoryLabel + Decimal(i + 1) + ": " + s.headline.GetOr("Untitled"));
    text := text + Line(CategoryLabel + s.category.GetOr("General"));
    text := text + Line(WhyLabel + s.whyItMatters.GetOr(""));
    text := text + Line(PointsLabel + Join(s.keyPoints, ", "));
  }

  /** The body of the inner loop: the article's line, and its `Link:` line
      when the link is non-empty. */
  method AppendArticle(text: string, a: Article) returns (r: string)
    ensures r == text + ArticleBlock(a)
  {
    r := text + Line(BulletLabel + a.source + "] " + a.title);
    if a.link != "" {
      r := r + Line(LinkLabel + a.link);
    }
  }

  function StoryTexts(stories: seq<Story>): (r: seq<string>)
    ensures |r| == |stories|
  {
    if stories == [] then []
    else StoryTexts(stories[..|stories| - 1]) + [StoryHeader(|stories| - 1, stories[|stories| - 1]) + ArticleLines(stories[|stories| - 1].articles)]
  }

  /** The three values `generate_newsletter_content` puts into its prompt:
      the story texts joined by newlines, the themes joined by `", "`, and
      the narrative (empty when missing). */
  method NewsletterContext(analysis: Analysis) returns (storiesText: string, themes: string, narrative: string)
    ensures storiesText == Join(StoryTexts(analysis.topStories), "\n")
    ensures themes == Join(analysis.themes, ", ")
    ensures narrative == analysis.narrative.GetOr("")
  {
    var summary: seq<string> := [];
    var stories := analysis.topStories;
    for i := 0 to |stories|
      invariant summary == StoryTexts(stories[..i])
    {
      assert stories[..i + 1][..i] == stories[..i];
      var t := StoryText(i, stories[i]);
      summary := summary + [t];
    }
    assert stories[..|stories|] == stories;
    storiesText := Join(summary, "\n");
    themes := Join(analysis.themes, ", ");
    narrative := analysis.narrative.GetOr("");
  }

  /** The newsletter returned for the model's reply: the reply with an
      `html` fence (or a plain one) removed. */
  function NewsletterHtml(reply: string): string {
    Unfence(reply, HtmlFence)
  }

  /** A newsletter wrapped in an `html` fence comes back as its stripped
      body. */
  lemma NewsletterHtmlUnwrapped(pre: string, body: string, post: string)
    requires NoBacktick(pre) && NoBacktick(body)
    ensures NewsletterHtml(pre + HtmlFence + body + Fence + post) == Strip(body)
  {
    UnfenceRoundTrip(pre, body, post, HtmlFence);
  }

  // ---------------------------------------------------------------------
  // Line counts of the story text

  /** The number of line breaks in `s`. */
  function Newlines(s: string): nat {
    if s == [] then 0
    else Newlines(s[..|s| - 1]) + (if s[|s| - 1] == '\n' then 1 else 0)
  }

  lemma {:induction false} NewlinesAppend(a: string, b: string)
    ensures Newlines(a + b) == Newlines(a) + Newlines(b)
    decreases |b|
  {
    if b == [] {
      assert a + b == a;
    } else {
      var init := b[..|b| - 1];
      assert (a + b)[..|a + b| - 1] == a + init;
      NewlinesAppend(a, init);
    }
  }

  lemma {:induction false} NoNewlines(s: string)
    requires '\n' !in s
    ensures Newlines(s) == 0
  {
    if s != [] {
      var init := s[..|s| - 1];
      assert forall c :: c in init ==> c in s;
      NoNewlines(init);
    }
  }

  /** A line of text without a break in it ends in exactly one. */
  lemma OneLine(s: string)
    requires '\n' !in s
    ensures Newlines(Line(s)) == 1
  {
    NewlinesAppend(s, "\n");
    NoNewlines(s);
    assert "\n"[..0] == [];
  }

  lemma {:induction false} JoinNoNewline(parts: seq<string>, sep: string)
    requires '\n' !in sep
    requires forall k :: 0 <= k < |parts| ==> '\n' !in parts[k]
    ensures '\n' !in Join(parts, sep)
  {
    if |parts| > 1 {
      JoinNoNewline(parts[..|parts| - 1], sep);
    }
  }

  /** No line break inside any field the story text prints. */
  predicate SingleLineFields(s: Story) {
    '\n' !in s.headline.GetOr("") && '\n' !in s.category.GetOr("") && '\n' !in s.whyItMatters.GetOr("")
    && (forall k :: 0 <= k < |s.keyPoints| ==> '\n' !in s.keyPoints[k])
    && (forall k :: 0 <= k < |s.articles| ==>
          '\n' !in s.articles[k].source && '\n' !in s.articles[k].title && '\n' !in s.articles[k].link)
  }

  /** How many of the articles have a non-empty link. */
  function Linked(articles: seq<Article>): (r: nat)
    ensures r <= |articles|
  {
    if articles == [] then 0
    else Linked(articles[..|articles| - 1]) + (if articles[|articles| - 1].link != "" then 1 else 0)
  }

  lemma LabelsSingleLine()
    ensures '\n' !in StoryLabel && '\n' !in CategoryLabel && '\n' !in WhyLabel && '\n' !in PointsLabel
    ensures '\n' !in BulletLabel && '\n' !in LinkLabel && '\n' !in ": " && '\n' !in "] " && '\n' !in ", "
  {
  }

  lemma StoryHeaderLines(i: nat, s: Story)
    requires SingleLineFields(s)
    ensures Newlines(StoryHeader(i, s)) == 5
  {
    LabelsSingleLine();
    var d := Decimal(i + 1);
    assert forall k :: 0 <= k < |d| ==> d[k] != '\n';
    var h, c := s.headline.GetOr("Untitled"), s.category.GetOr("General");
    assert '\n' !in h && '\n' !in c;
    var l1 := StoryLabel + d + ": " + h;
    var l2 := CategoryLabel + c;
    var l3 := WhyLabel + s.whyItMatters.GetOr("");
    JoinNoNewline(s.keyPoints, ", ");
    var l4 := PointsLabel + Join(s.keyPoints, ", ");
    OneLine(l1);
    OneLine(l2);
    OneLine(l3);
    OneLine(l4);
    assert "\n"[..0] == [];
    NewlinesAppend("\n", Line(l1));
    NewlinesAppend("\n" + Line(l1), Line(l2));
    NewlinesAppend("\n" + Line(l1) + Line(l2), Line(l3));
    NewlinesAppend("\n" + Line(l1) + Line(l2) + Line(l3), Line(l4));
  }

  /** One source article takes one line, two with a link. */
  lemma BlockLines(a: Article)
    requires '\n' !in a.source && '\n' !in a.title && '\n' !in a.link
    ensures Newlines(ArticleBlock(a)) == if a.link != "" then 2 else 1
  {
    LabelsSingleLine();
    var first := Line(BulletLabel + a.source + "] " + a.title);
    OneLine(BulletLabel + a.source + "] " + a.title);
    if a.link != "" {
      OneLine(LinkLabel + a.link);
      NewlinesAppend(first, Line(LinkLabel + a.link));
    } else {
      assert ArticleBlock(a) == first + "";
      assert first + "" == first;
    }
  }

  lemma {:induction false} ArticleLinesCount(articles: seq<Article>)
    requires forall k :: 0 <= k < |articles| ==>
      '\n' !in articles[k].source && '\n' !in articles[k].title && '\n' !in articles[k].link
    ensures Newlines(ArticleLines(articles)) == |articles| + Linked(articles)
  {
    if articles != [] {
      var init := articles[..|articles| - 1];
      var a := articles[|articles| - 1];
      ArticleLinesCount(init);
      BlockLines(a);
      assert ArticleLines(articles) == ArticleLines(init) + ArticleBlock(a);
      NewlinesAppend(ArticleLines(init), ArticleBlock(a));
      assert Linked(articles) == Linked(init) + (if a.link != "" then 1 else 0);
    }
  }

  /** The text of a story has its four header lines after a blank one, a
      line per source article, and one more line per article with a link. */
  lemma StoryTextLines(i: nat, s: Story)
    requires SingleLineFields(s)
    ensures Newlines(StoryHeader(i, s) + ArticleLines(s.articles)) == 5 + |s.articles| + Linked(s.articles)
  {
    StoryHeaderLines(i, s);
    ArticleLinesCount(s.articles);
    NewlinesAppend(StoryHeader(i, s), ArticleLines(s.articles));
  }
}
