/**
 * `fetch_latest_articles` of fetch_articles.py: walk the feed list in order, keep
 * a bounded prefix of each feed's entries as articles, and skip a feed that
 * raises. Fetching and parsing a feed (`feedparser.parse`) is a parameter
 * `parse` from URL to parsed feed; a parse that raises is `ParseError`.
 */
module FetchArticles {
  import opened Wrappers
  import opened Sequences

  /** The feeds, in the order they are fetched. */
  const FEEDS: seq<string> := [
    "https://www.defensenews.com/rss/",
    "https://www.flightglobal.com/rss",
    "https://breakingdefense.com/feed/",
    "https://www.nasa.gov/rss/dyn/breaking_news.rss"
  ]

  /** The default of `limit_per_feed`. */
  const DefaultLimit := 5

  const NoDate := "No date available"
  const NoSummary := "No summary available"

  /** A feed entry as the parser returns it; an absent attribute is `None`. */
  datatype Entry = Entry(
    title: Option<string>,
    link: Option<string>,
    published: Option<string>,
    summary: Option<string>)

  /** The outcome of `feedparser.parse(url)`. */
  datatype Feed = Parsed(entries: seq<Entry>) | ParseError

  /** The dictionary built for one entry. */
  datatype Article = Article(title: string, link: string, published: string, summary: string)

  /** The end index of Python's `s[:limit]` on a list of length `n`: a negative
      limit counts from the end. */
  function SliceEnd(n: nat, limit: int): (k: nat)
    ensures k <= n
  {
    if limit >= 0 then (if limit < n then limit else n)
    else if n + limit > 0 then n + limit else 0
  }

  /** `entries[:limit]`. */
  function Head(entries: seq<Entry>, limit: int): (r: seq<Entry>)
    ensures |r| <= |entries| && r == entries[..|r|]
    ensures limit >= 0 ==> |r| <= limit && (|entries| <= limit ==> r == entries)
    ensures limit >= 0 && limit <= |entries| ==> |r| == limit
    ensures limit < 0 ==> |entries| - |r| == if -limit < |entries| then -limit else |entries|
  {
    entries[..SliceEnd(|entries|, limit)]
  }

  /** One entry as an article. `entry.title` and `entry.link` raise when absent,
      which is `None` here; `published` and `summary` fall back to placeholders. */
  function ToArticle(e: Entry): (r: Option<Article>)
    ensures r.Some? <==> e.title.Some? && e.link.Some?
    ensures r.Some? ==> r.value.title == e.title.value && r.value.link == e.link.value
    ensures r.Some? ==> r.value.published == (if e.published.Some? then e.published.value else NoDate)
    ensures r.Some? ==> r.value.summary == (if e.summary.Some? then e.summary.value else NoSummary)
  {
    if e.title.None? || e.link.None? then None
    else Some(Article(e.title.value, e.link.value, e.published.GetOr(NoDate), e.summary.GetOr(NoSummary)))
  }

  /** The articles made from the entries before the first one that raises: exactly
      what the inner loop has appended to `feed_articles` when it stops. */
  function Leading(entries: seq<Entry>): (r: seq<Article>)
    ensures |r| <= |entries|
    ensures forall k :: 0 <= k < |r| ==> ToArticle(entries[k]) == Some(r[k])
    ensures |r| < |entries| ==> ToArticle(entries[|r|]).None?
  {
    if entries == [] then []
    else match ToArticle(entries[0])
      case None => []
      case Some(a) =>
        var rest := Leading(entries[1..]);
        LeadingCons(entries, a, rest);
        [a] + rest
  }

  /** Putting the article of a convertible first entry in front of the leading
      articles of the other entries gives the leading articles of all of them. */
  lemma LeadingCons(entries: seq<Entry>, a: Article, rest: seq<Article>)
    requires entries != [] && ToArticle(entries[0]) == Some(a)
    requires |rest| <= |entries| - 1
    requires forall k :: 0 <= k < |rest| ==> ToArticle(entries[1..][k]) == Some(rest[k])
    requires |rest| < |entries| - 1 ==> ToArticle(entries[1..][|rest|]).None?
    ensures var r := [a] + rest;
      && (forall k :: 0 <= k < |r| ==> ToArticle(entries[k]) == Some(r[k]))
      && (|r| < |entries| ==> ToArticle(entries[|r|]).None?)
  {
    var r := [a] + rest;
    forall k | 0 <= k < |r| ensures ToArticle(entries[k]) == Some(r[k]) {
      if k > 0 {
        assert entries[k] == entries[1..][k - 1];
      }
    }
    if |r| < |entries| {
      assert entries[|r|] == entries[1..][|rest|];
    }
  }

  /** The characterisation of `Leading` determines it. */
  lemma {:induction false} LeadingUnique(entries: seq<Entry>, s: seq<Article>, raised: bool)
    requires |s| <= |entries|
    requires forall k :: 0 <= k < |s| ==> ToArticle(entries[k]) == Some(s[k])
    requires raised ==> |s| < |entries| && ToArticle(entries[|s|]).None?
    requires !raised ==> |s| == |entries|
    ensures s == Leading(entries)
  {
    if s != [] {
      assert ToArticle(entries[0]) == Some(s[0]);
      forall k | 0 <= k < |s| - 1 ensures ToArticle(entries[1..][k]) == Some(s[1..][k]) {
        assert ToArticle(entries[k + 1]) == Some(s[k + 1]);
      }
      LeadingUnique(entries[1..], s[1..], raised);
    }
  }

  /** What one feed adds to `articles`: nothing when parsing raises or any entry of
      the prefix raises, else one article per entry of the prefix, in order. */
  function FeedArticles(feed: Feed, limit: int): (r: Option<seq<Article>>)
    ensures feed.ParseError? ==> r.None?
    ensures feed.Parsed? ==> var h := Head(feed.entries, limit);
      && (r.Some? <==> forall k :: 0 <= k < |h| ==> ToArticle(h[k]).Some?)
      && (r.Some? ==> |r.value| == |h| && forall k :: 0 <= k < |h| ==> ToArticle(h[k]) == Some(r.value[k]))
  {
    match feed
    case ParseError => None
    case Parsed(entries) =>
      var h := Head(entries, limit);
      var l := Leading(h);
      if |l| == |h| then Some(l) else None
  }

  /** How much one feed adds to `total_articles`: the number of entries of the
      prefix converted before the first one that raises (all of them when none
      raises), which is the number of articles when the feed contributes. */
  function FeedCount(feed: Feed, limit: int): (n: nat)
    ensures feed.ParseError? ==> n == 0
    ensures feed.Parsed? ==> var h := Head(feed.entries, limit);
      && n <= |h|
      && (forall k :: 0 <= k < n ==> ToArticle(h[k]).Some?)
      && (n < |h| ==> ToArticle(h[n]).None?)
    ensures FeedArticles(feed, limit).Some? ==> n == |FeedArticles(feed, limit).value|
  {
    match feed
    case ParseError => 0
    case Parsed(entries) => |Leading(Head(entries, limit))|
  }

  /** What `articles.extend` receives for one feed: its articles, or nothing. */
  function Contribution(feed: Feed, limit: int): seq<Article>
  {
    FeedArticles(feed, limit).GetOr([])
  }

  /** Each feed's contribution, in the order of `urls`. */
  function Contributions(parse: string -> Feed, urls: seq<string>, limit: int): (r: seq<seq<Article>>)
    ensures |r| == |urls|
  {
    seq(|urls|, k requires 0 <= k < |urls| => Contribution(parse(urls[k]), limit))
  }

  /** Each feed's increments of `total_articles`, in the order of `urls`. */
  function Counts(parse: string -> Feed, urls: seq<string>, limit: int): (r: seq<nat>)
    ensures |r| == |urls|
  {
    seq(|urls|, k requires 0 <= k < |urls| => FeedCount(parse(urls[k]), limit))
  }

  /** The articles gathered from `urls`: the feeds' contributions joined in order. */
  function Gathered(parse: string -> Feed, urls: seq<string>, limit: int): seq<Article>
  {
    Concat(Contributions(parse, urls, limit))
  }

  /** The value of `total_articles` after `urls`. */
  function Counted(parse: string -> Feed, urls: seq<string>, limit: int): nat
  {
    Sum(Counts(parse, urls, limit))
  }

  /** Processing one more feed extends both by that feed's share. */
  lemma GatheredSnoc(parse: string -> Feed, urls: seq<string>, url: string, limit: int)
    ensures Gathered(parse, urls + [url], limit) == Gathered(parse, urls, limit) + Contribution(parse(url), limit)
    ensures Counted(parse, urls + [url], limit) == Counted(parse, urls, limit) + FeedCount(parse(url), limit)
  {
    assert Contributions(parse, urls + [url], limit) == Contributions(parse, urls, limit) + [Contribution(parse(url), limit)];
    ConcatSnoc(Contributions(parse, urls, limit), Contribution(parse(url), limit));
    var cs := Counts(parse, urls + [url], limit);
    assert cs[..|urls|] == Counts(parse, urls, limit);
  }

  /** The inner loop of `fetch_latest_articles` over one feed's prefix: convert
      entries in order, bumping the counter after each, until one raises. */
  method ConvertEntries(entries: seq<Entry>, total: nat)
    returns (feedArticles: seq<Article>, raised: bool, newTotal: nat)
    ensures feedArticles == Leading(entries)
    ensures raised <==> |Leading(entries)| < |entries|
    ensures newTotal == total + |feedArticles|
  {
    feedArticles := [];
    raised := false;
    newTotal := total;
    var j := 0;
    while j < |entries| && !raised
      invariant 0 <= j <= |entries|
      invariant |feedArticles| == j
      invariant forall k :: 0 <= k < j ==> ToArticle(entries[k]) == Some(feedArticles[k])
      invariant raised ==> j < |entries| && ToArticle(entries[j]).None?
      invariant newTotal == total + j
      decreases |entries| - j, if raised then 0 else 1
    {
      var article := ToArticle(entries[j]);
      if article.None? {
        raised := true;
      } else {
        feedArticles := feedArticles + [article.value];
        newTotal := newTotal + 1;
        j := j + 1;
      }
    }
    LeadingUnique(entries, feedArticles, raised);
  }

  /** One pass of the outer loop of `fetch_latest_articles`: run the inner loop on
      the feed's prefix, and commit its articles only if no entry raised. The
      counter keeps the entries converted either way. */
  method ProcessFeed(feed: Feed, limitPerFeed: int, articles: seq<Article>, totalArticles: nat)
    returns (newArticles: seq<Article>, newTotal: nat)
    ensures newArticles == articles + Contribution(feed, limitPerFeed)
    ensures newTotal == totalArticles + FeedCount(feed, limitPerFeed)
  {
    newArticles, newTotal := articles, totalArticles;
    if feed.Parsed? {
      var feedArticles, raised;
      feedArticles, raised, newTotal := ConvertEntries(Head(feed.entries, limitPerFeed), totalArticles);
      if !raised {
        newArticles := articles + feedArticles;
      }
    }
  }

  /** The outer loop of `fetch_latest_articles` over the feeds `urls`, in order. */
  method GatherFeeds(parse: string -> Feed, urls: seq<string>, limitPerFeed: int)
    returns (articles: seq<Article>, totalArticles: nat)
    ensures articles == Gathered(parse, urls, limitPerFeed)
    ensures totalArticles == Counted(parse, urls, limitPerFeed)
  {
    articles := [];
    totalArticles := 0;
    var i := 0;
    while i < |urls|
      invariant 0 <= i <= |urls|
      invariant articles == Gathered(parse, urls[..i], limitPerFeed)
      invariant totalArticles == Counted(parse, urls[..i], limitPerFeed)
    {
      GatheredPrefix(parse, urls, i, limitPerFeed);
      articles, totalArticles := ProcessFeed(parse(urls[i]), limitPerFeed, articles, totalArticles);
      i := i + 1;
    }
    assert urls[..i] == urls;
  }

  /** The first `i + 1` feeds give what the first `i` give plus feed `i`'s share. */
  lemma GatheredPrefix(parse: string -> Feed, urls: seq<string>, i: nat, limit: int)
    requires i < |urls|
    ensures Gathered(parse, urls[..i + 1], limit) == Gathered(parse, urls[..i], limit) + Contribution(parse(urls[i]), limit)
    ensures Counted(parse, urls[..i + 1], limit) == Counted(parse, urls[..i], limit) + FeedCount(parse(urls[i]), limit)
  {
    assert urls[..i + 1] == urls[..i] + [urls[i]];
    GatheredSnoc(parse, urls[..i], urls[i], limit);
  }

  /** `fetch_latest_articles(limit_per_feed)`: the articles gathered from `FEEDS`
      in order, and the final value of the counter it reports. */
  method FetchLatestArticles(parse: string -> Feed, limitPerFeed: int)
    returns (articles: seq<Article>, totalArticles: nat)
    ensures articles == Gathered(parse, FEEDS, limitPerFeed)
    ensures totalArticles == Counted(parse, FEEDS, limitPerFeed)
  {
    articles, totalArticles := GatherFeeds(parse, FEEDS, limitPerFeed);
  }

  // ---------------------------------------------------------------------------
  // Properties of the gathered articles
  // ---------------------------------------------------------------------------

  /** Feeds are processed independently and in order: a feed that raises does not
      stop the ones after it. */
  lemma GatheredAppend(parse: string -> Feed, a: seq<string>, b: seq<string>, limit: int)
    ensures Gathered(parse, a + b, limit) == Gathered(parse, a, limit) + Gathered(parse, b, limit)
  {
    var ca, cb := Contributions(parse, a, limit), Contributions(parse, b, limit);
    var cab := Contributions(parse, a + b, limit);
    forall k | 0 <= k < |cab| ensures cab[k] == (ca + cb)[k] {
      if k >= |a| {
        assert (a + b)[k] == b[k - |a|];
      }
    }
    assert cab == ca + cb;
    ConcatAppend(Contributions(parse, a, limit), Contributions(parse, b, limit));
  }

  /** A feed contributes at most `limit` articles. */
  lemma FeedBound(feed: Feed, limit: int)
    requires limit >= 0
    ensures |Contribution(feed, limit)| <= limit
  {
  }

  /** So the result holds at most `limit` articles per feed. */
  lemma GatheredBound(parse: string -> Feed, urls: seq<string>, limit: int)
    requires limit >= 0
    ensures |Gathered(parse, urls, limit)| <= limit * |urls|
  {
    var cs := Contributions(parse, urls, limit);
    forall k | 0 <= k < |cs| ensures |cs[k]| <= limit {
      FeedBound(parse(urls[k]), limit);
    }
    ConcatBound(cs, limit);
  }

  /** So a call returns at most `limit` articles per feed of `FEEDS`, and the
      default call at most 5 * 4 = 20. */
  lemma FetchBound(parse: string -> Feed, limit: int)
    requires limit >= 0
    ensures |Gathered(parse, FEEDS, limit)| <= 4 * limit
    ensures limit == DefaultLimit ==> |Gathered(parse, FEEDS, limit)| <= 20
  {
    GatheredBound(parse, FEEDS, limit);
  }

  /** The counter is never below the number of articles returned, and equals it
      when no feed raises: no feed fails to parse and every entry of every prefix
      has a title and a link. */
  lemma CountedVersusGathered(parse: string -> Feed, urls: seq<string>, limit: int)
    ensures |Gathered(parse, urls, limit)| <= Counted(parse, urls, limit)
    ensures (forall k :: 0 <= k < |urls| ==> FeedArticles(parse(urls[k]), limit).Some?)
      ==> Counted(parse, urls, limit) == |Gathered(parse, urls, limit)|
  {
    var cs := Contributions(parse, urls, limit);
    var ns := Counts(parse, urls, limit);
    forall k | 0 <= k < |cs|
      ensures |cs[k]| <= ns[k]
      ensures FeedArticles(parse(urls[k]), limit).Some? ==> |cs[k]| == ns[k]
    {
    }
    ConcatLengthAtMostSum(cs, ns);
  }

  /** A feed whose first entry converts but a later entry of the prefix lacks a
      title or link adds nothing to the articles yet raises the counter, so the
      reported total then exceeds the number of articles returned. */
  lemma PartialFeedCounted(parse: string -> Feed, urls: seq<string>, url: string, limit: int)
    requires parse(url).Parsed?
    requires var h := Head(parse(url).entries, limit);
      |h| >= 2 && ToArticle(h[0]).Some? && ToArticle(h[|h| - 1]).None?
    ensures Gathered(parse, urls + [url], limit) == Gathered(parse, urls, limit)
    ensures Counted(parse, urls + [url], limit) > Counted(parse, urls, limit)
    ensures |Gathered(parse, urls + [url], limit)| < Counted(parse, urls + [url], limit)
  {
    var h := Head(parse(url).entries, limit);
    assert |Leading(h)| >= 1;
    GatheredSnoc(parse, urls, url, limit);
    CountedVersusGathered(parse, urls, limit);
  }

  /** The articles of a feed that does not raise are its first `limit` entries,
      in order, each converted. */
  lemma FeedPrefix(feed: Feed, limit: int, k: nat)
    requires limit >= 0 && FeedArticles(feed, limit).Some?
    ensures |FeedArticles(feed, limit).value| == if limit < |feed.entries| then limit else |feed.entries|
    ensures k < |FeedArticles(feed, limit).value| ==> ToArticle(feed.entries[k]) == Some(FeedArticles(feed, limit).value[k])
  {
  }
}
