/**
 * The crawler: `NewsBot.__init__` picks the feed list and resolves the
 * category, and `crawl` turns every entry of every feed, in order, into an
 * Article, committing each one as it goes when asked to.
 */
module Newsbot {
  import opened Wrappers
  import opened Text
  import opened Entries
  import opened Store
  import opened Articles

  /** What one call of the summarizer does: it raises, or it returns bullets, highlighted text and an error flag. */
  datatype SummaryOutcome = Raised | Summarized(bullets: seq<string>, highlighted: seq<string>, error: bool)

  /** The bot settings every Article of a crawl inherits. */
  datatype BotConfig = BotConfig(siteName: string, category: nat, algorithm: string, length: int)

  /** The feed list: what discovery found, or the URL itself when it found nothing. */
  function FeedUrls(url: string, discovered: seq<string>): (feeds: seq<string>)
    ensures feeds != []
    ensures discovered != [] ==> feeds == discovered
    ensures discovered == [] ==> feeds == [url]
  {
    if discovered != [] then discovered else [url]
  }

  /**
   * A setting that falls back to a default when missing or empty: the site
   * name falls back to 'None' and the category to 'Uncategorized'.
   */
  function NameOr(name: Option<string>, fallback: string): (r: string)
    ensures fallback != "" ==> r != ""
    ensures name.Some? && name.value != "" ==> r == name.value
    ensures name.None? || name.value == "" ==> r == fallback
  {
    if name.Some? && name.value != "" then name.value else fallback
  }

  /**
   * The Article one entry yields, if any: video titles and entries whose
   * summarizer raises yield none; a summarizer that reports an error still
   * yields one, marked as failed.
   */
  function EntryCandidate(e: Entry, cfg: BotConfig, summarize: (string, string, int) -> SummaryOutcome): (r: Option<Candidate>)
    ensures r.None? <==> IsVideoTitle(e.title) || summarize(StripFragment(e.link), cfg.algorithm, cfg.length).Raised?
    ensures r.Some? ==> r.value.sourceUrl == StripFragment(e.link)
    ensures r.Some? ==> summarize(r.value.sourceUrl, cfg.algorithm, cfg.length)
                        == Summarized(r.value.bullets, r.value.highlighted, r.value.summaryFailed)
    ensures r.Some? ==> r.value.title == e.title && r.value.pubDate == e.published
                        && r.value.imageUrl == ImageUrlOf(e.thumbnails)
                        && r.value.newsSourceName == cfg.siteName && r.value.newsCategory == cfg.category
  {
    if IsVideoTitle(e.title) then None
    else
      var url := StripFragment(e.link);
      match summarize(url, cfg.algorithm, cfg.length)
      case Raised => None
      case Summarized(bullets, highlighted, error) =>
        Some(Candidate(e.title, url, cfg.siteName, cfg.category, e.published,
                       ImageUrlOf(e.thumbnails), bullets, highlighted, error))
  }

  /** An optional Article as a sequence of zero or one. */
  function Kept(o: Option<Candidate>): seq<Candidate>
  {
    match o
    case None => []
    case Some(c) => [c]
  }

  /** The Articles of one feed, in entry order. */
  function FeedCandidates(entries: seq<Entry>, cfg: BotConfig, summarize: (string, string, int) -> SummaryOutcome): seq<Candidate>
  {
    if entries == [] then []
    else FeedCandidates(entries[..|entries| - 1], cfg, summarize)
         + Kept(EntryCandidate(entries[|entries| - 1], cfg, summarize))
  }

  /** The Articles of a crawl: feed after feed, in the order the feeds are listed. */
  function CrawlCandidates(feeds: seq<string>, fetch: string -> seq<Entry>, cfg: BotConfig,
                           summarize: (string, string, int) -> SummaryOutcome): seq<Candidate>
  {
    if feeds == [] then []
    else CrawlCandidates(feeds[..|feeds| - 1], fetch, cfg, summarize)
         + FeedCandidates(fetch(feeds[|feeds| - 1]), cfg, summarize)
  }

  /** The effect of committing a run of Articles: the final store, and each Article's `url` afterwards. */
  datatype CommitRun = CommitRun(store: Store, urls: seq<string>)

  /** Commits the Articles one after the other; the k-th commit sees `envs(k)`. */
  function CommitAll(s: Store, cands: seq<Candidate>, envs: nat -> CommitEnv): (r: CommitRun)
    ensures |r.urls| == |cands|
    ensures r.store.categories == s.categories
  {
    if cands == [] then CommitRun(s, [])
    else
      var n := |cands| - 1;
      var prev := CommitAll(s, cands[..n], envs);
      var out := Commit(prev.store, cands[n], envs(n));
      CommitRun(out.store, prev.urls + [out.url.GetOr("")])
  }

  /** A crawl's effect on the store and on the Articles' urls: nothing at all unless it commits. */
  function CrawlEffect(s: Store, cands: seq<Candidate>, envs: nat -> CommitEnv, commit: bool): (r: CommitRun)
    ensures |r.urls| == |cands|
    ensures r.store.categories == s.categories
  {
    if commit then CommitAll(s, cands, envs) else CommitRun(s, seq(|cands|, _ => ""))
  }

  function FieldsOf(arts: seq<Article>): (cs: seq<Candidate>)
    ensures |cs| == |arts|
    ensures forall k :: 0 <= k < |arts| ==> cs[k] == arts[k].Fields()
  {
    seq(|arts|, k requires 0 <= k < |arts| => arts[k].Fields())
  }

  function UrlsOf(arts: seq<Article>): (urls: seq<string>)
    reads arts
    ensures |urls| == |arts|
    ensures forall k :: 0 <= k < |arts| ==> urls[k] == arts[k].url
  {
    seq(|arts|, k reads arts requires 0 <= k < |arts| => arts[k].url)
  }

  /** The state a crawl keeps between entries: the store and the urls are what CrawlEffect says. */
  ghost predicate Reached(db: Database, before: Store, arts: seq<Article>, envs: nat -> CommitEnv, commit: bool)
    reads db, arts
  {
    && db.Valid()
    && CrawlEffect(before, FieldsOf(arts), envs, commit) == CommitRun(db.State(), UrlsOf(arts))
  }

  class NewsBot {
    const feedUrls: seq<string>
    const siteName: string
    const category: nat
    const summaryAlgorithm: string
    const summaryLength: int
    var articles: seq<Article>

    function Config(): BotConfig
    {
      BotConfig(siteName, category, summaryAlgorithm, summaryLength)
    }

    /**
     * `discovered` is what `get_feed_urls(url)` returned. The category is
     * looked up by name and created when absent.
     */
    constructor (url: string, discovered: seq<string>, summaryAlgorithm: string, summaryLength: int,
                 category: Option<string>, siteName: Option<string>, db: Database)
      requires db.Valid()
      modifies db
      ensures feedUrls == FeedUrls(url, discovered)
      ensures this.siteName == NameOr(siteName, "None")
      ensures this.summaryAlgorithm == summaryAlgorithm && this.summaryLength == summaryLength
      ensures articles == []
      ensures db.Valid()
      ensures Resolved(db.categories, this.category) == ResolveName(old(db.categories), NameOr(category, "Uncategorized"))
      ensures db.sources == old(db.sources) && db.summaries == old(db.summaries)
    {
      var feeds := discovered;
      if feeds != [] {
        feedUrls := feeds;
      } else {
        feedUrls := [url];
      }
      this.siteName := if siteName.None? || siteName.value == "" then "None" else siteName.value;
      var name := if category.None? || category.value == "" then "Uncategorized" else category.value;
      var categoryEntry := db.LookupOrCreateCategory(name);
      this.category := categoryEntry;
      this.summaryAlgorithm := summaryAlgorithm;
      this.summaryLength := summaryLength;
      articles := [];
    }

    /**
     * `crawl(commit)`: appends one Article per entry that is not skipped, in
     * feed order and then entry order, commits each one right away when
     * `commit` holds, and returns all the bot's Articles.
     */
    method Crawl(commit: bool, db: Database, fetch: string -> seq<Entry>,
                 summarize: (string, string, int) -> SummaryOutcome, envs: nat -> CommitEnv)
      returns (result: seq<Article>)
      requires db.Valid() && category < |db.categories|
      modifies this, db
      ensures result == articles
      ensures old(articles) <= articles
      ensures FieldsOf(articles[|old(articles)|..]) == CrawlCandidates(feedUrls, fetch, Config(), summarize)
      ensures db.Valid()
      ensures db.State() == CrawlEffect(old(db.State()), CrawlCandidates(feedUrls, fetch, Config(), summarize), envs, commit).store
      ensures forall k :: |old(articles)| <= k < |articles| ==>
        articles[k].url == CrawlEffect(old(db.State()), CrawlCandidates(feedUrls, fetch, Config(), summarize), envs, commit).urls[k - |old(articles)|]
    {
      var start := |articles|;
      ghost var before := db.State();
      for i := 0 to |feedUrls|
        invariant |articles| >= start && articles[..start] == old(articles)
        invariant FieldsOf(articles[start..]) == CrawlCandidates(feedUrls[..i], fetch, Config(), summarize)
        invariant Reached(db, before, articles[start..], envs, commit)
      {
        assert feedUrls[..i + 1][..i] == feedUrls[..i];
        var entries := fetch(feedUrls[i]);
        if entries == [] {
          continue;
        }
        CrawlFeed(entries, commit, db, summarize, envs, before, start);
      }
      assert feedUrls[..|feedUrls|] == feedUrls;
      result := articles;
    }

    /** The entry loop of `crawl`, over the entries of one feed. */
    method CrawlFeed(entries: seq<Entry>, commit: bool, db: Database, summarize: (string, string, int) -> SummaryOutcome,
                     envs: nat -> CommitEnv, ghost before: Store, start: nat)
      requires start <= |articles|
      requires before.categories == db.categories && category < |db.categories|
      requires Reached(db, before, articles[start..], envs, commit)
      modifies this, db
      ensures old(articles) <= articles
      ensures FieldsOf(articles[start..]) == FieldsOf(old(articles)[start..]) + FeedCandidates(entries, Config(), summarize)
      ensures Reached(db, before, articles[start..], envs, commit)
    {
      for j := 0 to |entries|
        invariant old(articles) <= articles
        invariant FieldsOf(articles[start..]) == FieldsOf(old(articles)[start..]) + FeedCandidates(entries[..j], Config(), summarize)
        invariant Reached(db, before, articles[start..], envs, commit)
      {
        ghost var done := FeedCandidates(entries[..j], Config(), summarize);
        CrawlEntry(entries[j], commit, db, summarize, envs, before, start);
        FeedCandidatesSnoc(entries[..j], entries[j], Config(), summarize);
        assert entries[..j] + [entries[j]] == entries[..j + 1];
        ConcatAssoc(FieldsOf(old(articles)[start..]), done, Kept(EntryCandidate(entries[j], Config(), summarize)));
      }
      assert entries[..|entries|] == entries;
    }

    /**
     * The body of the entry loop of `crawl`: skip a video, strip the fragment,
     * pick the thumbnail, summarise, and (unless the summarizer raised) build,
     * optionally commit, and append the Article.
     */
    method CrawlEntry(entry: Entry, commit: bool, db: Database, summarize: (string, string, int) -> SummaryOutcome,
                      envs: nat -> CommitEnv, ghost before: Store, start: nat)
      requires start <= |articles|
      requires before.categories == db.categories && category < |db.categories|
      requires Reached(db, before, articles[start..], envs, commit)
      modifies this, db
      ensures old(articles) <= articles
      ensures FieldsOf(articles[start..]) == FieldsOf(old(articles)[start..]) + Kept(EntryCandidate(entry, Config(), summarize))
      ensures Reached(db, before, articles[start..], envs, commit)
    {
      var title := entry.title;
      if IsVideoTitle(title) {
        return;
      }
      var url := StripFragment(entry.link);
      var biggest := SelectThumbnail(entry.thumbnails);
      var imageUrl := if biggest.Some? then entry.thumbnails[biggest.value].url else "";
      var summary := summarize(url, summaryAlgorithm, summaryLength);
      if summary.Raised? {
        return;
      }
      var article := new Article(Candidate(title, url, siteName, category, entry.published, imageUrl,
                                           summary.bullets, summary.highlighted, summary.error));
      assert EntryCandidate(entry, Config(), summarize) == Some(article.Fields());
      AddArticle(article, commit, db, envs, before, start);
    }

    /** Commits the new Article when asked to, then appends it to `articles`. */
    method AddArticle(article: Article, commit: bool, db: Database, envs: nat -> CommitEnv, ghost before: Store, start: nat)
      requires start <= |articles| && article !in articles && article.url == ""
      requires before.categories == db.categories && article.newsCategory < |db.categories|
      requires Reached(db, before, articles[start..], envs, commit)
      modifies this, db, article
      ensures articles == old(articles) + [article]
      ensures FieldsOf(articles[start..]) == FieldsOf(old(articles)[start..]) + [article.Fields()]
      ensures Reached(db, before, articles[start..], envs, commit)
    {
      ghost var prior := articles[start..];
      ghost var priorUrls := UrlsOf(prior);
      ghost var fields := article.Fields();
      ghost var storeBefore := db.State();
      if commit {
        var _ := article.CommitToDb(db, envs(|articles| - start));
      }
      assert UrlsOf(prior) == priorUrls;
      CrawlEffectStep(before, FieldsOf(prior), fields, envs, commit);
      articles := articles + [article];
      assert articles[start..] == prior + [article];
      FieldsOfAppend(prior, article);
      UrlsOfAppend(prior, article);
    }
  }

  lemma ConcatAssoc<T>(a: seq<T>, b: seq<T>, c: seq<T>)
    ensures (a + b) + c == a + (b + c)
  {
  }

  lemma FieldsOfAppend(arts: seq<Article>, a: Article)
    ensures FieldsOf(arts + [a]) == FieldsOf(arts) + [a.Fields()]
  {
  }

  lemma UrlsOfAppend(arts: seq<Article>, a: Article)
    ensures UrlsOf(arts + [a]) == UrlsOf(arts) + [a.url]
  {
  }

  lemma FeedCandidatesSnoc(entries: seq<Entry>, e: Entry, cfg: BotConfig, summarize: (string, string, int) -> SummaryOutcome)
    ensures FeedCandidates(entries + [e], cfg, summarize) == FeedCandidates(entries, cfg, summarize) + Kept(EntryCandidate(e, cfg, summarize))
  {
    assert (entries + [e])[..|entries|] == entries;
  }

  lemma CommitAllSnoc(s: Store, cands: seq<Candidate>, c: Candidate, envs: nat -> CommitEnv)
    ensures var prev := CommitAll(s, cands, envs);
            var out := Commit(prev.store, c, envs(|cands|));
            CommitAll(s, cands + [c], envs) == CommitRun(out.store, prev.urls + [out.url.GetOr("")])
  {
    assert (cands + [c])[..|cands|] == cands;
  }

  /** One more Article extends the crawl's effect by one commit (or by nothing). */
  lemma CrawlEffectStep(s: Store, cands: seq<Candidate>, c: Candidate, envs: nat -> CommitEnv, commit: bool)
    ensures var prev := CrawlEffect(s, cands, envs, commit);
            var out := if commit then Commit(prev.store, c, envs(|cands|)) else Committed(prev.store, None);
            CrawlEffect(s, cands + [c], envs, commit) == CommitRun(out.store, prev.urls + [out.url.GetOr("")])
  {
    assert (cands + [c])[..|cands|] == cands;
    if !commit {
      assert seq(|cands| + 1, _ => "") == seq(|cands|, _ => "") + [""];
    }
  }

  /** Entries are turned into Articles in order: a feed split in two gives the two parts' Articles, in turn. */
  lemma {:induction false} FeedCandidatesAppend(a: seq<Entry>, b: seq<Entry>, cfg: BotConfig,
                                                summarize: (string, string, int) -> SummaryOutcome)
    ensures FeedCandidates(a + b, cfg, summarize) == FeedCandidates(a, cfg, summarize) + FeedCandidates(b, cfg, summarize)
  {
    if b == [] {
      assert a + b == a;
    } else {
      var init, last := b[..|b| - 1], b[|b| - 1];
      assert (a + b)[..|a + b| - 1] == a + init;
      assert (a + b)[|a + b| - 1] == last;
      var kept := Kept(EntryCandidate(last, cfg, summarize));
      assert FeedCandidates(a + b, cfg, summarize) == FeedCandidates(a + init, cfg, summarize) + kept;
      assert FeedCandidates(b, cfg, summarize) == FeedCandidates(init, cfg, summarize) + kept;
      FeedCandidatesAppend(a, init, cfg, summarize);
      ConcatAssoc(FeedCandidates(a, cfg, summarize), FeedCandidates(init, cfg, summarize), kept);
    }
  }

  /** Feeds are crawled in order: a feed list split in two gives the two parts' Articles, in turn. */
  lemma {:induction false} CrawlCandidatesAppend(f: seq<string>, g: seq<string>, fetch: string -> seq<Entry>,
                                                 cfg: BotConfig, summarize: (string, string, int) -> SummaryOutcome)
    ensures CrawlCandidates(f + g, fetch, cfg, summarize)
            == CrawlCandidates(f, fetch, cfg, summarize) + CrawlCandidates(g, fetch, cfg, summarize)
  {
    if g == [] {
      assert f + g == f;
    } else {
      var init, last := g[..|g| - 1], g[|g| - 1];
      assert (f + g)[..|f + g| - 1] == f + init;
      assert (f + g)[|f + g| - 1] == last;
      var feed := FeedCandidates(fetch(last), cfg, summarize);
      assert CrawlCandidates(f + g, fetch, cfg, summarize) == CrawlCandidates(f + init, fetch, cfg, summarize) + feed;
      assert CrawlCandidates(g, fetch, cfg, summarize) == CrawlCandidates(init, fetch, cfg, summarize) + feed;
      CrawlCandidatesAppend(f, init, fetch, cfg, summarize);
      ConcatAssoc(CrawlCandidates(f, fetch, cfg, summarize), CrawlCandidates(init, fetch, cfg, summarize), feed);
    }
  }

  /** What every Article of a crawl satisfies: no video title, no fragment in its key, and the bot's site and category. */
  ghost predicate Crawled(c: Candidate, cfg: BotConfig)
  {
    && !IsVideoTitle(c.title)
    && '#' !in c.sourceUrl
    && c.newsSourceName == cfg.siteName
    && c.newsCategory == cfg.category
  }

  lemma {:induction false} FeedCandidatesCrawled(entries: seq<Entry>, cfg: BotConfig,
                                                 summarize: (string, string, int) -> SummaryOutcome)
    ensures forall k :: 0 <= k < |FeedCandidates(entries, cfg, summarize)| ==> Crawled(FeedCandidates(entries, cfg, summarize)[k], cfg)
  {
    if entries != [] {
      FeedCandidatesCrawled(entries[..|entries| - 1], cfg, summarize);
    }
  }

  /** No Article of a crawl has a video title or a fragment in its source URL. */
  lemma {:induction false} CrawlCandidatesCrawled(feeds: seq<string>, fetch: string -> seq<Entry>, cfg: BotConfig,
                                                  summarize: (string, string, int) -> SummaryOutcome)
    ensures forall k :: 0 <= k < |CrawlCandidates(feeds, fetch, cfg, summarize)| ==>
              Crawled(CrawlCandidates(feeds, fetch, cfg, summarize)[k], cfg)
  {
    if feeds != [] {
      CrawlCandidatesCrawled(feeds[..|feeds| - 1], fetch, cfg, summarize);
      FeedCandidatesCrawled(fetch(feeds[|feeds| - 1]), cfg, summarize);
    }
  }

  /** Committing a run of Articles keeps the store's uniqueness invariant. */
  lemma {:induction false} CommitAllPreservesValid(s: Store, cands: seq<Candidate>, envs: nat -> CommitEnv)
    requires s.Valid()
    requires forall k :: 0 <= k < |cands| ==> cands[k].newsCategory < |s.categories|
    ensures CommitAll(s, cands, envs).store.Valid()
  {
    if cands != [] {
      var n := |cands| - 1;
      assert forall k :: 0 <= k < n ==> cands[..n][k] == cands[k];
      CommitAllPreservesValid(s, cands[..n], envs);
      CommitPreservesValid(CommitAll(s, cands[..n], envs).store, cands[n], envs(n));
    }
  }

  /**
   * After committing a run, an Article whose summary failed has url "", and
   * every other Article's url is the one stored under its source URL, so
   * Articles sharing a source URL share one record.
   */
  lemma {:induction false} CommitAllUrls(s: Store, cands: seq<Candidate>, envs: nat -> CommitEnv)
    ensures forall k :: 0 <= k < |cands| && cands[k].summaryFailed ==> CommitAll(s, cands, envs).urls[k] == ""
    ensures forall k :: 0 <= k < |cands| && !cands[k].summaryFailed ==>
              Some(CommitAll(s, cands, envs).urls[k]) == UrlFor(CommitAll(s, cands, envs).store, cands[k].sourceUrl)
  {
    if cands != [] {
      var n := |cands| - 1;
      CommitAllUrls(s, cands[..n], envs);
      var prev := CommitAll(s, cands[..n], envs);
      var c := cands[n];
      var r := CommitAll(s, cands, envs);
      var out := Commit(prev.store, c, envs(n));
      assert r.store == out.store && r.urls == prev.urls + [out.url.GetOr("")];
      forall k | 0 <= k < |cands|
        ensures cands[k].summaryFailed ==> r.urls[k] == ""
        ensures !cands[k].summaryFailed ==> Some(r.urls[k]) == UrlFor(r.store, cands[k].sourceUrl)
      {
        if k < n {
          assert cands[..n][k] == cands[k];
          assert r.urls[k] == prev.urls[k];
          if !cands[k].summaryFailed {
            assert cands[k].sourceUrl in SourceUrls(prev.store.summaries);
            CommitKeepsStoredUrls(prev.store, c, envs(n), cands[k].sourceUrl);
          }
        } else if !c.summaryFailed {
          CommitUrlIsStored(prev.store, c, envs(n));
        }
      }
    }
  }

  /** Crawl half of the scenario below: the video is dropped, the other two are kept in order. */
  lemma ScenarioCrawl(video: Entry, failing: Entry, working: Entry, cfg: BotConfig,
                      summarize: (string, string, int) -> SummaryOutcome)
    requires IsVideoTitle(video.title)
    requires EntryCandidate(failing, cfg, summarize).Some? && EntryCandidate(working, cfg, summarize).Some?
    ensures FeedCandidates([video, failing, working], cfg, summarize)
            == [EntryCandidate(failing, cfg, summarize).value, EntryCandidate(working, cfg, summarize).value]
  {
    FeedCandidatesSnoc([], video, cfg, summarize);
    assert [] + [video] == [video];
    FeedCandidatesSnoc([video], failing, cfg, summarize);
    assert [video] + [failing] == [video, failing];
    FeedCandidatesSnoc([video, failing], working, cfg, summarize);
    assert [video, failing] + [working] == [video, failing, working];
  }

  /** Commit half of the scenario below: the failed Article stores nothing, the other one row. */
  lemma ScenarioCommit(s: Store, failed: Candidate, works: Candidate, env: CommitEnv)
    requires failed.summaryFailed && !works.summaryFailed
    requires works.sourceUrl !in SourceUrls(s.summaries)
    ensures var run := CommitAll(s, [failed, works], _ => env);
            && run.store.summaries == s.summaries + [SummaryRow(
                 works.title, works.bullets, works.highlighted, ResolveName(s.sources, works.newsSourceName).id,
                 works.sourceUrl, works.newsCategory, works.pubDate, Retrieve(works.imageUrl, env).path, env.assignedUrl)]
            && run.urls == ["", env.assignedUrl]
  {
    var envs: nat -> CommitEnv := _ => env;
    CommitAllSnoc(s, [], failed, envs);
    assert [] + [failed] == [failed];
    CommitAllSnoc(s, [failed], works, envs);
    assert [failed] + [works] == [failed, works];
    CommitInserts(s, works, env);
  }

  /**
   * A feed of three entries: a video (skipped), one whose summary reports an
   * error (kept as an Article, never stored) and one that succeeds with three
   * bullets and an eligible thumbnail whose download succeeds. The crawl
   * yields two Articles and a committing run stores exactly one new record,
   * with three bullets and an image path.
   */
  lemma ThreeEntryScenario(video: Entry, failing: Entry, working: Entry, cfg: BotConfig,
                           summarize: (string, string, int) -> SummaryOutcome, s: Store, env: CommitEnv)
    requires IsVideoTitle(video.title)
    requires !IsVideoTitle(failing.title) && summarize(StripFragment(failing.link), cfg.algorithm, cfg.length).Summarized?
    requires summarize(StripFragment(failing.link), cfg.algorithm, cfg.length).error
    requires !IsVideoTitle(working.title)
    requires summarize(StripFragment(working.link), cfg.algorithm, cfg.length).Summarized?
    requires !summarize(StripFragment(working.link), cfg.algorithm, cfg.length).error
    requires |summarize(StripFragment(working.link), cfg.algorithm, cfg.length).bullets| == 3
    requires IsEligibleImage(ImageUrlOf(working.thumbnails)) && env.downloadOk
    requires StripFragment(working.link) !in SourceUrls(s.summaries)
    ensures var cands := FeedCandidates([video, failing, working], cfg, summarize);
            var run := CommitAll(s, cands, _ => env);
            && |cands| == 2 && cands[0].summaryFailed && !cands[1].summaryFailed
            && |run.store.summaries| == |s.summaries| + 1
            && |run.store.summaries[|s.summaries|].bullets| == 3
            && run.store.summaries[|s.summaries|].imagePath != ""
  {
    ScenarioCrawl(video, failing, working, cfg, summarize);
    var failed := EntryCandidate(failing, cfg, summarize).value;
    var works := EntryCandidate(working, cfg, summarize).value;
    ScenarioCommit(s, failed, works, env);
  }
}
