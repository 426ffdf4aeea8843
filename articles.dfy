/**
 * The in-memory `Article` a crawl produces, and its `commit_to_db`: resolve the
 * news source, decide whether the thumbnail is downloaded and under which
 * name, then check-then-insert on the source URL.
 */
module Articles {
  import opened Wrappers
  import opened Text
  import opened Entries
  import opened Store

  /** The immutable part of an Article: everything the crawler passes to its constructor. */
  datatype Candidate = Candidate(
    title: string,
    sourceUrl: string,
    newsSourceName: string,
    newsCategory: nat,
    pubDate: Option<Timestamp>,
    imageUrl: string,
    bullets: seq<string>,
    highlighted: seq<string>,
    summaryFailed: bool)

  /**
   * What a commit takes from the world: the Hashids token of the current time,
   * the "YYYY/MM/" folder of the current date, whether the download succeeds,
   * and the canonical url the `NewsSummary` constructor assigns to a new row.
   */
  datatype CommitEnv = CommitEnv(token: string, dateFolder: string, downloadOk: bool, assignedUrl: string)

  /** A download request: fetch `source` into `folder` under `filename`. */
  datatype Download = Download(source: string, folder: string, filename: string)

  /** The download attempted, if any, and the stored image path ("" for none). */
  datatype Retrieval = Retrieval(download: Option<Download>, path: string)

  /** `VALID_IMAGE_FORMATS`. */
  const ImageFormats: seq<string> := [".png", ".jpg", ".jpeg", ".gif"]

  /** `image_url.lower().endswith(VALID_IMAGE_FORMATS)`. */
  predicate IsEligibleImage(url: string)
  {
    exists e :: 0 <= e < |ImageFormats| && EndsWith(Lower(url), ImageFormats[e])
  }

  /** `'{0}_{1}'.format(token, os.path.split(url)[-1])`. */
  function ImageFilename(token: string, url: string): string
  {
    token + "_" + Basename(url)
  }

  /** `url_for('static', filename=os.path.join('images/news/', folder, filename))`. */
  function StaticImageUrl(folder: string, filename: string): string
  {
    "/static/images/news/" + folder + filename
  }

  /**
   * Image retrieval: only an eligible URL is downloaded, and only a download
   * that succeeds leaves a non-empty path.
   */
  function Retrieve(imageUrl: string, env: CommitEnv): (r: Retrieval)
    ensures r.download.Some? <==> IsEligibleImage(imageUrl)
    ensures r.download.Some? ==> r.download.value == Download(imageUrl, env.dateFolder, ImageFilename(env.token, imageUrl))
    ensures r.path != "" <==> r.download.Some? && env.downloadOk
    ensures r.path != "" ==> r.path == StaticImageUrl(env.dateFolder, ImageFilename(env.token, imageUrl))
  {
    if IsEligibleImage(imageUrl) then
      var filename := ImageFilename(env.token, imageUrl);
      var path := if env.downloadOk then StaticImageUrl(env.dateFolder, filename) else "";
      Retrieval(Some(Download(imageUrl, env.dateFolder, filename)), path)
    else
      Retrieval(None, "")
  }

  /** None of the whitelisted extensions contains a '/'. */
  lemma ImageFormatsHaveNoSlash(e: nat)
    requires e < |ImageFormats|
    ensures '/' !in ImageFormats[e]
  {
  }

  /** A path whose last n characters hold no '/' has a last segment at least n long. */
  lemma BasenameCoversSlashFreeTail(path: string, n: nat)
    requires n <= |path| && '/' !in path[|path| - n..]
    ensures |Basename(path)| >= n
  {
  }

  /** Whether a lower-cased string ends with ext depends only on its last |ext| characters. */
  lemma LowerEndsWithTail(s: string, t: string, ext: string)
    requires |ext| <= |t| <= |s| && t == s[|s| - |t|..]
    ensures EndsWith(Lower(s), ext) <==> EndsWith(Lower(t), ext)
  {
    var n := |ext|;
    var ls, lt := Lower(s)[|s| - n..], Lower(t)[|t| - n..];
    forall i | 0 <= i < n
      ensures ls[i] == lt[i]
    {
      assert s[|s| - n + i] == t[|t| - n + i];
    }
    assert ls == lt;
  }

  /**
   * The stored file keeps the extension that made the URL eligible: the last
   * path segment is long enough to hold it, since the extension has no '/'.
   */
  lemma EligibleFilenameKeepsExtension(token: string, url: string, e: nat)
    requires e < |ImageFormats| && EndsWith(Lower(url), ImageFormats[e])
    ensures EndsWith(Lower(ImageFilename(token, url)), ImageFormats[e])
  {
    var ext := ImageFormats[e];
    var n := |ext|;
    ImageFormatsHaveNoSlash(e);
    var tail, lowered := url[|url| - n..], Lower(url);
    assert '/' !in tail by {
      forall i | 0 <= i < |tail|
        ensures tail[i] != '/'
      {
        assert lowered[|url| - n + i] == ext[i];
      }
    }
    BasenameCoversSlashFreeTail(url, n);
    var base := Basename(url);
    LowerEndsWithTail(url, base, ext);
    var name := ImageFilename(token, url);
    LowerEndsWithTail(name, base, ext);
  }

  /** An eligible URL has one of 'n', 'p', 'e', 'i' (in either case) just before its last character. */
  lemma EligibleSecondToLast(url: string)
    requires IsEligibleImage(url)
    ensures |url| >= 2 && LowerChar(url[|url| - 2]) in "npei"
  {
    var e :| 0 <= e < |ImageFormats| && EndsWith(Lower(url), ImageFormats[e]);
    var ext := ImageFormats[e];
    assert Lower(url)[|url| - |ext|..][|ext| - 2] == ext[|ext| - 2];
  }

  /** An image whose lowercased name ends in `.svg` is never downloaded and leaves no image path. */
  lemma SvgIsNeverDownloaded(url: string, env: CommitEnv)
    requires EndsWith(Lower(url), ".svg")
    ensures Retrieve(url, env) == Retrieval(None, "")
  {
    assert Lower(url)[|url| - 2] == 'v';
    if IsEligibleImage(url) {
      EligibleSecondToLast(url);
    }
  }

  /** The outcome of a commit: the new store and what `commit_to_db` returns. */
  datatype Committed = Committed(store: Store, url: Option<string>)

  /**
   * `commit_to_db` on values: a failed summary does nothing; otherwise the news
   * source is resolved (created if needed) and the image retrieved, and then
   * the article is inserted unless a row with its source URL already exists,
   * in which case that row's url is returned instead.
   */
  function Commit(s: Store, c: Candidate, env: CommitEnv): (r: Committed)
    ensures r.store.categories == s.categories
    ensures c.summaryFailed <==> r.url.None?
    ensures c.summaryFailed ==> r.store == s
    ensures !c.summaryFailed ==> c.newsSourceName in r.store.sources && c.sourceUrl in SourceUrls(r.store.summaries)
    ensures |s.summaries| <= |r.store.summaries| <= |s.summaries| + 1
    ensures r.store.summaries[..|s.summaries|] == s.summaries
  {
    if c.summaryFailed then Committed(s, None)
    else
      var source := ResolveName(s.sources, c.newsSourceName);
      var imagePath := Retrieve(c.imageUrl, env).path;
      match FirstIndex(SourceUrls(s.summaries), c.sourceUrl)
      case Some(k) =>
        Committed(s.(sources := source.rows), Some(s.summaries[k].url))
      case None =>
        var row := SummaryRow(c.title, c.bullets, c.highlighted, source.id, c.sourceUrl,
                              c.newsCategory, c.pubDate, imagePath, env.assignedUrl);
        var summaries := s.summaries + [row];
        assert SourceUrls(summaries)[|s.summaries|] == c.sourceUrl;
        Committed(s.(sources := source.rows, summaries := summaries), Some(env.assignedUrl))
  }

  /** A commit keeps names and source URLs unique and references valid. */
  lemma CommitPreservesValid(s: Store, c: Candidate, env: CommitEnv)
    requires s.Valid() && c.newsCategory < |s.categories|
    ensures Commit(s, c, env).store.Valid()
  {
    if !c.summaryFailed {
      ResolveKeepsDistinct(s.sources, c.newsSourceName);
      var r := Commit(s, c, env).store;
      if c.sourceUrl !in SourceUrls(s.summaries) {
        assert SourceUrls(r.summaries) == SourceUrls(s.summaries) + [c.sourceUrl];
      }
    }
  }

  /** An article already stored under its source URL is not inserted again; its url comes back. */
  lemma CommitDuplicate(s: Store, c: Candidate, env: CommitEnv, k: nat)
    requires s.Valid() && !c.summaryFailed
    requires k < |s.summaries| && s.summaries[k].sourceUrl == c.sourceUrl
    ensures Commit(s, c, env).store.summaries == s.summaries
    ensures Commit(s, c, env).url == Some(s.summaries[k].url)
  {
    var urls := SourceUrls(s.summaries);
    assert urls[k] == c.sourceUrl;
    var first := FirstIndex(urls, c.sourceUrl);
    assert first == Some(k);
  }

  /** A new source URL adds exactly one row, with the article's data, at the end. */
  lemma CommitInserts(s: Store, c: Candidate, env: CommitEnv)
    requires !c.summaryFailed && c.sourceUrl !in SourceUrls(s.summaries)
    ensures Commit(s, c, env).store.summaries == s.summaries + [SummaryRow(
      c.title, c.bullets, c.highlighted, ResolveName(s.sources, c.newsSourceName).id, c.sourceUrl,
      c.newsCategory, c.pubDate, Retrieve(c.imageUrl, env).path, env.assignedUrl)]
    ensures Commit(s, c, env).url == Some(env.assignedUrl)
  {
  }

  /**
   * Committing two articles with the same source URL stores one row: the
   * second commit inserts nothing and returns the first one's url.
   */
  lemma CommitTwiceOneRecord(s: Store, c1: Candidate, c2: Candidate, env1: CommitEnv, env2: CommitEnv)
    requires s.Valid() && c1.newsCategory < |s.categories|
    requires !c1.summaryFailed && !c2.summaryFailed && c1.sourceUrl == c2.sourceUrl
    ensures Commit(Commit(s, c1, env1).store, c2, env2).store.summaries == Commit(s, c1, env1).store.summaries
    ensures Commit(Commit(s, c1, env1).store, c2, env2).url == Commit(s, c1, env1).url
    ensures Count(SourceUrls(Commit(Commit(s, c1, env1).store, c2, env2).store.summaries), c1.sourceUrl) == 1
  {
    var r1 := Commit(s, c1, env1);
    CommitPreservesValid(s, c1, env1);
    var urls := SourceUrls(r1.store.summaries);
    var k :| 0 <= k < |urls| && urls[k] == c1.sourceUrl;
    CommitDuplicate(r1.store, c2, env2, k);
    if c1.sourceUrl in SourceUrls(s.summaries) {
      var j :| 0 <= j < |s.summaries| && SourceUrls(s.summaries)[j] == c1.sourceUrl;
      CommitDuplicate(s, c1, env1, j);
      assert r1.store.summaries[j] == s.summaries[j];
      assert k == j;
    } else {
      CommitInserts(s, c1, env1);
      assert k == |s.summaries|;
    }
    CountDistinct(urls, c1.sourceUrl);
  }

  /** The url a commit returns is the url stored under the article's source URL. */
  lemma CommitUrlIsStored(s: Store, c: Candidate, env: CommitEnv)
    requires !c.summaryFailed
    ensures Commit(s, c, env).url == UrlFor(Commit(s, c, env).store, c.sourceUrl)
  {
    var urls := SourceUrls(s.summaries);
    var r := Commit(s, c, env).store;
    if c.sourceUrl in urls {
      FirstIndexPrefix(urls, SourceUrls(r.summaries)[|s.summaries|..], c.sourceUrl);
      assert SourceUrls(r.summaries) == urls + SourceUrls(r.summaries)[|s.summaries|..];
    } else {
      assert SourceUrls(r.summaries) == urls + [c.sourceUrl];
      FirstIndexPrefix(urls + [c.sourceUrl], [], c.sourceUrl);
      assert (urls + [c.sourceUrl])[|urls|] == c.sourceUrl;
    }
  }

  /** A commit never changes the url stored under a source URL already present. */
  lemma CommitKeepsStoredUrls(s: Store, c: Candidate, env: CommitEnv, sourceUrl: string)
    requires sourceUrl in SourceUrls(s.summaries)
    ensures UrlFor(Commit(s, c, env).store, sourceUrl) == UrlFor(s, sourceUrl)
  {
    var urls := SourceUrls(s.summaries);
    var r := Commit(s, c, env).store;
    assert SourceUrls(r.summaries) == urls + SourceUrls(r.summaries)[|s.summaries|..];
    FirstIndexPrefix(urls, SourceUrls(r.summaries)[|s.summaries|..], sourceUrl);
  }

  /** An article built by the crawler; only `url` changes after construction. */
  class Article {
    const title: string
    const sourceUrl: string
    const newsSourceName: string
    const newsCategory: nat
    const pubDate: Option<Timestamp>
    const imageUrl: string
    const bullets: seq<string>
    const highlightedText: seq<string>
    const summaryFailed: bool
    var url: string

    /** The constructor arguments, as a value. */
    function Fields(): Candidate
    {
      Candidate(title, sourceUrl, newsSourceName, newsCategory, pubDate,
                imageUrl, bullets, highlightedText, summaryFailed)
    }

    constructor (c: Candidate)
      ensures Fields() == c && url == ""
    {
      title, sourceUrl, newsSourceName, newsCategory := c.title, c.sourceUrl, c.newsSourceName, c.newsCategory;
      pubDate, imageUrl, bullets, highlightedText := c.pubDate, c.imageUrl, c.bullets, c.highlighted;
      summaryFailed := c.summaryFailed;
      url := "";
    }

    /**
     * `commit_to_db`: the store becomes what Commit says, the result is its
     * url, and `url` takes that value (it keeps its old value on a failed
     * summary, when None, the "not committed" report, is returned).
     */
    method CommitToDb(db: Database, env: CommitEnv) returns (r: Option<string>)
      requires db.Valid() && newsCategory < |db.categories|
      modifies this, db
      ensures db.Valid()
      ensures db.State() == Commit(old(db.State()), Fields(), env).store
      ensures r == Commit(old(db.State()), Fields(), env).url
      ensures url == r.GetOr(old(url))
    {
      ghost var before := db.State();
      if !summaryFailed {
        var sourceId := db.LookupOrCreateSource(newsSourceName);
        var imagePath := Retrieve(imageUrl, env).path;
        var existing := FirstIndex(SourceUrls(db.summaries), sourceUrl);
        if existing.Some? {
          url := db.summaries[existing.value].url;
          r := Some(url);
          return;
        }
        db.AddSummary(SummaryRow(title, bullets, highlightedText, sourceId, sourceUrl,
                                 newsCategory, pubDate, imagePath, env.assignedUrl));
        url := env.assignedUrl;
        r := Some(url);
        CommitPreservesValid(before, Fields(), env);
      } else {
        r := None;
      }
    }
  }
}
