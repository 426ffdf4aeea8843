# tldr news crawler — a Dafny model

The project models the news crawler of the tldr summary app
(`tldrapp/processing/newsbot.py`). It has two parts:

- `NewsBot` picks its feed list when it is created, and looks up (or creates) its category.
- `crawl(commit)` reads every feed in order and skips video entries. For each remaining entry it:
  - strips the fragment from the link;
  - keeps the largest thumbnail;
  - asks the summarizer for bullets;
  - builds an `Article`, and when asked, stores it with `Article.commit_to_db`.

`commit_to_db` does the following:

- It looks up (or creates) the news source.
- It downloads an image when the image has a `.png`, `.jpg`, `.jpeg` or `.gif` name.
- It inserts a summary unless one with the same source URL already exists.
- It returns the summary's canonical `url` and stores it on the Article.

Layout, one module per file:

- `wrappers.dfy` (`Wrappers`): `Option`.
- `text.dfy` (`Text`): ASCII `lower()`, `endswith`, `split('#')[0]` and `os.path.split(...)[-1]`.
- `entries.dfy` (`Entries`): feed entries and thumbnails, the video test, and the choice of the largest thumbnail. That choice is a loop (`SelectThumbnail`) proved against a recursive specification (`BestThumbnail`).
- `store.dfy` (`Store`): the tables `NewsCategory`, `NewsSource` and `NewsSummary`.
  - They are modelled as sequences, and a row's id is its index.
  - `query.filter_by(...).first()` is `FirstIndex`.
  - The "look up or create" pattern is `ResolveName`.
  - The database is the class `Database`, whose methods update the tables in place.
- `articles.dfy` (`Articles`): `Article` as a class with a mutable `url`.
  - `commit_to_db` is the method `Article.CommitToDb`, proved against the value-level function `Commit`.
  - Image handling is `Retrieve`.
- `newsbot.dfy` (`Newsbot`): `NewsBot` as a class with a mutable `articles` list.
  - `crawl` is the method `NewsBot.Crawl`. It is proved against two functions.
  - `CrawlCandidates` gives which Articles, in which order.
  - `CrawlEffect` gives what the database holds afterwards and which `url` each Article gets.

The model takes the outside world as parameters:

- `fetch` maps a feed URL to its entries.
- `summarize` maps (url, algorithm, length) to the summarizer's outcome. The summarizer either raises, or returns bullets, highlighted text and an error flag.
- `envs(k)` gives what the k-th commit of a crawl sees:
  - the Hashids token of the current time;
  - the `%Y/%m/` date folder;
  - whether the image download succeeds;
  - the canonical `url` a new summary is assigned.
- `discovered` is what `get_feed_urls(url)` returned.

The central properties:

- Crawl order and filtering:
  - Feeds are crawled in list order, and entries in feed order (`CrawlCandidatesAppend`, `FeedCandidatesAppend`).
  - No Article has a video title or a `#` in its source URL (`CrawlCandidatesCrawled`).
- Thumbnail choice:
  - The chosen thumbnail is the earliest one of largest `max(width, height)`.
  - Nothing of dimension 0 or less is ever chosen (`PickIsEarliestMax`, `SelectThumbnail`).
- Image download:
  - An image is downloaded exactly when its lowercased name ends with one of the four formats (`Retrieve`).
  - The saved file name keeps that extension (`EligibleFilenameKeepsExtension`).
- Storing summaries:
  - Committing the same source URL twice leaves one record, and both calls return the same url (`CommitTwiceOneRecord`).
  - Categories and sources are never duplicated (`ResolveLeavesOne`, `CommitPreservesValid`).
- Failed summaries: an Article whose summary failed is never stored and keeps url "". Every other Article ends with the url stored under its source URL (`CommitAllUrls`).
- The three-entry example:
  - The feed has a video, an entry whose summary reports an error, and a good entry with three bullets and a downloadable thumbnail.
  - The crawl yields two Articles and stores exactly one new record, with three bullets and an image path (`ThreeEntryScenario`).
  - The code skips the video before it builds any Article (newsbot.py lines 65-67), so only two Articles are returned.

## Model

| member | source | states |
|---|---|---|
| Text.StripFragment | tldrapp/processing/newsbot.py:69 | The result has no `#`. It is a prefix of the link, ending just before the first `#`. It is the whole link when the link has no `#`. |
| Text.StripFragmentSplit | tldrapp/processing/newsbot.py:69 | For any `keep` without `#` and any fragment, `keep + "#" + fragment` strips to `keep`. |
| Text.StripFragmentIdempotent | tldrapp/processing/newsbot.py:69 | Stripping twice is stripping once. |
| Text.StripFragmentExample | tldrapp/processing/newsbot.py:69 | `x.com/a?b#top` strips to `x.com/a?b`. |
| Text.Basename | tldrapp/processing/newsbot.py:157 | The result is the suffix of the path after its last `/`, and has no `/`. It is the whole path when there is no `/`. |
| Entries.VideoPrefixDecides | tldrapp/processing/newsbot.py:65-67 | A title is skipped as a video exactly when its first six characters, lowercased, are `video:`. |
| Entries.VideoTitleExamples | tldrapp/processing/newsbot.py:65-67 | "Video: Foo", "video: Foo" and "VIDEO: Foo" are skipped. "Videography Today" is not. |
| Entries.Dim | tldrapp/processing/newsbot.py:76-78 | A thumbnail's dimension is the larger of its width and height. |
| Entries.PickIsEarliestMax | tldrapp/processing/newsbot.py:72-83 | Among the first n thumbnails, nothing is chosen exactly when every dimension is at most 0. Otherwise the choice has positive dimension, is at least every other, and is strictly greater than every earlier one. |
| Entries.BestThumbnailIsEarliestMax | tldrapp/processing/newsbot.py:72-83 | The same property, for the entry's whole thumbnail list. |
| Entries.EarliestMaxIsUnique | tldrapp/processing/newsbot.py:72-83 | At most one index is the earliest maximum, so the property above fixes the choice. |
| Entries.ImageUrlIsBiggest | tldrapp/processing/newsbot.py:83 | `image_url` is "" when no thumbnail has a positive dimension. Otherwise it is the url of the earliest largest thumbnail. |
| Entries.SelectThumbnail | tldrapp/processing/newsbot.py:72-83 | The loop over the thumbnails returns exactly the earliest-maximum choice. |
| Store.FirstIndex | tldrapp/processing/newsbot.py:176 | `.first()` finds nothing exactly when no row matches. Otherwise it returns the lowest index that matches. |
| Store.FirstIndexPrefix | tldrapp/processing/newsbot.py:176 | Appending rows does not change which row `.first()` returns for a value already present. |
| Store.CountDistinct | tldrapp/processing/newsbot.py:34-39 | In a duplicate-free table, a name occurs once when present and never otherwise. |
| Store.ResolveName | tldrapp/processing/newsbot.py:34-39 | Look-up-or-create returns an id whose row holds the name. The table is unchanged when the name is present, and gains exactly that name at the end otherwise. |
| Store.ResolveKeepsDistinct | tldrapp/processing/newsbot.py:34-39 | Look-up-or-create keeps a duplicate-free table duplicate-free. |
| Store.ResolveLeavesOne | tldrapp/processing/newsbot.py:34-39 | After look-up-or-create, the name occurs exactly once. |
| Store.ResolveIdempotent | tldrapp/processing/newsbot.py:142-150 | Resolving the same name a second time changes nothing and returns the same id. |
| Store.Database.LookupOrCreateCategory | tldrapp/processing/newsbot.py:34-39 | Updates the category table in place, as `ResolveName` says. The other tables are unchanged and the database invariant holds. |
| Store.Database.LookupOrCreateSource | tldrapp/processing/newsbot.py:142-150 | Updates the news-source table in place, as `ResolveName` says. The other tables are unchanged and the database invariant holds. |
| Store.Database.AddSummary | tldrapp/processing/newsbot.py:183-194 | Appends one summary row whose source URL is new, and keeps the invariant. |
| Articles.Retrieve | tldrapp/processing/newsbot.py:153-173 | A download of the image into the date folder, under `<token>_<basename>`, is planned exactly when the lowercased url ends with an allowed format. The image path is `/static/images/news/<folder><filename>` when that download succeeds. It is "" when no download is planned or the download fails with the `IOError` that `commit_to_db` catches. |
| Articles.EligibleFilenameKeepsExtension | tldrapp/processing/newsbot.py:156-158 | The saved file name ends with the same allowed extension as the image url. |
| Articles.EligibleSecondToLast | tldrapp/processing/newsbot.py:153-156 | An eligible url is at least two characters long, and its second-to-last character, lowercased, is one of `n`, `p`, `e`, `i`. |
| Articles.SvgIsNeverDownloaded | tldrapp/processing/newsbot.py:153-173 | Every image url whose lowercased form ends in `.svg` is not downloaded and gives an empty image path. |
| Articles.Commit | tldrapp/processing/newsbot.py:139-201 | A failed summary changes nothing and returns nothing. Otherwise the source name and the source URL are stored afterwards, and a url is returned. Old summaries are kept as a prefix, at most one row is added, and categories are untouched. |
| Articles.CommitPreservesValid | tldrapp/processing/newsbot.py:139-198 | A commit keeps categories, sources and source URLs duplicate-free, and every foreign key in range. |
| Articles.CommitDuplicate | tldrapp/processing/newsbot.py:175-180 | When a row with the same source URL exists, nothing is inserted, and that row's url is returned. |
| Articles.CommitInserts | tldrapp/processing/newsbot.py:182-198 | Otherwise exactly one row is appended. It holds the title, bullets, highlighted text, resolved source id, source URL, category, date, image path and assigned url, and that url is returned. |
| Articles.CommitTwiceOneRecord | tldrapp/processing/newsbot.py:175-198 | Committing two Articles with the same source URL leaves one record, and the second call returns the first call's url. |
| Articles.CommitUrlIsStored | tldrapp/processing/newsbot.py:175-198 | The url a commit returns is the url stored under the Article's source URL. |
| Articles.CommitKeepsStoredUrls | tldrapp/processing/newsbot.py:175-198 | A commit never changes the url stored under a source URL that was already present. |
| Articles.Article.constructor | tldrapp/processing/newsbot.py:117-137 | An Article holds the given fields and starts with url "". |
| Articles.Article.CommitToDb | tldrapp/processing/newsbot.py:139-201 | Updates the database in place, in source order: the source, then the image, then the summary. The new state is what `Commit` gives and the invariant holds. It returns `Commit`'s url and sets `self.url` to it, leaving `url` unchanged when the summary failed. |
| Newsbot.FeedUrls | tldrapp/processing/newsbot.py:21-25 | The feed list is never empty. It is the discovered feeds, or the URL itself when none were discovered. |
| Newsbot.NameOr | tldrapp/processing/newsbot.py:27-31 | A missing or empty setting becomes its default: "None" for the site name, "Uncategorized" for the category. A non-empty default gives a non-empty name. |
| Newsbot.NewsBot.constructor | tldrapp/processing/newsbot.py:20-44 | Sets the feed list and site name as above, and starts with no articles. The category id is the look-up-or-create of the category name; no other table changes. |
| Newsbot.EntryCandidate | tldrapp/processing/newsbot.py:62-105 | An entry yields no Article exactly when its title is a video or the summarizer raises on its fragment-free URL. Otherwise the Article carries the title, stripped URL, date, chosen thumbnail url, bot site and category, and the summarizer's bullets, highlighted text and error flag. |
| Newsbot.FeedCandidatesAppend | tldrapp/processing/newsbot.py:62-110 | A feed's entries become Articles in entry order. |
| Newsbot.CrawlCandidatesAppend | tldrapp/processing/newsbot.py:53-112 | Feeds are crawled in list order: the Articles of `f + g` are those of `f`, then those of `g`. |
| Newsbot.FeedCandidatesCrawled | tldrapp/processing/newsbot.py:62-105 | Every Article of a feed has a non-video title, no `#` in its source URL, and the bot's site and category. |
| Newsbot.CrawlCandidatesCrawled | tldrapp/processing/newsbot.py:53-112 | The same, for every Article of a crawl. |
| Newsbot.CommitAll | tldrapp/processing/newsbot.py:107-110 | Committing a run gives one url per Article and never touches the categories. |
| Newsbot.CrawlEffect | tldrapp/processing/newsbot.py:107-110 | A crawl's effect gives one url per Article and never touches the categories. |
| Newsbot.CommitAllPreservesValid | tldrapp/processing/newsbot.py:107-108 | Committing a run of Articles of valid categories keeps the database invariant. |
| Newsbot.CommitAllUrls | tldrapp/processing/newsbot.py:107-110 | After committing a run, an Article whose summary failed has url "". Every other Article's url is the one stored under its source URL at the end. |
| Newsbot.NewsBot.Crawl | tldrapp/processing/newsbot.py:53-112 | Returns the bot's articles. The old ones are kept as a prefix, and the new ones carry exactly the `CrawlCandidates` of the feeds, in order. The database ends in the state given by `CrawlEffect`, which is unchanged without `commit`, and the invariant holds. Each new Article's url is the one `CrawlEffect` gives. |
| Newsbot.NewsBot.CrawlFeed | tldrapp/processing/newsbot.py:62-110 | The entry loop appends exactly one feed's `FeedCandidates`, and keeps the database in step with `CrawlEffect`. |
| Newsbot.NewsBot.CrawlEntry | tldrapp/processing/newsbot.py:63-110 | One entry appends exactly the Article `EntryCandidate` gives, or none, and keeps the database in step. |
| Newsbot.NewsBot.AddArticle | tldrapp/processing/newsbot.py:107-110 | Commits when asked, then appends the Article, extending the crawl's effect by one commit. |
| Newsbot.ScenarioCrawl | tldrapp/processing/newsbot.py:62-110 | A video, then two summarised entries, give exactly those two Articles, in order. |
| Newsbot.ScenarioCommit | tldrapp/processing/newsbot.py:139-198 | Committing a failed Article and then a new one appends exactly the new one's row. The urls are "" and the assigned url. |
| Newsbot.ThreeEntryScenario | tldrapp/processing/newsbot.py:53-112 | The three-entry example: two Articles, the first failed. One new record is stored, with three bullets and a non-empty image path. |

## Left out

- `get_feed_urls` (lines 46-51) fetches the page and looks for RSS links, which is network and HTML parsing. Its result is the constructor's `discovered` argument.
- `feedparser.parse` is network and parsing. The model takes each feed's entries as the `fetch` parameter. The `print` of the feed title and of the log messages is not modelled.
- `mktime` and `datetime.fromtimestamp` are not modelled. The parsed publication time is kept as the opaque `Timestamp`.
- The summarizer (`tldrapp/processing/summarizer.py`) is not part of this model. The `summarize` parameter gives its outcome: it raises, or it returns bullets, highlighted text and an error flag. Each call on the same input is taken to give the same outcome.
- `Hashids().encode(int(time()))`, `datetime.now().strftime('%Y/%m/')`, the directory creation, whether `urllib.urlretrieve` raises `IOError` and the url a new `NewsSummary` gets are not modelled. They come from `CommitEnv` as the commit's token, date folder, download success and assigned url.
- `url_for('static', ...)` is taken to give `/static/` plus the file name, with the application mounted at the root.
- The `NewsSummary`, `NewsSource` and `NewsCategory` models (the `tldrapp/models` package) are not part of this model. Their tables are sequences indexed by id, and the session's add and commit are one in-place update with no failure and no concurrent writers.
- `lower()` is ASCII-only here, so non-ASCII case folding is not modelled.
- Entries.Thumbnail: width and height are integers. Thumbnail data holding strings, and the comparisons Python would then make, are not modelled.
- A thumbnail without `width`, `height` or `url` raises `KeyError` (lines 76-77, 83) and ends the crawl. This is not modelled: every thumbnail has these keys. A missing or empty `media_thumbnail` is the empty sequence.
- A feed without `feed.title` makes the `print` at line 57 raise, before the empty-entries test at line 59, and ends the whole crawl. This is not modelled: every feed is taken to have a title.
- An entry without a `title`, `link` or `published_parsed` attribute raises at lines 63, 69 or 70 and ends the crawl. This is not modelled: every entry has them. The model's `None` publication time stands for a `published_parsed` that is present but falsy.
- Only an `IOError` from `urllib.urlretrieve` gives an empty image path (lines 167-171). Any other exception from the download, and any exception from `check_create_dir` (line 164) or `url_for` (line 166), escapes `commit_to_db`, ends the crawl, and leaves behind a `NewsSource` row already committed at lines 149-150. This is not modelled: in the model `downloadOk` is false only for the caught failure, and the directory creation and `url_for` always succeed.
- Newsbot.NewsBot.Crawl: no contract says the new Articles are fresh objects. That is true of the code; it is left unstated to keep the proof small.
- Newsbot.NewsBot.CrawlFeed, Newsbot.NewsBot.CrawlEntry and Newsbot.NewsBot.AddArticle are pieces of `crawl`'s loop body. They are split out so that each proof stays small.
- Nothing in the code guarantees that stored bullets are non-empty. That depends on the summarizer, so the model promises it only where the summarizer's outcome does (`ThreeEntryScenario`).
