/**
 * The database the crawler writes to, as single-writer tables: categories and
 * news sources are rows holding a name, summaries are rows keyed by their
 * source URL. A row's identity is its position in its table.
 */
module Store {
  import opened Wrappers
  import opened Entries

  /** A persisted `NewsSummary`; `source` and `category` are row ids. */
  datatype SummaryRow = SummaryRow(
    title: string,
    bullets: seq<string>,
    highlighted: seq<string>,
    source: nat,
    sourceUrl: string,
    category: nat,
    pubDate: Option<Timestamp>,
    imagePath: string,
    url: string)

  ghost predicate Distinct<T>(s: seq<T>)
  {
    forall i, j :: 0 <= i < j < |s| ==> s[i] != s[j]
  }

  function SourceUrls(rows: seq<SummaryRow>): (urls: seq<string>)
    ensures |urls| == |rows|
    ensures forall k :: 0 <= k < |rows| ==> urls[k] == rows[k].sourceUrl
  {
    seq(|rows|, k requires 0 <= k < |rows| => rows[k].sourceUrl)
  }

  /**
   * The tables. Valid is the store's invariant: category names, source names
   * and summary source URLs are each unique, and every summary refers to
   * existing rows.
   */
  datatype Store = Store(categories: seq<string>, sources: seq<string>, summaries: seq<SummaryRow>) {
    ghost predicate Valid()
    {
      && Distinct(categories)
      && Distinct(sources)
      && Distinct(SourceUrls(summaries))
      && forall k :: 0 <= k < |summaries| ==>
           summaries[k].source < |sources| && summaries[k].category < |categories|
    }
  }

  /** `query.filter_by(key=x).first()`: the first row whose key is x. */
  function FirstIndex<T(==)>(rows: seq<T>, x: T): (r: Option<nat>)
    ensures r.None? <==> x !in rows
    ensures r.Some? ==> r.value < |rows| && rows[r.value] == x
    ensures r.Some? ==> forall j :: 0 <= j < r.value ==> rows[j] != x
  {
    if rows == [] then None
    else if rows[0] == x then Some(0)
    else
      match FirstIndex(rows[1..], x)
      case None => None
      case Some(k) => Some(k + 1)
  }

  /** Rows appended after the first match do not change `.first()`. */
  lemma {:induction false} FirstIndexPrefix<T>(rows: seq<T>, more: seq<T>, x: T)
    requires x in rows
    ensures FirstIndex(rows + more, x) == FirstIndex(rows, x)
  {
    if rows[0] != x {
      assert (rows + more)[1..] == rows[1..] + more;
      FirstIndexPrefix(rows[1..], more, x);
    }
  }

  /** The canonical url of the stored summary with this source URL, if any. */
  function UrlFor(s: Store, sourceUrl: string): Option<string>
  {
    match FirstIndex(SourceUrls(s.summaries), sourceUrl)
    case Some(k) => Some(s.summaries[k].url)
    case None => None
  }

  /** The number of rows equal to x. */
  function Count<T(==)>(rows: seq<T>, x: T): nat
  {
    if rows == [] then 0 else (if rows[0] == x then 1 else 0) + Count(rows[1..], x)
  }

  lemma {:induction false} CountDistinct<T>(rows: seq<T>, x: T)
    requires Distinct(rows)
    ensures Count(rows, x) == if x in rows then 1 else 0
  {
    if rows != [] {
      assert Distinct(rows[1..]);
      CountDistinct(rows[1..], x);
    }
  }

  datatype Resolved = Resolved(rows: seq<string>, id: nat)

  /**
   * Lookup-or-create of a named entity: the first row with that name, or a new
   * row appended at the end when there is none.
   */
  function ResolveName(rows: seq<string>, name: string): (r: Resolved)
    ensures r.id < |r.rows| && r.rows[r.id] == name
    ensures name in rows ==> r.rows == rows
    ensures name !in rows ==> r.rows == rows + [name]
  {
    match FirstIndex(rows, name)
    case Some(k) => Resolved(rows, k)
    case None => Resolved(rows + [name], |rows|)
  }

  /** Lookup-or-create keeps names unique. */
  lemma ResolveKeepsDistinct(rows: seq<string>, name: string)
    requires Distinct(rows)
    ensures Distinct(ResolveName(rows, name).rows)
  {
  }

  /** After lookup-or-create exactly one row carries the name. */
  lemma ResolveLeavesOne(rows: seq<string>, name: string)
    requires Distinct(rows)
    ensures Count(ResolveName(rows, name).rows, name) == 1
  {
    ResolveKeepsDistinct(rows, name);
    CountDistinct(ResolveName(rows, name).rows, name);
  }

  /** A second lookup-or-create of the same name adds nothing and returns the same row. */
  lemma ResolveIdempotent(rows: seq<string>, name: string)
    ensures ResolveName(ResolveName(rows, name).rows, name) == ResolveName(rows, name)
  {
  }

  /** The in-memory database session. */
  class Database {
    var categories: seq<string>
    var sources: seq<string>
    var summaries: seq<SummaryRow>

    function State(): Store
      reads this
    {
      Store(categories, sources, summaries)
    }

    ghost predicate Valid()
      reads this
    {
      State().Valid()
    }

    constructor ()
      ensures State() == Store([], [], []) && Valid()
    {
      categories, sources, summaries := [], [], [];
    }

    /** `NewsCategory.query.filter_by(name=name).first()`, adding the row if absent. */
    method LookupOrCreateCategory(name: string) returns (id: nat)
      requires Valid()
      modifies this
      ensures Valid()
      ensures Resolved(categories, id) == ResolveName(old(categories), name)
      ensures sources == old(sources) && summaries == old(summaries)
    {
      var found := FirstIndex(categories, name);
      if found.Some? {
        id := found.value;
      } else {
        categories := categories + [name];
        id := |categories| - 1;
      }
      ResolveKeepsDistinct(old(categories), name);
    }

    /** `NewsSource.query.filter_by(name=name).first()`, adding the row if absent. */
    method LookupOrCreateSource(name: string) returns (id: nat)
      requires Valid()
      modifies this
      ensures Valid()
      ensures Resolved(sources, id) == ResolveName(old(sources), name)
      ensures categories == old(categories) && summaries == old(summaries)
    {
      var found := FirstIndex(sources, name);
      if found.Some? {
        id := found.value;
      } else {
        sources := sources + [name];
        id := |sources| - 1;
      }
      ResolveKeepsDistinct(old(sources), name);
    }

    /** `db.session.add(row)` followed by a commit, for a source URL not stored yet. */
    method AddSummary(row: SummaryRow)
      requires Valid()
      requires row.sourceUrl !in SourceUrls(summaries)
      requires row.source < |sources| && row.category < |categories|
      modifies this
      ensures Valid()
      ensures summaries == old(summaries) + [row]
      ensures categories == old(categories) && sources == old(sources)
    {
      summaries := summaries + [row];
      assert SourceUrls(summaries) == SourceUrls(old(summaries)) + [row.sourceUrl];
    }
  }
}
