/**
 * One parsed feed entry and the per-entry normalisation the crawler applies to
 * it before summarising: the video-title filter, the fragment strip of the link
 * and the choice of the biggest thumbnail.
 */
module Entries {
  import opened Wrappers
  import opened Text

  /** One `media_thumbnail` candidate of an entry. */
  datatype Thumbnail = Thumbnail(width: int, height: int, url: string)

  /** The feed's structured `published_parsed` time, kept as its raw fields. */
  datatype Timestamp = Timestamp(fields: seq<int>)

  /**
   * A feed entry: `media_thumbnail` that is absent or empty is the empty
   * sequence, and a `published_parsed` that is present but falsy is None.
   */
  datatype Entry = Entry(title: string, link: string, published: Option<Timestamp>, thumbnails: seq<Thumbnail>)

  /** The lower-cased title starts with "video:"; such entries are skipped. */
  predicate IsVideoTitle(title: string)
  {
    "video:" <= Lower(title)
  }

  /** The "dimension" of a thumbnail: the larger of its width and height. */
  function Dim(t: Thumbnail): (d: int)
    ensures d >= t.width && d >= t.height
    ensures d == t.width || d == t.height
  {
    if t.width > t.height then t.width else t.height
  }

  /** The running maximum that goes with a choice: 0 before anything is chosen. */
  function RunningMax(thumbs: seq<Thumbnail>, chosen: Option<nat>): int
    requires chosen.Some? ==> chosen.value < |thumbs|
  {
    match chosen
    case None => 0
    case Some(k) => Dim(thumbs[k])
  }

  /**
   * The choice after the first n candidates have been looked at: a candidate
   * replaces the current choice only if its dimension is strictly greater than
   * the running maximum.
   */
  function Pick(thumbs: seq<Thumbnail>, n: nat): (chosen: Option<nat>)
    requires n <= |thumbs|
    ensures chosen.Some? ==> chosen.value < n
  {
    if n == 0 then None
    else
      var prev := Pick(thumbs, n - 1);
      if Dim(thumbs[n - 1]) > RunningMax(thumbs, prev) then Some(n - 1) else prev
  }

  /** The index of the thumbnail the crawler keeps, if any. */
  function BestThumbnail(thumbs: seq<Thumbnail>): (chosen: Option<nat>)
    ensures chosen.Some? ==> chosen.value < |thumbs|
  {
    Pick(thumbs, |thumbs|)
  }

  /** The `image_url` of an entry: the kept thumbnail's url, or "" without one. */
  function ImageUrlOf(thumbs: seq<Thumbnail>): string
  {
    match BestThumbnail(thumbs)
    case Some(k) => thumbs[k].url
    case None => ""
  }

  /** What it means for index k to be the choice among the first n candidates. */
  ghost predicate IsEarliestMax(thumbs: seq<Thumbnail>, n: nat, k: nat)
    requires n <= |thumbs|
  {
    && k < n
    && Dim(thumbs[k]) > 0
    && (forall j :: 0 <= j < n ==> Dim(thumbs[j]) <= Dim(thumbs[k]))
    && (forall j :: 0 <= j < k ==> Dim(thumbs[j]) < Dim(thumbs[k]))
  }

  /**
   * Pick is an argmax with ties going to the earliest candidate, and nothing of
   * dimension 0 or less is ever chosen: no choice means every candidate has
   * dimension at most 0.
   */
  lemma {:induction false} PickIsEarliestMax(thumbs: seq<Thumbnail>, n: nat)
    requires n <= |thumbs|
    ensures Pick(thumbs, n).None? <==> forall j :: 0 <= j < n ==> Dim(thumbs[j]) <= 0
    ensures Pick(thumbs, n).Some? ==> IsEarliestMax(thumbs, n, Pick(thumbs, n).value)
  {
    if n > 0 {
      PickIsEarliestMax(thumbs, n - 1);
    }
  }

  /** The same, for the whole candidate list. */
  lemma BestThumbnailIsEarliestMax(thumbs: seq<Thumbnail>)
    ensures BestThumbnail(thumbs).None? <==> forall j :: 0 <= j < |thumbs| ==> Dim(thumbs[j]) <= 0
    ensures BestThumbnail(thumbs).Some? ==> IsEarliestMax(thumbs, |thumbs|, BestThumbnail(thumbs).value)
  {
    PickIsEarliestMax(thumbs, |thumbs|);
  }

  /** The earliest maximum is unique, so the properties above determine the choice. */
  lemma EarliestMaxIsUnique(thumbs: seq<Thumbnail>, n: nat, k1: nat, k2: nat)
    requires n <= |thumbs|
    requires IsEarliestMax(thumbs, n, k1) && IsEarliestMax(thumbs, n, k2)
    ensures k1 == k2
  {
  }

  /**
   * `image_url` is "" when no thumbnail has a positive dimension, and
   * otherwise the url of the earliest thumbnail of largest dimension.
   */
  lemma ImageUrlIsBiggest(thumbs: seq<Thumbnail>)
    ensures (forall j :: 0 <= j < |thumbs| ==> Dim(thumbs[j]) <= 0) ==> ImageUrlOf(thumbs) == ""
    ensures forall k :: 0 <= k < |thumbs| && IsEarliestMax(thumbs, |thumbs|, k) ==> ImageUrlOf(thumbs) == thumbs[k].url
  {
    BestThumbnailIsEarliestMax(thumbs);
    forall k | 0 <= k < |thumbs| && IsEarliestMax(thumbs, |thumbs|, k)
      ensures ImageUrlOf(thumbs) == thumbs[k].url
    {
      EarliestMaxIsUnique(thumbs, |thumbs|, k, BestThumbnail(thumbs).value);
    }
  }

  /**
   * The thumbnail loop of the crawler: it walks the candidates in order with a
   * running maximum that starts at 0.
   */
  method SelectThumbnail(thumbs: seq<Thumbnail>) returns (biggest: Option<nat>)
    ensures biggest == BestThumbnail(thumbs)
  {
    var thumbMaxDim := 0;
    biggest := None;
    for i := 0 to |thumbs|
      invariant biggest == Pick(thumbs, i)
      invariant thumbMaxDim == RunningMax(thumbs, biggest)
    {
      var width := thumbs[i].width;
      var height := thumbs[i].height;
      var thumbDim := if width > height then width else height;
      if thumbDim > thumbMaxDim {
        thumbMaxDim := thumbDim;
        biggest := Some(i);
      }
    }
  }

  /** Only the first six characters of a title decide whether it is a video. */
  lemma VideoPrefixDecides(title: string)
    ensures IsVideoTitle(title) <==> |title| >= 6 && Lower(title[..6]) == "video:"
  {
    if |title| >= 6 {
      assert Lower(title)[..6] == Lower(title[..6]);
    }
  }

  /** The filter ignores case, and a title that merely starts with "Video" stays. */
  lemma VideoTitleExamples()
    ensures IsVideoTitle("Video: Foo") && IsVideoTitle("video: Foo") && IsVideoTitle("VIDEO: Foo")
    ensures !IsVideoTitle("Videography Today")
  {
    VideoPrefixDecides("Video: Foo");
    VideoPrefixDecides("video: Foo");
    VideoPrefixDecides("VIDEO: Foo");
    VideoPrefixDecides("Videography Today");
    assert Lower("Videography Today")[5] == 'g';
  }
}
