/**
 * `fetchVideoDetails` (services/youtubeService.ts): the title comes from an
 * oEmbed lookup whose outcome is an input here; every other field is fixed
 * text or a random integer in a documented range. Each random count is given
 * as the value `Math.floor(Math.random() * N)` produced, so it lies in [0, N).
 */
module YoutubeService {
  import opened Types

  /** How the oEmbed request through the proxy ended. An unreadable JSON body is a `Threw`. */
  datatype OEmbedOutcome =
    | OkWithTitle(title: string)
    | NotOk(status: nat)
    | Threw

  /** The four `Math.floor(Math.random() * N)` draws, before their offsets are added. */
  datatype RandomDraws = RandomDraws(views: nat, likes: nat, comments: nat, subscribers: nat)

  predicate ValidDraws(d: RandomDraws)
  {
    d.views < 5000000 && d.likes < 200000 && d.comments < 15000 && d.subscribers < 2000000
  }

  const LookupFailedTitle: string := "Sample Video Title (oEmbed fetch failed)"
  const LookupErrorTitle: string := "Sample Video Title (Error in oEmbed fetch)"
  const FixedTags: seq<string> := ["video analysis", "sample tag", "mock data", "seo"]
  const FixedUploadDate: string := "2023-10-26T14:00:00Z"
  const FixedDuration: string := "08:15"

  const DescriptionHead: string := "This is a sample description for the video titled \""
  const DescriptionTail: string :=
    "\". In a real application with a YouTube API key, this would be the video's actual description. "
    + "It would detail the content, provide links to social media, and include relevant hashtags to improve discoverability.\n"
    + "    \nTimestamps:\n0:00 - Intro\n1:30 - Key Point 1\n3:45 - Demonstration\n5:20 - Common Mistakes\n"
    + "7:00 - Conclusion & Call to Action\n    \n#sample #mockdata #youtubeanalysis"

  const ThumbnailHead: string := "https://i.ytimg.com/vi/"
  const ThumbnailTail: string := "/maxresdefault.jpg"

  function ThumbnailUrl(videoId: string): string
  {
    ThumbnailHead + videoId + ThumbnailTail
  }

  function Description(title: string): string
  {
    DescriptionHead + title + DescriptionTail
  }

  /**
   * The metadata record. The lookup never makes it fail: a non-ok status and
   * an exception each give their own placeholder title.
   */
  function FetchVideoDetails(videoId: string, lookup: OEmbedOutcome, draws: RandomDraws): (v: YouTubeVideo)
    requires ValidDraws(draws)
    ensures v.id == videoId
    ensures lookup.OkWithTitle? ==> v.title == lookup.title
    ensures lookup.NotOk? ==> v.title == LookupFailedTitle
    ensures lookup.Threw? ==> v.title == LookupErrorTitle
    ensures v.description == DescriptionHead + v.title + DescriptionTail
    ensures v.thumbnailUrl == ThumbnailHead + videoId + ThumbnailTail
    ensures v.tags == FixedTags && v.uploadDate == FixedUploadDate && v.duration == FixedDuration
    ensures 10000 <= v.viewCount < 5010000
    ensures 500 <= v.likeCount < 200500
    ensures 100 <= v.commentCount < 15100
    ensures 50000 <= v.channelSubscribers < 2050000
  {
    var videoTitle :=
      match lookup
      case OkWithTitle(title) => title
      case NotOk(_) => LookupFailedTitle
      case Threw => LookupErrorTitle;
    YouTubeVideo(
      videoId, videoTitle, Description(videoTitle), ThumbnailUrl(videoId), FixedTags,
      FixedUploadDate, FixedDuration,
      draws.views + 10000, draws.likes + 500, draws.comments + 100, draws.subscribers + 50000)
  }

  lemma ConcatInjectiveMiddle(head: string, tail: string, a: string, b: string)
    requires head + a + tail == head + b + tail
    ensures a == b
  {
    var s := head + a + tail;
    assert |a| == |b|;
    assert a == s[|head|..|head| + |a|];
    assert b == (head + b + tail)[|head|..|head| + |b|];
  }

  /** The thumbnail URL determines the id, so two videos never share one. */
  lemma ThumbnailUrlDeterminesId(a: string, b: string, lookupA: OEmbedOutcome, lookupB: OEmbedOutcome, draws: RandomDraws)
    requires ValidDraws(draws)
    requires FetchVideoDetails(a, lookupA, draws).thumbnailUrl == FetchVideoDetails(b, lookupB, draws).thumbnailUrl
    ensures a == b
  {
    ConcatInjectiveMiddle(ThumbnailHead, ThumbnailTail, a, b);
  }

  /** The description embeds the resolved title, which can be read back from it. */
  lemma DescriptionDeterminesTitle(videoId: string, lookupA: OEmbedOutcome, lookupB: OEmbedOutcome, draws: RandomDraws)
    requires ValidDraws(draws)
    requires FetchVideoDetails(videoId, lookupA, draws).description == FetchVideoDetails(videoId, lookupB, draws).description
    ensures FetchVideoDetails(videoId, lookupA, draws).title == FetchVideoDetails(videoId, lookupB, draws).title
  {
    ConcatInjectiveMiddle(DescriptionHead, DescriptionTail,
      FetchVideoDetails(videoId, lookupA, draws).title, FetchVideoDetails(videoId, lookupB, draws).title);
  }

  /** The two placeholder titles are distinct from each other, so the record tells failure and error apart. */
  lemma PlaceholderTitlesDiffer()
    ensures LookupFailedTitle != LookupErrorTitle
  {
    assert LookupFailedTitle[20] != LookupErrorTitle[20];
  }
}
