/**
 * The records the application passes between its services (types.ts).
 * Scores are JSON numbers and are kept as reals; the engagement counts are
 * integers produced by `Math.floor`.
 */
module Types {

  /** `YouTubeVideo`: the metadata record of one video. */
  datatype YouTubeVideo = YouTubeVideo(
    id: string,
    title: string,
    description: string,
    thumbnailUrl: string,
    tags: seq<string>,
    uploadDate: string,
    duration: string,
    viewCount: int,
    likeCount: int,
    commentCount: int,
    channelSubscribers: int)

  /** The `{ score, feedback }` sub-records of the analysis. */
  datatype ScoredFeedback = ScoredFeedback(score: real, feedback: string)

  /** `engagementAnalysis`: feedback without a score. */
  datatype Feedback = Feedback(feedback: string)

  datatype Suggestions = Suggestions(titles: seq<string>, description: string, thumbnail: string)

  /** `VideoAnalysis`: the structured report. */
  datatype VideoAnalysis = VideoAnalysis(
    titleAnalysis: ScoredFeedback,
    descriptionAnalysis: ScoredFeedback,
    thumbnailAnalysis: ScoredFeedback,
    engagementAnalysis: Feedback,
    viralityScore: real,
    whyViral: string,
    suggestions: Suggestions,
    predictedAudience: string,
    actionItems: seq<string>)

  /** `HistoricalAnalysis`: a report plus the `timestamp` it was stored with. */
  datatype HistoricalAnalysis = HistoricalAnalysis(analysis: VideoAnalysis, timestamp: string)
}
