/**
 * The page component (App.tsx): the thumbnail helper `getBase64FromUrl`, and
 * the analyse workflow `handleAnalyzeClick` over the six pieces of page state.
 * Every stage that talks to the outside world is given by its outcome: the
 * oEmbed lookup and the random draws (metadata), the proxy fetch and the
 * file reader (thumbnail), the Gemini call, the clock and the storage write.
 * The awaits run one after another, so a run is a sequence of steps.
 */
module App {
  import opened Wrappers
  import opened JsText
  import opened Types
  import opened VideoId
  import YoutubeService
  import GeminiService
  import HistoryService

  // ---------------------------------------------------------------------------
  // getBase64FromUrl
  // ---------------------------------------------------------------------------

  /** A value a rejected promise carries: an `Error` with its message, or anything else. */
  datatype Thrown = ErrorWithMessage(message: string) | NonErrorValue

  /** How the thumbnail download through the proxy and its reading as a data URL ended. */
  datatype ThumbnailFetch =
    | ProxyThrew(thrown: Thrown)  // `fetch` or `response.blob()` rejected
    | ProxyNotOk(status: nat)     // the proxy answered with a non-2xx status
    | ReadFailed                  // `reader.onerror`: rejects with the progress event, not an Error
    | ReadNonString               // `reader.result` was not a string
    | DataUrl(text: string)       // `reader.result`, the data URL

  const ReadNonStringMessage: string := "FileReader did not return a string."
  const StatusMessageHead: string := "Failed to fetch thumbnail image via proxy. Status: "
  const StatusMessageTail: string := ". Please try again."

  /** The message thrown for a non-ok proxy response. */
  function StatusMessage(status: nat): string
  {
    StatusMessageHead + DecimalString(status) + StatusMessageTail
  }

  /**
   * `dataUrl.split(',')[1]`: the text between the first and the second comma
   * (or the end), and `undefined` (None) when there is no comma at all.
   */
  function Base64Payload(dataUrl: string): (r: Option<string>)
    ensures r.None? <==> ',' !in dataUrl
    ensures r.Some? ==> ',' !in r.value
    ensures r.Some? ==>
      var i := CharFrom(dataUrl, ',', 0);
      var j := i + 1 + |r.value|;
      && i < |dataUrl| && dataUrl[i] == ',' && ',' !in dataUrl[..i]
      && j <= |dataUrl| && dataUrl[i + 1..j] == r.value
      && (j == |dataUrl| || dataUrl[j] == ',')
  {
    var i := CharFrom(dataUrl, ',', 0);
    if i == |dataUrl| then None
    else
      var j := CharFrom(dataUrl, ',', i + 1);
      Some(dataUrl[i + 1..j])
  }

  /**
   * What `getBase64FromUrl` resolves to (`Ok`, possibly with `undefined`) or
   * rejects with (`Err`).
   */
  function ThumbnailBase64(outcome: ThumbnailFetch): (r: Result<Option<string>, Thrown>)
    ensures r.Ok? <==> outcome.DataUrl?
    ensures outcome.DataUrl? ==> r.value == Base64Payload(outcome.text)
    ensures outcome.ProxyNotOk? ==> r.error == ErrorWithMessage(StatusMessage(outcome.status))
    ensures outcome.ProxyThrew? ==> r.error == outcome.thrown
    ensures outcome.ReadNonString? ==> r.error == ErrorWithMessage(ReadNonStringMessage)
    ensures outcome.ReadFailed? ==> r.error == NonErrorValue
  {
    match outcome
    case ProxyThrew(t) => Err(t)
    case ProxyNotOk(status) => Err(ErrorWithMessage(StatusMessage(status)))
    case ReadFailed => Err(NonErrorValue)
    case ReadNonString => Err(ErrorWithMessage(ReadNonStringMessage))
    case DataUrl(text) => Ok(Base64Payload(text))
  }

  /** A `data:<mime>;base64,<body>` URL gives back its body, when neither part has a comma. */
  lemma DataUrlRoundTrip(mime: string, body: string)
    requires ',' !in mime && ',' !in body
    ensures Base64Payload("data:" + mime + ";base64," + body) == Some(body)
  {
    var head := "data:" + mime + ";base64";
    var s := "data:" + mime + ";base64," + body;
    assert s == head + [','] + body;
    assert ',' !in head by {
      assert head == "data:" + mime + ";base64";
      forall i | 0 <= i < |head|
        ensures head[i] != ','
      {
        if i < 5 { assert head[i] == "data:"[i]; }
        else if i < 5 + |mime| { assert head[i] == mime[i - 5]; }
        else { assert head[i] == ";base64"[i - 5 - |mime|]; }
      }
    }
    PayloadAfterFirstComma(head, body, "");
    assert s == head + [','] + body + "";
  }

  /** The payload of `head , body rest` is `body`, when `rest` is empty or starts a new comma field. */
  lemma PayloadAfterFirstComma(head: string, body: string, rest: string)
    requires ',' !in head && ',' !in body
    requires rest == [] || rest[0] == ','
    ensures Base64Payload(head + [','] + body + rest) == Some(body)
  {
    var s := head + [','] + body + rest;
    forall i | 0 <= i < |head|
      ensures s[i] != ','
    {
      assert s[i] == head[i];
    }
    assert s[|head|] == ',';
    assert CharFrom(s, ',', 0) == |head|;
    forall i | |head| + 1 <= i < |head| + 1 + |body|
      ensures s[i] != ','
    {
      assert s[i] == body[i - |head| - 1];
    }
    if rest != [] {
      assert s[|head| + 1 + |body|] == rest[0];
    }
    assert CharFrom(s, ',', |head| + 1) == |head| + 1 + |body|;
    assert s[|head| + 1..|head| + 1 + |body|] == body;
  }

  /** The thrown message names the proxy's status, and different statuses give different messages. */
  lemma StatusMessageNamesStatus(a: nat, b: nat)
    ensures StatusMessage(a) == StatusMessage(b) ==> a == b
    ensures DecimalValue(StatusMessage(a)[|StatusMessageHead|..|StatusMessage(a)| - |StatusMessageTail|]) == a
  {
    var da := DecimalString(a);
    assert StatusMessage(a)[|StatusMessageHead|..|StatusMessage(a)| - |StatusMessageTail|] == da;
    DecimalRoundTrip(a);
    if StatusMessage(a) == StatusMessage(b) {
      var db := DecimalString(b);
      assert StatusMessage(b)[|StatusMessageHead|..|StatusMessage(b)| - |StatusMessageTail|] == db;
      DecimalStringInjective(a, b);
    }
  }

  // ---------------------------------------------------------------------------
  // handleAnalyzeClick
  // ---------------------------------------------------------------------------

  const InvalidUrlMessage: string := "Invalid YouTube URL. Please enter a valid video link."
  const StageErrorHead: string := "An error occurred during analysis. Please check the console or try again. Details: "
  const UnknownErrorText: string := "Unknown error"

  /** `err instanceof Error ? err.message : 'Unknown error'` */
  function ErrorDetails(t: Thrown): string
  {
    match t
    case ErrorWithMessage(m) => m
    case NonErrorValue => UnknownErrorText
  }

  /** The outcomes of the stages one run goes through. */
  datatype Stages = Stages(
    lookup: YoutubeService.OEmbedOutcome,
    draws: YoutubeService.RandomDraws,
    thumbnail: ThumbnailFetch,
    gemini: GeminiService.GeminiOutcome,
    timestamp: string,
    saveSucceeds: bool)

  /** The six state fields, less the URL. */
  datatype PageView = PageView(
    videoDetails: Option<YouTubeVideo>,
    selectedAnalysis: Option<HistoricalAnalysis>,
    historicalAnalyses: seq<HistoricalAnalysis>,
    isLoading: bool,
    error: Option<string>)

  datatype ClickResult = ClickResult(view: PageView, stored: HistoryService.Stored)

  /** The results panel renders only with details, a selected report and no run in progress. */
  predicate ResultsShown(v: PageView)
  {
    v.videoDetails.Some? && v.selectedAnalysis.Some? && !v.isLoading
  }

  /** The first stage of a run that throws, if any: the thumbnail helper, then the Gemini call. */
  function StageFailure(st: Stages): (r: Option<Thrown>)
    ensures r.None? <==> ThumbnailBase64(st.thumbnail).Ok? && GeminiService.Analysis(st.gemini).Ok?
    ensures ThumbnailBase64(st.thumbnail).Err? ==> r == Some(ThumbnailBase64(st.thumbnail).error)
    ensures ThumbnailBase64(st.thumbnail).Ok? && GeminiService.Analysis(st.gemini).Err? ==>
      r == Some(ErrorWithMessage(GeminiService.AnalysisFailedMessage))
  {
    match ThumbnailBase64(st.thumbnail)
    case Err(e) => Some(e)
    case Ok(_) =>
      match GeminiService.Analysis(st.gemini)
      case Err(m) => Some(ErrorWithMessage(m))
      case Ok(_) => None
  }

  /**
   * One run of `handleAnalyzeClick` on `url`, from a page whose loading flag
   * is `isLoading0`, over storage `stored`. Nothing else of the page before
   * the run matters: the run first clears error, details, selection and list.
   */
  function ClickOutcome(isLoading0: bool, url: string, st: Stages, stored: HistoryService.Stored): (r: ClickResult)
    requires YoutubeService.ValidDraws(st.draws)
    ensures ExtractVideoId(url).None? ==>
      r == ClickResult(PageView(None, None, [], isLoading0, Some(InvalidUrlMessage)), stored)
    ensures ExtractVideoId(url).Some? ==>
      var id := ExtractVideoId(url).value;
      && !r.view.isLoading
      && r.view.videoDetails == Some(YoutubeService.FetchVideoDetails(id, st.lookup, st.draws))
    ensures ExtractVideoId(url).Some? && StageFailure(st).Some? ==>
      && r.view.selectedAnalysis.None?
      && r.view.historicalAnalyses == []
      && r.view.error == Some(StageErrorHead + ErrorDetails(StageFailure(st).value))
      && r.stored == stored
    ensures ExtractVideoId(url).Some? && StageFailure(st).None? ==>
      var id := ExtractVideoId(url).value;
      var list := HistoryService.HistoryForVideo(r.stored, id);
      && r.stored == HistoryService.AddedStore(stored, id, GeminiService.Analysis(st.gemini).value, st.timestamp, st.saveSucceeds)
      && r.view.historicalAnalyses == list
      && (list != [] ==> r.view.selectedAnalysis == Some(list[0]))
      && (list == [] ==> r.view.selectedAnalysis.None?)
      && r.view.error.None?
  {
    match ExtractVideoId(url)
    case None => ClickResult(PageView(None, None, [], isLoading0, Some(InvalidUrlMessage)), stored)
    case Some(id) =>
      var details := YoutubeService.FetchVideoDetails(id, st.lookup, st.draws);
      match StageFailure(st)
      case Some(e) =>
        ClickResult(PageView(Some(details), None, [], false, Some(StageErrorHead + ErrorDetails(e))), stored)
      case None =>
        var analysis := GeminiService.Analysis(st.gemini).value;
        var stored' := HistoryService.AddedStore(stored, id, analysis, st.timestamp, st.saveSucceeds);
        var list := HistoryService.HistoryForVideo(stored', id);
        var selected := if |list| > 0 then Some(list[0]) else None;
        ClickResult(PageView(Some(details), selected, list, false, None), stored')
  }

  /**
   * The results panel shows after a run exactly when the URL held an id, no
   * stage threw, and the id's stored list is not empty afterwards.
   */
  lemma ResultsShownIff(isLoading0: bool, url: string, st: Stages, stored: HistoryService.Stored)
    requires YoutubeService.ValidDraws(st.draws)
    ensures var r := ClickOutcome(isLoading0, url, st, stored);
      ResultsShown(r.view) <==>
        && ExtractVideoId(url).Some?
        && StageFailure(st).None?
        && HistoryService.HistoryForVideo(r.stored, ExtractVideoId(url).value) != []
  {
  }

  /**
   * When every stage succeeds and the write lands, the page shows the new
   * report, stamped with the run's time, at the head of the id's list.
   */
  lemma SavedRunSelectsNewReport(isLoading0: bool, url: string, st: Stages, stored: HistoryService.Stored)
    requires YoutubeService.ValidDraws(st.draws)
    requires ExtractVideoId(url).Some? && StageFailure(st).None? && st.saveSucceeds
    ensures var r := ClickOutcome(isLoading0, url, st, stored);
      var id := ExtractVideoId(url).value;
      var entry := HistoricalAnalysis(GeminiService.Analysis(st.gemini).value, st.timestamp);
      && ResultsShown(r.view)
      && r.view.selectedAnalysis == Some(entry)
      && r.view.historicalAnalyses == HistoryService.Prepended(HistoryService.HistoryForVideo(stored, id), entry)
      && |r.view.selectedAnalysis.value.analysis.suggestions.titles| == GeminiService.RequiredTitles
  {
    var r := ClickOutcome(isLoading0, url, st, stored);
    var id := ExtractVideoId(url).value;
    assert HistoryService.HistoryForVideo(r.stored, id)[0]
      == HistoricalAnalysis(GeminiService.Analysis(st.gemini).value, st.timestamp);
  }

  /**
   * When the write fails (it is swallowed), the page shows the id's list as it
   * was before the run: the previous report is selected, or none at all.
   */
  lemma FailedSaveShowsPreviousList(isLoading0: bool, url: string, st: Stages, stored: HistoryService.Stored)
    requires YoutubeService.ValidDraws(st.draws)
    requires ExtractVideoId(url).Some? && StageFailure(st).None? && !st.saveSucceeds
    ensures var r := ClickOutcome(isLoading0, url, st, stored);
      var old_list := HistoryService.HistoryForVideo(stored, ExtractVideoId(url).value);
      && r.stored == stored
      && r.view.historicalAnalyses == old_list
      && (old_list == [] <==> !ResultsShown(r.view))
  {
  }

  /**
   * A thumbnail failure keeps the fetched details on the page (they were set
   * before the download), yet no results render and storage is untouched.
   */
  lemma ThumbnailFailureKeepsDetails(isLoading0: bool, url: string, st: Stages, stored: HistoryService.Stored)
    requires YoutubeService.ValidDraws(st.draws)
    requires ExtractVideoId(url).Some? && !st.thumbnail.DataUrl?
    ensures var r := ClickOutcome(isLoading0, url, st, stored);
      && r.view.videoDetails.Some?
      && r.view.videoDetails.value.id == ExtractVideoId(url).value
      && !ResultsShown(r.view)
      && r.stored == stored
  {
  }

  /** The status 500 written out as the thrown message shows it. */
  lemma StatusMessageFor500()
    ensures StatusMessage(500) == "Failed to fetch thumbnail image via proxy. Status: 500. Please try again."
  {
    assert DecimalString(5) == "5";
    assert DecimalString(50) == "50";
    assert DecimalString(500) == "500";
  }

  /** A proxy answering 500 is reported with its status in the page's error text. */
  lemma ProxyStatus500Reported(isLoading0: bool, url: string, st: Stages, stored: HistoryService.Stored)
    requires YoutubeService.ValidDraws(st.draws)
    requires ExtractVideoId(url).Some? && st.thumbnail == ProxyNotOk(500)
    ensures ClickOutcome(isLoading0, url, st, stored).view.error == Some(
      StageErrorHead + "Failed to fetch thumbnail image via proxy. Status: 500. Please try again.")
  {
    StatusMessageFor500();
    assert StageFailure(st) == Some(ErrorWithMessage(StatusMessage(500)));
  }

  /** A rejection that is not an `Error` (the file reader's own failure) is reported as 'Unknown error'. */
  lemma ReaderFailureIsUnknownError(isLoading0: bool, url: string, st: Stages, stored: HistoryService.Stored)
    requires YoutubeService.ValidDraws(st.draws)
    requires ExtractVideoId(url).Some? && st.thumbnail == ReadFailed
    ensures ClickOutcome(isLoading0, url, st, stored).view.error == Some(StageErrorHead + UnknownErrorText)
  {
  }

  /**
   * Two saved runs for the same video, one after the other: the second shows
   * both reports, newest first, on top of what was there before.
   */
  lemma SecondRunListsBothReports(url: string, st1: Stages, st2: Stages, stored: HistoryService.Stored)
    requires YoutubeService.ValidDraws(st1.draws) && YoutubeService.ValidDraws(st2.draws)
    requires ExtractVideoId(url).Some? && StageFailure(st1).None? && StageFailure(st2).None?
    requires st1.saveSucceeds && st2.saveSucceeds
    ensures var r1 := ClickOutcome(false, url, st1, stored);
      var r2 := ClickOutcome(r1.view.isLoading, url, st2, r1.stored);
      var before := HistoryService.HistoryForVideo(stored, ExtractVideoId(url).value);
      var e1 := HistoricalAnalysis(GeminiService.Analysis(st1.gemini).value, st1.timestamp);
      var e2 := HistoricalAnalysis(GeminiService.Analysis(st2.gemini).value, st2.timestamp);
      && r2.view.historicalAnalyses == HistoryService.AddAll(before, [e1, e2])
      && r2.view.historicalAnalyses[..2] == [e2, e1]
      && |r2.view.historicalAnalyses| == Min(|before| + 2, HistoryService.MaxEntries)
  {
    var id := ExtractVideoId(url).value;
    var before := HistoryService.HistoryForVideo(stored, id);
    var e1 := HistoricalAnalysis(GeminiService.Analysis(st1.gemini).value, st1.timestamp);
    var e2 := HistoricalAnalysis(GeminiService.Analysis(st2.gemini).value, st2.timestamp);
    var r1 := ClickOutcome(false, url, st1, stored);
    SavedRunList(false, url, st1, stored);
    var mid := HistoryService.HistoryForVideo(r1.stored, id);
    SavedRunList(r1.view.isLoading, url, st2, r1.stored);
    AddAllTwo(before, e1, e2);
  }

  /** A saved run's list is the stored list for the id, with the new report prepended. */
  lemma SavedRunList(isLoading0: bool, url: string, st: Stages, stored: HistoryService.Stored)
    requires YoutubeService.ValidDraws(st.draws)
    requires ExtractVideoId(url).Some? && StageFailure(st).None? && st.saveSucceeds
    ensures var r := ClickOutcome(isLoading0, url, st, stored);
      var id := ExtractVideoId(url).value;
      var entry := HistoricalAnalysis(GeminiService.Analysis(st.gemini).value, st.timestamp);
      && HistoryService.HistoryForVideo(r.stored, id) == HistoryService.Prepended(HistoryService.HistoryForVideo(stored, id), entry)
      && r.view.historicalAnalyses == HistoryService.HistoryForVideo(r.stored, id)
  {
  }

  lemma AddAllTwo(before: seq<HistoricalAnalysis>, e1: HistoricalAnalysis, e2: HistoricalAnalysis)
    ensures var last := HistoryService.Prepended(HistoryService.Prepended(before, e1), e2);
      && HistoryService.AddAll(before, [e1, e2]) == last
      && last[..2] == [e2, e1]
      && |last| == Min(|before| + 2, HistoryService.MaxEntries)
  {
    assert [e1, e2][0] == e1 && [e1, e2][1..] == [e2];
    assert [e2][0] == e2 && [e2][1..] == [];
    var mid := HistoryService.Prepended(before, e1);
    var last := HistoryService.Prepended(mid, e2);
    assert HistoryService.AddAll(before, [e1, e2]) == HistoryService.AddAll(mid, [e2]);
    assert HistoryService.AddAll(mid, [e2]) == HistoryService.AddAll(last, []);
    assert last[1] == last[1..][0] == mid[0] == e1;
  }

  /** "constructor" has eleven characters, none of them refused by the id pattern. */
  lemma ConstructorIsIdToken()
    ensures IsIdToken("constructor")
  {
    IdTokenOfChars("constructor");
  }

  /**
   * `https://youtu.be/constructor` passes the URL check, so a run reaches the
   * history with the id "constructor", on which the add as written throws.
   */
  lemma ConstructorIdReachesHistory(s: HistoryService.Stored, analysis: VideoAnalysis, timestamp: string)
    requires "constructor" !in HistoryService.FullHistory(s)
    ensures ExtractVideoId("https://youtu.be/" + "constructor") == Some("constructor")
    ensures HistoryService.AddAsWritten(s, "constructor", analysis, timestamp, true).None?
    ensures HistoryService.HistoryForVideoAsWritten(s, "constructor") == HistoryService.InheritedMember
  {
    var url := "https://youtu.be/" + "constructor";
    ConstructorIsIdToken();
    ShortLinkGivesId("constructor", "");
    assert url + "" == url;
    HistoryService.AddAsWrittenThrowsForConstructor(s, analysis, timestamp);
    HistoryService.ReadAsWrittenForConstructor(s);
  }

  /**
   * The page's state. `history` is the storage the history service reads and
   * writes; the component never replaces it.
   */
  class AppState {
    var videoUrl: string
    var videoDetails: Option<YouTubeVideo>
    var selectedAnalysis: Option<HistoricalAnalysis>
    var historicalAnalyses: seq<HistoricalAnalysis>
    var isLoading: bool
    var error: Option<string>
    const history: HistoryService.HistoryStore

    function View(): PageView
      reads this
    {
      PageView(videoDetails, selectedAnalysis, historicalAnalyses, isLoading, error)
    }

    /** The button is disabled while a run is in progress or the URL is empty. */
    predicate CanTrigger()
      reads this
    {
      !isLoading && videoUrl != ""
    }

    /** The initial state of every `useState`. */
    constructor (store: HistoryService.HistoryStore)
      ensures videoUrl == "" && View() == PageView(None, None, [], false, None)
      ensures history == store
    {
      videoUrl := "";
      videoDetails := None;
      selectedAnalysis := None;
      historicalAnalyses := [];
      isLoading := false;
      error := None;
      history := store;
    }

    /** The input's `onChange`; the input is disabled while a run is in progress. */
    method EditUrl(text: string)
      modifies this
      ensures videoUrl == if old(isLoading) then old(videoUrl) else text
      ensures View() == old(View())
    {
      if !isLoading {
        videoUrl := text;
      }
    }

    /** The list's `onSelectAnalysis`: any entry of the shown list can be selected. */
    method SelectAnalysis(k: nat)
      requires k < |historicalAnalyses|
      modifies this
      ensures selectedAnalysis == Some(old(historicalAnalyses)[k])
      ensures videoUrl == old(videoUrl) && videoDetails == old(videoDetails)
      ensures historicalAnalyses == old(historicalAnalyses)
      ensures isLoading == old(isLoading) && error == old(error)
    {
      selectedAnalysis := Some(historicalAnalyses[k]);
    }

    /** `handleAnalyzeClick`, step by step through the setters. */
    method HandleAnalyzeClick(st: Stages)
      requires YoutubeService.ValidDraws(st.draws)
      modifies this, history
      ensures var r := ClickOutcome(old(isLoading), old(videoUrl), st, old(history.stored));
        View() == r.view && history.stored == r.stored
      ensures videoUrl == old(videoUrl)
    {
      error := None;
      videoDetails := None;
      selectedAnalysis := None;
      historicalAnalyses := [];

      var videoId := ExtractVideoId(videoUrl);
      if videoId.None? {
        error := Some(InvalidUrlMessage);
        return;
      }
      var id := videoId.value;

      isLoading := true;
      var details := YoutubeService.FetchVideoDetails(id, st.lookup, st.draws);
      videoDetails := Some(details);

      var thumbnailBase64 := ThumbnailBase64(st.thumbnail);
      if thumbnailBase64.Err? {
        error := Some(StageErrorHead + ErrorDetails(thumbnailBase64.error));
        isLoading := false;
        return;
      }

      var analysis := GeminiService.AnalyzeVideoContent(st.gemini);
      if analysis.Err? {
        error := Some(StageErrorHead + ErrorDetails(ErrorWithMessage(analysis.error)));
        isLoading := false;
        return;
      }
      history.AddAnalysisToHistory(id, analysis.value, st.timestamp, st.saveSucceeds);

      var updatedHistory := HistoryService.HistoryForVideo(history.stored, id);
      historicalAnalyses := updatedHistory;
      if |updatedHistory| > 0 {
        selectedAnalysis := Some(updatedHistory[0]);
      }
      isLoading := false;
    }

    /** A click on the button: nothing happens while it is disabled. */
    method ClickAnalyzeButton(st: Stages)
      requires YoutubeService.ValidDraws(st.draws)
      modifies this, history
      ensures !old(CanTrigger()) ==>
        View() == old(View()) && videoUrl == old(videoUrl) && history.stored == old(history.stored)
      ensures old(CanTrigger()) ==>
        var r := ClickOutcome(false, old(videoUrl), st, old(history.stored));
        View() == r.view && history.stored == r.stored && videoUrl == old(videoUrl)
      ensures old(CanTrigger()) ==> !isLoading
    {
      if CanTrigger() {
        HandleAnalyzeClick(st);
      }
    }
  }
}
