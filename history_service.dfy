/**
 * The per-video history (services/historyService.ts): one persisted value
 * holding a map from video id to a newest-first list of at most ten stamped
 * reports. Browser storage and JSON are abstracted into `Stored`: nothing
 * stored, something that does not parse, or a parsed map. The timestamp and
 * whether the write succeeds are inputs.
 */
module HistoryService {
  import opened Wrappers
  import opened Types
  import opened JsText

  /** The most entries kept per video. */
  const MaxEntries: nat := 10

  /** What browser storage holds under the history key. */
  datatype Stored =
    | Missing
    | Unparseable
    | Entries(history: map<string, seq<HistoricalAnalysis>>)

  /** `getFullHistory`: a missing or unparseable value reads as the empty map; reading never fails. */
  function FullHistory(s: Stored): (m: map<string, seq<HistoricalAnalysis>>)
    ensures s.Entries? ==> m == s.history
    ensures !s.Entries? ==> m == map[]
  {
    match s
    case Entries(h) => h
    case _ => map[]
  }

  /** `getHistoryForVideo`: the stored list for `videoId`, or the empty list when it has none. */
  function HistoryForVideo(s: Stored, videoId: string): (r: seq<HistoricalAnalysis>)
    ensures videoId !in FullHistory(s) ==> r == []
    ensures videoId in FullHistory(s) ==> r == FullHistory(s)[videoId]
  {
    var history := FullHistory(s);
    if videoId in history then history[videoId] else []
  }

  /** `[newEntry, ...videoHistory].slice(0, 10)`: push to the front, evicting from the back. */
  function Prepended(list: seq<HistoricalAnalysis>, entry: HistoricalAnalysis): (r: seq<HistoricalAnalysis>)
    ensures |r| == if |list| + 1 <= MaxEntries then |list| + 1 else MaxEntries
    ensures r[0] == entry
    ensures r[1..] == list[..|r| - 1]
  {
    ([entry] + list)[..if |list| + 1 <= MaxEntries then |list| + 1 else MaxEntries]
  }

  /** `saveFullHistory`: the write either lands, or fails and leaves storage as it was. */
  function Saved(s: Stored, history: map<string, seq<HistoricalAnalysis>>, saveSucceeds: bool): (r: Stored)
    ensures saveSucceeds ==> r == Entries(history)
    ensures !saveSucceeds ==> r == s
  {
    if saveSucceeds then Entries(history) else s
  }

  /**
   * What `addAnalysisToHistory` leaves in storage: the id's list gains the
   * stamped report at its front, every other id reads as before, and a failed
   * write changes nothing (it is swallowed, so the add never fails).
   */
  function AddedStore(s: Stored, videoId: string, analysis: VideoAnalysis, timestamp: string, saveSucceeds: bool): (r: Stored)
    ensures saveSucceeds ==>
      HistoryForVideo(r, videoId) == Prepended(HistoryForVideo(s, videoId), HistoricalAnalysis(analysis, timestamp))
    ensures saveSucceeds ==> HistoryForVideo(r, videoId)[0] == HistoricalAnalysis(analysis, timestamp)
    ensures saveSucceeds ==> FullHistory(r).Keys == FullHistory(s).Keys + {videoId}
    ensures !saveSucceeds ==> r == s
    ensures forall other :: other != videoId ==> HistoryForVideo(r, other) == HistoryForVideo(s, other)
  {
    var fullHistory := FullHistory(s);
    var videoHistory := HistoryForVideo(s, videoId);
    var newEntry := HistoricalAnalysis(analysis, timestamp);
    Saved(s, fullHistory[videoId := Prepended(videoHistory, newEntry)], saveSucceeds)
  }

  /** The list after adding `entries` one after another, oldest first. */
  function AddAll(list: seq<HistoricalAnalysis>, entries: seq<HistoricalAnalysis>): seq<HistoricalAnalysis>
    decreases |entries|
  {
    if entries == [] then list else AddAll(Prepended(list, entries[0]), entries[1..])
  }

  function Reverse<T>(s: seq<T>): (r: seq<T>)
    ensures |r| == |s|
    ensures forall k :: 0 <= k < |s| ==> r[k] == s[|s| - 1 - k]
    decreases |s|
  {
    if s == [] then [] else Reverse(s[1..]) + [s[0]]
  }

  /**
   * Successive adds keep the newest ten: the result is the added entries,
   * newest first, followed by the old list, cut to ten. (With no add at all
   * the list is whatever was stored, which nothing bounds.)
   */
  lemma {:induction false} AddAllKeepsNewest(list: seq<HistoricalAnalysis>, entries: seq<HistoricalAnalysis>)
    requires entries != [] || |list| <= MaxEntries
    ensures AddAll(list, entries) == (Reverse(entries) + list)[..Min(|entries| + |list|, MaxEntries)]
    decreases |entries|
  {
    if entries != [] {
      var next := Prepended(list, entries[0]);
      AddAllKeepsNewest(next, entries[1..]);
      var r := Reverse(entries[1..]);
      assert Reverse(entries) == r + [entries[0]];
      var n := Min(|entries| + |list|, MaxEntries);
      var lhs := (r + next)[..Min(|entries| - 1 + |next|, MaxEntries)];
      var rhs := (Reverse(entries) + list)[..n];
      assert |lhs| == |rhs|;
      forall k | 0 <= k < |lhs|
        ensures lhs[k] == rhs[k]
      {
        if k < |r| {
          assert lhs[k] == r[k] && rhs[k] == Reverse(entries)[k];
        } else if k == |r| {
          assert lhs[k] == next[0] == entries[0];
          assert rhs[k] == (Reverse(entries) + list)[k] == Reverse(entries)[k];
        } else {
          assert lhs[k] == next[k - |r|] == next[1..][k - |r| - 1] == list[k - |r| - 1];
          assert rhs[k] == list[k - |r| - 1];
        }
      }
      assert lhs == rhs;
      assert AddAll(list, entries) == AddAll(next, entries[1..]);
    }
  }

  /**
   * Eleven adds for one id, all written successfully, leave exactly the ten
   * most recent, newest first: the first of the eleven is evicted.
   */
  lemma ElevenAddsKeepTenNewest(s: Stored, videoId: string, analyses: seq<VideoAnalysis>, stamps: seq<string>)
    requires |analyses| == 11 && |stamps| == 11
    ensures var final := AddEach(s, videoId, analyses, stamps);
      && |HistoryForVideo(final, videoId)| == MaxEntries
      && forall k :: 0 <= k < MaxEntries ==>
           HistoryForVideo(final, videoId)[k] == HistoricalAnalysis(analyses[10 - k], stamps[10 - k])
  {
    var entries := seq(11, k requires 0 <= k < 11 => HistoricalAnalysis(analyses[k], stamps[k]));
    AddEachIsAddAll(s, videoId, analyses, stamps);
    AddAllKeepsNewest(HistoryForVideo(s, videoId), entries);
  }

  /** Storage after one successful add per report, in order. */
  function AddEach(s: Stored, videoId: string, analyses: seq<VideoAnalysis>, stamps: seq<string>): Stored
    requires |analyses| == |stamps|
    decreases |analyses|
  {
    if analyses == [] then s
    else AddEach(AddedStore(s, videoId, analyses[0], stamps[0], true), videoId, analyses[1..], stamps[1..])
  }

  lemma {:induction false} AddEachIsAddAll(s: Stored, videoId: string, analyses: seq<VideoAnalysis>, stamps: seq<string>)
    requires |analyses| == |stamps|
    ensures HistoryForVideo(AddEach(s, videoId, analyses, stamps), videoId)
      == AddAll(HistoryForVideo(s, videoId), seq(|analyses|, k requires 0 <= k < |analyses| => HistoricalAnalysis(analyses[k], stamps[k])))
    decreases |analyses|
  {
    if analyses != [] {
      var entries := seq(|analyses|, k requires 0 <= k < |analyses| => HistoricalAnalysis(analyses[k], stamps[k]));
      AddEachIsAddAll(AddedStore(s, videoId, analyses[0], stamps[0], true), videoId, analyses[1..], stamps[1..]);
      assert entries[1..] == seq(|analyses| - 1, k requires 0 <= k < |analyses| - 1 => HistoricalAnalysis(analyses[1..][k], stamps[1..][k]));
    }
  }

  /**
   * The store object. Its one field is the persisted value; the methods are
   * the read-modify-write of `saveFullHistory` and `addAnalysisToHistory`.
   */
  class HistoryStore {
    var stored: Stored

    constructor (initial: Stored)
      ensures stored == initial
    {
      stored := initial;
    }

    /** `saveFullHistory`: a failed write is swallowed and leaves the old value. */
    method SaveFullHistory(history: map<string, seq<HistoricalAnalysis>>, saveSucceeds: bool)
      modifies this
      ensures stored == Saved(old(stored), history, saveSucceeds)
    {
      if saveSucceeds {
        stored := Entries(history);
      }
    }

    /** `addAnalysisToHistory`: read the whole map, replace the id's list, write the whole map back. */
    method AddAnalysisToHistory(videoId: string, analysis: VideoAnalysis, timestamp: string, saveSucceeds: bool)
      modifies this
      ensures stored == AddedStore(old(stored), videoId, analysis, timestamp, saveSucceeds)
    {
      var fullHistory := FullHistory(stored);
      var videoHistory := if videoId in fullHistory then fullHistory[videoId] else [];
      var newEntry := HistoricalAnalysis(analysis, timestamp);
      var updatedHistory := Prepended(videoHistory, newEntry);
      fullHistory := fullHistory[videoId := updatedHistory];
      SaveFullHistory(fullHistory, saveSucceeds);
    }
  }

  // ---------------------------------------------------------------------------
  // The lookup as written: `fullHistory[videoId] || []` on a plain object
  // ---------------------------------------------------------------------------

  /** The properties every plain JavaScript object inherits from `Object.prototype`. */
  const InheritedNames: set<string> := {
    "constructor", "__proto__", "hasOwnProperty", "isPrototypeOf", "propertyIsEnumerable",
    "toString", "toLocaleString", "valueOf",
    "__defineGetter__", "__defineSetter__", "__lookupGetter__", "__lookupSetter__"}

  /** What `history[videoId]` yields on a parsed object: an own list, nothing, or an inherited member. */
  datatype JsLookup = OwnList(list: seq<HistoricalAnalysis>) | Undefined | InheritedMember

  function LookupAsWritten(history: map<string, seq<HistoricalAnalysis>>, videoId: string): (r: JsLookup)
    ensures r.InheritedMember? <==> videoId !in history && videoId in InheritedNames
  {
    if videoId in history then OwnList(history[videoId])
    else if videoId in InheritedNames then InheritedMember
    else Undefined
  }

  /**
   * `getHistoryForVideo` as written: `history[videoId] || []` turns a missing
   * own key into the empty list, but an inherited member is truthy and is
   * returned as it is, in place of a list.
   */
  function HistoryForVideoAsWritten(s: Stored, videoId: string): (r: JsLookup)
    ensures !r.Undefined?
    ensures r.InheritedMember? <==> videoId !in FullHistory(s) && videoId in InheritedNames
    ensures r.OwnList? ==> r.list == HistoryForVideo(s, videoId)
  {
    match LookupAsWritten(FullHistory(s), videoId)
    case Undefined => OwnList([])
    case found => found
  }

  /**
   * For the id "constructor" with no list yet, the read as written returns the
   * inherited `Object` function, where the model's read gives the empty list.
   */
  lemma ReadAsWrittenForConstructor(s: Stored)
    requires "constructor" !in FullHistory(s)
    ensures HistoryForVideoAsWritten(s, "constructor") == InheritedMember
    ensures HistoryForVideo(s, "constructor") == []
  {
  }

  /**
   * `addAnalysisToHistory` as written, None when it throws: an inherited
   * member is truthy, so `|| []` keeps it, and spreading a function or
   * `Object.prototype` into an array literal throws a TypeError.
   */
  function AddAsWritten(s: Stored, videoId: string, analysis: VideoAnalysis, timestamp: string, saveSucceeds: bool): Option<Stored>
  {
    var fullHistory := FullHistory(s);
    match LookupAsWritten(fullHistory, videoId)
    case InheritedMember => None
    case OwnList(list) =>
      Some(Saved(s, fullHistory[videoId := Prepended(list, HistoricalAnalysis(analysis, timestamp))], saveSucceeds))
    case Undefined =>
      Some(Saved(s, fullHistory[videoId := Prepended([], HistoricalAnalysis(analysis, timestamp))], saveSucceeds))
  }

  /** Away from inherited names, the add as written is the add of this model. */
  lemma AddAsWrittenAgrees(s: Stored, videoId: string, analysis: VideoAnalysis, timestamp: string, saveSucceeds: bool)
    requires videoId in FullHistory(s) || videoId !in InheritedNames
    ensures AddAsWritten(s, videoId, analysis, timestamp, saveSucceeds) == Some(AddedStore(s, videoId, analysis, timestamp, saveSucceeds))
  {
  }

  /**
   * For the id "constructor" with no list yet, the add as written throws
   * instead of starting a list; the model's add (own-key lookup) starts it.
   */
  lemma AddAsWrittenThrowsForConstructor(s: Stored, analysis: VideoAnalysis, timestamp: string)
    requires "constructor" !in FullHistory(s)
    ensures AddAsWritten(s, "constructor", analysis, timestamp, true).None?
    ensures HistoryForVideo(AddedStore(s, "constructor", analysis, timestamp, true), "constructor")
      == [HistoricalAnalysis(analysis, timestamp)]
  {
  }
}
