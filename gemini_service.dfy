/**
 * The post-processing of `analyzeVideoContent` (services/geminiService.ts):
 * the model's reply is parsed as JSON, `suggestions.titles` is filtered,
 * de-duplicated, truncated and padded to exactly three entries, and every
 * failure becomes one fixed error. The request itself is an input here: it
 * either failed, returned text that is not JSON, or returned a parsed record.
 */
module GeminiService {
  import opened Wrappers
  import opened JsText
  import opened Types

  /** How many title suggestions the report must carry. */
  const RequiredTitles: nat := 3

  /** The fixed padding list; its length is tied to RequiredTitles, so padding never runs past it. */
  const Placeholders: seq<string> := ["A/B Test This Title", "Try a More Emotional Angle", "Add a Keyword-Rich Title"]

  /** The one error every failure of the analysis step is turned into. */
  const AnalysisFailedMessage: string := "Failed to get analysis from Gemini API."

  /** One entry of the parsed `suggestions.titles` array: a string or some other JSON value. */
  datatype JsonTitle = TitleString(text: string) | TitleNonString

  /** The parsed `suggestions` object; `titles` is None when absent (or falsy). */
  datatype ParsedSuggestions = ParsedSuggestions(titles: Option<seq<JsonTitle>>, description: string, thumbnail: string)

  /** The record `JSON.parse` produced; `suggestions` is None when the object has none. */
  datatype ParsedAnalysis = ParsedAnalysis(
    titleAnalysis: ScoredFeedback,
    descriptionAnalysis: ScoredFeedback,
    thumbnailAnalysis: ScoredFeedback,
    engagementAnalysis: Feedback,
    viralityScore: real,
    whyViral: string,
    suggestions: Option<ParsedSuggestions>,
    predictedAudience: string,
    actionItems: seq<string>)

  /** What came back from the Gemini request. */
  datatype GeminiOutcome =
    | RequestFailed(message: string)
    | NotJson(message: string)
    | Json(value: ParsedAnalysis)

  predicate Distinct<T(==)>(s: seq<T>)
  {
    forall i, j :: 0 <= i < j < |s| ==> s[i] != s[j]
  }

  /** A title survives the filter `typeof t === 'string' && t.trim()`. */
  predicate Usable(t: JsonTitle)
  {
    t.TitleString? && Trim(t.text) != []
  }

  /** The filter step: the strings whose trim is non-empty, untrimmed, in input order. */
  function UsableTitles(ts: seq<JsonTitle>): (r: seq<string>)
    ensures |r| <= |ts|
    ensures forall x :: x in r <==> TitleString(x) in ts && Trim(x) != []
    decreases |ts|
  {
    if ts == [] then []
    else
      var rest := UsableTitles(ts[1..]);
      assert forall x :: TitleString(x) in ts <==> ts[0] == TitleString(x) || TitleString(x) in ts[1..];
      if Usable(ts[0]) then [ts[0].text] + rest else rest
  }

  /** `[...new Set(s)]`: a Set keeps its first insertion of each value, in insertion order. */
  function Dedup<T(==,!new)>(s: seq<T>): (r: seq<T>)
    ensures Distinct(r)
    ensures |r| <= |s|
    ensures forall x :: x in r <==> x in s
    decreases |s|
  {
    if s == [] then []
    else
      var d := Dedup(s[..|s| - 1]);
      assert s == s[..|s| - 1] + [s[|s| - 1]];
      if s[|s| - 1] in d then d else d + [s[|s| - 1]]
  }

  /** The index of the first occurrence of `x` in `s`. */
  function FirstIndex<T(==)>(s: seq<T>, x: T): (i: nat)
    requires x in s
    ensures i < |s| && s[i] == x
    ensures forall j :: 0 <= j < i ==> s[j] != x
    decreases |s|
  {
    if s[0] == x then 0 else 1 + FirstIndex(s[1..], x)
  }

  /** The titles that survive filtering, de-duplication and `slice(0, 3)`. */
  function LeadingTitles(ts: seq<JsonTitle>): (r: seq<string>)
    ensures |r| <= RequiredTitles
  {
    var u := Dedup(UsableTitles(ts));
    u[..Min(RequiredTitles, |u|)]
  }

  /** The list after the padding loop: the leading titles, then placeholders in order until three. */
  function Padded(lead: seq<string>): (r: seq<string>)
    requires |lead| <= RequiredTitles
    ensures |r| == RequiredTitles
    ensures r[..|lead|] == lead
    ensures forall k :: |lead| <= k < RequiredTitles ==> r[k] == Placeholders[k - |lead|]
  {
    lead + Placeholders[..RequiredTitles - |lead|]
  }

  /** The sanitised `suggestions.titles` for a parsed titles array. */
  function SanitizedTitles(ts: seq<JsonTitle>): (r: seq<string>)
    ensures |r| == RequiredTitles
  {
    Padded(LeadingTitles(ts))
  }

  /** `result.suggestions?.titles || []` */
  function CurrentTitles(s: ParsedSuggestions): seq<JsonTitle>
  {
    match s.titles
    case Some(ts) => ts
    case None => []
  }

  /**
   * What `analyzeVideoContent` resolves to: the parsed record with its titles
   * sanitised, or the single failure message. A record without `suggestions`
   * fails, because the write `result.suggestions.titles = ...` throws.
   */
  function Analysis(outcome: GeminiOutcome): (r: Result<VideoAnalysis, string>)
    ensures r.Err? ==> r.error == AnalysisFailedMessage
    ensures r.Ok? <==> outcome.Json? && outcome.value.suggestions.Some?
    ensures r.Ok? ==>
      var p := outcome.value;
      && r.value.titleAnalysis == p.titleAnalysis
      && r.value.descriptionAnalysis == p.descriptionAnalysis
      && r.value.thumbnailAnalysis == p.thumbnailAnalysis
      && r.value.engagementAnalysis == p.engagementAnalysis
      && r.value.viralityScore == p.viralityScore
      && r.value.whyViral == p.whyViral
      && r.value.suggestions.description == p.suggestions.value.description
      && r.value.suggestions.thumbnail == p.suggestions.value.thumbnail
      && r.value.predictedAudience == p.predictedAudience
      && r.value.actionItems == p.actionItems
      && r.value.suggestions.titles == SanitizedTitles(CurrentTitles(p.suggestions.value))
      && |r.value.suggestions.titles| == RequiredTitles
  {
    match outcome
    case RequestFailed(_) => Err(AnalysisFailedMessage)
    case NotJson(_) => Err(AnalysisFailedMessage)
    case Json(p) =>
      match p.suggestions
      case None => Err(AnalysisFailedMessage)
      case Some(s) =>
        Ok(VideoAnalysis(p.titleAnalysis, p.descriptionAnalysis, p.thumbnailAnalysis,
                         p.engagementAnalysis, p.viralityScore, p.whyViral,
                         Suggestions(SanitizedTitles(CurrentTitles(s)), s.description, s.thumbnail),
                         p.predictedAudience, p.actionItems))
  }

  /**
   * The sanitisation block as the service runs it: filter and de-duplicate,
   * truncate, then the `while (finalTitles.length < 3)` loop pushing
   * `placeholders[i]`, and finally overwrite `suggestions.titles`.
   */
  method AnalyzeVideoContent(outcome: GeminiOutcome) returns (r: Result<VideoAnalysis, string>)
    ensures r == Analysis(outcome)
  {
    if !outcome.Json? {
      return Err(AnalysisFailedMessage);
    }
    var result := outcome.value;
    var currentTitles := if result.suggestions.Some? then CurrentTitles(result.suggestions.value) else [];
    var uniqueTitles := Dedup(UsableTitles(currentTitles));
    var finalTitles := uniqueTitles[..Min(RequiredTitles, |uniqueTitles|)];
    ghost var lead := finalTitles;
    var placeholders := Placeholders;
    var i := 0;
    while |finalTitles| < RequiredTitles
      invariant |lead| + i == |finalTitles| <= RequiredTitles
      invariant finalTitles == lead + placeholders[..i]
      decreases RequiredTitles - |finalTitles|
    {
      finalTitles := finalTitles + [placeholders[i]];
      i := i + 1;
    }
    if result.suggestions.None? {
      return Err(AnalysisFailedMessage);
    }
    var s := result.suggestions.value;
    r := Ok(VideoAnalysis(result.titleAnalysis, result.descriptionAnalysis, result.thumbnailAnalysis,
                          result.engagementAnalysis, result.viralityScore, result.whyViral,
                          Suggestions(finalTitles, s.description, s.thumbnail),
                          result.predictedAudience, result.actionItems));
  }

  // ---------------------------------------------------------------------------
  // Properties of the sanitiser
  // ---------------------------------------------------------------------------

  /** A list of strings, seen as the JSON array it would be parsed from. */
  function AsJson(titles: seq<string>): (r: seq<JsonTitle>)
    ensures |r| == |titles|
    ensures forall k :: 0 <= k < |r| ==> r[k] == TitleString(titles[k])
  {
    seq(|titles|, k requires 0 <= k < |titles| => TitleString(titles[k]))
  }

  predicate NonBlank(titles: seq<string>)
  {
    forall k :: 0 <= k < |titles| ==> Trim(titles[k]) != []
  }

  lemma FirstIndexOfPrefix<T>(s: seq<T>, y: T, x: T)
    requires x in s
    ensures x in s + [y] && FirstIndex(s + [y], x) == FirstIndex(s, x)
  {
    var i, i' := FirstIndex(s, x), FirstIndex(s + [y], x);
    assert (s + [y])[i] == s[i];
  }

  /** De-duplication keeps first-seen order: earlier entries of Dedup(s) first occur earlier in s. */
  lemma {:induction false} DedupFirstSeenOrder<T(!new)>(s: seq<T>)
    ensures forall a, b :: 0 <= a < b < |Dedup(s)| ==> FirstIndex(s, Dedup(s)[a]) < FirstIndex(s, Dedup(s)[b])
    decreases |s|
  {
    if s != [] {
      var s', y := s[..|s| - 1], s[|s| - 1];
      assert s == s' + [y];
      DedupFirstSeenOrder(s');
      var d' := Dedup(s');
      forall x | x in s'
        ensures FirstIndex(s, x) == FirstIndex(s', x)
      {
        FirstIndexOfPrefix(s', y, x);
      }
      if y !in d' {
        assert y !in s';
        assert FirstIndex(s, y) == |s| - 1;
      }
    }
  }

  /**
   * The filter keeps input order: of two kept titles, the one met first in
   * the filtered list is the one met first in the parsed array.
   */
  lemma {:induction false} UsableTitlesKeepOrder(ts: seq<JsonTitle>, x: string, y: string)
    requires x in UsableTitles(ts) && y in UsableTitles(ts)
    ensures TitleString(x) in ts && TitleString(y) in ts
    ensures FirstIndex(UsableTitles(ts), x) < FirstIndex(UsableTitles(ts), y)
      <==> FirstIndex(ts, TitleString(x)) < FirstIndex(ts, TitleString(y))
    decreases |ts|
  {
    var t, r, rest := ts[0], UsableTitles(ts), UsableTitles(ts[1..]);
    var tx, ty := TitleString(x), TitleString(y);
    if Usable(t) {
      assert r == [t.text] + rest;
      if x == t.text || y == t.text {
        assert r[0] == t.text && ts[0] == t;
      } else {
        FirstIndexTail(r, x);
        FirstIndexTail(r, y);
        assert r[1..] == rest;
        FirstIndexTail(ts, tx);
        FirstIndexTail(ts, ty);
        UsableTitlesKeepOrder(ts[1..], x, y);
      }
    } else {
      assert r == rest;
      assert t != tx && t != ty;
      FirstIndexTail(ts, tx);
      FirstIndexTail(ts, ty);
      UsableTitlesKeepOrder(ts[1..], x, y);
    }
  }

  lemma FirstIndexTail<T>(s: seq<T>, x: T)
    requires x in s && s[0] != x
    ensures x in s[1..] && FirstIndex(s, x) == 1 + FirstIndex(s[1..], x)
  {
  }

  /**
   * The titles kept in front of the padding are distinct usable strings, taken
   * untrimmed, in first-seen order among the usable entries, and they are the
   * FIRST such titles: any usable title left out comes after all of them, and
   * only when three were already kept.
   */
  lemma LeadingTitlesAreFirstDistinct(ts: seq<JsonTitle>)
    ensures var u := UsableTitles(ts); var lead := LeadingTitles(ts);
      && Distinct(lead)
      && SanitizedTitles(ts)[..|lead|] == lead
      && (forall k :: 0 <= k < |lead| ==> TitleString(lead[k]) in ts && Trim(lead[k]) != [] && lead[k] in u)
      && (forall a, b :: 0 <= a < b < |lead| ==> FirstIndex(u, lead[a]) < FirstIndex(u, lead[b]))
      && (forall x :: x in u && x !in lead ==>
            |lead| == RequiredTitles && forall k :: 0 <= k < |lead| ==> FirstIndex(u, lead[k]) < FirstIndex(u, x))
      && (forall a, b :: 0 <= a < b < |lead| ==>
            FirstIndex(ts, TitleString(lead[a])) < FirstIndex(ts, TitleString(lead[b])))
      && (forall x :: TitleString(x) in ts && Trim(x) != [] && x !in lead ==>
            |lead| == RequiredTitles
            && forall k :: 0 <= k < |lead| ==> FirstIndex(ts, TitleString(lead[k])) < FirstIndex(ts, TitleString(x)))
  {
    LeadingTitlesAreUsable(ts);
    LeadingTitlesComeFirst(ts);
    LeadingTitlesInInputOrder(ts);
  }

  /** The same order, read off the parsed array itself rather than the filtered list. */
  lemma LeadingTitlesInInputOrder(ts: seq<JsonTitle>)
    ensures var lead := LeadingTitles(ts);
      && (forall k :: 0 <= k < |lead| ==> TitleString(lead[k]) in ts)
      && (forall a, b :: 0 <= a < b < |lead| ==>
            FirstIndex(ts, TitleString(lead[a])) < FirstIndex(ts, TitleString(lead[b])))
      && (forall x :: TitleString(x) in ts && Trim(x) != [] && x !in lead ==>
            |lead| == RequiredTitles
            && forall k :: 0 <= k < |lead| ==> FirstIndex(ts, TitleString(lead[k])) < FirstIndex(ts, TitleString(x)))
  {
    var u := UsableTitles(ts);
    var lead := LeadingTitles(ts);
    LeadingTitlesAreUsable(ts);
    LeadingTitlesComeFirst(ts);
    forall a, b | 0 <= a < b < |lead|
      ensures FirstIndex(ts, TitleString(lead[a])) < FirstIndex(ts, TitleString(lead[b]))
    {
      UsableTitlesKeepOrder(ts, lead[a], lead[b]);
    }
    forall x | TitleString(x) in ts && Trim(x) != [] && x !in lead
      ensures |lead| == RequiredTitles
      ensures forall k :: 0 <= k < |lead| ==> FirstIndex(ts, TitleString(lead[k])) < FirstIndex(ts, TitleString(x))
    {
      assert x in u;
      forall k | 0 <= k < |lead|
        ensures FirstIndex(ts, TitleString(lead[k])) < FirstIndex(ts, TitleString(x))
      {
        UsableTitlesKeepOrder(ts, lead[k], x);
      }
    }
  }

  /** The kept titles are distinct, head the output, and each passed the filter. */
  lemma LeadingTitlesAreUsable(ts: seq<JsonTitle>)
    ensures var u := UsableTitles(ts); var lead := LeadingTitles(ts);
      && Distinct(lead)
      && SanitizedTitles(ts)[..|lead|] == lead
      && (forall k :: 0 <= k < |lead| ==> TitleString(lead[k]) in ts && Trim(lead[k]) != [] && lead[k] in u)
  {
    var u := UsableTitles(ts);
    var d := Dedup(u);
    var lead := LeadingTitles(ts);
    assert lead == d[..|lead|];
    forall k | 0 <= k < |lead|
      ensures lead[k] in d
    {
      assert lead[k] == d[k];
    }
  }

  /** The kept titles are in first-seen order, and every usable title left out comes after them. */
  lemma LeadingTitlesComeFirst(ts: seq<JsonTitle>)
    ensures var u := UsableTitles(ts); var lead := LeadingTitles(ts);
      && (forall a, b :: 0 <= a < b < |lead| ==> FirstIndex(u, lead[a]) < FirstIndex(u, lead[b]))
      && (forall x :: x in u && x !in lead ==>
            |lead| == RequiredTitles && forall k :: 0 <= k < |lead| ==> FirstIndex(u, lead[k]) < FirstIndex(u, x))
  {
    var u := UsableTitles(ts);
    var d := Dedup(u);
    var lead := LeadingTitles(ts);
    assert lead == d[..|lead|];
    DedupFirstSeenOrder(u);
    forall a, b | 0 <= a < b < |lead|
      ensures FirstIndex(u, lead[a]) < FirstIndex(u, lead[b])
    {
      assert lead[a] == d[a] && lead[b] == d[b];
    }
    forall x | x in u && x !in lead
      ensures |lead| == RequiredTitles && forall k :: 0 <= k < |lead| ==> FirstIndex(u, lead[k]) < FirstIndex(u, x)
    {
      assert x in d;
      var kx := FirstIndex(d, x);
      assert forall k :: 0 <= k < |lead| ==> lead[k] == d[k];
      assert |lead| < |d|;
      forall k | 0 <= k < |lead|
        ensures FirstIndex(u, lead[k]) < FirstIndex(u, x)
      {
        assert lead[k] == d[k] && k < kx;
      }
    }
  }

  lemma {:induction false} UsableTitlesOfNonBlank(titles: seq<string>)
    requires NonBlank(titles)
    ensures UsableTitles(AsJson(titles)) == titles
    decreases |titles|
  {
    if titles != [] {
      assert AsJson(titles)[1..] == AsJson(titles[1..]);
      UsableTitlesOfNonBlank(titles[1..]);
    }
  }

  lemma {:induction false} DedupOfDistinct<T(!new)>(s: seq<T>)
    requires Distinct(s)
    ensures Dedup(s) == s
    decreases |s|
  {
    if s != [] {
      DedupOfDistinct(s[..|s| - 1]);
    }
  }

  /** Three distinct non-blank titles come back unchanged. */
  lemma SanitizeFixesDistinctTriples(titles: seq<string>)
    requires |titles| == RequiredTitles && Distinct(titles) && NonBlank(titles)
    ensures SanitizedTitles(AsJson(titles)) == titles
  {
    UsableTitlesOfNonBlank(titles);
    DedupOfDistinct(titles);
  }

  /** Every sanitised title is non-blank: kept titles passed the filter, placeholders are not blank. */
  lemma SanitizedTitlesNonBlank(ts: seq<JsonTitle>)
    ensures NonBlank(SanitizedTitles(ts))
  {
    var lead := LeadingTitles(ts);
    var r := SanitizedTitles(ts);
    LeadingTitlesAreFirstDistinct(ts);
    PlaceholdersNonBlankAndDistinct();
    forall k | 0 <= k < |r|
      ensures Trim(r[k]) != []
    {
      if k < |lead| { assert r[k] == r[..|lead|][k]; }
    }
  }

  /**
   * The output is duplicate-free exactly when no kept title equals one of the
   * placeholders used to pad it.
   */
  lemma SanitizedDistinctIff(ts: seq<JsonTitle>)
    ensures var lead := LeadingTitles(ts);
      Distinct(SanitizedTitles(ts)) <==>
        forall k :: 0 <= k < |lead| ==> lead[k] !in Placeholders[..RequiredTitles - |lead|]
  {
    var lead := LeadingTitles(ts);
    var m := RequiredTitles - |lead|;
    var r := SanitizedTitles(ts);
    LeadingTitlesAreFirstDistinct(ts);
    assert r == lead + Placeholders[..m];
    if Distinct(r) {
      forall k | 0 <= k < |lead|
        ensures lead[k] !in Placeholders[..m]
      {
      }
    }
  }

  /** On any input whose output is duplicate-free, sanitising the output again changes nothing. */
  lemma SanitizeIdempotentWhenDistinct(ts: seq<JsonTitle>)
    requires Distinct(SanitizedTitles(ts))
    ensures SanitizedTitles(AsJson(SanitizedTitles(ts))) == SanitizedTitles(ts)
  {
    SanitizedTitlesNonBlank(ts);
    SanitizeFixesDistinctTriples(SanitizedTitles(ts));
  }

  // ---------------------------------------------------------------------------
  // Known outputs
  // ---------------------------------------------------------------------------

  lemma DedupSnoc<T(!new)>(s: seq<T>, y: T)
    ensures Dedup(s + [y]) == if y in Dedup(s) then Dedup(s) else Dedup(s) + [y]
  {
    assert (s + [y])[..|s|] == s;
  }

  lemma DedupOfRepeat<T(!new)>(a: T, b: T)
    requires a != b
    ensures Dedup([a, a, b]) == [a, b]
    ensures Dedup([a, b, a]) == [a, b]
  {
    assert Dedup([a]) == [a] by {
      DedupSnoc([], a);
      assert [] + [a] == [a];
    }
    assert Dedup([a, a]) == [a] by {
      DedupSnoc([a], a);
      assert [a] + [a] == [a, a];
    }
    assert Dedup([a, b]) == [a, b] by {
      DedupSnoc([a], b);
      assert [a] + [b] == [a, b];
    }
    assert Dedup([a, a, b]) == [a, b] by {
      DedupSnoc([a, a], b);
      assert [a, a] + [b] == [a, a, b];
    }
    assert Dedup([a, b, a]) == [a, b] by {
      DedupSnoc([a, b], a);
      assert [a, b] + [a] == [a, b, a];
    }
  }

  lemma DedupOfPairsThenSingle<T(!new)>(a: T, b: T, c: T)
    requires a != b && b != c && a != c
    ensures Dedup([a, a, b, b, c]) == [a, b, c]
  {
    DedupOfRepeat(a, b);
    assert Dedup([a, a, b, b]) == [a, b] by {
      DedupSnoc([a, a, b], b);
      assert [a, a, b] + [b] == [a, a, b, b];
    }
    DedupSnoc([a, a, b, b], c);
    assert [a, a, b, b] + [c] == [a, a, b, b, c];
  }

  /** Two copies each of two titles and one of a third keep one copy of each, in order. */
  lemma SanitizeDuplicatePairs(a: string, b: string, c: string)
    requires a != b && b != c && a != c && NonBlank([a, b, c])
    ensures SanitizedTitles(AsJson([a, a, b, b, c])) == [a, b, c]
  {
    var titles := [a, a, b, b, c];
    assert NonBlank(titles) by { assert [a, b, c][0] == a && [a, b, c][1] == b && [a, b, c][2] == c; }
    UsableTitlesOfNonBlank(titles);
    DedupOfPairsThenSingle(a, b, c);
  }

  /** One usable title is padded with the first two placeholders. */
  lemma SanitizeSingleTitle(x: string)
    requires Trim(x) != []
    ensures SanitizedTitles([TitleString(x)]) == [x, Placeholders[0], Placeholders[1]]
  {
    var u := UsableTitles([TitleString(x)]);
    assert u == [x] by {
      UsableTitlesOfNonBlank([x]);
      assert AsJson([x]) == [TitleString(x)];
    }
    assert Dedup(u) == [x] by {
      DedupSnoc([], x);
      assert [] + [x] == [x];
    }
    assert LeadingTitles([TitleString(x)]) == [x];
    assert Placeholders[..RequiredTitles - 1] == [Placeholders[0], Placeholders[1]];
  }

  /** `["A","A","B","B","C"]` becomes `["A","B","C"]`. */
  lemma DuplicateLadenExample()
    ensures SanitizedTitles([TitleString("A"), TitleString("A"), TitleString("B"), TitleString("B"), TitleString("C")])
      == ["A", "B", "C"]
  {
    TrimIdentity("A");
    TrimIdentity("B");
    TrimIdentity("C");
    assert "A" != "B" by { assert "A"[0] != "B"[0]; }
    assert "C" != "B" by { assert "C"[0] != "B"[0]; }
    assert "A" != "C" by { assert "A"[0] != "C"[0]; }
    SanitizeDuplicatePairs("A", "B", "C");
    assert AsJson(["A", "A", "B", "B", "C"])
      == [TitleString("A"), TitleString("A"), TitleString("B"), TitleString("B"), TitleString("C")];
  }

  /** `["OnlyOne"]` is padded with the first two placeholders. */
  lemma SingleTitleExample()
    ensures SanitizedTitles([TitleString("OnlyOne")])
      == ["OnlyOne", "A/B Test This Title", "Try a More Emotional Angle"]
  {
    TrimIdentity("OnlyOne");
    SanitizeSingleTitle("OnlyOne");
  }

  /** No titles, or no titles array at all, gives the three placeholders in order. */
  lemma NoTitlesExample(p: ParsedAnalysis)
    requires p.suggestions.Some?
    requires p.suggestions.value.titles.None? || p.suggestions.value.titles == Some([])
    ensures SanitizedTitles([]) == Placeholders
    ensures Analysis(Json(p)).Ok? && Analysis(Json(p)).value.suggestions.titles == Placeholders
  {
  }

  lemma PlaceholdersNonBlankAndDistinct()
    ensures NonBlank(Placeholders) && Distinct(Placeholders)
  {
    TrimIdentity(Placeholders[0]);
    TrimIdentity(Placeholders[1]);
    TrimIdentity(Placeholders[2]);
  }

  /**
   * A surviving title equal to a placeholder is not kept apart from the padding:
   * `["A/B Test This Title"]` yields that title twice.
   */
  lemma PlaceholderTitleIsDuplicated()
    ensures SanitizedTitles([TitleString(Placeholders[0])]) == [Placeholders[0], Placeholders[0], Placeholders[1]]
    ensures !Distinct(SanitizedTitles([TitleString(Placeholders[0])]))
  {
    PlaceholdersNonBlankAndDistinct();
    SanitizeSingleTitle(Placeholders[0]);
    var r := SanitizedTitles([TitleString(Placeholders[0])]);
    assert r[0] == r[1];
  }

  lemma SanitizeRepeatedFirst(a: string, b: string)
    requires a != b && Trim(a) != [] && Trim(b) != []
    ensures SanitizedTitles(AsJson([a, a, b])) == [a, b, Placeholders[0]]
  {
    UsableTitlesOfNonBlank([a, a, b]);
    DedupOfRepeat(a, b);
  }

  /** Sanitising is not idempotent in general: the duplicated output above does not survive a second pass. */
  lemma SanitizeNotIdempotent()
    ensures var once := SanitizedTitles([TitleString(Placeholders[0])]);
      SanitizedTitles(AsJson(once)) == [Placeholders[0], Placeholders[1], Placeholders[0]]
      && SanitizedTitles(AsJson(once)) != once
  {
    PlaceholderTitleIsDuplicated();
    PlaceholdersNonBlankAndDistinct();
    SanitizeRepeatedFirst(Placeholders[0], Placeholders[1]);
  }

  /**
   * A list with a repeated title can still be a fixed point, when the repeat is
   * the placeholder it is padded with: `["A/B Test This Title", "Clickbait",
   * "A/B Test This Title"]` comes back unchanged.
   */
  lemma RepeatedPlaceholderFixedPoint()
    ensures var titles := [Placeholders[0], "Clickbait", Placeholders[0]];
      SanitizedTitles(AsJson(titles)) == titles && !Distinct(titles)
  {
    PlaceholdersNonBlankAndDistinct();
    TrimIdentity("Clickbait");
    var p0, c := Placeholders[0], "Clickbait";
    assert p0 != c by { assert p0[0] != c[0]; }
    var titles := [p0, c, p0];
    UsableTitlesOfNonBlank(titles);
    DedupOfRepeat(p0, c);
    assert titles[0] == titles[2];
  }
}
