/**
 * `extractVideoId` (App.tsx), the regular expression
 *   (?:youtube\.com\/(?:[^\/]+\/.+\/|(?:v|e(?:mbed)?)\/|.*[?&]v=)|youtu\.be\/)([^"&?\/\s]{11})
 * written out as the matcher a backtracking engine runs: the leftmost start
 * position that matches wins; at that position the alternatives are tried in
 * order; a greedy `.+` or `.*` prefers the LAST place (before a line
 * terminator) from which the rest still matches. The result is the 11
 * characters of the capture group.
 */
module VideoId {
  import opened Wrappers
  import opened JsText

  const IdLength: nat := 11
  const YoutubeComPrefix: string := "youtube.com/"
  const YoutuBePrefix: string := "youtu.be/"

  /** `[^"&?\/\s]` */
  predicate IsIdChar(c: char)
  {
    c != '"' && c != '&' && c != '?' && c != '/' && !IsWhitespace(c)
  }

  predicate IsIdToken(id: string)
  {
    |id| == IdLength && forall i :: 0 <= i < |id| ==> IsIdChar(id[i])
  }

  predicate LiteralAt(s: string, k: nat, lit: string)
  {
    k + |lit| <= |s| && s[k..k + |lit|] == lit
  }

  /** `([^"&?\/\s]{11})` matches at `k`. */
  predicate TokenAt(s: string, k: nat)
  {
    k + IdLength <= |s| && forall i :: k <= i < k + IdLength ==> IsIdChar(s[i])
  }

  /** The first line terminator at or after `k`, or |s|: how far `.` can reach from `k`. */
  function FirstLineTerminator(s: string, k: nat): (e: nat)
    requires k <= |s|
    ensures k <= e <= |s|
    ensures e < |s| ==> IsLineTerminator(s[e])
    ensures forall i :: k <= i < e ==> !IsLineTerminator(s[i])
    decreases |s| - k
  {
    if k == |s| || IsLineTerminator(s[k]) then k else FirstLineTerminator(s, k + 1)
  }

  /** A '/' at `j` followed by an id token. */
  predicate SlashBeforeToken(s: string, j: nat)
  {
    j < |s| && s[j] == '/' && TokenAt(s, j + 1)
  }

  /** A `?v=` or `&v=` at `j` followed by an id token. */
  predicate VParamBeforeToken(s: string, j: nat)
  {
    j < |s| && (s[j] == '?' || s[j] == '&') && LiteralAt(s, j + 1, "v=") && TokenAt(s, j + 3)
  }

  /** The last `j` in [lo, hi) with SlashBeforeToken(s, j). */
  function LastSlashBeforeToken(s: string, lo: nat, hi: nat): (r: Option<nat>)
    requires hi <= |s|
    ensures r.Some? ==> lo <= r.value < hi && SlashBeforeToken(s, r.value)
    ensures r.Some? ==> forall j :: r.value < j < hi ==> !SlashBeforeToken(s, j)
    ensures r.None? ==> forall j :: lo <= j < hi ==> !SlashBeforeToken(s, j)
    decreases hi
  {
    if hi <= lo then None
    else if SlashBeforeToken(s, hi - 1) then Some(hi - 1)
    else LastSlashBeforeToken(s, lo, hi - 1)
  }

  /** The last `j` in [lo, hi) with VParamBeforeToken(s, j). */
  function LastVParamBeforeToken(s: string, lo: nat, hi: nat): (r: Option<nat>)
    requires hi <= |s|
    ensures r.Some? ==> lo <= r.value < hi && VParamBeforeToken(s, r.value)
    ensures r.Some? ==> forall j :: r.value < j < hi ==> !VParamBeforeToken(s, j)
    ensures r.None? ==> forall j :: lo <= j < hi ==> !VParamBeforeToken(s, j)
    decreases hi
  {
    if hi <= lo then None
    else if VParamBeforeToken(s, hi - 1) then Some(hi - 1)
    else LastVParamBeforeToken(s, lo, hi - 1)
  }

  /**
   * `[^\/]+\/.+\/` then the token, from `q`: the first segment runs to the next
   * '/', and the greedy `.+` takes the last '/' before a line terminator that
   * an id token follows. Yields the start of the token.
   */
  function NestedPathId(s: string, q: nat): (r: Option<nat>)
    requires q <= |s|
    ensures r.Some? ==> q < r.value && TokenAt(s, r.value)
  {
    var e := CharFrom(s, '/', q);
    if e == q || e == |s| then None
    else
      match LastSlashBeforeToken(s, e + 2, FirstLineTerminator(s, e + 1))
      case Some(j) => Some(j + 1)
      case None => None
  }

  /** `(?:v|e(?:mbed)?)\/` then the token, from `q`. */
  function ShortPathId(s: string, q: nat): (r: Option<nat>)
    ensures r.Some? ==> q < r.value && TokenAt(s, r.value)
  {
    if LiteralAt(s, q, "v/") && TokenAt(s, q + 2) then Some(q + 2)
    else if LiteralAt(s, q, "embed/") && TokenAt(s, q + 6) then Some(q + 6)
    else if LiteralAt(s, q, "e/") && TokenAt(s, q + 2) then Some(q + 2)
    else None
  }

  /** `.*[?&]v=` then the token, from `q`: the greedy `.*` takes the last such parameter before a line terminator. */
  function QueryParamId(s: string, q: nat): (r: Option<nat>)
    requires q <= |s|
    ensures r.Some? ==> q < r.value && TokenAt(s, r.value)
  {
    match LastVParamBeforeToken(s, q, FirstLineTerminator(s, q))
    case Some(j) => Some(j + 3)
    case None => None
  }

  /** Where the capture group starts when the whole expression is matched from position `p`. */
  function MatchAt(s: string, p: nat): (r: Option<nat>)
    requires p <= |s|
    ensures r.Some? ==> TokenAt(s, r.value)
    ensures r.Some? ==>
      (LiteralAt(s, p, YoutubeComPrefix) && p + |YoutubeComPrefix| < r.value)
      || (LiteralAt(s, p, YoutuBePrefix) && r.value == p + |YoutuBePrefix|)
  {
    if LiteralAt(s, p, YoutubeComPrefix) then
      var q := p + |YoutubeComPrefix|;
      var nested := NestedPathId(s, q);
      if nested.Some? then nested
      else
        var short := ShortPathId(s, q);
        if short.Some? then short else QueryParamId(s, q)
    else if LiteralAt(s, p, YoutuBePrefix) && TokenAt(s, p + |YoutuBePrefix|) then
      Some(p + |YoutuBePrefix|)
    else None
  }

  /** `s` contains a `youtube.com/` that ends before `k`, or a `youtu.be/` that ends exactly at `k`. */
  ghost predicate PrefixBefore(s: string, k: nat)
  {
    exists p: nat ::
      (LiteralAt(s, p, YoutubeComPrefix) && p + |YoutubeComPrefix| < k)
      || (LiteralAt(s, p, YoutuBePrefix) && k == p + |YoutuBePrefix|)
  }

  /** `p'` is the first position from `p` on at which the expression matches. */
  ghost predicate LeftmostMatch(s: string, p: nat, p': nat)
    requires p' <= |s|
  {
    p <= p' && MatchAt(s, p').Some? && forall i :: p <= i < p' ==> MatchAt(s, i).None?
  }

  /** The capture group of the match from `p`. */
  function CaptureAt(s: string, p: nat): string
    requires p <= |s| && MatchAt(s, p).Some?
  {
    var k := MatchAt(s, p).value;
    s[k..k + IdLength]
  }

  /** The leftmost match from position `p` on. */
  function ExtractFrom(s: string, p: nat): (r: Option<string>)
    requires p <= |s|
    ensures r.Some? ==> IsIdToken(r.value)
    ensures r.Some? ==> exists p': nat :: p' <= |s| && LeftmostMatch(s, p, p') && r.value == CaptureAt(s, p')
    ensures r.Some? ==> exists k :: p <= k && TokenAt(s, k) && PrefixBefore(s, k) && r.value == s[k..k + IdLength]
    ensures r.None? ==> forall p' :: p <= p' <= |s| ==> MatchAt(s, p').None?
    decreases |s| - p
  {
    match MatchAt(s, p)
    case Some(k) =>
      assert LeftmostMatch(s, p, p) && CaptureAt(s, p) == s[k..k + IdLength];
      Some(s[k..k + IdLength])
    case None =>
      if p == |s| then None else ExtractFrom(s, p + 1)
  }

  /** `extractVideoId(url)`: the 11-character id, or None where the source returns null. */
  function ExtractVideoId(url: string): (r: Option<string>)
    ensures r.Some? ==> IsIdToken(r.value)
    ensures r.None? <==> forall p :: 0 <= p <= |url| ==> MatchAt(url, p).None?
  {
    ExtractFrom(url, 0)
  }

  /**
   * A returned id is the capture of the leftmost match, and it sits right
   * behind a `youtu.be/` or somewhere behind a `youtube.com/`.
   */
  lemma ExtractedIdIsLeftmostCapture(url: string)
    requires ExtractVideoId(url).Some?
    ensures exists p: nat :: p <= |url| && LeftmostMatch(url, 0, p) && ExtractVideoId(url).value == CaptureAt(url, p)
    ensures exists k: nat :: TokenAt(url, k) && PrefixBefore(url, k) && ExtractVideoId(url).value == url[k..k + IdLength]
  {
    var r := ExtractFrom(url, 0);
    assert r == ExtractVideoId(url);
  }

  /** No `youtube.com/` and no `youtu.be/` anywhere: the result is null. */
  lemma NoPrefixNoId(url: string)
    requires forall p: nat :: !LiteralAt(url, p, YoutubeComPrefix) && !LiteralAt(url, p, YoutuBePrefix)
    ensures ExtractVideoId(url).None?
  {
  }

  lemma LiteralHead(s: string, k: nat, lit: string)
    requires |lit| > 0 && LiteralAt(s, k, lit)
    ensures s[k] == lit[0]
  {
    assert s[k..k + |lit|][0] == s[k];
  }

  /** Both prefixes start with 'y', so no match can start anywhere else. */
  lemma NoMatchWithoutY(s: string, p: nat)
    requires p < |s| && s[p] != 'y'
    ensures MatchAt(s, p).None?
  {
    if LiteralAt(s, p, YoutubeComPrefix) { LiteralHead(s, p, YoutubeComPrefix); }
    if LiteralAt(s, p, YoutuBePrefix) { LiteralHead(s, p, YoutuBePrefix); }
  }

  lemma {:induction false} SkipWithoutY(s: string, p: nat, p': nat)
    requires p <= p' <= |s|
    requires 'y' !in s[p..p']
    ensures ExtractFrom(s, p) == ExtractFrom(s, p')
    decreases p' - p
  {
    if p < p' {
      assert s[p] == s[p..p'][0];
      NoMatchWithoutY(s, p);
      assert s[p + 1..p'] == s[p..p'][1..];
      SkipWithoutY(s, p + 1, p');
    }
  }

  /** An 11-character string all of whose characters are allowed is an id token. */
  lemma IdTokenOfChars(id: string)
    requires |id| == IdLength && forall c :: c in id ==> IsIdChar(c)
    ensures IsIdToken(id)
  {
    forall i | 0 <= i < |id|
      ensures IsIdChar(id[i])
    {
      assert id[i] in id;
    }
  }

  /** Characters of `s` at [at, at + |id|) are those of `id`, an id token. */
  lemma TokenFromId(s: string, at: nat, id: string)
    requires IsIdToken(id) && at + |id| <= |s| && s[at..at + |id|] == id
    ensures TokenAt(s, at)
  {
    forall i | at <= i < at + IdLength
      ensures IsIdChar(s[i])
    {
      assert s[i] == s[at..at + |id|][i - at];
    }
  }

  /** Slicing inside the first part of a concatenation. */
  lemma SliceOfPrefix(pre: string, tail: string, i: nat, j: nat)
    requires i <= j <= |pre|
    ensures (pre + tail)[i..j] == pre[i..j]
  {
  }

  lemma SliceOfMiddle(pre: string, id: string, rest: string)
    ensures (pre + id + rest)[|pre|..|pre| + |id|] == id
  {
  }

  /** A `youtu.be/` at `p`, with no 'y' before it, followed by an id token: that token is the id. */
  lemma ShortLinkAt(s: string, p: nat, id: string)
    requires IsIdToken(id) && p + |YoutuBePrefix| + IdLength <= |s|
    requires 'y' !in s[0..p]
    requires s[p..p + |YoutuBePrefix|] == YoutuBePrefix
    requires !LiteralAt(s, p, YoutubeComPrefix)
    requires s[p + |YoutuBePrefix|..p + |YoutuBePrefix| + IdLength] == id
    ensures ExtractVideoId(s) == Some(id)
  {
    SkipWithoutY(s, 0, p);
    TokenFromId(s, p + |YoutuBePrefix|, id);
  }

  /** `https://youtu.be/<id>` gives `id`, whatever follows it. */
  lemma ShortLinkGivesId(id: string, rest: string)
    requires IsIdToken(id)
    ensures ExtractVideoId("https://youtu.be/" + id + rest) == Some(id)
  {
    var pre := "https://youtu.be/";
    var s := pre + id + rest;
    SliceOfPrefix(pre, id + rest, 0, 8);
    SliceOfPrefix(pre, id + rest, 8, 17);
    assert s == pre + (id + rest);
    assert pre[0..8] == "https://" && pre[8..17] == YoutuBePrefix;
    assert !LiteralAt(s, 8, YoutubeComPrefix) by {
      assert s[8..20][5] == s[13] == pre[13] == '.';
      assert YoutubeComPrefix[5] == 'b';
    }
    SliceOfMiddle(pre, id, rest);
    ShortLinkAt(s, 8, id);
  }

  /** Scanning from the start reaches a `youtube.com/` at `p` unmatched. */
  lemma ScanToYoutubeCom(s: string, p: nat)
    requires p + |YoutubeComPrefix| <= |s| && 'y' !in s[0..p]
    requires s[p..p + |YoutubeComPrefix|] == YoutubeComPrefix
    ensures LiteralAt(s, p, YoutubeComPrefix)
    ensures ExtractVideoId(s) == ExtractFrom(s, p)
  {
    SkipWithoutY(s, 0, p);
  }

  /** Characters of `s[lo..hi]` are all characters of `lit`. */
  lemma CharsOfLiteral(s: string, lo: nat, hi: nat, lit: string, i: nat)
    requires lo <= i < hi <= |s| && s[lo..hi] == lit
    ensures s[i] in lit
  {
    assert s[i] == s[lo..hi][i - lo];
  }

  /**
   * After `youtube.com/` at `q`: `watch?v=<id>` with neither a '/' nor a further
   * `?v=`/`&v=` behind it is taken by the third alternative, at the `?v=`.
   */
  lemma WatchPathAt(s: string, q: nat, id: string)
    requires IsIdToken(id) && q + 19 <= |s|
    requires s[q..q + 8] == "watch?v=" && s[q + 8..q + 19] == id
    requires NoSlash(s[q + 19..]) && NoVParam(s[q + 19..])
    ensures NestedPathId(s, q).None? && ShortPathId(s, q).None? && QueryParamId(s, q) == Some(q + 8)
  {
    WatchPathNotNested(s, q, id);
    assert s[q] == s[q..q + 8][0] == 'w';
    if LiteralAt(s, q, "v/") { LiteralHead(s, q, "v/"); }
    if LiteralAt(s, q, "embed/") { LiteralHead(s, q, "embed/"); }
    if LiteralAt(s, q, "e/") { LiteralHead(s, q, "e/"); }
    WatchPathQuery(s, q, id);
  }

  /** With no '/' after `q`, the nested-path alternative has nothing to match. */
  lemma WatchPathNotNested(s: string, q: nat, id: string)
    requires IsIdToken(id) && q + 19 <= |s|
    requires s[q..q + 8] == "watch?v=" && s[q + 8..q + 19] == id
    requires NoSlash(s[q + 19..])
    ensures NestedPathId(s, q).None?
  {
    forall i | q <= i < |s|
      ensures s[i] != '/'
    {
      if i < q + 8 { CharsOfLiteral(s, q, q + 8, "watch?v=", i); }
      else if i < q + 19 { assert s[i] == id[i - q - 8]; }
      else { assert s[i] == s[q + 19..][i - q - 19]; }
    }
  }

  /** The last `?v=`/`&v=` before a line terminator is the one at `q + 5`. */
  lemma WatchPathQuery(s: string, q: nat, id: string)
    requires IsIdToken(id) && q + 19 <= |s|
    requires s[q..q + 8] == "watch?v=" && s[q + 8..q + 19] == id
    requires NoVParam(s[q + 19..])
    ensures QueryParamId(s, q) == Some(q + 8)
  {
    var L := FirstLineTerminator(s, q);
    forall i | q <= i < q + 19
      ensures !IsLineTerminator(s[i])
    {
      if i < q + 8 { CharsOfLiteral(s, q, q + 8, "watch?v=", i); }
      else { assert s[i] == id[i - q - 8]; }
    }
    assert L >= q + 19;
    TokenFromId(s, q + 8, id);
    assert VParamBeforeToken(s, q + 5) by {
      assert s[q + 5] == s[q..q + 8][5] == '?';
      assert s[q + 6..q + 8] == s[q..q + 8][6..8] == "v=";
    }
    forall j | q + 5 < j < L
      ensures !VParamBeforeToken(s, j)
    {
      if j < q + 8 {
        assert s[j] == s[q..q + 8][j - q];
      } else if j < q + 19 {
        assert s[j] == id[j - q - 8];
      } else {
        var t := s[q + 19..];
        var k := j - q - 19;
        assert s[j] == t[k];
        if j + 3 <= |s| {
          assert s[j + 1..j + 3] == t[k + 1..k + 3];
        }
      }
    }
    assert LastVParamBeforeToken(s, q, L) == Some(q + 5);
  }

  /** No `?v=` or `&v=` anywhere in `s`. */
  predicate NoVParam(s: string)
  {
    forall j: nat :: j < |s| && (s[j] == '?' || s[j] == '&') ==> !LiteralAt(s, j + 1, "v=")
  }

  /** No '/' anywhere in `s`. */
  predicate NoSlash(s: string)
  {
    forall j :: 0 <= j < |s| ==> s[j] != '/'
  }

  /** `https://www.youtube.com/watch?v=<id>` gives `id` when what follows has no '/' and no further `?v=`/`&v=`. */
  lemma WatchLinkGivesId(id: string, rest: string)
    requires IsIdToken(id) && NoSlash(rest) && NoVParam(rest)
    ensures ExtractVideoId("https://www.youtube.com/watch?v=" + id + rest) == Some(id)
  {
    var pre := "https://www.youtube.com/watch?v=";
    var s := pre + id + rest;
    assert s == pre + (id + rest);
    SliceOfPrefix(pre, id + rest, 0, 12);
    SliceOfPrefix(pre, id + rest, 12, 24);
    SliceOfPrefix(pre, id + rest, 24, 32);
    assert pre[0..12] == "https://www.";
    assert pre[12..24] == YoutubeComPrefix;
    assert pre[24..32] == "watch?v=";
    SliceOfMiddle(pre, id, rest);
    assert s[32 + 11..] == rest;
    ScanToYoutubeCom(s, 12);
    WatchPathAt(s, 24, id);
  }

  /** After `youtube.com/` at `q`: `embed/<id>` with no '/' behind it is taken by the second alternative. */
  lemma EmbedPathAt(s: string, q: nat, id: string)
    requires IsIdToken(id) && q + 17 <= |s|
    requires s[q..q + 6] == "embed/" && s[q + 6..q + 17] == id
    requires NoSlash(s[q + 17..])
    ensures NestedPathId(s, q).None? && ShortPathId(s, q) == Some(q + 6)
  {
    assert s[q..q + 5] == s[q..q + 6][..5] == "embed";
    forall i | q <= i < q + 5
      ensures s[i] != '/'
    {
      CharsOfLiteral(s, q, q + 5, "embed", i);
    }
    assert s[q + 5] == s[q..q + 6][5] == '/';
    assert CharFrom(s, '/', q) == q + 5;
    forall j | q + 7 <= j < |s|
      ensures !SlashBeforeToken(s, j)
    {
      if j < q + 17 { assert s[j] == id[j - q - 6]; }
      else { assert s[j] == s[q + 17..][j - q - 17]; }
    }
    assert s[q] == s[q..q + 6][0] == 'e';
    if LiteralAt(s, q, "v/") { LiteralHead(s, q, "v/"); }
    TokenFromId(s, q + 6, id);
  }

  /** `https://www.youtube.com/embed/<id>` gives `id` when what follows has no '/'. */
  lemma EmbedLinkGivesId(id: string, rest: string)
    requires IsIdToken(id) && NoSlash(rest)
    ensures ExtractVideoId("https://www.youtube.com/embed/" + id + rest) == Some(id)
  {
    var pre := "https://www.youtube.com/embed/";
    var s := pre + id + rest;
    assert s == pre + (id + rest);
    SliceOfPrefix(pre, id + rest, 0, 12);
    SliceOfPrefix(pre, id + rest, 12, 24);
    SliceOfPrefix(pre, id + rest, 24, 30);
    assert pre[0..12] == "https://www.";
    assert pre[12..24] == YoutubeComPrefix;
    assert pre[24..30] == "embed/";
    SliceOfMiddle(pre, id, rest);
    assert s[30 + 11..] == rest;
    ScanToYoutubeCom(s, 12);
    EmbedPathAt(s, 24, id);
  }

  /** After `youtube.com/` at `q`: in `embed/<a>/<b>` the first alternative matches, with the greedy `.+` reaching the second '/'. */
  lemma EmbedTrailingAt(s: string, q: nat, a: string, b: string)
    requires IsIdToken(a) && IsIdToken(b) && |s| == q + 29
    requires s[q..q + 6] == "embed/" && s[q + 6..q + 17] == a && s[q + 17] == '/' && s[q + 18..] == b
    ensures NestedPathId(s, q) == Some(q + 18)
  {
    assert s[q..q + 5] == s[q..q + 6][..5] == "embed";
    forall i | q <= i < q + 5
      ensures s[i] != '/'
    {
      CharsOfLiteral(s, q, q + 5, "embed", i);
    }
    assert s[q + 5] == s[q..q + 6][5] == '/';
    assert CharFrom(s, '/', q) == q + 5;
    forall i | q + 6 <= i < |s|
      ensures !IsLineTerminator(s[i])
    {
      if i < q + 17 { assert s[i] == a[i - q - 6]; }
      else if i > q + 17 { assert s[i] == b[i - q - 18]; }
    }
    assert FirstLineTerminator(s, q + 6) == |s|;
    TokenFromId(s, q + 18, b);
    assert SlashBeforeToken(s, q + 17);
    forall j | q + 17 < j < |s|
      ensures !SlashBeforeToken(s, j)
    {
      assert s[j] == b[j - q - 18];
    }
    assert LastSlashBeforeToken(s, q + 7, |s|) == Some(q + 17);
  }

  /** Where the parts of `https://www.youtube.com/embed/<a>/<b>` sit. */
  lemma EmbedTrailingLayout(a: string, b: string)
    requires |a| == IdLength && |b| == IdLength
    ensures var s := "https://www.youtube.com/embed/" + a + ("/" + b);
      && |s| == 53 && 'y' !in s[0..12] && s[12..24] == YoutubeComPrefix
      && s[24..30] == "embed/" && s[30..41] == a && s[41] == '/' && s[42..] == b
  {
    var pre := "https://www.youtube.com/embed/";
    var s := pre + a + ("/" + b);
    var tail := a + ("/" + b);
    assert s == pre + tail;
    SliceOfPrefix(pre, tail, 0, 12);
    SliceOfPrefix(pre, tail, 12, 24);
    SliceOfPrefix(pre, tail, 24, 30);
    assert pre[0..12] == "https://www.";
    assert pre[12..24] == YoutubeComPrefix;
    assert pre[24..30] == "embed/";
    Layout(pre, a, "/" + b);
    assert s[41..][0] == '/' && s[41..][1..] == b;
    assert s[42..] == s[41..][1..];
  }

  lemma EmbedTrailingIn(s: string, a: string, b: string)
    requires IsIdToken(a) && IsIdToken(b) && |s| == 53
    requires 'y' !in s[0..12] && s[12..24] == YoutubeComPrefix
    requires s[24..30] == "embed/" && s[30..41] == a && s[41] == '/' && s[42..] == b
    ensures ExtractVideoId(s) == Some(b)
  {
    ScanToYoutubeCom(s, 12);
    EmbedTrailingAt(s, 24, a, b);
    assert s[42..53] == b;
  }

  /** The id of `https://www.youtube.com/embed/<a>/<b>` is `b`, not `a`. */
  lemma EmbedTrailingSegmentWins(a: string, b: string)
    requires IsIdToken(a) && IsIdToken(b)
    ensures ExtractVideoId("https://www.youtube.com/embed/" + a + ("/" + b)) == Some(b)
  {
    EmbedTrailingLayout(a, b);
    EmbedTrailingIn("https://www.youtube.com/embed/" + a + ("/" + b), a, b);
  }

  /** After `youtube.com/` at `q`: in `watch?v=<a>&v=<b>` the greedy `.*` of the third alternative reaches the `&v=`. */
  lemma WatchLaterAt(s: string, q: nat, a: string, b: string)
    requires IsIdToken(a) && IsIdToken(b) && |s| == q + 33
    requires s[q..q + 8] == "watch?v=" && s[q + 8..q + 19] == a && s[q + 19..q + 22] == "&v=" && s[q + 22..] == b
    ensures NestedPathId(s, q).None? && ShortPathId(s, q).None? && QueryParamId(s, q) == Some(q + 22)
  {
    forall i | q <= i < |s|
      ensures s[i] != '/' && !IsLineTerminator(s[i])
    {
      if i < q + 8 { CharsOfLiteral(s, q, q + 8, "watch?v=", i); }
      else if i < q + 19 { assert s[i] == a[i - q - 8]; }
      else if i < q + 22 { CharsOfLiteral(s, q + 19, q + 22, "&v=", i); }
      else { assert s[i] == b[i - q - 22]; }
    }
    assert NestedPathId(s, q).None?;
    assert s[q] == s[q..q + 8][0] == 'w';
    if LiteralAt(s, q, "v/") { LiteralHead(s, q, "v/"); }
    if LiteralAt(s, q, "embed/") { LiteralHead(s, q, "embed/"); }
    if LiteralAt(s, q, "e/") { LiteralHead(s, q, "e/"); }
    assert ShortPathId(s, q).None?;
    assert FirstLineTerminator(s, q) == |s|;
    TokenFromId(s, q + 22, b);
    assert VParamBeforeToken(s, q + 19) by {
      assert s[q + 19] == s[q + 19..q + 22][0] == '&';
      assert s[q + 20..q + 22] == s[q + 19..q + 22][1..3] == "v=";
    }
    forall j | q + 19 < j < |s|
      ensures !VParamBeforeToken(s, j)
    {
      if j < q + 22 { assert s[j] == s[q + 19..q + 22][j - q - 19]; }
      else { assert s[j] == b[j - q - 22]; }
    }
    assert LastVParamBeforeToken(s, q, |s|) == Some(q + 19);
  }

  /** Where the parts of `https://www.youtube.com/watch?v=<a>&v=<b>` sit. */
  lemma WatchLaterLayout(a: string, b: string)
    requires |a| == IdLength && |b| == IdLength
    ensures var s := "https://www.youtube.com/watch?v=" + a + ("&v=" + b);
      && |s| == 57 && 'y' !in s[0..12] && s[12..24] == YoutubeComPrefix
      && s[24..32] == "watch?v=" && s[32..43] == a && s[43..46] == "&v=" && s[46..] == b
  {
    var pre := "https://www.youtube.com/watch?v=";
    var s := pre + a + ("&v=" + b);
    var tail := a + ("&v=" + b);
    assert s == pre + tail;
    SliceOfPrefix(pre, tail, 0, 12);
    SliceOfPrefix(pre, tail, 12, 24);
    SliceOfPrefix(pre, tail, 24, 32);
    assert pre[0..12] == "https://www.";
    assert pre[12..24] == YoutubeComPrefix;
    assert pre[24..32] == "watch?v=";
    Layout(pre, a, "&v=" + b);
    assert s[43..][..3] == "&v=" && s[43..][3..] == b;
    assert s[43..46] == s[43..][..3];
    assert s[46..] == s[43..][3..];
  }

  lemma WatchLaterIn(s: string, a: string, b: string)
    requires IsIdToken(a) && IsIdToken(b) && |s| == 57
    requires 'y' !in s[0..12] && s[12..24] == YoutubeComPrefix
    requires s[24..32] == "watch?v=" && s[32..43] == a && s[43..46] == "&v=" && s[46..] == b
    ensures ExtractVideoId(s) == Some(b)
  {
    ScanToYoutubeCom(s, 12);
    WatchLaterAt(s, 24, a, b);
    assert s[46..57] == b;
  }

  /** The id of `https://www.youtube.com/watch?v=<a>&v=<b>` is `b`, not `a`. */
  lemma WatchLaterParameterWins(a: string, b: string)
    requires IsIdToken(a) && IsIdToken(b)
    ensures ExtractVideoId("https://www.youtube.com/watch?v=" + a + ("&v=" + b)) == Some(b)
  {
    WatchLaterLayout(a, b);
    WatchLaterIn("https://www.youtube.com/watch?v=" + a + ("&v=" + b), a, b);
  }

  /** The three parts of `pre + mid + rest`, sliced back out. */
  lemma Layout(pre: string, mid: string, rest: string)
    ensures (pre + mid + rest)[..|pre|] == pre
    ensures (pre + mid + rest)[|pre|..|pre| + |mid|] == mid
    ensures (pre + mid + rest)[|pre| + |mid|..] == rest
  {
  }

  /** The three link shapes of one video give the same id. */
  lemma EquivalentLinksAgree(id: string)
    requires IsIdToken(id)
    ensures ExtractVideoId("https://youtu.be/" + id) == Some(id)
    ensures ExtractVideoId("https://www.youtube.com/watch?v=" + id) == Some(id)
    ensures ExtractVideoId("https://www.youtube.com/embed/" + id) == Some(id)
  {
    assert "https://youtu.be/" + id + "" == "https://youtu.be/" + id;
    ShortLinkGivesId(id, "");
    assert "https://www.youtube.com/watch?v=" + id + "" == "https://www.youtube.com/watch?v=" + id;
    WatchLinkGivesId(id, "");
    assert "https://www.youtube.com/embed/" + id + "" == "https://www.youtube.com/embed/" + id;
    EmbedLinkGivesId(id, "");
  }
}
