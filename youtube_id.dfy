/**
 * The identifier extractor of the dashboard (`extractYouTubeId` in app.js).
 *
 * The input is trimmed as JavaScript's `String.prototype.trim` does, then five
 * regular expressions are tried in a fixed order and the first that matches
 * decides the result.  None of the expressions has alternation or variable
 * repetition, so each one is written out here as a fixed sequence of character
 * classes and a leftmost search, which is what `String.prototype.match`
 * performs for an expression without the global flag.
 */
module YouTubeId {
  import opened Wrappers

  /** Length of a canonical video id. */
  const IdLength: nat := 11

  /** The characters JavaScript's `trim` removes: WhiteSpace and LineTerminator. */
  predicate IsJsWhitespace(c: char) {
    var n := c as int;
    n == 0x09 || n == 0x0A || n == 0x0B || n == 0x0C || n == 0x0D || n == 0x20
    || n == 0xA0 || n == 0x1680 || (0x2000 <= n <= 0x200A) || n == 0x2028
    || n == 0x2029 || n == 0x202F || n == 0x205F || n == 0x3000 || n == 0xFEFF
  }

  /** The character class `[a-zA-Z0-9_-]`. */
  predicate IsIdChar(c: char) {
    ('a' <= c <= 'z') || ('A' <= c <= 'Z') || ('0' <= c <= '9') || c == '_' || c == '-'
  }

  /** `[a-zA-Z0-9_-]{11}` matches `s` from position `i`. */
  predicate IdRunAt(s: string, i: nat) {
    i + IdLength <= |s| && forall k :: i <= k < i + IdLength ==> IsIdChar(s[k])
  }

  /** `s` is a canonical video id: `^[a-zA-Z0-9_-]{11}$`. */
  predicate IsId(s: string) {
    |s| == IdLength && IdRunAt(s, 0)
  }

  /** `w` occurs in `s` starting at position `i`. */
  predicate OccursAt(w: string, s: string, i: nat) {
    i + |w| <= |s| && s[i..i + |w|] == w
  }

  /** `w` occurs in `s` as a contiguous run of characters. */
  ghost predicate IsSubstring(w: string, s: string) {
    exists i: nat :: OccursAt(w, s, i)
  }

  // ---------------------------------------------------------------- trim

  /** Number of white-space characters at the start of `s`. */
  function LeadingSpace(s: string): (k: nat)
    ensures k <= |s|
    ensures forall i :: 0 <= i < k ==> IsJsWhitespace(s[i])
    ensures k < |s| ==> !IsJsWhitespace(s[k])
  {
    if |s| == 0 || !IsJsWhitespace(s[0]) then 0 else 1 + LeadingSpace(s[1..])
  }

  /** Number of white-space characters at the end of `s`. */
  function TrailingSpace(s: string): (k: nat)
    ensures k <= |s|
    ensures forall i :: |s| - k <= i < |s| ==> IsJsWhitespace(s[i])
    ensures k < |s| ==> !IsJsWhitespace(s[|s| - 1 - k])
  {
    if |s| == 0 || !IsJsWhitespace(s[|s| - 1]) then 0 else 1 + TrailingSpace(s[..|s| - 1])
  }

  /**
   * `s.trim()`: the run of `s` left once the white space at both ends is
   * removed.  The result starts right after the leading white space, everything
   * after it is white space, and it neither starts nor ends with white space.
   */
  function Trim(s: string): (t: string)
    ensures LeadingSpace(s) + |t| <= |s|
    ensures t == s[LeadingSpace(s)..LeadingSpace(s) + |t|]
    ensures forall i :: LeadingSpace(s) + |t| <= i < |s| ==> IsJsWhitespace(s[i])
    ensures |t| > 0 ==> !IsJsWhitespace(t[0]) && !IsJsWhitespace(t[|t| - 1])
  {
    var rest := s[LeadingSpace(s)..];
    rest[..|rest| - TrailingSpace(rest)]
  }

  /** A string that neither starts nor ends with white space is its own trim. */
  lemma TrimUnchanged(s: string)
    requires |s| > 0 ==> !IsJsWhitespace(s[0]) && !IsJsWhitespace(s[|s| - 1])
    ensures Trim(s) == s
  {
    assert LeadingSpace(s) == 0;
    assert TrailingSpace(s) == 0;
  }

  // ------------------------------------------------------------- patterns

  /** The literal part of a pattern: one character class per position. */
  type Prefix = seq<set<char>>

  /** The classes that match the characters of `w` literally. */
  function Literal(w: string): (p: Prefix)
    ensures |p| == |w| && forall k :: 0 <= k < |w| ==> p[k] == {w[k]}
  {
    seq(|w|, k requires 0 <= k < |w| => {w[k]})
  }

  /** `[?&]v=` */
  const QueryKey: Prefix := [{'?', '&'}] + Literal("v=")

  /** `youtu\.be\/` */
  const ShortLink: Prefix := Literal("youtu.be/")

  /** `\/embed\/` */
  const EmbedPath: Prefix := Literal("/embed/")

  /** The expression `p([a-zA-Z0-9_-]{11})` matches `s` from position `i`. */
  predicate MatchAt(s: string, p: Prefix, i: nat) {
    && i + |p| + IdLength <= |s|
    && (forall k :: 0 <= k < |p| ==> s[i + k] in p[k])
    && IdRunAt(s, i + |p|)
  }

  /** The leftmost position at or after `from` where `p([a-zA-Z0-9_-]{11})` matches. */
  function FindFrom(s: string, p: Prefix, from: nat): (r: Option<nat>)
    ensures r.Some? ==> from <= r.value && MatchAt(s, p, r.value)
    ensures r.Some? ==> forall j :: from <= j < r.value ==> !MatchAt(s, p, j)
    ensures r.None? ==> forall j :: from <= j ==> !MatchAt(s, p, j)
    decreases |s| - from
  {
    if from + |p| + IdLength > |s| then None
    else if MatchAt(s, p, from) then Some(from)
    else FindFrom(s, p, from + 1)
  }

  /** `s.match(p([a-zA-Z0-9_-]{11}))`, giving capture group 1 of the leftmost match. */
  function FirstCapture(s: string, p: Prefix): (r: Option<string>)
    ensures r.Some? ==> IsId(r.value) && IsSubstring(r.value, s)
  {
    match FindFrom(s, p, 0)
    case None => None
    case Some(i) =>
      assert OccursAt(s[i + |p|..i + |p| + IdLength], s, i + |p|);
      Some(s[i + |p|..i + |p| + IdLength])
  }

  /** `([a-zA-Z0-9_-]{11})$` matches: the only start it can match from is `|s| - 11`. */
  predicate EndsWithId(s: string) {
    |s| >= IdLength && IdRunAt(s, |s| - IdLength)
  }

  // ------------------------------------------------------------ extractor

  /** The five rules of the extractor applied, in order, to the trimmed input `t`. */
  function ExtractFromTrimmed(t: string): (r: Option<string>)
    ensures r.Some? ==> IsId(r.value) && IsSubstring(r.value, t)
  {
    if IsId(t) then
      assert OccursAt(t, t, 0);
      Some(t)
    else if FirstCapture(t, QueryKey).Some? then FirstCapture(t, QueryKey)
    else if FirstCapture(t, ShortLink).Some? then FirstCapture(t, ShortLink)
    else if FirstCapture(t, EmbedPath).Some? then FirstCapture(t, EmbedPath)
    else if EndsWithId(t) then
      assert OccursAt(t[|t| - IdLength..], t, |t| - IdLength);
      Some(t[|t| - IdLength..])
    else None
  }

  /**
   * `extractYouTubeId(url)`, with `None` for `null`.  A null or empty input
   * gives no id; any id returned is 11 characters from `[A-Za-z0-9_-]` and is
   * a contiguous piece of the trimmed input.
   */
  function ExtractYouTubeId(url: Option<string>): (r: Option<string>)
    ensures url.None? || url.value == "" ==> r.None?
    ensures r.Some? ==> url.Some? && IsId(r.value) && IsSubstring(r.value, Trim(url.value))
  {
    if url.None? || url.value == "" then None
    else ExtractFromTrimmed(Trim(url.value))
  }

  // ----------------------------------------------------------- rule order

  /** No position of `s` matches `p([a-zA-Z0-9_-]{11})`. */
  ghost predicate NoMatch(s: string, p: Prefix) {
    forall j: nat :: !MatchAt(s, p, j)
  }

  /** `i` is the leftmost position where `p([a-zA-Z0-9_-]{11})` matches `s`. */
  ghost predicate LeftmostAt(s: string, p: Prefix, i: nat) {
    MatchAt(s, p, i) && forall j: nat :: j < i ==> !MatchAt(s, p, j)
  }

  /** A match starts with a character of the pattern's first class. */
  lemma MatchStartsInFirstClass(s: string, p: Prefix, j: nat)
    requires |p| > 0 && MatchAt(s, p, j)
    ensures j < |s| && s[j] in p[0]
  {
    assert s[j + 0] in p[0];
  }

  /** The capture of a pattern is the id run right after its leftmost match. */
  lemma FirstCaptureIsLeftmost(s: string, p: Prefix, i: nat)
    requires LeftmostAt(s, p, i)
    ensures FirstCapture(s, p) == Some(s[i + |p|..i + |p| + IdLength])
  {
    var r := FindFrom(s, p, 0);
    assert r.Some?;
    assert !(r.value < i) && !(i < r.value);
  }

  /** Rule 1: a trimmed input that is itself an id is returned unchanged. */
  lemma BareIdRule(u: string)
    requires IsId(Trim(u))
    ensures ExtractYouTubeId(Some(u)) == Some(Trim(u))
  {
  }

  /** Rule 2: otherwise the leftmost `?v=` / `&v=` match decides. */
  lemma QueryRule(u: string, i: nat)
    requires !IsId(Trim(u)) && LeftmostAt(Trim(u), QueryKey, i)
    ensures ExtractYouTubeId(Some(u)) == Some(Trim(u)[i + 3..i + 3 + IdLength])
  {
    FirstCaptureIsLeftmost(Trim(u), QueryKey, i);
  }

  /** Rule 3: with no query match, the leftmost `youtu.be/` match decides. */
  lemma ShortLinkRule(u: string, i: nat)
    requires !IsId(Trim(u)) && NoMatch(Trim(u), QueryKey)
    requires LeftmostAt(Trim(u), ShortLink, i)
    ensures ExtractYouTubeId(Some(u)) == Some(Trim(u)[i + 9..i + 9 + IdLength])
  {
    assert FirstCapture(Trim(u), QueryKey).None?;
    FirstCaptureIsLeftmost(Trim(u), ShortLink, i);
  }

  /** Rule 4: with neither of those, the leftmost `/embed/` match decides. */
  lemma EmbedRule(u: string, i: nat)
    requires !IsId(Trim(u)) && NoMatch(Trim(u), QueryKey) && NoMatch(Trim(u), ShortLink)
    requires LeftmostAt(Trim(u), EmbedPath, i)
    ensures ExtractYouTubeId(Some(u)) == Some(Trim(u)[i + 7..i + 7 + IdLength])
  {
    assert FirstCapture(Trim(u), QueryKey).None?;
    assert FirstCapture(Trim(u), ShortLink).None?;
    FirstCaptureIsLeftmost(Trim(u), EmbedPath, i);
  }

  /** Rule 5: with none of the three, an input ending in 11 id characters gives those. */
  lemma TrailingRule(u: string)
    requires NoMatch(Trim(u), QueryKey) && NoMatch(Trim(u), ShortLink) && NoMatch(Trim(u), EmbedPath)
    requires EndsWithId(Trim(u))
    ensures ExtractYouTubeId(Some(u)) == Some(Trim(u)[|Trim(u)| - IdLength..])
  {
    var t := Trim(u);
    assert FirstCapture(t, QueryKey).None?;
    assert FirstCapture(t, ShortLink).None?;
    assert FirstCapture(t, EmbedPath).None?;
    if IsId(t) {
      assert t[|t| - IdLength..] == t;
    }
  }

  /** The extractor fails exactly when none of the rules 2 to 5 applies to the trimmed input. */
  lemma ExtractFailsIff(u: string)
    ensures ExtractYouTubeId(Some(u)).None? <==>
      && NoMatch(Trim(u), QueryKey) && NoMatch(Trim(u), ShortLink)
      && NoMatch(Trim(u), EmbedPath) && !EndsWithId(Trim(u))
  {
    var t := Trim(u);
    if FindFrom(t, QueryKey, 0).Some? {
      assert MatchAt(t, QueryKey, FindFrom(t, QueryKey, 0).value);
    }
    if FindFrom(t, ShortLink, 0).Some? {
      assert MatchAt(t, ShortLink, FindFrom(t, ShortLink, 0).value);
    }
    if FindFrom(t, EmbedPath, 0).Some? {
      assert MatchAt(t, EmbedPath, FindFrom(t, EmbedPath, 0).value);
    }
  }

  /**
   * Rule 1 never changes the outcome: an 11-character id is too short for
   * rules 2 to 4, and rule 5 returns the same 11 characters.
   */
  lemma BareIdRuleRedundant(t: string)
    requires IsId(t)
    ensures NoMatch(t, QueryKey) && NoMatch(t, ShortLink) && NoMatch(t, EmbedPath)
    ensures EndsWithId(t) && t[|t| - IdLength..] == t
  {
  }

  /** An id that the extractor returns extracts to itself. */
  lemma ExtractIsCanonical(url: Option<string>)
    ensures ExtractYouTubeId(url).Some? ==>
      ExtractYouTubeId(Some(ExtractYouTubeId(url).value)) == ExtractYouTubeId(url)
  {
    var r := ExtractYouTubeId(url);
    if r.Some? {
      TrimUnchanged(r.value);
    }
  }

  /** The id returned is also a contiguous piece of the raw, untrimmed input. */
  lemma ExtractedFromInput(url: Option<string>)
    ensures ExtractYouTubeId(url).Some? ==> IsSubstring(ExtractYouTubeId(url).value, url.value)
  {
    var r := ExtractYouTubeId(url);
    if r.Some? {
      var s := url.value;
      var t := Trim(s);
      var lo := LeadingSpace(s);
      var i: nat :| OccursAt(r.value, t, i);
      assert s[lo + i..lo + i + |r.value|] == t[i..i + |r.value|];
      assert OccursAt(r.value, s, lo + i);
    }
  }

  // ------------------------------------------------------ supported shapes

  /** A bare id is returned as it is. */
  lemma BareIdShape(id: string)
    requires IsId(id)
    ensures ExtractYouTubeId(Some(id)) == Some(id)
  {
    TrimUnchanged(id);
  }

  /** A watch URL `https://www.youtube.com/watch?v=<id>` gives its id. */
  lemma WatchUrlShape(id: string)
    requires IsId(id)
    ensures ExtractYouTubeId(Some("https://www.youtube.com/watch?v=" + id)) == Some(id)
  {
    var a := "https://www.youtube.com/watch";
    var s := a + "?v=" + id;
    assert s == "https://www.youtube.com/watch?v=" + id;
    assert |s| == 43 && s[0] == 'h' && s[42] == id[10];
    TrimUnchanged(s);
    assert '?' !in a && '&' !in a;
    forall j: nat | j < 29 ensures !MatchAt(s, QueryKey, j) {
      if MatchAt(s, QueryKey, j) {
        assert s[j] == a[j];
        MatchStartsInFirstClass(s, QueryKey, j);
      }
    }
    assert forall k :: 32 <= k < 43 ==> s[k] == id[k - 32];
    assert MatchAt(s, QueryKey, 29);
    QueryRule(s, 29);
    assert s[32..43] == id;
  }

  /** A short link `https://youtu.be/<id>` gives its id. */
  lemma ShortUrlShape(id: string)
    requires IsId(id)
    ensures ExtractYouTubeId(Some("https://youtu.be/" + id)) == Some(id)
  {
    var a, b := "https://", "youtu.be/";
    var s := a + b + id;
    assert s == "https://youtu.be/" + id;
    assert |s| == 28 && s[0] == 'h' && s[27] == id[10];
    TrimUnchanged(s);
    assert '?' !in a + b && '&' !in a + b && 'y' !in a;
    forall j: nat ensures !MatchAt(s, QueryKey, j) {
      if MatchAt(s, QueryKey, j) {
        assert s[j] == (a + b)[j];
        MatchStartsInFirstClass(s, QueryKey, j);
      }
    }
    forall j: nat | j < 8 ensures !MatchAt(s, ShortLink, j) {
      if MatchAt(s, ShortLink, j) {
        assert s[j] == a[j];
        MatchStartsInFirstClass(s, ShortLink, j);
      }
    }
    assert forall k :: 0 <= k < 9 ==> s[8 + k] == b[k];
    assert forall k :: 17 <= k < 28 ==> s[k] == id[k - 17];
    assert MatchAt(s, ShortLink, 8);
    ShortLinkRule(s, 8);
    assert s[17..28] == id;
  }

  /** A match has a character of class `k` of its pattern at offset `k`. */
  lemma MatchClassAt(s: string, p: Prefix, j: nat, k: nat)
    requires MatchAt(s, p, j) && k < |p|
    ensures j + k < |s| && s[j + k] in p[k]
  {
  }

  /** The host part `https://www.youtube.com`, cut where its `y` and its `/` characters are. */
  lemma YouTubeHostPieces(s: string)
    requires |s| >= 23 && s[..23] == "https://www.youtube.com"
    ensures forall j :: 0 <= j < 23 ==> s[j] != '?' && s[j] != '&'
    ensures forall j :: 0 <= j < 23 && j != 12 ==> s[j] != 'y'
    ensures forall j :: 0 <= j < 23 && j != 6 && j != 7 ==> s[j] != '/'
    ensures s[7] == '/' && s[8] == 'w' && s[17] == 'b'
  {
    var a, b, c, d, e := "https:", "//", "www.", "y", "outube.com";
    assert a + b + c + d + e == "https://www.youtube.com";
    assert forall j :: 0 <= j < 6 ==> s[j] == a[j];
    assert forall j :: 8 <= j < 12 ==> s[j] == c[j - 8];
    assert forall j :: 13 <= j < 23 ==> s[j] == e[j - 13];
    assert '?' !in a && '?' !in c && '?' !in e && '&' !in a && '&' !in c && '&' !in e;
    assert 'y' !in a && 'y' !in c && 'y' !in e;
    assert '/' !in a && '/' !in c && '/' !in e;
  }

  /** Neither `youtu.be/` nor `/embed/` starts within the host part `https://www.youtube.com`. */
  lemma YouTubeHostPart(s: string)
    requires |s| >= 23 && s[..23] == "https://www.youtube.com"
    ensures forall j :: 0 <= j < 23 ==> s[j] != '?' && s[j] != '&'
    ensures forall j: nat :: j < 23 ==> !MatchAt(s, ShortLink, j)
    ensures forall j: nat :: j < 23 ==> !MatchAt(s, EmbedPath, j)
  {
    YouTubeHostPieces(s);
    forall j: nat | j < 23 ensures !MatchAt(s, ShortLink, j) {
      if MatchAt(s, ShortLink, j) {
        if j == 12 {
          MatchClassAt(s, ShortLink, j, 5);
        } else {
          MatchStartsInFirstClass(s, ShortLink, j);
        }
      }
    }
    forall j: nat | j < 23 ensures !MatchAt(s, EmbedPath, j) {
      if MatchAt(s, EmbedPath, j) {
        if j == 6 || j == 7 {
          MatchClassAt(s, EmbedPath, j, 1);
        } else {
          MatchStartsInFirstClass(s, EmbedPath, j);
        }
      }
    }
  }

  /** An embed URL `https://www.youtube.com/embed/<id>` gives its id. */
  lemma EmbedUrlShape(id: string)
    requires IsId(id)
    ensures ExtractYouTubeId(Some("https://www.youtube.com/embed/" + id)) == Some(id)
  {
    var host, path := "https://www.youtube.com", "/embed/";
    var s := host + path + id;
    assert s == "https://www.youtube.com/embed/" + id;
    assert |s| == 41 && s[0] == 'h' && s[40] == id[10];
    TrimUnchanged(s);
    assert s[..23] == host;
    YouTubeHostPart(s);
    assert '?' !in path && '&' !in path;
    forall j: nat ensures !MatchAt(s, QueryKey, j) {
      if MatchAt(s, QueryKey, j) {
        if 23 <= j { assert s[j] == path[j - 23]; }
        MatchStartsInFirstClass(s, QueryKey, j);
      }
    }
    forall j: nat ensures !MatchAt(s, ShortLink, j) {
      if 23 <= j && MatchAt(s, ShortLink, j) {
        MatchStartsInFirstClass(s, ShortLink, j);
      }
    }
    assert forall k :: 0 <= k < 7 ==> s[23 + k] == path[k];
    assert forall k :: 30 <= k < 41 ==> s[k] == id[k - 30];
    assert MatchAt(s, EmbedPath, 23);
    EmbedRule(s, 23);
    assert s[30..41] == id;
  }

  /** A URL that merely ends in the id, such as `https://www.youtube.com/live/<id>`, gives it. */
  lemma TrailingIdShape(id: string)
    requires IsId(id)
    ensures ExtractYouTubeId(Some("https://www.youtube.com/live/" + id)) == Some(id)
  {
    var host, path := "https://www.youtube.com", "/live/";
    var s := host + path + id;
    assert s == "https://www.youtube.com/live/" + id;
    assert |s| == 40 && s[0] == 'h' && s[39] == id[10];
    TrimUnchanged(s);
    assert s[..23] == host;
    YouTubeHostPart(s);
    assert '?' !in path && '&' !in path;
    forall j: nat ensures !MatchAt(s, QueryKey, j) {
      if MatchAt(s, QueryKey, j) {
        if 23 <= j { assert s[j] == path[j - 23]; }
        MatchStartsInFirstClass(s, QueryKey, j);
      }
    }
    forall j: nat ensures !MatchAt(s, ShortLink, j) {
      if 23 <= j && MatchAt(s, ShortLink, j) {
        MatchStartsInFirstClass(s, ShortLink, j);
      }
    }
    forall j: nat ensures !MatchAt(s, EmbedPath, j) {
      if 23 <= j && MatchAt(s, EmbedPath, j) {
        MatchStartsInFirstClass(s, EmbedPath, j);
      }
    }
    assert forall k :: 29 <= k < 40 ==> s[k] == id[k - 29];
    TrailingRule(s);
    assert s[29..] == id;
  }

  /** The worked example: `https://youtu.be/dQw4w9WgXcQ` gives `dQw4w9WgXcQ`. */
  lemma ShortUrlExample(url: string, id: string)
    requires url == "https://youtu.be/dQw4w9WgXcQ" && id == "dQw4w9WgXcQ"
    ensures ExtractYouTubeId(Some(url)) == Some(id)
  {
    assert url == "https://youtu.be/" + id;
    assert IsIdChar(id[0]) && IsIdChar(id[1]) && IsIdChar(id[2]) && IsIdChar(id[3]);
    assert IsIdChar(id[4]) && IsIdChar(id[5]) && IsIdChar(id[6]) && IsIdChar(id[7]);
    assert IsIdChar(id[8]) && IsIdChar(id[9]) && IsIdChar(id[10]);
    assert IsId(id);
    ShortUrlShape(id);
  }
}
