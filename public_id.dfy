/**
 * `extractPublicIdFromUrl` (src/utils/index.js): the first match of the regular expression
 * `/upload\/([^/]+)\.jpg/` in a URL, and its capture group. A JavaScript regular expression
 * without the global flag tries the start positions from left to right and takes the first
 * one that matches; at that start, the greedy `[^/]+` takes as many characters as it can and
 * gives them back one at a time until `.jpg` follows.
 */
module PublicId {
  import opened Wrappers
  import opened Text

  const Prefix: string := "upload/"
  const Suffix: string := ".jpg"

  predicate NoSlash(s: string) {
    forall k :: 0 <= k < |s| ==> s[k] != '/'
  }

  /**
   * The pattern matches at start `i` with its capture group ending at `e`: `upload/` at `i`,
   * then one or more characters other than `/`, then `.jpg` at `e`.
   */
  predicate MatchAt(url: string, i: nat, e: nat) {
    OccursAt(url, Prefix, i) && i + |Prefix| < e && OccursAt(url, Suffix, e) && NoSlash(url[i + |Prefix|..e])
  }

  /** The match the regular expression engine reports: the leftmost start, and at it the longest group. */
  ghost predicate RegexMatch(url: string, i: nat, e: nat) {
    MatchAt(url, i, e)
    && (forall i': nat, e': nat :: MatchAt(url, i', e') ==> i <= i')
    && (forall e': nat :: MatchAt(url, i, e') ==> e' <= e)
  }

  /** The reported match is unique: the declarative description determines the result. */
  lemma RegexMatchUnique(url: string, i: nat, e: nat, i': nat, e': nat)
    requires RegexMatch(url, i, e) && RegexMatch(url, i', e')
    ensures i == i' && e == e'
  {
  }

  /** The index of the first `/` at or after `j`, or the length of the URL. */
  function NextSlash(url: string, j: nat): (h: nat)
    requires j <= |url|
    ensures j <= h <= |url|
    ensures NoSlash(url[j..h])
    ensures h < |url| ==> url[h] == '/'
    decreases |url| - j
  {
    if j == |url| || url[j] == '/' then j
    else
      var h := NextSlash(url, j + 1);
      assert url[j..h] == [url[j]] + url[j + 1..h];
      h
  }

  /** The greatest `e` with `lo < e <= hi` at which `.jpg` occurs: the engine backing off from the right. */
  function LastSuffix(url: string, lo: nat, hi: nat): (r: Option<nat>)
    ensures r.Some? ==> lo < r.value <= hi && OccursAt(url, Suffix, r.value)
    ensures r.Some? ==> forall e: nat :: r.value < e <= hi ==> !OccursAt(url, Suffix, e)
    ensures r.None? ==> forall e: nat :: lo < e <= hi ==> !OccursAt(url, Suffix, e)
    decreases hi
  {
    if hi <= lo then None
    else if OccursAt(url, Suffix, hi) then Some(hi)
    else LastSuffix(url, lo, hi - 1)
  }

  /** A group ends before the first `/` after `upload/` exactly when it contains no `/`. */
  lemma NoSlashUpTo(url: string, j: nat, e: nat)
    requires j <= e <= |url|
    ensures NoSlash(url[j..e]) <==> e <= NextSlash(url, j)
  {
    var h := NextSlash(url, j);
    if e > h {
      assert url[j..e][h - j] == '/';
    } else {
      assert forall k :: 0 <= k < e - j ==> url[j..e][k] == url[j..h][k];
    }
  }

  /** The end of the longest group when the pattern can match at `i`. */
  function CaptureAt(url: string, i: nat): (r: Option<nat>)
    ensures r.Some? ==> MatchAt(url, i, r.value) && forall e: nat :: MatchAt(url, i, e) ==> e <= r.value
    ensures r.None? ==> forall e: nat :: !MatchAt(url, i, e)
  {
    if !OccursAt(url, Prefix, i) then None
    else
      var j := i + |Prefix|;
      var h := NextSlash(url, j);
      var r := LastSuffix(url, j, h);
      assert forall e: nat :: MatchAt(url, i, e) ==> j < e <= h && OccursAt(url, Suffix, e) by {
        forall e: nat | MatchAt(url, i, e)
          ensures j < e <= h
        {
          NoSlashUpTo(url, j, e);
        }
      }
      if r.Some? then
        NoSlashUpTo(url, j, r.value);
        r
      else r
  }

  /** The first start at or after `i` where the pattern matches, with the end of its group. */
  function SearchFrom(url: string, i: nat): (r: Option<(nat, nat)>)
    ensures r.Some? ==> i <= r.value.0 && MatchAt(url, r.value.0, r.value.1)
    ensures r.Some? ==> forall e: nat :: MatchAt(url, r.value.0, e) ==> e <= r.value.1
    ensures r.Some? ==> forall i': nat, e: nat :: i <= i' < r.value.0 ==> !MatchAt(url, i', e)
    ensures r.None? ==> forall i': nat, e: nat :: i <= i' ==> !MatchAt(url, i', e)
    decreases |url| - i
  {
    if i + |Prefix| > |url| then None
    else match CaptureAt(url, i)
      case Some(e) => Some((i, e))
      case None => SearchFrom(url, i + 1)
  }

  /**
   * `extractPublicIdFromUrl(url)`: the capture group of the reported match, or null when the
   * pattern matches nowhere.
   */
  function ExtractPublicIdFromUrl(url: string): (r: Option<string>)
    ensures r.None? <==> forall i: nat, e: nat :: !MatchAt(url, i, e)
    ensures r.Some? ==> exists i: nat, e: nat :: RegexMatch(url, i, e) && r.value == url[i + |Prefix|..e]
  {
    match SearchFrom(url, 0)
    case None => None
    case Some((i, e)) =>
      assert RegexMatch(url, i, e);
      Some(url[i + |Prefix|..e])
  }

  /**
   * A result is a non-empty piece without `/`, and `upload/` + result + `.jpg` occurs in the
   * URL at the leftmost start where the pattern matches.
   */
  lemma ExtractedIdShape(url: string)
    requires ExtractPublicIdFromUrl(url).Some?
    ensures var id := ExtractPublicIdFromUrl(url).value;
      id != [] && NoSlash(id)
      && exists i: nat :: OccursAt(url, Prefix + id + Suffix, i) && forall i': nat, e: nat :: MatchAt(url, i', e) ==> i <= i'
  {
    var id := ExtractPublicIdFromUrl(url).value;
    var (i, e) := SearchFrom(url, 0).value;
    assert id == url[i + |Prefix|..e] && MatchAt(url, i, e);
    assert i + |Prefix + id + Suffix| == e + |Suffix|;
    assert url[i..e] == url[i..i + |Prefix|] + url[i + |Prefix|..e];
    assert url[i..e + |Suffix|] == url[i..e] + url[e..e + |Suffix|];
    assert OccursAt(url, Prefix + id + Suffix, i);
  }

  /** Greedy matching: the group runs to the last `.jpg` before the next `/`, so "a.jpg.jpg" gives "a.jpg". */
  lemma GreedyGroup()
    ensures ExtractPublicIdFromUrl("upload/a.jpg.jpg") == Some("a.jpg")
  {
    var url := "upload/a.jpg.jpg";
    assert RegexMatch(url, 0, 12) by {
      assert OccursAt(url, Suffix, 12);
      forall e: nat | MatchAt(url, 0, e)
        ensures e <= 12
      {
      }
    }
    assert url[7..12] == "a.jpg";
  }

  /**
   * A URL whose public id follows a version segment (`upload/v1/...`) yields null: the group
   * cannot cross the `/` after the version.
   */
  lemma VersionedUrlYieldsNull()
    ensures ExtractPublicIdFromUrl("upload/v1/a.jpg") == None
  {
    var url := "upload/v1/a.jpg";
    assert CaptureAt(url, 0) == None by {
      assert NextSlash(url, 9) == 9;
      assert NextSlash(url, 7) == 9;
      assert url[8..12] != Suffix && url[9..13] != Suffix;
    }
    forall k: nat, e: nat
      ensures !MatchAt(url, k, e)
    {
      if 1 <= k <= 8 {
        assert url[k..k + |Prefix|][0] == url[k] != 'u';
      }
    }
  }
}
