/**
  `extractVideoId`: the first match of
  `(?:youtu\.be\/|youtube\.com\/(?:embed\/|v\/|watch\?v=|shorts\/)|youtube\.googleapis\.com\/embed\/)([a-zA-Z0-9_-]+)`
  in a link, written as a scanner over positions and alternatives.
 */
module VideoId {
  import opened Text

  /** `[a-zA-Z0-9_-]` */
  predicate IsIdChar(c: char) {
    ('a' <= c <= 'z') || ('A' <= c <= 'Z') || ('0' <= c <= '9') || c == '_' || c == '-'
  }

  /** The literal prefixes of the pattern's alternation, in the order the regex tries them. */
  const PREFIXES: seq<string> := [
    "youtu.be/",
    "youtube.com/embed/",
    "youtube.com/v/",
    "youtube.com/watch?v=",
    "youtube.com/shorts/",
    "youtube.googleapis.com/embed/"
  ]

  predicate OccursAt(s: string, p: nat, w: string) {
    p + |w| <= |s| && s[p..p + |w|] == w
  }

  /** The whole pattern matches at `p` through alternative `k` of `ps`: the prefix is
      there and is followed by at least one ID character. */
  predicate MatchWith(ps: seq<string>, s: string, p: nat, k: nat) {
    k < |ps| && OccursAt(s, p, ps[k]) && p + |ps[k]| < |s| && IsIdChar(s[p + |ps[k]|])
  }

  /** Some alternative of the pattern matches at `p`. */
  predicate MatchAt(ps: seq<string>, s: string, p: nat) {
    exists k :: 0 <= k < |ps| && MatchWith(ps, s, p, k)
  }

  /** No two alternatives occur at the same position. */
  ghost predicate Exclusive(ps: seq<string>) {
    forall s: string, p: nat, j, k :: 0 <= j < k < |ps| && OccursAt(s, p, ps[j]) ==> !OccursAt(s, p, ps[k])
  }

  /** At one position at most one of the six prefixes can occur: each pair differs at
      a place both reach. */
  lemma PrefixesExclusive()
    ensures Exclusive(PREFIXES)
  {
    forall s: string, p: nat, j, k | 0 <= j < k < |PREFIXES| && OccursAt(s, p, PREFIXES[j])
      ensures !OccursAt(s, p, PREFIXES[k])
    {
      var i := if j == 0 then 5 else if k == 5 then 8 else 12;
      assert PREFIXES[j][i] != PREFIXES[k][i];
      assert s[p..p + |PREFIXES[j]|][i] == s[p + i];
    }
  }

  /** The first alternative, from `k` on, that matches at `p` (the regex's backtracking
      into the next alternative). */
  function FirstAlternative(ps: seq<string>, s: string, p: nat, k: nat): (r: Option<nat>)
    requires k <= |ps|
    ensures r.Some? ==> k <= r.value && MatchWith(ps, s, p, r.value)
    ensures r.None? ==> forall j :: k <= j < |ps| ==> !MatchWith(ps, s, p, j)
    decreases |ps| - k
  {
    if k == |ps| then None
    else if MatchWith(ps, s, p, k) then Some(k)
    else FirstAlternative(ps, s, p, k + 1)
  }

  /** Length of the run of ID characters starting at `p` (the greedy `+`). */
  function IdRun(s: string, p: nat): (n: nat)
    requires p <= |s|
    ensures p + n <= |s|
    decreases |s| - p
  {
    if p < |s| && IsIdChar(s[p]) then 1 + IdRun(s, p + 1) else 0
  }

  /** The `n` characters from `p` on are ID characters and the next one, if any, is not. */
  predicate IsRun(s: string, p: nat, n: nat) {
    && p + n <= |s|
    && (forall i :: p <= i < p + n ==> IsIdChar(s[i]))
    && (p + n == |s| || !IsIdChar(s[p + n]))
  }

  /** The greedy run is a maximal run of ID characters... */
  lemma {:induction false} IdRunIsRun(s: string, p: nat)
    requires p <= |s|
    ensures IsRun(s, p, IdRun(s, p))
    decreases |s| - p
  {
    if p < |s| && IsIdChar(s[p]) {
      IdRunIsRun(s, p + 1);
    }
  }

  /** ...and the only one. */
  lemma {:induction false} RunIsIdRun(s: string, p: nat, n: nat)
    requires IsRun(s, p, n)
    ensures IdRun(s, p) == n
    decreases n
  {
    if n > 0 {
      RunIsIdRun(s, p + 1, n - 1);
    }
  }

  /** The leftmost position from `p` on where the pattern matches, with its alternative. */
  function Search(ps: seq<string>, s: string, p: nat): (r: Option<(nat, nat)>)
    requires p <= |s|
    ensures r.Some? ==> p <= r.value.0 && MatchWith(ps, s, r.value.0, r.value.1)
    ensures r.Some? ==> forall q :: p <= q < r.value.0 ==> !MatchAt(ps, s, q)
    ensures r.None? ==> forall q :: p <= q <= |s| ==> !MatchAt(ps, s, q)
    decreases |s| - p
  {
    match FirstAlternative(ps, s, p, 0)
    case Some(k) => Some((p, k))
    case None => if p == |s| then None else Search(ps, s, p + 1)
  }

  /** The captured group of the first match of the pattern with alternatives `ps`. */
  function FirstCapture(ps: seq<string>, url: string): Option<string> {
    match Search(ps, url, 0)
    case None => None
    case Some((p, k)) =>
      var start := p + |ps[k]|;
      Some(url[start..start + IdRun(url, start)])
  }

  /** `extractVideoId(url)`: the captured ID, or `None` (the source's `null`). */
  function ExtractVideoId(url: string): Option<string> {
    FirstCapture(PREFIXES, url)
  }

  /** A result exists exactly when the pattern matches somewhere. */
  lemma ExtractNoneIff(url: string)
    ensures ExtractVideoId(url).None? <==> forall q :: 0 <= q <= |url| ==> !MatchAt(PREFIXES, url, q)
  {
    var r := Search(PREFIXES, url, 0);
    if r.Some? {
      assert MatchAt(PREFIXES, url, r.value.0);
    }
  }

  /** A capture is a non-empty string of ID characters. */
  lemma CaptureIsId(ps: seq<string>, url: string)
    ensures var r := FirstCapture(ps, url);
            r.Some? ==> |r.value| > 0 && forall i :: 0 <= i < |r.value| ==> IsIdChar(r.value[i])
  {
    var r := Search(ps, url, 0);
    if r.Some? {
      var start := r.value.0 + |ps[r.value.1]|;
      IdRunIsRun(url, start);
    }
  }

  /** So is every ID `extractVideoId` returns. */
  lemma ExtractIsId(url: string)
    ensures var r := ExtractVideoId(url);
            r.Some? ==> |r.value| > 0 && forall i :: 0 <= i < |r.value| ==> IsIdChar(r.value[i])
  {
    CaptureIsId(PREFIXES, url);
  }

  /** The search stops at the leftmost match, with the alternative that matches there. */
  lemma SearchFinds(ps: seq<string>, url: string, p: nat, k: nat)
    requires Exclusive(ps)
    requires MatchWith(ps, url, p, k)
    requires forall q :: 0 <= q < p ==> !MatchAt(ps, url, q)
    ensures Search(ps, url, 0) == Some((p, k))
  {
    assert MatchAt(ps, url, p);
    var r := Search(ps, url, 0);
    var (p', k') := r.value;
    assert MatchAt(ps, url, p');
    assert p' == p;
  }

  /** When the pattern first matches at `p` through alternative `k`, the capture is the
      maximal run of ID characters right after that prefix, and it is not empty. */
  lemma CaptureAtLeftmostMatch(ps: seq<string>, url: string, p: nat, k: nat)
    requires Exclusive(ps)
    requires MatchWith(ps, url, p, k)
    requires forall q :: 0 <= q < p ==> !MatchAt(ps, url, q)
    ensures FirstCapture(ps, url).Some?
    ensures var id := FirstCapture(ps, url).value;
            && |id| > 0 && IsRun(url, p + |ps[k]|, |id|)
            && id == url[p + |ps[k]|..p + |ps[k]| + |id|]
  {
    SearchFinds(ps, url, p, k);
    IdRunIsRun(url, p + |ps[k]|);
  }

  /** The capture is exactly the `n` characters after the first matching prefix when
      they are ID characters and the next one is not. */
  lemma CaptureRun(ps: seq<string>, url: string, p: nat, k: nat, n: nat)
    requires Exclusive(ps)
    requires MatchWith(ps, url, p, k)
    requires forall q :: 0 <= q < p ==> !MatchAt(ps, url, q)
    requires IsRun(url, p + |ps[k]|, n)
    ensures FirstCapture(ps, url) == Some(url[p + |ps[k]|..p + |ps[k]| + n])
  {
    SearchFinds(ps, url, p, k);
    RunIsIdRun(url, p + |ps[k]|, n);
  }

  /** `extractVideoId` on a link whose leftmost match is at `p` through prefix `k`:
      the maximal, non-empty run of ID characters after the prefix. */
  lemma ExtractAtLeftmostMatch(url: string, p: nat, k: nat)
    requires MatchWith(PREFIXES, url, p, k)
    requires forall q :: 0 <= q < p ==> !MatchAt(PREFIXES, url, q)
    ensures ExtractVideoId(url).Some?
    ensures var id := ExtractVideoId(url).value;
            && |id| > 0 && IsRun(url, p + |PREFIXES[k]|, |id|)
            && id == url[p + |PREFIXES[k]|..p + |PREFIXES[k]| + |id|]
  {
    PrefixesExclusive();
    CaptureAtLeftmostMatch(PREFIXES, url, p, k);
  }

  /** `extractVideoId` returns exactly the `n` ID characters after the first matching
      prefix when the next character is not one. */
  lemma ExtractRun(url: string, p: nat, k: nat, n: nat)
    requires MatchWith(PREFIXES, url, p, k)
    requires forall q :: 0 <= q < p ==> !MatchAt(PREFIXES, url, q)
    requires IsRun(url, p + |PREFIXES[k]|, n)
    ensures ExtractVideoId(url) == Some(url[p + |PREFIXES[k]|..p + |PREFIXES[k]| + n])
  {
    PrefixesExclusive();
    CaptureRun(PREFIXES, url, p, k, n);
  }

  /** A worked example: the `watch?v=` form, stopping at the query separator. */
  lemma ExampleWatch()
    ensures ExtractVideoId("youtube.com/watch?v=dQw4w9W&t=1") == Some("dQw4w9W")
  {
    var url := "youtube.com/watch?v=dQw4w9W&t=1";
    assert |url| == 31 && url[20..27] == "dQw4w9W";
    assert MatchWith(PREFIXES, url, 0, 3);
    assert IsRun(url, 20, 7) by {
      forall i | 20 <= i < 27 ensures IsIdChar(url[i]) {
        assert url[i] == "dQw4w9W"[i - 20];
      }
    }
    ExtractRun(url, 0, 3, 7);
  }
}
