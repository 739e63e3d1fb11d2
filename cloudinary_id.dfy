/** `extractPublicIdFromUrl` of backend/controllers/propertyController.js:
    the public id of an uploaded image, read from its delivery URL with the
    regular expression

        /\/upload\/(?:v\d+\/)?(.+)\.[a-zA-Z0-9]+(?:\?.*)?$/

    The matcher below follows the backtracking order of `String.prototype.match`:
    the leftmost start position wins; at a start, the optional version segment
    is tried before skipping it; the group `(.+)` is greedy, so it ends at the
    last dot after which an extension and an optional query complete the match.
    `MatchSpan` states the same regular expression declaratively. */
module CloudinaryId {
  import opened Collections
  import opened Text

  predicate IsAlnum(c: char) {
    ('a' <= c <= 'z') || ('A' <= c <= 'Z') || ('0' <= c <= '9')
  }

  /** `/upload/` occurs at position `p`. */
  predicate UploadAt(s: string, p: nat) {
    && p + 8 <= |s|
    && s[p] == '/' && s[p + 1] == 'u' && s[p + 2] == 'p' && s[p + 3] == 'l'
    && s[p + 4] == 'o' && s[p + 5] == 'a' && s[p + 6] == 'd' && s[p + 7] == '/'
  }

  /** No line terminator in `s[i..j]`: what `.` may match. */
  predicate NoLineTerminator(s: string, i: nat, j: nat)
    requires i <= j <= |s|
  {
    forall k | i <= k < j :: !IsLineTerminator(s[k])
  }

  /** Length of the longest run of `[a-zA-Z0-9]` starting at `i`. */
  function AlnumRun(s: string, i: nat): (n: nat)
    requires i <= |s|
    ensures i + n <= |s|
    ensures forall k | i <= k < i + n :: IsAlnum(s[k])
    ensures i + n < |s| ==> !IsAlnum(s[i + n])
    decreases |s| - i
  {
    if i < |s| && IsAlnum(s[i]) then 1 + AlnumRun(s, i + 1) else 0
  }

  /** Length of the longest run of decimal digits starting at `i`. */
  function DigitRunFrom(s: string, i: nat): (n: nat)
    requires i <= |s|
    ensures i + n <= |s|
    ensures forall k | i <= k < i + n :: IsDecimalDigit(s[k])
    ensures i + n < |s| ==> !IsDecimalDigit(s[i + n])
    decreases |s| - i
  {
    if i < |s| && IsDecimalDigit(s[i]) then 1 + DigitRunFrom(s, i + 1) else 0
  }

  /** `\.[a-zA-Z0-9]+(?:\?.*)?$` matches `s[q..]`; only the longest run of
      extension characters can be followed by `?` or the end. */
  predicate SuffixAt(s: string, q: nat) {
    && q < |s| && s[q] == '.'
    && var k := AlnumRun(s, q + 1);
       && k >= 1
       && (q + 1 + k == |s| || (s[q + 1 + k] == '?' && NoLineTerminator(s, q + 2 + k, |s|)))
  }

  /** The first line terminator at or after `c`, or the end. */
  function LineEnd(s: string, c: nat): (e: nat)
    requires c <= |s|
    ensures c <= e <= |s| && NoLineTerminator(s, c, e)
    ensures e < |s| ==> IsLineTerminator(s[e])
    decreases |s| - c
  {
    if c == |s| || IsLineTerminator(s[c]) then c else LineEnd(s, c + 1)
  }

  /** The greedy search: the largest `q` in `c+1 .. top` at which the suffix matches. */
  function LastSuffix(s: string, c: nat, top: int): (r: Option<nat>)
    requires top < |s|
    ensures r.Some? ==> c < r.value <= top && SuffixAt(s, r.value)
    ensures r.Some? ==> forall k | r.value < k <= top :: !SuffixAt(s, k)
    ensures r.None? ==> forall k | c < k <= top :: !SuffixAt(s, k)
    decreases top - c
  {
    if top <= c then None
    else if SuffixAt(s, top) then Some(top)
    else LastSuffix(s, c, top - 1)
  }

  /** `(.+)` starting at `c`, followed by the suffix: the longest capture. */
  function CaptureFrom(s: string, c: nat): (r: Option<string>)
    requires c <= |s|
    ensures r.Some? ==> r.value != []
  {
    var e := LineEnd(s, c);
    match LastSuffix(s, c, e - 1)
    case None => None
    case Some(q) => Some(s[c..q])
  }

  /** `v\d+\/` at `a`: the position after it, if present. */
  function VersionEnd(s: string, a: nat): Option<nat>
    requires a <= |s|
  {
    if a < |s| && s[a] == 'v' then
      var d := DigitRunFrom(s, a + 1);
      if d >= 1 && a + 1 + d < |s| && s[a + 1 + d] == '/' then Some(a + 2 + d) else None
    else None
  }

  /** The match attempt at a start position holding `/upload/`: with the
      version segment if that leads to a match, else without it. */
  function MatchAt(s: string, p: nat): (r: Option<string>)
    requires UploadAt(s, p)
    ensures r.Some? ==> r.value != []
  {
    var a := p + 8;
    var v := VersionEnd(s, a);
    if v.Some? && CaptureFrom(s, v.value).Some? then CaptureFrom(s, v.value) else CaptureFrom(s, a)
  }

  /** The attempt at start `p`: group 1 when `/upload/` is at `p` and the
      rest of the expression matches after it. */
  function Attempt(s: string, p: nat): (r: Option<string>)
    ensures r.Some? ==> r.value != []
  {
    if UploadAt(s, p) then MatchAt(s, p) else None
  }

  /** The attempts at every start position, in order. */
  function Attempts(s: string): (a: seq<Option<string>>)
    ensures |a| == |s|
  {
    seq(|s|, i requires 0 <= i < |s| => Attempt(s, i))
  }

  /** The first successful attempt at or after `p`. */
  function Leftmost(a: seq<Option<string>>, p: nat): (r: Option<string>)
    ensures r.Some? ==> r in a
    decreases |a| - p
  {
    if p >= |a| then None else if a[p].Some? then a[p] else Leftmost(a, p + 1)
  }

  /** The leftmost start position at or after `p` where the match succeeds. */
  function FirstMatch(s: string, p: nat): (r: Option<string>)
    ensures r.Some? ==> r.value != []
  {
    Leftmost(Attempts(s), p)
  }

  /** `extractPublicIdFromUrl(url)`: `None` for a value that is not a string
      (`url == None`), for the empty string, and when the expression does not
      match; otherwise group 1 of the match. */
  function ExtractPublicId(url: Option<string>): (r: Option<string>)
    ensures r.Some? ==> r.value != []
  {
    if url.None? || url.value == [] then None else FirstMatch(url.value, 0)
  }

  // ------------------------------------------------------------------
  // The regular expression, stated declaratively

  /** `v`, one or more decimal digits and `/` occupy `s[a..c]`. */
  ghost predicate VersionSegment(s: string, a: nat, c: nat) {
    && a + 3 <= c <= |s| && s[a] == 'v' && s[c - 1] == '/'
    && (forall k | a + 1 <= k < c - 1 :: IsDecimalDigit(s[k]))
  }

  /** `s[q..]` is a dot, `k >= 1` extension characters, and either the end
      or `?` followed by characters other than line terminators. */
  ghost predicate TailWith(s: string, q: nat, k: nat) {
    && q + 1 + k <= |s| && s[q] == '.' && k >= 1
    && (forall i | q + 1 <= i < q + 1 + k :: IsAlnum(s[i]))
    && (q + 1 + k == |s| || (s[q + 1 + k] == '?' && NoLineTerminator(s, q + 2 + k, |s|)))
  }

  /** The expression matches with `/upload/` at `p` and group 1 spanning `s[c..q]`. */
  ghost predicate MatchSpan(s: string, p: nat, c: nat, q: nat) {
    && UploadAt(s, p)
    && (c == p + 8 || VersionSegment(s, p + 8, c))
    && c < q < |s| && NoLineTerminator(s, c, q)
    && exists k: nat :: TailWith(s, q, k)
  }

  lemma SuffixAtIffTail(s: string, q: nat)
    ensures SuffixAt(s, q) <==> exists k: nat :: TailWith(s, q, k)
  {
    if SuffixAt(s, q) {
      assert TailWith(s, q, AlnumRun(s, q + 1));
    }
    if k: nat :| TailWith(s, q, k) {
      var n := AlnumRun(s, q + 1);
      assert n == k;
    }
  }

  lemma VersionEndIffSegment(s: string, a: nat, c: nat)
    requires a <= |s|
    ensures VersionEnd(s, a) == Some(c) <==> VersionSegment(s, a, c)
  {
    if VersionSegment(s, a, c) {
      var d := DigitRunFrom(s, a + 1);
      assert d == c - a - 2;
    }
  }

  /** Group 1 from a given start is found exactly when some span from that
      start completes a match, and it is the longest such span. */
  lemma CaptureFromSpans(s: string, c: nat)
    requires c <= |s|
    ensures CaptureFrom(s, c).Some? <==>
              exists q :: c < q < |s| && NoLineTerminator(s, c, q) && SuffixAt(s, q)
    ensures CaptureFrom(s, c).Some? ==>
              exists q :: && c < q < |s| && NoLineTerminator(s, c, q) && SuffixAt(s, q)
                          && CaptureFrom(s, c).value == s[c..q]
                          && forall q' :: q < q' < |s| && NoLineTerminator(s, c, q') ==> !SuffixAt(s, q')
  {
    var e := LineEnd(s, c);
    var r := LastSuffix(s, c, e as int - 1);
    assert forall q | c < q < |s| && NoLineTerminator(s, c, q) && SuffixAt(s, q) :: q <= e - 1;
  }

  /** The match at one start position succeeds exactly when some span does. */
  lemma MatchAtSpans(s: string, p: nat)
    requires UploadAt(s, p)
    ensures MatchAt(s, p).Some? <==> exists c: nat, q: nat :: MatchSpan(s, p, c, q)
  {
    var a := p + 8;
    var v := VersionEnd(s, a);
    if MatchAt(s, p).Some? {
      var c := if v.Some? && CaptureFrom(s, v.value).Some? then v.value else a;
      CaptureFromSpans(s, c);
      var q :| c < q < |s| && NoLineTerminator(s, c, q) && SuffixAt(s, q);
      SuffixAtIffTail(s, q);
      if c != a {
        VersionEndIffSegment(s, a, c);
      }
      assert MatchSpan(s, p, c, q);
    }
    if c, q :| MatchSpan(s, p, c, q) {
      SuffixAtIffTail(s, q);
      CaptureFromSpans(s, c);
      if c != a {
        VersionEndIffSegment(s, a, c);
      }
      CaptureFromSpans(s, a);
    }
  }

  /** The search stops at the first successful attempt. */
  lemma {:induction false} LeftmostFinds(a: seq<Option<string>>, p: nat, p0: nat)
    requires p <= p0 < |a| && a[p0].Some?
    requires forall i | p <= i < p0 :: a[i].None?
    ensures Leftmost(a, p) == a[p0]
    decreases p0 - p
  {
    if p < p0 {
      LeftmostFinds(a, p + 1, p0);
    }
  }

  /** A successful search names the first successful attempt. */
  lemma {:induction false} LeftmostSome(a: seq<Option<string>>, p: nat)
    requires Leftmost(a, p).Some?
    ensures exists p0: nat :: p <= p0 < |a| && a[p0] == Leftmost(a, p) && forall i | p <= i < p0 :: a[i].None?
    decreases |a| - p
  {
    if a[p].None? {
      LeftmostSome(a, p + 1);
      var p0: nat :| p + 1 <= p0 < |a| && a[p0] == Leftmost(a, p + 1) && forall i | p + 1 <= i < p0 :: a[i].None?;
      assert forall i | p <= i < p0 :: a[i].None?;
    } else {
      assert a[p] == Leftmost(a, p);
    }
  }

  /** The search succeeds when some attempt after its start does. */
  lemma {:induction false} LeftmostReaches(a: seq<Option<string>>, p: nat, p0: nat)
    requires p <= p0 < |a| && a[p0].Some?
    ensures Leftmost(a, p).Some?
    decreases p0 - p
  {
    if p < p0 && a[p].None? {
      LeftmostReaches(a, p + 1, p0);
    }
  }

  lemma FirstMatchFindsLeftmost(s: string, p: nat, p0: nat)
    requires p <= p0 && UploadAt(s, p0) && MatchAt(s, p0).Some?
    requires forall i | p <= i < p0 :: !(UploadAt(s, i) && MatchAt(s, i).Some?)
    ensures FirstMatch(s, p) == MatchAt(s, p0)
  {
    var a := Attempts(s);
    assert a[p0] == Attempt(s, p0);
    forall i | p <= i < p0 ensures a[i].None? {
      assert a[i] == Attempt(s, i);
    }
    LeftmostFinds(a, p, p0);
  }

  lemma FirstMatchSome(s: string, p: nat)
    requires FirstMatch(s, p).Some?
    ensures exists p0: nat :: p <= p0 && UploadAt(s, p0) && MatchAt(s, p0) == FirstMatch(s, p)
                         && forall i | p <= i < p0 :: !(UploadAt(s, i) && MatchAt(s, i).Some?)
  {
    var a := Attempts(s);
    LeftmostSome(a, p);
    var p0: nat :| p <= p0 < |a| && a[p0] == Leftmost(a, p) && forall i | p <= i < p0 :: a[i].None?;
    assert a[p0] == Attempt(s, p0);
    forall i | p <= i < p0 ensures !(UploadAt(s, i) && MatchAt(s, i).Some?) {
      assert a[i] == Attempt(s, i);
    }
  }

  /** The extractor answers exactly when the expression matches somewhere. */
  lemma ExtractIffMatches(s: string)
    ensures ExtractPublicId(Some(s)).Some? <==> exists p: nat, c: nat, q: nat :: MatchSpan(s, p, c, q)
  {
    if ExtractPublicId(Some(s)).Some? {
      FirstMatchSome(s, 0);
      var p0 :| UploadAt(s, p0) && MatchAt(s, p0) == FirstMatch(s, 0);
      MatchAtSpans(s, p0);
    }
    if p, c, q :| MatchSpan(s, p, c, q) {
      MatchAtSpans(s, p);
      assert s != [];
      if FirstMatch(s, 0).None? {
        NoFirstMatch(s, 0, p);
      }
    }
  }

  lemma NoFirstMatch(s: string, p: nat, p0: nat)
    requires p <= p0 && UploadAt(s, p0) && MatchAt(s, p0).Some?
    ensures FirstMatch(s, p).Some?
  {
    var a := Attempts(s);
    assert a[p0] == Attempt(s, p0);
    LeftmostReaches(a, p, p0);
  }

  /** A successful match at one start yields the longest span from the
      position after the version segment, or after `/upload/` only when no
      version segment there can be completed to a match (the optional group
      is tried first). */
  lemma MatchAtLongest(s: string, p: nat)
    requires UploadAt(s, p) && MatchAt(s, p).Some?
    ensures exists c: nat, q: nat ::
      && MatchSpan(s, p, c, q) && MatchAt(s, p) == Some(s[c..q])
      && (forall q': nat :: q < q' ==> !MatchSpan(s, p, c, q'))
      && (c == p + 8 ==> forall c': nat, q': nat :: VersionSegment(s, p + 8, c') ==> !MatchSpan(s, p, c', q'))
  {
    var a := p + 8;
    var v := VersionEnd(s, a);
    var c := if v.Some? && CaptureFrom(s, v.value).Some? then v.value else a;
    CaptureFromSpans(s, c);
    var q :| && c < q < |s| && NoLineTerminator(s, c, q) && SuffixAt(s, q)
             && CaptureFrom(s, c).value == s[c..q]
             && forall q' :: q < q' < |s| && NoLineTerminator(s, c, q') ==> !SuffixAt(s, q');
    LongestFrom(s, p, c, q);
    if c == a {
      forall c': nat, q': nat | VersionSegment(s, a, c') ensures !MatchSpan(s, p, c', q') {
        VersionEndIffSegment(s, a, c');
        CaptureFromSpans(s, c');
        if MatchSpan(s, p, c', q') {
          SuffixAtIffTail(s, q');
        }
      }
    }
  }

  lemma LongestFrom(s: string, p: nat, c: nat, q: nat)
    requires UploadAt(s, p) && (c == p + 8 || VersionEnd(s, p + 8) == Some(c))
    requires c < q < |s| && NoLineTerminator(s, c, q) && SuffixAt(s, q)
    requires forall q' :: q < q' < |s| && NoLineTerminator(s, c, q') ==> !SuffixAt(s, q')
    ensures MatchSpan(s, p, c, q) && forall q': nat :: q < q' ==> !MatchSpan(s, p, c, q')
  {
    SuffixAtIffTail(s, q);
    if c != p + 8 {
      VersionEndIffSegment(s, p + 8, c);
    }
    forall q': nat | q < q' ensures !MatchSpan(s, p, c, q') {
      if MatchSpan(s, p, c, q') {
        SuffixAtIffTail(s, q');
      }
    }
  }

  /** What the extracted id is: group 1 of the leftmost match, with the
      extension and query removed, the version segment removed whenever one
      can be part of that match, and the longest capture at that start. */
  lemma ExtractedIdIsLeftmostLongest(s: string, id: string)
    requires ExtractPublicId(Some(s)) == Some(id)
    ensures exists p: nat, c: nat, q: nat ::
      && MatchSpan(s, p, c, q) && id == s[c..q]
      && (forall i: nat, c': nat, q': nat :: i < p ==> !MatchSpan(s, i, c', q'))
      && (forall q': nat :: q < q' ==> !MatchSpan(s, p, c, q'))
      && (c == p + 8 ==> forall c': nat, q': nat :: VersionSegment(s, p + 8, c') ==> !MatchSpan(s, p, c', q'))
  {
    FirstMatchSome(s, 0);
    var p: nat :| UploadAt(s, p) && MatchAt(s, p) == FirstMatch(s, 0)
             && forall i | 0 <= i < p :: !(UploadAt(s, i) && MatchAt(s, i).Some?);
    MatchAtLongest(s, p);
    forall i: nat, c': nat, q': nat | i < p ensures !MatchSpan(s, i, c', q') {
      if MatchSpan(s, i, c', q') {
        MatchAtSpans(s, i);
      }
    }
  }

  /** A URL with `/upload/` first at `p`, a version segment up to `c`, then
      an id without line terminators up to a dot at `q` and only extension
      characters after it, yields `s[c..q]`. */
  lemma VersionedUrl(s: string, p: nat, c: nat, q: nat)
    requires UploadAt(s, p) && forall i | 0 <= i < p :: !UploadAt(s, i)
    requires VersionSegment(s, p + 8, c)
    requires c < q < |s| - 1 && s[q] == '.' && NoLineTerminator(s, c, q)
    requires forall k | q < k < |s| :: IsAlnum(s[k])
    ensures ExtractPublicId(Some(s)) == Some(s[c..q])
  {
    VersionEndIffSegment(s, p + 8, c);
    CaptureToLastDot(s, c, q);
    assert MatchAt(s, p) == Some(s[c..q]);
    FirstMatchFindsLeftmost(s, 0, p);
  }

  /** From `c`, group 1 runs up to a dot followed only by extension characters. */
  lemma CaptureToLastDot(s: string, c: nat, q: nat)
    requires c < q < |s| - 1 && s[q] == '.' && NoLineTerminator(s, c, q)
    requires forall k | q < k < |s| :: IsAlnum(s[k])
    ensures CaptureFrom(s, c) == Some(s[c..q])
  {
    assert TailWith(s, q, |s| - q - 1);
    SuffixAtIffTail(s, q);
    CaptureFromSpans(s, c);
    var q1 :| && c < q1 < |s| && NoLineTerminator(s, c, q1) && SuffixAt(s, q1)
              && CaptureFrom(s, c).value == s[c..q1]
              && forall q' :: q1 < q' < |s| && NoLineTerminator(s, c, q') ==> !SuffixAt(s, q');
    assert q1 == q;
  }

  // The documented example URL, in four parts.
  const ExampleHost := "https://res.cloudinary.com/<cloud>/image"
  const ExampleVersionPath := "/upload/v1699999999/"
  const ExampleIdPart := "properties/my-img"
  const ExampleExtension := ".jpg"

  lemma ExampleHasNoEarlierUpload(s: string)
    requires s == ExampleHost + ExampleVersionPath + ExampleIdPart + ExampleExtension
    ensures forall i | 0 <= i < 40 :: !UploadAt(s, i)
  {
    var host, path := ExampleHost, ExampleVersionPath;
    assert s == host + (path + ExampleIdPart + ExampleExtension);
    assert forall i | 0 <= i < 40 :: host[i] == '/' ==> i == 6 || i == 7 || i == 26 || i == 34;
    assert host[8] == 'r' && host[27] == '<' && host[35] == 'i' && path[1] == 'u';
  }

  lemma ExampleUpload(s: string)
    requires s == ExampleHost + ExampleVersionPath + ExampleIdPart + ExampleExtension
    ensures UploadAt(s, 40)
  {
    UploadAfter(ExampleHost, ExampleVersionPath, ExampleIdPart + ExampleExtension);
    assert s == ExampleHost + ExampleVersionPath + (ExampleIdPart + ExampleExtension);
  }

  lemma UploadAfter(host: string, path: string, rest: string)
    requires path == ExampleVersionPath
    ensures UploadAt(host + path + rest, |host|)
  {
    var u := host + path + rest;
    assert forall k | 0 <= k < 8 :: u[|host| + k] == path[k];
  }

  lemma ExampleVersion(s: string)
    requires s == ExampleHost + ExampleVersionPath + ExampleIdPart + ExampleExtension
    ensures VersionSegment(s, 48, 60)
  {
    var path := ExampleVersionPath;
    assert s == ExampleHost + path + (ExampleIdPart + ExampleExtension);
    assert forall k | 9 <= k < 19 :: IsDecimalDigit(path[k]);
    assert forall k | 49 <= k < 59 :: s[k] == path[k - 40];
    assert s[48] == 'v' && s[59] == '/';
  }

  lemma ExampleId(s: string)
    requires s == ExampleHost + ExampleVersionPath + ExampleIdPart + ExampleExtension
    ensures NoLineTerminator(s, 60, 77) && s[60..77] == "properties/my-img"
  {
    var id := ExampleIdPart;
    assert |ExampleHost + ExampleVersionPath| == 60;
    assert s[60..77] == id;
    assert forall k | 0 <= k < 17 :: !IsLineTerminator(id[k]);
  }

  lemma ExampleDot(s: string)
    requires s == ExampleHost + ExampleVersionPath + ExampleIdPart + ExampleExtension
    ensures |s| == 81 && s[77] == '.' && forall k | 77 < k < |s| :: IsAlnum(s[k])
  {
    var ext := ExampleExtension;
    assert forall k | 77 <= k < 81 :: s[k] == ext[k - 77];
    assert forall k | 0 < k < 4 :: IsAlnum(ext[k]);
  }

  /** The documented example:
      `https://res.cloudinary.com/<cloud>/image/upload/v1699999999/properties/my-img.jpg`
      (written here as its four parts) yields `properties/my-img`. */
  lemma DocumentedExample(url: string)
    requires url == ExampleHost + ExampleVersionPath + ExampleIdPart + ExampleExtension
    ensures ExtractPublicId(Some(url)) == Some("properties/my-img")
  {
    ExampleHasNoEarlierUpload(url);
    ExampleUpload(url);
    ExampleVersion(url);
    ExampleId(url);
    ExampleDot(url);
    VersionedUrl(url, 40, 60, 77);
  }

  /** A value that is not a string, the empty string, and a URL without
      `/upload/` give no id. */
  lemma NoIdWithoutUpload(url: Option<string>)
    requires url.Some? ==> forall p | 0 <= p < |url.value| :: !UploadAt(url.value, p)
    ensures ExtractPublicId(url).None?
  {
    if url.Some? && url.value != [] {
      ExtractIffMatches(url.value);
    }
  }
}
