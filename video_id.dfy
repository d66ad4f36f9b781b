/**
  The video-identifier extractor shared by both transcript tools: a search for
  the pattern `(?:v=|/)([0-9A-Za-z_-]{11})` anywhere in the URL, taking the
  capture group of the leftmost match.

  The search is modelled by scanning positions from left to right. At a given
  position the pattern can match in at most one way, because the two markers
  `v=` and `/` start with different characters; `MarkerLength` picks the one
  that applies. Nothing after the eleven identifier characters is examined.
*/
module VideoId {
  import opened Wrappers

  /** The fixed length of the capture group `{11}`. */
  const IdLength: nat := 11

  /** Membership in the character class `[0-9A-Za-z_-]` (ASCII ranges only). */
  predicate IsIdChar(c: char) {
    ('0' <= c <= '9') || ('A' <= c <= 'Z') || ('a' <= c <= 'z') || c == '_' || c == '-'
  }

  predicate AllIdChars(s: string) {
    forall k :: 0 <= k < |s| ==> IsIdChar(s[k])
  }

  /** A string the capture group can produce: eleven class characters. */
  predicate IsVideoId(s: string) {
    |s| == IdLength && AllIdChars(s)
  }

  /**
    The length of the marker at position `i`: 2 for `v=`, 1 for `/`, and 0
    when neither alternative of `(?:v=|/)` can start there.
  */
  function MarkerLength(url: string, i: nat): (n: nat)
    requires i <= |url|
    ensures n <= 2 && i + n <= |url|
  {
    if i + 2 <= |url| && url[i..i + 2] == "v=" then 2
    else if i < |url| && url[i] == '/' then 1
    else 0
  }

  /** The pattern matches at position `i`: a marker followed by eleven class characters. */
  predicate MatchesAt(url: string, i: nat) {
    && i <= |url|
    && MarkerLength(url, i) > 0
    && i + MarkerLength(url, i) + IdLength <= |url|
    && AllIdChars(url[i + MarkerLength(url, i) .. i + MarkerLength(url, i) + IdLength])
  }

  /** The capture group of a match at `i`: the eleven characters after the marker. */
  function CaptureAt(url: string, i: nat): (id: string)
    requires MatchesAt(url, i)
    ensures IsVideoId(id)
  {
    url[i + MarkerLength(url, i) .. i + MarkerLength(url, i) + IdLength]
  }

  /**
    The leftmost position at or after `from` where the pattern matches, or
    `None` when it matches nowhere from there on.
  */
  function FirstMatchFrom(url: string, from: nat): (r: Option<nat>)
    requires from <= |url|
    ensures r.Some? ==> from <= r.value < |url| && MatchesAt(url, r.value)
    ensures forall j :: from <= j < (if r.Some? then r.value else |url| + 1) ==> !MatchesAt(url, j)
    decreases |url| - from
  {
    if from == |url| then None
    else if MatchesAt(url, from) then Some(from)
    else FirstMatchFrom(url, from + 1)
  }

  /** `re.search(pattern, url)` followed by `group(1)`; `None` when there is no match. */
  function Search(url: string): (r: Option<string>)
    ensures r.Some? ==> IsVideoId(r.value)
  {
    match FirstMatchFrom(url, 0)
    case None => None
    case Some(i) => Some(CaptureAt(url, i))
  }

  // ---------------------------------------------------------------------
  // The meaning of the pattern, stated independently of the scan above
  // ---------------------------------------------------------------------

  /**
    The pattern matches at position `i` with capture `id`: the text from `i`
    on starts with `v=` or `/`, immediately followed by `id`, which is eleven
    class characters.
  */
  ghost predicate PatternMatch(url: string, i: nat, id: string) {
    && i <= |url|
    && IsVideoId(id)
    && ("v=" + id <= url[i..] || "/" + id <= url[i..])
  }

  /** `re.search` semantics: the match at `i` is the leftmost one. */
  ghost predicate LeftmostMatch(url: string, i: nat, id: string) {
    && PatternMatch(url, i, id)
    && forall j, other :: 0 <= j < i ==> !PatternMatch(url, j, other)
  }

  /** At each position the pattern matches in at most one way, and the scan's test agrees with it. */
  lemma MatchesAtIffPattern(url: string, i: nat, id: string)
    ensures PatternMatch(url, i, id) <==> MatchesAt(url, i) && id == CaptureAt(url, i)
  {
    if PatternMatch(url, i, id) {
      var rest := url[i..];
      if "v=" + id <= rest {
        assert url[i..i + 2] == ("v=" + id)[..2];
        assert MarkerLength(url, i) == 2;
        assert url[i + 2 .. i + 2 + IdLength] == ("v=" + id)[2..];
      } else {
        assert "/" + id <= rest;
        assert url[i] == ("/" + id)[0];
        assert MarkerLength(url, i) == 1;
        assert url[i + 1 .. i + 1 + IdLength] == ("/" + id)[1..];
      }
    }
    if MatchesAt(url, i) && id == CaptureAt(url, i) {
      var m := MarkerLength(url, i);
      if m == 2 {
        assert url[i..][..2 + IdLength] == "v=" + id;
      } else {
        assert url[i..][..1 + IdLength] == "/" + id;
      }
    }
  }

  /** Search returns `id` exactly when `id` is the capture of the leftmost match. */
  lemma SearchIsLeftmostMatch(url: string, id: string)
    ensures Search(url) == Some(id) <==> exists i :: LeftmostMatch(url, i, id)
  {
    var r := FirstMatchFrom(url, 0);
    if Search(url) == Some(id) {
      var i := r.value;
      MatchesAtIffPattern(url, i, id);
      forall j, other | 0 <= j < i ensures !PatternMatch(url, j, other) {
        MatchesAtIffPattern(url, j, other);
      }
      assert LeftmostMatch(url, i, id);
    }
    if i :| LeftmostMatch(url, i, id) {
      MatchesAtIffPattern(url, i, id);
      if r.Some? {
        var k := r.value;
        if k < i {
          MatchesAtIffPattern(url, k, CaptureAt(url, k));
          assert false;
        }
      }
    }
  }

  /** Search fails exactly when the pattern matches nowhere in the URL. */
  lemma SearchFailsIffNoMatch(url: string)
    ensures Search(url) == None <==> forall i: nat, id :: !PatternMatch(url, i, id)
  {
    var r := FirstMatchFrom(url, 0);
    if r.Some? {
      MatchesAtIffPattern(url, r.value, CaptureAt(url, r.value));
    } else {
      forall i: nat, id ensures !PatternMatch(url, i, id) {
        MatchesAtIffPattern(url, i, id);
      }
    }
  }

  /**
    A run of eleven or more class characters after a marker is accepted at
    that position, and the capture is its first eleven characters.
  */
  lemma LongRunIsTruncated(before: string, marker: string, run: string, after: string)
    requires marker == "v=" || marker == "/"
    requires |run| >= IdLength && AllIdChars(run)
    ensures PatternMatch(before + marker + run + after, |before|, run[..IdLength])
  {
    var url := before + marker + run + after;
    assert url[|before|..] == marker + run + after;
    assert (marker + run[..IdLength]) <= marker + run + after;
  }

  /**
    A run of fewer than eleven class characters after a marker, ended by the
    end of the URL or by a character outside the class, gives no match at
    that position.
  */
  lemma ShortRunIsRejected(before: string, marker: string, run: string, after: string)
    requires marker == "v=" || marker == "/"
    requires |run| < IdLength && AllIdChars(run)
    requires after == [] || !IsIdChar(after[0])
    ensures forall id :: !PatternMatch(before + marker + run + after, |before|, id)
  {
    var url := before + marker + run + after;
    var i := |before|;
    assert url[i..] == marker + run + after;
    if marker == "v=" {
      assert url[i..i + 2] == marker;
      assert MarkerLength(url, i) == 2;
    } else {
      assert url[i] == '/';
      assert i + 2 <= |url| ==> url[i..i + 2][0] == '/';
      assert MarkerLength(url, i) == 1;
    }
    var start := i + |marker|;
    if start + IdLength <= |url| {
      assert |after| > 0;
      assert url[start + |run|] == after[0];
      assert url[start .. start + IdLength][|run|] == after[0];
    }
    assert !MatchesAt(url, i);
    forall id ensures !PatternMatch(url, i, id) {
      MatchesAtIffPattern(url, i, id);
    }
  }

  /** Positions holding neither `v` nor `/` cannot start a match, so the scan passes over them. */
  lemma {:induction false} SkipNonMarkers(url: string, from: nat, to: nat)
    requires from <= to <= |url|
    requires forall j | from <= j < to :: url[j] != 'v' && url[j] != '/'
    ensures FirstMatchFrom(url, from) == FirstMatchFrom(url, to)
    decreases (to as int) - (from as int)
  {
    if from < to {
      assert MarkerLength(url, from) == 0 by {
        assert from + 2 <= |url| ==> url[from..from + 2][0] == url[from];
      }
      SkipNonMarkers(url, from + 1, to);
    }
  }

  /** Inside a run of class characters no marker can start a match, so the scan finds nothing there. */
  lemma {:induction false} NoMatchInIdRun(url: string, from: nat)
    requires from <= |url| && AllIdChars(url[from..])
    ensures FirstMatchFrom(url, from) == None
    decreases |url| - from
  {
    if from < |url| {
      assert url[from] == url[from..][0];
      if from + 2 <= |url| {
        assert url[from..from + 2][1] == url[from..][1];
      }
      assert MarkerLength(url, from) == 0;
      assert url[from + 1..] == url[from..][1..];
      NoMatchInIdRun(url, from + 1);
    }
  }

  /** A `/` followed, within eleven characters, by a character outside the class does not start a match. */
  lemma SlashBlocked(url: string, i: nat, k: nat)
    requires i < k <= i + IdLength && k < |url|
    requires url[i] == '/' && !IsIdChar(url[k])
    ensures FirstMatchFrom(url, i) == FirstMatchFrom(url, i + 1)
  {
    assert i + 2 <= |url| ==> url[i..i + 2][0] == '/';
    assert MarkerLength(url, i) == 1;
    if i + 1 + IdLength <= |url| {
      assert url[i + 1 .. i + 1 + IdLength][k - i - 1] == url[k];
    }
  }

  /** The scan passes over the fixed prefix `https://www.youtube.com/watch?` without a match. */
  lemma WatchPrefixSkipped(url: string)
    requires "https://www.youtube.com/watch?" <= url
    ensures FirstMatchFrom(url, 0) == FirstMatchFrom(url, 30)
  {
    var prefix := "https://www.youtube.com/watch?";
    forall j | 0 <= j < 30 && j !in {6, 7, 23} ensures url[j] != 'v' && url[j] != '/' {
      assert url[j] == prefix[j];
      assert j in {0, 1, 2, 3, 4, 5, 8, 9, 10, 11, 12, 13, 14, 15, 16, 17, 18, 19, 20, 21, 22, 24, 25, 26, 27, 28, 29};
    }
    assert url[6] == prefix[6] == '/' && url[7] == prefix[7] == '/' && url[11] == prefix[11] == '.';
    assert url[23] == prefix[23] == '/' && url[29] == prefix[29] == '?';
    SkipNonMarkers(url, 0, 6);
    SlashBlocked(url, 6, 7);
    SlashBlocked(url, 7, 11);
    SkipNonMarkers(url, 8, 23);
    SlashBlocked(url, 23, 29);
    SkipNonMarkers(url, 24, 30);
  }

  /** A watch link `https://www.youtube.com/watch?v=<id>...` yields its eleven-character identifier. */
  lemma WatchUrlYieldsId(id: string, rest: string)
    requires IsVideoId(id)
    ensures Search("https://www.youtube.com/watch?v=" + id + rest) == Some(id)
  {
    var url := "https://www.youtube.com/watch?v=" + id + rest;
    assert url[..30] == "https://www.youtube.com/watch?";
    WatchPrefixSkipped(url);
    assert url[30..32] == "v=";
    assert url[32..43] == id;
    assert MatchesAt(url, 30);
  }

  /** A short link `https://youtu.be/<run>` whose run has fewer than eleven class characters is rejected. */
  lemma ShortLinkTooShort(run: string)
    requires |run| < IdLength && AllIdChars(run)
    ensures Search("https://youtu.be/" + run) == None
  {
    var prefix := "https://youtu.be/";
    var url := prefix + run;
    forall j | 0 <= j < 17 && j !in {6, 7, 16} ensures url[j] != 'v' && url[j] != '/' {
      assert url[j] == prefix[j];
      assert j in {0, 1, 2, 3, 4, 5, 8, 9, 10, 11, 12, 13, 14, 15};
    }
    assert url[6] == '/' && url[7] == '/' && url[13] == '.' && url[16] == '/';
    SkipNonMarkers(url, 0, 6);
    SlashBlocked(url, 6, 7);
    SlashBlocked(url, 7, 13);
    SkipNonMarkers(url, 8, 16);
    assert !MatchesAt(url, 16);
    assert url[17..] == run;
    NoMatchInIdRun(url, 17);
  }

  /** The short link `https://youtu.be/badid`, whose run after the slash has five characters, has no identifier. */
  lemma BadShortLinkScenario()
    ensures Search("https://youtu.be/badid") == None
  {
    assert "https://youtu.be/badid" == "https://youtu.be/" + "badid";
    ShortLinkTooShort("badid");
  }
}
