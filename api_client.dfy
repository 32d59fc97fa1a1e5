/** The browser side of the combined text-and-speech endpoint: finding the
    boundary in the response's content type, cutting the response bytes into
    parts at each delimiter, and reading the JSON part and the audio part. */
module ApiClient {
  import opened Common
  import opened Text
  import AppServer

  // =====================================================================
  // Searching bytes
  // =====================================================================

  /** `n` agrees with `h` from position `i` on, byte by byte from the `j`-th
      byte of `n` to its last. */
  predicate SameFrom(h: seq<Byte>, n: seq<Byte>, i: nat, j: nat)
    requires i + |n| <= |h| && j <= |n|
    decreases |n| - j
  {
    j == |n| || (h[i + j] == n[j] && SameFrom(h, n, i, j + 1))
  }

  lemma {:induction false} SameFromSlices(h: seq<Byte>, n: seq<Byte>, i: nat, j: nat)
    requires i + |n| <= |h| && j <= |n|
    ensures SameFrom(h, n, i, j) <==> h[i + j..i + |n|] == n[j..]
    decreases |n| - j
  {
    if j < |n| {
      SameFromSlices(h, n, i, j + 1);
      assert h[i + j..i + |n|] == [h[i + j]] + h[i + j + 1..i + |n|];
      assert n[j..] == [n[j]] + n[j + 1..];
    }
  }

  /** The byte-by-byte comparison finds exactly the occurrences. */
  lemma OccursAt(h: seq<Byte>, n: seq<Byte>, i: nat)
    requires i + |n| <= |h|
    ensures SameFrom(h, n, i, 0) <==> MatchAt(h, n, i)
  {
    SameFromSlices(h, n, i, 0);
    assert n[0..] == n;
  }

  /** The first position at or after `from` where `n` occurs in `h`, or -1. */
  function IndexOf(h: seq<Byte>, n: seq<Byte>, from: nat): (r: int)
    ensures r == -1 || from <= r <= |h| - |n|
    decreases |h| - from
  {
    if from + |n| > |h| then -1
    else if SameFrom(h, n, from, 0) then from
    else IndexOf(h, n, from + 1)
  }

  /** What the search finds is an occurrence. */
  lemma {:induction false} IndexOfMatches(h: seq<Byte>, n: seq<Byte>, from: nat)
    ensures IndexOf(h, n, from) >= 0 ==> MatchAt(h, n, IndexOf(h, n, from))
    decreases |h| - from
  {
    if from + |n| <= |h| {
      OccursAt(h, n, from);
      if !MatchAt(h, n, from) {
        IndexOfMatches(h, n, from + 1);
      }
    }
  }

  /** The search finds the first occurrence: none lies between `from` and
      the result, and -1 means there is none at all. */
  lemma {:induction false} IndexOfFirst(h: seq<Byte>, n: seq<Byte>, from: nat)
    ensures var r := IndexOf(h, n, from);
      && (r >= 0 ==> forall q | from <= q < r :: !MatchAt(h, n, q))
      && (r == -1 <==> forall q | from <= q <= |h| - |n| :: !MatchAt(h, n, q))
    decreases |h| - from
  {
    if from + |n| <= |h| {
      OccursAt(h, n, from);
      if !MatchAt(h, n, from) {
        IndexOfFirst(h, n, from + 1);
      }
    }
  }

  /** A match at `k` with none between `from` and `k` is what the search finds. */
  lemma {:induction false} IndexOfAt(h: seq<Byte>, n: seq<Byte>, from: nat, k: nat)
    requires from <= k && MatchAt(h, n, k)
    requires forall q | from <= q < k :: !MatchAt(h, n, q)
    ensures IndexOf(h, n, from) == k
    decreases k - from
  {
    OccursAt(h, n, from);
    if from < k {
      IndexOfAt(h, n, from + 1, k);
    }
  }

  /** The nested search loops: try each start position in turn, compare the
      needle byte by byte and stop at the first mismatch. */
  method IndexOfArr(haystack: seq<Byte>, needle: seq<Byte>, fromIdx: nat) returns (r: int)
    ensures r == IndexOf(haystack, needle, fromIdx)
  {
    var i := fromIdx;
    while i < |haystack| - |needle| + 1
      invariant fromIdx <= i
      invariant IndexOf(haystack, needle, i) == IndexOf(haystack, needle, fromIdx)
      decreases |haystack| - i
    {
      var ok := true;
      var j := 0;
      while j < |needle|
        invariant 0 <= j <= |needle|
        invariant SameFrom(haystack, needle, i, 0) == SameFrom(haystack, needle, i, j)
      {
        if haystack[i + j] != needle[j] {
          ok := false;
          break;
        }
        j := j + 1;
      }
      if ok {
        return i;
      }
      i := i + 1;
    }
    r := -1;
  }

  /** The number of positions at or after `from` where `n` occurs in `h`. */
  function Count(h: seq<Byte>, n: seq<Byte>, from: nat): nat
    decreases |h| - from
  {
    if from + |n| > |h| then 0
    else (if SameFrom(h, n, from, 0) then 1 else 0) + Count(h, n, from + 1)
  }

  /** Starting later finds no more occurrences. */
  lemma {:induction false} CountMono(h: seq<Byte>, n: seq<Byte>, from: nat, later: nat)
    requires from <= later
    ensures Count(h, n, later) <= Count(h, n, from)
    decreases later - from
  {
    if from < later && from + |n| <= |h| {
      CountMono(h, n, from + 1, later);
    }
  }

  // =====================================================================
  // Uint8Array.prototype.slice
  // =====================================================================

  /** A relative index of `slice`: negative counts from the end, and the
      result is clamped to [0, len]. */
  function RelativeIndex(i: int, len: nat): (k: nat)
    ensures k <= len
    ensures 0 <= i <= len ==> k == i
    ensures i > len ==> k == len
    ensures i < 0 ==> k == if len + i < 0 then 0 else len + i
  {
    if i < 0 then (if len + i < 0 then 0 else len + i)
    else if i > len then len
    else i
  }

  /** `h.slice(start, end)`: the bytes from the clamped start to the clamped
      end, or none when the end comes first. */
  function JsSlice(h: seq<Byte>, start: int, end: int): (r: seq<Byte>)
    ensures 0 <= start <= end <= |h| ==> r == h[start..end]
    ensures 0 <= end <= start ==> r == []
  {
    var k := RelativeIndex(start, |h|);
    var e := RelativeIndex(end, |h|);
    if e <= k then h[k..k] else h[k..e]
  }

  /** Whatever the arguments, a slice is one contiguous range. */
  lemma JsSliceIsRange(h: seq<Byte>, start: int, end: int)
    ensures exists lo, hi | 0 <= lo <= hi <= |h| :: JsSlice(h, start, end) == h[lo..hi]
  {
    var k := RelativeIndex(start, |h|);
    var e := RelativeIndex(end, |h|);
    if e <= k {
      assert JsSlice(h, start, end) == h[k..k];
    } else {
      assert JsSlice(h, start, end) == h[k..e];
    }
  }

  // =====================================================================
  // Cutting the response into parts
  // =====================================================================

  const CrlfCrlf: seq<Byte> := AppServer.CrlfCrlf

  /** Where the part found from offset `idx` on starts, and where the search
      goes on: after the next delimiter, skip to the first blank line; the
      part starts right after it, and the search goes on at the following
      delimiter, or at the end when there is none. None when a delimiter or
      a blank line is missing. */
  function NextPart(h: seq<Byte>, sep: seq<Byte>, idx: nat): (r: Option<(nat, nat)>)
    ensures r.Some? ==> idx < r.value.0 <= r.value.1 <= |h|
  {
    var start := IndexOf(h, sep, idx);
    if start < 0 then None
    else
      var headerEnd := IndexOf(h, CrlfCrlf, start + |sep|);
      if headerEnd < 0 then None
      else
        var next0 := IndexOf(h, sep, headerEnd + 4);
        var next := if next0 < 0 then |h| else next0;
        Some((headerEnd + 4, next))
  }

  /** NextPart in terms of the three searches it makes. */
  lemma {:induction false} NextPartOf(h: seq<Byte>, sep: seq<Byte>, idx: nat, start: int, headerEnd: int, next0: int)
    requires start == IndexOf(h, sep, idx)
    requires start >= 0 ==> headerEnd == IndexOf(h, CrlfCrlf, start + |sep|)
    requires start >= 0 && headerEnd >= 0 ==> next0 == IndexOf(h, sep, headerEnd + 4)
    ensures start < 0 || headerEnd < 0 ==> NextPart(h, sep, idx).None?
    ensures start >= 0 && headerEnd >= 0 ==>
      var next := if next0 < 0 then |h| else next0;
      NextPart(h, sep, idx) == Some((headerEnd + 4, next))
  {
  }

  /** The parts found from offset `idx` on, until the end of the data or
      until a delimiter or a blank line is missing: each runs from its start
      to two bytes before where the search goes on. */
  function SplitFrom(h: seq<Byte>, sep: seq<Byte>, idx: nat): (parts: seq<seq<Byte>>)
    decreases |h| - idx
  {
    if idx >= |h| then []
    else
      var np := NextPart(h, sep, idx);
      if np.None? then []
      else [JsSlice(h, np.value.0, np.value.1 - 2)] + SplitFrom(h, sep, np.value.1)
  }

  lemma {:induction false} SplitFromStep(h: seq<Byte>, sep: seq<Byte>, idx: nat, partStart: nat, next: nat)
    requires idx < |h| && NextPart(h, sep, idx) == Some((partStart, next))
    ensures SplitFrom(h, sep, idx) == [JsSlice(h, partStart, next - 2)] + SplitFrom(h, sep, next)
  {
  }

  lemma PartsAssociative(a: seq<seq<Byte>>, b: seq<seq<Byte>>, c: seq<seq<Byte>>)
    ensures a + b + c == a + (b + c)
  {
  }

  /** The searches of one round of the splitting loop, each giving up on a
      miss: where the part starts and where the next round begins. */
  method NextPartArr(u8arr: seq<Byte>, sep: seq<Byte>, idx: nat) returns (r: Option<(nat, nat)>)
    ensures r == NextPart(u8arr, sep, idx)
  {
    var start := IndexOfArr(u8arr, sep, idx);
    if start < 0 {
      NextPartOf(u8arr, sep, idx, start, 0, 0);
      return None;
    }
    var headerEnd := IndexOfArr(u8arr, CrlfCrlf, start + |sep|);
    if headerEnd < 0 {
      NextPartOf(u8arr, sep, idx, start, headerEnd, 0);
      return None;
    }
    var next := IndexOfArr(u8arr, sep, headerEnd + 4);
    NextPartOf(u8arr, sep, idx, start, headerEnd, next);
    if next < 0 {
      next := |u8arr|;
    }
    r := Some((headerEnd + 4, next));
  }

  /** One more part keeps what the loop has gathered, followed by what is
      still to be found, equal to all the parts. */
  lemma SplitLoopStep(h: seq<Byte>, sep: seq<Byte>, idx: nat, parts: seq<seq<Byte>>, partStart: nat, next: nat)
    requires idx < |h| && NextPart(h, sep, idx) == Some((partStart, next))
    requires parts + SplitFrom(h, sep, idx) == SplitFrom(h, sep, 0)
    ensures (parts + [JsSlice(h, partStart, next - 2)]) + SplitFrom(h, sep, next) == SplitFrom(h, sep, 0)
  {
    var part := JsSlice(h, partStart, next - 2);
    SplitFromStep(h, sep, idx, partStart, next);
    PartsAssociative(parts, [part], SplitFrom(h, sep, next));
  }

  /** `splitMultipart`: the delimiter `--boundary` encoded as UTF-8, then
      the splitting loop. */
  method SplitMultipart(u8arr: seq<Byte>, boundary: string) returns (parts: seq<seq<Byte>>)
    ensures parts == SplitFrom(u8arr, AppServer.Delimiter(boundary), 0)
  {
    var sep := Encode("--" + boundary);
    parts := SplitLoop(u8arr, sep);
  }

  /** The splitting loop over the response bytes for the encoded delimiter
      `sep`. */
  method SplitLoop(u8arr: seq<Byte>, sep: seq<Byte>) returns (parts: seq<seq<Byte>>)
    ensures parts == SplitFrom(u8arr, sep, 0)
  {
    var idx: nat := 0;
    parts := [];
    while idx < |u8arr|
      invariant parts + SplitFrom(u8arr, sep, idx) == SplitFrom(u8arr, sep, 0)
      decreases |u8arr| - idx
    {
      var found := NextPartArr(u8arr, sep, idx);
      if found.None? {
        assert SplitFrom(u8arr, sep, idx) == [];
        break;
      }
      var headerEnd, next := found.value.0, found.value.1;
      SplitLoopStep(u8arr, sep, idx, parts, headerEnd, next);
      parts := parts + [JsSlice(u8arr, headerEnd, next - 2)];
      idx := next;
    }
    assert parts + [] == parts;
  }

  /** Every part is one contiguous range of the data. */
  lemma {:induction false} PartsAreSlices(h: seq<Byte>, sep: seq<Byte>, idx: nat)
    ensures forall p | p in SplitFrom(h, sep, idx) :: exists lo, hi | 0 <= lo <= hi <= |h| :: p == h[lo..hi]
    decreases |h| - idx
  {
    if idx < |h| && NextPart(h, sep, idx).Some? {
      var (partStart, next) := NextPart(h, sep, idx).value;
      PartsAreSlices(h, sep, next);
      JsSliceIsRange(h, partStart, next - 2);
    }
  }

  /** Each part uses up one occurrence of the delimiter, so there are no more
      parts than occurrences. */
  lemma {:induction false} PartsAtMostDelimiters(h: seq<Byte>, sep: seq<Byte>, idx: nat)
    ensures |SplitFrom(h, sep, idx)| <= Count(h, sep, idx)
    decreases |h| - idx
  {
    if idx < |h| && NextPart(h, sep, idx).Some? {
      var next := NextPart(h, sep, idx).value.1;
      var start := IndexOf(h, sep, idx);
      PartsAtMostDelimiters(h, sep, next);
      IndexOfMatches(h, sep, idx);
      OccursAt(h, sep, start);
      CountMono(h, sep, start + 1, next);
      CountMono(h, sep, idx, start);
      assert Count(h, sep, start) == 1 + Count(h, sep, start + 1);
    }
  }

  // =====================================================================
  // Finding the boundary
  // =====================================================================

  /** The line terminators of JavaScript regular expressions, which `.` does
      not match. */
  predicate LineTerminator(c: char)
  {
    c == '\n' || c == '\r' || c == '\U{2028}' || c == '\U{2029}'
  }

  predicate NoLineTerminator(s: string)
  {
    forall i | 0 <= i < |s| :: !LineTerminator(s[i])
  }

  /** `boundary=(.*)$` matches at `k`: the parameter name is there and the
      rest of the text, up to its end, holds no line terminator. */
  predicate BoundaryAt(ct: string, k: nat)
  {
    MatchAt(ct, AppServer.BoundaryParam, k) && NoLineTerminator(ct[k + 9..])
  }

  /** The first position at or after `from` where the pattern matches. */
  function FindBoundary(ct: string, from: nat): (r: Option<nat>)
    ensures r.Some? ==> from <= r.value && BoundaryAt(ct, r.value)
    decreases |ct| - from
  {
    if from + 9 > |ct| then None
    else if BoundaryAt(ct, from) then Some(from)
    else FindBoundary(ct, from + 1)
  }

  /** The scan finds the first match, and None means there is none. */
  lemma {:induction false} FindBoundaryFirst(ct: string, from: nat)
    ensures var r := FindBoundary(ct, from);
      && (r.Some? ==> forall q | from <= q < r.value :: !BoundaryAt(ct, q))
      && (r.None? <==> forall q | from <= q :: !BoundaryAt(ct, q))
    decreases |ct| - from
  {
    if from + 9 <= |ct| && !BoundaryAt(ct, from) {
      FindBoundaryFirst(ct, from + 1);
    }
  }

  lemma {:induction false} FindBoundaryAt(ct: string, from: nat, k: nat)
    requires from <= k && BoundaryAt(ct, k)
    requires forall q | from <= q < k :: !BoundaryAt(ct, q)
    ensures FindBoundary(ct, from) == Some(k)
    decreases k - from
  {
    if from < k {
      FindBoundaryAt(ct, from + 1, k);
    }
  }

  const NoBoundaryMessage: string := "未获取到boundary"

  /** The boundary from the response's content type (a missing header reads
      as the empty text): what follows the first `boundary=` from which no
      line terminator follows, or the error when there is none. */
  function ExtractBoundary(contentType: Option<string>): (r: Result<string, string>)
    ensures r.Err? ==> r.error == NoBoundaryMessage
    ensures r.Ok? ==> exists k | BoundaryAt(contentType.GetOr(""), k) :: r.value == contentType.GetOr("")[k + 9..]
  {
    var ct := contentType.GetOr("");
    match FindBoundary(ct, 0)
    case None => Err(NoBoundaryMessage)
    case Some(k) => Ok(ct[k + 9..])
  }

  /** The extraction fails exactly when the pattern matches nowhere, in
      particular when there is no `boundary=` at all; otherwise it takes the
      first match. */
  lemma ExtractBoundaryCases(contentType: Option<string>)
    ensures var ct, r := contentType.GetOr(""), ExtractBoundary(contentType);
      && (r.Err? <==> forall k | 0 <= k :: !BoundaryAt(ct, k))
      && (!Contains(ct, AppServer.BoundaryParam) ==> r.Err?)
      && (r.Ok? ==> exists k | BoundaryAt(ct, k) :: r.value == ct[k + 9..]
                      && forall q | 0 <= q < k :: !BoundaryAt(ct, q))
  {
    var ct := contentType.GetOr("");
    FindBoundaryFirst(ct, 0);
    var f := FindBoundary(ct, 0);
    if f.Some? {
      assert BoundaryAt(ct, f.value) && MatchAt(ct, AppServer.BoundaryParam, f.value);
      assert f.value <= |ct| - |AppServer.BoundaryParam|;
    }
  }

  /** Without line terminators, the boundary is everything after the first
      `boundary=`. */
  lemma BoundaryAfterFirstParam(ct: string, k: nat)
    requires NoLineTerminator(ct)
    requires MatchAt(ct, AppServer.BoundaryParam, k)
    requires forall q | 0 <= q < k :: !MatchAt(ct, AppServer.BoundaryParam, q)
    ensures ExtractBoundary(Some(ct)) == Ok(ct[k + 9..])
  {
    assert BoundaryAt(ct, k);
    FindBoundaryAt(ct, 0, k);
  }

  /** The client reads back the boundary the server put in the media type. */
  lemma BoundaryOfMediaType(b: string)
    requires NoLineTerminator(b)
    ensures ExtractBoundary(Some(AppServer.MediaType(b))) == Ok(b)
  {
    var ct := AppServer.MediaType(b);
    var m := AppServer.MixedReplace;
    assert |m| == 27 && |AppServer.BoundaryParam| == 9;
    assert forall i | 0 <= i < 27 :: m[i] != '=';
    assert forall i | 0 <= i < 8 :: AppServer.BoundaryParam[i] != '=';
    forall q | 0 <= q < 27
      ensures !BoundaryAt(ct, q)
    {
      if q + 8 < 27 {
        assert ct[q + 8] == ct[..27][q + 8];
      } else {
        assert ct[q + 8] == ct[27..36][q + 8 - 27];
      }
      assert ct[q..q + 9][8] == ct[q + 8];
    }
    assert ct[27..36] == AppServer.BoundaryParam;
    assert NoLineTerminator(ct[36..]);
    FindBoundaryAt(ct, 0, 27);
  }

  // =====================================================================
  // The round trip
  // =====================================================================

  /** A search that starts inside a stretch `p` free of the needle, which is
      followed by CRLF and then the needle, lands on that needle. */
  lemma FoundAfterCrlf(h: seq<Byte>, n: seq<Byte>, from: nat, p: seq<Byte>)
    requires from + |p| + 2 + |n| <= |h|
    requires h[from..from + |p|] == p && !Contains(p, n)
    requires h[from + |p|] == CR && h[from + |p| + 1] == LF
    requires h[from + |p| + 2..from + |p| + 2 + |n|] == n
    requires |n| >= 1 && CR !in n && LF !in n
    ensures IndexOf(h, n, from) == from + |p| + 2
  {
    var e := from + |p|;
    forall q | from <= q < e + 2
      ensures !MatchAt(h, n, q)
    {
      if q + |n| <= e {
        SliceOfSlice(h, from, from + |p|, q - from, q - from + |n|);
        assert !MatchAt(p, n, q - from);
      } else if q <= e {
        assert h[q..q + |n|][e - q] == h[e];
      } else {
        assert h[q..q + |n|][0] == h[e + 1];
      }
    }
    IndexOfAt(h, n, from, e + 2);
  }

  /** A search for a blank line that starts on header lines `y` with no blank
      line starting inside them, followed by a blank line, lands right after `y`. */
  lemma HeaderEndAt(h: seq<Byte>, from: nat, y: seq<Byte>)
    requires from + |y| + 4 <= |h|
    requires h[from..from + |y|] == y && h[from + |y|..from + |y| + 4] == CrlfCrlf
    requires AppServer.NoBlankLineStart(y)
    ensures IndexOf(h, CrlfCrlf, from) == from + |y|
  {
    forall q | from <= q < from + |y|
      ensures !MatchAt(h, CrlfCrlf, q)
    {
      assert h[q] == y[q - from];
      if y[q - from] == CR {
        assert h[q + 2] == y[q - from + 2];
        assert h[q..q + 4][2] == h[q + 2];
      } else {
        assert h[q..q + 4][0] == h[q];
      }
    }
    IndexOfAt(h, CrlfCrlf, from, from + |y|);
  }

  /** The pieces of one part laid out in front of the rest of the body. */
  lemma PartPieces(d: seq<Byte>, y: seq<Byte>, p: seq<Byte>, rest: seq<Byte>, t: seq<Byte>)
    requires t == d + (y + (CrlfCrlf + (p + (AppServer.Crlf + rest))))
    ensures var a, s := |d| + |y|, |d| + |y| + 4 + |p|;
      && |t| == s + 2 + |rest|
      && t[..|d|] == d && t[|d|..a] == y && t[a..a + 4] == CrlfCrlf
      && t[a + 4..s] == p && t[s] == CR && t[s + 1] == LF && t[s + 2..] == rest
  {
  }

  lemma SliceOfSlice(h: seq<Byte>, lo: nat, hi: nat, i: nat, j: nat)
    requires lo <= hi <= |h| && i <= j <= hi - lo
    ensures h[lo..hi][i..j] == h[lo + i..lo + j]
  {
    assert forall k | 0 <= k < j - i :: h[lo..hi][i..j][k] == h[lo + i + k];
  }

  lemma SliceOfSuffix(h: seq<Byte>, off: nat, i: nat, j: nat)
    requires off <= |h| && i <= j <= |h| - off
    ensures h[off..][i..j] == h[off + i..off + j]
  {
  }

  /** One part that the server laid out at `off`, given piece by piece: the
      client finds it and carries on at the next delimiter. */
  lemma SplitStepAt(h: seq<Byte>, d: seq<Byte>, off: nat, y: seq<Byte>, p: seq<Byte>)
    requires off + |d| + |y| + 4 + |p| + 2 + |d| <= |h|
    requires h[off..off + |d|] == d && h[off + |d|..off + |d| + |y|] == y
    requires h[off + |d| + |y|..off + |d| + |y| + 4] == CrlfCrlf
    requires h[off + |d| + |y| + 4..off + |d| + |y| + 4 + |p|] == p
    requires h[off + |d| + |y| + 4 + |p|] == CR && h[off + |d| + |y| + 4 + |p| + 1] == LF
    requires h[off + |d| + |y| + 4 + |p| + 2..off + |d| + |y| + 4 + |p| + 2 + |d|] == d
    requires |d| >= 1 && CR !in d && LF !in d
    requires AppServer.NoBlankLineStart(y) && !Contains(p, d)
    ensures SplitFrom(h, d, off) == [p] + SplitFrom(h, d, NextOffset(off, d, y, p))
  {
    var a := off + |d| + |y|;
    var next := a + 4 + |p| + 2;
    SearchesAt(h, d, off, y, p);
    SplitFromFound(h, d, off, a, next, p);
    assert next == NextOffset(off, d, y, p);
  }

  /** The three searches of one step over a part laid out piece by piece. */
  lemma SearchesAt(h: seq<Byte>, d: seq<Byte>, off: nat, y: seq<Byte>, p: seq<Byte>)
    requires off + |d| + |y| + 4 + |p| + 2 + |d| <= |h|
    requires h[off..off + |d|] == d && h[off + |d|..off + |d| + |y|] == y
    requires h[off + |d| + |y|..off + |d| + |y| + 4] == CrlfCrlf
    requires h[off + |d| + |y| + 4..off + |d| + |y| + 4 + |p|] == p
    requires h[off + |d| + |y| + 4 + |p|] == CR && h[off + |d| + |y| + 4 + |p| + 1] == LF
    requires h[off + |d| + |y| + 4 + |p| + 2..off + |d| + |y| + 4 + |p| + 2 + |d|] == d
    requires |d| >= 1 && CR !in d && LF !in d
    requires AppServer.NoBlankLineStart(y) && !Contains(p, d)
    ensures IndexOf(h, d, off) == off
    ensures IndexOf(h, CrlfCrlf, off + |d|) == off + |d| + |y|
    ensures IndexOf(h, d, off + |d| + |y| + 4) == off + |d| + |y| + 4 + |p| + 2
    ensures JsSlice(h, off + |d| + |y| + 4, off + |d| + |y| + 4 + |p|) == p
  {
    IndexOfAt(h, d, off, off);
    HeaderEndAt(h, off + |d|, y);
    FoundAfterCrlf(h, d, off + |d| + |y| + 4, p);
  }

  /** The three searches succeed at `off`, `a` and `next`: the part is the
      slice between the blank line and `next`, and the parsing goes on there. */
  lemma SplitFromFound(h: seq<Byte>, d: seq<Byte>, off: nat, a: nat, next: nat, p: seq<Byte>)
    requires off < |h| && IndexOf(h, d, off) == off && IndexOf(h, CrlfCrlf, off + |d|) == a
    requires IndexOf(h, d, a + 4) == next && JsSlice(h, a + 4, next - 2) == p
    ensures SplitFrom(h, d, off) == [p] + SplitFrom(h, d, next)
  {
    NextPartOf(h, d, off, off, a, next);
    SplitFromStep(h, d, off, a + 4, next);
  }

  /** Where the delimiter after a part with header lines y and body p starts. */
  function NextOffset(off: nat, d: seq<Byte>, y: seq<Byte>, p: seq<Byte>): nat
  {
    off + |d| + |y| + 4 + |p| + 2
  }

  /** One part that the server laid out at `off`, in front of the rest of the
      body: the client finds it and carries on at the next delimiter. */
  lemma SplitStep(h: seq<Byte>, d: seq<Byte>, off: nat, y: seq<Byte>, p: seq<Byte>, rest: seq<Byte>)
    requires off <= |h| && h[off..] == d + (y + (CrlfCrlf + (p + (AppServer.Crlf + rest))))
    requires |d| >= 1 && CR !in d && LF !in d
    requires AppServer.NoBlankLineStart(y) && !Contains(p, d)
    requires |d| <= |rest| && rest[..|d|] == d
    ensures NextOffset(off, d, y, p) <= |h| && h[NextOffset(off, d, y, p)..] == rest
    ensures SplitFrom(h, d, off) == [p] + SplitFrom(h, d, NextOffset(off, d, y, p))
  {
    LaidOut(h, d, off, y, p, rest);
    SplitStepAt(h, d, off, y, p);
  }

  /** A part laid out at `off` in front of the rest, given piece by piece. */
  lemma LaidOut(h: seq<Byte>, d: seq<Byte>, off: nat, y: seq<Byte>, p: seq<Byte>, rest: seq<Byte>)
    requires off <= |h| && h[off..] == d + (y + (CrlfCrlf + (p + (AppServer.Crlf + rest))))
    requires |d| <= |rest| && rest[..|d|] == d
    ensures off + |d| + |y| + 4 + |p| + 2 + |d| <= |h|
    ensures h[off..off + |d|] == d && h[off + |d|..off + |d| + |y|] == y
    ensures h[off + |d| + |y|..off + |d| + |y| + 4] == CrlfCrlf
    ensures h[off + |d| + |y| + 4..off + |d| + |y| + 4 + |p|] == p
    ensures h[off + |d| + |y| + 4 + |p|] == CR && h[off + |d| + |y| + 4 + |p| + 1] == LF
    ensures h[off + |d| + |y| + 4 + |p| + 2..off + |d| + |y| + 4 + |p| + 2 + |d|] == d
    ensures NextOffset(off, d, y, p) <= |h| && h[NextOffset(off, d, y, p)..] == rest
  {
    var t := h[off..];
    PartPieces(d, y, p, rest, t);
    var a, s := |d| + |y|, |d| + |y| + 4 + |p|;
    SliceOfSuffix(h, off, 0, |d|);
    SliceOfSuffix(h, off, |d|, a);
    SliceOfSuffix(h, off, a, a + 4);
    SliceOfSuffix(h, off, a + 4, s);
    SliceOfSuffix(h, off, s + 2, s + 2 + |d|);
    assert t[s + 2..][..|d|] == t[s + 2..s + 2 + |d|];
    assert h[off + s] == t[s] && h[off + s + 1] == t[s + 1];
    assert h[off + s + 2..] == t[s + 2..];
    assert NextOffset(off, d, y, p) == off + s + 2;
  }

  /** The closing delimiter ends the parsing: no blank line follows it. */
  lemma SplitEnd(h: seq<Byte>, d: seq<Byte>, off: nat)
    requires off <= |h| && h[off..] == d + (AppServer.DashDash + AppServer.Crlf)
    ensures SplitFrom(h, d, off) == []
  {
    var t := h[off..];
    assert |h| == off + |d| + 4;
    SliceOfSuffix(h, off, 0, |d|);
    assert t[..|d|] == d;
    IndexOfAt(h, d, off, off);
    assert h[off + |d|] == t[|d|] == 45;
    assert !SameFrom(h, CrlfCrlf, off + |d|, 0);
  }

  lemma PrefixOfConcat(d: seq<Byte>, x: seq<Byte>)
    ensures |d| <= |d + x| && (d + x)[..|d|] == d
  {
  }

  /** Two parts, each with its delimiter and header lines, then the closing
      delimiter: the client finds exactly the two part bodies. */
  lemma SplitTwoParts(h: seq<Byte>, d: seq<Byte>, y1: seq<Byte>, p1: seq<Byte>, y2: seq<Byte>, p2: seq<Byte>)
    requires h == d + (y1 + (CrlfCrlf + (p1 + (AppServer.Crlf +
                 (d + (y2 + (CrlfCrlf + (p2 + (AppServer.Crlf +
                 (d + (AppServer.DashDash + AppServer.Crlf)))))))))))
    requires |d| >= 1 && CR !in d && LF !in d
    requires AppServer.NoBlankLineStart(y1) && AppServer.NoBlankLineStart(y2)
    requires !Contains(p1, d) && !Contains(p2, d)
    ensures SplitFrom(h, d, 0) == [p1, p2]
  {
    var r3 := d + (AppServer.DashDash + AppServer.Crlf);
    var r2 := d + (y2 + (CrlfCrlf + (p2 + (AppServer.Crlf + r3))));
    WholeSuffix(h);
    PrefixOfConcat(d, y2 + (CrlfCrlf + (p2 + (AppServer.Crlf + r3))));
    SplitStep(h, d, 0, y1, p1, r2);
    var n1 := NextOffset(0, d, y1, p1);
    PrefixOfConcat(d, AppServer.DashDash + AppServer.Crlf);
    SplitStep(h, d, n1, y2, p2, r3);
    var n2 := NextOffset(n1, d, y2, p2);
    SplitEnd(h, d, n2);
    SplitChain(h, d, p1, p2, n1, n2);
  }

  lemma WholeSuffix(h: seq<Byte>)
    ensures h[0..] == h
  {
  }

  lemma SplitChain(h: seq<Byte>, d: seq<Byte>, p1: seq<Byte>, p2: seq<Byte>, n1: nat, n2: nat)
    requires SplitFrom(h, d, 0) == [p1] + SplitFrom(h, d, n1)
    requires SplitFrom(h, d, n1) == [p2] + SplitFrom(h, d, n2)
    requires SplitFrom(h, d, n2) == []
    ensures SplitFrom(h, d, 0) == [p1, p2]
  {
  }

  /** The client cuts a body of the server's layout back into the JSON bytes
      and the audio bytes, as long as neither holds the delimiter. */
  lemma SplitRoundTrip(b: string, json: seq<Byte>, audio: seq<Byte>)
    requires '\r' !in b && '\n' !in b
    requires !Contains(json, AppServer.Delimiter(b)) && !Contains(audio, AppServer.Delimiter(b))
    ensures SplitFrom(AppServer.Layout(b, json, audio), AppServer.Delimiter(b), 0) == [json, audio]
  {
    AppServer.DelimiterFacts(b);
    AppServer.JsonHeaderLinesFacts();
    AppServer.AudioHeaderLinesFacts();
    SplitTwoParts(AppServer.Layout(b, json, audio), AppServer.Delimiter(b),
                  AppServer.JsonHeaderLines(), json, AppServer.AudioHeaderLines(), audio);
  }

  // =====================================================================
  // Reading the response
  // =====================================================================

  /** The decoded JSON of the first part and the bytes of the audio part. */
  datatype Reply<T> = Reply(info: T, audio: seq<Byte>)

  const JsonSyntaxError: string := "SyntaxError"

  /** What the client makes of a response: the boundary, then the parts; the
      first part is decoded and parsed (`parse` stands for UTF-8 decoding
      followed by JSON parsing, None when the text is not JSON), the second
      becomes the audio. A missing first part decodes as empty text; a
      missing second part becomes a blob of the text `undefined`. */
  function ClientReply<T>(contentType: Option<string>, raw: seq<Byte>, parse: seq<Byte> -> Option<T>)
    : (r: Result<Reply<T>, string>)
    ensures ExtractBoundary(contentType).Err? ==> r == Err(NoBoundaryMessage)
    ensures ExtractBoundary(contentType).Ok? ==>
      var parts := SplitFrom(raw, AppServer.Delimiter(ExtractBoundary(contentType).value), 0);
      var info := parse(if |parts| >= 1 then parts[0] else []);
      && (info.None? ==> r == Err(JsonSyntaxError))
      && (info.Some? ==> r.Ok? && r.value.info == info.value)
      && (info.Some? && |parts| >= 2 ==> r.value.audio == parts[1])
      && (info.Some? && |parts| < 2 ==> r.value.audio == Encode("undefined"))
  {
    match ExtractBoundary(contentType)
    case Err(e) => Err(e)
    case Ok(boundary) =>
      var parts := SplitFrom(raw, AppServer.Delimiter(boundary), 0);
      match parse(if |parts| >= 1 then parts[0] else [])
      case None => Err(JsonSyntaxError)
      case Some(info) => Ok(Reply(info, if |parts| >= 2 then parts[1] else Encode("undefined")))
  }

  /** The response handling of the combined request, after the request
      itself: boundary, splitting, decoding the JSON part, the audio blob. */
  method FetchRagTtsMultipart<T>(contentType: Option<string>, raw: seq<Byte>, parse: seq<Byte> -> Option<T>)
    returns (r: Result<Reply<T>, string>)
    ensures r == ClientReply(contentType, raw, parse)
  {
    var boundaryMatch := ExtractBoundary(contentType);
    if boundaryMatch.Err? {
      return Err(boundaryMatch.error);
    }
    var parts := SplitMultipart(raw, boundaryMatch.value);
    var info := parse(if |parts| >= 1 then parts[0] else []);
    if info.None? {
      return Err(JsonSyntaxError);
    }
    var audioBlob := if |parts| >= 2 then parts[1] else Encode("undefined");
    r := Ok(Reply(info.value, audioBlob));
  }

  /** A response the server produced for a UUID without line terminators,
      JSON text and audio chunks neither of which holds the delimiter, is
      read back as exactly that JSON and the audio chunks back to back. */
  lemma ClientReadsServerResponse<T>(uuid: string, payload: string, chunks: seq<seq<Byte>>,
                                     parse: seq<Byte> -> Option<T>)
    requires NoLineTerminator(uuid)
    requires !Contains(Encode(payload), AppServer.Delimiter(AppServer.NewBoundary(uuid)))
    requires !Contains(AppServer.Flatten(chunks), AppServer.Delimiter(AppServer.NewBoundary(uuid)))
    ensures var resp := AppServer.RagTtsMultipart(uuid, payload, chunks);
      var body := AppServer.Flatten(resp.body);
      && ExtractBoundary(Some(resp.mediaType)) == Ok(AppServer.NewBoundary(uuid))
      && SplitFrom(body, AppServer.Delimiter(AppServer.NewBoundary(uuid)), 0)
         == [Encode(payload), AppServer.Flatten(chunks)]
      && ClientReply(Some(resp.mediaType), body, parse)
         == match parse(Encode(payload))
            case None => Err(JsonSyntaxError)
            case Some(info) => Ok(Reply(info, AppServer.Flatten(chunks)))
  {
    var b := AppServer.NewBoundary(uuid);
    var resp := AppServer.RagTtsMultipart(uuid, payload, chunks);
    ServerResponseParts(uuid, payload, chunks);
    ClientReplyOfTwoParts(Some(resp.mediaType), AppServer.Flatten(resp.body), parse, b,
                          Encode(payload), AppServer.Flatten(chunks));
  }

  /** The boundary and the two parts the client finds in the server's response. */
  lemma ServerResponseParts(uuid: string, payload: string, chunks: seq<seq<Byte>>)
    requires NoLineTerminator(uuid)
    requires !Contains(Encode(payload), AppServer.Delimiter(AppServer.NewBoundary(uuid)))
    requires !Contains(AppServer.Flatten(chunks), AppServer.Delimiter(AppServer.NewBoundary(uuid)))
    ensures var resp := AppServer.RagTtsMultipart(uuid, payload, chunks);
      && ExtractBoundary(Some(resp.mediaType)) == Ok(AppServer.NewBoundary(uuid))
      && SplitFrom(AppServer.Flatten(resp.body), AppServer.Delimiter(AppServer.NewBoundary(uuid)), 0)
         == [Encode(payload), AppServer.Flatten(chunks)]
  {
    var b := AppServer.NewBoundary(uuid);
    BoundaryHasNoLineTerminator(uuid);
    BoundaryOfMediaType(b);
    AppServer.BodyLayout(payload, chunks, b);
    SplitRoundTrip(b, Encode(payload), AppServer.Flatten(chunks));
  }

  lemma BoundaryHasNoLineTerminator(uuid: string)
    requires NoLineTerminator(uuid)
    ensures NoLineTerminator(AppServer.NewBoundary(uuid))
    ensures '\r' !in AppServer.NewBoundary(uuid) && '\n' !in AppServer.NewBoundary(uuid)
  {
    var b := AppServer.NewBoundary(uuid);
    assert b == "BOUNDARY-" + uuid;
    assert NoLineTerminator(b) by {
      forall i | 0 <= i < |b|
        ensures !LineTerminator(b[i])
      {
        if i >= 9 {
          assert b[i] == uuid[i - 9];
        }
      }
    }
    forall c | c in b
      ensures !LineTerminator(c)
    {
      var i :| 0 <= i < |b| && b[i] == c;
    }
  }

  /** Two parts under a boundary the client finds: the reply is the parsed
      first part with the second as its audio, or the JSON syntax error. */
  lemma ClientReplyOfTwoParts<T>(contentType: Option<string>, raw: seq<Byte>, parse: seq<Byte> -> Option<T>,
                                 b: string, json: seq<Byte>, audio: seq<Byte>)
    requires ExtractBoundary(contentType) == Ok(b)
    requires SplitFrom(raw, AppServer.Delimiter(b), 0) == [json, audio]
    ensures ClientReply(contentType, raw, parse)
            == match parse(json)
               case None => Err(JsonSyntaxError)
               case Some(info) => Ok(Reply(info, audio))
  {
  }
}
