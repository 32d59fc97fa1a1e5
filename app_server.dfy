/** The parts of the HTTP server that compute rather than call out: the
    multipart body of the combined text-and-speech endpoint, the final score
    of an interview session, the practice statistics and the set of held
    skills a job does not ask for. */
module AppServer {
  import opened Common
  import opened Text
  import PlannerAnalysis

  // =====================================================================
  // The multipart text-and-speech response
  // =====================================================================

  /** The boundary of one response: `BOUNDARY-` and a fresh UUID (the UUID
      generator is a parameter). */
  function NewBoundary(uuid: string): (b: string)
    ensures |b| == 9 + |uuid| && b[..9] == "BOUNDARY-" && b[9..] == uuid
  {
    "BOUNDARY-" + uuid
  }

  const MixedReplace: string := "multipart/x-mixed-replace; "
  const BoundaryParam: string := "boundary="

  /** The response's media type, carrying the boundary as a parameter. */
  function MediaType(boundary: string): (t: string)
    ensures |t| == |MixedReplace| + |BoundaryParam| + |boundary|
    ensures t[..|MixedReplace|] == MixedReplace
    ensures t[|MixedReplace|..|MixedReplace| + |BoundaryParam|] == BoundaryParam
    ensures t[|MixedReplace| + |BoundaryParam|..] == boundary
  {
    MixedReplace + BoundaryParam + boundary
  }

  const JsonContentType: string := "Content-Type: application/json"
  const AudioContentType: string := "Content-Type: audio/mpeg"
  const AudioDisposition: string := "Content-Disposition: " + "attachment; " + "filename=\"speech.mp3\""

  /** The text of the first part: delimiter, JSON content type, blank line,
      the JSON payload and a line end. */
  function JsonPart(boundary: string, payload: string): string
  {
    "--" + boundary + "\r\n" + JsonContentType + "\r\n\r\n" + payload + "\r\n"
  }

  /** The text that opens the second part: delimiter, audio content type,
      attachment disposition and blank line. */
  function AudioHeader(boundary: string): string
  {
    "--" + boundary + "\r\n" + AudioContentType + "\r\n" + AudioDisposition + "\r\n\r\n"
  }

  /** The closing delimiter. */
  function Closing(boundary: string): string
  {
    "\r\n--" + boundary + "--\r\n"
  }

  /** What the generator yields, chunk by chunk: the encoded JSON part, the
      encoded audio header, every audio chunk as it came, the closing
      delimiter. */
  function MultipartFrames(payload: string, chunks: seq<seq<Byte>>, boundary: string): (fs: seq<seq<Byte>>)
    ensures |fs| == |chunks| + 3
    ensures fs[0] == Encode(JsonPart(boundary, payload))
    ensures fs[1] == Encode(AudioHeader(boundary))
    ensures fs[2..|fs| - 1] == chunks
    ensures fs[|fs| - 1] == Encode(Closing(boundary))
  {
    [Encode(JsonPart(boundary, payload)), Encode(AudioHeader(boundary))] + chunks + [Encode(Closing(boundary))]
  }

  /** The bytes a client receives from a sequence of yielded chunks. */
  function Flatten(fs: seq<seq<Byte>>): seq<Byte>
  {
    if fs == [] then [] else Flatten(fs[..|fs| - 1]) + fs[|fs| - 1]
  }

  lemma {:induction false} FlattenAppend(xs: seq<seq<Byte>>, ys: seq<seq<Byte>>)
    ensures Flatten(xs + ys) == Flatten(xs) + Flatten(ys)
    decreases |ys|
  {
    if ys == [] {
      assert xs + ys == xs;
    } else {
      var ys' := ys[..|ys| - 1];
      assert (xs + ys)[..|xs + ys| - 1] == xs + ys';
      FlattenAppend(xs, ys');
    }
  }

  // ---------------------------------------------------------------------
  // The body as bytes
  // ---------------------------------------------------------------------

  const Crlf: seq<Byte> := [CR, LF]
  const CrlfCrlf: seq<Byte> := [CR, LF, CR, LF]
  const DashDash: seq<Byte> := [45, 45]

  /** `--boundary`, encoded. */
  function Delimiter(boundary: string): seq<Byte>
  {
    Encode("--" + boundary)
  }

  /** The header lines of the JSON part, each introduced by a line end. */
  function JsonHeaderLines(): seq<Byte>
  {
    Crlf + Encode(JsonContentType)
  }

  /** The header lines of the audio part, each introduced by a line end. */
  function AudioHeaderLines(): seq<Byte>
  {
    (Crlf + Encode(AudioContentType)) + (Crlf + Encode(AudioDisposition))
  }

  /** The JSON part as bytes: delimiter, header lines, blank line, the JSON
      bytes and a line end. */
  function JsonSegment(boundary: string, json: seq<Byte>): seq<Byte>
  {
    Delimiter(boundary) + (JsonHeaderLines() + (CrlfCrlf + (json + Crlf)))
  }

  /** The opening of the audio part as bytes: delimiter, header lines, blank line. */
  function AudioSegment(boundary: string): seq<Byte>
  {
    Delimiter(boundary) + (AudioHeaderLines() + CrlfCrlf)
  }

  /** The closing delimiter as bytes: line end, delimiter, `--`, line end. */
  function ClosingSegment(boundary: string): seq<Byte>
  {
    Crlf + (Delimiter(boundary) + (DashDash + Crlf))
  }

  /** The body with JSON bytes `json` and audio bytes `audio`, segment by
      segment (grouped from the right). */
  function Layout(boundary: string, json: seq<Byte>, audio: seq<Byte>): seq<Byte>
  {
    var d := Delimiter(boundary);
    d + (JsonHeaderLines() + (CrlfCrlf + (json + (Crlf +
    (d + (AudioHeaderLines() + (CrlfCrlf + (audio + (Crlf +
    (d + (DashDash + Crlf)))))))))))
  }

  lemma EncodeCrlf()
    ensures Encode("\r\n") == Crlf
    ensures Encode("\r\n\r\n") == CrlfCrlf
    ensures Encode("--\r\n") == DashDash + Crlf
  {
    assert "\r\n"[1..] == "\n";
    assert "\r\n\r\n" == "\r\n" + "\r\n";
    EncodeAppend("\r\n", "\r\n");
    assert "--\r\n" == "--" + "\r\n";
    EncodeAppend("--", "\r\n");
    assert "--"[1..] == "-";
  }

  lemma Associative(a: seq<Byte>, b: seq<Byte>, c: seq<Byte>)
    ensures a + b + c == a + (b + c)
  {
  }

  lemma {:induction false} EncodeJsonPart(d: string, contentType: string, payload: string)
    ensures Encode(d + "\r\n" + contentType + "\r\n\r\n" + payload + "\r\n")
         == Encode(d) + ((Crlf + Encode(contentType)) + (CrlfCrlf + (Encode(payload) + Crlf)))
  {
    EncodeCrlf();
    var s1 := d + "\r\n";
    var s2 := s1 + contentType;
    var s3 := s2 + "\r\n\r\n";
    var s4 := s3 + payload;
    EncodeAppend(d, "\r\n");
    EncodeAppend(s1, contentType);
    EncodeAppend(s2, "\r\n\r\n");
    EncodeAppend(s3, payload);
    EncodeAppend(s4, "\r\n");
    var x, y := Encode(d), Crlf + Encode(contentType);
    Associative(x, Crlf, Encode(contentType));
    Associative(x + y, CrlfCrlf, Encode(payload));
    Associative(x + y, CrlfCrlf + Encode(payload), Crlf);
    Associative(CrlfCrlf, Encode(payload), Crlf);
    Associative(x, y, CrlfCrlf + (Encode(payload) + Crlf));
  }

  lemma JsonPartBytes(boundary: string, payload: string)
    ensures Encode(JsonPart(boundary, payload)) == JsonSegment(boundary, Encode(payload))
  {
    EncodeJsonPart("--" + boundary, JsonContentType, payload);
  }

  lemma {:induction false} EncodeAudioHeader(d: string, contentType: string, disposition: string)
    ensures Encode(d + "\r\n" + contentType + "\r\n" + disposition + "\r\n\r\n")
         == Encode(d) + (((Crlf + Encode(contentType)) + (Crlf + Encode(disposition))) + CrlfCrlf)
  {
    EncodeCrlf();
    var s1 := d + "\r\n";
    var s2 := s1 + contentType;
    var s3 := s2 + "\r\n";
    var s4 := s3 + disposition;
    EncodeAppend(d, "\r\n");
    EncodeAppend(s1, contentType);
    EncodeAppend(s2, "\r\n");
    EncodeAppend(s3, disposition);
    EncodeAppend(s4, "\r\n\r\n");
    var x, a, b := Encode(d), Crlf + Encode(contentType), Crlf + Encode(disposition);
    Associative(x, Crlf, Encode(contentType));
    Associative(x + a, Crlf, Encode(disposition));
    Associative(x, a, b);
    Associative(x, a + b, CrlfCrlf);
  }

  lemma AudioHeaderBytes(boundary: string)
    ensures Encode(AudioHeader(boundary)) == AudioSegment(boundary)
  {
    EncodeAudioHeader("--" + boundary, AudioContentType, AudioDisposition);
  }

  lemma ClosingBytes(boundary: string)
    ensures Encode(Closing(boundary)) == ClosingSegment(boundary)
  {
    var d := "--" + boundary;
    EncodeCrlf();
    assert Closing(boundary) == "\r\n" + d + "--\r\n";
    EncodeAppend("\r\n" + d, "--\r\n");
    EncodeAppend("\r\n", d);
    Associative(Crlf, Encode(d), DashDash + Crlf);
  }

  /** The concatenated yields, as four pieces. */
  lemma FlattenFrames(payload: string, chunks: seq<seq<Byte>>, boundary: string)
    ensures Flatten(MultipartFrames(payload, chunks, boundary))
         == Encode(JsonPart(boundary, payload)) + Encode(AudioHeader(boundary)) + Flatten(chunks)
            + Encode(Closing(boundary))
  {
    var fs := MultipartFrames(payload, chunks, boundary);
    var head := [fs[0], fs[1]];
    assert fs == head + chunks + [fs[|fs| - 1]];
    FlattenAppend(head + chunks, [fs[|fs| - 1]]);
    FlattenAppend(head, chunks);
    assert Flatten(head) == fs[0] + fs[1] by {
      assert head[..1] == [fs[0]];
      assert [fs[0]][..0] == head[..0];
    }
    assert Flatten([fs[|fs| - 1]]) == fs[|fs| - 1] by {
      assert [fs[|fs| - 1]][..0] == head[..0];
    }
  }

  /** The body is exactly: delimiter, JSON header lines, blank line, the
      JSON text, line end, delimiter, audio header lines, blank line, the
      audio chunks back to back, line end, delimiter, `--`, line end. */
  lemma BodyLayout(payload: string, chunks: seq<seq<Byte>>, boundary: string)
    ensures Flatten(MultipartFrames(payload, chunks, boundary))
         == Layout(boundary, Encode(payload), Flatten(chunks))
  {
    FlattenFrames(payload, chunks, boundary);
    JsonPartBytes(boundary, payload);
    AudioHeaderBytes(boundary);
    ClosingBytes(boundary);
    var d, j, a := Delimiter(boundary), Encode(payload), Flatten(chunks);
    var f0, f1, f2 := JsonSegment(boundary, j), AudioSegment(boundary), ClosingSegment(boundary);
    Associative(f0 + f1, a, f2);
    Associative(f0, f1, a + f2);
    NestAudio(d, AudioHeaderLines(), CrlfCrlf, a + f2);
    NestJson(d, JsonHeaderLines(), CrlfCrlf, j, Crlf, f1 + (a + f2));
  }

  lemma NestAudio(a: seq<Byte>, b: seq<Byte>, c: seq<Byte>, r: seq<Byte>)
    ensures (a + (b + c)) + r == a + (b + (c + r))
  {
  }

  lemma NestJson(a: seq<Byte>, b: seq<Byte>, c: seq<Byte>, d: seq<Byte>, e: seq<Byte>, r: seq<Byte>)
    ensures (a + (b + (c + (d + e)))) + r == a + (b + (c + (d + (e + r))))
  {
  }

  /** One response: the media type and the body use the same boundary, made
      once from the UUID. */
  datatype MultipartResponse = MultipartResponse(mediaType: string, body: seq<seq<Byte>>)

  function RagTtsMultipart(uuid: string, payload: string, chunks: seq<seq<Byte>>): (r: MultipartResponse)
    ensures r.mediaType == MediaType(NewBoundary(uuid))
    ensures r.body == MultipartFrames(payload, chunks, NewBoundary(uuid))
  {
    var boundary := NewBoundary(uuid);
    MultipartResponse(MediaType(boundary), MultipartFrames(payload, chunks, boundary))
  }

  // ---------------------------------------------------------------------
  // Facts about the fixed header lines
  // ---------------------------------------------------------------------

  /** Every CR of `y` is followed, one byte later, by a byte that is not CR:
      no blank line can start inside `y`. */
  predicate NoBlankLineStart(y: seq<Byte>)
  {
    forall k | 0 <= k < |y| && y[k] == CR :: k + 2 < |y| && y[k + 2] != CR
  }

  lemma LineHasNoBlankLineStart(line: seq<Byte>)
    requires |line| >= 1 && CR !in line
    ensures NoBlankLineStart(Crlf + line)
  {
    var y := Crlf + line;
    forall k | 0 <= k < |y| && y[k] == CR
      ensures k + 2 < |y| && y[k + 2] != CR
    {
      assert y[2] == line[0];
    }
  }

  lemma NoBlankLineStartAppend(x: seq<Byte>, y: seq<Byte>)
    requires NoBlankLineStart(x) && NoBlankLineStart(y)
    ensures NoBlankLineStart(x + y)
  {
    var z := x + y;
    forall k | 0 <= k < |z| && z[k] == CR
      ensures k + 2 < |z| && z[k + 2] != CR
    {
      if k >= |x| {
        assert z[k] == y[k - |x|];
        assert z[k + 2] == y[k - |x| + 2];
      } else {
        assert z[k + 2] == x[k + 2];
      }
    }
  }

  lemma PlainLineHasNoBlankLineStart(line: string)
    requires |line| >= 1 && '\r' !in line && '\n' !in line
    ensures NoBlankLineStart(Crlf + Encode(line))
  {
    EncodeNoLineBreak(line);
    LineHasNoBlankLineStart(Encode(line));
  }

  lemma JsonContentTypePlain()
    ensures |JsonContentType| >= 1 && '\r' !in JsonContentType && '\n' !in JsonContentType
  {
  }

  lemma JsonHeaderLinesFacts()
    ensures NoBlankLineStart(JsonHeaderLines())
  {
    JsonContentTypePlain();
    PlainLineHasNoBlankLineStart(JsonContentType);
  }

  lemma AudioDispositionPlain()
    ensures '\r' !in AudioDisposition && '\n' !in AudioDisposition
  {
    var p1, p2, p3 := "Content-Disposition: ", "attachment; ", "filename=\"speech.mp3\"";
    assert '\r' !in p1 && '\n' !in p1;
    assert '\r' !in p2 && '\n' !in p2;
    assert '\r' !in p3 && '\n' !in p3;
  }

  lemma AudioHeaderLinesFacts()
    ensures NoBlankLineStart(AudioHeaderLines())
  {
    PlainLineHasNoBlankLineStart(AudioContentType);
    AudioDispositionPlain();
    PlainLineHasNoBlankLineStart(AudioDisposition);
    NoBlankLineStartAppend(Crlf + Encode(AudioContentType), Crlf + Encode(AudioDisposition));
  }

  /** A boundary without line breaks gives a delimiter that starts with `-`
      and holds no CR and no LF. */
  lemma DelimiterFacts(boundary: string)
    requires '\r' !in boundary && '\n' !in boundary
    ensures |Delimiter(boundary)| >= 2 && Delimiter(boundary)[0] == 45
    ensures CR !in Delimiter(boundary) && LF !in Delimiter(boundary)
  {
    var d := "--" + boundary;
    assert forall c | c in d :: c == '-' || c in boundary;
    EncodeNoLineBreak(d);
    EncodeAppend("--", boundary);
    assert "--"[1..] == "-";
  }

  // =====================================================================
  // Ending a session
  // =====================================================================

  /** The recorded scores, skipping questions without one, in question order. */
  function RecordedScores(scores: seq<Option<real>>): (vs: seq<real>)
    ensures |vs| <= |scores|
    ensures forall v | v in vs :: Some(v) in scores
    ensures forall i | 0 <= i < |scores| && scores[i].Some? :: scores[i].value in vs
  {
    if scores == [] then []
    else
      var init := scores[..|scores| - 1];
      var last := scores[|scores| - 1];
      assert forall i | 0 <= i < |init| :: init[i] == scores[i];
      RecordedScores(init) + (if last.Some? then [last.value] else [])
  }

  /** The session's overall score after it ends: the mean of the recorded
      question scores, or the score it had when no question has one. */
  function EndSessionScore(current: Option<real>, scores: seq<Option<real>>): (r: Option<real>)
    ensures RecordedScores(scores) == [] ==> r == current
    ensures RecordedScores(scores) != [] ==> r.Some?
  {
    var vs := RecordedScores(scores);
    if vs == [] then current else Some(SumReal(vs) / |vs| as real)
  }

  /** The new score lies between the smallest and the largest recorded score. */
  lemma EndSessionScoreBetween(current: Option<real>, scores: seq<Option<real>>, lo: real, hi: real)
    requires exists i | 0 <= i < |scores| :: scores[i].Some?
    requires forall i | 0 <= i < |scores| && scores[i].Some? :: lo <= scores[i].value <= hi
    ensures EndSessionScore(current, scores).Some?
    ensures lo <= EndSessionScore(current, scores).value <= hi
  {
    var vs := RecordedScores(scores);
    var i :| 0 <= i < |scores| && scores[i].Some?;
    assert scores[i].value in vs;
    forall k | 0 <= k < |vs|
      ensures lo <= vs[k] <= hi
    {
      assert vs[k] in vs;
      var j :| 0 <= j < |scores| && scores[j] == Some(vs[k]);
    }
    MeanWithin(vs, lo, hi);
  }

  /** Questions that all carry the same score give the session that score. */
  lemma EndSessionScoreUniform(current: Option<real>, scores: seq<Option<real>>, x: real)
    requires exists i | 0 <= i < |scores| :: scores[i].Some?
    requires forall i | 0 <= i < |scores| && scores[i].Some? :: scores[i].value == x
    ensures EndSessionScore(current, scores) == Some(x)
  {
    EndSessionScoreBetween(current, scores, x, x);
  }

  // =====================================================================
  // Practice statistics
  // =====================================================================

  /** A stored interview session, as the statistics read it; a start time
      that is not a date-time is None. */
  datatype Session = Session(
    id: string, userId: Option<string>, jobTitle: string,
    startTime: Option<int>, durationSeconds: Option<int>, overallScore: Option<real>)

  /** The sessions counted: those of the user when a non-empty user id is given. */
  function SessionsOf(all: seq<Session>, userId: Option<string>): (ss: seq<Session>)
    ensures userId.None? || userId.value == "" ==> ss == all
    ensures userId.Some? && userId.value != "" ==>
      (forall s | s in ss :: s in all && s.userId == userId)
      && (forall s | s in all && s.userId == userId :: s in ss)
  {
    if userId.None? || userId.value == "" then all else WithUser(all, userId)
  }

  function WithUser(all: seq<Session>, userId: Option<string>): (ss: seq<Session>)
    ensures forall s | s in ss :: s in all && s.userId == userId
    ensures forall s | s in all && s.userId == userId :: s in ss
  {
    if all == [] then []
    else
      var init := all[..|all| - 1];
      var last := all[|all| - 1];
      assert forall s | s in all :: s in init || s == last;
      WithUser(init, userId) + (if last.userId == userId then [last] else [])
  }

  /** Total practice time, a missing duration counting as 0. */
  function TotalTime(ss: seq<Session>): int
  {
    if ss == [] then 0 else TotalTime(ss[..|ss| - 1]) + ss[|ss| - 1].durationSeconds.GetOr(0)
  }

  /** Sessions with known non-negative durations have a non-negative total,
      at least the longest one. */
  lemma {:induction false} TotalTimeBounds(ss: seq<Session>)
    requires forall s | s in ss :: s.durationSeconds.GetOr(0) >= 0
    ensures TotalTime(ss) >= 0
    ensures forall s | s in ss :: s.durationSeconds.GetOr(0) <= TotalTime(ss)
  {
    if ss != [] {
      var init := ss[..|ss| - 1];
      assert forall s | s in init :: s in ss;
      assert forall s | s in ss :: s in init || s == ss[|ss| - 1];
      TotalTimeBounds(init);
    }
  }

  /** The scores that are numbers, in session order. */
  function NumericScores(ss: seq<Session>): (vs: seq<real>)
    ensures |vs| <= |ss|
    ensures forall v | v in vs :: exists s | s in ss :: s.overallScore == Some(v)
    ensures forall s | s in ss && s.overallScore.Some? :: s.overallScore.value in vs
  {
    if ss == [] then []
    else
      var init := ss[..|ss| - 1];
      var last := ss[|ss| - 1];
      assert forall s | s in init :: s in ss;
      assert forall s | s in ss :: s in init || s == last;
      NumericScores(init) + (if last.overallScore.Some? then [last.overallScore.value] else [])
  }

  /** The mean of the numeric scores, or 0.0 when there are none. */
  function AverageScore(ss: seq<Session>): (r: real)
    ensures NumericScores(ss) == [] ==> r == 0.0
  {
    var vs := NumericScores(ss);
    if vs == [] then 0.0 else SumReal(vs) / |vs| as real
  }

  lemma AverageScoreBetween(ss: seq<Session>, lo: real, hi: real)
    requires lo <= 0.0 <= hi
    requires forall s | s in ss && s.overallScore.Some? :: lo <= s.overallScore.value <= hi
    ensures lo <= AverageScore(ss) <= hi
  {
    var vs := NumericScores(ss);
    if vs != [] {
      forall k | 0 <= k < |vs|
        ensures lo <= vs[k] <= hi
      {
        assert vs[k] in vs;
      }
      MeanWithin(vs, lo, hi);
    }
  }

  // ---------------------------------------------------------------------
  // Sessions per job title
  // ---------------------------------------------------------------------

  /** The `job_counts` dictionary: titles in insertion order and their counts. */
  datatype TitleCounts = TitleCounts(order: seq<string>, count: map<string, nat>)

  predicate CountsValid(c: TitleCounts)
  {
    && (forall i, j | 0 <= i < j < |c.order| :: c.order[i] != c.order[j])
    && (forall t | t in c.order :: t in c.count)
    && (forall t | t in c.count :: t in c.order)
  }

  /** `job_counts[t] = job_counts.get(t, 0) + 1`. */
  function Tally(c: TitleCounts, title: string): (r: TitleCounts)
    ensures CountsValid(c) ==> CountsValid(r)
  {
    if title in c.count then TitleCounts(c.order, c.count[title := c.count[title] + 1])
    else TitleCounts(c.order + [title], c.count[title := 1])
  }

  function CountsOf(ss: seq<Session>): (c: TitleCounts)
    ensures CountsValid(c)
    ensures ss != [] ==> c.order != []
  {
    if ss == [] then TitleCounts([], map[])
    else Tally(CountsOf(ss[..|ss| - 1]), ss[|ss| - 1].jobTitle)
  }

  /** The loop that fills `job_counts`, one session at a time. */
  method CountJobTitles(ss: seq<Session>) returns (order: seq<string>, count: map<string, nat>)
    ensures TitleCounts(order, count) == CountsOf(ss)
  {
    order, count := [], map[];
    for i := 0 to |ss|
      invariant TitleCounts(order, count) == CountsOf(ss[..i])
    {
      assert ss[..i + 1][..i] == ss[..i];
      var title := ss[i].jobTitle;
      var n := if title in count then count[title] else 0;
      if title !in count {
        order := order + [title];
      }
      count := count[title := n + 1];
    }
    assert ss[..|ss|] == ss;
  }

  /** How many sessions practise `title`. */
  function Occurrences(ss: seq<Session>, title: string): nat
  {
    if ss == [] then 0
    else Occurrences(ss[..|ss| - 1], title) + (if ss[|ss| - 1].jobTitle == title then 1 else 0)
  }

  /** The position of the first session practising `title` (|ss| when none does). */
  function FirstIndex(ss: seq<Session>, title: string): (k: nat)
    ensures k <= |ss|
    ensures k < |ss| ==> ss[k].jobTitle == title
    ensures forall i | 0 <= i < k :: ss[i].jobTitle != title
  {
    if ss == [] then 0
    else if ss[0].jobTitle == title then 0
    else 1 + FirstIndex(ss[1..], title)
  }

  lemma FirstIndexAppend(ss: seq<Session>, s: Session, title: string)
    ensures FirstIndex(ss + [s], title)
         == if FirstIndex(ss, title) < |ss| then FirstIndex(ss, title)
            else if s.jobTitle == title then |ss| else |ss| + 1
  {
    var k := FirstIndex(ss + [s], title);
    var k0 := FirstIndex(ss, title);
    if k0 < |ss| {
      assert (ss + [s])[k0] == ss[k0];
      assert forall i | 0 <= i < k0 :: (ss + [s])[i] == ss[i];
    } else {
      assert forall i | 0 <= i < |ss| :: (ss + [s])[i] == ss[i];
      assert (ss + [s])[|ss|] == s;
    }
  }

  /** `job_counts` holds exactly the practised titles. */
  lemma {:induction false} CountsOfKeys(ss: seq<Session>)
    ensures forall t :: t in CountsOf(ss).count <==> exists s | s in ss :: s.jobTitle == t
  {
    if ss != [] {
      var init := ss[..|ss| - 1];
      CountsOfKeys(init);
      assert forall s | s in ss :: s in init || s == ss[|ss| - 1];
      assert forall s | s in init :: s in ss;
    }
  }

  /** Each title's count is its number of sessions. */
  lemma {:induction false} CountsOfValues(ss: seq<Session>)
    ensures forall t :: (if t in CountsOf(ss).count then CountsOf(ss).count[t] else 0) == Occurrences(ss, t)
  {
    if ss != [] {
      CountsOfValues(ss[..|ss| - 1]);
    }
  }

  /** The titles are kept in the order in which they first appear. */
  lemma {:induction false} CountsOfOrder(ss: seq<Session>)
    ensures forall i | 0 <= i < |CountsOf(ss).order| :: FirstIndex(ss, CountsOf(ss).order[i]) < |ss|
    ensures forall i, j | 0 <= i < j < |CountsOf(ss).order| ::
      FirstIndex(ss, CountsOf(ss).order[i]) < FirstIndex(ss, CountsOf(ss).order[j])
  {
    if ss != [] {
      var init := ss[..|ss| - 1];
      var last := ss[|ss| - 1];
      assert ss == init + [last];
      CountsOfOrder(init);
      CountsOfKeys(init);
      var c0 := CountsOf(init);
      var c := CountsOf(ss);
      forall t
        ensures FirstIndex(ss, t) == if FirstIndex(init, t) < |init| then FirstIndex(init, t)
                                     else if last.jobTitle == t then |init| else |init| + 1
      {
        FirstIndexAppend(init, last, t);
      }
      if last.jobTitle !in c0.count {
        assert c.order == c0.order + [last.jobTitle];
      }
    }
  }

  lemma CountsOfOrderAt(ss: seq<Session>, i: nat, j: nat)
    requires i < j < |CountsOf(ss).order|
    ensures FirstIndex(ss, CountsOf(ss).order[i]) < FirstIndex(ss, CountsOf(ss).order[j])
  {
    CountsOfOrder(ss);
  }

  /** The position of the first title with the largest count: `max` over the
      items keeps the first of equal maxima. */
  function FirstMaxIndex(order: seq<string>, count: map<string, nat>): (i: nat)
    requires order != [] && forall t | t in order :: t in count
    ensures i < |order|
    ensures forall j | 0 <= j < |order| :: count[order[j]] <= count[order[i]]
    ensures forall j | 0 <= j < i :: count[order[j]] < count[order[i]]
  {
    if |order| == 1 then 0
    else
      var init := order[..|order| - 1];
      assert forall t | t in init :: t in order;
      var k := FirstMaxIndex(init, count);
      assert init[k] == order[k];
      if count[order[|order| - 1]] > count[order[k]] then |order| - 1 else k
  }

  function MostPracticed(ss: seq<Session>): string
    requires ss != []
  {
    var c := CountsOf(ss);
    c.order[FirstMaxIndex(c.order, c.count)]
  }

  /** The most practised role is practised at least as often as any other
      title, and strictly more often than every title that first appears
      before it. */
  lemma MostPracticedIsFirstMostFrequent(ss: seq<Session>)
    requires ss != []
    ensures exists s | s in ss :: s.jobTitle == MostPracticed(ss)
    ensures forall s | s in ss :: Occurrences(ss, s.jobTitle) <= Occurrences(ss, MostPracticed(ss))
    ensures forall s | s in ss && FirstIndex(ss, s.jobTitle) < FirstIndex(ss, MostPracticed(ss)) ::
      Occurrences(ss, s.jobTitle) < Occurrences(ss, MostPracticed(ss))
  {
    var c := CountsOf(ss);
    CountsOfKeys(ss);
    assert MostPracticed(ss) in c.count;
    forall s | s in ss
      ensures Occurrences(ss, s.jobTitle) <= Occurrences(ss, MostPracticed(ss))
      ensures FirstIndex(ss, s.jobTitle) < FirstIndex(ss, MostPracticed(ss)) ==>
                Occurrences(ss, s.jobTitle) < Occurrences(ss, MostPracticed(ss))
    {
      MostPracticedBeats(ss, s.jobTitle);
    }
  }

  lemma MostPracticedBeats(ss: seq<Session>, t: string)
    requires ss != [] && t in CountsOf(ss).count
    ensures Occurrences(ss, t) <= Occurrences(ss, MostPracticed(ss))
    ensures FirstIndex(ss, t) < FirstIndex(ss, MostPracticed(ss)) ==>
              Occurrences(ss, t) < Occurrences(ss, MostPracticed(ss))
  {
    var c := CountsOf(ss);
    CountsOfValues(ss);
    var m := FirstMaxIndex(c.order, c.count);
    var r := c.order[m];
    var j :| 0 <= j < |c.order| && c.order[j] == t;
    assert MostPracticed(ss) == r;
    assert Occurrences(ss, t) == c.count[t] && Occurrences(ss, r) == c.count[r];
    assert c.count[t] <= c.count[r];
    if FirstIndex(ss, t) < FirstIndex(ss, r) {
      assert j != m;
      if m < j {
        CountsOfOrderAt(ss, m, j);
      }
      assert j < m;
      assert c.count[c.order[j]] < c.count[c.order[m]];
    }
  }

  // ---------------------------------------------------------------------
  // Recent sessions
  // ---------------------------------------------------------------------

  /** `a` sorts no later than `b` when ordering by start time, latest first;
      a start time that is not a date-time counts as the earliest. */
  predicate StartsNoEarlier(a: Session, b: Session)
  {
    b.startTime.None? || (a.startTime.Some? && a.startTime.value >= b.startTime.value)
  }

  predicate LatestFirst(ss: seq<Session>)
  {
    forall i, j | 0 <= i < j < |ss| :: StartsNoEarlier(ss[i], ss[j])
  }

  /** Insert `s` after every session that starts no earlier: the place a
      stable sort gives the later of two equal keys. */
  function InsertByStart(s: Session, sorted: seq<Session>): (r: seq<Session>)
    ensures multiset(r) == multiset(sorted) + multiset{s}
  {
    if sorted == [] then [s]
    else if StartsNoEarlier(sorted[0], s) then
      assert sorted == [sorted[0]] + sorted[1..];
      [sorted[0]] + InsertByStart(s, sorted[1..])
    else
      [s] + sorted
  }

  lemma {:induction false} InsertKeepsLatestFirst(s: Session, sorted: seq<Session>)
    requires LatestFirst(sorted)
    ensures LatestFirst(InsertByStart(s, sorted))
    decreases |sorted|
  {
    if sorted != [] {
      if StartsNoEarlier(sorted[0], s) {
        assert LatestFirst(sorted[1..]) by {
          assert forall i, j | 0 <= i < j < |sorted[1..]| :: sorted[1..][i] == sorted[i + 1] && sorted[1..][j] == sorted[j + 1];
        }
        InsertKeepsLatestFirst(s, sorted[1..]);
        HeadStaysFirst(s, sorted);
      } else {
        InsertAtFront(s, sorted);
      }
    }
  }

  /** The head that starts no earlier than `s` stays in front of the rest
      with `s` inserted. */
  lemma HeadStaysFirst(s: Session, sorted: seq<Session>)
    requires sorted != [] && LatestFirst(sorted) && StartsNoEarlier(sorted[0], s)
    requires LatestFirst(InsertByStart(s, sorted[1..]))
    ensures LatestFirst(InsertByStart(s, sorted))
  {
    var rest := InsertByStart(s, sorted[1..]);
    assert InsertByStart(s, sorted) == [sorted[0]] + rest;
    forall j | 0 <= j < |rest|
      ensures StartsNoEarlier(sorted[0], rest[j])
    {
      assert rest[j] in multiset(rest);
      if rest[j] != s {
        assert rest[j] in sorted[1..];
        var k :| 0 <= k < |sorted[1..]| && sorted[1..][k] == rest[j];
        assert sorted[k + 1] == rest[j];
      }
    }
    ConsLatestFirst(sorted[0], rest);
  }

  /** A session that starts later than the head goes in front. */
  lemma InsertAtFront(s: Session, sorted: seq<Session>)
    requires sorted != [] && LatestFirst(sorted) && !StartsNoEarlier(sorted[0], s)
    ensures LatestFirst(InsertByStart(s, sorted))
  {
    assert InsertByStart(s, sorted) == [s] + sorted;
    forall j | 0 <= j < |sorted|
      ensures StartsNoEarlier(s, sorted[j])
    {
      assert j == 0 || StartsNoEarlier(sorted[0], sorted[j]);
    }
    ConsLatestFirst(s, sorted);
  }

  lemma ConsLatestFirst(h: Session, rest: seq<Session>)
    requires LatestFirst(rest)
    requires forall j | 0 <= j < |rest| :: StartsNoEarlier(h, rest[j])
    ensures LatestFirst([h] + rest)
  {
    var r := [h] + rest;
    forall i, j | 0 <= i < j < |r|
      ensures StartsNoEarlier(r[i], r[j])
    {
      assert r[j] == rest[j - 1];
      if i > 0 {
        assert r[i] == rest[i - 1];
      }
    }
  }

  /** `sorted(sessions, key=start, reverse=True)`: a stable sort, latest first. */
  function SortByStart(ss: seq<Session>): (r: seq<Session>)
    ensures multiset(r) == multiset(ss)
  {
    if ss == [] then []
    else
      assert ss == ss[..|ss| - 1] + [ss[|ss| - 1]];
      InsertByStart(ss[|ss| - 1], SortByStart(ss[..|ss| - 1]))
  }

  lemma {:induction false} SortByStartLatestFirst(ss: seq<Session>)
    ensures LatestFirst(SortByStart(ss))
  {
    if ss != [] {
      SortByStartLatestFirst(ss[..|ss| - 1]);
      InsertKeepsLatestFirst(ss[|ss| - 1], SortByStart(ss[..|ss| - 1]));
    }
  }

  /** One row of `recent_sessions`. */
  datatype RecentSession = RecentSession(
    id: string, jobTitle: string, date: Option<int>, score: Option<real>, duration: Option<int>)

  function RowOf(s: Session): RecentSession
  {
    RecentSession(s.id, s.jobTitle, s.startTime, s.overallScore, s.durationSeconds)
  }

  /** The five sessions that start latest. */
  function Recent(ss: seq<Session>): (r: seq<Session>)
    ensures |r| == if |ss| < 5 then |ss| else 5
  {
    var sorted := SortByStart(ss);
    assert |sorted| == |multiset(ss)|;
    sorted[..if |sorted| < 5 then |sorted| else 5]
  }

  /** The recent sessions are sessions of the list, latest first, and every
      session left out starts no later than each one shown. */
  lemma RecentAreLatest(ss: seq<Session>)
    ensures LatestFirst(Recent(ss))
    ensures forall s | s in Recent(ss) :: s in ss
    ensures forall s | s in ss :: s in Recent(ss) || forall r | r in Recent(ss) :: StartsNoEarlier(r, s)
  {
    var sorted := SortByStart(ss);
    SortByStartLatestFirst(ss);
    var r := Recent(ss);
    assert r == sorted[..|r|];
    forall s | s in r
      ensures s in ss
    {
      assert s in multiset(sorted);
    }
    forall s | s in ss
      ensures s in r || forall x | x in r :: StartsNoEarlier(x, s)
    {
      assert s in multiset(sorted);
      var p :| 0 <= p < |sorted| && sorted[p] == s;
      if p >= |r| {
        forall x | x in r
          ensures StartsNoEarlier(x, s)
        {
          var q :| 0 <= q < |r| && r[q] == x;
        }
      }
    }
  }

  function RecentRows(ss: seq<Session>): (rows: seq<RecentSession>)
    ensures |rows| == |Recent(ss)|
    ensures forall i | 0 <= i < |rows| :: rows[i] == RowOf(Recent(ss)[i])
  {
    var r := Recent(ss);
    seq(|r|, i requires 0 <= i < |r| => RowOf(r[i]))
  }

  // ---------------------------------------------------------------------
  // The statistics endpoint
  // ---------------------------------------------------------------------

  /** The statistics answer; the answer for no sessions has no recent list. */
  datatype Statistics = Statistics(
    totalSessions: nat, averageScore: real, totalPracticeTime: int,
    mostPracticedRole: Option<string>, recentSessions: Option<seq<RecentSession>>)

  method GetStatistics(all: seq<Session>, userId: Option<string>) returns (st: Statistics)
    ensures SessionsOf(all, userId) == [] ==> st == Statistics(0, 0.0, 0, None, None)
    ensures var ss := SessionsOf(all, userId);
      ss != [] ==>
        && st.totalSessions == |ss|
        && st.averageScore == AverageScore(ss)
        && st.totalPracticeTime == TotalTime(ss)
        && st.mostPracticedRole == Some(MostPracticed(ss))
        && st.recentSessions == Some(RecentRows(ss))
  {
    var ss := SessionsOf(all, userId);
    if ss == [] {
      return Statistics(0, 0.0, 0, None, None);
    }
    var order, count := CountJobTitles(ss);
    var most := order[FirstMaxIndex(order, count)];
    st := Statistics(|ss|, AverageScore(ss), TotalTime(ss), Some(most), Some(RecentRows(ss)));
  }

  // =====================================================================
  // Held skills the job does not ask for
  // =====================================================================

  function LowerSkills(skills: seq<string>): set<string>
  {
    set u | u in skills :: Lower(u)
  }

  // One name projection per record type: strengths, gaps and required skills
  // are three datatypes, and the lemmas below quantify over each list directly.
  function StrengthNames(strengths: seq<PlannerAnalysis.Strength>): (ns: seq<string>)
    ensures |ns| == |strengths| && forall i | 0 <= i < |ns| :: ns[i] == strengths[i].skill
  {
    seq(|strengths|, i requires 0 <= i < |strengths| => strengths[i].skill)
  }

  function GapNames(gaps: seq<PlannerAnalysis.Gap>): (ns: seq<string>)
    ensures |ns| == |gaps| && forall i | 0 <= i < |ns| :: ns[i] == gaps[i].skill
  {
    seq(|gaps|, i requires 0 <= i < |gaps| => gaps[i].skill)
  }

  function RequiredNames(jds: seq<PlannerAnalysis.RequiredSkill>): (ns: seq<string>)
    ensures |ns| == |jds| && forall i | 0 <= i < |ns| :: ns[i] == jds[i].skill
  {
    seq(|jds|, i requires 0 <= i < |jds| => jds[i].skill)
  }

  /** Held skills, lower-cased, minus the lower-cased names of the strengths
      and of the gaps. */
  function ExtraSkills(userSkills: seq<string>, strengths: seq<PlannerAnalysis.Strength>,
                       gaps: seq<PlannerAnalysis.Gap>): (r: set<string>)
    ensures forall x | x in r :: exists u | u in userSkills :: Lower(u) == x
  {
    LowerSkills(userSkills) - LowerSkills(StrengthNames(strengths)) - LowerSkills(GapNames(gaps))
  }

  /** Two name lists that together cover a third, and only it, lower-case to
      the same set. */
  lemma LowerSkillsCover(a: seq<string>, b: seq<string>, c: seq<string>)
    requires forall n | n in a :: n in c
    requires forall n | n in b :: n in c
    requires forall n | n in c :: n in a || n in b
    ensures LowerSkills(a) + LowerSkills(b) == LowerSkills(c)
  {
  }

  /** Every strength names a required skill. */
  lemma {:induction false} StrengthsAreRequired(jds: seq<PlannerAnalysis.RequiredSkill>, user: seq<string>)
    ensures forall s | s in PlannerAnalysis.StrengthsRef(jds, user) :: exists j | j in jds :: j.skill == s.skill
  {
    if jds != [] {
      StrengthsAreRequired(jds[1..], user);
      assert forall j | j in jds[1..] :: j in jds;
    }
  }

  /** Every gap of the planner's analysis names a required skill. */
  lemma GapsAreRequired(jds: seq<PlannerAnalysis.RequiredSkill>, user: seq<string>,
                        bests: seq<PlannerAnalysis.Best>, threshold: real, g: PlannerAnalysis.Gap)
    requires |bests| == |jds|
    requires g in PlannerAnalysis.AnalysisOf(jds, user, bests, threshold).gaps
    ensures exists j | j in jds :: j.skill == g.skill
  {
    PlannerAnalysis.AnalysisIsPartition(jds, user, bests, threshold);
    PlannerAnalysis.GapsRefFrom(jds, user, bests, threshold, g);
    var k :| 0 <= k < |jds| && jds[k].skill !in user && g == PlannerAnalysis.Classify(jds[k], bests[k], threshold);
    assert jds[k] in jds;
  }

  /** Every required skill is a strength or a gap of the planner's analysis. */
  lemma RequiredAreNamed(jds: seq<PlannerAnalysis.RequiredSkill>, user: seq<string>,
                         bests: seq<PlannerAnalysis.Best>, threshold: real, j: PlannerAnalysis.RequiredSkill)
    requires |bests| == |jds| && j in jds
    ensures var a := PlannerAnalysis.AnalysisOf(jds, user, bests, threshold);
      (exists s | s in a.strengths :: s.skill == j.skill) || (exists g | g in a.gaps :: g.skill == j.skill)
  {
    PlannerAnalysis.AnalysisIsPartition(jds, user, bests, threshold);
    if j.skill in user {
      assert PlannerAnalysis.StrengthOf(j) in PlannerAnalysis.AnalysisOf(jds, user, bests, threshold).strengths;
    }
  }

  /** Names of strengths that all name required skills are required names. */
  lemma StrengthNamesRequired(strengths: seq<PlannerAnalysis.Strength>, jds: seq<PlannerAnalysis.RequiredSkill>)
    requires forall s | s in strengths :: exists j | j in jds :: j.skill == s.skill
    ensures forall n | n in StrengthNames(strengths) :: n in RequiredNames(jds)
  {
    var sn, rn := StrengthNames(strengths), RequiredNames(jds);
    forall n | n in sn
      ensures n in rn
    {
      var i :| 0 <= i < |sn| && sn[i] == n;
      assert strengths[i] in strengths;
      var j :| j in jds && j.skill == n;
      var k :| 0 <= k < |jds| && jds[k] == j;
      assert rn[k] == n;
    }
  }

  /** Names of gaps that all name required skills are required names. */
  lemma GapNamesRequired(gaps: seq<PlannerAnalysis.Gap>, jds: seq<PlannerAnalysis.RequiredSkill>)
    requires forall g | g in gaps :: exists j | j in jds :: j.skill == g.skill
    ensures forall n | n in GapNames(gaps) :: n in RequiredNames(jds)
  {
    var gn, rn := GapNames(gaps), RequiredNames(jds);
    forall n | n in gn
      ensures n in rn
    {
      var i :| 0 <= i < |gn| && gn[i] == n;
      assert gaps[i] in gaps;
      var j :| j in jds && j.skill == n;
      var k :| 0 <= k < |jds| && jds[k] == j;
      assert rn[k] == n;
    }
  }

  /** Required skills that are each named by a strength or a gap have their
      names among the strength and gap names. */
  lemma RequiredNamesNamed(strengths: seq<PlannerAnalysis.Strength>, gaps: seq<PlannerAnalysis.Gap>,
                           jds: seq<PlannerAnalysis.RequiredSkill>)
    requires forall j | j in jds ::
      (exists s | s in strengths :: s.skill == j.skill) || (exists g | g in gaps :: g.skill == j.skill)
    ensures forall n | n in RequiredNames(jds) :: n in StrengthNames(strengths) || n in GapNames(gaps)
  {
    var sn, gn, rn := StrengthNames(strengths), GapNames(gaps), RequiredNames(jds);
    forall n | n in rn
      ensures n in sn || n in gn
    {
      var k :| 0 <= k < |rn| && rn[k] == n;
      assert jds[k] in jds;
      if exists s | s in strengths :: s.skill == n {
        var s :| s in strengths && s.skill == n;
        var i :| 0 <= i < |strengths| && strengths[i] == s;
        assert sn[i] == n;
      } else {
        var g :| g in gaps && g.skill == n;
        var i :| 0 <= i < |gaps| && gaps[i] == g;
        assert gn[i] == n;
      }
    }
  }

  /** For the planner's own analysis, the extra skills are exactly the
      lower-cased held skills that no required skill matches once lower-cased. */
  lemma ExtraSkillsAreUnrequired(jds: seq<PlannerAnalysis.RequiredSkill>, user: seq<string>,
                                 bests: seq<PlannerAnalysis.Best>, threshold: real)
    requires |bests| == |jds|
    ensures var a := PlannerAnalysis.AnalysisOf(jds, user, bests, threshold);
      ExtraSkills(user, a.strengths, a.gaps) == LowerSkills(user) - LowerSkills(RequiredNames(jds))
  {
    var a := PlannerAnalysis.AnalysisOf(jds, user, bests, threshold);
    AnalysisStrengthsRequired(jds, user, bests, threshold);
    AnalysisGapsRequired(jds, user, bests, threshold);
    AnalysisRequiredNamed(jds, user, bests, threshold);
    ExtraSkillsOfCover(user, a.strengths, a.gaps, jds);
  }

  /** Strengths and gaps that between them name exactly the required skills
      leave as extra the lower-cased held skills no required name gives. */
  lemma ExtraSkillsOfCover(user: seq<string>, strengths: seq<PlannerAnalysis.Strength>,
                           gaps: seq<PlannerAnalysis.Gap>, jds: seq<PlannerAnalysis.RequiredSkill>)
    requires forall s | s in strengths :: exists j | j in jds :: j.skill == s.skill
    requires forall g | g in gaps :: exists j | j in jds :: j.skill == g.skill
    requires forall j | j in jds ::
      (exists s | s in strengths :: s.skill == j.skill) || (exists g | g in gaps :: g.skill == j.skill)
    ensures ExtraSkills(user, strengths, gaps) == LowerSkills(user) - LowerSkills(RequiredNames(jds))
  {
    StrengthNamesRequired(strengths, jds);
    GapNamesRequired(gaps, jds);
    RequiredNamesNamed(strengths, gaps, jds);
    LowerSkillsCover(StrengthNames(strengths), GapNames(gaps), RequiredNames(jds));
  }

  lemma AnalysisStrengthsRequired(jds: seq<PlannerAnalysis.RequiredSkill>, user: seq<string>,
                                  bests: seq<PlannerAnalysis.Best>, threshold: real)
    requires |bests| == |jds|
    ensures forall s | s in PlannerAnalysis.AnalysisOf(jds, user, bests, threshold).strengths ::
      exists j | j in jds :: j.skill == s.skill
  {
    PlannerAnalysis.AnalysisIsPartition(jds, user, bests, threshold);
    StrengthsAreRequired(jds, user);
  }

  lemma AnalysisGapsRequired(jds: seq<PlannerAnalysis.RequiredSkill>, user: seq<string>,
                             bests: seq<PlannerAnalysis.Best>, threshold: real)
    requires |bests| == |jds|
    ensures forall g | g in PlannerAnalysis.AnalysisOf(jds, user, bests, threshold).gaps ::
      exists j | j in jds :: j.skill == g.skill
  {
    forall g | g in PlannerAnalysis.AnalysisOf(jds, user, bests, threshold).gaps
      ensures exists j | j in jds :: j.skill == g.skill
    {
      GapsAreRequired(jds, user, bests, threshold, g);
    }
  }

  lemma AnalysisRequiredNamed(jds: seq<PlannerAnalysis.RequiredSkill>, user: seq<string>,
                              bests: seq<PlannerAnalysis.Best>, threshold: real)
    requires |bests| == |jds|
    ensures var a := PlannerAnalysis.AnalysisOf(jds, user, bests, threshold);
      forall j | j in jds ::
        (exists s | s in a.strengths :: s.skill == j.skill) || (exists g | g in a.gaps :: g.skill == j.skill)
  {
    forall j | j in jds
      ensures var a := PlannerAnalysis.AnalysisOf(jds, user, bests, threshold);
        (exists s | s in a.strengths :: s.skill == j.skill) || (exists g | g in a.gaps :: g.skill == j.skill)
    {
      RequiredAreNamed(jds, user, bests, threshold, j);
    }
  }
}
