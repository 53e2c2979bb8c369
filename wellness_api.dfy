/** The deterministic parts of the wellness API in ai-counselling/backend/main2.py:
    the word chunks the DSM-5 text is cut into, the index filter of
    retrieve_chunks, the context handed to the language model, the chunked
    transcription of an upload, the crisis screen of /respond and the
    per-frame vote of /detect_video_emotions. Text extraction, embeddings,
    the vector search, the face classifier and the language model are
    parameters. */
module WellnessApi {
  import opened Wrappers
  import opened Text
  import opened Slicing
  import opened Tally
  import Safety
  import Transcription

  // ------------------------------------------------------------- words

  /** A word of `str.split()`: non-empty, without whitespace. */
  predicate IsWord(w: string) {
    w != [] && forall k :: 0 <= k < |w| ==> !IsSpace(w[k])
  }

  /** The length of the run of non-whitespace at the start of `t`. */
  function WordLen(t: string): (n: nat)
    ensures n <= |t|
    ensures forall k :: 0 <= k < n ==> !IsSpace(t[k])
    ensures n < |t| ==> IsSpace(t[n])
  {
    if t == [] || IsSpace(t[0]) then 0 else 1 + WordLen(t[1..])
  }

  /** `text.split()`: the maximal runs of non-whitespace, in order. */
  function Words(s: string): (r: seq<string>)
    ensures forall w :: w in r ==> IsWord(w)
    decreases |s|
  {
    var t := LStrip(s);
    if t == [] then []
    else
      var n := WordLen(t);
      [t[..n]] + Words(t[n..])
  }

  /** A text splits into no word exactly when it is all whitespace. */
  lemma WordsEmptyIff(s: string)
    ensures Words(s) == [] <==> forall k :: 0 <= k < |s| ==> IsSpace(s[k])
  {
    var t := LStrip(s);
    if t != [] {
      assert !IsSpace(s[|s| - |t|]);
    }
  }

  /** The characters of `s` that are not whitespace, in order. */
  function NonSpace(s: string): string {
    if s == [] then [] else (if IsSpace(s[0]) then [] else [s[0]]) + NonSpace(s[1..])
  }

  lemma {:induction false} NonSpaceConcat(a: string, b: string)
    ensures NonSpace(a + b) == NonSpace(a) + NonSpace(b)
  {
    if a == [] {
      assert a + b == b;
    } else {
      assert (a + b)[0] == a[0] && (a + b)[1..] == a[1..] + b;
      NonSpaceConcat(a[1..], b);
    }
  }

  lemma {:induction false} NonSpaceOfSpaces(s: string)
    requires forall k :: 0 <= k < |s| ==> IsSpace(s[k])
    ensures NonSpace(s) == []
  {
    if s != [] {
      NonSpaceOfSpaces(s[1..]);
    }
  }

  lemma {:induction false} NonSpaceOfWord(w: string)
    requires forall k :: 0 <= k < |w| ==> !IsSpace(w[k])
    ensures NonSpace(w) == w
  {
    if w != [] {
      NonSpaceOfWord(w[1..]);
      assert w == [w[0]] + w[1..];
    }
  }

  /** Leading whitespace holds no non-whitespace character. */
  lemma NonSpaceLStrip(s: string)
    ensures NonSpace(s) == NonSpace(LStrip(s))
  {
    var t := LStrip(s);
    var lead := s[..|s| - |t|];
    assert s == lead + t;
    NonSpaceConcat(lead, t);
    NonSpaceOfSpaces(lead);
  }

  /** A word followed by the rest of the text. */
  lemma NonSpaceOfWordThen(t: string, n: nat)
    requires n <= |t| && forall k :: 0 <= k < n ==> !IsSpace(t[k])
    ensures NonSpace(t) == t[..n] + NonSpace(t[n..])
  {
    assert t == t[..n] + t[n..];
    NonSpaceConcat(t[..n], t[n..]);
    NonSpaceOfWord(t[..n]);
  }

  lemma FlattenCons<T>(x: seq<T>, rest: seq<seq<T>>)
    ensures Flatten([x] + rest) == x + Flatten(rest)
  {
    assert ([x] + rest)[1..] == rest;
  }

  /** Nothing but whitespace is lost: the words laid end to end are the
      text's non-whitespace characters, in order. */
  lemma {:induction false} WordsKeepText(s: string)
    ensures Flatten(Words(s)) == NonSpace(s)
    decreases |s|
  {
    var t := LStrip(s);
    NonSpaceLStrip(s);
    if t != [] {
      var n := WordLen(t);
      calc {
        Flatten(Words(s));
        Flatten([t[..n]] + Words(t[n..]));
        { FlattenCons(t[..n], Words(t[n..])); }
        t[..n] + Flatten(Words(t[n..]));
        { WordsKeepText(t[n..]); }
        t[..n] + NonSpace(t[n..]);
        { NonSpaceOfWordThen(t, n); }
        NonSpace(t);
      }
    }
  }

  /** A string that starts with a non-space character has nothing to lstrip. */
  lemma LStripNoop(s: string)
    requires s == [] || !IsSpace(s[0])
    ensures LStrip(s) == s
  {
  }

  /** A word is read back as itself. */
  lemma {:induction false} WordLenOfWord(w: string, rest: string)
    requires IsWord(w) && (rest == [] || IsSpace(rest[0]))
    ensures WordLen(w + rest) == |w|
    decreases |w|
  {
    assert (w + rest)[0] == w[0];
    assert (w + rest)[1..] == w[1..] + rest;
    if |w| == 1 {
      assert w[1..] + rest == rest;
    } else {
      WordLenOfWord(w[1..], rest);
    }
  }

  /** A leading space does not change the split. */
  lemma WordsSkipSpace(tail: string)
    ensures Words(" " + tail) == Words(tail)
  {
    assert (" " + tail)[1..] == tail;
    assert LStrip(" " + tail) == LStrip(tail);
  }

  /** One word is split off the front, and the space after it is skipped. */
  lemma WordsOfCons(w: string, tail: string)
    requires IsWord(w)
    ensures Words(w + " " + tail) == [w] + Words(tail)
  {
    var j := w + (" " + tail);
    assert w + " " + tail == j;
    LStripNoop(j);
    WordLenOfWord(w, " " + tail);
    assert j[..|w|] == w;
    assert j[|w|..] == " " + tail;
    assert Words(j) == [w] + Words(" " + tail);
    WordsSkipSpace(tail);
  }

  /** A single word is split as itself. */
  lemma WordsOfOne(w: string)
    requires IsWord(w)
    ensures Words(w) == [w]
  {
    LStripNoop(w);
    WordLenOfWord(w, []);
    assert w + [] == w;
    assert w[|w|..] == [];
  }

  /** Joining words with single spaces and splitting again gives the words back. */
  lemma {:induction false} WordsOfJoin(ws: seq<string>)
    requires forall w :: w in ws ==> IsWord(w)
    ensures Words(Join(ws, " ")) == ws
    decreases |ws|
  {
    if ws == [] {
      assert Join(ws, " ") == "";
    } else if |ws| == 1 {
      assert ws[0] in ws;
      WordsOfOne(ws[0]);
    } else {
      var w, rest := ws[0], ws[1..];
      assert w in ws;
      assert forall v :: v in rest ==> v in ws;
      var tail := Join(rest, " ");
      assert Join(ws, " ") == w + " " + tail;
      WordsOfCons(w, tail);
      WordsOfJoin(rest);
      assert ws == [w] + rest;
    }
  }

  // ------------------------------------------------------- word chunks

  /** `CHUNK_SIZE`: words per retrieval document. */
  const ChunkSize: nat := 300

  /** `" ".join(piece)` for every piece. */
  function JoinEach(pieces: seq<seq<string>>): (r: seq<string>)
    ensures |r| == |pieces|
    ensures forall k :: 0 <= k < |r| ==> r[k] == Join(pieces[k], " ")
  {
    if pieces == [] then [] else [Join(pieces[0], " ")] + JoinEach(pieces[1..])
  }

  /** `chunked_docs`: consecutive runs of 300 words, each joined by single spaces. */
  function ChunkedDocs(words: seq<string>): (docs: seq<string>)
    ensures |docs| == CeilDiv(|words|, ChunkSize)
  {
    JoinEach(SliceBy(words, ChunkSize))
  }

  /** Document `k` holds words `300k` up to `300k + 300` (or the end). */
  lemma DocAt(words: seq<string>, k: nat)
    requires k < |ChunkedDocs(words)|
    ensures k * ChunkSize < |words|
    ensures ChunkedDocs(words)[k] ==
      Join(words[k * ChunkSize .. if (k + 1) * ChunkSize < |words| then (k + 1) * ChunkSize else |words|], " ")
  {
    SliceByAt(words, ChunkSize, k, k * ChunkSize);
  }

  /** The words of every document, in order. */
  function WordsOfEach(docs: seq<string>): seq<string> {
    if docs == [] then [] else Words(docs[0]) + WordsOfEach(docs[1..])
  }

  lemma {:induction false} WordsOfJoinEach(pieces: seq<seq<string>>)
    requires forall k, w :: 0 <= k < |pieces| && w in pieces[k] ==> IsWord(w)
    ensures WordsOfEach(JoinEach(pieces)) == Flatten(pieces)
  {
    if pieces != [] {
      assert forall w :: w in pieces[0] ==> IsWord(w);
      WordsOfJoin(pieces[0]);
      assert forall k, w :: 0 <= k < |pieces[1..]| && w in pieces[1..][k] ==> IsWord(w) by {
        forall k, w | 0 <= k < |pieces[1..]| && w in pieces[1..][k] ensures IsWord(w) {
          assert pieces[1..][k] == pieces[k + 1];
        }
      }
      WordsOfJoinEach(pieces[1..]);
    }
  }

  /** Every element of a piece is an element of the whole. */
  lemma {:induction false} InFlatten<T>(pieces: seq<seq<T>>, k: nat, x: T)
    requires k < |pieces| && x in pieces[k]
    ensures x in Flatten(pieces)
  {
    if k > 0 {
      InFlatten(pieces[1..], k - 1, x);
    }
  }

  /** Splitting the documents back into words reproduces the text's words. */
  lemma DocsGiveBackWords(text: string)
    ensures WordsOfEach(ChunkedDocs(Words(text))) == Words(text)
  {
    var words := Words(text);
    var pieces := SliceBy(words, ChunkSize);
    forall k, w | 0 <= k < |pieces| && w in pieces[k] ensures IsWord(w) {
      InFlatten(pieces, k, w);
    }
    WordsOfJoinEach(pieces);
  }

  // ------------------------------------------------------------ retrieval

  /** `s[i]` with Python's reading of a negative index; None is an IndexError. */
  function PyIndex<T>(s: seq<T>, i: int): (r: Option<T>)
    ensures r.None? <==> i >= |s| || i < -|s|
    ensures 0 <= i < |s| ==> r == Some(s[i])
    ensures -|s| <= i < 0 ==> r == Some(s[|s| + i])
  {
    if 0 <= i < |s| then Some(s[i])
    else if -|s| <= i < 0 then Some(s[|s| + i])
    else None
  }

  /** retrieve_chunks as written: the search's indices below `len(docs)`,
      looked up in order; None when a lookup raises IndexError. */
  function RetrieveChunksAsWritten(docs: seq<string>, ids: seq<int>): (r: Option<seq<string>>)
    ensures r.None? <==> exists k :: 0 <= k < |ids| && ids[k] < -|docs|
    ensures r.Some? ==> |r.value| <= |ids| && forall d :: d in r.value ==> d in docs
  {
    if ids == [] then Some([])
    else
      var rest := RetrieveChunksAsWritten(docs, ids[1..]);
      if ids[0] >= |docs| then rest
      else
        var d := PyIndex(docs, ids[0]);
        assert forall k :: 1 <= k < |ids| ==> ids[k] == ids[1..][k - 1];
        if d.Some? && rest.Some? then Some([d.value] + rest.value) else None
  }

  /** The vector search pads a short answer with -1, and the filter lets it
      through: the last document is returned for a hit that does not exist. */
  lemma PaddingReturnsLastDoc()
    ensures RetrieveChunksAsWritten(["a", "b", "c"], [0, 2, -1]) == Some(["a", "c", "c"])
  {
    var docs := ["a", "b", "c"];
    assert [-1][1..] == [];
    assert PyIndex(docs, -1) == Some("c");
    assert RetrieveChunksAsWritten(docs, [-1]) == Some(["c"] + []);
    assert ["c"] + [] == ["c"];
    assert [2, -1][0] == 2 && [2, -1][1..] == [-1];
    assert PyIndex(docs, 2) == Some("c");
    assert RetrieveChunksAsWritten(docs, [2, -1]) == Some(["c"] + ["c"]);
    assert ["c"] + ["c"] == ["c", "c"];
    assert [0, 2, -1][0] == 0 && [0, 2, -1][1..] == [2, -1];
    assert PyIndex(docs, 0) == Some("a");
    assert RetrieveChunksAsWritten(docs, [0, 2, -1]) == Some(["a"] + ["c", "c"]);
    assert ["a"] + ["c", "c"] == ["a", "c", "c"];
  }

  /** retrieve_chunks: the documents of the valid indices, in search order. */
  function RetrieveChunks(docs: seq<string>, ids: seq<int>): (r: seq<string>)
    ensures |r| <= |ids|
    ensures forall d :: d in r ==> d in docs
    ensures forall k :: 0 <= k < |ids| && 0 <= ids[k] < |docs| ==> docs[ids[k]] in r
  {
    if ids == [] then []
    else
      assert forall k :: 1 <= k < |ids| ==> ids[k] == ids[1..][k - 1];
      (if 0 <= ids[0] < |docs| then [docs[ids[0]]] else []) + RetrieveChunks(docs, ids[1..])
  }

  /** The filter works index by index, in search order: the documents of two
      index lists laid end to end are those of the first, then those of the
      second. */
  lemma {:induction false} RetrieveChunksConcat(docs: seq<string>, a: seq<int>, b: seq<int>)
    ensures RetrieveChunks(docs, a + b) == RetrieveChunks(docs, a) + RetrieveChunks(docs, b)
  {
    if a == [] {
      assert a + b == b;
    } else {
      var head := if 0 <= a[0] < |docs| then [docs[a[0]]] else [];
      calc {
        RetrieveChunks(docs, a + b);
        { assert (a + b)[0] == a[0] && (a + b)[1..] == a[1..] + b; }
        head + RetrieveChunks(docs, a[1..] + b);
        { RetrieveChunksConcat(docs, a[1..], b); }
        head + (RetrieveChunks(docs, a[1..]) + RetrieveChunks(docs, b));
        RetrieveChunks(docs, a) + RetrieveChunks(docs, b);
      }
    }
  }

  /** A single index gives its document exactly when it is in range. */
  lemma RetrieveChunksOne(docs: seq<string>, i: int)
    ensures RetrieveChunks(docs, [i]) == (if 0 <= i < |docs| then [docs[i]] else [])
  {
    assert [i][1..] == [];
  }

  /** Every index contributes a document exactly when every index is in range. */
  lemma {:induction false} RetrieveChunksKeepsValid(docs: seq<string>, ids: seq<int>)
    ensures |RetrieveChunks(docs, ids)| == |ids| <==> forall k :: 0 <= k < |ids| ==> 0 <= ids[k] < |docs|
  {
    if ids != [] {
      RetrieveChunksKeepsValid(docs, ids[1..]);
      assert forall k :: 1 <= k < |ids| ==> ids[k] == ids[1..][k - 1];
    }
  }

  /** Where the search returns only real hits the two readings agree. */
  lemma {:induction false} RetrieveAgreesOnHits(docs: seq<string>, ids: seq<int>)
    requires forall k :: 0 <= k < |ids| ==> ids[k] >= 0
    ensures RetrieveChunksAsWritten(docs, ids) == Some(RetrieveChunks(docs, ids))
  {
    if ids != [] {
      assert forall k :: 0 <= k < |ids[1..]| ==> ids[1..][k] == ids[k + 1];
      RetrieveAgreesOnHits(docs, ids[1..]);
      var rest := RetrieveChunks(docs, ids[1..]);
      if ids[0] >= |docs| {
        assert RetrieveChunksAsWritten(docs, ids) == RetrieveChunksAsWritten(docs, ids[1..]);
        assert RetrieveChunks(docs, ids) == [] + rest;
        assert [] + rest == rest;
      } else {
        assert RetrieveChunks(docs, ids) == [docs[ids[0]]] + rest;
      }
    }
  }

  /** `"No relevant content found in the document."` */
  const NoContext: string := "No relevant content found in the document."

  /** The context: the retrieved documents one per line, or a fixed notice. */
  function ContextText(chunks: seq<string>): (r: string)
    ensures chunks == [] ==> r == NoContext
    ensures chunks != [] ==> StartsWith(r, chunks[0]) && EndsWith(r, chunks[|chunks| - 1])
  {
    if chunks == [] then NoContext
    else
      JoinEnds(chunks, "\n");
      Join(chunks, "\n")
  }

  // ---------------------------------------------------------- speech

  /** main2's `CHUNK_SEC`. */
  const ChunkSec: nat := 30

  /** The chunk length in milliseconds of audio. */
  const Step: nat := ChunkSec * 1000

  /** main2's `split_chunks`: 30-second pieces. */
  function SplitChunks<A>(audio: seq<A>): (r: seq<seq<A>>)
    ensures Flatten(r) == audio
    ensures |r| == CeilDiv(|audio|, Step)
    ensures forall k :: 0 <= k < |r| ==> 0 < |r[k]| <= Step
    ensures forall k :: 0 <= k < |r| - 1 ==> |r[k]| == Step
  {
    SliceByLengths(audio, Step);
    SliceBy(audio, Step)
  }

  /** speech_to_text: the upload cut into 30-second chunks, recognised and joined. */
  method SpeechToText<A>(audio: seq<A>, preprocess: seq<A> -> seq<A>,
                         recognize: seq<A> -> Transcription.Recognition)
    returns (r: Result<string, Transcription.Failure>)
    ensures r == Transcription.Transcribed(SplitChunks(preprocess(audio)), recognize)
  {
    var chunks := SplitChunks(preprocess(audio));
    r := Transcription.TranscribeParts(chunks, recognize);
  }

  // ---------------------------------------------------------- /respond

  /** The fixed crisis reply of /respond (note the straight then curly apostrophes). */
  const CrisisReply: string :=
    "I'm really glad you reached out. Your safety matters. "
    + "If you’re in immediate danger, call your local emergency number now. "
    + "You can also contact a local crisis line or reach out to someone you trust."

  /** What /respond returns. */
  datatype Answer = Crisis(reply: string) | Final(finalResponse: string)

  /** /respond: a crisis message gets the fixed reply; any other is answered by
      the model over the retrieved context. `search` stands for the embedding
      search and `generate` for the language model (None: no text). */
  function Respond(msg: string, docs: seq<string>, search: string -> seq<int>,
                   generate: (string, string) -> Option<string>): (r: Answer)
    ensures r.Crisis? <==> Safety.IsHighRisk(Some(msg))
    ensures r.Crisis? ==> r.reply == CrisisReply
    ensures r.Final? ==> IsStripped(r.finalResponse)
    ensures r.Final? ==>
      r.finalResponse == Strip(Safety.OrEmpty(generate(ContextText(RetrieveChunks(docs, search(msg))), msg)))
  {
    if Safety.IsHighRisk(Some(msg)) then Crisis(CrisisReply)
    else
      var context := ContextText(RetrieveChunks(docs, search(msg)));
      Final(Strip(Safety.OrEmpty(generate(context, msg))))
  }

  /** The crisis path consults neither the search nor the model. */
  lemma CrisisIgnoresModel(msg: string, docs: seq<string>,
                           s1: string -> seq<int>, s2: string -> seq<int>,
                           g1: (string, string) -> Option<string>, g2: (string, string) -> Option<string>)
    requires Safety.IsHighRisk(Some(msg))
    ensures Respond(msg, docs, s1, g1) == Respond(msg, docs, s2, g2)
  {
  }

  // --------------------------------------------- /detect_video_emotions

  /** `"No face detected"`. */
  const NoFaceDetected: string := "No face detected"

  /** What /detect_video_emotions reports before the model is asked. */
  datatype VideoReport = VideoReport(emotions: seq<string>, totalFrames: nat, finalEmotion: string,
                                     transcript: string, context: string)

  /** The most common per-frame label, or the fixed notice for no frames. */
  function FinalEmotion(emotions: seq<string>): (r: string)
    ensures emotions == [] ==> r == NoFaceDetected
    ensures emotions != [] ==> r in emotions && forall e :: e in emotions ==> Count(emotions, e) <= Count(emotions, r)
  {
    if emotions == [] then NoFaceDetected else MostCommon(emotions)
  }

  /** How /detect_video_emotions fails: a video that does not open is a 400;
      an API error of the recogniser is a `SystemExit`, which the endpoint's
      `except Exception` handlers do not catch, so the request ends there. */
  datatype VideoError = CannotOpen | Exited(cause: Transcription.Failure)

  /** /detect_video_emotions: label every frame, take the most common label,
      and fetch the latest transcript with its context; any other failed
      transcription leaves an empty transcript and the fixed notice. */
  method DetectVideoEmotions<F>(video: Option<seq<F>>, detect: F -> string,
                                latest: Result<string, Transcription.Failure>,
                                docs: seq<string>, search: string -> seq<int>)
    returns (r: Result<VideoReport, VideoError>)
    ensures video.None? <==> r == Err(CannotOpen)
    ensures video.Some? && latest.Err? && latest.error.ApiError? ==> r == Err(Exited(latest.error))
    ensures video.Some? && !(latest.Err? && latest.error.ApiError?) ==> (r.Ok?
      && r.value.emotions == seq(|video.value|, k requires 0 <= k < |video.value| => detect(video.value[k]))
      && r.value.totalFrames == |r.value.emotions|
      && r.value.finalEmotion == FinalEmotion(r.value.emotions)
      && (latest.Err? ==> r.value.transcript == "" && r.value.context == NoContext)
      && (latest.Ok? ==> r.value.transcript == latest.value
                         && r.value.context == ContextText(RetrieveChunks(docs, search(latest.value)))))
  {
    if video.None? {
      return Err(CannotOpen);
    }
    var frames := video.value;
    var emotions: seq<string> := [];
    var frameCount: nat := 0;
    while frameCount < |frames|
      invariant frameCount <= |frames|
      invariant |emotions| == frameCount
      invariant forall k :: 0 <= k < frameCount ==> emotions[k] == detect(frames[k])
    {
      var emotion := detect(frames[frameCount]);
      emotions := emotions + [emotion];
      frameCount := frameCount + 1;
    }
    var finalEmotion := if emotions != [] then MostCommon(emotions) else NoFaceDetected;
    if latest.Err? && latest.error.ApiError? {
      return Err(Exited(latest.error));
    }
    var transcript, context;
    if latest.Ok? {
      transcript := latest.value;
      context := ContextText(RetrieveChunks(docs, search(transcript)));
    } else {
      transcript := "";
      context := NoContext;
    }
    r := Ok(VideoReport(emotions, frameCount, finalEmotion, transcript, context));
  }
}
