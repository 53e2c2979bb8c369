/** Chunked speech recognition, as done by transcribe_google in
    speech_to_text.py and by transcribe_key / transcribe_latest_concat in
    ai-counselling/backend/speech_to_text.py. Audio is an abstract sequence
    of samples, preprocessing a function on it, and recognition of one chunk
    an oracle. */
module Transcription {
  import opened Wrappers
  import opened Text
  import opened Slicing
  import Recordings

  /** `CHUNK_SEC`: each chunk stays under the web API's one-minute limit. */
  const ChunkSec: nat := 50

  /** The chunk length in milliseconds of audio. */
  const Step: nat := ChunkSec * 1000

  /** `split_chunks` / `chunk`: `[audio[i:i+step] for i in range(0, len(audio), step)]`. */
  function SplitChunks<A>(audio: seq<A>): (r: seq<seq<A>>)
    ensures Flatten(r) == audio
    ensures |r| == CeilDiv(|audio|, Step)
    ensures r == [] <==> audio == []
    ensures forall k :: 0 <= k < |r| ==> 0 < |r[k]| <= Step
    ensures forall k :: 0 <= k < |r| - 1 ==> |r[k]| == Step
  {
    var r := SliceBy(audio, Step);
    SliceByLengths(audio, Step);
    assert r == [] ==> Flatten(r) == [];
    r
  }

  /** Chunk `k` is the slice starting at `k * step`, cut at the end of the audio. */
  lemma ChunkAt<A>(audio: seq<A>, k: nat)
    requires k < |SplitChunks(audio)|
    ensures k * Step < |audio|
    ensures SplitChunks(audio)[k] == audio[k * Step .. if (k + 1) * Step < |audio| then (k + 1) * Step else |audio|]
  {
    SliceByAt(audio, Step, k, k * Step);
  }

  /** What recognising one chunk gives: the best alternative's transcript,
      no speech (`UnknownValueError`), or a failed request (`RequestError`). */
  datatype Recognition = Heard(transcript: string) | NoSpeech | RequestFailed(message: string)

  /** How a transcription fails. */
  datatype Failure =
    | ApiError(part: nat, parts: nat, message: string)  // the run exits at the 1-based chunk `part` of `parts`
    | EmptyTranscript                                  // only transcribe_key refuses an empty result
    | NoDecodableAudio                                 // no candidate recording decoded
    | DecodeFailed                                     // the one recording could not be decoded

  /** The stripped texts of the first `n` chunks, or the first failed request. */
  function Texts<A>(parts: seq<seq<A>>, recognize: seq<A> -> Recognition, n: nat): (r: Result<seq<string>, Failure>)
    requires n <= |parts|
    ensures r.Ok? ==> |r.value| <= n && forall t :: t in r.value ==> IsStripped(t)
  {
    if n == 0 then Ok([])
    else match Texts(parts, recognize, n - 1)
      case Err(e) => Err(e)
      case Ok(ts) =>
        match recognize(parts[n - 1])
        case Heard(t) => Ok(ts + [Strip(t)])
        case NoSpeech => Ok(ts)
        case RequestFailed(m) => Err(ApiError(n, |parts|, m))
  }

  /** One more chunk: its text is appended, it is skipped, or the run exits. */
  lemma TextsNext<A>(parts: seq<seq<A>>, recognize: seq<A> -> Recognition, i: nat, texts: seq<string>)
    requires i < |parts| && Texts(parts, recognize, i) == Ok(texts)
    ensures Texts(parts, recognize, i + 1) == match recognize(parts[i])
      case Heard(t) => Ok(texts + [Strip(t)])
      case NoSpeech => Ok(texts)
      case RequestFailed(m) => Err(ApiError(i + 1, |parts|, m))
  {
  }

  /** The run fails exactly when some request fails, and then it reports the
      first one, numbered from 1 out of all the chunks. */
  lemma {:induction false} TextsFailAtFirstError<A>(parts: seq<seq<A>>, recognize: seq<A> -> Recognition, n: nat)
    requires n <= |parts|
    ensures Texts(parts, recognize, n).Ok? <==> forall j :: 0 <= j < n ==> !recognize(parts[j]).RequestFailed?
    ensures Texts(parts, recognize, n).Err? ==> (
      var e := Texts(parts, recognize, n).error;
      e.ApiError? && 1 <= e.part <= n && e.parts == |parts|
      && recognize(parts[e.part - 1]) == RequestFailed(e.message)
      && forall j :: 0 <= j < e.part - 1 ==> !recognize(parts[j]).RequestFailed?)
  {
    if n > 0 {
      TextsFailAtFirstError(parts, recognize, n - 1);
      var prev := Texts(parts, recognize, n - 1);
      if prev.Ok? {
        TextsNext(parts, recognize, n - 1, prev.value);
      } else {
        assert Texts(parts, recognize, n) == prev;
      }
    }
  }

  /** Once a request has failed, later chunks change nothing: the run has exited. */
  lemma {:induction false} TextsErrorStays<A>(parts: seq<seq<A>>, recognize: seq<A> -> Recognition, i: nat, n: nat)
    requires i <= n <= |parts| && Texts(parts, recognize, i).Err?
    ensures Texts(parts, recognize, n) == Texts(parts, recognize, i)
    decreases n
  {
    if n > i {
      TextsErrorStays(parts, recognize, i, n - 1);
    }
  }

  /** A chunk with no recognised speech contributes no text. */
  lemma {:induction false} SilenceContributesNothing<A>(parts: seq<seq<A>>, recognize: seq<A> -> Recognition, n: nat)
    requires n <= |parts|
    requires forall j :: 0 <= j < n ==> recognize(parts[j]) == NoSpeech
    ensures Texts(parts, recognize, n) == Ok([])
  {
    if n > 0 {
      SilenceContributesNothing(parts, recognize, n - 1);
    }
  }

  /** The texts that are not empty, in order. */
  function NonEmpty(texts: seq<string>): (r: seq<string>)
    ensures |r| <= |texts|
    ensures forall t :: t in r ==> t != "" && t in texts
    ensures r == [] <==> forall t :: t in texts ==> t == ""
  {
    if texts == [] then []
    else
      assert forall t :: t in texts <==> t == texts[0] || t in texts[1..] by {
        assert texts == [texts[0]] + texts[1..];
      }
      if texts[0] == "" then NonEmpty(texts[1..])
      else
        var r := [texts[0]] + NonEmpty(texts[1..]);
        assert r[0] != "" && r[0] in texts;
        r
  }

  /** NonEmpty works text by text: the non-empty texts of two lists laid end
      to end are those of the first, then those of the second. */
  lemma {:induction false} NonEmptyConcat(a: seq<string>, b: seq<string>)
    ensures NonEmpty(a + b) == NonEmpty(a) + NonEmpty(b)
  {
    if a == [] {
      assert a + b == b;
    } else {
      assert (a + b)[0] == a[0] && (a + b)[1..] == a[1..] + b;
      NonEmptyConcat(a[1..], b);
    }
  }

  /** A single text is kept exactly when it is not empty. */
  lemma NonEmptyOne(t: string)
    ensures NonEmpty([t]) == (if t == "" then [] else [t])
  {
    assert [t][1..] == [];
  }

  /** `" ".join(t for t in texts if t).strip()`. */
  function Transcript(texts: seq<string>): (r: string)
    ensures IsStripped(r)
  {
    Strip(Join(NonEmpty(texts), " "))
  }

  /** Joining stripped, non-empty pieces with single spaces leaves nothing to strip. */
  lemma JoinedStripped(pieces: seq<string>)
    requires forall t :: t in pieces ==> t != "" && IsStripped(t)
    ensures IsStripped(Join(pieces, " "))
    ensures Join(pieces, " ") == "" <==> pieces == []
  {
    if pieces != [] {
      JoinEnds(pieces, " ");
      var j := Join(pieces, " ");
      var first, last := pieces[0], pieces[|pieces| - 1];
      assert first in pieces && last in pieces;
      assert j[0] == first[0];
      assert j[|j| - 1] == j[|j| - |last|..][|last| - 1];
    }
  }

  /** Over stripped texts the final strip is a no-op, and the transcript is
      empty exactly when every text is. */
  lemma TranscriptOfStripped(texts: seq<string>)
    requires forall t :: t in texts ==> IsStripped(t)
    ensures Transcript(texts) == Join(NonEmpty(texts), " ")
    ensures Transcript(texts) == "" <==> forall t :: t in texts ==> t == ""
  {
    JoinedStripped(NonEmpty(texts));
    StripStripped(Join(NonEmpty(texts), " "));
  }

  /** The outcome of transcribing every chunk: the joined transcript, or the
      first failed request. */
  function Transcribed<A>(parts: seq<seq<A>>, recognize: seq<A> -> Recognition): (r: Result<string, Failure>)
    ensures r.Ok? ==> IsStripped(r.value)
  {
    match Texts(parts, recognize, |parts|)
    case Err(e) => Err(e)
    case Ok(ts) => Ok(Transcript(ts))
  }

  /** The whole run fails exactly when some request fails. */
  lemma TranscribedFailsIff<A>(parts: seq<seq<A>>, recognize: seq<A> -> Recognition)
    ensures Transcribed(parts, recognize).Err? <==>
      exists j :: 0 <= j < |parts| && recognize(parts[j]).RequestFailed?
  {
    TextsFailAtFirstError(parts, recognize, |parts|);
  }

  /** With no failed request the transcript is empty exactly when no chunk
      produced any text. */
  lemma TranscribedEmptyIff<A>(parts: seq<seq<A>>, recognize: seq<A> -> Recognition)
    requires Transcribed(parts, recognize).Ok?
    ensures Transcribed(parts, recognize).value == "" <==>
      forall t :: t in Texts(parts, recognize, |parts|).value ==> t == ""
  {
    assert Texts(parts, recognize, |parts|).Ok?;
    var ts := Texts(parts, recognize, |parts|).value;
    assert Transcribed(parts, recognize) == Ok(Transcript(ts));
    TranscriptOfStripped(ts);
  }

  /** A failed request decides the outcome of the whole run. */
  lemma TranscribedFailed<A>(parts: seq<seq<A>>, recognize: seq<A> -> Recognition, i: nat, e: Failure)
    requires i <= |parts| && Texts(parts, recognize, i) == Err(e)
    ensures Transcribed(parts, recognize) == Err(e)
  {
    TextsErrorStays(parts, recognize, i, |parts|);
  }

  /** The recognition loop shared by all three entry points. */
  method TranscribeParts<A>(parts: seq<seq<A>>, recognize: seq<A> -> Recognition)
    returns (r: Result<string, Failure>)
    ensures r == Transcribed(parts, recognize)
  {
    var texts: seq<string> := [];
    var i := 0;
    while i < |parts|
      invariant 0 <= i <= |parts|
      invariant Texts(parts, recognize, i) == Ok(texts)
    {
      TextsNext(parts, recognize, i, texts);
      var res := recognize(parts[i]);
      match res {
        case Heard(t) =>
          texts := texts + [Strip(t)];
        case NoSpeech =>
        case RequestFailed(m) =>
          TranscribedFailed(parts, recognize, i + 1, ApiError(i + 1, |parts|, m));
          return Err(ApiError(i + 1, |parts|, m));
      }
      i := i + 1;
    }
    TranscribedOk(parts, recognize, texts);
    r := Ok(Transcript(texts));
  }

  lemma TranscribedOk<A>(parts: seq<seq<A>>, recognize: seq<A> -> Recognition, texts: seq<string>)
    requires Texts(parts, recognize, |parts|) == Ok(texts)
    ensures Transcribed(parts, recognize) == Ok(Transcript(texts))
  {
  }

  /** transcribe_google: preprocess, cut into chunks, recognise each, join. */
  method TranscribeGoogle<A>(audio: seq<A>, preprocess: seq<A> -> seq<A>, recognize: seq<A> -> Recognition)
    returns (r: Result<string, Failure>)
    ensures r == Transcribed(SplitChunks(preprocess(audio)), recognize)
  {
    var chunks := SplitChunks(preprocess(audio));
    r := TranscribeParts(chunks, recognize);
  }

  /** transcribe_key: as above for one downloaded recording, but an empty
      transcript is an error. */
  method TranscribeKey<A>(raw: Option<seq<A>>, preprocess: seq<A> -> seq<A>, recognize: seq<A> -> Recognition)
    returns (r: Result<string, Failure>)
    ensures raw.None? ==> r == Err(DecodeFailed)
    ensures raw.Some? ==> match Transcribed(SplitChunks(preprocess(raw.value)), recognize)
      case Ok(out) => r == (if out == "" then Err(EmptyTranscript) else Ok(out))
      case Err(e) => r == Err(e)
    ensures r.Ok? ==> r.value != ""
  {
    if raw.None? {
      return Err(DecodeFailed);
    }
    var parts := SplitChunks(preprocess(raw.value));
    r := TranscribeParts(parts, recognize);
    if r == Ok("") {
      r := Err(EmptyTranscript);
    }
  }

  /** transcribe_latest_concat: the newest `pool` recordings across all users,
      the first `k` of them that decode, merged and transcribed; an empty
      transcript is returned as it is. */
  method TranscribeLatestConcat<A>(commonPrefixes: seq<string>, base: string, sub: string,
                                   listing: string -> seq<Recordings.Item>,
                                   decode: string -> Option<seq<A>>, preprocess: seq<A> -> seq<A>,
                                   recognize: seq<A> -> Recognition, k: int, pool: int)
    returns (r: Result<string, Failure>)
    ensures var cands := Recordings.SliceTo(Recordings.SortNewest(Recordings.Gathered(
                           Recordings.Users(commonPrefixes, base), base, sub, listing)), pool);
            var got := Recordings.FirstDecodable(cands, decode, Recordings.Quota(k));
            (got == [] ==> r == Err(NoDecodableAudio))
            && (got != [] ==> r == Transcribed(SplitChunks(preprocess(Flatten(got))), recognize))
  {
    var candidates := Recordings.ListLatestObjects(commonPrefixes, base, sub, listing, pool);
    var merged := Recordings.CollectLastKDecodable(candidates, decode, k, preprocess);
    if merged.Err? {
      return Err(NoDecodableAudio);
    }
    var parts := SplitChunks(merged.value);
    r := TranscribeParts(parts, recognize);
  }

  /** Silence everywhere: transcribe_latest_concat's path yields "", where
      transcribe_key reports an empty transcript. */
  lemma SilenceIsEmptyTranscript<A>(parts: seq<seq<A>>, recognize: seq<A> -> Recognition)
    requires forall j :: 0 <= j < |parts| ==> recognize(parts[j]) == NoSpeech
    ensures Transcribed(parts, recognize) == Ok("")
  {
    SilenceContributesNothing(parts, recognize, |parts|);
    assert Join([], " ") == "";
    StripStripped("");
  }
}
