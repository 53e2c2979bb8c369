# Speech and counselling back ends, modelled in Dafny

This project models the deterministic core of a small wellness/counselling
system written in Python. It has five parts:

- **The `/process` endpoint of `speech_backend.py`** (module `SpeechBackend`).
  - It resolves an object key from the request options: an explicit key, `options.user_id`, or `options.user == "latest"`.
  - It validates the key. `check_key` runs first, when the request body is parsed; then the extension allow-list and prefix-versus-file classification apply.
  - It rejects requests in a fixed order: 422 for a key `check_key` refuses, then 400, 404, 415, then the HEAD status, then 413.
  - Under a prefix, it runs a per-file loop that sorts every object into a frame, an error entry or a silent skip, and returns 422 or 404 when no frame survives.
  - Object storage is the `Store` oracle, and the speech analyser is a function that returns a download time or the text of an exception.
- **The chat session memory of `abi/main.py`** (module `ChatSession`; `ai-counselling/abi/main.py` is a byte-identical copy).
  - It covers the crisis-term screen (module `Safety`) and the extractive summary of the last six history entries.
  - `SESSIONS` is a class whose `Respond` method extends exactly one session's history per request, with the fixed crisis reply and the fallback defaults.
- **The speech emotion ensemble of `speech.py`** (module `EmotionEnsemble`; `ai-counselling/speech.py` is a byte-identical copy).
  - It plans overlapping one-second windows over a 16 kHz waveform, padding each window with zeros.
  - It takes a majority vote over `num_runs` predictions of one window.
  - It groups the per-window results into phases of equal consecutive emotions, with a duration per emotion.
- **The speech-to-text helpers** in `speech_to_text.py` and `ai-counselling/backend/speech_to_text.py` (modules `Transcription` and `Recordings`).
  - Audio is cut into fixed-step chunks, each chunk is recognised, and the non-empty texts are joined.
  - The user folders are read from the listing's common prefixes.
  - Recordings from every user are filtered, sorted newest first and cut at a limit.
  - The first `k` recordings that decode are merged.
- **The wellness API of `ai-counselling/backend/main2.py`** (module `WellnessApi`).
  - The extracted text is cut into documents of 300 words.
  - `retrieve_chunks` filters the search's indices, and the result becomes the context text.
  - Uploads are transcribed in 30-second chunks.
  - `/respond` applies the crisis screen.
  - `/detect_video_emotions` takes a per-frame vote and falls back when transcription fails.

Shared Python semantics live in small modules:

- `Text`: `strip`, ASCII `lower`, `startswith`/`endswith`, `in`, `[:n]`, `join`, `rstrip(c)`, `removeprefix`, `split("/")[-1]`.
- `Tally`: `Counter(...).most_common(1)`, where ties go to the earliest first occurrence.
- `Slicing`: `[s[i:i+step] for i in range(0, len(s), step)]`.
- `Wrappers`: `Option` and `Result`.

## Model

| member | source | states |
|---|---|---|
| Text.Strip | abi/main.py:76 | the result has no whitespace at either end and is no longer than the input |
| Text.StripTrims | abi/main.py:76 | the result is a contiguous piece of the input with only whitespace before and after it, so `strip` removes exactly the outer whitespace |
| Text.StripEmptyIff | abi/main.py:76 | stripping gives the empty text exactly when the input is all whitespace |
| Text.LastSegment | speech_backend.py:75 | the input ends with the result, the result holds no "/", and the character before it (if any) is "/" |
| Text.RemovePrefix | speech_backend.py:103 | when the prefix is present the input is prefix + result, otherwise the result is the input |
| Text.JoinEnds | abi/main.py:72 | a join starts with its first part and ends with its last part |
| Text.JoinLength | abi/main.py:72 | a join is as long as its parts plus one separator between neighbours |
| Tally.MostCommon | speech.py:80-83 | the winner occurs in the list, no label occurs more often, and every label first seen before it occurs strictly less often (the earliest label wins a tie) |
| Slicing.SliceBy | speech_to_text.py:25-27 | the pieces laid end to end give back the input, and there are ceil(n/step) of them |
| Slicing.SliceByLengths | speech_to_text.py:27 | each piece is non-empty and at most step long, and all but the last are exactly step long |
| Slicing.SliceByAt | speech_to_text.py:27 | piece k is exactly the slice from k*step to min(k*step + step, n) |
| Safety.NothingIsNotHighRisk | abi/main.py:26-28 | a missing text and the empty text are never flagged |
| Safety.IsHighRisk | abi/main.py:26-28 | a flagged text is at least seven characters long, the length of the shortest crisis term |
| Safety.HighRiskIff | abi/main.py:24-28 | a text is flagged exactly when one of the six crisis terms occurs at some position of its lower-cased form |
| Safety.HighRiskIgnoresCase | abi/main.py:27 | a text and its lower-cased form are always screened alike |
| Safety.HighRiskSurvivesContext | abi/main.py:28 | adding text before or after a flagged text never clears the flag |
| Safety.ShoutedTermIsFlagged | abi/main.py:24-28 | "I want to END MY LIFE" is flagged |
| ChatSession.LastN | abi/main.py:65 | a suffix of the history holding its last min(n, len) entries, and the whole history for n = 0 (Python's `history[-0:]`) |
| ChatSession.TurnLines | abi/main.py:67-71 | one line per text present in an entry: a "U: " line with the user text cut to 220 characters first, and an "A: " line with the assistant text cut to 220 last |
| ChatSession.Lines | abi/main.py:66-71 | at most two lines per entry |
| ChatSession.LinesEmptyIff | abi/main.py:66-71 | no line is produced exactly when every entry has neither a user nor an assistant text |
| ChatSession.LinesConcat | abi/main.py:67-71 | the lines of two histories laid end to end are the lines of each, in order |
| ChatSession.Summarize | abi/main.py:62-72 | the summary is never empty, and it is "New conversation." when no entry has a text |
| ChatSession.SummaryIgnoresOlderTurns | abi/main.py:65 | entries older than the last six never change the summary |
| ChatSession.LinesShape | abi/main.py:66-71 | at most two lines per entry, each tagged "U: " or "A: " and at most 223 characters long |
| ChatSession.LinesInterleave | abi/main.py:67-71 | for entries with both texts, line 2i is entry i's "U: " line (user text cut to 220) and line 2i+1 its "A: " line |
| ChatSession.SummaryNewConversationIff | abi/main.py:72 | the summary is "New conversation." exactly when the last six entries yield no line |
| ChatSession.SummaryBounded | abi/main.py:62-72 | whatever the history's length, the summary has at most 12 lines of 223 characters and 11 separators |
| ChatSession.ModelAnswer | abi/main.py:101-112 | output that is not JSON gives the first 600 characters of the raw text with the default action, the fallback follow-up and tone "neutral"; parsed output passes each of reply, action, follow-up and tone through when present and non-empty, and otherwise uses that field's default |
| ChatSession.SessionStore.constructor | abi/main.py:21 | the store starts with no session |
| ChatSession.SessionStore.Respond | abi/main.py:75-126 | the response echoes the resolved session id and the first 240 characters of the stripped text; only that session changes, gaining exactly one entry (stripped text, reply); a crisis text gets the fixed reply, action, follow-up and tone "negative"; any other gets the model's answer with its defaults |
| SpeechBackend.LooksLikePrefix | speech_backend.py:71-77 | the empty key is never a prefix, and a key ending in "/" always is |
| SpeechBackend.LooksLikePrefixIff | speech_backend.py:71-77 | a key looks like a prefix exactly when it is non-empty and every "." in it is followed later by a "/" |
| SpeechBackend.LowerKeepsPrefixShape | speech_backend.py:47-49 | lower-casing a key never changes whether it looks like a prefix |
| SpeechBackend.IsAllowedKey | speech_backend.py:47-51 | a key is allowed exactly when it looks like a prefix or its lower-cased form ends with an allowed extension |
| SpeechBackend.AllowedKeyIgnoresCase | speech_backend.py:47-51 | keys that differ only in letter case are allowed or refused together |
| SpeechBackend.CheckKey | speech_backend.py:123-130 | a key that passes is returned unchanged; a key is refused with "Invalid S3 key" exactly when it is non-empty and starts with "/" or holds two consecutive dots |
| SpeechBackend.WithSlash | speech_backend.py:80-81 | the result ends with "/" and starts with the input; a "/" is added only when the input lacks one |
| SpeechBackend.BuildUserPrefix | speech_backend.py:79-82 | base + "/" (if missing) + user id + "/" + sub + "/" (if missing); the result starts with the base, ends with "/" and looks like a prefix |
| SpeechBackend.UserIdRoundTrip | speech_backend.py:103 | removing the base and stripping "/" gives back the user id of that user's folder |
| SpeechBackend.FilesAreFiles | speech_backend.py:64-65 | only objects of the listing come out, and never a folder marker |
| SpeechBackend.Files | speech_backend.py:64-65 | no object that comes out has a key ending in "/" |
| SpeechBackend.ListObjects | speech_backend.py:57-69 | the non-folder objects in listing order, cut after `limit` of them; a missing or zero limit cuts nothing and a negative one stops after the first object |
| SpeechBackend.ArgNewest | speech_backend.py:105-115 | a chosen index points at a present timestamp |
| SpeechBackend.ArgNewestIsNewest | speech_backend.py:105-115 | none exactly when no timestamp is present; otherwise the chosen timestamp is at least every other one and strictly newer than every earlier one |
| SpeechBackend.NewestTimestamp | speech_backend.py:105-109 | the loop's result is the newest timestamp of the listing |
| SpeechBackend.LatestUserWithAudio | speech_backend.py:95-115 | the loop returns the user that the scan over the users' newest timestamps picks |
| SpeechBackend.LatestUserIsNewest | speech_backend.py:95-115 | no user exactly when no recording is dated; otherwise the chosen user's newest recording is at least as new as every other user's and strictly newer than those of the users listed before it |
| SpeechBackend.UserIdOnlyFillsEmptyKey | speech_backend.py:245-246 | options.user_id never replaces a non-empty key |
| SpeechBackend.LatestOnlyForEmptyOrBase | speech_backend.py:248 | "latest" replaces only an empty key or the base prefix; any other key is used as given |
| SpeechBackend.LatestWithoutUser404 | speech_backend.py:249-254 | "latest" with no user found fails with 404 NO_USERS_WITH_AUDIO |
| SpeechBackend.MissingKey400 | speech_backend.py:257-261 | with no key, no user id and no "latest", the request fails with 400 BAD_INPUT |
| SpeechBackend.UserIdKeyIsPrefix | speech_backend.py:245-246 | a key built from options.user_id is used as is and always passes the extension check |
| SpeechBackend.ResolveRequestKey | speech_backend.py:241-261 | the key building of `process` gives the resolution above, with the newest user asked for only when "latest" applies |
| SpeechBackend.ResolveKey | speech_backend.py:241-261 | a resolved key is never empty, and one built for a request without a key is a folder under the users' base prefix; a failure is 400 BAD_INPUT or 404 NO_USERS_WITH_AUDIO |
| SpeechBackend.EffectiveBucket | speech_backend.py:234 | the request's bucket when given, otherwise the default; empty exactly when neither is set |
| SpeechBackend.HeadRejection | speech_backend.py:279-286 | a HEAD status of 404 gives 404, 403 gives 403, and every other status gives 502 |
| SpeechBackend.Admit | speech_backend.py:230-291 | a key that `check_key` refuses gives its 422; an admitted request has a non-empty bucket and a key that passes `check_key` and the allow-list, runs in frames mode exactly when the key looks like a prefix, and outside frames mode has a size within MAX_BYTES_IN_MEMORY |
| SpeechBackend.RefusedKeyFirst | speech_backend.py:123-130 | a key `check_key` refuses gives 422 "Invalid S3 key" before anything else, whatever the storage holds and even with no bucket |
| SpeechBackend.MissingBucketFirst | speech_backend.py:234-239 | among keys `check_key` accepts, a missing bucket is a 400 whatever the key |
| SpeechBackend.DisallowedKeyBeforeSize | speech_backend.py:263-267 | a disallowed key is a 415 decided before, and independently of, any HEAD request |
| SpeechBackend.SizeCeilingInclusive | speech_backend.py:287-291 | a single object of exactly MAX_BYTES_IN_MEMORY bytes is admitted, and one byte more is a 413 |
| SpeechBackend.PrefixSkipsHead | speech_backend.py:269-276 | a prefix-like key is admitted in frames mode with no HEAD request and no size ceiling |
| SpeechBackend.ScanFrames | speech_backend.py:305-334 | every object is counted once as a frame, an error entry or a silent skip; frames have an allowed extension and a size within [min_size_bytes, MAX_BYTES_IN_MEMORY]; error entries have an allowed extension |
| SpeechBackend.NothingFoundIff | speech_backend.py:336-348 | the loop ends with neither frames nor errors exactly when no object has an allowed extension |
| SpeechBackend.CollectFrames | speech_backend.py:299-334 | the loop's frames and errors are those of the scan; total_bytes and total_download_ms are the sums over the frames, and count is the number of frames |
| SpeechBackend.PerFileResult | speech_backend.py:336-362 | rejected exactly when no frame was accepted: 422 ALL_FRAMES_FAILED with the errors when some object failed, 404 NO_FRAMES otherwise; an answer carries the key, the frames, their count, the number of errors, the sums of their sizes and download times, min_size_bytes, and the "errors" key exactly when some object failed, holding those errors |
| SpeechBackend.SkippedAllIff | speech_backend.py:309-311 | at most every object is skipped, and every object is skipped exactly when none has an allowed extension |
| SpeechBackend.PerFileRejections | speech_backend.py:336-348 | the per-file answer is 404 NO_FRAMES exactly when no object under the key has an allowed extension, and 422 exactly when some has one but no frame was accepted |
| SpeechBackend.ProcessPerFile | speech_backend.py:297-362 | the per-file branch gives the answer described by PerFileResult for the scan of the listing under the key: 422, 404 or the frames with their totals |
| SpeechBackend.Process | speech_backend.py:230-404 | a failed admission gives its status and code, a refused key's 422 first; otherwise the per-file, concatenated or single-object branch runs, and its failures are 422 CONCAT_FAILED or PROCESSING_FAILED |
| EmotionEnsemble.CeilByStep | speech.py:119 | math.ceil(a / step) for any integer a, negative ones included |
| EmotionEnsemble.WindowAt | speech.py:122-123 | window i starts at i*step and ends at min(start + chunk_size, n), after its start and within the waveform |
| EmotionEnsemble.WindowSamples | speech.py:128-131 | a window holds exactly chunk_size samples: those of its range of the waveform, then zeros |
| EmotionEnsemble.WindowFits | speech.py:125-126 | every planned window holds more than chunk_size // 3 samples, so the early exit is never taken |
| EmotionEnsemble.PlanWindows | speech.py:115-134 | the loop plans exactly num_chunks windows, window i being the one described above |
| EmotionEnsemble.ShortAudioYieldsNoWindow | speech.py:119-121 | a waveform of at most 8000 samples yields no window, and any longer one yields at least one |
| EmotionEnsemble.LastWindowReachesEnd | speech.py:121-123 | the last window ends at the waveform's last sample |
| EmotionEnsemble.NeighboursOverlap | speech.py:118-123 | window starts strictly increase, and neighbouring windows share exactly overlap_size samples |
| EmotionEnsemble.Elect | speech.py:76-78 | no verdict exactly when no run produced a label |
| EmotionEnsemble.ElectIsMajority | speech.py:80-91 | when some run produced a label, the winner is one of the labels, no label has more votes, and its vote count lies between 1 and the number of predictions |
| EmotionEnsemble.Kept | speech.py:70-74 | the labelled runs' predictions, each taken from a run, never more than the runs; empty exactly when every run failed |
| EmotionEnsemble.Vote | speech.py:64-95 | no verdict exactly when every run failed; otherwise the winning label is one some run produced |
| EmotionEnsemble.PredictChunkEnsemble | speech.py:64-95 | (None, 0.0) when every run failed, otherwise the vote's label and confidence over the labelled runs |
| EmotionEnsemble.UnanimousRuns | speech.py:70-74 | every successful run's prediction is kept, in run order |
| EmotionEnsemble.UnanimousVote | speech.py:80-83 | a classifier that answers the same label on every run wins with all num_runs votes |
| EmotionEnsemble.SegmentOf | speech.py:146-158 | a window contributes one result when its vote found a label and none otherwise |
| EmotionEnsemble.SegmentOfWithin | speech.py:134 | a window inside the waveform yields a result that ends after it starts, within the waveform's duration in seconds |
| EmotionEnsemble.Segments | speech.py:137-158 | at most one result per window |
| EmotionEnsemble.SegmentsInOrder | speech.py:134-158 | result starts strictly increase, and every result starts before the end of the last window considered |
| EmotionEnsemble.SegmentsWithinWaveform | speech.py:134 | every result ends after it starts and no later than the waveform's duration in seconds |
| EmotionEnsemble.LabelWindows | speech.py:137-158 | the second loop's results are those of the planned windows, in window order, one for each window whose vote found a label |
| EmotionEnsemble.ProcessAudio | speech.py:97-161 | the results are those of the planned windows, in order |
| EmotionEnsemble.GroupPhases | speech.py:176-196 | the phases split the results into consecutive non-empty runs of one label, with each run's confidences, first start and last end; neighbouring phases have different labels |
| EmotionEnsemble.CoversKeepsConfidences | speech.py:185-193 | the phases' confidence lists laid end to end are the results' confidences in order |
| EmotionEnsemble.CoversKeepsEmotions | speech.py:180-196 | the phases carry exactly the labels the results carry |
| EmotionEnsemble.DurationOfAbsent | speech.py:217-218 | a label that no phase carries has no duration |
| EmotionEnsemble.Distribution | speech.py:212-219 | one key per label that occurs in the phases, holding the sum of that label's phase durations |
| EmotionEnsemble.Analyze | speech.py:168-240 | none exactly for no results; otherwise the phases as above, distribution keys equal to the results' labels, the total duration from first start to last end, and the mean confidence |
| EmotionEnsemble.AnalyzeAudioEnsemble | speech.py:163-170 | the analysis of the labelled windows of the waveform, as for Analyze: none exactly when no window was labelled; otherwise the phases, distribution, total duration and mean confidence of those results |
| Recordings.AfterFirstSlash | ai-counselling/backend/speech_to_text.py:41 | `split("/", 1)[1]` fails (IndexError) exactly when there is no "/" |
| Recordings.UserOfPrefixAsWritten | ai-counselling/backend/speech_to_text.py:41 | none (an IndexError) exactly when there is no "/"; otherwise the text after the first "/", with trailing "/" removed |
| Recordings.UserOfPrefix | ai-counselling/backend/speech_to_text.py:41 | corrected reading: the user never ends with "/"; the common prefix, with the base folder removed when it starts with it, is the user followed only by "/" |
| Recordings.BaseFolder | ai-counselling/backend/speech_to_text.py:39 | the listing prefix always ends with "/" |
| Recordings.NestedBaseMisnamesUser | ai-counselling/backend/speech_to_text.py:41 | as written, base "data/users/" and common prefix "data/users/u1/" give the user "users/u1" |
| Recordings.UserOfPrefixRoundTrip | ai-counselling/backend/speech_to_text.py:39-41 | the corrected reading gives back the user of the folder base/user/, at any depth of base |
| Recordings.SingleLevelBaseAgrees | ai-counselling/backend/speech_to_text.py:41 | for a base without an inner "/" the written and corrected readings agree |
| Recordings.Users | ai-counselling/backend/speech_to_text.py:40-41 | one user per common prefix, in order, by the corrected reading relative to the base folder |
| Recordings.ListUsers | ai-counselling/backend/speech_to_text.py:35-42 | the loop yields the users above (corrected reading) |
| Recordings.Keep | ai-counselling/backend/speech_to_text.py:55-57 | kept objects come from the listing, are not folders, and are at least 8192 bytes |
| Recordings.KeepOne | ai-counselling/backend/speech_to_text.py:55-57 | a single object is kept exactly when it is not a folder and is at least 8192 bytes |
| Recordings.KeepConcat | ai-counselling/backend/speech_to_text.py:53-57 | filtering two listings laid end to end keeps the kept objects of each, in order |
| Recordings.Gathered | ai-counselling/backend/speech_to_text.py:50-57 | every gathered object is a non-folder of at least 8192 bytes |
| Recordings.GatheredFromUsers | ai-counselling/backend/speech_to_text.py:50-57 | every gathered object was listed in some user's recordings folder |
| Recordings.SortNewest | ai-counselling/backend/speech_to_text.py:58 | the result is a permutation of the items, newest first |
| Recordings.SortNewestStable | ai-counselling/backend/speech_to_text.py:58 | items with equal timestamps keep their original order (Python's sort is stable in reverse too) |
| Recordings.SliceTo | ai-counselling/backend/speech_to_text.py:59 | `[:limit]` keeps a prefix of min(limit, n) items, or n + limit items (at least 0) for a negative limit |
| Recordings.KeepListed | ai-counselling/backend/speech_to_text.py:52-57 | the inner loop keeps exactly the objects above, in listing order |
| Recordings.ListLatestObjects | ai-counselling/backend/speech_to_text.py:44-59 | every user's kept recordings, gathered user by user, sorted newest first and cut at the limit |
| Recordings.FirstDecodable | ai-counselling/backend/speech_to_text.py:147-155 | at most n recordings are collected |
| Recordings.FirstDecodableIsPrefix | ai-counselling/backend/speech_to_text.py:146-158 | the collection is the first n of all candidates that decode, in candidate order: failures are skipped |
| Recordings.NothingDecodableIff | ai-counselling/backend/speech_to_text.py:161-162 | nothing is collected exactly when no candidate decodes |
| Recordings.AllDecodable | ai-counselling/backend/speech_to_text.py:146-158 | at most one recording per candidate, and none exactly when no candidate decodes |
| Recordings.GatherDecodable | ai-counselling/backend/speech_to_text.py:146-160 | the candidate loop collects the first max(k, 1) candidates that decode, in candidate order |
| Recordings.Join | ai-counselling/backend/speech_to_text.py:164-166 | the merge loop lays the collected recordings end to end, in order |
| Recordings.CollectLastKDecodable | ai-counselling/backend/speech_to_text.py:144-167 | an error when no candidate decodes; otherwise the first max(k, 1) decodable recordings, joined end to end and preprocessed once |
| Transcription.SplitChunks | speech_to_text.py:25-27 | 50-second chunks that give back the audio; ceil(n/50000) of them, none for empty audio, all but the last exactly 50000 long |
| Transcription.ChunkAt | speech_to_text.py:27 | chunk k is the slice from k*50000 to min((k+1)*50000, n) |
| Transcription.Texts | speech_to_text.py:33-58 | on success, at most one stripped text per chunk |
| Transcription.TextsFailAtFirstError | speech_to_text.py:57-58 | the run fails exactly when some request fails; it reports the first such chunk, numbered from 1 out of all chunks, with its message |
| Transcription.TextsErrorStays | speech_to_text.py:57-58 | once a request has failed, later chunks change nothing |
| Transcription.Transcribed | speech_to_text.py:33-59 | a successful transcript has nothing left to strip |
| Transcription.TranscribedFailsIff | speech_to_text.py:57-58 | the recognition fails exactly when some chunk's request fails |
| Transcription.SilenceContributesNothing | speech_to_text.py:55-56 | chunks with no recognised speech contribute no text |
| Transcription.NonEmpty | speech_to_text.py:59 | the non-empty texts, each drawn from the input; empty exactly when every text is empty |
| Transcription.NonEmptyConcat | speech_to_text.py:59 | filtering two lists laid end to end keeps the non-empty texts of each, in order |
| Transcription.NonEmptyOne | speech_to_text.py:59 | a single text is kept exactly when it is non-empty |
| Transcription.Transcript | speech_to_text.py:59 | the transcript has nothing left to strip |
| Transcription.JoinedStripped | speech_to_text.py:59 | joining stripped, non-empty texts with single spaces leaves nothing to strip and is empty only for no texts |
| Transcription.TranscriptOfStripped | speech_to_text.py:59 | over stripped texts the final strip is a no-op, and the transcript is empty exactly when every text is |
| Transcription.TranscribedEmptyIff | ai-counselling/backend/speech_to_text.py:136-137 | without a failed request, the transcript is empty exactly when no chunk produced text |
| Transcription.TranscribeParts | speech_to_text.py:33-59 | the recognition loop gives the joined transcript, or the first failed request |
| Transcription.TranscribeGoogle | speech_to_text.py:29-59 | transcribe_google is the loop above over the preprocessed audio's 50-second chunks |
| Transcription.TranscribeKey | ai-counselling/backend/speech_to_text.py:108-139 | an undecodable recording and an empty transcript are errors; a successful transcript is never empty |
| Transcription.TranscribeLatestConcat | ai-counselling/backend/speech_to_text.py:169-195 | no decodable candidate is an error; otherwise the transcript of the merged newest recordings, which may be empty |
| Transcription.SilenceIsEmptyTranscript | ai-counselling/backend/speech_to_text.py:195 | silence everywhere gives the empty transcript rather than an error |
| WellnessApi.WordLen | ai-counselling/backend/main2.py:74 | the leading run of non-whitespace, ended by whitespace or the end |
| WellnessApi.Words | ai-counselling/backend/main2.py:74 | every word of `split()` is non-empty and has no whitespace |
| WellnessApi.WordsEmptyIff | ai-counselling/backend/main2.py:74 | a text splits into no word exactly when it is all whitespace |
| WellnessApi.WordsKeepText | ai-counselling/backend/main2.py:74 | the words laid end to end are exactly the text's non-whitespace characters, in order |
| WellnessApi.WordsOfJoin | ai-counselling/backend/main2.py:74-75 | splitting words joined by single spaces gives the words back |
| WellnessApi.JoinEach | ai-counselling/backend/main2.py:75 | one document per piece, piece k joined by single spaces |
| WellnessApi.ChunkedDocs | ai-counselling/backend/main2.py:75 | there are ceil(words / 300) documents |
| WellnessApi.DocAt | ai-counselling/backend/main2.py:75 | document k joins words 300k up to 300k + 300, or up to the end |
| WellnessApi.DocsGiveBackWords | ai-counselling/backend/main2.py:74-75 | splitting the documents again reproduces the text's words in order |
| WellnessApi.PyIndex | ai-counselling/backend/main2.py:93 | Python indexing: an IndexError exactly outside [-n, n), and a negative index counts from the end |
| WellnessApi.RetrieveChunksAsWritten | ai-counselling/backend/main2.py:89-93 | as written: an IndexError exactly when some index is below -len(docs); otherwise at most one document per index, each one of the documents |
| WellnessApi.PaddingReturnsLastDoc | ai-counselling/backend/main2.py:89-93 | as written, the padding index -1 passes the filter and returns the last document |
| WellnessApi.RetrieveChunks | ai-counselling/backend/main2.py:89-93 | corrected filter: at most one document per index, each one of the documents, and the document of every in-range index is returned |
| WellnessApi.RetrieveChunksConcat | ai-counselling/backend/main2.py:93 | retrieving for two index lists laid end to end gives each list's documents, in order |
| WellnessApi.RetrieveChunksOne | ai-counselling/backend/main2.py:93 | one index gives its document when in range and nothing otherwise |
| WellnessApi.RetrieveChunksKeepsValid | ai-counselling/backend/main2.py:93 | every index yields a document exactly when every index is in range |
| WellnessApi.RetrieveAgreesOnHits | ai-counselling/backend/main2.py:93 | for non-negative indices the written and corrected filters agree |
| WellnessApi.ContextText | ai-counselling/backend/main2.py:156-157 | the fixed notice for no documents; otherwise text starting with the first document and ending with the last |
| WellnessApi.SplitChunks | ai-counselling/backend/main2.py:109-111 | 30-second chunks that give back the audio; ceil(n/30000) of them, each non-empty and at most 30000 long, all but the last exactly 30000 |
| WellnessApi.SpeechToText | ai-counselling/backend/main2.py:113-143 | the recognition loop over the 30-second chunks of the preprocessed upload |
| WellnessApi.Respond | ai-counselling/backend/main2.py:147-176 | the fixed crisis reply exactly for a flagged message; any other answer is the model's output for the context of the retrieved documents, stripped |
| WellnessApi.CrisisIgnoresModel | ai-counselling/backend/main2.py:149-153 | for a flagged message neither the search nor the model matters |
| WellnessApi.FinalEmotion | ai-counselling/backend/main2.py:207 | "No face detected" for no frames; otherwise a frame label that no other label outnumbers |
| WellnessApi.DetectVideoEmotions | ai-counselling/backend/main2.py:179-252 | a video that does not open is a 400; otherwise one label per frame, the frame count, and the most common label; a recogniser API error ends the request, and any other failed transcription leaves "" and the fixed notice |

## Left out

- Object storage (boto3): pagination, credentials and downloads are left out. Listings are input sequences, and `head_object` is an oracle that returns a size or the HTTP status of a `ClientError`.
- SpeechBackend.Process: a HEAD failure other than a `ClientError`, and an exception raised while listing objects, are not modelled. Neither are the response's request id, timings and `meta` block.
- SpeechBackend.Process: `SpeechProcessor.process_s3` / `process_s3_frames` are oracles. Their analysis result is not part of the outcome; only the download time, counts and bytes are.
- Text.Lower: lower-casing is modelled for ASCII letters only, because Unicode case mapping is out of scope.
- EmotionEnsemble.Elect: the ensemble confidence (vote ratio times the mean confidence of the winner's runs) is computed on reals. The contract does not state it, and float rounding is not modelled.
- EmotionEnsemble.PredictChunkEnsemble: the wav2vec classifier, its speech-validity gates (RMS, zero-crossing rate, spectral centroid) and softmax are the `predict` oracle.
- EmotionEnsemble.ProcessAudio: `librosa` loading, normalisation and trimming happen before the waveform is given.
- EmotionEnsemble.ProcessAudio: each window's vote enters the results loop as the function `Verdicts`, which gives what `PredictChunkEnsemble` is proved to return, instead of a call to that loop method inside the results loop.
- Printing of phases, percentages and the dominant emotion is left out, because it is output only.
- Audio decoding and preprocessing (pydub filters, ffmpeg, normalisation) are function parameters.
- Google speech recognition, including the choice of the best alternative, is the `recognize` oracle. Temporary files are left out.
- Transcription.TranscribeKey: a download failure before decoding is not distinguished from a decoding failure.
- ChatSession.SessionStore.Respond: the Gemini call is the `generate` parameter and `json.loads` is the `parse` parameter; prompt formatting is left out. JSON fields are taken as strings. `uuid4()` is the `freshId` parameter.
- WellnessApi.Respond: the embedding search is the `search` parameter, the language model is the `generate` parameter, and the questionnaire fetch from MongoDB and the prompt text are left out.
- WellnessApi.DetectVideoEmotions:
  - Frame decoding (OpenCV) and face emotion detection (DeepFace) are the `detect` parameter.
  - `process_s3_frames`, the questionnaire, the prompt and the model's answer are left out.
  - The broad `except Exception` that turns any other failure into a 400 is not modelled.
  - The latest transcript arrives as the `latest` parameter (the outcome of `transcribe_latest_concat`).
- Recordings.Users, Recordings.ListUsers, Recordings.ListLatestObjects and Transcription.TranscribeLatestConcat use the corrected user reading (see Findings); the reading as written is Recordings.UserOfPrefixAsWritten.
- WellnessApi.Respond and WellnessApi.DetectVideoEmotions use the corrected retrieval (see Findings). As written, a -1 pad adds the last document, and with no documents the IndexError makes `/respond` a 500 and makes `detect_video_emotions` fall back to "" and the fixed notice.
- ChatSession.SessionStore.Respond: an exception from `generate_content` (a 500, with the history unchanged) is not modelled; `generate` always returns text.
- WellnessApi.Words: the word boundaries of `split()` are stated through WellnessApi.WordsKeepText and WellnessApi.WordsOfJoin rather than as maximal runs of non-whitespace.
- SpeechBackend.InvalidKey: FastAPI's validation error body is reduced to the validator's message and status 422.
- The PDF text extraction of `main2.py` is left out: the text is a parameter of `Words`.
- `process_speech`, FastAPI routing, CORS, the debug endpoints of `speech_backend.py` and its command-line runner are left out.
- `webcam_emotion.py` is a desktop UI loop, `backend/mongodb_fetcher.py` a thin database wrapper, and the browser capture and upload pipeline is not among the Python sources. None of them is part of this model.
- A `user_id` option is not checked by `check_key`, so a user id holding ".." reaches the key unchanged (`SpeechBackend.UserIdKeyIsPrefix`). It is modelled as written, not corrected.
- The `speech.py` window loop never takes its early exit, and audio of at most half a second yields no window at all (`EmotionEnsemble.WindowFits`, `EmotionEnsemble.ShortAudioYieldsNoWindow`). Both are modelled as written: the code's intent there is unclear.

## Findings

| source | as written | input that shows it | evidently intended | confidence | as-written member | corrected member |
|---|---|---|---|---|---|---|
| ai-counselling/backend/main2.py:93 | `retrieve_chunks` keeps every index below `len(chunked_docs)`, negative ones included | the vector search pads a short answer with -1: documents ["a", "b", "c"] and indices [0, 2, -1] give ["a", "c", "c"] | keep only indices with 0 <= i < len(chunked_docs) | medium, not executed | WellnessApi.PaddingReturnsLastDoc | WellnessApi.RetrieveAgreesOnHits |
| ai-counselling/backend/speech_to_text.py:41 | `list_users` names a user by the text after the first "/" of its common prefix | base "data/users/" and common prefix "data/users/u1/" give "users/u1", so the recordings are looked up under "data/users/users/u1/..." | the common prefix with the base folder removed | medium, not executed | Recordings.NestedBaseMisnamesUser | Recordings.UserOfPrefixRoundTrip |
