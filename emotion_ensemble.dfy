/** The sequential parts of speech.py (and its byte-identical copy
    ai-counselling/speech.py): overlapping one-second windows over the
    16 kHz waveform, the majority vote over repeated predictions of one
    window, and the grouping of the per-window results into emotion phases
    with their duration per emotion. The classifier is the `predict` oracle. */
module EmotionEnsemble {
  import opened Wrappers
  import Tally

  const SampleRate: nat := 16000
  /** `int(1.0 * rate)` and `int(0.5 * rate)` at 16 kHz. */
  const ChunkSize: nat := 16000
  const OverlapSize: nat := 8000
  const Step: nat := 8000
  /** `chunk_size // 3`: windows shorter than this end the plan. */
  const MinWindow: nat := ChunkSize / 3

  // ------------------------------------------------------------ windows

  /** `math.ceil(a / step)` for any integer `a`, negative ones included. */
  function CeilByStep(a: int): (q: int)
    ensures q * Step >= a && q * Step < a + Step
  {
    -((-a) / Step)
  }

  /** `num_chunks = math.ceil((len(waveform) - chunk_size) / step_size) + 1`;
      `range` of a negative count is empty. */
  function WindowCount(n: nat): nat {
    var numChunks := CeilByStep(n - ChunkSize) + 1;
    if numChunks > 0 then numChunks else 0
  }

  /** A planned window: its sample range and the padded samples. */
  datatype Window = Window(start: nat, end: nat, samples: seq<real>)

  function Zeros(k: nat): (r: seq<real>)
    ensures |r| == k
  {
    seq(k, _ => 0.0)
  }

  /** Window `i`: samples `[i * step, min(i * step + chunk_size, n))`,
      zero-padded at the end to `chunk_size`. */
  function WindowAt(w: seq<real>, i: nat): (r: Window)
    requires i * Step < |w|
    ensures r.start == i * Step && r.start < r.end <= |w|
    ensures r.end == if i * Step + ChunkSize < |w| then i * Step + ChunkSize else |w|
  {
    var start := i * Step;
    var end := if start + ChunkSize < |w| then start + ChunkSize else |w|;
    var chunk := w[start..end];
    Window(start, end, chunk + Zeros(ChunkSize - |chunk|))
  }

  /** A window holds exactly `chunk_size` samples: those of its range, then zeros. */
  lemma WindowSamples(w: seq<real>, i: nat)
    requires i * Step < |w|
    ensures var r := WindowAt(w, i);
      |r.samples| == ChunkSize
      && r.samples[..r.end - r.start] == w[r.start..r.end]
      && forall k :: r.end - r.start <= k < ChunkSize ==> r.samples[k] == 0.0
  {
    var r := WindowAt(w, i);
    var chunk := w[r.start..r.end];
    assert r.samples == chunk + Zeros(ChunkSize - |chunk|);
    assert r.samples[..|chunk|] == chunk;
  }

  /** Every planned window starts more than `overlap_size` samples before the
      end of the waveform, so it holds more than `chunk_size // 3` samples and
      the loop's early exit is never taken. */
  lemma WindowFits(n: nat, i: nat)
    requires i < WindowCount(n)
    ensures i * Step + OverlapSize < n
    ensures (if i * Step + ChunkSize < n then ChunkSize else n - i * Step) >= MinWindow
  {
    var q := CeilByStep(n - ChunkSize);
    assert i <= q;
    assert i * Step <= q * Step;
  }

  /** The windows planned so far are windows `0 .. |windows| - 1` of `w`. */
  predicate Planned(w: seq<real>, windows: seq<Window>) {
    forall k :: 0 <= k < |windows| ==> k * Step < |w| && windows[k] == WindowAt(w, k)
  }

  lemma PlannedExtend(w: seq<real>, windows: seq<Window>, win: Window)
    requires Planned(w, windows)
    requires |windows| * Step < |w| && win == WindowAt(w, |windows|)
    ensures Planned(w, windows + [win])
  {
  }

  /** process_audio's window loop, with its early exit on a short window. */
  method PlanWindows(waveform: seq<real>) returns (windows: seq<Window>)
    ensures |windows| == WindowCount(|waveform|)
    ensures forall i :: 0 <= i < |windows| ==>
      i * Step < |waveform| && windows[i] == WindowAt(waveform, i)
  {
    var n := |waveform|;
    var numChunks := CeilByStep(n - ChunkSize) + 1;
    windows := [];
    var i: nat := 0;
    while i < numChunks
      invariant |windows| == i
      invariant numChunks > 0 ==> i <= numChunks
      invariant numChunks <= 0 ==> i == 0
      invariant Planned(waveform, windows)
    {
      WindowFits(n, i);
      var start := i * Step;
      var end := if start + ChunkSize < n then start + ChunkSize else n;
      if end - start < ChunkSize / 3 {
        assert false;
        break;
      }
      var chunk := waveform[start..end];
      if |chunk| < ChunkSize {
        chunk := chunk + Zeros(ChunkSize - |chunk|);
      } else {
        assert chunk + Zeros(0) == chunk;
      }
      PlannedExtend(waveform, windows, Window(start, end, chunk));
      windows := windows + [Window(start, end, chunk)];
      i := i + 1;
    }
  }

  /** Audio of at most `overlap_size` samples (half a second) yields no
      window at all, although the early exit would admit a third of a
      second; anything longer yields at least one. */
  lemma ShortAudioYieldsNoWindow(n: nat)
    ensures n <= OverlapSize ==> WindowCount(n) == 0
    ensures n > OverlapSize ==> WindowCount(n) >= 1
  {
    var q := CeilByStep(n - ChunkSize);
    if n > OverlapSize {
      assert q * Step > -(Step as int);
    }
  }

  /** The windows cover the waveform: the last one ends at its last sample. */
  lemma LastWindowReachesEnd(w: seq<real>)
    requires WindowCount(|w|) > 0
    ensures var i := WindowCount(|w|) - 1;
      i * Step < |w| && WindowAt(w, i).end == |w|
  {
    WindowFits(|w|, WindowCount(|w|) - 1);
  }

  /** Neighbouring windows share exactly `overlap_size` samples, and starts
      strictly increase. */
  lemma NeighboursOverlap(w: seq<real>, i: nat)
    requires i + 1 < WindowCount(|w|)
    ensures i * Step < |w| && (i + 1) * Step < |w|
    ensures WindowAt(w, i).start < WindowAt(w, i + 1).start
    ensures WindowAt(w, i).end - WindowAt(w, i + 1).start == OverlapSize
  {
    WindowFits(|w|, i);
    WindowFits(|w|, i + 1);
  }

  // ------------------------------------------------------------- voting

  /** One successful prediction: the label and its probability. */
  datatype Prediction = Prediction(emotion: string, confidence: real)

  /** The predictions of the runs that produced a label, in run order. */
  function Kept(runs: seq<Option<Prediction>>): (r: seq<Prediction>)
    ensures |r| <= |runs|
    ensures r == [] <==> forall k :: 0 <= k < |runs| ==> runs[k].None?
    ensures forall j :: 0 <= j < |r| ==> Some(r[j]) in runs
  {
    if runs == [] then []
    else
      var init := runs[..|runs| - 1];
      assert forall k :: 0 <= k < |init| ==> init[k] == runs[k];
      Kept(init) + (if runs[|runs| - 1].Some? then [runs[|runs| - 1].value] else [])
  }

  function Labels(ps: seq<Prediction>): (r: seq<string>)
    ensures |r| == |ps| && forall k :: 0 <= k < |ps| ==> r[k] == ps[k].emotion
  {
    seq(|ps|, k requires 0 <= k < |ps| => ps[k].emotion)
  }

  /** The confidences of the predictions that carry label `e`, in order. */
  function ConfidencesFor(ps: seq<Prediction>, e: string): seq<real> {
    if ps == [] then []
    else
      var last := ps[|ps| - 1];
      ConfidencesFor(ps[..|ps| - 1], e) + (if last.emotion == e then [last.confidence] else [])
  }

  function Sum(xs: seq<real>): real {
    if xs == [] then 0.0 else Sum(xs[..|xs| - 1]) + xs[|xs| - 1]
  }

  /** `np.mean` of a non-empty list. */
  function Mean(xs: seq<real>): real
    requires xs != []
  {
    Sum(xs) / (|xs| as real)
  }

  /** The label a vote elects, its vote count and the ensemble confidence. */
  datatype Verdict = Verdict(emotion: string, votes: nat, confidence: real)

  /** The majority vote over the kept predictions: none when there are none;
      otherwise the most common label (the earliest on a tie), with
      confidence `votes / len(predictions) * mean(its confidences)`. */
  function Elect(ps: seq<Prediction>): (v: Option<Verdict>)
    ensures v.None? <==> ps == []
  {
    if ps == [] then None
    else
      var labels := Labels(ps);
      var e := Tally.MostCommon(labels);
      var votes := Tally.Count(labels, e);
      var winners := ConfidencesFor(ps, e);
      var ratio := (votes as real) / (|ps| as real);
      Some(Verdict(e, votes, if winners == [] then 0.0 else ratio * Mean(winners)))
  }

  /** The elected label is one of the labels, no label has more votes, and
      its vote count lies between 1 and the number of predictions. */
  lemma ElectIsMajority(ps: seq<Prediction>)
    requires ps != []
    ensures var v := Elect(ps).value;
      v.emotion in Labels(ps)
      && v.votes == Tally.Count(Labels(ps), v.emotion)
      && (forall y :: y in Labels(ps) ==> Tally.Count(Labels(ps), y) <= v.votes)
      && 0 < v.votes <= |ps|
  {
    var labels := Labels(ps);
    var e := Tally.MostCommon(labels);
    Tally.CountBound(labels, e);
    assert e in multiset(labels);
  }

  /** predict_chunk_ensemble's decision: the vote over the runs that produced a label. */
  function Vote(runs: seq<Option<Prediction>>): (v: Option<Verdict>)
    ensures v.None? <==> forall k :: 0 <= k < |runs| ==> runs[k].None?
    ensures v.Some? ==> LabelledBy(runs, v.value.emotion)
  {
    var ps := Kept(runs);
    if ps == [] then Elect(ps)
    else
      ElectIsMajority(ps);
      KeptLabel(runs, Elect(ps).value.emotion);
      Elect(ps)
  }

  /** Some run produced label `e`. */
  predicate LabelledBy(runs: seq<Option<Prediction>>, e: string) {
    exists k :: 0 <= k < |runs| && runs[k].Some? && runs[k].value.emotion == e
  }

  lemma KeptLabel(runs: seq<Option<Prediction>>, e: string)
    requires e in Labels(Kept(runs))
    ensures LabelledBy(runs, e)
  {
    var ps := Kept(runs);
    var j :| 0 <= j < |ps| && Labels(ps)[j] == e;
    assert Some(ps[j]) in runs;
  }

  /** What each run of the classifier yields on a window's samples. */
  function Runs(samples: seq<real>, numRuns: nat, predict: (seq<real>, nat) -> Option<Prediction>): (r: seq<Option<Prediction>>)
    ensures |r| == numRuns && forall k :: 0 <= k < numRuns ==> r[k] == predict(samples, k)
  {
    seq(numRuns, k requires 0 <= k < numRuns => predict(samples, k))
  }

  /** predict_chunk_ensemble: run the classifier `num_runs` times, keep the
      labelled runs, then vote. */
  method PredictChunkEnsemble(samples: seq<real>, numRuns: nat,
                              predict: (seq<real>, nat) -> Option<Prediction>)
    returns (emotion: Option<string>, confidence: real)
    ensures var v := Vote(Runs(samples, numRuns, predict));
      (v.None? ==> emotion.None? && confidence == 0.0)
      && (v.Some? ==> emotion == Some(v.value.emotion) && confidence == v.value.confidence)
  {
    ghost var runs := Runs(samples, numRuns, predict);
    var predictions: seq<Prediction> := [];
    var r := 0;
    while r < numRuns
      invariant 0 <= r <= numRuns
      invariant predictions == Kept(runs[..r])
    {
      KeptStep(runs, r);
      var p := predict(samples, r);
      if p.Some? {
        predictions := predictions + [p.value];
      }
      r := r + 1;
    }
    assert runs[..r] == runs;
    if predictions == [] {
      return None, 0.0;
    }
    var v := Elect(predictions);
    emotion, confidence := Some(v.value.emotion), v.value.confidence;
  }

  /** One more run adds its prediction, if it has one. */
  lemma KeptStep(runs: seq<Option<Prediction>>, r: nat)
    requires r < |runs|
    ensures Kept(runs[..r + 1]) == Kept(runs[..r]) + (if runs[r].Some? then [runs[r].value] else [])
  {
    assert runs[..r + 1][..r] == runs[..r];
  }

  /** Every prediction of a window appears as often as it was returned; in
      particular a classifier that answers the same on every run wins with
      all `num_runs` votes. */
  lemma {:induction false} UnanimousRuns(runs: seq<Option<Prediction>>, p: Prediction)
    requires forall k :: 0 <= k < |runs| ==> runs[k] == Some(p)
    ensures Kept(runs) == seq(|runs|, _ => p)
  {
    if runs != [] {
      UnanimousRuns(runs[..|runs| - 1], p);
    }
  }

  lemma {:induction false} CountOfConstant(xs: seq<string>, x: string)
    requires forall k :: 0 <= k < |xs| ==> xs[k] == x
    ensures Tally.Count(xs, x) == |xs|
  {
    if xs != [] {
      var n := |xs| - 1;
      CountOfConstant(xs[..n], x);
      assert xs == xs[..n] + [xs[n]];
      assert multiset(xs) == multiset(xs[..n]) + multiset{x};
    }
  }

  lemma UnanimousVote(runs: seq<Option<Prediction>>, p: Prediction)
    requires runs != [] && forall k :: 0 <= k < |runs| ==> runs[k] == Some(p)
    ensures Vote(runs).Some? && Vote(runs).value.emotion == p.emotion
    ensures Vote(runs).value.votes == |runs|
  {
    UnanimousRuns(runs, p);
    var labels := Labels(Kept(runs));
    assert forall k :: 0 <= k < |labels| ==> labels[k] == p.emotion;
    CountOfConstant(labels, p.emotion);
  }

  // ------------------------------------------------------------ results

  /** One analysed window (`result` in process_audio), times in seconds. */
  datatype Segment = Segment(emotion: string, confidence: real, start: real, end: real)

  /** The segment a window contributes given its vote: none when no run
      labelled it, otherwise the elected label and confidence over the
      window's time span (`min(end / rate, total_duration)` is `end / rate`,
      since a window never ends past the waveform). */
  function SegmentOf(win: Window, v: Option<Verdict>): (r: seq<Segment>)
    ensures |r| <= 1 && (r == [] <==> v.None?)
  {
    match v
    case None => []
    case Some(v) =>
      [Segment(v.emotion, v.confidence, win.start as real / SampleRate as real,
               win.end as real / SampleRate as real)]
  }

  /** The vote process_audio takes on each window. */
  function Verdicts(numRuns: nat, predict: (seq<real>, nat) -> Option<Prediction>): Window -> Option<Verdict> {
    (win: Window) => Vote(Runs(win.samples, numRuns, predict))
  }

  /** The segments of the first `k` windows, in window order, given the vote
      on each window. */
  function Segments(w: seq<real>, k: nat, verdict: Window -> Option<Verdict>): (r: seq<Segment>)
    requires k <= WindowCount(|w|)
    ensures |r| <= k
  {
    if k == 0 then []
    else
      WindowFits(|w|, k - 1);
      var win := WindowAt(w, k - 1);
      Segments(w, k - 1, verdict) + SegmentOf(win, verdict(win))
  }

  /** Every result starts before `bound` seconds. */
  predicate StartsBefore(rs: seq<Segment>, bound: real) {
    forall j :: 0 <= j < |rs| ==> rs[j].start < bound
  }

  /** The results' start times strictly increase. */
  predicate StartsIncrease(rs: seq<Segment>) {
    forall j :: 0 < j < |rs| ==> rs[j - 1].start < rs[j].start
  }

  /** The start of window `i`, in seconds. */
  function WindowSeconds(i: nat): real {
    (i * Step) as real / SampleRate as real
  }

  /** Results come in window order: their start times strictly increase, and
      all of them start before window `k` would. */
  lemma {:induction false} SegmentsInOrder(w: seq<real>, k: nat, verdict: Window -> Option<Verdict>)
    requires k <= WindowCount(|w|)
    ensures StartsBefore(Segments(w, k, verdict), WindowSeconds(k))
    ensures StartsIncrease(Segments(w, k, verdict))
  {
    if k > 0 {
      SegmentsInOrder(w, k - 1, verdict);
      WindowFits(|w|, k - 1);
      SecondsMonotone((k - 1) * Step, k * Step);
      var win := WindowAt(w, k - 1);
      var prev := Segments(w, k - 1, verdict);
      var seg := SegmentOf(win, verdict(win));
      var r := Segments(w, k, verdict);
      assert r == prev + seg;
      var here, next := WindowSeconds(k - 1), WindowSeconds(k);
      assert here < next;
      if seg != [] {
        assert |r| == |prev| + 1 && r[|prev|] == seg[0] && seg[0].start == here;
        forall j | 0 <= j < |r| ensures r[j].start < next {
          if j < |prev| {
            assert r[j] == prev[j];
          }
        }
        forall j | 0 < j < |r| ensures r[j - 1].start < r[j].start {
          assert r[j - 1] == prev[j - 1];
          if j < |prev| {
            assert r[j] == prev[j];
          }
        }
      } else {
        assert r == prev;
      }
    }
  }

  /** Every segment ends after it starts, no later than `n` samples in seconds. */
  predicate WithinSeconds(rs: seq<Segment>, n: nat) {
    forall j :: 0 <= j < |rs| ==> 0.0 <= rs[j].start < rs[j].end <= n as real / SampleRate as real
  }

  /** Sample indices in order stay in order as seconds. */
  lemma SecondsMonotone(a: nat, b: nat)
    requires a <= b
    ensures 0.0 <= a as real / SampleRate as real <= b as real / SampleRate as real
    ensures a < b ==> a as real / SampleRate as real < b as real / SampleRate as real
  {
    assert SampleRate as real == 16000.0;
  }

  /** The segment of a window inside the first `n` samples lies within them. */
  lemma SegmentOfWithin(win: Window, n: nat, v: Option<Verdict>)
    requires win.start < win.end <= n
    ensures WithinSeconds(SegmentOf(win, v), n)
  {
    SecondsMonotone(win.start, win.end);
    SecondsMonotone(win.end, n);
  }

  lemma WithinConcat(a: seq<Segment>, b: seq<Segment>, n: nat)
    requires WithinSeconds(a, n) && WithinSeconds(b, n)
    ensures WithinSeconds(a + b, n)
  {
    assert forall j :: 0 <= j < |a + b| ==> (a + b)[j] == if j < |a| then a[j] else b[j - |a|];
  }

  /** A segment spans the samples of its window: it ends after it starts, no
      later than the end of the waveform in seconds. */
  lemma {:induction false} SegmentsWithinWaveform(w: seq<real>, k: nat, verdict: Window -> Option<Verdict>)
    requires k <= WindowCount(|w|)
    ensures WithinSeconds(Segments(w, k, verdict), |w|)
  {
    if k > 0 {
      SegmentsWithinWaveform(w, k - 1, verdict);
      WindowFits(|w|, k - 1);
      var win := WindowAt(w, k - 1);
      SegmentOfWithin(win, |w|, verdict(win));
      WithinConcat(Segments(w, k - 1, verdict), SegmentOf(win, verdict(win)), |w|);
    }
  }

  /** One more planned window adds its segment, if any, at the end. */
  lemma SegmentsStep(w: seq<real>, windows: seq<Window>, i: nat, verdict: Window -> Option<Verdict>,
                     results: seq<Segment>, found: seq<Segment>)
    requires |windows| == WindowCount(|w|) && i < |windows|
    requires forall k :: 0 <= k < |windows| ==> k * Step < |w| && windows[k] == WindowAt(w, k)
    requires results == Segments(w, i, verdict)
    requires found == SegmentOf(windows[i], verdict(windows[i]))
    ensures results + found == Segments(w, i + 1, verdict)
  {
    assert i * Step < |w| && windows[i] == WindowAt(w, i);
  }

  /** process_audio's second loop: each planned window, in order, adds the
      segment its vote gives, if any. */
  method LabelWindows(waveform: seq<real>, windows: seq<Window>, verdict: Window -> Option<Verdict>)
    returns (results: seq<Segment>)
    requires |windows| == WindowCount(|waveform|)
    requires forall k :: 0 <= k < |windows| ==> k * Step < |waveform| && windows[k] == WindowAt(waveform, k)
    ensures results == Segments(waveform, |windows|, verdict)
  {
    results := [];
    var i := 0;
    while i < |windows|
      invariant 0 <= i <= |windows|
      invariant results == Segments(waveform, i, verdict)
    {
      var found := SegmentOf(windows[i], verdict(windows[i]));
      SegmentsStep(waveform, windows, i, verdict, results, found);
      results := results + found;
      i := i + 1;
    }
  }

  /** process_audio: plan the windows, then keep the windows the vote labels. */
  method ProcessAudio(waveform: seq<real>, numRuns: nat,
                      predict: (seq<real>, nat) -> Option<Prediction>)
    returns (results: seq<Segment>)
    ensures results == Segments(waveform, WindowCount(|waveform|), Verdicts(numRuns, predict))
  {
    var windows := PlanWindows(waveform);
    results := LabelWindows(waveform, windows, Verdicts(numRuns, predict));
  }

  // ------------------------------------------------------------- phases

  /** An emotion phase: a run of consecutive segments with the same label. */
  datatype Phase = Phase(emotion: string, start: real, end: real, confidences: seq<real>)

  /** The phases split `rs` into consecutive non-empty runs, in order: a phase
      holds its run's label and confidences, starts where the run's first
      segment starts and ends where its last segment ends. */
  predicate Covers(phases: seq<Phase>, rs: seq<Segment>)
    decreases |phases|
  {
    if phases == [] then rs == []
    else Heads(phases[0], rs) && Covers(phases[1..], rs[|phases[0].confidences|..])
  }

  /** Phase `p` describes the first `|p.confidences|` segments of `rs`. */
  predicate Heads(p: Phase, rs: seq<Segment>) {
    var m := |p.confidences|;
    0 < m <= |rs|
    && (forall j :: 0 <= j < m ==> rs[j].emotion == p.emotion && rs[j].confidence == p.confidences[j])
    && p.start == rs[0].start && p.end == rs[m - 1].end
  }

  lemma HeadsSnoc(p: Phase, rs: seq<Segment>, r: Segment)
    requires Heads(p, rs)
    ensures Heads(p, rs + [r])
    ensures (rs + [r])[|p.confidences|..] == rs[|p.confidences|..] + [r]
  {
  }

  lemma HeadsExtend(p: Phase, rs: seq<Segment>, r: Segment)
    requires Heads(p, rs) && |rs| == |p.confidences| && r.emotion == p.emotion
    ensures Heads(Extend(p, r), rs + [r])
    ensures (rs + [r])[|p.confidences| + 1..] == []
  {
  }

  /** Neighbouring phases carry different labels, so the runs are maximal. */
  predicate Alternating(phases: seq<Phase>) {
    forall k :: 0 <= k < |phases| - 1 ==> phases[k].emotion != phases[k + 1].emotion
  }

  lemma AlternatingOpen(phases: seq<Phase>, r: Segment)
    requires Alternating(phases)
    requires phases == [] || phases[|phases| - 1].emotion != r.emotion
    ensures Alternating(phases + [Open(r)])
  {
    var ext := phases + [Open(r)];
    forall k | 0 <= k < |ext| - 1 ensures ext[k].emotion != ext[k + 1].emotion {
      assert ext[k] == phases[k];
    }
  }

  lemma AlternatingExtend(phases: seq<Phase>, p: Phase, r: Segment)
    requires Alternating(phases + [p])
    ensures Alternating(phases + [Extend(p, r)])
  {
    var before := phases + [p];
    var after := phases + [Extend(p, r)];
    forall k | 0 <= k < |after| - 1 ensures after[k].emotion != after[k + 1].emotion {
      assert after[k] == before[k];
      assert after[k + 1].emotion == before[k + 1].emotion;
    }
  }

  /** A new phase for segment `r`. */
  function Open(r: Segment): Phase {
    Phase(r.emotion, r.start, r.end, [r.confidence])
  }

  /** Phase `p` extended by segment `r`. */
  function Extend(p: Phase, r: Segment): Phase {
    p.(end := r.end, confidences := p.confidences + [r.confidence])
  }

  /** Dropping a prefix of `s + [x]` is dropping it from `s`, then appending `x`. */
  lemma DropSnoc<T>(s: seq<T>, m: nat, x: T)
    requires m <= |s|
    ensures (s + [x])[m..] == s[m..] + [x]
    ensures m < |s| ==> (s + [x])[m] == s[m]
  {
  }

  lemma {:induction false} CoversOpen(phases: seq<Phase>, rs: seq<Segment>, r: Segment)
    requires Covers(phases, rs)
    ensures Covers(phases + [Open(r)], rs + [r])
    decreases |phases|
  {
    if phases == [] {
      assert phases + [Open(r)] == [Open(r)] && [Open(r)][1..] == [];
      assert rs + [r] == [r] && [r][1..] == [];
    } else {
      var m := |phases[0].confidences|;
      CoversOpen(phases[1..], rs[m..], r);
      HeadsSnoc(phases[0], rs, r);
      DropSnoc(phases, 0, Open(r));
      DropSnoc(phases, 1, Open(r));
    }
  }

  lemma {:induction false} CoversExtend(phases: seq<Phase>, p: Phase, rs: seq<Segment>, r: Segment)
    requires Covers(phases + [p], rs) && r.emotion == p.emotion
    ensures Covers(phases + [Extend(p, r)], rs + [r])
    decreases |phases|
  {
    if phases == [] {
      assert phases + [p] == [p] && [p][1..] == [];
      assert rs[|p.confidences|..] == [];
      HeadsExtend(p, rs, r);
      assert phases + [Extend(p, r)] == [Extend(p, r)] && [Extend(p, r)][1..] == [];
    } else {
      var m := |phases[0].confidences|;
      DropSnoc(phases, 0, p);
      DropSnoc(phases, 1, p);
      CoversExtend(phases[1..], p, rs[m..], r);
      HeadsSnoc(phases[0], rs, r);
      DropSnoc(phases, 0, Extend(p, r));
      DropSnoc(phases, 1, Extend(p, r));
    }
  }

  /** The state of the grouping loop after the segments `rs`: the closed
      phases and the open one together cover `rs` and alternate. */
  predicate Grouping(phases: seq<Phase>, current: Option<Phase>, rs: seq<Segment>) {
    match current
    case None => phases == [] && rs == []
    case Some(p) => Covers(phases + [p], rs) && Alternating(phases + [p])
  }

  /** Segment `i` opens a new phase, closing the current one if any. */
  lemma GroupOpen(phases: seq<Phase>, current: Option<Phase>, results: seq<Segment>, i: nat)
    requires i < |results| && Grouping(phases, current, results[..i])
    requires current.None? || current.value.emotion != results[i].emotion
    ensures Grouping(if current.Some? then phases + [current.value] else phases,
                     Some(Open(results[i])), results[..i + 1])
  {
    var r := results[i];
    assert results[..i + 1] == results[..i] + [r];
    var closed := if current.Some? then phases + [current.value] else phases;
    if current.None? {
      assert results[..i] == [];
    }
    CoversOpen(closed, results[..i], r);
    AlternatingOpen(closed, r);
  }

  /** Segment `i` extends the current phase. */
  lemma GroupExtend(phases: seq<Phase>, current: Option<Phase>, results: seq<Segment>, i: nat)
    requires i < |results| && Grouping(phases, current, results[..i])
    requires current.Some? && current.value.emotion == results[i].emotion
    ensures Grouping(phases, Some(Extend(current.value, results[i])), results[..i + 1])
  {
    var r := results[i];
    assert results[..i + 1] == results[..i] + [r];
    CoversExtend(phases, current.value, results[..i], r);
    AlternatingExtend(phases, current.value, r);
  }

  /** analyze_audio_ensemble's grouping loop. */
  method GroupPhases(results: seq<Segment>) returns (phases: seq<Phase>)
    ensures Covers(phases, results) && Alternating(phases)
  {
    phases := [];
    var current: Option<Phase> := None;
    var i := 0;
    while i < |results|
      invariant 0 <= i <= |results|
      invariant Grouping(phases, current, results[..i])
    {
      var r := results[i];
      if current.None? || current.value.emotion != r.emotion {
        GroupOpen(phases, current, results, i);
        if current.Some? {
          phases := phases + [current.value];
        }
        current := Some(Open(r));
      } else {
        GroupExtend(phases, current, results, i);
        current := Some(Extend(current.value, r));
      }
      i := i + 1;
    }
    assert results[..i] == results;
    if current.Some? {
      phases := phases + [current.value];
    }
  }

  /** The phases' confidence lists, concatenated. */
  function AllConfidences(phases: seq<Phase>): seq<real> {
    if phases == [] then [] else phases[0].confidences + AllConfidences(phases[1..])
  }

  function SegmentConfidences(rs: seq<Segment>): (r: seq<real>)
    ensures |r| == |rs| && forall k :: 0 <= k < |rs| ==> r[k] == rs[k].confidence
  {
    seq(|rs|, k requires 0 <= k < |rs| => rs[k].confidence)
  }

  /** Concatenating the phases' confidence lists gives the segments'
      confidences in order. */
  lemma {:induction false} CoversKeepsConfidences(phases: seq<Phase>, rs: seq<Segment>)
    requires Covers(phases, rs)
    ensures AllConfidences(phases) == SegmentConfidences(rs)
    decreases |phases|
  {
    if phases != [] {
      var m := |phases[0].confidences|;
      CoversKeepsConfidences(phases[1..], rs[m..]);
      assert SegmentConfidences(rs) == phases[0].confidences + SegmentConfidences(rs[m..]);
    }
  }

  function PhaseEmotions(phases: seq<Phase>): set<string> {
    set k | 0 <= k < |phases| :: phases[k].emotion
  }

  function SegmentEmotions(rs: seq<Segment>): set<string> {
    set k | 0 <= k < |rs| :: rs[k].emotion
  }

  /** The phases carry exactly the labels the segments carry. */
  lemma {:induction false} CoversKeepsEmotions(phases: seq<Phase>, rs: seq<Segment>)
    requires Covers(phases, rs)
    ensures PhaseEmotions(phases) == SegmentEmotions(rs)
    decreases |phases|
  {
    if phases != [] {
      var m := |phases[0].confidences|;
      CoversKeepsEmotions(phases[1..], rs[m..]);
      assert rs[0].emotion == phases[0].emotion;
      forall e | e in SegmentEmotions(rs) ensures e in PhaseEmotions(phases) {
        var k :| 0 <= k < |rs| && rs[k].emotion == e;
        if k >= m {
          assert rs[m..][k - m] == rs[k];
          assert e in SegmentEmotions(rs[m..]);
          var j :| 0 <= j < |phases[1..]| && phases[1..][j].emotion == e;
          assert phases[j + 1].emotion == e;
        }
      }
      forall e | e in PhaseEmotions(phases) ensures e in SegmentEmotions(rs) {
        var k :| 0 <= k < |phases| && phases[k].emotion == e;
        if k > 0 {
          assert phases[1..][k - 1] == phases[k];
          assert e in PhaseEmotions(phases[1..]);
          var j :| 0 <= j < |rs[m..]| && rs[m..][j].emotion == e;
          assert rs[m + j].emotion == e;
        }
      }
    }
  }

  // ------------------------------------------------------- distribution

  /** The total duration of the phases labelled `e`. */
  function DurationOf(phases: seq<Phase>, e: string): real {
    if phases == [] then 0.0
    else
      var p := phases[|phases| - 1];
      DurationOf(phases[..|phases| - 1], e) + (if p.emotion == e then p.end - p.start else 0.0)
  }

  /** A label no phase carries has no duration. */
  lemma {:induction false} DurationOfAbsent(phases: seq<Phase>, e: string)
    requires e !in PhaseEmotions(phases)
    ensures DurationOf(phases, e) == 0.0
  {
    if phases != [] {
      var n := |phases| - 1;
      assert PhaseEmotions(phases[..n]) <= PhaseEmotions(phases) by {
        forall x | x in PhaseEmotions(phases[..n]) ensures x in PhaseEmotions(phases) {
          var k :| 0 <= k < n && phases[..n][k].emotion == x;
          assert phases[k] == phases[..n][k];
        }
      }
      assert phases[n].emotion in PhaseEmotions(phases);
      DurationOfAbsent(phases[..n], e);
    }
  }

  lemma PhaseEmotionsSnoc(phases: seq<Phase>, i: nat)
    requires i < |phases|
    ensures PhaseEmotions(phases[..i + 1]) == PhaseEmotions(phases[..i]) + {phases[i].emotion}
  {
    var longer := phases[..i + 1];
    assert longer[i] == phases[i];
    forall e | e in PhaseEmotions(longer) ensures e in PhaseEmotions(phases[..i]) + {phases[i].emotion} {
      var k :| 0 <= k < i + 1 && longer[k].emotion == e;
      if k < i {
        assert phases[..i][k] == longer[k];
      }
    }
    forall e | e in PhaseEmotions(phases[..i]) ensures e in PhaseEmotions(longer) {
      var k :| 0 <= k < i && phases[..i][k].emotion == e;
      assert longer[k] == phases[..i][k];
    }
  }

  lemma DurationOfSnoc(phases: seq<Phase>, i: nat, e: string)
    requires i < |phases|
    ensures DurationOf(phases[..i + 1], e) == DurationOf(phases[..i], e)
      + (if phases[i].emotion == e then phases[i].end - phases[i].start else 0.0)
  {
    assert phases[..i + 1][..i] == phases[..i];
  }

  /** The `emotion_durations` loop: one entry per label that occurs in the
      phases, holding the sum of that label's phase durations. */
  method Distribution(phases: seq<Phase>) returns (d: map<string, real>)
    ensures d.Keys == PhaseEmotions(phases)
    ensures forall e :: e in d ==> d[e] == DurationOf(phases, e)
  {
    d := map[];
    var i := 0;
    while i < |phases|
      invariant 0 <= i <= |phases|
      invariant d.Keys == PhaseEmotions(phases[..i])
      invariant forall e :: e in d ==> d[e] == DurationOf(phases[..i], e)
    {
      var p := phases[i];
      PhaseEmotionsSnoc(phases, i);
      forall e ensures DurationOf(phases[..i + 1], e) == DurationOf(phases[..i], e)
        + (if p.emotion == e then p.end - p.start else 0.0)
      {
        DurationOfSnoc(phases, i, e);
      }
      if p.emotion !in d {
        DurationOfAbsent(phases[..i], p.emotion);
        d := d[p.emotion := 0.0];
      }
      d := d[p.emotion := d[p.emotion] + (p.end - p.start)];
      i := i + 1;
    }
    assert phases[..i] == phases;
  }

  // ----------------------------------------------------------- analysis

  /** The dictionary analyze_audio_ensemble returns. */
  datatype Analysis = Analysis(phases: seq<Phase>, distribution: map<string, real>,
                               totalDuration: real, avgConfidence: real)

  /** What analyze_audio_ensemble reports about a list of results: none for no
      results; otherwise the phases, the per-label durations, the span from
      the first result's start to the last one's end, and the mean confidence. */
  predicate Describes(a: Option<Analysis>, results: seq<Segment>) {
    (a.None? <==> results == [])
    && (a.Some? ==>
      && Covers(a.value.phases, results) && Alternating(a.value.phases)
      && a.value.distribution.Keys == SegmentEmotions(results)
      && (forall e :: e in a.value.distribution ==> a.value.distribution[e] == DurationOf(a.value.phases, e))
      && a.value.totalDuration == results[|results| - 1].end - results[0].start
      && a.value.avgConfidence == Mean(SegmentConfidences(results)))
  }

  /** analyze_audio_ensemble after process_audio: the analysis of the results. */
  method Analyze(results: seq<Segment>) returns (a: Option<Analysis>)
    ensures Describes(a, results)
  {
    if results == [] {
      return None;
    }
    var phases := GroupPhases(results);
    var distribution := Distribution(phases);
    CoversKeepsEmotions(phases, results);
    var totalDuration := results[|results| - 1].end - results[0].start;
    var all := SegmentConfidences(results);
    a := Some(Analysis(phases, distribution, totalDuration, Mean(all)));
  }

  /** analyze_audio_ensemble: windows, votes, then the analysis of the
      results of every labelled window. */
  method AnalyzeAudioEnsemble(waveform: seq<real>, numRuns: nat,
                              predict: (seq<real>, nat) -> Option<Prediction>)
    returns (a: Option<Analysis>)
    ensures Describes(a, Segments(waveform, WindowCount(|waveform|), Verdicts(numRuns, predict)))
  {
    var results := ProcessAudio(waveform, numRuns, predict);
    a := Analyze(results);
  }
}
