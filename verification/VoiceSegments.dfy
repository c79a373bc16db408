/**
 Cutting a microphone stream into speech segments: pre-roll, adaptive threshold, closing on
 silence or length, and suppression while the robot itself speaks. Positions count the
 full-length chunks of one capture; shorter ones are skipped by the listener.
 */
module VoiceSegments {
  import opened Wrappers
  import opened Sorting

  /** A chunk as read: its samples, its loudness, and whether the listener was suppressed when it arrived. */
  datatype Chunk = Chunk(pcm: seq<bv8>, rms: int, suppressed: bool)

  datatype Config = Config(
    localCapture: bool, preRoll: int, silence: int, minChunks: int, maxChunks: int,
    noiseChunks: int, rmsThreshold: int, multiplier: real)

  datatype Segment = Segment(pcm: seq<bv8>, peak: int, threshold: int)

  const CHUNK_BYTES := 8000
  const LOCAL_ASR_CHUNK_BYTES := 16000
  const TOLERANCE := 64
  const CALIBRATION := 4

  predicate FullLength(c: Config, ch: Chunk) {
    |ch.pcm| >= (if c.localCapture then LOCAL_ASR_CHUNK_BYTES else CHUNK_BYTES) - TOLERANCE
  }

  function Full(c: Config, stream: seq<Chunk>): seq<Chunk> {
    if stream == [] then []
    else
      var last := stream[|stream| - 1];
      Full(c, stream[..|stream| - 1]) + if FullLength(c, last) then [last] else []
  }

  function PreRoll(c: Config): nat {
    if c.preRoll > 0 then c.preRoll else 0
  }

  /** A deque with a maximum length: the oldest entry gives way. */
  function Push<T>(q: seq<T>, x: T, limit: nat): seq<T> {
    var r := q + [x];
    if |r| <= limit then r else r[|r| - limit..]
  }

  // ---- loudness --------------------------------------------------------------------------------------

  function Median(window: seq<int>): real
    requires window != []
  {
    var sorted := SortBy(window, (x: int) => x as real);
    SortKeepsMembers(window, (x: int) => x as real);
    var n := |sorted|;
    if n % 2 == 1 then sorted[n / 2] as real else (sorted[n / 2 - 1] + sorted[n / 2]) as real / 2.0
  }

  /** Rounding to the nearest integer, halves to the even neighbour. */
  function Round(x: real): int {
    var low := x.Floor;
    var rest := x - low as real;
    if rest < 0.5 || (rest == 0.5 && low % 2 == 0) then low else low + 1
  }

  function Adaptive(c: Config, floor: real): int {
    Round(floor * if c.multiplier > 1.0 then c.multiplier else 1.0)
  }

  /** `_speech_threshold` */
  function Threshold(c: Config, noise: seq<int>): (r: int)
    ensures r >= c.rmsThreshold
  {
    var floor := if |noise| >= CALIBRATION then Median(noise) else 0.0;
    var adaptive := Adaptive(c, floor);
    if c.rmsThreshold >= adaptive then c.rmsThreshold else adaptive
  }

  predicate Loud(c: Config, noise: seq<int>, ch: Chunk) {
    !ch.suppressed && |noise| >= CALIBRATION && ch.rms >= Threshold(c, noise)
  }

  function NoiseWindow(c: Config): nat {
    if c.noiseChunks > CALIBRATION then c.noiseChunks else CALIBRATION
  }

  // ---- the history of one capture -----------------------------------------------------------------------

  /** A closed segment: the chunks from..to, the first loud one at opener. */
  datatype Span = Span(from: nat, opener: nat, to: nat)

  /**
   What has been heard: the full-length chunks, the noise window each was judged against,
   its verdict, the closed segments, where the audio kept so far begins, the first loud
   chunk of the open segment if there is one, and the current noise window.
   */
  datatype History = History(
    full: seq<Chunk>, windows: seq<seq<int>>, loud: seq<bool>, closed: seq<Span>,
    from: nat, opener: Option<nat>, noise: seq<int>)

  /** How many quiet chunks end the stretch lo..hi. */
  function Silence(loud: seq<bool>, lo: nat, hi: nat): nat
    requires lo <= hi <= |loud|
    decreases hi
  {
    if lo == hi || loud[hi - 1] then 0 else Silence(loud, lo, hi - 1) + 1
  }

  /** The loudest of the chunks lo..hi, at least 0. */
  function Peak(full: seq<Chunk>, lo: nat, hi: nat): int
    requires lo <= hi <= |full|
    decreases hi
  {
    if lo == hi then 0
    else
      var before := Peak(full, lo, hi - 1);
      if before >= full[hi - 1].rms then before else full[hi - 1].rms
  }

  /** The samples of consecutive chunks, joined. */
  function Join(chunks: seq<Chunk>): seq<bv8> {
    if chunks == [] then [] else Join(chunks[..|chunks| - 1]) + chunks[|chunks| - 1].pcm
  }

  /** A segment that began at from and opened at opener is due to close when e chunks have been heard. */
  predicate Due(c: Config, loud: seq<bool>, from: nat, opener: nat, e: nat)
    requires from <= opener < e <= |loud|
  {
    Silence(loud, opener, e) >= c.silence || e - from >= c.maxChunks
  }

  function Start(noise: seq<int>): History {
    History([], [], [], [], 0, None, noise)
  }

  /** One full-length chunk. */
  function Hear(c: Config, h: History, ch: Chunk): (r: History)
    requires Shaped(h)
    ensures Shaped(r) && r.full == h.full + [ch]
  {
    var n := |h.full|;
    var loud := Loud(c, h.noise, ch);
    var heard := h.(full := h.full + [ch], windows := h.windows + [h.noise], loud := h.loud + [loud]);
    if ch.suppressed then
      heard.(from := n + 1, opener := None)
    else if h.opener.None? && !loud then
      heard.(from := if n + 1 - h.from <= PreRoll(c) then h.from else n + 1 - PreRoll(c),
             noise := Push(h.noise, ch.rms, NoiseWindow(c)))
    else
      var opener := if h.opener.Some? then h.opener.value else n;
      if Due(c, heard.loud, h.from, opener, n + 1) then
        heard.(closed := h.closed + [Span(h.from, opener, n + 1)], from := n + 1, opener := None)
      else
        heard.(opener := Some(opener))
  }

  ghost predicate Shaped(h: History) {
    && |h.windows| == |h.loud| == |h.full|
    && h.from <= |h.full|
    && (h.opener.Some? ==> h.from <= h.opener.value < |h.full|)
    && forall k :: 0 <= k < |h.closed| ==> h.closed[k].from <= h.closed[k].opener < h.closed[k].to <= h.from
  }

  ghost function Run(c: Config, noise: seq<int>, full: seq<Chunk>): (h: History)
    ensures Shaped(h) && h.full == full
  {
    if full == [] then Start(noise) else Hear(c, Run(c, noise, full[..|full| - 1]), full[|full| - 1])
  }

  function Publish(c: Config, h: History, s: Span): Segment
    requires s.from <= s.opener < s.to <= |h.full| == |h.windows|
  {
    Segment(Join(h.full[s.from..s.to]), Peak(h.full, s.opener, s.to), Threshold(c, h.windows[s.to - 1]))
  }

  predicate LongEnough(c: Config, s: Span) {
    s.to - s.from >= c.minChunks
  }

  /** The closed spans that are long enough to publish. */
  function Kept(c: Config, closed: seq<Span>): (r: seq<Span>)
    ensures forall s :: s in r <==> s in closed && s.to - s.from >= c.minChunks
  {
    if closed == [] then []
    else
      var s := closed[|closed| - 1];
      Kept(c, closed[..|closed| - 1]) + if LongEnough(c, s) then [s] else []
  }

  ghost function Published(c: Config, h: History): seq<Segment>
    requires Shaped(h)
  {
    var kept := Kept(c, h.closed);
    assert forall k :: 0 <= k < |kept| ==> kept[k] in kept && kept[k] in h.closed;
    seq(|kept|, k requires 0 <= k < |kept| => Publish(c, h, kept[k]))
  }

  // ---- what every history satisfies ----------------------------------------------------------------------

  /** Chunks from..e form one utterance: quiet pre-roll, a loud opener, nothing suppressed, and not due before e. */
  ghost predicate Utterance(c: Config, full: seq<Chunk>, loud: seq<bool>, from: nat, opener: nat, e: nat) {
    && from <= opener < e <= |full| == |loud|
    && (forall k :: from <= k < e ==> !full[k].suppressed)
    && (forall k :: from <= k < opener ==> !loud[k])
    && loud[opener]
    && opener - from <= PreRoll(c)
    && forall d :: opener < d < e ==> !Due(c, loud, from, opener, d)
  }

  /** Position a follows the beginning of the capture, a suppressed chunk or the end of a segment. */
  ghost predicate Boundary(full: seq<Chunk>, closed: seq<Span>, a: nat) {
    || a == 0
    || (a <= |full| && full[a - 1].suppressed)
    || exists k :: 0 <= k < |closed| && closed[k].to == a
  }

  /** The pre-roll is as long as the setting and the preceding boundary allow. */
  ghost predicate WholePreRoll(c: Config, full: seq<Chunk>, closed: seq<Span>, from: nat, opener: nat) {
    opener - from == PreRoll(c) || Boundary(full, closed, from)
  }

  ghost predicate IsSegment(c: Config, h: History, s: Span) {
    && Utterance(c, h.full, h.loud, s.from, s.opener, s.to)
    && Due(c, h.loud, s.from, s.opener, s.to)
    && WholePreRoll(c, h.full, h.closed, s.from, s.opener)
  }

  ghost predicate Judged(c: Config, h: History) {
    |h.full| == |h.loud| == |h.windows| &&
    forall k :: 0 <= k < |h.full| ==> (h.loud[k] <==> Loud(c, h.windows[k], h.full[k]))
  }

  ghost predicate InOrder(closed: seq<Span>) {
    forall i, j :: 0 <= i < j < |closed| ==> closed[i].to <= closed[j].from
  }

  /** The audio kept at the moment: pre-roll, or an open utterance that is not due yet. */
  ghost predicate Current(c: Config, h: History) {
    h.from <= |h.full| == |h.loud| &&
    match h.opener
    case None =>
      && (forall k :: h.from <= k < |h.full| ==> !h.full[k].suppressed && !h.loud[k])
      && |h.full| - h.from <= PreRoll(c)
      && WholePreRoll(c, h.full, h.closed, h.from, |h.full|)
    case Some(o) =>
      && Utterance(c, h.full, h.loud, h.from, o, |h.full|)
      && !Due(c, h.loud, h.from, o, |h.full|)
      && WholePreRoll(c, h.full, h.closed, h.from, o)
  }

  /** Loud chunk k belongs to a closed segment, to the open one, or to one that a suppressed chunk wiped out. */
  ghost predicate Accounted(h: History, k: nat) {
    || (exists j :: 0 <= j < |h.closed| && h.closed[j].opener <= k < h.closed[j].to)
    || (h.opener.Some? && h.opener.value <= k)
    || (exists m :: k < m < |h.full| && h.full[m].suppressed && Untouched(h.closed, k, m))
  }

  /** No segment closed at a position after k and up to m. */
  ghost predicate Untouched(closed: seq<Span>, k: nat, m: nat) {
    forall j :: 0 <= j < |closed| ==> closed[j].to <= k || m < closed[j].from
  }

  ghost predicate Good(c: Config, h: History) {
    && Shaped(h) && Judged(c, h) && InOrder(h.closed) && Current(c, h)
    && (forall k :: 0 <= k < |h.closed| ==> IsSegment(c, h, h.closed[k]))
    && (forall k :: 0 <= k < |h.full| && h.loud[k] ==> Accounted(h, k))
  }

  lemma {:induction false} SilenceFrame(loud: seq<bool>, x: bool, lo: nat, hi: nat)
    requires lo <= hi <= |loud|
    ensures Silence(loud + [x], lo, hi) == Silence(loud, lo, hi)
    decreases hi
  {
    if lo < hi {
      SilenceFrame(loud, x, lo, hi - 1);
    }
  }

  lemma UtteranceFrame(c: Config, full: seq<Chunk>, loud: seq<bool>, ch: Chunk, x: bool, from: nat, opener: nat, e: nat)
    requires Utterance(c, full, loud, from, opener, e)
    ensures Utterance(c, full + [ch], loud + [x], from, opener, e)
    ensures Due(c, loud + [x], from, opener, e) == Due(c, loud, from, opener, e)
  {
    forall d | opener < d <= e
      ensures Due(c, loud + [x], from, opener, d) == Due(c, loud, from, opener, d)
    {
      SilenceFrame(loud, x, opener, d);
    }
  }

  lemma HearAppends(c: Config, h: History, ch: Chunk)
    requires Shaped(h)
    ensures var r := Hear(c, h, ch);
            && r.full == h.full + [ch] && r.loud == h.loud + [Loud(c, h.noise, ch)] && r.windows == h.windows + [h.noise]
            && |h.closed| <= |r.closed| <= |h.closed| + 1 && r.closed[..|h.closed|] == h.closed
            && (|r.closed| > |h.closed| ==> r.from == |r.full| && r.closed[|h.closed|].from == h.from && r.closed[|h.closed|].to == r.from)
  {
    hide Loud, Due, Push;
  }

  lemma BoundaryFrame(full: seq<Chunk>, closed: seq<Span>, ch: Chunk, more: seq<Span>, a: nat)
    requires Boundary(full, closed, a) && |closed| <= |more| && more[..|closed|] == closed
    ensures Boundary(full + [ch], more, a)
  {
    if a != 0 && !(a <= |full| && full[a - 1].suppressed) {
      var k :| 0 <= k < |closed| && closed[k].to == a;
      assert more[k] == more[..|closed|][k];
    }
  }

  lemma HearKeepsSegments(c: Config, h: History, ch: Chunk, k: nat)
    requires Good(c, h) && k < |h.closed|
    ensures IsSegment(c, Hear(c, h, ch), h.closed[k])
  {
    hide Loud, Hear, Utterance, Due, Current, Judged, Boundary, Accounted, InOrder;
    HearAppends(c, h, ch);
    var s := h.closed[k];
    assert IsSegment(c, h, s);
    UtteranceFrame(c, h.full, h.loud, ch, Loud(c, h.noise, ch), s.from, s.opener, s.to);
    if Boundary(h.full, h.closed, s.from) {
      BoundaryFrame(h.full, h.closed, ch, Hear(c, h, ch).closed, s.from);
    }
  }

  /** The current audio after a quiet chunk outside an utterance. */
  lemma QuietKeepsCurrent(c: Config, h: History, ch: Chunk)
    requires Shaped(h) && Current(c, h) && h.opener.None? && !ch.suppressed && !Loud(c, h.noise, ch)
    ensures Current(c, Hear(c, h, ch))
  {
    hide Loud, Due, Push, Boundary;
    if Boundary(h.full, h.closed, h.from) {
      BoundaryFrame(h.full, h.closed, ch, h.closed, h.from);
    }
  }

  /** The utterance that one more chunk opens or extends. */
  lemma UtteranceExtends(c: Config, h: History, ch: Chunk, o: nat)
    requires Shaped(h) && Current(c, h) && !ch.suppressed && (h.opener.Some? || Loud(c, h.noise, ch))
    requires o == if h.opener.Some? then h.opener.value else |h.full|
    ensures Utterance(c, h.full + [ch], h.loud + [Loud(c, h.noise, ch)], h.from, o, |h.full| + 1)
    ensures WholePreRoll(c, h.full, h.closed, h.from, o)
  {
    hide Loud, Due, Boundary, Shaped;
    if h.opener.Some? {
      UtteranceFrame(c, h.full, h.loud, ch, Loud(c, h.noise, ch), h.from, o, |h.full|);
    }
  }

  /** The current audio after one more chunk, and the segment this chunk may have closed. */
  lemma HearKeepsCurrent(c: Config, h: History, ch: Chunk)
    requires Shaped(h) && Current(c, h)
    ensures var r := Hear(c, h, ch);
            && Current(c, r)
            && (|r.closed| > |h.closed| ==> IsSegment(c, r, r.closed[|h.closed|]))
  {
    hide Loud, Due, Push, Utterance;
    var r := Hear(c, h, ch);
    HearAppends(c, h, ch);
    if ch.suppressed {
    } else if h.opener.None? && !Loud(c, h.noise, ch) {
      QuietKeepsCurrent(c, h, ch);
    } else {
      var o := if h.opener.Some? then h.opener.value else |h.full|;
      UtteranceExtends(c, h, ch, o);
      if Boundary(h.full, h.closed, h.from) {
        BoundaryFrame(h.full, h.closed, ch, r.closed, h.from);
      }
    }
  }

  /** What is kept now is never suppressed. */
  lemma KeptUnsuppressed(c: Config, h: History, m: nat)
    requires Current(c, h) && h.from <= m < |h.full|
    ensures !h.full[m].suppressed
  {
  }

  lemma HearKeepsAccounts(c: Config, h: History, ch: Chunk, k: nat)
    requires Good(c, h) && k <= |h.full| && Hear(c, h, ch).loud[k]
    ensures Accounted(Hear(c, h, ch), k)
  {
    hide Current, Judged, IsSegment, Push, Due;
    var r, n := Hear(c, h, ch), |h.full|;
    HearAppends(c, h, ch);
    if k < n {
      assert r.loud[k] == h.loud[k];
      assert Accounted(h, k);
      if j :| 0 <= j < |h.closed| && h.closed[j].opener <= k < h.closed[j].to {
        assert r.closed[j] == r.closed[..|h.closed|][j];
      } else if h.opener.Some? && h.opener.value <= k {
        if ch.suppressed {
          assert r.full[n].suppressed && Untouched(r.closed, k, n);
        } else if |r.closed| > |h.closed| {
          assert r.closed[|h.closed|].opener <= k < r.closed[|h.closed|].to;
        }
      } else {
        var m :| k < m < n && h.full[m].suppressed && Untouched(h.closed, k, m);
        if h.from <= m {
          KeptUnsuppressed(c, h, m);
        }
        assert r.full[m].suppressed && Untouched(r.closed, k, m);
      }
    } else if |r.closed| > |h.closed| {
      assert r.closed[|h.closed|].opener <= k < r.closed[|h.closed|].to;
    }
  }

  lemma HearKeepsGood(c: Config, h: History, ch: Chunk)
    requires Good(c, h)
    ensures Good(c, Hear(c, h, ch))
  {
    hide Current, Loud, IsSegment, Accounted, Hear;
    var r := Hear(c, h, ch);
    HearAppends(c, h, ch);
    HearKeepsCurrent(c, h, ch);
    forall k | 0 <= k < |r.closed| ensures IsSegment(c, r, r.closed[k]) {
      if k < |h.closed| {
        assert r.closed[k] == r.closed[..|h.closed|][k];
        HearKeepsSegments(c, h, ch, k);
      }
    }
    forall k | 0 <= k < |r.full| && r.loud[k] ensures Accounted(r, k) {
      HearKeepsAccounts(c, h, ch, k);
    }
    forall i, j | 0 <= i < j < |r.closed| ensures r.closed[i].to <= r.closed[j].from {
      assert r.closed[i] == r.closed[..|h.closed|][i];
      if j < |h.closed| {
        assert r.closed[j] == r.closed[..|h.closed|][j];
      }
    }
  }

  /** Every capture: segments in order and apart, unsuppressed, with their whole pre-roll, and every loud chunk accounted for. */
  lemma {:induction false} RunIsGood(c: Config, noise: seq<int>, full: seq<Chunk>)
    ensures Good(c, Run(c, noise, full))
  {
    hide Hear;
    if full != [] {
      RunIsGood(c, noise, full[..|full| - 1]);
      HearKeepsGood(c, Run(c, noise, full[..|full| - 1]), full[|full| - 1]);
    } else {
      hide Loud;
    }
  }

  /** A segment holds at most max(maxChunks, preRoll + 1) chunks. */
  lemma SegmentSize(c: Config, h: History, s: Span)
    requires IsSegment(c, h, s)
    ensures s.to - s.from <= (if c.maxChunks > PreRoll(c) + 1 then c.maxChunks else PreRoll(c) + 1)
  {
    if s.to - 1 > s.opener {
      assert !Due(c, h.loud, s.from, s.opener, s.to - 1);
    }
  }

  // ---- the published segments -----------------------------------------------------------------------------

  lemma {:induction false} KeptInOrder(c: Config, closed: seq<Span>)
    requires InOrder(closed)
    ensures InOrder(Kept(c, closed))
  {
    if closed != [] {
      var init, last := closed[..|closed| - 1], closed[|closed| - 1];
      KeptInOrder(c, init);
      forall i | 0 <= i < |Kept(c, init)| ensures Kept(c, init)[i].to <= last.from {
        assert Kept(c, init)[i] in init;
      }
    }
  }

  /**
   The published segments are contiguous slices of the full-length chunks, in order and
   apart, unsuppressed, with their whole pre-roll, and of bounded size.
   */
  lemma SegmentsPartitionStream(c: Config, noise: seq<int>, full: seq<Chunk>)
    ensures var h := Run(c, noise, full);
            var kept := Kept(c, h.closed);
            && |Published(c, h)| == |kept| && InOrder(kept)
            && forall k :: 0 <= k < |kept| ==>
                 && IsSegment(c, h, kept[k])
                 && Published(c, h)[k].pcm == Join(full[kept[k].from..kept[k].to])
                 && Published(c, h)[k].peak == Peak(full, kept[k].opener, kept[k].to)
                 && c.minChunks <= kept[k].to - kept[k].from
                 && kept[k].to - kept[k].from <= (if c.maxChunks > PreRoll(c) + 1 then c.maxChunks else PreRoll(c) + 1)
  {
    hide IsSegment, Kept, Run, Current, Judged, Accounted, Peak, Join, Threshold, Hear;
    var h := Run(c, noise, full);
    var kept := Kept(c, h.closed);
    RunIsGood(c, noise, full);
    KeptInOrder(c, h.closed);
    forall k | 0 <= k < |kept| ensures kept[k] in h.closed && LongEnough(c, kept[k]) && IsSegment(c, h, kept[k]) {
      assert kept[k] in kept;
      var j :| 0 <= j < |h.closed| && h.closed[j] == kept[k];
      SegmentSize(c, h, h.closed[j]);
    }
    forall k | 0 <= k < |kept|
      ensures kept[k].to - kept[k].from <= (if c.maxChunks > PreRoll(c) + 1 then c.maxChunks else PreRoll(c) + 1)
    {
      SegmentSize(c, h, kept[k]);
    }
  }

  // ---- the listener -------------------------------------------------------------------------------------

  function Pcms(chunks: seq<Chunk>): seq<seq<bv8>> {
    seq(|chunks|, i requires 0 <= i < |chunks| => chunks[i].pcm)
  }

  function JoinPcm(parts: seq<seq<bv8>>): seq<bv8> {
    if parts == [] then [] else JoinPcm(parts[..|parts| - 1]) + parts[|parts| - 1]
  }

  lemma {:induction false} JoinPcms(chunks: seq<Chunk>)
    ensures JoinPcm(Pcms(chunks)) == Join(chunks)
  {
    if chunks != [] {
      var n := |chunks| - 1;
      assert Pcms(chunks)[..n] == Pcms(chunks[..n]);
      JoinPcms(chunks[..n]);
    }
  }

  lemma {:induction false} PeakFrame(full: seq<Chunk>, ch: Chunk, lo: nat, hi: nat)
    requires lo <= hi <= |full|
    ensures Peak(full + [ch], lo, hi) == Peak(full, lo, hi)
    decreases hi
  {
    if lo < hi {
      PeakFrame(full, ch, lo, hi - 1);
    }
  }

  /** What publishing adds when one more chunk is heard. */
  lemma PublishedGrows(c: Config, h: History, ch: Chunk)
    requires Shaped(h)
    ensures var r := Hear(c, h, ch);
            Published(c, r) == Published(c, h) +
              if |r.closed| > |h.closed| && LongEnough(c, r.closed[|h.closed|])
              then [Publish(c, r, r.closed[|h.closed|])] else []
  {
    hide Hear, Join, Threshold;
    var r := Hear(c, h, ch);
    HearAppends(c, h, ch);
    var kept := Kept(c, h.closed);
    forall k | 0 <= k < |kept| ensures kept[k] in h.closed && Publish(c, r, kept[k]) == Publish(c, h, kept[k]) {
      assert kept[k] in kept;
      var s := kept[k];
      assert r.full[s.from..s.to] == h.full[s.from..s.to];
      PeakFrame(h.full, ch, s.opener, s.to);
      assert r.windows[s.to - 1] == h.windows[s.to - 1];
    }
    if |r.closed| > |h.closed| {
      assert r.closed[..|r.closed| - 1] == h.closed;
    } else {
      assert r.closed == h.closed;
    }
  }

  /** The listener's variables are what the history says. */
  ghost predicate Tied(h: History, speech: seq<bv8>, silence: nat, chunks: nat, peak: int, preRoll: seq<seq<bv8>>)
    requires Shaped(h)
  {
    match h.opener
    case None => speech == [] && silence == 0 && chunks == 0 && peak == 0 && preRoll == Pcms(h.full[h.from..])
    case Some(o) =>
      && speech == Join(h.full[h.from..]) && speech != [] && chunks == |h.full| - h.from
      && silence == Silence(h.loud, o, |h.full|) && peak == Peak(h.full, o, |h.full|) && |h.noise| >= CALIBRATION
  }

  /** Appending to the pre-roll slides its window. */
  lemma PreRollSlides(c: Config, h: History, ch: Chunk)
    requires Shaped(h) && h.opener.None? && !ch.suppressed && !Loud(c, h.noise, ch) && |h.full| - h.from <= PreRoll(c)
    ensures var r := Hear(c, h, ch);
            && Push(Pcms(h.full[h.from..]), ch.pcm, PreRoll(c)) == Pcms(r.full[r.from..])
            && r.noise == Push(h.noise, ch.rms, NoiseWindow(c)) && r.opener.None? && r.closed == h.closed
  {
    hide Loud, Due, Threshold;
  }

  /** An utterance that gains one chunk gains its samples, and its counters follow. */
  lemma UtteranceGrows(full: seq<Chunk>, loud: seq<bool>, ch: Chunk, x: bool, from: nat, o: nat)
    requires from <= o <= |full| == |loud|
    ensures Join((full + [ch])[from..]) == Join(full[from..]) + ch.pcm
    ensures Silence(loud + [x], o, |full| + 1) == if x then 0 else Silence(loud, o, |full|) + 1
    ensures var before := Peak(full, o, |full|);
            && (o == |full| ==> before == 0)
            && Peak(full + [ch], o, |full| + 1) == if before >= ch.rms then before else ch.rms
  {
    var more := (full + [ch])[from..];
    assert more[..|more| - 1] == full[from..];
    SilenceFrame(loud, x, o, |full|);
    PeakFrame(full, ch, o, |full|);
  }

  /** The one published segment, from the listener's own variables. */
  lemma ClosesAs(c: Config, h: History, ch: Chunk, o: nat)
    requires Shaped(h) && !ch.suppressed && o == (if h.opener.Some? then h.opener.value else |h.full|)
    requires h.opener.Some? || Loud(c, h.noise, ch)
    ensures var r := Hear(c, h, ch); var loud := h.loud + [Loud(c, h.noise, ch)];
            if Due(c, loud, h.from, o, |h.full| + 1)
            then r.opener.None? && r.from == |r.full| && |r.closed| == |h.closed| + 1 && r.noise == h.noise &&
                 r.closed[|h.closed|] == Span(h.from, o, |r.full|) &&
                 Publish(c, r, r.closed[|h.closed|]) ==
                   Segment(Join(r.full[h.from..]), Peak(r.full, o, |r.full|), Threshold(c, h.noise))
            else r.opener == Some(o) && r.from == h.from && |r.closed| == |h.closed| && r.noise == h.noise
  {
    hide Loud, Due, Threshold, Join, Peak;
    var r := Hear(c, h, ch);
    HearAppends(c, h, ch);
    assert r.full[h.from..|r.full|] == r.full[h.from..];
  }

  lemma RunStep(c: Config, noise: seq<int>, full: seq<Chunk>, ch: Chunk)
    ensures Run(c, noise, full + [ch]) == Hear(c, Run(c, noise, full), ch)
  {
    hide Hear;
    assert (full + [ch])[..|full|] == full;
  }

  lemma PreRollFits(c: Config, noise: seq<int>, full: seq<Chunk>)
    ensures var h := Run(c, noise, full); h.opener.None? ==> |h.full| - h.from <= PreRoll(c)
  {
    hide Run, Shaped, Judged, Accounted, IsSegment, InOrder;
    RunIsGood(c, noise, full);
  }

  lemma NothingHeard(c: Config, noise: seq<int>)
    ensures Run(c, noise, []) == Start(noise) && Published(c, Start(noise)) == []
  {
  }

  /** A suppressed chunk wipes what was kept. */
  lemma SuppressedForgets(c: Config, h: History, ch: Chunk)
    requires Shaped(h) && ch.suppressed
    ensures var r := Hear(c, h, ch);
            r.opener.None? && Pcms(r.full[r.from..]) == [] && r.closed == h.closed && r.noise == h.noise
  {
    hide Loud, Due, Push;
  }

  class VoiceCommandListener {
    const config: Config
    var noise: seq<int>

    constructor (c: Config)
      ensures config == c && noise == []
    {
      config, noise := c, [];
    }

    /** `_is_loud`: judge an idle chunk and let a quiet one into the noise window. */
    method IsLoud(rms: int) returns (loud: bool, threshold: int)
      modifies this`noise
      ensures loud == (|old(noise)| >= CALIBRATION && rms >= Threshold(config, old(noise)))
      ensures noise == if loud then old(noise) else Push(old(noise), rms, NoiseWindow(config))
      ensures loud ==> threshold == Threshold(config, old(noise))
    {
      hide Threshold;
      if |noise| < CALIBRATION {
        noise := Push(noise, rms, NoiseWindow(config));
        return false, Threshold(config, noise);
      }
      threshold := Threshold(config, noise);
      loud := rms >= threshold;
      if !loud {
        noise := Push(noise, rms, NoiseWindow(config));
      }
    }

    /** The chunk loop of `_run` over everything one capture process delivers. */
    method Capture(stream: seq<Chunk>) returns (published: seq<Segment>)
      modifies this`noise
      ensures var h := Run(config, old(noise), Full(config, stream));
              published == Published(config, h) && noise == h.noise
    {
      hide Threshold, Hear, Push, Run, Join, Silence, Peak, Publish, Published;
      published := [];
      var speech: seq<bv8>, silence: nat, chunks: nat, peak := [], 0, 0, 0;
      var preRoll: seq<seq<bv8>> := [];
      ghost var h := Start(noise);
      ghost var full: seq<Chunk> := [];
      NothingHeard(config, noise);
      for i := 0 to |stream|
        invariant full == Full(config, stream[..i]) && h == Run(config, old(noise), full)
        invariant Shaped(h) && Tied(h, speech, silence, chunks, peak, preRoll)
        invariant published == Published(config, h) && noise == h.noise
      {
        var chunk := stream[i];
        assert stream[..i + 1][..i] == stream[..i];
        if !FullLength(config, chunk) {
          continue;
        }
        ghost var before := h;
        RunStep(config, old(noise), full, chunk);
        PreRollFits(config, old(noise), full);
        full := full + [chunk];
        h := Hear(config, before, chunk);
        HearAppends(config, before, chunk);
        PublishedGrows(config, before, chunk);
        if chunk.suppressed {
          SuppressedForgets(config, before, chunk);
          speech, silence, chunks, peak, preRoll := [], 0, 0, 0, [];
          continue;
        }
        var loud, threshold;
        if speech != [] {
          threshold := Threshold(config, noise);
          loud := chunk.rms >= threshold;
        } else {
          loud, threshold := IsLoud(chunk.rms);
        }
        assert loud == Loud(config, before.noise, chunk);
        if speech == [] && !loud {
          PreRollSlides(config, before, chunk);
          preRoll := Push(preRoll, chunk.pcm, PreRoll(config));
        } else {
          ghost var o := if before.opener.Some? then before.opener.value else |before.full|;
          UtteranceGrows(before.full, before.loud, chunk, loud, before.from, o);
          ClosesAs(config, before, chunk, o);
          if speech == [] {
            JoinPcms(before.full[before.from..]);
            speech, chunks := JoinPcm(preRoll) + chunk.pcm, |preRoll| + 1;
          } else {
            speech, chunks := speech + chunk.pcm, chunks + 1;
          }
          silence := if loud then 0 else silence + 1;
          peak := if peak >= chunk.rms then peak else chunk.rms;
        }
        if speech != [] && (silence >= config.silence || chunks >= config.maxChunks) {
          if chunks >= config.minChunks {
            published := published + [Segment(speech, peak, threshold)];
          }
          speech, silence, chunks, peak, preRoll := [], 0, 0, 0, [];
          assert Pcms(h.full[h.from..]) == [];
        }
      }
      assert stream[..|stream|] == stream;
    }
  }

  // ---- loudness in words -----------------------------------------------------------------------------------

  /** The nearest integer, and of two equally near ones the even one. */
  lemma RoundIs(x: real)
    ensures -0.5 <= Round(x) as real - x <= 0.5
    ensures Round(x) as real - x == 0.5 || Round(x) as real - x == -0.5 ==> Round(x) % 2 == 0
  {
  }

  /** The middle of the sorted window, or the mean of the two middle values. */
  lemma MedianIs(window: seq<int>) returns (sorted: seq<int>)
    requires window != []
    ensures multiset(sorted) == multiset(window) && |sorted| == |window|
    ensures forall i, j :: 0 <= i < j < |sorted| ==> sorted[i] <= sorted[j]
    ensures |window| % 2 == 1 ==> Median(window) == sorted[|window| / 2] as real
    ensures |window| % 2 == 0 ==> Median(window) * 2.0 == (sorted[|window| / 2 - 1] + sorted[|window| / 2]) as real
  {
    hide SortBy;
    var key := (x: int) => x as real;
    sorted := SortBy(window, key);
    SortIsSorted(window, key);
    SortKeepsMembers(window, key);
    assert SortedBy(sorted, key);
    forall i, j | 0 <= i < j < |sorted| ensures sorted[i] <= sorted[j] {
      assert key(sorted[i]) <= key(sorted[j]);
    }
  }

  /** Once calibrated the threshold is the larger of the fixed one and the multiplied median, before that the fixed one. */
  lemma ThresholdIs(c: Config, noise: seq<int>)
    ensures |noise| < 4 && c.rmsThreshold >= 0 ==> Threshold(c, noise) == c.rmsThreshold
    ensures |noise| >= 4 ==>
              var adaptive := Adaptive(c, Median(noise));
              && Threshold(c, noise) >= c.rmsThreshold && Threshold(c, noise) >= adaptive
              && (Threshold(c, noise) == c.rmsThreshold || Threshold(c, noise) == adaptive)
  {
    hide Median, Adaptive;
    SilenceIsZero(c);
  }

  lemma SilenceIsZero(c: Config)
    ensures Adaptive(c, 0.0) == 0
  {
    var m := if c.multiplier > 1.0 then c.multiplier else 1.0;
    assert 0.0 * m == 0.0;
    RoundIs(0.0);
  }

  /** The multiplied level, rounded; a multiplier below one counts as one. */
  lemma AdaptiveIs(c: Config, floor: real)
    ensures c.multiplier <= 1.0 ==> Adaptive(c, floor) == Round(floor)
    ensures c.multiplier > 1.0 ==> Adaptive(c, floor) == Round(floor * c.multiplier)
  {
    assert floor * 1.0 == floor;
  }

  // ---- the noise window -------------------------------------------------------------------------------------

  function Lately<T>(q: seq<T>, n: nat): seq<T> {
    if |q| <= n then q else q[|q| - n..]
  }

  lemma PushLately<T>(q: seq<T>, x: T, n: nat)
    requires n >= 1
    ensures Push(Lately(q, n), x, n) == Lately(q + [x], n)
  {
  }

  /** The loudness of the chunks heard while nobody was suppressed. */
  function Levels(full: seq<Chunk>): seq<int> {
    if full == [] then []
    else
      var ch := full[|full| - 1];
      Levels(full[..|full| - 1]) + if ch.suppressed then [] else [ch.rms]
  }

  ghost predicate NeverLoud(h: History) {
    h.opener.None? && h.closed == [] && forall k :: 0 <= k < |h.loud| ==> !h.loud[k]
  }

  /** As long as nothing is loud, the window holds the latest levels, suppressed chunks left out. */
  lemma {:induction false} QuietFillsWindow(c: Config, noise: seq<int>, full: seq<Chunk>)
    requires |noise| <= NoiseWindow(c) && NeverLoud(Run(c, noise, full))
    ensures Run(c, noise, full).noise == Lately(noise + Levels(full), NoiseWindow(c))
  {
    hide Loud, Due;
    if full == [] {
      assert noise + Levels(full) == noise;
    } else {
      var init, ch := full[..|full| - 1], full[|full| - 1];
      var h := Run(c, noise, init);
      HearAppends(c, h, ch);
      QuietBefore(c, h, ch);
      RunIsGood(c, noise, init);
      if h.opener.Some? {
        OpenIsLoud(c, h);
      }
      QuietFillsWindow(c, noise, init);
      PushLately(noise + Levels(init), ch.rms, NoiseWindow(c));
      assert noise + (Levels(init) + [ch.rms]) == noise + Levels(init) + [ch.rms];
      assert Levels(init) + [] == Levels(init);
    }
  }

  lemma OpenIsLoud(c: Config, h: History)
    requires Current(c, h) && h.opener.Some?
    ensures h.opener.value < |h.loud| && h.loud[h.opener.value]
  {
  }

  lemma QuietBefore(c: Config, h: History, ch: Chunk)
    requires Shaped(h) && NeverLoud(Hear(c, h, ch))
    ensures h.closed == [] && (forall k :: 0 <= k < |h.loud| ==> !h.loud[k]) && !Loud(c, h.noise, ch)
    ensures ch.suppressed || h.opener.None?
    ensures Hear(c, h, ch).noise == if ch.suppressed then h.noise else Push(h.noise, ch.rms, NoiseWindow(c))
  {
    hide Loud, Due, Push;
    var r := Hear(c, h, ch);
    HearAppends(c, h, ch);
    assert r.loud[|h.loud|] == Loud(c, h.noise, ch);
    forall k | 0 <= k < |h.loud| ensures !h.loud[k] {
      assert r.loud[k] == h.loud[k];
    }
  }

  /** Speech, suppressed chunks and loud chunks never enter the noise window. */
  lemma SpeechLeavesNoise(c: Config, h: History, ch: Chunk)
    requires Shaped(h)
    ensures h.opener.Some? || ch.suppressed || Loud(c, h.noise, ch) ==> Hear(c, h, ch).noise == h.noise
  {
    hide Loud, Due, Push;
  }

  /** After four calibrating chunks the window is set and a chunk at the threshold is speech. */
  lemma CalibrationEnds(c: Config, full: seq<Chunk>, ch: Chunk)
    requires |full| == 4 && forall k :: 0 <= k < 4 ==> !full[k].suppressed
    ensures var h := Run(c, [], full); h.noise == [full[0].rms, full[1].rms, full[2].rms, full[3].rms]
    ensures !ch.suppressed && ch.rms >= Threshold(c, Run(c, [], full).noise) ==> Loud(c, Run(c, [], full).noise, ch)
  {
    hide Threshold, Due, Push;
    Calibrates(c, full, 4);
    assert full[..4] == full;
    assert Rms(full, 4) == [full[0].rms, full[1].rms, full[2].rms, full[3].rms];
  }

  function Rms(full: seq<Chunk>, n: nat): seq<int>
    requires n <= |full|
  {
    seq(n, i requires 0 <= i < n => full[i].rms)
  }

  lemma {:induction false} Calibrates(c: Config, full: seq<Chunk>, n: nat)
    requires n <= |full| == 4 && forall k :: 0 <= k < 4 ==> !full[k].suppressed
    ensures var h := Run(c, [], full[..n]); h.noise == Rms(full, n) && h.opener.None?
  {
    hide Hear, Loud, Shaped, Run, Threshold, Due;
    if n == 0 {
      assert full[..0] == [];
      RunOfNothing(c, []);
    } else {
      Calibrates(c, full, n - 1);
      assert full[..n] == full[..n - 1] + [full[n - 1]];
      RunStep(c, [], full[..n - 1], full[n - 1]);
      HearCalibrating(c, Run(c, [], full[..n - 1]), full[n - 1]);
      assert Rms(full, n) == Rms(full, n - 1) + [full[n - 1].rms];
    }
  }

  lemma RunOfNothing(c: Config, noise: seq<int>)
    ensures Run(c, noise, []) == Start(noise)
  {
  }

  lemma HearCalibrating(c: Config, h: History, ch: Chunk)
    requires Shaped(h) && h.opener.None? && !ch.suppressed && |h.noise| < 4
    ensures Hear(c, h, ch).noise == h.noise + [ch.rms] && Hear(c, h, ch).opener.None?
  {
    hide Threshold, Due;
  }

  // ---- what is skipped, how long it is quiet and how loud it was ------------------------------------------

  /** Chunks more than 64 bytes short of the expected size are skipped, the others keep their order. */
  lemma {:induction false} FullIs(c: Config, a: seq<Chunk>, b: seq<Chunk>, ch: Chunk)
    ensures Full(c, a + b) == Full(c, a) + Full(c, b)
    ensures Full(c, [ch]) == if |ch.pcm| >= (if c.localCapture then 15936 else 7936) then [ch] else []
    decreases |b|
  {
    assert [ch][..0] == [];
    if b == [] {
      assert a + b == a;
    } else {
      assert (a + b)[..|a + b| - 1] == a + b[..|b| - 1];
      FullIs(c, a, b[..|b| - 1], ch);
    }
  }

  /** The peak is the greatest loudness of the chunks, and zero where none is louder. */
  lemma {:induction false} PeakIs(full: seq<Chunk>, lo: nat, hi: nat)
    requires lo <= hi <= |full|
    ensures Peak(full, lo, hi) >= 0 && forall k :: lo <= k < hi ==> full[k].rms <= Peak(full, lo, hi)
    ensures Peak(full, lo, hi) == 0 || exists k :: lo <= k < hi && full[k].rms == Peak(full, lo, hi)
    decreases hi
  {
    if lo < hi {
      PeakIs(full, lo, hi - 1);
      assert full[hi - 1].rms == Peak(full, lo, hi) || Peak(full, lo, hi) == Peak(full, lo, hi - 1);
    }
  }

  /** The silence at the end is the length of the longest run of quiet chunks there. */
  lemma {:induction false} SilenceIs(loud: seq<bool>, lo: nat, hi: nat)
    requires lo <= hi <= |loud|
    ensures var n := Silence(loud, lo, hi);
            && n <= hi - lo && (forall k :: hi - n <= k < hi ==> !loud[k])
            && (lo < hi - n ==> loud[hi - n - 1])
    decreases hi
  {
    if lo < hi && !loud[hi - 1] {
      SilenceIs(loud, lo, hi - 1);
    }
  }
}
