/** Assembling utterances from frames: the state machine as a value, and where in the stream its utterances lie. */
module Vad {
  import opened Collections
  import opened Wire

  /** A 10 ms frame, the session it belongs to, and what the detector says of it. */
  datatype Frame = Frame(pcm: seq<byte>, command: string, speech: bool)

  datatype Config = Config(startFrames: nat, endSilenceMs: nat, preRollMs: nat, postRollMs: nat,
                           minUtteranceMs: nat, maxUtteranceMs: nat, frameMs: nat)

  predicate ConfigOk(c: Config) { c.startFrames >= 1 && c.frameMs > 0 }

  function Frames(c: Config, milliseconds: nat): (n: nat)
    requires ConfigOk(c)
    ensures n >= 1
  {
    if milliseconds / c.frameMs >= 1 then milliseconds / c.frameMs else 1
  }

  datatype Utterance = Utterance(number: nat, command: string, pcm: seq<byte>, frameCount: nat, durationMs: nat)

  datatype Update = Update(speechDetected: bool, utterance: seq<Utterance>)

  const NOTHING := Update(false, [])

  datatype State = State(speaking: bool, preRoll: seq<Frame>, speech: seq<Frame>, candidates: seq<Frame>,
                         silence: nat, counter: nat)

  const QUIET := State(false, [], [], [], 0, 0)

  function Pcm(frames: seq<Frame>): seq<byte> { Concat(seq(|frames|, i requires 0 <= i < |frames| => frames[i].pcm)) }

  function Finish(c: Config, s: State, f: Frame, selected: seq<Frame>): (State, Utterance) {
    (State(false, [], [], [], 0, s.counter + 1),
     Utterance(s.counter + 1, f.command, Pcm(selected), |selected|, |selected| * c.frameMs))
  }

  function TrimSilence(c: Config, silence: nat): nat
    requires ConfigOk(c)
  {
    if silence > Frames(c, c.postRollMs) then silence - Frames(c, c.postRollMs) else 0
  }

  /** `[: -count]`, which is empty for a count of zero. */
  function DropTail<T>(s: seq<T>, count: nat): seq<T> { if 0 < count <= |s| then s[..|s| - count] else [] }

  function FeedIdle(c: Config, s: State, f: Frame): (State, Update)
    requires ConfigOk(c)
  {
    var preRoll := PushBounded(s.preRoll, f, Frames(c, c.preRollMs));
    if !f.speech then (s.(preRoll := preRoll, candidates := []), NOTHING)
    else
      var candidates := s.candidates + [f];
      if |candidates| < c.startFrames then (s.(preRoll := preRoll, candidates := candidates), NOTHING)
      else (s.(speaking := true, preRoll := preRoll, candidates := candidates, speech := preRoll, silence := 0),
            Update(true, []))
  }

  function FeedSpeaking(c: Config, s: State, f: Frame): (State, Update)
    requires ConfigOk(c)
  {
    var heard := s.(speech := s.speech + [f], silence := if f.speech then 0 else s.silence + 1);
    if |heard.speech| >= Frames(c, c.maxUtteranceMs) then
      var (s', u) := Finish(c, heard, f, heard.speech);
      (s', Update(false, [u]))
    else if heard.silence >= Frames(c, c.endSilenceMs) then
      var (s', u) := Finish(c, heard, f, DropTail(heard.speech, TrimSilence(c, heard.silence)));
      (s', Update(false, if u.durationMs < c.minUtteranceMs then [] else [u]))
    else (heard, NOTHING)
  }

  function Feed(c: Config, s: State, f: Frame): (State, Update)
    requires ConfigOk(c)
  {
    if s.speaking then FeedSpeaking(c, s, f) else FeedIdle(c, s, f)
  }

  // ---- Where the utterances lie in the stream ----

  /** `opening`: where speech was detected; the utterance is `stream[start..end]`. */
  datatype Delivery = Delivery(u: Utterance, start: nat, end: nat, opening: nat, bySilence: bool)

  /**
   After the first `n` frames: `cut` is where the last utterance was finished, `start` where the open one
   begins, and `dropped` holds those that were finished too short to be emitted.
   */
  datatype Tracker = Tracker(s: State, n: nat, cut: nat, start: nat, opening: nat,
                             deliveries: seq<Delivery>, dropped: seq<Delivery>)

  const BEGINNING := Tracker(QUIET, 0, 0, 0, 0, [], [])

  function DeliveryOf(c: Config, t: Tracker, u: Utterance): Delivery
    requires ConfigOk(c)
  {
    Delivery(u, t.start, t.start + u.frameCount, t.opening, |t.s.speech| + 1 < Frames(c, c.maxUtteranceMs))
  }

  /** What silence would finish at this frame. */
  function SilenceEnded(c: Config, s: State, f: Frame): Utterance
    requires ConfigOk(c)
  {
    Finish(c, s, f, DropTail(s.speech + [f], TrimSilence(c, s.silence + 1))).1
  }

  function Track(c: Config, t: Tracker, f: Frame): Tracker
    requires ConfigOk(c)
  {
    var (s', update) := Feed(c, t.s, f);
    var n' := t.n + 1;
    var closes := t.s.speaking && !s'.speaking;
    Tracker(s', n',
            if closes then n' else t.cut,
            if !t.s.speaking && s'.speaking && |s'.speech| <= n' then n' - |s'.speech| else t.start,
            if !t.s.speaking && s'.speaking then n' else t.opening,
            t.deliveries + (if update.utterance == [] then [] else [DeliveryOf(c, t, update.utterance[0])]),
            t.dropped + (if closes && update.utterance == [] then [DeliveryOf(c, t, SilenceEnded(c, t.s, f))] else []))
  }

  function After(c: Config, stream: seq<Frame>, n: nat): Tracker
    requires ConfigOk(c) && n <= |stream|
  {
    if n == 0 then BEGINNING else Track(c, After(c, stream, n - 1), stream[n - 1])
  }

  ghost predicate AllSpeech(stream: seq<Frame>, i: nat, j: nat)
    requires j <= |stream|
  {
    forall k :: i <= k < j ==> stream[k].speech
  }

  ghost predicate AllSilent(stream: seq<Frame>, i: nat, j: nat)
    requires j <= |stream|
  {
    forall k :: i <= k < j ==> !stream[k].speech
  }

  // ---- The invariant ----

  function Max(a: int, b: int): int { if a >= b then a else b }

  /** The candidates are the speech just heard, as far back as the last cut and no further. */
  ghost predicate CandidatesAt(c: Config, stream: seq<Frame>, count: nat, cut: nat, n: nat)
    requires n <= |stream|
  {
    && count < c.startFrames && cut + count <= n && AllSpeech(stream, n - count, n)
    && (cut + count == n || !stream[n - count - 1].speech)
  }

  ghost predicate IdleAt(c: Config, stream: seq<Frame>, t: Tracker)
    requires ConfigOk(c) && t.n <= |stream|
  {
    && t.cut <= t.n
    && t.s.preRoll == stream[Max(t.cut, t.n - Frames(c, c.preRollMs))..t.n]
    && CandidatesAt(c, stream, |t.s.candidates|, t.cut, t.n)
  }

  ghost predicate SpeakingAt(c: Config, stream: seq<Frame>, t: Tracker)
    requires ConfigOk(c) && t.n <= |stream|
  {
    && t.cut <= t.start <= t.n && t.s.speech == stream[t.start..t.n]
    && t.start == Max(t.cut, t.opening - Frames(c, c.preRollMs))
    && t.cut + c.startFrames <= t.opening <= t.n && AllSpeech(stream, t.opening - c.startFrames, t.opening)
    && t.s.silence < Frames(c, c.endSilenceMs) && t.opening <= t.n - t.s.silence
    && AllSilent(stream, t.n - t.s.silence, t.n) && stream[t.n - t.s.silence - 1].speech
    && (t.n > t.opening ==> |t.s.speech| < Frames(c, c.maxUtteranceMs))
  }

  /** Lengths and durations of one delivered utterance, and what it is cut out of. */
  ghost predicate IsSlice(c: Config, stream: seq<Frame>, d: Delivery)
    requires ConfigOk(c)
  {
    && d.start <= d.end <= |stream|
    && d.u.pcm == Pcm(stream[d.start..d.end]) && d.u.frameCount == d.end - d.start
    && d.u.durationMs == d.u.frameCount * c.frameMs
    && (d.bySilence ==> d.u.durationMs >= c.minUtteranceMs)
  }

  ghost predicate Bounded(c: Config, d: Delivery)
    requires ConfigOk(c)
  {
    Frames(c, c.maxUtteranceMs) > Frames(c, c.preRollMs) ==> d.end - d.start <= Frames(c, c.maxUtteranceMs)
  }

  ghost predicate HoldsSpeech(c: Config, stream: seq<Frame>, d: Delivery)
    requires ConfigOk(c)
  {
    (d.bySilence ==> Frames(c, c.endSilenceMs) > Frames(c, c.postRollMs)) && Frames(c, c.preRollMs) >= c.startFrames ==>
      d.start + c.startFrames <= d.opening <= d.end <= |stream|
        && AllSpeech(stream, d.opening - c.startFrames, d.opening)
  }

  ghost predicate KeepsPostRoll(c: Config, stream: seq<Frame>, d: Delivery)
    requires ConfigOk(c)
  {
    var post := Frames(c, c.postRollMs);
    d.bySilence ==>
      if Frames(c, c.endSilenceMs) > post
      then d.start + post < d.end <= |stream| && AllSilent(stream, d.end - post, d.end)
        && stream[d.end - post - 1].speech
      else d.end == d.start
  }

  ghost predicate Ordered(ds: seq<Delivery>, cut: nat) {
    && (forall i :: 0 <= i < |ds| ==> ds[i].end <= cut)
    && (forall i, j :: 0 <= i < j < |ds| ==> ds[i].end <= ds[j].start && ds[i].u.number < ds[j].u.number)
  }

  ghost predicate Delivered(c: Config, stream: seq<Frame>, d: Delivery)
    requires ConfigOk(c)
  {
    IsSlice(c, stream, d) && Bounded(c, d) && HoldsSpeech(c, stream, d) && KeepsPostRoll(c, stream, d)
  }

  ghost predicate Positions(c: Config, stream: seq<Frame>, t: Tracker)
    requires ConfigOk(c) && t.n <= |stream|
  {
    if t.s.speaking then SpeakingAt(c, stream, t) else IdleAt(c, stream, t)
  }

  ghost predicate Books(c: Config, stream: seq<Frame>, t: Tracker)
    requires ConfigOk(c)
  {
    && Ordered(t.deliveries, t.cut)
    && (forall i :: 0 <= i < |t.deliveries| ==> t.deliveries[i].u.number <= t.s.counter)
    && (forall i :: 0 <= i < |t.deliveries| ==> Delivered(c, stream, t.deliveries[i]))
  }

  ghost predicate Sound(c: Config, stream: seq<Frame>, t: Tracker)
    requires ConfigOk(c)
  {
    t.n <= |stream| && Positions(c, stream, t) && Books(c, stream, t)
  }

  // ---- Every frame keeps it ----

  lemma BooksStay(c: Config, stream: seq<Frame>, t: Tracker, t': Tracker)
    requires ConfigOk(c) && Books(c, stream, t) && t'.deliveries == t.deliveries && t.cut <= t'.cut
             && t.s.counter <= t'.s.counter
    ensures Books(c, stream, t')
  {
  }

  lemma SpeechRun(c: Config, stream: seq<Frame>, t: Tracker)
    requires ConfigOk(c) && t.n < |stream| && IdleAt(c, stream, t) && stream[t.n].speech
             && |t.s.candidates| + 1 >= c.startFrames
    ensures t.cut + c.startFrames <= t.n + 1 && AllSpeech(stream, t.n + 1 - c.startFrames, t.n + 1)
  {
  }

  lemma TracksOpening(c: Config, t: Tracker, f: Frame, preRoll: seq<Frame>) returns (t': Tracker)
    requires ConfigOk(c) && !t.s.speaking && f.speech && |t.s.candidates| + 1 >= c.startFrames
    requires preRoll == PushBounded(t.s.preRoll, f, Frames(c, c.preRollMs)) && |preRoll| <= t.n + 1
    ensures t' == Track(c, t, f) && t'.s.speech == preRoll && t'.s.silence == 0 && t'.cut == t.cut
    ensures t'.n == t'.opening == t.n + 1 && t'.start == t.n + 1 - |preRoll|
  {
    t' := Track(c, t, f);
  }

  lemma OpensAt(c: Config, stream: seq<Frame>, cut: nat, n: nat, t': Tracker)
    requires ConfigOk(c) && 0 < n <= |stream| && cut + c.startFrames <= n && AllSpeech(stream, n - c.startFrames, n)
    requires t'.n == t'.opening == n && t'.cut == cut && t'.s.silence == 0
    requires t'.start == Max(cut, n - Frames(c, c.preRollMs)) && t'.s.speech == stream[t'.start..n]
    ensures SpeakingAt(c, stream, t')
  {
  }

  lemma Opens(c: Config, stream: seq<Frame>, t: Tracker, begin: nat)
    requires ConfigOk(c) && t.n < |stream| && !t.s.speaking && stream[t.n].speech
             && |t.s.candidates| + 1 >= c.startFrames
    requires t.cut + c.startFrames <= t.n + 1 && AllSpeech(stream, t.n + 1 - c.startFrames, t.n + 1)
    requires begin == Max(t.cut, t.n + 1 - Frames(c, c.preRollMs))
    requires stream[begin..t.n + 1] == PushBounded(t.s.preRoll, stream[t.n], Frames(c, c.preRollMs))
    ensures SpeakingAt(c, stream, Track(c, t, stream[t.n]))
  {
    var t' := TracksOpening(c, t, stream[t.n], stream[begin..t.n + 1]);
    OpensAt(c, stream, t.cut, t.n + 1, t');
  }

  lemma OpensFromIdle(c: Config, stream: seq<Frame>, t: Tracker)
    requires ConfigOk(c) && t.n < |stream| && IdleAt(c, stream, t) && !t.s.speaking
    requires stream[t.n].speech && |t.s.candidates| + 1 >= c.startFrames
    ensures SpeakingAt(c, stream, Track(c, t, stream[t.n]))
  {
    SpeechRun(c, stream, t);
    PreRollSlides(stream, t.s.preRoll, t.cut, t.n, Frames(c, c.preRollMs));
    Opens(c, stream, t, Max(t.cut, t.n + 1 - Frames(c, c.preRollMs)));
  }

  lemma TracksIdle(c: Config, t: Tracker, f: Frame)
    requires ConfigOk(c) && !t.s.speaking && !Track(c, t, f).s.speaking
    ensures var candidates := if f.speech then t.s.candidates + [f] else [];
            (f.speech ==> |candidates| < c.startFrames)
            && Track(c, t, f) == t.(n := t.n + 1, s := t.s.(
                 preRoll := PushBounded(t.s.preRoll, f, Frames(c, c.preRollMs)), candidates := candidates))
  {
  }

  lemma IdleFollows(c: Config, stream: seq<Frame>, t: Tracker, t': Tracker, preRoll: seq<Frame>)
    requires ConfigOk(c) && t.n < |stream| && IdleAt(c, stream, t) && t'.n == t.n + 1 && t'.cut == t.cut
    requires t'.s.preRoll == preRoll == stream[Max(t.cut, t.n + 1 - Frames(c, c.preRollMs))..t.n + 1]
    requires if stream[t.n].speech then |t'.s.candidates| == |t.s.candidates| + 1 < c.startFrames
             else t'.s.candidates == []
    ensures IdleAt(c, stream, t')
  {
    CandidatesFollow(c, stream, |t.s.candidates|, t.cut, t.n);
  }

  lemma StaysIdle(c: Config, stream: seq<Frame>, t: Tracker)
    requires ConfigOk(c) && t.n < |stream| && IdleAt(c, stream, t) && !t.s.speaking
    requires !Track(c, t, stream[t.n]).s.speaking
    ensures IdleAt(c, stream, Track(c, t, stream[t.n]))
  {
    TracksIdle(c, t, stream[t.n]);
    PreRollSlides(stream, t.s.preRoll, t.cut, t.n, Frames(c, c.preRollMs));
    IdleFollows(c, stream, t, Track(c, t, stream[t.n]), PushBounded(t.s.preRoll, stream[t.n], Frames(c, c.preRollMs)));
  }

  lemma CandidatesFollow(c: Config, stream: seq<Frame>, count: nat, cut: nat, n: nat)
    requires ConfigOk(c) && n < |stream| && CandidatesAt(c, stream, count, cut, n)
    ensures if stream[n].speech then count + 1 < c.startFrames ==> CandidatesAt(c, stream, count + 1, cut, n + 1)
            else CandidatesAt(c, stream, 0, cut, n + 1)
  {
  }

  lemma PreRollSlides(stream: seq<Frame>, preRoll: seq<Frame>, cut: nat, n: nat, limit: nat)
    requires cut <= n < |stream| && limit >= 1 && preRoll == stream[Max(cut, n - limit)..n]
    ensures PushBounded(preRoll, stream[n], limit) == stream[Max(cut, n + 1 - limit)..n + 1]
  {
    var lo, drop := Max(cut, n - limit), if n - Max(cut, n - limit) >= limit then 1 else 0;
    SliceSlides(stream, lo, n, drop);
    assert PushBounded(preRoll, stream[n], limit) == stream[lo..n][drop..] + [stream[n]];
  }

  lemma SliceSlides<T>(stream: seq<T>, lo: nat, n: nat, drop: nat)
    requires lo + drop <= n < |stream|
    ensures stream[lo..n][drop..] + [stream[n]] == stream[lo + drop..n + 1]
  {
    var slid, slice := stream[lo..n][drop..] + [stream[n]], stream[lo + drop..n + 1];
    forall k | 0 <= k < |slid|
      ensures slid[k] == slice[k]
    {
    }
  }

  /** The open utterance with the next frame. */
  lemma HeardSlice(c: Config, stream: seq<Frame>, t: Tracker)
    requires ConfigOk(c) && t.n < |stream| && SpeakingAt(c, stream, t)
    ensures t.s.speech + [stream[t.n]] == stream[t.start..t.n + 1]
  {
  }

  lemma StillSpeaking(c: Config, stream: seq<Frame>, t: Tracker)
    requires ConfigOk(c) && t.n < |stream| && SpeakingAt(c, stream, t) && t.s.speaking
    requires Track(c, t, stream[t.n]).s.speaking
    ensures SpeakingAt(c, stream, Track(c, t, stream[t.n]))
  {
    HeardSlice(c, stream, t);
  }

  lemma ByLimit(c: Config, stream: seq<Frame>, t: Tracker) returns (d: Delivery)
    requires ConfigOk(c) && t.n < |stream| && SpeakingAt(c, stream, t) && t.s.speaking
    requires |t.s.speech| + 1 >= Frames(c, c.maxUtteranceMs)
    ensures d == DeliveryOf(c, t, Finish(c, t.s, stream[t.n], t.s.speech + [stream[t.n]]).1) && Delivered(c, stream, d)
    ensures t.cut <= d.start && d.end == t.n + 1 && d.u.number == t.s.counter + 1
  {
    HeardSlice(c, stream, t);
    d := DeliveryOf(c, t, Finish(c, t.s, stream[t.n], t.s.speech + [stream[t.n]]).1);
  }

  /** Silence long enough leaves exactly the post-roll; otherwise nothing at all. */
  lemma TrimmedSlice(c: Config, stream: seq<Frame>, t: Tracker)
    requires ConfigOk(c) && t.n < |stream| && SpeakingAt(c, stream, t) && t.s.speaking
    requires !stream[t.n].speech && t.s.silence + 1 >= Frames(c, c.endSilenceMs)
    ensures var trim := TrimSilence(c, t.s.silence + 1);
            t.start + trim <= t.n + 1
            && DropTail(t.s.speech + [stream[t.n]], trim)
               == stream[t.start..if trim > 0 then t.n + 1 - trim else t.start]
  {
    HeardSlice(c, stream, t);
    var heard := t.s.speech + [stream[t.n]];
    var trim := TrimSilence(c, t.s.silence + 1);
    if trim > 0 { assert heard[..|heard| - trim] == stream[t.start..t.n + 1 - trim]; }
  }

  lemma BySilence(c: Config, stream: seq<Frame>, t: Tracker, u: Utterance) returns (d: Delivery)
    requires ConfigOk(c) && t.n < |stream| && SpeakingAt(c, stream, t) && t.s.speaking
    requires |t.s.speech| + 1 < Frames(c, c.maxUtteranceMs)
    requires !stream[t.n].speech && t.s.silence + 1 >= Frames(c, c.endSilenceMs)
    requires u == SilenceEnded(c, t.s, stream[t.n]) && u.durationMs >= c.minUtteranceMs
    ensures d == DeliveryOf(c, t, u) && Delivered(c, stream, d)
    ensures t.cut <= d.start && d.end <= t.n + 1 && d.u.number == t.s.counter + 1
  {
    d := DeliveryOf(c, t, u);
    TrimmedSlice(c, stream, t);
  }

  lemma OneMore(c: Config, stream: seq<Frame>, t: Tracker, t': Tracker, d: Delivery)
    requires ConfigOk(c) && Books(c, stream, t) && Delivered(c, stream, d) && t.cut <= d.start && d.end <= t'.cut
             && t.cut <= t'.cut
    requires t'.deliveries == t.deliveries + [d] && d.u.number == t.s.counter + 1 == t'.s.counter
    ensures Books(c, stream, t')
  {
  }

  lemma IdleAgain(c: Config, stream: seq<Frame>, t: Tracker)
    requires ConfigOk(c) && t.n < |stream| && t.s.speaking && !Track(c, t, stream[t.n]).s.speaking
    ensures IdleAt(c, stream, Track(c, t, stream[t.n]))
  {
    assert stream[t.n + 1..t.n + 1] == [];
  }

  lemma LimitKeepsBooks(c: Config, stream: seq<Frame>, t: Tracker)
    requires ConfigOk(c) && t.n < |stream| && SpeakingAt(c, stream, t) && Books(c, stream, t) && t.s.speaking
    requires |t.s.speech| + 1 >= Frames(c, c.maxUtteranceMs)
    ensures Books(c, stream, Track(c, t, stream[t.n]))
  {
    var d := ByLimit(c, stream, t);
    OneMore(c, stream, t, Track(c, t, stream[t.n]), d);
  }

  lemma TracksSilence(c: Config, t: Tracker, f: Frame, u: Utterance)
    requires ConfigOk(c) && t.s.speaking && !f.speech && u == SilenceEnded(c, t.s, f)
    requires |t.s.speech| + 1 < Frames(c, c.maxUtteranceMs) && t.s.silence + 1 >= Frames(c, c.endSilenceMs)
    ensures var t' := Track(c, t, f);
            t'.cut == t.n + 1 && t'.s.counter == t.s.counter + 1
            && t'.deliveries == if u.durationMs < c.minUtteranceMs then t.deliveries
               else t.deliveries + [DeliveryOf(c, t, u)]
  {
  }

  lemma SilenceBooks(c: Config, stream: seq<Frame>, t: Tracker, t': Tracker, u: Utterance)
    requires ConfigOk(c) && t.n < |stream| && SpeakingAt(c, stream, t) && Books(c, stream, t) && t.s.speaking
    requires |t.s.speech| + 1 < Frames(c, c.maxUtteranceMs)
    requires !stream[t.n].speech && t.s.silence + 1 >= Frames(c, c.endSilenceMs)
             && u == SilenceEnded(c, t.s, stream[t.n])
    requires t'.cut == t.n + 1 && t'.s.counter == t.s.counter + 1
    requires t'.deliveries == if u.durationMs < c.minUtteranceMs then t.deliveries
             else t.deliveries + [DeliveryOf(c, t, u)]
    ensures Books(c, stream, t')
  {
    if u.durationMs < c.minUtteranceMs {
      BooksStay(c, stream, t, t');
    } else {
      var d := BySilence(c, stream, t, u);
      OneMore(c, stream, t, t', d);
    }
  }

  lemma SilenceKeepsBooks(c: Config, stream: seq<Frame>, t: Tracker)
    requires ConfigOk(c) && t.n < |stream| && SpeakingAt(c, stream, t) && Books(c, stream, t) && t.s.speaking
    requires |t.s.speech| + 1 < Frames(c, c.maxUtteranceMs)
    requires !stream[t.n].speech && t.s.silence + 1 >= Frames(c, c.endSilenceMs)
    ensures Books(c, stream, Track(c, t, stream[t.n]))
  {
    var u := SilenceEnded(c, t.s, stream[t.n]);
    TracksSilence(c, t, stream[t.n], u);
    SilenceBooks(c, stream, t, Track(c, t, stream[t.n]), u);
  }

  lemma FrameKeepsSound(c: Config, stream: seq<Frame>, t: Tracker)
    requires ConfigOk(c) && Sound(c, stream, t) && t.n < |stream|
    ensures Sound(c, stream, Track(c, t, stream[t.n]))
  {
    var t' := Track(c, t, stream[t.n]);
    if !t.s.speaking {
      if t'.s.speaking { OpensFromIdle(c, stream, t); } else { StaysIdle(c, stream, t); }
      BooksStay(c, stream, t, t');
    } else if t'.s.speaking {
      StillSpeaking(c, stream, t);
      BooksStay(c, stream, t, t');
    } else {
      IdleAgain(c, stream, t);
      if |t.s.speech| + 1 >= Frames(c, c.maxUtteranceMs) {
        LimitKeepsBooks(c, stream, t);
      } else {
        SilenceKeepsBooks(c, stream, t);
      }
    }
  }

  /** Every stream, every moment. */
  lemma {:induction false} EveryStreamIsSound(c: Config, stream: seq<Frame>, n: nat)
    requires ConfigOk(c) && n <= |stream|
    ensures Sound(c, stream, After(c, stream, n)) && After(c, stream, n).n == n
    decreases n
  {
    if n > 0 {
      EveryStreamIsSound(c, stream, n - 1);
      FrameKeepsSound(c, stream, After(c, stream, n - 1));
    }
  }

  // ---- What was emitted ----

  function StateAfter(c: Config, stream: seq<Frame>, n: nat): State
    requires ConfigOk(c) && n <= |stream|
  {
    if n == 0 then QUIET else Feed(c, StateAfter(c, stream, n - 1), stream[n - 1]).0
  }

  function Emitted(c: Config, stream: seq<Frame>, n: nat): seq<Utterance>
    requires ConfigOk(c) && n <= |stream|
  {
    if n == 0 then [] else Emitted(c, stream, n - 1) + Feed(c, StateAfter(c, stream, n - 1), stream[n - 1]).1.utterance
  }

  function Utterances(ds: seq<Delivery>): seq<Utterance> { seq(|ds|, i requires 0 <= i < |ds| => ds[i].u) }

  lemma TrackFeeds(c: Config, t: Tracker, f: Frame)
    requires ConfigOk(c)
    ensures Track(c, t, f).s == Feed(c, t.s, f).0
    ensures Utterances(Track(c, t, f).deliveries) == Utterances(t.deliveries) + Feed(c, t.s, f).1.utterance
  {
    var us := Feed(c, t.s, f).1.utterance;
    assert |us| <= 1;
    if us != [] { assert Utterances(t.deliveries + [DeliveryOf(c, t, us[0])]) == Utterances(t.deliveries) + [us[0]]; }
  }

  lemma {:induction false} TrackerState(c: Config, stream: seq<Frame>, n: nat)
    requires ConfigOk(c) && n <= |stream|
    ensures After(c, stream, n).s == StateAfter(c, stream, n)
    decreases n
  {
    if n > 0 {
      TrackerState(c, stream, n - 1);
      TrackFeeds(c, After(c, stream, n - 1), stream[n - 1]);
    }
  }

  lemma FeedEmits(c: Config, stream: seq<Frame>, n: nat, t: Tracker)
    requires ConfigOk(c) && 0 < n <= |stream| && t == After(c, stream, n - 1)
    requires Utterances(t.deliveries) == Emitted(c, stream, n - 1)
    ensures Utterances(After(c, stream, n).deliveries) == Emitted(c, stream, n)
  {
    TrackerState(c, stream, n - 1);
    TrackFeeds(c, t, stream[n - 1]);
  }

  lemma {:induction false} DeliveriesAreTheEmitted(c: Config, stream: seq<Frame>, n: nat)
    requires ConfigOk(c) && n <= |stream|
    ensures Utterances(After(c, stream, n).deliveries) == Emitted(c, stream, n)
    decreases n
  {
    if n == 0 {
      assert Utterances([]) == [];
    } else {
      DeliveriesAreTheEmitted(c, stream, n - 1);
      FeedEmits(c, stream, n, After(c, stream, n - 1));
    }
  }

  /** Pre-roll long enough to hold the detected speech, room beyond it, and more silence to end than is kept. */
  ghost predicate Proper(c: Config)
    requires ConfigOk(c)
  {
    && Frames(c, c.preRollMs) >= c.startFrames
    && Frames(c, c.maxUtteranceMs) > Frames(c, c.preRollMs)
    && Frames(c, c.endSilenceMs) > Frames(c, c.postRollMs)
  }

  /**
   A slice of the stream of bounded length, with the speech that opened it and, ended by silence,
   exactly the post-roll.
   */
  ghost predicate WholeUtterance(c: Config, stream: seq<Frame>, d: Delivery)
    requires ConfigOk(c)
  {
    && IsSlice(c, stream, d) && KeepsPostRoll(c, stream, d)
    && 0 < d.end - d.start <= Frames(c, c.maxUtteranceMs)
    && d.start + c.startFrames <= d.opening <= d.end
    && AllSpeech(stream, d.opening - c.startFrames, d.opening)
  }

  lemma DeliveredIsWhole(c: Config, stream: seq<Frame>, d: Delivery)
    requires ConfigOk(c) && Proper(c) && Delivered(c, stream, d)
    ensures WholeUtterance(c, stream, d)
  {
  }

  /** Emitted utterances are whole and lie in the stream one after the other. */
  lemma UtterancesPartitionTheStream(c: Config, stream: seq<Frame>)
    requires ConfigOk(c) && Proper(c)
    ensures var us, ds := Emitted(c, stream, |stream|), After(c, stream, |stream|).deliveries;
            && us == Utterances(ds)
            && (forall i :: 0 <= i < |ds| ==> WholeUtterance(c, stream, ds[i]))
            && (forall i, j :: 0 <= i < j < |ds| ==> ds[i].end <= ds[j].start)
  {
    EveryStreamIsSound(c, stream, |stream|);
    DeliveriesAreTheEmitted(c, stream, |stream|);
    var ds := After(c, stream, |stream|).deliveries;
    forall i | 0 <= i < |ds|
      ensures WholeUtterance(c, stream, ds[i])
    {
      DeliveredIsWhole(c, stream, ds[i]);
    }
  }

  /** Without more end silence than post-roll the trim is zero and the whole utterance is lost; only then. */
  lemma EmptyExactlyWhen(c: Config, stream: seq<Frame>, i: nat)
    requires ConfigOk(c) && i < |After(c, stream, |stream|).deliveries|
             && After(c, stream, |stream|).deliveries[i].bySilence
    ensures var d := After(c, stream, |stream|).deliveries[i];
            (d.u.frameCount == 0 <==> Frames(c, c.endSilenceMs) <= Frames(c, c.postRollMs))
            && (d.u.frameCount == 0 ==> c.minUtteranceMs == 0)
  {
    EveryStreamIsSound(c, stream, |stream|);
    assert Delivered(c, stream, After(c, stream, |stream|).deliveries[i]);
  }

  // ---- What each frame decides ----

  /** As many frames as fit into the time, but one at least. */
  lemma FramesFit(c: Config, milliseconds: nat)
    requires ConfigOk(c)
    ensures var n := Frames(c, milliseconds);
            if milliseconds < c.frameMs then n == 1 else n * c.frameMs <= milliseconds < (n + 1) * c.frameMs
  {
    var q := milliseconds / c.frameMs;
    assert milliseconds == c.frameMs * q + milliseconds % c.frameMs;
    assert (q + 1) * c.frameMs == q * c.frameMs + c.frameMs;
    assert q == 0 ==> c.frameMs * q == 0;
  }

  /** What the frame after the first `n` is answered. */
  function Answer(c: Config, stream: seq<Frame>, n: nat): Update
    requires ConfigOk(c) && n < |stream|
  {
    Feed(c, StateAfter(c, stream, n), stream[n]).1
  }

  lemma OpensAfter(c: Config, stream: seq<Frame>, t: Tracker)
    requires ConfigOk(c) && t.n < |stream| && !t.s.speaking && IdleAt(c, stream, t)
    ensures var n := t.n + 1; var update := Feed(c, t.s, stream[t.n]).1;
            && update.utterance == []
            && (update.speechDetected <==>
                  t.cut + c.startFrames <= n && AllSpeech(stream, n - c.startFrames, n))
  {
    if |t.s.candidates| + 1 >= c.startFrames && stream[t.n].speech { SpeechRun(c, stream, t); }
  }

  /** Speech is detected exactly when enough of it has come in a row since the last utterance was finished. */
  lemma DetectedExactlyWhen(c: Config, stream: seq<Frame>, n: nat)
    requires ConfigOk(c) && n < |stream| && !StateAfter(c, stream, n).speaking
    ensures var cut := After(c, stream, n).cut;
            && Answer(c, stream, n).utterance == []
            && (Answer(c, stream, n).speechDetected <==>
                  cut + c.startFrames <= n + 1 && AllSpeech(stream, n + 1 - c.startFrames, n + 1))
  {
    EveryStreamIsSound(c, stream, n);
    TrackerState(c, stream, n);
    OpensAfter(c, stream, After(c, stream, n));
  }

  /** The utterance that is the slice of the stream from `start` to `end`. */
  function SliceOf(c: Config, stream: seq<Frame>, start: nat, end: nat, number: nat, command: string): Utterance
    requires start <= end <= |stream|
  {
    Utterance(number, command, Pcm(stream[start..end]), end - start, (end - start) * c.frameMs)
  }

  /** The last frames before `n` are silent, as many as end an utterance. */
  ghost predicate QuietBefore(c: Config, stream: seq<Frame>, n: nat)
    requires ConfigOk(c) && n <= |stream|
  {
    Frames(c, c.endSilenceMs) <= n && AllSilent(stream, n - Frames(c, c.endSilenceMs), n)
  }

  /** Where an utterance ends that silence finished before `n`: after the post-roll, or nowhere. */
  function KeptUpTo(c: Config, start: nat, n: nat): int
    requires ConfigOk(c)
  {
    var end, post := Frames(c, c.endSilenceMs), Frames(c, c.postRollMs);
    if end > post then n - (end - post) else start
  }

  lemma SilenceCounted(c: Config, stream: seq<Frame>, t: Tracker)
    requires ConfigOk(c) && t.n < |stream| && t.s.speaking && SpeakingAt(c, stream, t)
    ensures QuietBefore(c, stream, t.n + 1) <==> !stream[t.n].speech && t.s.silence + 1 >= Frames(c, c.endSilenceMs)
    ensures QuietBefore(c, stream, t.n + 1) ==> t.s.silence + 1 == Frames(c, c.endSilenceMs)
  {
    assert stream[t.n - t.s.silence - 1].speech;
  }

  /**
   An open utterance is finished exactly when it is as long as allowed, and then whole, or when the silence that
   ends it has come, and then cut to the post-roll; one too short is dropped. It belongs to the session of the
   frame that finished it.
   */
  ghost predicate Finishes(c: Config, stream: seq<Frame>, t: Tracker, n: nat, update: Update)
    requires ConfigOk(c) && n < |stream|
  {
    var kept := KeptUpTo(c, t.start, n + 1);
    && t.start <= n + 1 && !update.speechDetected
    && if n + 1 - t.start >= Frames(c, c.maxUtteranceMs) then
         update.utterance == [SliceOf(c, stream, t.start, n + 1, t.s.counter + 1, stream[n].command)]
       else if QuietBefore(c, stream, n + 1) then
         && t.start <= kept <= n + 1
         && update.utterance == if (kept - t.start) * c.frameMs < c.minUtteranceMs then []
                                else [SliceOf(c, stream, t.start, kept, t.s.counter + 1, stream[n].command)]
       else update.utterance == []
  }

  lemma ClosesBySilence(c: Config, stream: seq<Frame>, t: Tracker)
    requires ConfigOk(c) && t.n < |stream| && t.s.speaking && SpeakingAt(c, stream, t)
    requires |t.s.speech| + 1 < Frames(c, c.maxUtteranceMs) && QuietBefore(c, stream, t.n + 1)
    ensures var kept := KeptUpTo(c, t.start, t.n + 1); var u := SilenceEnded(c, t.s, stream[t.n]);
            && t.start <= kept <= t.n + 1
            && u == SliceOf(c, stream, t.start, kept, t.s.counter + 1, stream[t.n].command)
            && Feed(c, t.s, stream[t.n]).1 == Update(false, if u.durationMs < c.minUtteranceMs then [] else [u])
  {
    SilenceCounted(c, stream, t);
    TrimmedSlice(c, stream, t);
  }

  lemma ClosesAfter(c: Config, stream: seq<Frame>, t: Tracker)
    requires ConfigOk(c) && t.n < |stream| && t.s.speaking && SpeakingAt(c, stream, t)
    ensures Finishes(c, stream, t, t.n, Feed(c, t.s, stream[t.n]).1)
  {
    HeardSlice(c, stream, t);
    SilenceCounted(c, stream, t);
    if |t.s.speech| + 1 < Frames(c, c.maxUtteranceMs) && QuietBefore(c, stream, t.n + 1) {
      ClosesBySilence(c, stream, t);
    }
  }

  lemma FinishedExactlyWhen(c: Config, stream: seq<Frame>, n: nat)
    requires ConfigOk(c) && n < |stream| && StateAfter(c, stream, n).speaking
    ensures Finishes(c, stream, After(c, stream, n), n, Answer(c, stream, n))
  {
    EveryStreamIsSound(c, stream, n);
    TrackerState(c, stream, n);
    ClosesAfter(c, stream, After(c, stream, n));
  }

  /** Utterances are numbered in the order they were finished, the dropped ones included. */
  lemma {:induction false} CounterCounts(c: Config, stream: seq<Frame>, n: nat)
    requires ConfigOk(c) && n <= |stream|
    ensures var t := After(c, stream, n); t.s.counter == |t.deliveries| + |t.dropped|
    decreases n
  {
    if n > 0 { CounterCounts(c, stream, n - 1); }
  }

  // ---- What is not missed ----

  ghost predicate Covers(ds: seq<Delivery>, i: nat) { exists k :: 0 <= k < |ds| && ds[k].start <= i < ds[k].end }

  /** The frame lies in an emitted utterance, in one dropped for being short, or in the open one. */
  ghost predicate Covered(t: Tracker, i: nat) {
    (t.s.speaking && t.start <= i < t.n) || Covers(t.deliveries, i) || Covers(t.dropped, i)
  }

  /** Enough speech begins here to open an utterance. */
  ghost predicate Onset(c: Config, stream: seq<Frame>, i: nat) {
    i + c.startFrames <= |stream| && AllSpeech(stream, i, i + c.startFrames)
  }

  lemma CoversMore(ds: seq<Delivery>, d: Delivery, i: nat)
    ensures Covers(ds + [d], i) <==> Covers(ds, i) || d.start <= i < d.end
  {
    if Covers(ds, i) {
      var k :| 0 <= k < |ds| && ds[k].start <= i < ds[k].end;
      assert (ds + [d])[k] == ds[k];
    }
    assert (ds + [d])[|ds|] == d;
  }

  /** However the utterance is finished, its last speech frame is kept. */
  lemma ClosingKeepsSpeech(c: Config, stream: seq<Frame>, t: Tracker, i: nat)
    requires ConfigOk(c) && Proper(c) && t.n < |stream| && SpeakingAt(c, stream, t) && t.s.speaking
    requires t.start <= i <= t.n && stream[i].speech && !Track(c, t, stream[t.n]).s.speaking
    ensures Covered(Track(c, t, stream[t.n]), i)
  {
    var t' := Track(c, t, stream[t.n]);
    if |t.s.speech| + 1 >= Frames(c, c.maxUtteranceMs) {
      var u := Finish(c, t.s, stream[t.n], t.s.speech + [stream[t.n]]).1;
      CoversMore(t.deliveries, DeliveryOf(c, t, u), i);
    } else {
      var u := SilenceEnded(c, t.s, stream[t.n]);
      TrimmedSlice(c, stream, t);
      CoversMore(t.deliveries, DeliveryOf(c, t, u), i);
      CoversMore(t.dropped, DeliveryOf(c, t, u), i);
    }
  }

  lemma StaysCovered(c: Config, stream: seq<Frame>, t: Tracker, i: nat)
    requires ConfigOk(c) && Proper(c) && Sound(c, stream, t) && t.n < |stream|
    requires (t.s.speaking && t.start <= i <= t.n) || Covered(t, i)
    requires i <= t.n && stream[i].speech
    ensures Covered(Track(c, t, stream[t.n]), i)
  {
    var t' := Track(c, t, stream[t.n]);
    if Covers(t.deliveries, i) {
      if t'.deliveries != t.deliveries { CoversMore(t.deliveries, t'.deliveries[|t.deliveries|], i); }
    } else if Covers(t.dropped, i) {
      if t'.dropped != t.dropped { CoversMore(t.dropped, t'.dropped[|t.dropped|], i); }
    } else if !t'.s.speaking {
      ClosingKeepsSpeech(c, stream, t, i);
    }
  }

  /** Until an utterance opens, an idle machine waits with nothing finished since the onset. */
  lemma {:induction false} OnsetWaits(c: Config, stream: seq<Frame>, i: nat, n: nat)
    requires ConfigOk(c) && Proper(c) && Onset(c, stream, i) && i <= n <= i + c.startFrames
    ensures var t := After(c, stream, n);
            Covered(t, i) || (n == i && t.s.speaking && t.start <= i) || (!t.s.speaking && t.cut <= i)
    decreases n
  {
    EveryStreamIsSound(c, stream, n);
    if n > i {
      OnsetWaits(c, stream, i, n - 1);
      EveryStreamIsSound(c, stream, n - 1);
      var t := After(c, stream, n - 1);
      if t.s.speaking || Covered(t, i) { StaysCovered(c, stream, t, i); }
    }
  }

  lemma OnsetIsCovered(c: Config, stream: seq<Frame>, i: nat)
    requires ConfigOk(c) && Proper(c) && Onset(c, stream, i)
    ensures Covered(After(c, stream, i + c.startFrames), i)
  {
    var n := i + c.startFrames;
    OnsetWaits(c, stream, i, n);
    EveryStreamIsSound(c, stream, n);
    var t := After(c, stream, n);
    if !t.s.speaking && t.cut <= i { IdleMissesNone(c, stream, t, i); }
  }

  /** An idle machine has not just heard so much speech. */
  lemma IdleMissesNone(c: Config, stream: seq<Frame>, t: Tracker, i: nat)
    requires ConfigOk(c) && t.n <= |stream| && IdleAt(c, stream, t) && t.cut <= i && i + c.startFrames <= t.n
    ensures !AllSpeech(stream, i, t.n)
  {
    assert !stream[t.n - |t.s.candidates| - 1].speech;
  }

  /** Only what is shorter than the minimum is dropped. */
  lemma {:induction false} DroppedAreShort(c: Config, stream: seq<Frame>, n: nat)
    requires ConfigOk(c) && n <= |stream|
    ensures forall k :: 0 <= k < |After(c, stream, n).dropped| ==>
              After(c, stream, n).dropped[k].u.durationMs < c.minUtteranceMs
    decreases n
  {
    if n > 0 {
      DroppedAreShort(c, stream, n - 1);
      DropIsShort(c, After(c, stream, n - 1), stream[n - 1]);
    }
  }

  lemma DropIsShort(c: Config, t: Tracker, f: Frame)
    requires ConfigOk(c)
    ensures var dropped := Track(c, t, f).dropped;
            dropped == t.dropped || (|dropped| == |t.dropped| + 1 && dropped[..|t.dropped|] == t.dropped
                                     && dropped[|t.dropped|].u.durationMs < c.minUtteranceMs)
  {
  }

  lemma {:induction false} OnsetStaysCovered(c: Config, stream: seq<Frame>, i: nat, n: nat)
    requires ConfigOk(c) && Proper(c) && Onset(c, stream, i) && i + c.startFrames <= n <= |stream|
    ensures Covered(After(c, stream, n), i)
    decreases n
  {
    if n == i + c.startFrames {
      OnsetIsCovered(c, stream, i);
    } else {
      OnsetStaysCovered(c, stream, i, n - 1);
      EveryStreamIsSound(c, stream, n - 1);
      NextCovered(c, stream, After(c, stream, n - 1), i, n);
    }
  }

  lemma NextCovered(c: Config, stream: seq<Frame>, t: Tracker, i: nat, n: nat)
    requires ConfigOk(c) && Proper(c) && 0 < n <= |stream| && t == After(c, stream, n - 1) && t.n == n - 1
             && Sound(c, stream, t)
    requires i < n && stream[i].speech && Covered(t, i)
    ensures Covered(After(c, stream, n), i)
  {
    StaysCovered(c, stream, t, i);
  }

  /** Every onset of a stream lies in an utterance that was emitted, dropped as too short, or is still open. */
  lemma NoOnsetIsMissed(c: Config, stream: seq<Frame>, i: nat)
    requires ConfigOk(c) && Proper(c) && Onset(c, stream, i)
    ensures var t := After(c, stream, |stream|);
            && Covered(t, i) && Utterances(t.deliveries) == Emitted(c, stream, |stream|)
            && (forall k :: 0 <= k < |t.dropped| ==> t.dropped[k].u.durationMs < c.minUtteranceMs)
  {
    OnsetStaysCovered(c, stream, i, |stream|);
    DeliveriesAreTheEmitted(c, stream, |stream|);
    DroppedAreShort(c, stream, |stream|);
  }
}
