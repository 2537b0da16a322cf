/** The utterance assembler with its lists and counters updated in place. */
module VadMachine {
  import opened Collections
  import opened Vad

  class VadStateMachine {
    const config: Config
    var speaking: bool
    var preRoll: seq<Frame>
    var speech: seq<Frame>
    var candidates: seq<Frame>
    var silence: nat
    var counter: nat

    ghost predicate Valid() { ConfigOk(config) }

    function View(): State
      reads this
    {
      State(speaking, preRoll, speech, candidates, silence, counter)
    }

    constructor (config: Config)
      requires ConfigOk(config)
      ensures Valid() && this.config == config && View() == QUIET
    {
      this.config := config;
      speaking, preRoll, speech, candidates, silence, counter := false, [], [], [], 0, 0;
    }

    method FeedFrame(f: Frame) returns (update: Update)
      requires Valid()
      modifies this
      ensures (View(), update) == Feed(config, old(View()), f)
    {
      if !speaking {
        preRoll := PushBounded(preRoll, f, Frames(config, config.preRollMs));
        if !f.speech {
          candidates := [];
          return NOTHING;
        }
        candidates := candidates + [f];
        if |candidates| < config.startFrames { return NOTHING; }
        speaking, speech, silence := true, preRoll, 0;
        return Update(true, []);
      }
      speech := speech + [f];
      silence := if f.speech then 0 else silence + 1;
      if |speech| >= Frames(config, config.maxUtteranceMs) {
        var utterance := FinishWith(f, speech);
        return Update(false, [utterance]);
      }
      if silence >= Frames(config, config.endSilenceMs) {
        var utterance := FinishWith(f, DropTail(speech, TrimSilence(config, silence)));
        return Update(false, if utterance.durationMs < config.minUtteranceMs then [] else [utterance]);
      }
      update := NOTHING;
    }

    method FinishWith(f: Frame, selected: seq<Frame>) returns (utterance: Utterance)
      modifies this
      ensures (View(), utterance) == Finish(config, old(View()), f, selected)
    {
      counter := counter + 1;
      utterance := Utterance(counter, f.command, Pcm(selected), |selected|, |selected| * config.frameMs);
      speaking, speech, candidates, silence, preRoll := false, [], [], 0, [];
    }
  }
}
