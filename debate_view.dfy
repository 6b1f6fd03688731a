/**
 * The `LiveDebate` component of src/components/LiveDebate.tsx as an object: its React state and
 * the `onConsensus` calls it makes, updated by `startDebate`.
 */
module DebateComponent {
  import opened Text
  import opened LiveDebate
  import opened StreamFacts

  /**
   * One mounted component: `started`, `isStreaming`, the published `messages`, the raw
   * `streamBuffer`, and the log of `onConsensus` calls made so far. `cfg` holds the two
   * parsers and whether an `onConsensus` callback was passed in.
   */
  class DebateView {
    const cfg: Config
    var started: bool
    var isStreaming: bool
    var messages: seq<Msg>
    var streamBuffer: string
    var consensusCalls: seq<Consensus>

    /** Every logged call has a non-zero score and a message, and there are none without a callback. */
    predicate Valid()
      reads this
    {
      (forall k | 0 <= k < |consensusCalls| :: consensusCalls[k].score != 0.0 && consensusCalls[k].message != "")
      && (!cfg.hasHandler ==> consensusCalls == [])
    }

    /** The state before the "start" button is pressed (lines 23-26). */
    constructor (cfg: Config)
      ensures this.cfg == cfg && Valid()
      ensures !started && !isStreaming && messages == [] && streamBuffer == "" && consensusCalls == []
    {
      this.cfg := cfg;
      started, isStreaming := false, false;
      messages, streamBuffer := [], "";
      consensusCalls := [];
    }

    /**
     * `startDebate` (lines 39-129). `responseOk` stands for `resp.ok && resp.body`, `chunks`
     * for the decoded chunks the reader returns before `done`. A failed response is thrown
     * and caught, leaving the cleared state; either way streaming ends in `finally`.
     * When the extraction of the shown text is not empty, it is the list on screen, and
     * the calls made during the stream extend the log.
     */
    method StartDebate(responseOk: bool, chunks: seq<string>)
      requires Valid()
      modifies this
      ensures Valid() && started && !isStreaming
      ensures responseOk ==> var s := Run(cfg, Start(), chunks);
        messages == s.messages && streamBuffer == s.fullText && consensusCalls == old(consensusCalls) + s.calls
      ensures responseOk && Extracted(cfg.parseMsg, streamBuffer) != [] ==> messages == Extracted(cfg.parseMsg, streamBuffer)
      ensures !responseOk ==> messages == [] && streamBuffer == "" && consensusCalls == old(consensusCalls)
    {
      started, isStreaming := true, true;
      messages, streamBuffer := [], "";
      if responseOk {
        var s := ReadStream(cfg, chunks);
        RunFromStart(cfg, chunks);
        messages, streamBuffer := s.messages, s.fullText;
        consensusCalls := consensusCalls + s.calls;
      }
      isStreaming := false;
    }
  }
}
