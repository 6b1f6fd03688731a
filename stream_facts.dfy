/**
 * What the debate stream loop of src/components/LiveDebate.tsx keeps true from step to step,
 * whatever the chunks: the accumulated text and the consensus log only grow, the published list
 * is the extraction of the accumulated text whenever that extraction is not empty, and consensus
 * calls carry a non-zero score and a message. Also the facts about the JSON-Lines extraction these
 * rest on, and that the published list can shrink and a consensus call can be repeated.
 */
module StreamFacts {
  import opened Wrappers
  import opened Text
  import opened LineBuffer
  import opened LiveDebate
  import opened StreamProofs

  // ---------------------------------------------------------------------------------------
  // The JSON-Lines extraction
  // ---------------------------------------------------------------------------------------

  /** Extraction goes line by line: the records of two runs of lines, one after the other. */
  lemma {:induction false} ExtractFromAppend(p: string -> Option<Msg>, a: seq<string>, b: seq<string>)
    ensures ExtractFrom(p, a + b) == ExtractFrom(p, a) + ExtractFrom(p, b)
    decreases |b|
  {
    if b == [] {
      assert a + b == a;
    } else {
      var init := b[..|b| - 1];
      assert (a + b)[..|a + b| - 1] == a + init;
      assert (a + b)[|a + b| - 1] == b[|b| - 1];
      ExtractFromAppend(p, a, init);
    }
  }

  /** Every extracted record is the parse of one trimmed line, and an accepted one. */
  lemma {:induction false} ExtractFromSound(p: string -> Option<Msg>, lines: seq<string>)
    ensures forall k | 0 <= k < |ExtractFrom(p, lines)| ::
      exists j | 0 <= j < |lines| :: p(Trim(lines[j])) == Some(ExtractFrom(p, lines)[k])
    decreases |lines|
  {
    if lines != [] {
      var init, last := lines[..|lines| - 1], lines[|lines| - 1];
      ExtractFromSound(p, init);
      var r := ExtractFrom(p, lines);
      var front := ExtractFrom(p, init);
      assert r == front + Keep(p, last);
      forall k | 0 <= k < |r|
        ensures exists j | 0 <= j < |lines| :: p(Trim(lines[j])) == Some(r[k])
      {
        if k < |front| {
          var j :| 0 <= j < |init| && p(Trim(init[j])) == Some(front[k]);
          assert lines[j] == init[j];
          assert r[k] == front[k];
        } else {
          assert r[k] == Keep(p, last)[0];
          assert p(Trim(lines[|lines| - 1])) == Some(r[k]);
        }
      }
    } else {
      assert ExtractFrom(p, lines) == [];
    }
  }

  /** No text gives no records. */
  lemma ExtractedEmpty(p: string -> Option<Msg>)
    ensures Extracted(p, "") == []
  {
    assert Split("", '\n') == [""];
    assert ExtractFrom(p, [""]) == ExtractFrom(p, []) + Keep(p, "");
    TrimSpec("");
  }

  /** Extraction reads the complete lines and the pending text after them. */
  lemma ExtractedLines(p: string -> Option<Msg>, text: string)
    ensures Extracted(p, text) == ExtractFrom(p, CompleteLines(text)) + Keep(p, Pending(text))
  {
    SplitLines(text);
    var lines := CompleteLines(text) + [Pending(text)];
    assert lines[..|lines| - 1] == CompleteLines(text);
  }

  /** Whitespace appended on the last line, with no "\n", changes no record. */
  lemma ExtractedAppendSpace(p: string -> Option<Msg>, text: string, w: string)
    requires AllSpace(w) && '\n' !in w
    ensures Extracted(p, text + w) == Extracted(p, text)
  {
    var q := Pending(text);
    LinesAppend(text, w);
    PendingNoNewline(text);
    IndexOfSpec(q + w, '\n');
    assert CompleteLines(q + w) == [];
    assert Pending(q + w) == q + w;
    assert CompleteLines(text) + [] == CompleteLines(text);
    ExtractedLines(p, text + w);
    ExtractedLines(p, text);
    TrimAppendSpace(q, w);
  }

  // ---------------------------------------------------------------------------------------
  // What every step keeps
  // ---------------------------------------------------------------------------------------

  /** From `a` to `b` the accumulated text and the consensus log only grew, and a published list stayed published. */
  predicate Grows(a: Session, b: Session) {
    a.fullText <= b.fullText && a.calls <= b.calls && (a.messages != [] ==> b.messages != [])
  }

  lemma GrowsTrans(a: Session, b: Session, c: Session)
    requires Grows(a, b) && Grows(b, c)
    ensures Grows(a, c)
  {
  }

  /**
   * The published list is the extraction of the accumulated text whenever that extraction is
   * not empty; consensus calls have a non-zero score and a non-empty message; without a
   * handler there are none.
   */
  predicate Inv(cfg: Config, st: Session) {
    (Extracted(cfg.parseMsg, st.fullText) != [] ==> st.messages == Extracted(cfg.parseMsg, st.fullText))
    && (forall k | 0 <= k < |st.calls| :: st.calls[k].score != 0.0 && st.calls[k].message != "")
    && (!cfg.hasHandler ==> st.calls == [])
  }

  lemma StartInv(cfg: Config)
    ensures Inv(cfg, Start())
  {
    ExtractedEmpty(cfg.parseMsg);
  }

  lemma PublishInv(cfg: Config, st: Session)
    requires forall k | 0 <= k < |st.calls| :: st.calls[k].score != 0.0 && st.calls[k].message != ""
    requires !cfg.hasHandler ==> st.calls == []
    ensures Inv(cfg, Publish(cfg, st)) && Grows(st, Publish(cfg, st))
  {
    var msgs := Extracted(cfg.parseMsg, st.fullText);
    if msgs != [] {
      var r := Publish(cfg, st);
      assert Accepted(msgs[|msgs| - 1]);
      forall k | 0 <= k < |r.calls|
        ensures r.calls[k].score != 0.0 && r.calls[k].message != ""
      {
        if k >= |st.calls| {
          assert r.calls[k] == Consensus(msgs[|msgs| - 1].finalScore.value, msgs[|msgs| - 1].message.value);
        }
      }
    }
  }

  lemma DeliverInv(cfg: Config, st: Session, frame: Frame)
    requires Inv(cfg, st)
    ensures Inv(cfg, Deliver(cfg, st, frame)) && Grows(st, Deliver(cfg, st, frame))
  {
    if Truthy(frame.content) {
      var s1 := st.(fullText := st.fullText + frame.content.value);
      PublishInv(cfg, s1);
    }
  }

  /** A line applied keeps the invariant and only grows the session. */
  lemma ApplyLineInv(cfg: Config, st: Session, raw: string)
    requires Inv(cfg, st)
    ensures Inv(cfg, ApplyLine(cfg, st, raw)) && Grows(st, ApplyLine(cfg, st, raw))
  {
    match Classify(StripCR(raw))
    case Payload(json) =>
      if cfg.parseFrame(json).Some? {
        DeliverInv(cfg, st, cfg.parseFrame(json).value);
      }
    case _ =>
  }

  /** The inner loop on a buffer whose first complete line is "[DONE]". */
  lemma DrainDone(cfg: Config, st: Session)
    requires IndexOf(st.textBuffer, '\n') >= 0
    requires IsDone(st.textBuffer[..IndexOf(st.textBuffer, '\n')])
    ensures Drain(cfg, st) == st.(textBuffer := st.textBuffer[IndexOf(st.textBuffer, '\n') + 1..])
  {
  }

  /** The inner loop keeps the invariant and only grows the session. */
  lemma {:induction false} DrainInv(cfg: Config, st: Session)
    requires Inv(cfg, st)
    ensures Inv(cfg, Drain(cfg, st)) && Grows(st, Drain(cfg, st))
    decreases |st.textBuffer|
  {
    var i := IndexOf(st.textBuffer, '\n');
    if i >= 0 {
      var raw, rest := st.textBuffer[..i], st.textBuffer[i + 1..];
      if Good(cfg, raw) {
        DrainOnce(cfg, st);
        var next := ApplyLine(cfg, st.(textBuffer := rest), raw);
        ApplyLineInv(cfg, st.(textBuffer := rest), raw);
        DrainInv(cfg, next);
      } else if IsDone(raw) {
        DrainDone(cfg, st);
      } else {
        DrainBlocked(cfg, st);
      }
    }
  }

  /** The whole read loop keeps the invariant and only grows the session, whatever the chunks. */
  lemma {:induction false} RunInv(cfg: Config, st: Session, chunks: seq<string>)
    requires Inv(cfg, st)
    ensures Inv(cfg, Run(cfg, st, chunks)) && Grows(st, Run(cfg, st, chunks))
    decreases |chunks|
  {
    if chunks != [] {
      var init := chunks[..|chunks| - 1];
      RunInv(cfg, st, init);
      var x := Run(cfg, st, init);
      DrainInv(cfg, x.(textBuffer := x.textBuffer + chunks[|chunks| - 1]));
    }
  }

  /** From the start of a session. */
  lemma RunFromStart(cfg: Config, chunks: seq<string>)
    ensures var s := Run(cfg, Start(), chunks);
      Inv(cfg, s) && (Extracted(cfg.parseMsg, s.fullText) != [] ==> s.messages == Extracted(cfg.parseMsg, s.fullText))
  {
    StartInv(cfg);
    RunInv(cfg, Start(), chunks);
  }

  // ---------------------------------------------------------------------------------------
  // The published list can shrink; consensus can fire again
  // ---------------------------------------------------------------------------------------

  /**
   * A consensus call is made again for every later frame that only adds whitespace to the last
   * line: the last record is still the terminal one, and the check runs after every append.
   */
  lemma ConsensusRefires(cfg: Config, st: Session, w: string)
    requires cfg.hasHandler
    requires w != "" && AllSpace(w) && '\n' !in w
    requires var m := Extracted(cfg.parseMsg, st.fullText); m != [] && IsConsensus(m[|m| - 1])
    ensures var m := Extracted(cfg.parseMsg, st.fullText);
      Deliver(cfg, st, Frame(Some(w))).calls
        == st.calls + [Consensus(m[|m| - 1].finalScore.value, m[|m| - 1].message.value)]
  {
    ExtractedAppendSpace(cfg.parseMsg, st.fullText, w);
  }

  /**
   * The published list can get shorter: a frame that extends the last line of `fullText` can
   * turn a record that parsed into one that does not, and the shorter extraction replaces the list.
   */
  lemma MessagesCanShrink(cfg: Config, st: Session, x: string, c: string)
    requires '\n' !in x && '\n' !in c && c != ""
    requires Keep(cfg.parseMsg, x) != [] && Keep(cfg.parseMsg, x + c) == []
    requires st.fullText == x + "\n" + x && st.messages == Extracted(cfg.parseMsg, st.fullText)
    ensures |Deliver(cfg, st, Frame(Some(c))).messages| == |st.messages| - 1
  {
    var k := Keep(cfg.parseMsg, x);
    ExtractedTwoLines(cfg.parseMsg, x, x);
    assert st.messages == k + k;
    assert '\n' !in x + c;
    var t := x + "\n" + (x + c);
    assert st.fullText + c == t;
    ExtractedTwoLines(cfg.parseMsg, x, x + c);
    assert Extracted(cfg.parseMsg, t) == k;
    PublishMessages(cfg, st.(fullText := t));
  }

  lemma PublishMessages(cfg: Config, st: Session)
    requires Extracted(cfg.parseMsg, st.fullText) != []
    ensures Publish(cfg, st).messages == Extracted(cfg.parseMsg, st.fullText)
  {
  }

  /**
   * "[DONE]" makes the result depend on the chunking: a "[DONE]" line followed by a payload
   * line, sent in one chunk, stops before the payload; sent in two chunks, the outer loop reads
   * on and the payload is delivered.
   */
  lemma DoneDependsOnChunking(cfg: Config, d: string, y: string)
    requires '\n' !in d && IsDone(d)
    requires '\n' !in y && Classify(StripCR(y)).Payload?
    requires var f := cfg.parseFrame(Classify(StripCR(y)).json); f.Some? && Truthy(f.value.content)
    ensures Concat([d + "\n" + y + "\n"]) == Concat([d + "\n", y + "\n"])
    ensures Run(cfg, Start(), [d + "\n" + y + "\n"]).fullText == ""
    ensures Run(cfg, Start(), [d + "\n", y + "\n"]).fullText
      == cfg.parseFrame(Classify(StripCR(y)).json).value.content.value
  {
    DoneInOneChunk(cfg, d, y);
    DoneThenPayload(cfg, d, y);
  }

  lemma DoneInOneChunk(cfg: Config, d: string, y: string)
    requires '\n' !in d && IsDone(d)
    ensures Concat([d + "\n" + y + "\n"]) == Concat([d + "\n", y + "\n"])
    ensures Run(cfg, Start(), [d + "\n" + y + "\n"]).fullText == ""
  {
    var c1, c2 := d + "\n", y + "\n";
    RunOne(cfg, Start(), c1);
    RunOne(cfg, Start(), d + "\n" + y + "\n");
    assert [c1, c2][..1] == [c1];
    assert d + "\n" + y + "\n" == d + "\n" + c2;
    DoneOneChunk(cfg, d, c2);
  }

  lemma DoneThenPayload(cfg: Config, d: string, y: string)
    requires '\n' !in d && IsDone(d)
    requires '\n' !in y && Classify(StripCR(y)).Payload?
    requires var f := cfg.parseFrame(Classify(StripCR(y)).json); f.Some? && Truthy(f.value.content)
    ensures Run(cfg, Start(), [d + "\n", y + "\n"]).fullText
      == cfg.parseFrame(Classify(StripCR(y)).json).value.content.value
  {
    var c1, c2 := d + "\n", y + "\n";
    RunOne(cfg, Start(), c1);
    assert [c1, c2][..1] == [c1];
    assert c1 == d + "\n" + "";
    DoneOneChunk(cfg, d, "");
    assert Start().(textBuffer := "") == Start();
    assert Run(cfg, Start(), [c1, c2]) == Step(cfg, Start(), c2);
    PayloadChunk(cfg, y);
    DeliverText(cfg, Start(), cfg.parseFrame(Classify(StripCR(y)).json).value);
  }

  lemma DeliverText(cfg: Config, st: Session, frame: Frame)
    requires Truthy(frame.content)
    ensures Deliver(cfg, st, frame).fullText == st.fullText + frame.content.value
  {
  }

  /** A chunk that starts with a "[DONE]" line: its rest stays in the buffer unread. */
  lemma DoneOneChunk(cfg: Config, d: string, rest: string)
    requires '\n' !in d && IsDone(d)
    ensures Step(cfg, Start(), d + "\n" + rest) == Start().(textBuffer := rest)
  {
    var c := d + "\n" + rest;
    assert c == d + ['\n'] + rest;
    IndexOfFirst(d, '\n', rest);
    assert c[..|d|] == d && c[|d| + 1..] == rest;
    assert Start().(textBuffer := Start().textBuffer + c) == Start().(textBuffer := c);
    DrainDone(cfg, Start().(textBuffer := c));
  }

  /** A chunk that is one payload line, on a fresh session: its frame is delivered. */
  lemma PayloadChunk(cfg: Config, y: string)
    requires '\n' !in y && Classify(StripCR(y)).Payload?
    requires cfg.parseFrame(Classify(StripCR(y)).json).Some?
    ensures Step(cfg, Start(), y + "\n") == Deliver(cfg, Start(), cfg.parseFrame(Classify(StripCR(y)).json).value)
  {
    var c := y + "\n";
    assert c == y + ['\n'] + "";
    IndexOfFirst(y, '\n', "");
    var st := Start().(textBuffer := c);
    assert Start().(textBuffer := Start().textBuffer + c) == st;
    assert st.textBuffer[..|y|] == y && st.textBuffer[|y| + 1..] == "";
    DrainOnce(cfg, st);
    var frame := cfg.parseFrame(Classify(StripCR(y)).json).value;
    assert Start().(textBuffer := "") == Start();
    IndexOfSpec("", '\n');
  }

  lemma RunOne(cfg: Config, st: Session, c: string)
    ensures Run(cfg, st, [c]) == Step(cfg, st, c) && Concat([c]) == c
  {
    assert [c][..0] == [];
  }

  /** Two lines of text give the records of the first and then of the second. */
  lemma ExtractedTwoLines(p: string -> Option<Msg>, x: string, y: string)
    requires '\n' !in x && '\n' !in y
    ensures Extracted(p, x + "\n" + y) == Keep(p, x) + Keep(p, y)
  {
    assert x + "\n" + y == x + ['\n'] + y;
    SplitAfterFirst(x, '\n', y);
    OneLineText(y);
    ExtractFromAppend(p, [x], [y]);
    assert ExtractFrom(p, [x]) == ExtractFrom(p, []) + Keep(p, x);
    assert ExtractFrom(p, [y]) == ExtractFrom(p, []) + Keep(p, y);
  }

  /** A line without "\n" splits into itself. */
  lemma OneLineText(t: string)
    requires '\n' !in t
    ensures Split(t, '\n') == [t]
  {
    IndexOfSpec(t, '\n');
  }
}
