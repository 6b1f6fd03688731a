/**
 * Properties of the debate stream loop of src/components/LiveDebate.tsx, stated on the
 * functions `Drain`, `Step` and `Run` that its methods are proved against.
 *
 * The central result is chunk invariance: when no complete line is the "[DONE]" marker and
 * every `data: ` payload parses, the loop ends in the same state however the stream text was
 * cut into chunks. Both side conditions are needed; the last lemmas show what each one does.
 */
module StreamProofs {
  import opened Wrappers
  import opened Text
  import opened LiveDebate
  import opened LineBuffer
  import opened Seqs

  // ---------------------------------------------------------------------------------------
  // The effect of one complete line
  // ---------------------------------------------------------------------------------------

  /** A line that neither ends the inner loop early nor blocks it: not "[DONE]", and a payload that parses. */
  predicate Good(cfg: Config, raw: string) {
    match Classify(StripCR(raw))
    case Ignored => true
    case DoneMarker => false
    case Payload(json) => cfg.parseFrame(json).Some?
  }

  /** `Good` as a test on lines. */
  function GoodLine(cfg: Config): string -> bool {
    (raw: string) => Good(cfg, raw)
  }

  predicate AllGood(cfg: Config, lines: seq<string>) {
    All(lines, GoodLine(cfg))
  }

  /** What a complete line does to the session when the inner loop goes on past it. */
  function ApplyLine(cfg: Config, st: Session, raw: string): (r: Session)
    ensures r.textBuffer == st.textBuffer
  {
    match Classify(StripCR(raw))
    case Payload(json) =>
      (match cfg.parseFrame(json)
       case Some(frame) => Deliver(cfg, st, frame)
       case None => st)
    case _ => st
  }

  /** The complete lines applied in order. */
  function ApplyAll(cfg: Config, st: Session, lines: seq<string>): (r: Session)
    ensures r.textBuffer == st.textBuffer
    decreases |lines|
  {
    if lines == [] then st else ApplyAll(cfg, ApplyLine(cfg, st, lines[0]), lines[1..])
  }

  /** Delivering a frame does not look at the line buffer. */
  lemma DeliverBuffer(cfg: Config, st: Session, frame: Frame, b: string)
    ensures Deliver(cfg, st.(textBuffer := b), frame) == Deliver(cfg, st, frame).(textBuffer := b)
  {
    if Truthy(frame.content) {
      var s1 := st.(fullText := st.fullText + frame.content.value);
      assert st.(textBuffer := b).(fullText := st.fullText + frame.content.value) == s1.(textBuffer := b);
    }
  }

  lemma ApplyLineBuffer(cfg: Config, st: Session, raw: string, b: string)
    ensures ApplyLine(cfg, st.(textBuffer := b), raw) == ApplyLine(cfg, st, raw).(textBuffer := b)
  {
    match Classify(StripCR(raw))
    case Payload(json) =>
      if cfg.parseFrame(json).Some? {
        DeliverBuffer(cfg, st, cfg.parseFrame(json).value, b);
      }
    case _ =>
  }

  /** Applying lines does not look at the line buffer. */
  lemma {:induction false} ApplyAllBuffer(cfg: Config, st: Session, lines: seq<string>, b: string)
    ensures ApplyAll(cfg, st.(textBuffer := b), lines) == ApplyAll(cfg, st, lines).(textBuffer := b)
    decreases |lines|
  {
    if lines != [] {
      ApplyLineBuffer(cfg, st, lines[0], b);
      ApplyAllBuffer(cfg, ApplyLine(cfg, st, lines[0]), lines[1..], b);
    }
  }

  lemma {:induction false} ApplyAllAppend(cfg: Config, st: Session, a: seq<string>, b: seq<string>)
    ensures ApplyAll(cfg, st, a + b) == ApplyAll(cfg, ApplyAll(cfg, st, a), b)
    decreases |a|
  {
    if a != [] {
      assert (a + b)[0] == a[0];
      assert (a + b)[1..] == a[1..] + b;
      ApplyAllAppend(cfg, ApplyLine(cfg, st, a[0]), a[1..], b);
    } else {
      assert a + b == b;
    }
  }

  /** One good line taken from the front of the buffer: the inner loop goes on with that line applied. */
  lemma DrainOnce(cfg: Config, st: Session)
    requires IndexOf(st.textBuffer, '\n') >= 0
    requires Good(cfg, st.textBuffer[..IndexOf(st.textBuffer, '\n')])
    ensures var i := IndexOf(st.textBuffer, '\n');
      Drain(cfg, st) == Drain(cfg, ApplyLine(cfg, st.(textBuffer := st.textBuffer[i + 1..]), st.textBuffer[..i]))
  {
  }

  lemma AllGoodCons(cfg: Config, x: string, xs: seq<string>)
    ensures AllGood(cfg, [x] + xs) <==> Good(cfg, x) && AllGood(cfg, xs)
  {
    AllCons(x, xs, GoodLine(cfg));
  }

  /** When every complete line of the buffer is good, the inner loop applies them all and keeps the pending text. */
  lemma {:induction false} DrainGood(cfg: Config, st: Session)
    requires AllGood(cfg, CompleteLines(st.textBuffer))
    ensures Drain(cfg, st) == ApplyAll(cfg, st.(textBuffer := Pending(st.textBuffer)), CompleteLines(st.textBuffer))
    decreases |st.textBuffer|
  {
    var buf := st.textBuffer;
    var i := IndexOf(buf, '\n');
    if i < 0 {
      assert st.(textBuffer := Pending(buf)) == st;
    } else {
      var raw, rest := buf[..i], buf[i + 1..];
      var pend := Pending(rest);
      var next := ApplyLine(cfg, st.(textBuffer := rest), raw);
      assert CompleteLines(buf) == [raw] + CompleteLines(rest) && Pending(buf) == pend by {
        LinesCons(buf);
      }
      assert AllGood(cfg, CompleteLines(rest)) by {
        AllGoodCons(cfg, raw, CompleteLines(rest));
      }
      assert Drain(cfg, st) == Drain(cfg, next) by {
        AllGoodCons(cfg, raw, CompleteLines(rest));
        DrainOnce(cfg, st);
      }
      DrainGood(cfg, next);
      assert next.(textBuffer := pend) == ApplyLine(cfg, st.(textBuffer := pend), raw) by {
        ApplyLineBuffer(cfg, st.(textBuffer := rest), raw, pend);
        assert st.(textBuffer := rest).(textBuffer := pend) == st.(textBuffer := pend);
      }
      ApplyAllCons(cfg, st.(textBuffer := pend), raw, CompleteLines(rest));
    }
  }

  lemma ApplyAllCons(cfg: Config, st: Session, x: string, xs: seq<string>)
    ensures ApplyAll(cfg, st, [x] + xs) == ApplyAll(cfg, ApplyLine(cfg, st, x), xs)
  {
    assert ([x] + xs)[0] == x;
    assert ([x] + xs)[1..] == xs;
  }

  /** After the whole stream, a session whose lines are all good is the complete lines applied in order. */
  lemma {:induction false} RunGood(cfg: Config, chunks: seq<string>)
    requires AllGood(cfg, CompleteLines(Concat(chunks)))
    ensures Run(cfg, Start(), chunks)
      == ApplyAll(cfg, Start().(textBuffer := Pending(Concat(chunks))), CompleteLines(Concat(chunks)))
  {
    if chunks != [] {
      var init, c := chunks[..|chunks| - 1], chunks[|chunks| - 1];
      var t := Concat(init);
      var p := Pending(t);
      var lt, lc := CompleteLines(t), CompleteLines(p + c);
      var q := Pending(p + c);
      assert CompleteLines(t + c) == lt + lc && Pending(t + c) == q by {
        LinesAppend(t, c);
      }
      assert AllGood(cfg, lt) && AllGood(cfg, lc) by {
        AllGoodAppend(cfg, lt, lc);
      }
      RunGood(cfg, init);
      var x := Run(cfg, Start(), init);
      assert Drain(cfg, x.(textBuffer := p + c)) == ApplyAll(cfg, x.(textBuffer := q), lc) by {
        DrainGood(cfg, x.(textBuffer := p + c));
      }
      assert x.(textBuffer := q) == ApplyAll(cfg, Start().(textBuffer := q), lt) by {
        ApplyAllBuffer(cfg, Start().(textBuffer := p), lt, q);
        assert Start().(textBuffer := p).(textBuffer := q) == Start().(textBuffer := q);
      }
      ApplyAllAppend(cfg, Start().(textBuffer := q), lt, lc);
    }
  }

  lemma ConcatSingle(text: string)
    ensures Concat([text]) == text
  {
    assert [text][..0] == [];
  }

  /**
   * Chunk invariance: with no "[DONE]" line and every payload parsing, feeding the stream
   * in any number of chunks ends in the same state as feeding it in one piece.
   */
  lemma ChunkInvariance(cfg: Config, chunks: seq<string>)
    requires AllGood(cfg, CompleteLines(Concat(chunks)))
    ensures Run(cfg, Start(), chunks) == Run(cfg, Start(), [Concat(chunks)])
  {
    ConcatSingle(Concat(chunks));
    RunGood(cfg, chunks);
    RunGood(cfg, [Concat(chunks)]);
  }

  /** Any two chunkings of one text end in the same state, `fullText` included. */
  lemma SameTextSameState(cfg: Config, a: seq<string>, b: seq<string>)
    requires Concat(a) == Concat(b)
    requires AllGood(cfg, CompleteLines(Concat(a)))
    ensures Run(cfg, Start(), a) == Run(cfg, Start(), b)
    ensures Run(cfg, Start(), a).fullText == Run(cfg, Start(), b).fullText
  {
    ChunkInvariance(cfg, a);
    ChunkInvariance(cfg, b);
  }

  /**
   * Text after the last "\n" of the stream is left in the buffer and never reaches the state:
   * the session ends as if the stream had stopped right after its last "\n".
   */
  lemma PendingLeftOver(cfg: Config, chunks: seq<string>)
    requires AllGood(cfg, CompleteLines(Concat(chunks)))
    ensures Run(cfg, Start(), chunks).textBuffer == Pending(Concat(chunks))
    ensures Run(cfg, Start(), chunks) == Run(cfg, Start(), [Head(Concat(chunks))]).(textBuffer := Pending(Concat(chunks)))
  {
    var text := Concat(chunks);
    RunGood(cfg, chunks);
    HeadLines(text);
    ConcatSingle(Head(text));
    RunGood(cfg, [Head(text)]);
    assert Start().(textBuffer := "") == Start();
    ApplyAllBuffer(cfg, Start(), CompleteLines(text), Pending(text));
  }

  // ---------------------------------------------------------------------------------------
  // A payload that does not parse blocks the stream for good
  // ---------------------------------------------------------------------------------------

  /** A complete line whose payload does not parse: the inner loop puts it back and stops. */
  predicate Blocks(cfg: Config, raw: string) {
    match Classify(StripCR(raw))
    case Payload(json) => cfg.parseFrame(json).None?
    case _ => false
  }

  predicate IsDone(raw: string) {
    Classify(StripCR(raw)).DoneMarker?
  }

  /** The lines that are not "[DONE]". */
  function NotDone(): string -> bool {
    (raw: string) => !IsDone(raw)
  }

  predicate NoDone(lines: seq<string>) {
    All(lines, NotDone())
  }

  /** The buffer starts with a blocking line: no later chunk can change the session any more. */
  predicate Stuck(cfg: Config, st: Session) {
    var i := IndexOf(st.textBuffer, '\n');
    i >= 0 && Blocks(cfg, st.textBuffer[..i])
  }

  /** What the component can show of a session: everything but the line buffer. */
  function View(st: Session): (r: Session)
    ensures r.textBuffer == "" && r.fullText == st.fullText && r.messages == st.messages && r.calls == st.calls
  {
    st.(textBuffer := "")
  }

  /** The complete lines before the first one that is not good. */
  function Upto(cfg: Config, lines: seq<string>): seq<string> {
    TakeWhile(lines, GoodLine(cfg))
  }

  /** A removed "\r" does not change how a line is read. */
  lemma ClassifyCR(y: string)
    ensures Classify(y + "\r") == Classify(y)
  {
    var x := y + "\r";
    TrimAppendSpace(y, "\r");
    if y == [] {
      TrimSpec(x);
    } else {
      assert x[..1] == y[..1];
      assert StartsWith(x, "data: ") <==> StartsWith(y, "data: ") by {
        if |y| >= 6 {
          assert x[..6] == y[..6];
        }
      }
      if StartsWith(y, "data: ") {
        assert x[6..] == y[6..] + "\r";
        TrimAppendSpace(y[6..], "\r");
      }
    }
  }

  lemma ClassifyStrip(x: string)
    ensures Classify(StripCR(x)) == Classify(x)
  {
    if EndsWith(x, "\r") {
      var y := x[..|x| - 1];
      assert x == y + "\r";
      ClassifyCR(y);
    }
  }

  /** A blocking line put back in front of any text leaves the buffer stuck. */
  lemma PutBackStuck(cfg: Config, st: Session, raw: string, rest: string)
    requires '\n' !in raw && Blocks(cfg, raw)
    ensures Stuck(cfg, st.(textBuffer := StripCR(raw) + "\n" + rest))
  {
    var line := StripCR(raw);
    assert line <= raw;
    assert '\n' !in line;
    var buf := line + "\n" + rest;
    assert buf == line + ['\n'] + rest;
    IndexOfFirst(line, '\n', rest);
    assert buf[..|line|] == line;
    ClassifyStrip(line);
  }

  /** The inner loop on a buffer whose first complete line blocks. */
  lemma DrainBlocked(cfg: Config, st: Session)
    requires IndexOf(st.textBuffer, '\n') >= 0
    requires Blocks(cfg, st.textBuffer[..IndexOf(st.textBuffer, '\n')])
    ensures var i := IndexOf(st.textBuffer, '\n');
      Drain(cfg, st) == st.(textBuffer := StripCR(st.textBuffer[..i]) + "\n" + st.textBuffer[i + 1..])
  {
  }

  /** Text appended behind a blocking line leaves it the first complete line. */
  lemma AppendStuck(cfg: Config, st: Session, chunk: string)
    requires Stuck(cfg, st)
    ensures Stuck(cfg, st.(textBuffer := st.textBuffer + chunk))
  {
    var buf := st.textBuffer;
    var i := IndexOf(buf, '\n');
    IndexOfAppend(buf, '\n', chunk);
    assert (buf + chunk)[..i] == buf[..i];
    StuckIntro(cfg, st.(textBuffer := buf + chunk), buf[..i]);
  }

  lemma StuckIntro(cfg: Config, st: Session, raw: string)
    requires IndexOf(st.textBuffer, '\n') == |raw| && st.textBuffer[..|raw|] == raw && Blocks(cfg, raw)
    ensures Stuck(cfg, st)
  {
  }

  /** A stuck buffer drains to a stuck buffer and nothing else changes. */
  lemma DrainStuck(cfg: Config, st: Session)
    requires Stuck(cfg, st)
    ensures Stuck(cfg, Drain(cfg, st)) && View(Drain(cfg, st)) == View(st)
  {
    var buf := st.textBuffer;
    var i := IndexOf(buf, '\n');
    IndexOfSpec(buf, '\n');
    DrainBlocked(cfg, st);
    PutBackStuck(cfg, st, buf[..i], buf[i + 1..]);
  }

  /** Once stuck, a chunk changes nothing the component shows, and the session stays stuck. */
  lemma StepStuck(cfg: Config, st: Session, chunk: string)
    requires Stuck(cfg, st)
    ensures Stuck(cfg, Step(cfg, st, chunk)) && View(Step(cfg, st, chunk)) == View(st)
  {
    var x := st.(textBuffer := st.textBuffer + chunk);
    AppendStuck(cfg, st, chunk);
    DrainStuck(cfg, x);
    assert View(x) == View(st);
  }

  lemma {:induction false} RunStuck(cfg: Config, st: Session, chunks: seq<string>)
    requires Stuck(cfg, st)
    ensures Stuck(cfg, Run(cfg, st, chunks)) && View(Run(cfg, st, chunks)) == View(st)
    decreases |chunks|
  {
    if chunks != [] {
      RunStuck(cfg, st, chunks[..|chunks| - 1]);
      StepStuck(cfg, Run(cfg, st, chunks[..|chunks| - 1]), chunks[|chunks| - 1]);
    }
  }

  // ---------------------------------------------------------------------------------------
  // Without "[DONE]", the visible state does not depend on the chunking
  // ---------------------------------------------------------------------------------------

  lemma AllGoodAppend(cfg: Config, a: seq<string>, b: seq<string>)
    ensures AllGood(cfg, a + b) <==> AllGood(cfg, a) && AllGood(cfg, b)
  {
    AllAppend(a, b, GoodLine(cfg));
  }

  lemma NoDoneAppend(a: seq<string>, b: seq<string>)
    ensures NoDone(a + b) <==> NoDone(a) && NoDone(b)
  {
    AllAppend(a, b, NotDone());
  }

  lemma UptoCons(cfg: Config, x: string, xs: seq<string>)
    ensures Upto(cfg, [x] + xs) == if Good(cfg, x) then [x] + Upto(cfg, xs) else []
  {
    TakeWhileCons(x, xs, GoodLine(cfg));
  }

  /** The lines before the first bad one of `a + b`: all of `a` and then those of `b`, when `a` is all good. */
  lemma UptoAppend(cfg: Config, a: seq<string>, b: seq<string>)
    ensures Upto(cfg, a + b) == if AllGood(cfg, a) then a + Upto(cfg, b) else Upto(cfg, a)
  {
    TakeWhileAppend(a, b, GoodLine(cfg));
  }

  lemma NoDoneCons(x: string, xs: seq<string>)
    ensures NoDone([x] + xs) <==> !IsDone(x) && NoDone(xs)
  {
    AllCons(x, xs, NotDone());
  }

  /**
   * With a blocking line among the complete lines and no "[DONE]" before it, the inner loop
   * applies the lines before the blocking one and gets stuck.
   */
  lemma {:induction false} DrainUntil(cfg: Config, st: Session)
    requires NoDone(CompleteLines(st.textBuffer))
    requires !AllGood(cfg, CompleteLines(st.textBuffer))
    ensures Stuck(cfg, Drain(cfg, st))
    ensures View(Drain(cfg, st)) == View(ApplyAll(cfg, st, Upto(cfg, CompleteLines(st.textBuffer))))
    decreases |st.textBuffer|, 1
  {
    var buf := st.textBuffer;
    assert CompleteLines(buf) != [];
    LinesFound(buf);
    var i := IndexOf(buf, '\n');
    if Good(cfg, buf[..i]) {
      DrainUntilGood(cfg, st);
    } else {
      DrainUntilBad(cfg, st);
    }
  }

  /** The first complete line is good: it is applied and the inner loop goes on with the rest. */
  lemma {:induction false} DrainUntilGood(cfg: Config, st: Session)
    requires NoDone(CompleteLines(st.textBuffer))
    requires !AllGood(cfg, CompleteLines(st.textBuffer))
    requires IndexOf(st.textBuffer, '\n') >= 0 && Good(cfg, st.textBuffer[..IndexOf(st.textBuffer, '\n')])
    ensures Stuck(cfg, Drain(cfg, st))
    ensures View(Drain(cfg, st)) == View(ApplyAll(cfg, st, Upto(cfg, CompleteLines(st.textBuffer))))
    decreases |st.textBuffer|, 0
  {
    var buf := st.textBuffer;
    var i := IndexOf(buf, '\n');
    var raw, rest := buf[..i], buf[i + 1..];
    var next := ApplyLine(cfg, st.(textBuffer := rest), raw);
    LinesCons(buf);
    assert NoDone(CompleteLines(next.textBuffer)) by {
      NoDoneCons(raw, CompleteLines(rest));
    }
    assert !AllGood(cfg, CompleteLines(next.textBuffer)) by {
      AllGoodCons(cfg, raw, CompleteLines(rest));
    }
    DrainOnce(cfg, st);
    DrainUntil(cfg, next);
    UptoCons(cfg, raw, CompleteLines(rest));
    ViewStep(cfg, st, raw, rest, Upto(cfg, CompleteLines(rest)));
  }

  /** The first complete line is not good and not "[DONE]": its payload blocks the inner loop. */
  lemma DrainUntilBad(cfg: Config, st: Session)
    requires NoDone(CompleteLines(st.textBuffer))
    requires IndexOf(st.textBuffer, '\n') >= 0 && !Good(cfg, st.textBuffer[..IndexOf(st.textBuffer, '\n')])
    ensures Stuck(cfg, Drain(cfg, st))
    ensures View(Drain(cfg, st)) == View(ApplyAll(cfg, st, Upto(cfg, CompleteLines(st.textBuffer))))
  {
    var buf := st.textBuffer;
    var i := IndexOf(buf, '\n');
    var raw, rest := buf[..i], buf[i + 1..];
    var d := st.(textBuffer := StripCR(raw) + "\n" + rest);
    assert Blocks(cfg, raw) by {
      LinesCons(buf);
      NoDoneCons(raw, CompleteLines(rest));
    }
    assert Drain(cfg, st) == d by {
      DrainBlocked(cfg, st);
    }
    assert Stuck(cfg, d) by {
      IndexOfSpec(buf, '\n');
      PutBackStuck(cfg, st, raw, rest);
    }
    assert Upto(cfg, CompleteLines(buf)) == [] by {
      LinesCons(buf);
      UptoCons(cfg, raw, CompleteLines(rest));
    }
    assert View(d) == View(st);
  }


  /** A line applied with the rest of the buffer in place, then more lines: the same view as all lines applied in order. */
  lemma ViewStep(cfg: Config, st: Session, raw: string, rest: string, u: seq<string>)
    ensures View(ApplyAll(cfg, ApplyLine(cfg, st.(textBuffer := rest), raw), u)) == View(ApplyAll(cfg, st, [raw] + u))
  {
    ApplyAllCons(cfg, st, raw, u);
    ApplyLineBuffer(cfg, st, raw, rest);
    ApplyAllBuffer(cfg, ApplyLine(cfg, st, raw), u, rest);
  }

  /**
   * After the whole stream with no "[DONE]" line, the component shows the complete lines up to
   * the first blocking one applied in order; with a blocking line the session ends stuck.
   */
  lemma {:induction false} RunNoDone(cfg: Config, chunks: seq<string>)
    requires NoDone(CompleteLines(Concat(chunks)))
    ensures View(Run(cfg, Start(), chunks)) == View(ApplyAll(cfg, Start(), Upto(cfg, CompleteLines(Concat(chunks)))))
    ensures !AllGood(cfg, CompleteLines(Concat(chunks))) ==> Stuck(cfg, Run(cfg, Start(), chunks))
    decreases |chunks|
  {
    var text := Concat(chunks);
    if AllGood(cfg, CompleteLines(text)) {
      RunGood(cfg, chunks);
      UptoAppend(cfg, CompleteLines(text), []);
      assert CompleteLines(text) + [] == CompleteLines(text);
      ApplyAllBuffer(cfg, Start(), CompleteLines(text), Pending(text));
    } else {
      var init, c := chunks[..|chunks| - 1], chunks[|chunks| - 1];
      var t := Concat(init);
      var p := Pending(t);
      LinesAppend(t, c);
      NoDoneAppend(CompleteLines(t), CompleteLines(p + c));
      AllGoodAppend(cfg, CompleteLines(t), CompleteLines(p + c));
      UptoAppend(cfg, CompleteLines(t), CompleteLines(p + c));
      RunNoDone(cfg, init);
      var x := Run(cfg, Start(), init);
      if AllGood(cfg, CompleteLines(t)) {
        RunGood(cfg, init);
        var y := ApplyAll(cfg, Start(), CompleteLines(t));
        ApplyAllBuffer(cfg, Start(), CompleteLines(t), p);
        assert x.(textBuffer := p + c) == y.(textBuffer := p + c);
        DrainUntil(cfg, x.(textBuffer := p + c));
        var u := Upto(cfg, CompleteLines(p + c));
        ApplyAllBuffer(cfg, y, u, p + c);
        ApplyAllAppend(cfg, Start(), CompleteLines(t), u);
      } else {
        StepStuck(cfg, x, c);
      }
    }
  }

  /**
   * Chunk invariance of what the component shows: with no "[DONE]" line, two chunkings of one
   * text end with the same `fullText`, message list and consensus calls, blocking payloads or not.
   */
  lemma NoDoneSameView(cfg: Config, a: seq<string>, b: seq<string>)
    requires Concat(a) == Concat(b)
    requires NoDone(CompleteLines(Concat(a)))
    ensures Run(cfg, Start(), a).fullText == Run(cfg, Start(), b).fullText
    ensures Run(cfg, Start(), a).messages == Run(cfg, Start(), b).messages
    ensures Run(cfg, Start(), a).calls == Run(cfg, Start(), b).calls
  {
    RunNoDone(cfg, a);
    RunNoDone(cfg, b);
  }
}
