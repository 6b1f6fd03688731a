/**
 * The client-side debate stream parser of src/components/LiveDebate.tsx.
 *
 * The stream arrives as text chunks. Complete lines (up to a "\n") are taken from a buffer in
 * arrival order and read as Server-Sent-Events frames; the `choices[0].delta.content` of each
 * `data: ` frame is appended to `fullText`, and after every append the whole `fullText` is read
 * again as JSON Lines to rebuild the list of debate messages and to detect the consensus line.
 *
 * `JSON.parse` is not modelled: the two places that call it take a parser as a parameter
 * (`Config.parseFrame` for a frame payload, `Config.parseMsg` for a JSONL record), `None`
 * standing for a parse that throws.
 */
module LiveDebate {
  import opened Wrappers
  import opened Text
  import opened Judges

  /** What the stream reads from a parsed `data: ` payload: `choices[0].delta.content`, when it is a string. */
  datatype Frame = Frame(content: Option<string>)

  /** A parsed JSONL record; `kind` is the record's `type` field, `finalScore` its `final_score`. */
  datatype Msg = Msg(speaker: Option<string>, kind: Option<string>, message: Option<string>, finalScore: Option<real>)

  /** The arguments of one `onConsensus(score, message)` call. */
  datatype Consensus = Consensus(score: real, message: string)

  /**
   * The collaborators of one session: the two parsers, and whether an `onConsensus`
   * callback was passed in.
   */
  datatype Config = Config(parseFrame: string -> Option<Frame>, parseMsg: string -> Option<Msg>, hasHandler: bool)

  /** JavaScript truthiness of an optional string: present and not empty. */
  predicate Truthy(s: Option<string>) {
    s.Some? && s.value != ""
  }

  /** The extractor keeps a record only when its speaker and its message are both truthy. */
  predicate Accepted(m: Msg) {
    Truthy(m.speaker) && Truthy(m.message)
  }

  /** The terminal line: `type == "final"` and a truthy (non-zero) `final_score`. */
  predicate IsConsensus(m: Msg) {
    m.kind == Some("final") && m.finalScore.Some? && m.finalScore.value != 0.0
  }

  // ---------------------------------------------------------------------------------------
  // JSON-Lines extraction over the accumulated text
  // ---------------------------------------------------------------------------------------

  /** What one line of `fullText` contributes to the message list: its record, or nothing. */
  function Keep(parseMsg: string -> Option<Msg>, line: string): (r: seq<Msg>)
    ensures |r| <= 1
    ensures r != [] ==> Accepted(r[0]) && parseMsg(Trim(line)) == Some(r[0])
    ensures r != [] ==> Trim(line) != "" && !StartsWith(Trim(line), "```")
  {
    var t := Trim(line);
    if t == "" || StartsWith(t, "```") then []
    else match parseMsg(t)
      case Some(m) => if Accepted(m) then [m] else []
      case None => []
  }

  /** The records of `lines`, in line order. */
  function ExtractFrom(parseMsg: string -> Option<Msg>, lines: seq<string>): (r: seq<Msg>)
    ensures |r| <= |lines|
    ensures forall k | 0 <= k < |r| :: Accepted(r[k])
  {
    if lines == [] then []
    else ExtractFrom(parseMsg, lines[..|lines| - 1]) + Keep(parseMsg, lines[|lines| - 1])
  }

  /** The message list the extractor derives from the whole accumulated text. */
  function Extracted(parseMsg: string -> Option<Msg>, text: string): (r: seq<Msg>)
    ensures forall k | 0 <= k < |r| :: Accepted(r[k])
  {
    ExtractFrom(parseMsg, Split(text, '\n'))
  }

  /** The extraction loop (LiveDebate.tsx lines 91-108). */
  method ExtractMessages(parseMsg: string -> Option<Msg>, fullText: string) returns (parsed: seq<Msg>)
    ensures parsed == Extracted(parseMsg, fullText)
  {
    var lines := Split(fullText, '\n');
    parsed := [];
    for k := 0 to |lines|
      invariant parsed == ExtractFrom(parseMsg, lines[..k])
    {
      assert lines[..k + 1][..k] == lines[..k];
      assert ExtractFrom(parseMsg, lines[..k + 1]) == parsed + Keep(parseMsg, lines[k]);
      var trimmed := Trim(lines[k]);
      if trimmed == "" || StartsWith(trimmed, "```") {
        continue;
      }
      var msg := parseMsg(trimmed);
      if msg.Some? && Truthy(msg.value.speaker) && Truthy(msg.value.message) {
        parsed := parsed + [msg.value];
      }
    }
    assert lines[..|lines|] == lines;
  }

  // ---------------------------------------------------------------------------------------
  // The state of one session and one step of each kind
  // ---------------------------------------------------------------------------------------

  /**
   * The state the stream loop threads through its iterations: the line buffer, the
   * accumulated text, the published message list and the `onConsensus` calls made so far.
   */
  datatype Session = Session(textBuffer: string, fullText: string, messages: seq<Msg>, calls: seq<Consensus>)

  /** The state right after the response is opened: buffers empty, the message list cleared. */
  function Start(): Session {
    Session("", "", [], [])
  }

  /**
   * After `fullText` grew: extract, and when at least one record was found publish the list
   * and call `onConsensus` if its last record is the terminal one.
   */
  function Publish(cfg: Config, st: Session): (r: Session)
    ensures r.textBuffer == st.textBuffer && r.fullText == st.fullText
  {
    var msgs := Extracted(cfg.parseMsg, st.fullText);
    if |msgs| == 0 then st
    else
      var last := msgs[|msgs| - 1];
      var call := if cfg.hasHandler && IsConsensus(last)
                  then [Consensus(last.finalScore.value, last.message.value)] else [];
      st.(messages := msgs, calls := st.calls + call)
  }

  /** A parsed frame: a truthy delta content is appended to `fullText` and triggers `Publish`. */
  function Deliver(cfg: Config, st: Session, frame: Frame): (r: Session)
    ensures r.textBuffer == st.textBuffer
  {
    if Truthy(frame.content) then Publish(cfg, st.(fullText := st.fullText + frame.content.value))
    else st
  }

  /** How a line, with its trailing "\r" removed, is read. */
  datatype LineKind = Ignored | DoneMarker | Payload(json: string)

  function StripCR(line: string): string {
    if EndsWith(line, "\r") then line[..|line| - 1] else line
  }

  /**
   * Comments (":"), blank lines and lines without the exact "data: " prefix are ignored;
   * the payload is the rest after six characters, trimmed; "[DONE]" is the end marker.
   */
  function Classify(line: string): LineKind {
    if StartsWith(line, ":") || Trim(line) == "" then Ignored
    else if !StartsWith(line, "data: ") then Ignored
    else
      var json := Trim(line[6..]);
      if json == "[DONE]" then DoneMarker else Payload(json)
  }

  /** Only a line with the exact "data: " prefix is a frame; its payload is the trimmed rest after six characters. */
  lemma ClassifyCases(line: string)
    ensures Classify(line).Payload? || Classify(line).DoneMarker? ==> StartsWith(line, "data: ") && Trim(line) != ""
    ensures Classify(line).DoneMarker? <==> StartsWith(line, "data: ") && Trim(line[6..]) == "[DONE]"
    ensures Classify(line).Payload? ==> Classify(line).json == Trim(line[6..]) && Classify(line).json != "[DONE]"
    ensures Classify(line).Payload? <==> StartsWith(line, "data: ") && Trim(line[6..]) != "[DONE]"
  {
    if StartsWith(line, "data: ") {
      TrimSpec(line);
      assert !IsSpace(line[0]);
    }
  }

  /**
   * The inner line loop (LiveDebate.tsx lines 72-122) on the current buffer: take complete
   * lines in order; "[DONE]" stops the loop and leaves the rest in the buffer; a payload that
   * does not parse is put back at the front of the buffer with its "\n" and stops the loop.
   */
  function Drain(cfg: Config, st: Session): Session
    decreases |st.textBuffer|
  {
    var i := IndexOf(st.textBuffer, '\n');
    if i < 0 then st
    else
      var raw := st.textBuffer[..i];
      var rest := st.textBuffer[i + 1..];
      var line := StripCR(raw);
      match Classify(line)
      case Ignored => Drain(cfg, st.(textBuffer := rest))
      case DoneMarker => st.(textBuffer := rest)
      case Payload(json) =>
        match cfg.parseFrame(json)
        case None => st.(textBuffer := line + "\n" + rest)
        case Some(frame) => Drain(cfg, Deliver(cfg, st.(textBuffer := rest), frame))
  }

  /** One iteration of the outer read loop: append the chunk to the buffer and drain it. */
  function Step(cfg: Config, st: Session, chunk: string): Session {
    Drain(cfg, st.(textBuffer := st.textBuffer + chunk))
  }

  /** The outer read loop over the chunks read before `done`. */
  function Run(cfg: Config, st: Session, chunks: seq<string>): Session {
    if chunks == [] then st
    else Step(cfg, Run(cfg, st, chunks[..|chunks| - 1]), chunks[|chunks| - 1])
  }

  /** The text of the whole stream. */
  function Concat(chunks: seq<string>): string {
    if chunks == [] then "" else Concat(chunks[..|chunks| - 1]) + chunks[|chunks| - 1]
  }

  // ---------------------------------------------------------------------------------------
  // The stream loop of `startDebate`, on its local variables
  // ---------------------------------------------------------------------------------------

  /**
   * A parsed frame (lines 85-116): a truthy delta content is appended to `fullText`, the text
   * is extracted again, and a non-empty result is published and checked for consensus.
   */
  method OnFrame(cfg: Config, st: Session, frame: Frame) returns (r: Session)
    ensures r == Deliver(cfg, st, frame)
  {
    var fullText, messages, calls := st.fullText, st.messages, st.calls;
    var content := frame.content;
    if content.Some? && content.value != "" {
      fullText := fullText + content.value;
      var parsedMessages := ExtractMessages(cfg.parseMsg, fullText);
      if |parsedMessages| > 0 {
        messages := parsedMessages;
        var last := parsedMessages[|parsedMessages| - 1];
        if last.kind == Some("final") && last.finalScore.Some? && last.finalScore.value != 0.0 && cfg.hasHandler {
          calls := calls + [Consensus(last.finalScore.value, last.message.value)];
        }
      }
    }
    r := Session(st.textBuffer, fullText, messages, calls);
  }

  /** The inner line loop (lines 71-122) on the buffer as it stands after a chunk was appended. */
  method DrainBuffer(cfg: Config, st: Session) returns (r: Session)
    ensures r == Drain(cfg, st)
  {
    r := st;
    while true
      invariant Drain(cfg, r) == Drain(cfg, st)
      decreases |r.textBuffer|
    {
      var newlineIndex := IndexOf(r.textBuffer, '\n');
      if newlineIndex == -1 {
        break;
      }
      ghost var before := r;
      var line := r.textBuffer[..newlineIndex];
      r := r.(textBuffer := r.textBuffer[newlineIndex + 1..]);
      if EndsWith(line, "\r") {
        line := line[..|line| - 1];
      }
      assert line == StripCR(before.textBuffer[..newlineIndex]);
      if StartsWith(line, ":") || Trim(line) == "" {
        continue;
      }
      if !StartsWith(line, "data: ") {
        continue;
      }
      var jsonStr := Trim(line[6..]);
      if jsonStr == "[DONE]" {
        break;
      }
      var parsed := cfg.parseFrame(jsonStr);
      if parsed.None? {
        r := r.(textBuffer := line + "\n" + r.textBuffer);
        break;
      }
      r := OnFrame(cfg, r, parsed.value);
    }
  }

  /** The outer read loop (lines 66-123) over the chunks the reader delivers before `done`. */
  method ReadStream(cfg: Config, chunks: seq<string>) returns (r: Session)
    ensures r == Run(cfg, Start(), chunks)
  {
    r := Start();
    for k := 0 to |chunks|
      invariant r == Run(cfg, Start(), chunks[..k])
    {
      assert chunks[..k + 1][..k] == chunks[..k];
      r := DrainBuffer(cfg, r.(textBuffer := r.textBuffer + chunks[k]));
    }
    assert chunks[..|chunks|] == chunks;
  }

  // ---------------------------------------------------------------------------------------
  // getJudgeInfo
  // ---------------------------------------------------------------------------------------

  /** The word a judge is recognised by: the first space-separated word of its name, lowercased. */
  function JudgeKey(j: Judge): string {
    ToLower(Split(j.name, ' ')[0])
  }

  predicate Matches(speaker: string, j: Judge) {
    Contains(ToLower(speaker), JudgeKey(j))
  }

  /** The position of the first judge of `judges[from..]` that `speaker` matches. */
  function FindJudge(speaker: string, judges: seq<Judge>, from: nat): (r: Option<nat>)
    requires from <= |judges|
    ensures r.Some? ==> from <= r.value < |judges| && Matches(speaker, judges[r.value])
    ensures r.Some? ==> forall k | from <= k < r.value :: !Matches(speaker, judges[k])
    ensures r.None? ==> forall k | from <= k < |judges| :: !Matches(speaker, judges[k])
    decreases |judges| - from
  {
    if from == |judges| then None
    else if Matches(speaker, judges[from]) then Some(from)
    else FindJudge(speaker, judges, from + 1)
  }

  /** `getJudgeInfo` (lines 35-37): the first judge of the panel whose key the lowercased speaker contains. */
  function JudgeFor(speaker: string): (r: Option<Judge>)
    ensures r.Some? <==> exists j | j in JUDGES :: Matches(speaker, j)
    ensures r.Some? ==> exists k | 0 <= k < |JUDGES| :: r.value == JUDGES[k] && Matches(speaker, JUDGES[k])
                          && forall e | 0 <= e < k :: !Matches(speaker, JUDGES[e])
  {
    match FindJudge(speaker, JUDGES, 0)
    case Some(k) => Some(JUDGES[k])
    case None => None
  }
}
