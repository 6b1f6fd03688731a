/**
 * The report page (src/pages/Report.tsx): the bar chart rows, the choice of the evaluation
 * that answers a question, and the single audio handle of the voice playback.
 */
module Report {
  import opened Wrappers
  import opened Judges
  import opened Text
  import opened Seqs

  // ---------------------------------------------------------------------------------------
  // chartData
  // ---------------------------------------------------------------------------------------

  /** The bar colours, one per judge of the panel. */
  const JUDGE_COLORS: seq<string> :=
    ["hsl(195,100%,50%)", "hsl(120,100%,40%)", "hsl(280,100%,60%)", "hsl(30,100%,50%)", "hsl(330,100%,60%)"]

  datatype Bar = Bar(name: string, score: real, fill: string)

  /** `split(" ").pop()`: the last space-separated word. */
  function LastWord(s: string): string {
    var words := Split(s, ' ');
    words[|words| - 1]
  }

  /** Row `i` is named after the last word of the i-th panel judge, or after the evaluation when that is missing or empty. */
  function BarName(i: nat, e: Evaluation): string {
    if i < |JUDGES| && LastWord(JUDGES[i].name) != "" then LastWord(JUDGES[i].name) else e.judgeName
  }

  function BarFill(i: nat): string {
    if i < |JUDGE_COLORS| then JUDGE_COLORS[i] else "#888"
  }

  function ChartData(evals: seq<Evaluation>): (r: seq<Bar>)
    ensures |r| == |evals|
  {
    seq(|evals|, i requires 0 <= i < |evals| => Bar(BarName(i, evals[i]), evals[i].score, BarFill(i)))
  }

  /** The last word of a name with no separator is the whole name. */
  lemma LastWordOne(s: string)
    requires ' ' !in s
    ensures LastWord(s) == s
  {
    IndexOfSpec(s, ' ');
  }

  /** The last word of `a + " " + b` is that of `b`, when `a` is one word. */
  lemma LastWordCons(a: string, b: string)
    requires ' ' !in a
    ensures LastWord(a + " " + b) == LastWord(b)
  {
    SplitAfterFirst(a, ' ', b);
  }

  lemma LastOfTwo(a: string, b: string)
    requires ' ' !in a && ' ' !in b
    ensures LastWord(a + " " + b) == b
  {
    LastWordCons(a, b);
    LastWordOne(b);
  }

  /** The surnames that name the first five bars. */
  const SURNAMES: seq<string> := ["Chen", "Patel", "Blake", "Rodriguez", "Kim"]

  lemma LastOfThree(a: string, b: string, c: string)
    requires ' ' !in a && ' ' !in b && ' ' !in c
    ensures LastWord(a + " " + b + " " + c) == c
  {
    assert a + " " + b + " " + c == a + " " + (b + " " + c);
    LastWordCons(a, b + " " + c);
    LastOfTwo(b, c);
  }

  lemma Surname0()
    ensures LastWord(JUDGES[0].name) == SURNAMES[0]
  {
    var n := JUDGES[0].name;
    assert n == "Dr." + " " + "Alex" + " " + "Chen";
    LastOfThree("Dr.", "Alex", "Chen");
  }

  lemma Surname1()
    ensures LastWord(JUDGES[1].name) == SURNAMES[1]
  {
    assert JUDGES[1].name == "Maya" + " " + "Patel";
    LastOfTwo("Maya", "Patel");
  }

  lemma Surname2()
    ensures LastWord(JUDGES[2].name) == SURNAMES[2]
  {
    assert JUDGES[2].name == "Jordan" + " " + "Blake";
    LastOfTwo("Jordan", "Blake");
  }

  lemma Surname3()
    ensures LastWord(JUDGES[3].name) == SURNAMES[3]
  {
    assert JUDGES[3].name == "Sam" + " " + "Rodriguez";
    LastOfTwo("Sam", "Rodriguez");
  }

  lemma Surname4()
    ensures LastWord(JUDGES[4].name) == SURNAMES[4]
  {
    assert JUDGES[4].name == "Riley" + " " + "Kim";
    LastOfTwo("Riley", "Kim");
  }

  /** Bar `i` of the first five is named by the i-th judge's surname. */
  lemma BarNames(i: nat, e: Evaluation)
    requires i < 5
    ensures BarName(i, e) == SURNAMES[i]
  {
    if i == 0 {
      Surname0();
    } else if i == 1 {
      Surname1();
    } else if i == 2 {
      Surname2();
    } else if i == 3 {
      Surname3();
    } else {
      Surname4();
    }
  }

  /**
   * One bar per evaluation in the same order, with the evaluation's score; the first five
   * are named by the panel's surnames and take its colours, the rest the judge name and grey.
   */
  lemma ChartSpec(evals: seq<Evaluation>)
    ensures forall i | 0 <= i < |evals| :: ChartData(evals)[i].score == evals[i].score
    ensures forall i | 0 <= i < |evals| && i < 5 ::
      ChartData(evals)[i].name == SURNAMES[i] && ChartData(evals)[i].fill == JUDGE_COLORS[i]
    ensures forall i | 5 <= i < |evals| ::
      ChartData(evals)[i].name == evals[i].judgeName && ChartData(evals)[i].fill == "#888"
  {
    forall i | 0 <= i < |evals| && i < 5
      ensures ChartData(evals)[i].name == SURNAMES[i]
    {
      BarNames(i, evals[i]);
    }
  }

  // ---------------------------------------------------------------------------------------
  // askQuestion: which evaluation answers
  // ---------------------------------------------------------------------------------------

  /** A keyword group of `askQuestion`: two keywords and the judge type they select. */
  datatype Group = Group(first: string, second: string, kind: string)

  /** The keyword groups in the order they are tried. */
  const GROUPS: seq<Group> := [
    Group("technical", "architecture", "technical"),
    Group("business", "market", "business"),
    Group("ux", "design", "product"),
    Group("risk", "security", "risk"),
    Group("innovation", "creative", "innovation")
  ]

  predicate Hits(q: string, g: Group) {
    Contains(q, g.first) || Contains(q, g.second)
  }

  /** The `if`/`else if` chain over the lowercased question: the judge type it routes to, if any. */
  function Route(q: string): Option<string> {
    if Contains(q, "technical") || Contains(q, "architecture") then Some("technical")
    else if Contains(q, "business") || Contains(q, "market") then Some("business")
    else if Contains(q, "ux") || Contains(q, "design") then Some("product")
    else if Contains(q, "risk") || Contains(q, "security") then Some("risk")
    else if Contains(q, "innovation") || Contains(q, "creative") then Some("innovation")
    else None
  }

  /** The position of the first group the question hits. */
  function FirstHit(q: string, groups: seq<Group>): (r: Option<nat>)
    ensures r.Some? ==> r.value < |groups| && Hits(q, groups[r.value])
    ensures r.Some? ==> forall k | 0 <= k < r.value :: !Hits(q, groups[k])
    ensures r.None? ==> forall k | 0 <= k < |groups| :: !Hits(q, groups[k])
  {
    if groups == [] then None
    else if Hits(q, groups[0]) then Some(0)
    else match FirstHit(q, groups[1..])
      case Some(k) => Some(k + 1)
      case None => None
  }

  /** The chain routes to the type of the first group in the table that the question hits, and nowhere when it hits none. */
  lemma RouteSpec(q: string)
    ensures Route(q) == match FirstHit(q, GROUPS) case Some(k) => Some(GROUPS[k].kind) case None => None
  {
    var h := FirstHit(q, GROUPS);
    if h.Some? {
      var k := h.value;
      assert Hits(q, GROUPS[k]);
      if k >= 1 {
        assert !Hits(q, GROUPS[0]);
      }
      if k >= 2 {
        assert !Hits(q, GROUPS[1]);
      }
      if k >= 3 {
        assert !Hits(q, GROUPS[2]);
      }
      if k >= 4 {
        assert !Hits(q, GROUPS[3]);
      }
    } else {
      assert !Hits(q, GROUPS[0]) && !Hits(q, GROUPS[1]) && !Hits(q, GROUPS[2]);
      assert !Hits(q, GROUPS[3]) && !Hits(q, GROUPS[4]);
    }
  }

  /**
   * Earlier groups take precedence: a question that hits group `k` and none before it routes
   * to `k`'s type, whatever later groups it also hits.
   */
  lemma RouteLater(q: string, k: nat)
    requires k < |GROUPS| && Hits(q, GROUPS[k])
    requires forall j | 0 <= j < k :: !Hits(q, GROUPS[j])
    ensures Route(q) == Some(GROUPS[k].kind)
  {
    RouteSpec(q);
  }

  /** A question that hits no group routes nowhere, and one routed somewhere hits the group of that type. */
  lemma RouteMiss(q: string)
    ensures Route(q).None? <==> forall j | 0 <= j < |GROUPS| :: !Hits(q, GROUPS[j])
    ensures Route(q).Some? ==> exists j | 0 <= j < |GROUPS| :: Hits(q, GROUPS[j]) && GROUPS[j].kind == Route(q).value
  {
    RouteSpec(q);
    var h := FirstHit(q, GROUPS);
    if h.Some? {
      assert Hits(q, GROUPS[h.value]);
    }
  }

  function TypeIs(t: string): Evaluation -> bool {
    (e: Evaluation) => e.judgeType == t
  }

  /** The evaluation chosen for a lowercased question: the first of the routed type, else the first one. */
  function Pick(q: string, evals: seq<Evaluation>): (r: Evaluation)
    requires evals != []
    ensures r in evals
  {
    match Route(q)
    case None => evals[0]
    case Some(t) =>
      match Find(evals, TypeIs(t))
      case Some(e) => e
      case None => evals[0]
  }

  /** The routed type wins when some evaluation has it, and then the first such; otherwise the first evaluation answers. */
  lemma PickSpec(q: string, evals: seq<Evaluation>)
    requires evals != []
    ensures var t := Route(q);
      if t.Some? && exists k | 0 <= k < |evals| :: evals[k].judgeType == t.value then
        exists k | 0 <= k < |evals| :: Pick(q, evals) == evals[k] && evals[k].judgeType == t.value
          && forall e | 0 <= e < k :: evals[e].judgeType != t.value
      else Pick(q, evals) == evals[0]
  {
  }

  /** `askQuestion`: no request for a blank question, a missing project or no evaluations; otherwise the evaluation sent along. */
  function BestEval(question: string, project: Option<Project>, evals: seq<Evaluation>): (r: Option<Evaluation>)
    ensures r.Some? ==> r.value in evals
  {
    if Trim(question) == "" || project.None? || evals == [] then None
    else Some(Pick(ToLower(question), evals))
  }

  /** No request exactly when the question is all white space, the project is missing or there is no evaluation. */
  lemma BestEvalGuard(question: string, project: Option<Project>, evals: seq<Evaluation>)
    ensures BestEval(question, project, evals).None? <==> AllSpace(question) || project.None? || evals == []
  {
    TrimSpec(question);
  }

  lemma SameSpace(a: string, b: string)
    requires ToLower(a) == ToLower(b)
    ensures AllSpace(a) <==> AllSpace(b)
  {
    assert forall i | 0 <= i < |a| :: IsSpace(a[i]) <==> IsSpace(ToLower(a)[i]);
    assert forall i | 0 <= i < |b| :: IsSpace(b[i]) <==> IsSpace(ToLower(b)[i]);
  }

  /** Matching ignores letter case: questions that differ only in case get the same answer. */
  lemma BestEvalIgnoresCase(q1: string, q2: string, project: Option<Project>, evals: seq<Evaluation>)
    requires ToLower(q1) == ToLower(q2)
    ensures BestEval(q1, project, evals) == BestEval(q2, project, evals)
  {
    SameSpace(q1, q2);
    TrimSpec(q1);
    TrimSpec(q2);
  }

  // ---------------------------------------------------------------------------------------
  // stopVoice / playVoice
  // ---------------------------------------------------------------------------------------

  /**
   * The voice playback state: `audioRef.current` (an Audio object, by identity), the
   * `playingVoice` flag, and which Audio objects are sounding. `next` is the identity the next
   * `new Audio` gets. `playVoice` awaits a fetch between its start and the creation of the
   * Audio object, so it is split into `BeginPlay` and `FinishPlay`.
   */
  class VoicePlayer {
    var audio: Option<nat>
    var playing: bool
    var sounding: set<nat>
    var next: nat

    function Held(): set<nat>
      reads this
    {
      if audio.Some? then {audio.value} else {}
    }

    /** Every Audio object that is sounding is the held one. */
    predicate Valid()
      reads this
    {
      sounding <= Held() && (audio.Some? ==> audio.value < next) && forall h | h in sounding :: h < next
    }

    constructor ()
      ensures Valid() && audio.None? && !playing && sounding == {} && next == 0
    {
      audio := None;
      playing := false;
      sounding := {};
      next := 0;
    }

    /** `stopVoice`: pause and drop the held Audio object, and clear the flag. */
    method StopVoice()
      modifies this
      ensures audio.None? && !playing && next == old(next)
      ensures sounding == old(sounding) - old(Held())
      ensures old(Valid()) ==> Valid() && sounding == {}
    {
      if audio.Some? {
        sounding := sounding - {audio.value};
        audio := None;
      }
      playing := false;
    }

    /** `playVoice` up to the speech fetch: `stopVoice`, then the flag is set. */
    method BeginPlay()
      modifies this
      ensures audio.None? && playing && next == old(next)
      ensures sounding == old(sounding) - old(Held())
      ensures old(Valid()) ==> Valid() && sounding == {}
    {
      StopVoice();
      playing := true;
    }

    /**
     * `playVoice` after the fetch: a failed fetch clears the flag; otherwise a new Audio object
     * becomes the held one, and it sounds unless `play` rejects, which clears the flag and
     * leaves the handle held.
     */
    method FinishPlay(fetched: bool, started: bool)
      modifies this
      ensures !fetched ==> audio == old(audio) && !playing && sounding == old(sounding) && next == old(next)
      ensures fetched ==> audio == Some(old(next)) && next == old(next) + 1
      ensures fetched && started ==> sounding == old(sounding) + {old(next)} && playing == old(playing)
      ensures fetched && !started ==> sounding == old(sounding) && !playing
      ensures old(Valid()) && old(sounding) == {} ==> Valid()
    {
      if !fetched {
        playing := false;
        return;
      }
      var h := next;
      next := next + 1;
      audio := Some(h);
      if started {
        sounding := sounding + {h};
      } else {
        playing := false;
      }
    }

    /** `onended` of Audio object `h`: the flag and the handle are cleared, whichever object is held. */
    method Ended(h: nat)
      requires h in sounding
      modifies this
      ensures !playing && audio.None? && sounding == old(sounding) - {h} && next == old(next)
      ensures old(Valid()) ==> Valid() && sounding == {}
    {
      playing := false;
      audio := None;
      sounding := sounding - {h};
    }

    /**
     * `playVoice` after the fetch, releasing first: the held Audio object, if any, is paused and
     * dropped before the new one is held, so a play that was superseded while its fetch was
     * pending cannot leave an object sounding that nothing holds.
     */
    method FinishPlayReleasing(fetched: bool, started: bool)
      modifies this
      ensures !fetched ==> audio == old(audio) && !playing && sounding == old(sounding) && next == old(next)
      ensures fetched ==> audio == Some(old(next)) && next == old(next) + 1
      ensures fetched && started ==> sounding == old(sounding) - old(Held()) + {old(next)} && playing == old(playing)
      ensures fetched && !started ==> sounding == old(sounding) - old(Held()) && !playing
      ensures old(Valid()) ==> Valid()
    {
      if !fetched {
        playing := false;
        return;
      }
      if audio.Some? {
        sounding := sounding - {audio.value};
      }
      var h := next;
      next := next + 1;
      audio := Some(h);
      if started {
        sounding := sounding + {h};
      } else {
        playing := false;
      }
    }
  }

  /** In a valid player at most one Audio object sounds. */
  lemma AtMostOneSounds(p: VoicePlayer)
    requires p.Valid()
    ensures |p.sounding| <= 1
  {
    if p.audio.Some? {
      var a := p.audio.value;
      if a in p.sounding {
        assert p.sounding == {a};
      } else {
        assert p.sounding == {};
      }
    } else {
      assert p.sounding == {};
    }
  }

  /** One play after another: at most one Audio object sounds, and it is the held one. */
  method PlayInTurn(firstStarts: bool) returns (p: VoicePlayer)
    ensures p.Valid() && p.playing && |p.sounding| == 1 && p.sounding == p.Held()
  {
    p := new VoicePlayer();
    p.BeginPlay();
    p.FinishPlay(true, firstStarts);
    p.BeginPlay();
    p.FinishPlay(true, true);
  }

  /**
   * Play, stop while the speech is still being fetched, and play again (the page shows the stop
   * button while `playingVoice` is set and the play button once it is cleared). `stopVoice` ran
   * before either Audio object existed, so when both fetches complete the first object keeps
   * sounding after the second replaces it in the handle: two voices overlap, and a later
   * `stopVoice` pauses only the held one, clearing the flag while audio still sounds.
   */
  method OverlappingPlays() returns (p: VoicePlayer)
    ensures !p.playing && p.audio.None? && p.sounding == {0}
  {
    p := new VoicePlayer();
    p.BeginPlay();
    p.StopVoice();
    p.BeginPlay();
    p.FinishPlay(true, true);
    p.FinishPlay(true, true);
    assert p.sounding == {0, 1} && p.audio == Some(1);
    p.StopVoice();
  }

  /** The same clicks with the releasing completion: nothing sounds after the final stop. */
  method OverlappingPlaysReleased() returns (p: VoicePlayer)
    ensures p.Valid() && !p.playing && p.audio.None? && p.sounding == {}
  {
    p := new VoicePlayer();
    p.BeginPlay();
    p.StopVoice();
    p.BeginPlay();
    p.FinishPlayReleasing(true, true);
    p.FinishPlayReleasing(true, true);
    p.StopVoice();
  }

  /** The user's and the browser's events on the voice controls. */
  datatype VoiceEvent = Stop | Play | Fetched(fetched: bool, started: bool) | EndOf(h: nat)

  /**
   * Any sequence of events, with the releasing completion: `Play` is the click (the part of
   * `playVoice` before the fetch), `Fetched` the completion of some earlier fetch, `EndOf(h)`
   * the `ended` event of Audio object `h`, which only a sounding object fires. At every point
   * at most one Audio object sounds, and it is the held one.
   */
  method ReplayReleasing(events: seq<VoiceEvent>) returns (p: VoicePlayer)
    ensures p.Valid() && |p.sounding| <= 1
  {
    p := new VoicePlayer();
    for k := 0 to |events|
      invariant p.Valid()
    {
      match events[k]
      case Stop => p.StopVoice();
      case Play => p.BeginPlay();
      case Fetched(fetched, started) => p.FinishPlayReleasing(fetched, started);
      case EndOf(h) =>
        if h in p.sounding {
          p.Ended(h);
        }
    }
    AtMostOneSounds(p);
  }
}
