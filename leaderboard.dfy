/**
 * The leaderboard page (src/pages/Leaderboard.tsx): final reports joined to their projects,
 * ordered by descending score, shown for one track or for all, ranked from 1.
 */
module Leaderboard {
  import opened Wrappers
  import opened Judges
  import opened Seqs
  import opened Sorting

  /** A row of the board: a project and its report's `overall_score`. */
  datatype Entry = Entry(project: Project, score: real)

  function ScoreOf(e: Entry): real {
    e.score
  }

  function IdIs(id: string): Project -> bool {
    (p: Project) => p.id == id
  }

  function TrackIs(track: string): Entry -> bool {
    (e: Entry) => e.project.track == track
  }

  /** One report's entry, paired with the first project carrying the report's id; nothing when there is none. */
  function EntryFor(projects: seq<Project>, r: FinalReport): (e: Option<Entry>)
    ensures e.Some? ==> e.value.score == r.overallScore && e.value.project.id == r.projectId
  {
    match Find(projects, IdIs(r.projectId))
    case Some(p) => Some(Entry(p, r.overallScore))
    case None => None
  }

  /** A report is an orphan exactly when no project has its id; otherwise it gets the first one that does. */
  lemma EntryForSpec(projects: seq<Project>, r: FinalReport)
    ensures EntryFor(projects, r).Some? <==> exists k | 0 <= k < |projects| :: projects[k].id == r.projectId
    ensures EntryFor(projects, r).Some? ==> exists k | 0 <= k < |projects| ::
      projects[k] == EntryFor(projects, r).value.project && forall i | 0 <= i < k :: projects[i].id != r.projectId
  {
  }

  /** The reports mapped to entries with the orphans dropped, in report order. */
  function Joined(reports: seq<FinalReport>, projects: seq<Project>): (r: seq<Entry>)
    ensures |r| <= |reports|
    decreases |reports|
  {
    if reports == [] then []
    else
      var e := EntryFor(projects, reports[|reports| - 1]);
      Joined(reports[..|reports| - 1], projects) + (if e.Some? then [e.value] else [])
  }

  lemma JoinedSnoc(reports: seq<FinalReport>, projects: seq<Project>)
    requires reports != []
    ensures var e := EntryFor(projects, reports[|reports| - 1]);
      Joined(reports, projects) == Joined(reports[..|reports| - 1], projects) + (if e.Some? then [e.value] else [])
  {
  }

  /** Every entry comes from some report. */
  lemma {:induction false} JoinedSound(reports: seq<FinalReport>, projects: seq<Project>, e: Entry)
    requires e in Joined(reports, projects)
    ensures exists k | 0 <= k < |reports| :: EntryFor(projects, reports[k]) == Some(e)
    decreases |reports|
  {
    var init := reports[..|reports| - 1];
    JoinedSnoc(reports, projects);
    if e in Joined(init, projects) {
      JoinedSound(init, projects, e);
      var k :| 0 <= k < |init| && EntryFor(projects, init[k]) == Some(e);
      assert reports[k] == init[k];
    } else {
      assert EntryFor(projects, reports[|reports| - 1]) == Some(e);
    }
  }

  /** Every report that finds its project gives an entry. */
  lemma {:induction false} JoinedHas(reports: seq<FinalReport>, projects: seq<Project>, k: nat)
    requires k < |reports| && EntryFor(projects, reports[k]).Some?
    ensures EntryFor(projects, reports[k]).value in Joined(reports, projects)
    decreases |reports|
  {
    var init := reports[..|reports| - 1];
    JoinedSnoc(reports, projects);
    if k < |init| {
      assert init[k] == reports[k];
      JoinedHas(init, projects, k);
    }
  }

  /** The entries are exactly those of the reports that find a project. */
  lemma JoinedSpec(reports: seq<FinalReport>, projects: seq<Project>)
    ensures forall e :: e in Joined(reports, projects) <==>
      exists k | 0 <= k < |reports| :: EntryFor(projects, reports[k]) == Some(e)
  {
    forall e
      ensures e in Joined(reports, projects) <==>
        exists k | 0 <= k < |reports| :: EntryFor(projects, reports[k]) == Some(e)
    {
      if e in Joined(reports, projects) {
        JoinedSound(reports, projects, e);
      }
      if exists k | 0 <= k < |reports| :: EntryFor(projects, reports[k]) == Some(e) {
        var k :| 0 <= k < |reports| && EntryFor(projects, reports[k]) == Some(e);
        JoinedHas(reports, projects, k);
      }
    }
  }

  /** When every report finds its project, nothing is dropped and row `k` is report `k`'s entry. */
  lemma {:induction false} JoinedComplete(reports: seq<FinalReport>, projects: seq<Project>)
    requires forall k | 0 <= k < |reports| :: EntryFor(projects, reports[k]).Some?
    ensures |Joined(reports, projects)| == |reports|
    ensures forall k | 0 <= k < |reports| :: Joined(reports, projects)[k] == EntryFor(projects, reports[k]).value
    decreases |reports|
  {
    if reports != [] {
      var init := reports[..|reports| - 1];
      assert forall k | 0 <= k < |init| :: EntryFor(projects, init[k]).Some? by {
        forall k | 0 <= k < |init|
          ensures EntryFor(projects, init[k]).Some?
        {
          assert init[k] == reports[k];
        }
      }
      JoinedComplete(init, projects);
      var j := Joined(init, projects);
      var last := EntryFor(projects, reports[|reports| - 1]).value;
      assert Joined(reports, projects) == j + [last] by {
        JoinedSnoc(reports, projects);
      }
      forall k | 0 <= k < |reports|
        ensures Joined(reports, projects)[k] == EntryFor(projects, reports[k]).value
      {
        if k < |init| {
          assert (j + [last])[k] == j[k];
          assert init[k] == reports[k];
        }
      }
    }
  }

  /** The board `load` produces; nothing when a fetch gave no rows. */
  function Board(reports: Option<seq<FinalReport>>, projects: Option<seq<Project>>): seq<Entry> {
    if reports.None? || reports.value == [] || projects.None? then []
    else SortDesc(Joined(reports.value, projects.value), ScoreOf)
  }

  /** The board is ordered by descending score, holds exactly the joined entries, and has no more rows than reports. */
  lemma BoardSpec(reports: Option<seq<FinalReport>>, projects: Option<seq<Project>>)
    ensures NonIncreasing(Board(reports, projects), ScoreOf)
    ensures reports.Some? && projects.Some? ==>
      multiset(Board(reports, projects)) == multiset(Joined(reports.value, projects.value))
    ensures reports.Some? ==> |Board(reports, projects)| <= |reports.value|
    ensures reports.None? || projects.None? ==> Board(reports, projects) == []
  {
    if reports.Some? && reports.value != [] && projects.Some? {
      var j := Joined(reports.value, projects.value);
      SortedDesc(j, ScoreOf);
      SortPermutes(j, ScoreOf);
      assert |multiset(Board(reports, projects))| == |multiset(j)|;
    }
  }

  /** Entries with equal scores keep the order of their reports. */
  lemma BoardTies(reports: seq<FinalReport>, projects: seq<Project>, v: real)
    requires reports != []
    ensures Filter(Board(Some(reports), Some(projects)), HasKey(ScoreOf, v))
      == Filter(Joined(reports, projects), HasKey(ScoreOf, v))
  {
    SortStable(Joined(reports, projects), ScoreOf, v);
  }

  /** `filtered`: every entry for "all", otherwise those of the chosen track. */
  function Shown(entries: seq<Entry>, filter: string): seq<Entry> {
    if filter == "all" then entries else Filter(entries, TrackIs(filter))
  }

  /** The shown rows are exactly the entries of the track, still ordered by score. */
  lemma ShownSpec(entries: seq<Entry>, filter: string)
    ensures filter == "all" ==> Shown(entries, filter) == entries
    ensures filter != "all" ==> forall e :: e in Shown(entries, filter) <==> e in entries && e.project.track == filter
    ensures NonIncreasing(entries, ScoreOf) ==> NonIncreasing(Shown(entries, filter), ScoreOf)
  {
    if filter != "all" {
      FilterMembers(entries, TrackIs(filter));
      if NonIncreasing(entries, ScoreOf) {
        FilterOrdered(entries, TrackIs(filter), ScoreOf);
      }
    }
  }

  /** One table row: the rank shown in the first column, the entry, and the colour class of the score. */
  datatype Row = Row(rank: nat, entry: Entry, tone: string)

  function Tone(score: real): string {
    if score >= 8.0 then "text-success" else if score >= 6.0 then "text-warning" else "text-destructive"
  }

  function Rows(shown: seq<Entry>): (r: seq<Row>)
    ensures |r| == |shown|
  {
    seq(|shown|, i requires 0 <= i < |shown| => Row(i + 1, shown[i], Tone(shown[i].score)))
  }

  /**
   * Ranks run 1, 2, ... down the table; the tone is green from 8, amber from 6 and red below; on
   * an ordered table a better rank never has a lower score or a worse tone.
   */
  lemma RowsSpec(shown: seq<Entry>)
    ensures forall i | 0 <= i < |Rows(shown)| :: 1 <= Rows(shown)[i].rank <= |shown| && Rows(shown)[i].entry == shown[i]
    ensures forall i, j | 0 <= i < j < |Rows(shown)| :: Rows(shown)[i].rank < Rows(shown)[j].rank
    ensures NonIncreasing(shown, ScoreOf) ==>
      forall i, j | 0 <= i < j < |Rows(shown)| :: Rows(shown)[i].entry.score >= Rows(shown)[j].entry.score
    ensures forall i | 0 <= i < |Rows(shown)| ::
      (Rows(shown)[i].tone == "text-success" <==> shown[i].score >= 8.0)
      && (Rows(shown)[i].tone == "text-warning" <==> 6.0 <= shown[i].score < 8.0)
      && (Rows(shown)[i].tone == "text-destructive" <==> shown[i].score < 6.0)
    ensures NonIncreasing(shown, ScoreOf) ==> forall i, j | 0 <= i < j < |Rows(shown)| ::
      (Rows(shown)[j].tone == "text-success" ==> Rows(shown)[i].tone == "text-success")
      && (Rows(shown)[j].tone == "text-warning" ==> Rows(shown)[i].tone != "text-destructive")
  {
  }

  /** The page's state: the loaded entries, the track filter and the loading flag. */
  class LeaderboardPage {
    var entries: seq<Entry>
    var filter: string
    var loading: bool

    constructor ()
      ensures entries == [] && filter == "all" && loading
    {
      entries := [];
      filter := "all";
      loading := true;
    }

    /**
     * `load`: on a missing or empty report list, or a missing project list, only the loading
     * flag clears; otherwise the joined entries are copied into an array, sorted in place and
     * published.
     */
    method Load(reports: Option<seq<FinalReport>>, projects: Option<seq<Project>>)
      modifies this
      ensures !loading && filter == old(filter)
      ensures reports.None? || reports.value == [] || projects.None? ==> entries == old(entries)
      ensures reports.Some? && reports.value != [] && projects.Some? ==> entries == Board(reports, projects)
    {
      if reports.None? || reports.value == [] {
        loading := false;
        return;
      }
      if projects.None? {
        loading := false;
        return;
      }
      var joined := Joined(reports.value, projects.value);
      var a := new Entry[|joined|](i requires 0 <= i < |joined| => joined[i]);
      assert a[..] == joined;
      SortInPlace(a, ScoreOf);
      entries := a[..];
      loading := false;
    }

    /** The track selector. */
    method SetFilter(f: string)
      modifies this
      ensures filter == f && entries == old(entries) && loading == old(loading)
    {
      filter := f;
    }

    function Table(): seq<Row>
      reads this
    {
      Rows(Shown(entries, filter))
    }
  }

  /** The page as mounted and loaded once: its table is the ordered board, filtered by track. */
  method Mount(reports: Option<seq<FinalReport>>, projects: Option<seq<Project>>, filter: string)
    returns (page: LeaderboardPage)
    ensures !page.loading && page.entries == Board(reports, projects)
    ensures page.Table() == Rows(Shown(Board(reports, projects), filter))
  {
    page := new LeaderboardPage();
    page.Load(reports, projects);
    page.SetFilter(filter);
  }
}
