/**
 * The history page (src/pages/History.tsx): one item per project, in the order the projects
 * were fetched, each with the first report that belongs to it, and the page a click opens.
 */
module History {
  import opened Wrappers
  import opened Judges
  import opened Text
  import opened Seqs

  datatype Item = Item(project: Project, report: Option<FinalReport>)

  function ReportFor(id: string): FinalReport -> bool {
    (r: FinalReport) => r.projectId == id
  }

  /** `reports || []`: a failed report fetch counts as no reports. */
  function OrEmpty(reports: Option<seq<FinalReport>>): seq<FinalReport> {
    if reports.Some? then reports.value else []
  }

  /** The items `load` publishes; none when the project fetch gave no rows. */
  function Items(projects: Option<seq<Project>>, reports: Option<seq<FinalReport>>): (r: seq<Item>)
    ensures projects.None? ==> r == []
    ensures projects.Some? ==> |r| == |projects.value|
    ensures projects.Some? ==> forall i | 0 <= i < |r| :: r[i].project == projects.value[i]
  {
    if projects.None? then []
    else
      var ps := projects.value;
      seq(|ps|, i requires 0 <= i < |ps| => Item(ps[i], Find(OrEmpty(reports), ReportFor(ps[i].id))))
  }

  /**
   * An item's report is the first fetched report for its project, and it is missing exactly
   * when no report is for that project (in particular whenever the report fetch failed).
   */
  lemma ItemReport(projects: Option<seq<Project>>, reports: Option<seq<FinalReport>>, i: nat)
    requires i < |Items(projects, reports)|
    ensures var it := Items(projects, reports)[i]; var rs := OrEmpty(reports);
      (it.report.None? <==> forall k | 0 <= k < |rs| :: rs[k].projectId != it.project.id)
      && (it.report.Some? ==> exists k | 0 <= k < |rs| ::
            rs[k] == it.report.value && rs[k].projectId == it.project.id
            && forall e | 0 <= e < k :: rs[e].projectId != it.project.id)
    ensures reports.None? ==> Items(projects, reports)[i].report.None?
  {
  }

  /** The route a click on the item opens. */
  function Target(it: Item): string {
    (if it.report.Some? then "/report/" else "/evaluate/") + it.project.id
  }

  /** The report page opens exactly for items with a report, and the route ends in the project's id. */
  lemma TargetSpec(it: Item)
    ensures StartsWith(Target(it), "/report/") <==> it.report.Some?
    ensures StartsWith(Target(it), "/evaluate/") <==> it.report.None?
    ensures EndsWith(Target(it), it.project.id)
  {
    var t := Target(it);
    var id := it.project.id;
    if it.report.Some? {
      assert t[..8] == "/report/";
      assert t[1] == 'r';
    } else {
      assert t[..10] == "/evaluate/";
      assert t[1] == 'e';
    }
    assert t[|t| - |id|..] == id;
  }
}
