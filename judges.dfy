/** The fixed panel of five judges (src/lib/judges.ts) and the records the pages read from the database. */
module Judges {

  /** One judge of the panel; `kind` is the source's `type` field. */
  datatype Judge = Judge(
    name: string,
    kind: string,
    role: string,
    colorClass: string,
    bgClass: string,
    borderClass: string,
    textClass: string,
    voiceId: string,
    initials: string)

  /** The default panel, in its fixed order. */
  const JUDGES: seq<Judge> := [
    Judge("Dr. Alex Chen", "technical", "Technical Depth", "text-judge-technical", "bg-judge-technical",
          "border-judge-technical", "text-judge-technical", "JBFqnCBsd6RMkjVDRZzb", "AC"),
    Judge("Maya Patel", "business", "Business Impact", "text-judge-business", "bg-judge-business",
          "border-judge-business", "text-judge-business", "EXAVITQu4vr4xnSDxMaL", "MP"),
    Judge("Jordan Blake", "product", "Product & UX", "text-judge-product", "bg-judge-product",
          "border-judge-product", "text-judge-product", "onwK4e9ZLuTAKqWW03F9", "JB"),
    Judge("Sam Rodriguez", "risk", "Risk & Safety", "text-judge-risk", "bg-judge-risk",
          "border-judge-risk", "text-judge-risk", "CwhRBWXzGAHq8TQ4Fs17", "SR"),
    Judge("Riley Kim", "innovation", "Innovation", "text-judge-innovation", "bg-judge-innovation",
          "border-judge-innovation", "text-judge-innovation", "pFZP5JQG7iQjIQuC4Bku", "RK")
  ]

  /** The fields of a stored evaluation that the core reads; `judgeType` is `judge_type`. */
  datatype Evaluation = Evaluation(judgeName: string, judgeType: string, score: real)

  /** A submitted project, as far as the pages use it. */
  datatype Project = Project(id: string, name: string, track: string)

  /** A stored final report: the project it belongs to and its `overall_score`. */
  datatype FinalReport = FinalReport(projectId: string, overallScore: real)
}
