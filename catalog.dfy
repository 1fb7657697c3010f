/** The college record of college-predictor-backend/models/College.js:3-75,
    as the prediction route reads it back from the database. */
module Catalog {
  import opened Cutoff

  datatype Location = Location(city: string, district: string, state: string)

  /** A branch and its cutoffs keyed by reservation category. */
  datatype Branch = Branch(branchName: string, cutoffs: map<string, RawCutoff>)

  /** `id` is the database `_id`; `collegeType` is the schema's `type`. */
  datatype College = College(
    id: string,
    code: string,
    name: string,
    location: Location,
    collegeType: string,
    autonomyStatus: string,
    branches: seq<Branch>)

  /** The values the schema admits for `type`. */
  const CollegeTypes: seq<string> := ["Government", "Private", "Government Aided", "Non-Autonomous"]

  /** The values the schema admits for `autonomyStatus`. */
  const AutonomyStatuses: seq<string> := ["Autonomous", "Non-Autonomous"]

  /** The category keys the schema declares under `cutoffs`. */
  const CutoffCategories: seq<string> := ["OPEN", "SC", "ST", "VJ", "NT1", "NT2", "NT3", "OBC", "EWS", "TFWS"]
}
