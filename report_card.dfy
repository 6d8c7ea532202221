/** The lookups and prop derivations of a report card
    (`client/src/components/ReportCard.tsx`). */
module ReportCard {
  import opened Wrappers

  /** The report as the server sends it to "My Reports"; only the fields the
      card's logic reads. */
  datatype CardReport = CardReport(
    id: string,
    issueType: string,
    status: Option<string>,
    upvotes: Option<int>,
    upvotedBy: Option<seq<string>>,
    user: Option<string>)

  const IssueTypes: set<string> := {"Food Safety", "Water Quality", "Hygiene", "Security", "Infrastructure"}

  /** `getIssueBadgeClass`: the five issue types have their badge; anything
      else gets `badge-default`. */
  function IssueBadgeClass(issueType: string): (cls: string)
    ensures cls == "badge-default" <==> issueType !in IssueTypes
    ensures issueType in {"Food Safety", "Security"} <==> cls == "badge-danger"
    ensures issueType in {"Water Quality", "Infrastructure"} <==> cls == "badge-warning"
    ensures issueType == "Hygiene" <==> cls == "badge-info"
  {
    match issueType
    case "Food Safety" => "badge-danger"
    case "Water Quality" => "badge-warning"
    case "Hygiene" => "badge-info"
    case "Security" => "badge-danger"
    case "Infrastructure" => "badge-warning"
    case _ => "badge-default"
  }

  const StatusGray: string := "bg-gray-100 text-gray-800"

  /** `getStatusBadgeClass`: pending, approved and rejected have their colour;
      anything else is gray. */
  function StatusBadgeClass(status: string): (cls: string)
    ensures cls == StatusGray <==> status !in {"pending", "approved", "rejected"}
    ensures status == "pending" ==> cls == "bg-yellow-100 text-yellow-800"
    ensures status == "approved" ==> cls == "bg-green-100 text-green-800"
    ensures status == "rejected" ==> cls == "bg-red-100 text-red-800"
  {
    match status
    case "pending" => "bg-yellow-100 text-yellow-800"
    case "approved" => "bg-green-100 text-green-800"
    case "rejected" => "bg-red-100 text-red-800"
    case _ => StatusGray
  }

  /** `report.status || 'pending'`: a missing or empty status shows as
      pending; any other status shows as it is. */
  function DisplayStatus(status: Option<string>): (shown: string)
    ensures shown != ""
    ensures status.Some? && status.value != "" ==> shown == status.value
    ensures status.None? || status == Some("") ==> shown == "pending"
  {
    if status.Some? && status.value != "" then status.value else "pending"
  }

  /** A missing status is displayed with the pending colour. */
  lemma MissingStatusIsPending()
    ensures StatusBadgeClass(DisplayStatus(None)) == "bg-yellow-100 text-yellow-800"
  {
  }

  /** The props the card hands to the upvote button. */
  datatype UpvoteProps = UpvoteProps(reportId: string, initialUpvotes: int, initialHasUpvoted: bool, isOwnReport: bool)

  /** The upvote button is rendered only for a signed-in viewer; its count is
      the report's (a missing or zero count is 0), it starts upvoted exactly
      when the viewer is among the upvoters (no list meaning none), and the
      report is the viewer's own exactly when its author is the viewer. */
  function UpvotePropsFor(report: CardReport, currentUserId: Option<string>): (props: Option<UpvoteProps>)
    ensures props.Some? <==> currentUserId.Some? && currentUserId.value != ""
    ensures props.Some? ==> props.value.reportId == report.id
    ensures props.Some? ==> props.value.initialUpvotes == if report.upvotes.Some? then report.upvotes.value else 0
    ensures props.Some? ==>
              (props.value.initialHasUpvoted <==> report.upvotedBy.Some? && currentUserId.value in report.upvotedBy.value)
    ensures props.Some? ==> (props.value.isOwnReport <==> report.user == currentUserId)
  {
    if currentUserId.None? || currentUserId.value == "" then None
    else
      var me := currentUserId.value;
      Some(UpvoteProps(report.id,
                       report.upvotes.GetOr(0),
                       me in report.upvotedBy.GetOr([]),
                       report.user.Some? && report.user.value == me))
  }
}
