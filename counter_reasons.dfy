/** The reasons an owner can give when countering a report, as enumerated by
    the counter-report schema, and the way the dashboards display them. */
module CounterReasons {
  import Text

  datatype Reason = FalseInformation | OutdatedIssue | MistakenIdentity | ResolvedIssue | MaliciousIntent | Other

  function Code(r: Reason): string {
    match r
    case FalseInformation => "false_information"
    case OutdatedIssue => "outdated_issue"
    case MistakenIdentity => "mistaken_identity"
    case ResolvedIssue => "resolved_issue"
    case MaliciousIntent => "malicious_intent"
    case Other => "other"
  }

  /** The reason a new counter form starts with. */
  const DefaultReason: Reason := FalseInformation

  /** `reason.replace(/_/g, ' ')`. */
  function ReasonText(code: string): (text: string)
    ensures |text| == |code|
    ensures '_' !in text
    ensures forall i :: 0 <= i < |code| ==> text[i] == if code[i] == '_' then ' ' else code[i]
  {
    Text.ReplaceAllRemoves(code, '_', ' ');
    Text.ReplaceAll(code, '_', ' ')
  }

  /** No reason code holds a space. */
  lemma CodeHasNoSpace(r: Reason)
    ensures ' ' !in Code(r)
  {
  }

  /** The displayed reason can be turned back into its code, so no two reasons
      display alike. */
  lemma ReasonTextReadable(r: Reason, s: Reason)
    ensures Text.ReplaceAll(ReasonText(Code(r)), ' ', '_') == Code(r)
    ensures ReasonText(Code(r)) == ReasonText(Code(s)) ==> r == s
  {
    CodeHasNoSpace(r);
    CodeHasNoSpace(s);
    Text.ReplaceAllUndone(Code(r), '_', ' ');
    Text.ReplaceAllUndone(Code(s), '_', ' ');
  }
}
