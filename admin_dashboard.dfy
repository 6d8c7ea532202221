/** The admin dashboard (`client/src/pages/AdminDashboard.tsx`): which
    moderation controls each row offers, the requests its handlers send, what
    they reload afterwards, and how counter reports are previewed. */
module AdminDashboard {
  import opened Wrappers
  import Seqs
  import Replies

  /** `queryParams.get('tab') || 'overview'`. */
  function InitialTab(tab: Option<string>): (t: string)
    ensures tab.Some? && tab.value != "" ==> t == tab.value
    ensures tab.None? || tab == Some("") ==> t == "overview"
  {
    Replies.OrElse(tab, "overview")
  }

  datatype ReportControl = Approve | Reject | Delete

  /** The buttons of a report row: Approve and Reject only while pending,
      Delete always. */
  function ReportControls(status: string): (controls: set<ReportControl>)
    ensures Delete in controls
    ensures Approve in controls <==> status == "pending"
    ensures Reject in controls <==> status == "pending"
  {
    if status == "pending" then {Approve, Reject, Delete} else {Delete}
  }

  datatype CounterControls = AcceptOrReject | Reviewed

  /** A counter report can be decided while pending; afterwards it shows as
      reviewed. */
  function CounterReportControls(status: string): (c: CounterControls)
    ensures c == AcceptOrReject <==> status == "pending"
  {
    if status == "pending" then AcceptOrReject else Reviewed
  }

  /** The admin's moderation actions. */
  datatype Action =
    | SetReportStatus(reportId: string, status: string)
    | DeleteReport(reportId: string)
    | ToggleBan(userId: string, currentlyBanned: bool)
    | ReviewCounter(counterId: string, decision: string, note: Option<string>)

  /** The JSON body a request carries. */
  datatype Body = StatusBody(status: string) | NoBody | BanBody(isBanned: bool) | ReviewBody(status: string, adminNotes: string)

  datatype Request = Request(verb: string, path: string, body: Body)

  /** The lists the dashboard fetches again. */
  datatype Resource = Stats | Reports | Users | CounterReports

  const Api: string := "http://localhost:5000/api/admin"

  /** The word the ban confirmation uses. */
  function BanWord(currentlyBanned: bool): (w: string)
    ensures w == "unban" <==> currentlyBanned
    ensures w == "ban" <==> !currentlyBanned
  {
    if currentlyBanned then "unban" else "ban"
  }

  /** `adminNotes || ''`: a cancelled or empty prompt sends an empty note. */
  function AdminNotes(note: Option<string>): (n: string)
    ensures note.Some? ==> n == note.value
    ensures note.None? ==> n == ""
  {
    Replies.OrElse(note, "")
  }

  /** Deleting a report and (un)banning a user ask for confirmation first. */
  predicate NeedsConfirm(a: Action) {
    a.DeleteReport? || a.ToggleBan?
  }

  function RequestFor(a: Action): (r: Request)
    ensures a.ToggleBan? ==> r.body == BanBody(!a.currentlyBanned)
    ensures a.ReviewCounter? ==> r.body == ReviewBody(a.decision, AdminNotes(a.note))
  {
    match a
    case SetReportStatus(id, status) => Request("PUT", Api + "/reports/" + id + "/status", StatusBody(status))
    case DeleteReport(id) => Request("DELETE", Api + "/reports/" + id, NoBody)
    case ToggleBan(id, banned) => Request("PUT", Api + "/users/" + id + "/ban", BanBody(!banned))
    case ReviewCounter(id, decision, note) => Request("PUT", Api + "/counter-reports/" + id, ReviewBody(decision, AdminNotes(note)))
  }

  /** What each action reloads after it succeeds. */
  function RefreshAfter(a: Action): (rs: set<Resource>)
    ensures Stats in rs
    ensures Reports in rs <==> !a.ToggleBan?
    ensures Users in rs <==> a.ToggleBan?
    ensures CounterReports in rs <==> a.ReviewCounter?
  {
    match a
    case SetReportStatus(_, _) => {Reports, Stats}
    case DeleteReport(_) => {Reports, Stats}
    case ToggleBan(_, _) => {Users, Stats}
    case ReviewCounter(_, _, _) => {CounterReports, Stats, Reports}
  }

  function SuccessAlert(a: Action, message: Option<string>): string {
    match a
    case SetReportStatus(_, status) => "Report " + status + " successfully!"
    case DeleteReport(_) => "Report deleted successfully!"
    case ToggleBan(_, _) => Replies.AlertText(message)
    case ReviewCounter(_, decision, _) => "Counter report " + decision + " successfully!"
  }

  function ErrorAlert(a: Action): string {
    match a
    case SetReportStatus(_, _) => "Error updating report"
    case DeleteReport(_) => "Error deleting report"
    case ToggleBan(_, _) => "Error updating user"
    case ReviewCounter(_, _, _) => "Error reviewing counter report"
  }

  /** What one handler call does: the request it sends (none when the admin
      declines the confirmation), the alert it raises and what it reloads. */
  datatype Effects = Effects(sent: Option<Request>, alert: Option<string>, refresh: set<Resource>)

  /** One handler call, with the confirmation answer and the server's reply
      as inputs.  Nothing is sent without confirmation where one is asked;
      a reload happens exactly after a successful reply, and always includes
      the statistics. */
  function Handle(a: Action, confirmed: bool, reply: Replies.ApiReply): (e: Effects)
    ensures e.sent.None? <==> NeedsConfirm(a) && !confirmed
    ensures e.sent.Some? ==> e.sent.value == RequestFor(a) && e.alert.Some?
    ensures e.sent.None? ==> e.alert.None? && e.refresh == {}
    ensures e.refresh != {} <==> e.sent.Some? && reply.Succeeded()
    ensures e.refresh != {} ==> Stats in e.refresh
    ensures e.sent.Some? && reply.Succeeded() ==>
              e.refresh == RefreshAfter(a) && e.alert == Some(SuccessAlert(a, reply.message))
    ensures e.sent.Some? && reply.Answered? && !reply.success ==> e.alert == Some(Replies.AlertText(reply.message))
    ensures e.sent.Some? && reply.Thrown? ==> e.alert == Some(ErrorAlert(a))
  {
    if NeedsConfirm(a) && !confirmed then Effects(None, None, {})
    else
      match reply
      case Answered(success, message) =>
        if success then Effects(Some(RequestFor(a)), Some(SuccessAlert(a, message)), RefreshAfter(a))
        else Effects(Some(RequestFor(a)), Some(Replies.AlertText(message)), {})
      case Thrown => Effects(Some(RequestFor(a)), Some(ErrorAlert(a)), {})
  }

  /** Banning and then unbanning a user asks for opposite states, so the two
      toggles cancel out. */
  lemma BanToggleInverse(userId: string, banned: bool)
    ensures RequestFor(ToggleBan(userId, banned)).body.isBanned == !banned
    ensures RequestFor(ToggleBan(userId, RequestFor(ToggleBan(userId, banned)).body.isBanned)).body.isBanned == banned
    ensures BanWord(banned) != BanWord(!banned)
  {
  }

  /** `description?.substring(0, 50)`: at most the first fifty characters. */
  function Preview(description: Option<string>): (p: Option<string>)
    ensures p.Some? <==> description.Some?
    ensures p.Some? ==> |p.value| <= 50 && |p.value| <= |description.value|
    ensures p.Some? ==> p.value == description.value[..|p.value|]
    ensures p.Some? && |description.value| <= 50 ==> p.value == description.value
    ensures p.Some? && |description.value| > 50 ==> |p.value| == 50
  {
    if description.None? then None else Some(Seqs.Take(description.value, 50))
  }
}
