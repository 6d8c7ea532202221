/** The record types shared by the client pages: users, incident reports and
    accommodations, as declared in `client/src/App.tsx`.  Timestamps are the
    milliseconds since the epoch that `new Date(...).getTime()` yields. */
module Records {
  import opened Wrappers

  datatype Role = Student | Owner | Admin

  /** The role as the string the server sends (`'student'`, `'owner'`, `'admin'`). */
  function RoleName(r: Role): string {
    match r
    case Student => "student"
    case Owner => "owner"
    case Admin => "admin"
  }

  datatype User = User(id: string, name: string, email: string, role: Role)

  /** The five report categories. */
  datatype Category = Food | Water | Hygiene | Security | Infrastructure

  datatype ReportStatus = Active | UnderReview | Resolved

  function StatusName(s: ReportStatus): string {
    match s
    case Active => "active"
    case UnderReview => "under_review"
    case Resolved => "resolved"
  }

  datatype Classification = Safe | Risky | HighRisk

  /** The classification as shown and compared by the pages. */
  function ClassificationName(c: Classification): string {
    match c
    case Safe => "Safe"
    case Risky => "Risky"
    case HighRisk => "High Risk"
  }

  datatype Image = Image(url: string, publicId: Option<string>)

  datatype Report = Report(
    id: string,
    accommodationId: string,
    userId: string,
    userName: string,
    category: Category,
    description: string,
    images: Option<seq<Image>>,
    timestamp: int,
    status: ReportStatus)

  datatype Accommodation = Accommodation(
    id: string,
    name: string,
    location: string,
    address: string,
    safetyClassification: Classification,
    riskScore: int,
    ownerId: Option<string>,
    reports: seq<Report>,
    counterEvidence: Option<string>)
}
