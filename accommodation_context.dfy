/** The client-side accommodation store of `AccommodationContext.tsx`: the list
    of accommodations, the operations that replace it, and the category-weighted
    risk score that `addReport` recomputes. */
module AccommodationContext {
  import opened Wrappers
  import opened Records
  import Text

  /** The score one report adds, by category. */
  function Weight(c: Category): (w: int)
    ensures 10 <= w <= 25
  {
    match c
    case Security => 25
    case Infrastructure => 20
    case Food => 15
    case Water => 15
    case Hygiene => 10
  }

  /** The risk score of a list of reports: the sum of their weights, taken in
      list order as the `forEach` does. */
  function RiskScore(rs: seq<Report>): int {
    if rs == [] then 0 else RiskScore(rs[..|rs| - 1]) + Weight(rs[|rs| - 1].category)
  }

  /** The classification bands of the score. */
  function Classify(score: int): (c: Classification)
    ensures c == HighRisk <==> score >= 70
    ensures c == Risky <==> 40 <= score < 70
    ensures c == Safe <==> score < 40
  {
    if score >= 70 then HighRisk else if score >= 40 then Risky else Safe
  }

  /** How severe a classification is, for comparing them. */
  function Severity(c: Classification): nat {
    match c
    case Safe => 0
    case Risky => 1
    case HighRisk => 2
  }

  /** The `forEach` loop that accumulates the risk score. */
  method ScoreReports(rs: seq<Report>) returns (score: int)
    ensures score == RiskScore(rs)
    ensures 10 * |rs| <= score <= 25 * |rs|
  {
    score := 0;
    var i := 0;
    while i < |rs|
      invariant 0 <= i <= |rs|
      invariant score == RiskScore(rs[..i])
    {
      assert rs[..i + 1][..i] == rs[..i];
      score := score + Weight(rs[i].category);
      i := i + 1;
    }
    assert rs[..i] == rs;
    RiskScoreBounds(rs);
  }

  /** Appending a report adds exactly its weight. */
  lemma RiskScoreSnoc(rs: seq<Report>, r: Report)
    ensures RiskScore(rs + [r]) == RiskScore(rs) + Weight(r.category)
  {
    assert (rs + [r])[..|rs|] == rs;
  }

  /** The score is additive over concatenation, so it does not depend on how
      the reports are split up. */
  lemma {:induction false} RiskScoreAppend(a: seq<Report>, b: seq<Report>)
    ensures RiskScore(a + b) == RiskScore(a) + RiskScore(b)
    decreases |b|
  {
    if b == [] {
      assert a + b == a;
    } else {
      var b' := b[..|b| - 1];
      var last := b[|b| - 1];
      assert b == b' + [last];
      assert a + b == (a + b') + [last];
      RiskScoreAppend(a, b');
      RiskScoreSnoc(a + b', last);
      RiskScoreSnoc(b', last);
    }
  }

  /** Each report adds between 10 and 25. */
  lemma {:induction false} RiskScoreBounds(rs: seq<Report>)
    ensures 10 * |rs| <= RiskScore(rs) <= 25 * |rs|
  {
    if rs != [] {
      RiskScoreBounds(rs[..|rs| - 1]);
    }
  }

  /** The score depends only on the categories: two report lists with the same
      categories in the same positions score the same. */
  lemma {:induction false} RiskScoreByCategory(a: seq<Report>, b: seq<Report>)
    requires |a| == |b|
    requires forall i :: 0 <= i < |a| ==> a[i].category == b[i].category
    ensures RiskScore(a) == RiskScore(b)
  {
    if a != [] {
      RiskScoreByCategory(a[..|a| - 1], b[..|b| - 1]);
    }
  }

  /** A higher score never gives a less severe classification. */
  lemma ClassifyMonotone(s1: int, s2: int)
    requires s1 <= s2
    ensures Severity(Classify(s1)) <= Severity(Classify(s2))
  {
  }

  /** Recomputing after one more report never makes an accommodation look
      safer than recomputing without it. */
  lemma AddingReportNeverSafer(rs: seq<Report>, r: Report)
    ensures RiskScore(rs + [r]) >= RiskScore(rs) + 10
    ensures Severity(Classify(RiskScore(rs))) <= Severity(Classify(RiskScore(rs + [r])))
  {
    RiskScoreSnoc(rs, r);
  }

  /** The report fields the caller of `addReport` supplies. */
  datatype ReportData = ReportData(
    accommodationId: string,
    category: Category,
    description: string,
    images: Option<seq<Image>>,
    status: ReportStatus)

  const CurrentUserId: string := "current-user-id"
  const VerifiedResident: string := "Verified Resident"

  /** The report `addReport` builds at time `now`: the caller's fields with a
      fresh id, the fixed user placeholders, the timestamp, and status
      `active` whatever status the caller gave. */
  function NewReport(data: ReportData, now: nat): Report {
    Report("r" + Text.Decimal(now), data.accommodationId, CurrentUserId, VerifiedResident,
           data.category, data.description, data.images, now, Active)
  }

  /** The status passed in by the caller plays no part in the new report. */
  lemma NewReportIgnoresStatus(data: ReportData, now: nat, s: ReportStatus)
    ensures NewReport(data.(status := s), now) == NewReport(data, now)
    ensures NewReport(data, now).status == Active
  {
  }

  /** The two statuses `updateAccommodationStatus` accepts. */
  datatype StatusUpdate = MarkUnderReview | MarkResolved

  /** The report list after a status update: `under_review` marks every report
      under review, `resolved` leaves every status as it was, and nothing but
      the status changes. */
  function ApplyStatus(rs: seq<Report>, u: StatusUpdate): (r: seq<Report>)
    ensures |r| == |rs|
    ensures u == MarkUnderReview ==> forall i :: 0 <= i < |r| ==> r[i].status == UnderReview
    ensures u == MarkResolved ==> r == rs
    ensures forall i :: 0 <= i < |r| ==> r[i].(status := rs[i].status) == rs[i]
  {
    seq(|rs|, i requires 0 <= i < |rs| =>
      rs[i].(status := if u == MarkUnderReview then UnderReview else rs[i].status))
  }

  /** A status update does not change what the reports would score. */
  lemma ApplyStatusKeepsScore(rs: seq<Report>, u: StatusUpdate)
    ensures RiskScore(ApplyStatus(rs, u)) == RiskScore(rs)
  {
    RiskScoreByCategory(ApplyStatus(rs, u), rs);
  }

  /** Some accommodation in `accs` has id `id` (the `find` of `addReport`). */
  predicate HasId(accs: seq<Accommodation>, id: string) {
    exists i :: 0 <= i < |accs| && accs[i].id == id
  }

  class AccommodationStore {
    var accommodations: seq<Accommodation>

    constructor(initial: seq<Accommodation>)
      ensures accommodations == initial
    {
      accommodations := initial;
    }

    /** `addReport`: every accommodation with the given id gets the new report
        appended, its risk score recomputed over all its reports and its
        classification re-derived; the others are untouched, and with no such
        accommodation the list stays as it was. */
    method AddReport(accommodationId: string, data: ReportData, now: nat)
      modifies this
      ensures !HasId(old(accommodations), accommodationId) ==> accommodations == old(accommodations)
      ensures |accommodations| == |old(accommodations)|
      ensures forall i :: 0 <= i < |accommodations| && old(accommodations)[i].id != accommodationId ==>
                accommodations[i] == old(accommodations)[i]
      ensures forall i :: 0 <= i < |accommodations| && old(accommodations)[i].id == accommodationId ==>
                var a := old(accommodations)[i];
                accommodations[i] == a.(reports := a.reports + [NewReport(data, now)],
                                         riskScore := RiskScore(a.reports + [NewReport(data, now)]),
                                         safetyClassification := Classify(RiskScore(a.reports + [NewReport(data, now)])))
    {
      if !HasId(accommodations, accommodationId) {
        return;
      }
      var report := NewReport(data, now);
      var updated: seq<Accommodation> := [];
      var i := 0;
      while i < |accommodations|
        invariant accommodations == old(accommodations)
        invariant 0 <= i <= |accommodations|
        invariant |updated| == i
        invariant forall k :: 0 <= k < i && accommodations[k].id != accommodationId ==>
                    updated[k] == accommodations[k]
        invariant forall k :: 0 <= k < i && accommodations[k].id == accommodationId ==>
                    var a := accommodations[k];
                    updated[k] == a.(reports := a.reports + [report],
                                     riskScore := RiskScore(a.reports + [report]),
                                     safetyClassification := Classify(RiskScore(a.reports + [report])))
      {
        var acc := accommodations[i];
        if acc.id == accommodationId {
          var reports := acc.reports + [report];
          var score := ScoreReports(reports);
          updated := updated + [acc.(reports := reports, riskScore := score,
                                     safetyClassification := Classify(score))];
        } else {
          updated := updated + [acc];
        }
        i := i + 1;
      }
      accommodations := updated;
    }

    /** `updateAccommodationStatus`: the matching accommodations get their
        reports' statuses updated; nothing else changes. */
    method UpdateAccommodationStatus(accommodationId: string, u: StatusUpdate)
      modifies this
      ensures |accommodations| == |old(accommodations)|
      ensures forall i :: 0 <= i < |accommodations| ==>
                accommodations[i] ==
                  if old(accommodations)[i].id == accommodationId
                  then old(accommodations)[i].(reports := ApplyStatus(old(accommodations)[i].reports, u))
                  else old(accommodations)[i]
    {
      var accs := accommodations;
      accommodations := seq(|accs|, i requires 0 <= i < |accs| =>
        if accs[i].id == accommodationId then accs[i].(reports := ApplyStatus(accs[i].reports, u))
        else accs[i]);
    }

    /** `addCounterEvidence`: the matching accommodations get the evidence;
        nothing else changes. */
    method AddCounterEvidence(accommodationId: string, evidence: string)
      modifies this
      ensures |accommodations| == |old(accommodations)|
      ensures forall i :: 0 <= i < |accommodations| ==>
                accommodations[i] ==
                  if old(accommodations)[i].id == accommodationId
                  then old(accommodations)[i].(counterEvidence := Some(evidence))
                  else old(accommodations)[i]
    {
      var accs := accommodations;
      accommodations := seq(|accs|, i requires 0 <= i < |accs| =>
        if accs[i].id == accommodationId then accs[i].(counterEvidence := Some(evidence))
        else accs[i]);
    }
  }
}
