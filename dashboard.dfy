/** The read-side projections of the dashboard page
    (`client/src/pages/Dashboard.tsx`): the five most recent reports, the
    safety alerts ordered by risk, and the classification counts. */
module Dashboard {
  import opened Records
  import Seqs

  /** `accommodations.flatMap(acc => acc.reports)`. */
  function AllReports(accs: seq<Accommodation>): (r: seq<Report>)
    ensures forall x :: x in r <==> exists i :: 0 <= i < |accs| && x in accs[i].reports
  {
    if accs == [] then [] else accs[0].reports + AllReports(accs[1..])
  }

  function Timestamp(r: Report): int { r.timestamp }

  function RiskScoreOf(a: Accommodation): int { a.riskScore }

  /** `recentReports`: all reports, newest first, then the first five. */
  function RecentReports(accs: seq<Accommodation>): seq<Report> {
    Seqs.Take(Seqs.SortDesc(AllReports(accs), Timestamp), 5)
  }

  /** At most five reports, each one of the accommodations' reports (counted
      with multiplicity), newest first, and no report left out is newer than
      the oldest one shown. */
  lemma RecentReportsSpec(accs: seq<Accommodation>)
    ensures |RecentReports(accs)| <= 5
    ensures |AllReports(accs)| >= 5 ==> |RecentReports(accs)| == 5
    ensures multiset(RecentReports(accs)) <= multiset(AllReports(accs))
    ensures Seqs.SortedDesc(RecentReports(accs), Timestamp)
    ensures RecentReports(accs) != [] ==>
              forall x :: x in multiset(AllReports(accs)) - multiset(RecentReports(accs)) ==>
                x.timestamp <= RecentReports(accs)[|RecentReports(accs)| - 1].timestamp
  {
    var sorted := Seqs.SortDesc(AllReports(accs), Timestamp);
    Seqs.SortDescSorted(AllReports(accs), Timestamp);
    Seqs.TakeOfSorted(sorted, Timestamp, 5);
    var t := RecentReports(accs);
    var rest := sorted[|t|..];
    assert multiset(AllReports(accs)) - multiset(t) == multiset(rest);
    forall x | x in multiset(rest) ensures x in rest {
    }
  }

  predicate NotSafe(a: Accommodation) { a.safetyClassification != Safe }

  /** `safetyAlerts`: the accommodations not classified Safe, highest risk
      score first. */
  function SafetyAlerts(accs: seq<Accommodation>): seq<Accommodation> {
    Seqs.SortDesc(Seqs.Filter(accs, NotSafe), RiskScoreOf)
  }

  /** The alerts are exactly the accommodations that are not Safe, each as many
      times as it occurs, ordered by non-increasing risk score. */
  lemma SafetyAlertsSpec(accs: seq<Accommodation>)
    ensures multiset(SafetyAlerts(accs)) == multiset(Seqs.Filter(accs, NotSafe))
    ensures forall a :: a in SafetyAlerts(accs) <==> a in accs && a.safetyClassification != Safe
    ensures forall a :: multiset(SafetyAlerts(accs))[a] == if NotSafe(a) then multiset(accs)[a] else 0
    ensures Seqs.SortedDesc(SafetyAlerts(accs), RiskScoreOf)
  {
    forall a ensures multiset(SafetyAlerts(accs))[a] == if NotSafe(a) then multiset(accs)[a] else 0 {
      Seqs.FilterCount(accs, NotSafe, a);
    }
    Seqs.SortDescSorted(Seqs.Filter(accs, NotSafe), RiskScoreOf);
    forall a ensures a in SafetyAlerts(accs) <==> a in accs && NotSafe(a) {
      Seqs.FilterMembership(accs, NotSafe, a);
      assert a in SafetyAlerts(accs) <==> a in multiset(SafetyAlerts(accs));
      assert a in Seqs.Filter(accs, NotSafe) <==> a in multiset(Seqs.Filter(accs, NotSafe));
    }
  }

  /** The alerts shown: the first five. */
  function DisplayedAlerts(accs: seq<Accommodation>): (r: seq<Accommodation>)
    ensures |r| == if |SafetyAlerts(accs)| <= 5 then |SafetyAlerts(accs)| else 5
    ensures r == SafetyAlerts(accs)[..|r|]
  {
    Seqs.Take(SafetyAlerts(accs), 5)
  }

  predicate IsHighRisk(a: Accommodation) { a.safetyClassification == HighRisk }
  predicate IsRisky(a: Accommodation) { a.safetyClassification == Risky }

  function HighRiskCount(accs: seq<Accommodation>): nat { |Seqs.Filter(accs, IsHighRisk)| }
  function RiskyCount(accs: seq<Accommodation>): nat { |Seqs.Filter(accs, IsRisky)| }

  /** The two counts never exceed the number of accommodations. */
  lemma CountsBounded(accs: seq<Accommodation>)
    ensures HighRiskCount(accs) + RiskyCount(accs) <= |accs|
  {
    Seqs.FilterDisjointLengths(accs, IsHighRisk, IsRisky);
  }
}
