/** The projections of the admin panel (`client/src/pages/AdminPanel.tsx`):
    every report tagged with its accommodation's name, the High Risk
    accommodations, and the reports under review. */
module AdminPanel {
  import opened Records
  import Seqs
  import Dashboard

  /** `{ ...report, accommodationName }`. */
  datatype NamedReport = NamedReport(report: Report, accommodationName: string)

  /** `acc.reports.map(report => ({ ...report, accommodationName: acc.name }))`. */
  function TagReports(acc: Accommodation): (r: seq<NamedReport>)
    ensures |r| == |acc.reports|
    ensures forall j :: 0 <= j < |r| ==> r[j].report == acc.reports[j] && r[j].accommodationName == acc.name
  {
    seq(|acc.reports|, j requires 0 <= j < |acc.reports| => NamedReport(acc.reports[j], acc.name))
  }

  /** `allReports`: the tagged reports of every accommodation, accommodation
      by accommodation. */
  function AllReports(accs: seq<Accommodation>): seq<NamedReport> {
    if accs == [] then [] else TagReports(accs[0]) + AllReports(accs[1..])
  }

  /** The number of reports held by the accommodations. */
  function ReportCount(accs: seq<Accommodation>): nat {
    if accs == [] then 0 else |accs[0].reports| + ReportCount(accs[1..])
  }

  /** As many tagged reports as the accommodations hold between them. */
  lemma {:induction false} AllReportsCount(accs: seq<Accommodation>)
    ensures |AllReports(accs)| == ReportCount(accs)
  {
    if accs != [] {
      AllReportsCount(accs[1..]);
    }
  }

  /** Flattening keeps the accommodations' order: the reports of an earlier
      accommodation all come before those of a later one. */
  lemma {:induction false} AllReportsAppend(a: seq<Accommodation>, b: seq<Accommodation>)
    ensures AllReports(a + b) == AllReports(a) + AllReports(b)
  {
    if a == [] {
      assert a + b == b;
    } else {
      assert (a + b)[1..] == a[1..] + b;
      AllReportsAppend(a[1..], b);
    }
  }

  /** Within one accommodation the reports keep their order and are tagged
      with its name. */
  lemma AllReportsSingle(acc: Accommodation)
    ensures AllReports([acc]) == TagReports(acc)
  {
    assert [acc][1..] == [];
  }

  /** Removing the tags gives exactly the dashboard's flattened report list:
      each report is otherwise unchanged. */
  lemma {:induction false} AllReportsUntagged(accs: seq<Accommodation>)
    ensures Untag(AllReports(accs)) == Dashboard.AllReports(accs)
  {
    if accs != [] {
      AllReportsUntagged(accs[1..]);
      UntagAppend(TagReports(accs[0]), AllReports(accs[1..]));
      assert Untag(TagReports(accs[0])) == accs[0].reports;
    }
  }

  /** Every tagged report is a report of some accommodation, tagged with that
      accommodation's name. */
  lemma {:induction false} AllReportsOrigin(accs: seq<Accommodation>, x: NamedReport)
    requires x in AllReports(accs)
    ensures exists i :: 0 <= i < |accs| && x.report in accs[i].reports && x.accommodationName == accs[i].name
  {
    if x in TagReports(accs[0]) {
      var j :| 0 <= j < |accs[0].reports| && TagReports(accs[0])[j] == x;
      assert x.report in accs[0].reports;
    } else {
      AllReportsOrigin(accs[1..], x);
      var i :| 0 <= i < |accs[1..]| && x.report in accs[1..][i].reports && x.accommodationName == accs[1..][i].name;
      assert accs[i + 1] == accs[1..][i];
    }
  }

  function Untag(rs: seq<NamedReport>): (r: seq<Report>)
    ensures |r| == |rs|
    ensures forall k :: 0 <= k < |r| ==> r[k] == rs[k].report
  {
    seq(|rs|, k requires 0 <= k < |rs| => rs[k].report)
  }

  lemma UntagAppend(a: seq<NamedReport>, b: seq<NamedReport>)
    ensures Untag(a + b) == Untag(a) + Untag(b)
  {
  }

  /** `highRiskAccommodations`. */
  function HighRiskAccommodations(accs: seq<Accommodation>): seq<Accommodation> {
    Seqs.Filter(accs, Dashboard.IsHighRisk)
  }

  /** Exactly the High Risk accommodations, in their original order. */
  lemma HighRiskSpec(accs: seq<Accommodation>)
    ensures forall a :: a in HighRiskAccommodations(accs) <==> a in accs && a.safetyClassification == HighRisk
    ensures forall a :: multiset(HighRiskAccommodations(accs))[a] ==
              if a.safetyClassification == HighRisk then multiset(accs)[a] else 0
    ensures Seqs.IsSubsequence(HighRiskAccommodations(accs), accs)
  {
    forall a ensures multiset(HighRiskAccommodations(accs))[a] == if Dashboard.IsHighRisk(a) then multiset(accs)[a] else 0 {
      Seqs.FilterCount(accs, Dashboard.IsHighRisk, a);
    }
    Seqs.FilterIsSubsequence(accs, Dashboard.IsHighRisk);
    forall a ensures a in HighRiskAccommodations(accs) <==> a in accs && Dashboard.IsHighRisk(a) {
      Seqs.FilterMembership(accs, Dashboard.IsHighRisk, a);
    }
  }

  predicate IsUnderReview(r: NamedReport) { r.report.status == UnderReview }

  /** `reportsUnderReview`. */
  function ReportsUnderReview(accs: seq<Accommodation>): seq<NamedReport> {
    Seqs.Filter(AllReports(accs), IsUnderReview)
  }

  /** Exactly the tagged reports whose status is `under_review`, in order. */
  lemma ReportsUnderReviewSpec(accs: seq<Accommodation>)
    ensures forall r :: r in ReportsUnderReview(accs) <==> r in AllReports(accs) && r.report.status == UnderReview
    ensures forall r :: multiset(ReportsUnderReview(accs))[r] ==
              if r.report.status == UnderReview then multiset(AllReports(accs))[r] else 0
    ensures Seqs.IsSubsequence(ReportsUnderReview(accs), AllReports(accs))
  {
    forall r ensures multiset(ReportsUnderReview(accs))[r] == if IsUnderReview(r) then multiset(AllReports(accs))[r] else 0 {
      Seqs.FilterCount(AllReports(accs), IsUnderReview, r);
    }
    Seqs.FilterIsSubsequence(AllReports(accs), IsUnderReview);
    forall r ensures r in ReportsUnderReview(accs) <==> r in AllReports(accs) && IsUnderReview(r) {
      Seqs.FilterMembership(AllReports(accs), IsUnderReview, r);
    }
  }

  /** The reports listed under "All Recent Reports": the first ten. */
  function ListedReports(accs: seq<Accommodation>): (r: seq<NamedReport>)
    ensures |r| == if |AllReports(accs)| <= 10 then |AllReports(accs)| else 10
    ensures r == AllReports(accs)[..|r|]
  {
    Seqs.Take(AllReports(accs), 10)
  }
}
