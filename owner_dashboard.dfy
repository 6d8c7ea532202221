/** The owner dashboard (`client/src/pages/OwnerDashboard.tsx`): amenity
    parsing, when a report may be countered, the counter badge, risk styling,
    and the two forms with their resets. */
module OwnerDashboard {
  import opened Wrappers
  import opened Text
  import Seqs
  import Replies
  import CounterReasons

  predicate NonEmpty(a: string) { a != "" }

  function TrimEach(parts: seq<string>): (r: seq<string>)
    ensures |r| == |parts|
    ensures forall k :: 0 <= k < |r| ==> r[k] == Trim(parts[k])
  {
    seq(|parts|, k requires 0 <= k < |parts| => Trim(parts[k]))
  }

  /** `amenities.split(',').map(a => a.trim()).filter(a => a)`. */
  function ParseAmenities(amenities: string): seq<string> {
    Seqs.Filter(TrimEach(Split(amenities, ',')), NonEmpty)
  }

  /** Parsed amenities are never empty, never padded with white space and never
      hold a comma, and there are at most one more than there are commas. */
  lemma ParseAmenitiesClean(amenities: string)
    ensures forall k :: 0 <= k < |ParseAmenities(amenities)| ==>
              var a := ParseAmenities(amenities)[k];
              a != "" && IsTrimmed(a) && ',' !in a
    ensures |ParseAmenities(amenities)| <= multiset(amenities)[','] + 1
  {
    var parts := Split(amenities, ',');
    var trimmed := TrimEach(parts);
    var r := ParseAmenities(amenities);
    forall k | 0 <= k < |r| ensures r[k] != "" && IsTrimmed(r[k]) && ',' !in r[k] {
      assert r[k] in trimmed by {
        Seqs.FilterMembership(trimmed, NonEmpty, r[k]);
      }
      var j :| 0 <= j < |trimmed| && trimmed[j] == r[k];
      assert ',' !in parts[j];
    }
  }

  /** An amenity list typed as clean names separated by commas parses back
      into exactly those names. */
  lemma ParseAmenitiesJoin(names: seq<string>)
    requires names != []
    requires forall k :: 0 <= k < |names| ==> names[k] != "" && IsTrimmed(names[k]) && ',' !in names[k]
    ensures ParseAmenities(Join(names, ',')) == names
  {
    SplitJoin(names, ',');
    forall k | 0 <= k < |names| ensures Trim(names[k]) == names[k] {
      TrimOfTrimmed(names[k]);
    }
    assert TrimEach(names) == names;
    Seqs.FilterKeepsAll(names, NonEmpty);
  }

  /** A report as the owner's report list shows it. */
  datatype OwnerReport = OwnerReport(id: string, status: string, isCountered: bool, counterStatus: string)

  /** "Counter This Report" is offered for a report not yet countered and not
      rejected. */
  predicate CanCounter(r: OwnerReport) {
    !r.isCountered && r.status != "rejected"
  }

  /** The counter badge: shown exactly for countered reports, with the
      counter's status. */
  function CounterBadge(r: OwnerReport): (badge: Option<string>)
    ensures badge.Some? <==> r.isCountered
    ensures badge.Some? ==> badge.value == "Counter: " + r.counterStatus
  {
    if r.isCountered then Some("Counter: " + r.counterStatus) else None
  }

  /** A report offered for countering never carries a counter badge, and a
      rejected report is never offered. */
  lemma CounterOfferExcludesBadge(r: OwnerReport)
    ensures CanCounter(r) ==> CounterBadge(r).None?
    ensures r.status == "rejected" ==> !CanCounter(r)
  {
  }

  /** The risk-score style of an accommodation card. */
  function RiskStyle(riskScore: int): (style: string)
    ensures style == "high-risk" <==> riskScore > 50
    ensures style == "high-risk" || style == "low-risk"
  {
    if riskScore > 50 then "high-risk" else "low-risk"
  }

  datatype AccommodationForm = AccommodationForm(
    name: string, address: string, city: string, description: string,
    amenities: string, totalRooms: int, pricePerMonth: int, contactPhone: string)

  const BlankAccommodation: AccommodationForm := AccommodationForm("", "", "", "", "", 0, 0, "")

  /** The body of the add-accommodation request: the form, with the amenities
      parsed into a list. */
  datatype AccommodationRequest = AccommodationRequest(
    name: string, address: string, city: string, description: string,
    amenities: seq<string>, totalRooms: int, pricePerMonth: int, contactPhone: string)

  datatype CounterForm = CounterForm(reason: string, explanation: string, evidenceDescription: string)

  const BlankCounter: CounterForm := CounterForm(CounterReasons.Code(CounterReasons.DefaultReason), "", "")

  datatype CounterRequest = CounterRequest(reportId: string, reason: string, explanation: string, evidenceDescription: string)

  const AccommodationAdded: string := "Accommodation added successfully!"
  const AddFailed: string := "Error adding accommodation"
  const CounterSubmitted: string := "Counter report submitted successfully!"
  const CounterFailed: string := "Error submitting counter report"

  class OwnerForms {
    var newAccommodation: AccommodationForm
    var counterForm: CounterForm
    var showAddModal: bool
    var showCounterModal: bool
    var selectedReport: Option<OwnerReport>

    constructor()
      ensures newAccommodation == BlankAccommodation && counterForm == BlankCounter
      ensures !showAddModal && !showCounterModal && selectedReport.None?
    {
      newAccommodation := BlankAccommodation;
      counterForm := BlankCounter;
      showAddModal := false;
      showCounterModal := false;
      selectedReport := None;
    }

    /** The "Counter This Report" button, which only an eligible report
        shows. */
    method OpenCounter(report: OwnerReport)
      requires CanCounter(report)
      modifies this
      ensures selectedReport == Some(report) && showCounterModal
      ensures newAccommodation == old(newAccommodation) && counterForm == old(counterForm)
      ensures showAddModal == old(showAddModal)
    {
      selectedReport := Some(report);
      showCounterModal := true;
    }

    /** `handleAddAccommodation`: sends the form with parsed amenities; on
        success closes the modal, blanks the form and asks for a refresh;
        otherwise only alerts. */
    method HandleAddAccommodation(reply: Replies.ApiReply) returns (request: AccommodationRequest, alert: string, refresh: bool)
      modifies this
      ensures var f := old(newAccommodation);
              request == AccommodationRequest(f.name, f.address, f.city, f.description,
                                              ParseAmenities(f.amenities), f.totalRooms, f.pricePerMonth, f.contactPhone)
      ensures refresh <==> reply.Succeeded()
      ensures reply.Succeeded() ==>
                alert == AccommodationAdded && !showAddModal && newAccommodation == BlankAccommodation
      ensures !reply.Succeeded() ==>
                alert == (if reply.Thrown? then AddFailed else Replies.AlertText(reply.message)) &&
                showAddModal == old(showAddModal) && newAccommodation == old(newAccommodation)
      ensures counterForm == old(counterForm) && selectedReport == old(selectedReport)
      ensures showCounterModal == old(showCounterModal)
    {
      var f := newAccommodation;
      request := AccommodationRequest(f.name, f.address, f.city, f.description,
                                      ParseAmenities(f.amenities), f.totalRooms, f.pricePerMonth, f.contactPhone);
      refresh := false;
      match reply {
        case Answered(success, message) =>
          if success {
            alert := AccommodationAdded;
            showAddModal := false;
            newAccommodation := BlankAccommodation;
            refresh := true;
          } else {
            alert := Replies.AlertText(message);
          }
        case Thrown =>
          alert := AddFailed;
      }
    }

    /** `handleSubmitCounter`: without a selected report nothing happens;
        otherwise the form is sent for that report, and on success the modal
        closes, the selection clears and the form returns to its defaults. */
    method HandleSubmitCounter(reply: Replies.ApiReply) returns (request: Option<CounterRequest>, alert: Option<string>, refresh: bool)
      modifies this
      ensures old(selectedReport).None? ==>
                request.None? && alert.None? && !refresh &&
                counterForm == old(counterForm) && selectedReport == old(selectedReport) &&
                showCounterModal == old(showCounterModal)
      ensures old(selectedReport).Some? ==>
                request == Some(CounterRequest(old(selectedReport).value.id, old(counterForm).reason,
                                               old(counterForm).explanation, old(counterForm).evidenceDescription))
      ensures refresh <==> old(selectedReport).Some? && reply.Succeeded()
      ensures refresh ==>
                alert == Some(CounterSubmitted) && !showCounterModal && selectedReport.None? && counterForm == BlankCounter
      ensures old(selectedReport).Some? && !reply.Succeeded() ==>
                alert == Some(if reply.Thrown? then CounterFailed else Replies.AlertText(reply.message)) &&
                counterForm == old(counterForm) && selectedReport == old(selectedReport) &&
                showCounterModal == old(showCounterModal)
      ensures newAccommodation == old(newAccommodation) && showAddModal == old(showAddModal)
    {
      if selectedReport.None? {
        return None, None, false;
      }
      var f := counterForm;
      request := Some(CounterRequest(selectedReport.value.id, f.reason, f.explanation, f.evidenceDescription));
      refresh := false;
      match reply {
        case Answered(success, message) =>
          if success {
            alert := Some(CounterSubmitted);
            showCounterModal := false;
            selectedReport := None;
            counterForm := BlankCounter;
            refresh := true;
          } else {
            alert := Some(Replies.AlertText(message));
          }
        case Thrown =>
          alert := Some(CounterFailed);
      }
    }
  }
}
