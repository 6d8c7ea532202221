/** The "I experienced this too" button (`client/src/components/UpvoteButton.tsx`):
    an optimistic toggle that the server's answer then either confirms or
    undoes.  The click and the arrival of the answer are two steps, because the
    optimistic state is visible in between. */
module UpvoteButton {
  import opened Wrappers

  /** The two values the button shows. */
  datatype Counts = Counts(upvotes: int, hasUpvoted: bool)

  /** The optimistic guess: the upvote flag flips, and the count goes down by
      one when taking an upvote back and up by one otherwise. */
  function Optimistic(c: Counts): (r: Counts)
    ensures r.hasUpvoted != c.hasUpvoted
    ensures r.upvotes == c.upvotes + (if r.hasUpvoted then 1 else -1)
  {
    Counts(if c.hasUpvoted then c.upvotes - 1 else c.upvotes + 1, !c.hasUpvoted)
  }

  /** Two optimistic steps cancel out. */
  lemma OptimisticInvolution(c: Counts)
    ensures Optimistic(Optimistic(c)) == c
  {
  }

  /** What the upvote request brings back: the server's values, a response
      without `success`, or an exception. */
  datatype UpvoteReply = Confirmed(upvotes: int, hasUpvoted: bool) | Refused | Thrown

  class UpvoteState {
    const isOwnReport: bool
    var upvotes: int
    var hasUpvoted: bool
    var loading: bool

    constructor(initialUpvotes: int, initialHasUpvoted: bool, isOwnReport: bool)
      ensures this.isOwnReport == isOwnReport
      ensures upvotes == initialUpvotes && hasUpvoted == initialHasUpvoted && !loading
    {
      this.isOwnReport := isOwnReport;
      upvotes := initialUpvotes;
      hasUpvoted := initialHasUpvoted;
      loading := false;
    }

    function Shown(): Counts
      reads this
    {
      Counts(upvotes, hasUpvoted)
    }

    /** The synchronous part of `handleUpvote`.  An own report, a request in
        flight or a missing token leave everything as it was; otherwise the
        request starts, the old values are handed back for a later rollback,
        and the optimistic values are shown. */
    method Click(token: Option<string>) returns (started: bool, prev: Counts)
      modifies this
      ensures started <==> !isOwnReport && !old(loading) && token.Some? && token.value != ""
      ensures !started ==> upvotes == old(upvotes) && hasUpvoted == old(hasUpvoted) && loading == old(loading)
      ensures started ==> prev == old(Shown()) && loading && Shown() == Optimistic(prev)
    {
      prev := Shown();
      if isOwnReport || loading {
        return false, prev;
      }
      if token.None? || token.value == "" {
        return false, prev;
      }
      loading := true;
      var prevUpvotes := upvotes;
      var prevHasUpvoted := hasUpvoted;
      hasUpvoted := !prevHasUpvoted;
      upvotes := if prevHasUpvoted then prevUpvotes - 1 else prevUpvotes + 1;
      started := true;
    }

    /** The asynchronous part: the server's values replace the optimistic ones,
        or the values saved by `Click` come back; in every case the request is
        over. */
    method Settle(reply: UpvoteReply, prev: Counts)
      modifies this
      ensures !loading
      ensures reply.Confirmed? ==> Shown() == Counts(reply.upvotes, reply.hasUpvoted)
      ensures !reply.Confirmed? ==> Shown() == prev
    {
      match reply {
        case Confirmed(u, h) =>
          upvotes := u;
          hasUpvoted := h;
        case Refused =>
          upvotes := prev.upvotes;
          hasUpvoted := prev.hasUpvoted;
        case Thrown =>
          upvotes := prev.upvotes;
          hasUpvoted := prev.hasUpvoted;
      }
      loading := false;
    }
  }

  /** One whole click on a freshly shown button, from the click to the answer:
      the button ends idle, showing the server's values when the server
      confirmed and exactly the values it started with otherwise. */
  method ClickAndSettle(initial: Counts, isOwnReport: bool, token: Option<string>, reply: UpvoteReply)
    returns (shown: Counts, loading: bool)
    ensures !loading
    ensures isOwnReport || token.None? || token == Some("") ==> shown == initial
    ensures !isOwnReport && token.Some? && token.value != "" ==>
              shown == if reply.Confirmed? then Counts(reply.upvotes, reply.hasUpvoted) else initial
  {
    var button := new UpvoteState(initial.upvotes, initial.hasUpvoted, isOwnReport);
    var started, prev := button.Click(token);
    if started {
      button.Settle(reply, prev);
    }
    shown := button.Shown();
    loading := button.loading;
  }

  /** The label under an own report: singular exactly for one confirmation. */
  function ConfirmationLabel(upvotes: int): (word: string)
    ensures word == "confirmation" <==> upvotes == 1
    ensures word == "confirmation" || word == "confirmations"
  {
    if upvotes == 1 then "confirmation" else "confirmations"
  }
}
