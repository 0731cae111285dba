/** The administrators' review methods as the service writes them, each call in one transaction. */
module CourierAdmin {
  import opened CourierReview

  datatype Response = Done | BadRequest | NotFound | Conflict

  class CourierDatabase {
    var status: Status
    var version: nat
    var documents: seq<Document>
    var events: seq<Event>

    constructor (status: Status)
      ensures Row() == Registered(status)
    {
      this.status, version, documents, events := status, 1, [], [];
    }

    function Row(): Courier
      reads this
    {
      Courier(status, version, documents, events, [])
    }

    /** transitionCourier: it succeeds exactly when the reason, the status, the papers and the version all
        allow it, and then records the move. */
    method TransitionCourier(action: Action, submitted: nat, hasReason: bool, eligible: bool)
      returns (response: Response)
      modifies this`status, this`version, this`events
      ensures response == Done <==>
                old(version) == submitted &&
                match action
                case Approve => eligible && old(status) == PENDING_REVIEW
                case RequestChanges => hasReason && old(status) == PENDING_REVIEW
                case Reject => hasReason && old(status) in {PENDING_REVIEW, CHANGES_REQUESTED}
                case Suspend => hasReason && old(status) == APPROVED
                case Reactivate => eligible && old(status) == SUSPENDED
      ensures response == BadRequest <==>
                match action
                case Approve => !eligible && old(status) == PENDING_REVIEW
                case Reactivate => !eligible && old(status) == SUSPENDED
                case _ => !hasReason
      ensures response != NotFound
      ensures response != Done ==> Row() == old(Row())
      ensures response == Done ==>
                version == old(version) + 1 && events == old(events) + [Transitioned(action, old(status), status)] &&
                match action
                case Approve => status == APPROVED
                case RequestChanges => status == CHANGES_REQUESTED
                case Reject => status == REJECTED
                case Suspend => status == SUSPENDED
                case Reactivate => status == APPROVED
      ensures response == Done ==>
                SameRow(Row(), Run(old(Row()), [TransitionRead(action, submitted, eligible), Write(0)]))
    {
      if action in {RequestChanges, Reject, Suspend} && !hasReason {
        return BadRequest;
      }
      if status !in From(action) {
        return Conflict;
      }
      if action in {Approve, Reactivate} && !eligible {
        return BadRequest;
      }
      if version != submitted {
        return Conflict;
      }
      TransitionAtOnce(Row(), action, submitted, eligible);
      events := events + [Transitioned(action, status, To(action))];
      status := To(action);
      version := version + 1;
      return Done;
    }

    /** reviewDocument: a replacement request also sends back a courier under review. */
    method ReviewDocument(d: nat, review: DocumentAction, reviewVersion: nat, hasReason: bool)
      returns (response: Response)
      modifies this
      ensures response == BadRequest <==> review != ApproveDocument && !hasReason
      ensures response == NotFound <==>
                (review == ApproveDocument || hasReason) &&
                (d >= |old(documents)| || !old(documents)[d].isCurrent)
      ensures response == Conflict <==>
                (review == ApproveDocument || hasReason) && d < |old(documents)| && old(documents)[d].isCurrent &&
                (old(documents)[d].reviewVersion != reviewVersion ||
                 old(documents)[d].status !in {DOCUMENT_PENDING, DOCUMENT_REJECTED, DOCUMENT_CHANGES_REQUESTED})
      ensures response != Done ==> Row() == old(Row())
      ensures response == Done ==>
                |documents| == |old(documents)| &&
                (forall x :: 0 <= x < |documents| && x != d ==> documents[x] == old(documents)[x]) &&
                documents[d].isCurrent && documents[d].reviewVersion == reviewVersion + 1 &&
                (review == ApproveDocument ==> documents[d].status == DOCUMENT_APPROVED) &&
                (review == RejectDocument ==> documents[d].status == DOCUMENT_REJECTED) &&
                (review == RequestReplacement ==> documents[d].status == DOCUMENT_CHANGES_REQUESTED)
      ensures response == Done ==>
                events == old(events) + [DocumentReviewed(d, review)] &&
                if review == RequestReplacement && old(status) in {PENDING_REVIEW, CHANGES_REQUESTED}
                then status == CHANGES_REQUESTED && version == old(version) + 1
                else status == old(status) && version == old(version)
      ensures response == Done ==> SameRow(Row(), Run(old(Row()), [ReviewAtOnce(d, review, reviewVersion)]))
    {
      if review != ApproveDocument && !hasReason {
        return BadRequest;
      }
      if d >= |documents| || !documents[d].isCurrent {
        return NotFound;
      }
      var current := documents[d];
      if current.reviewVersion != reviewVersion
         || current.status !in {DOCUMENT_PENDING, DOCUMENT_REJECTED, DOCUMENT_CHANGES_REQUESTED}
      {
        return Conflict;
      }
      ReviewedAtOnce(Row(), d, review, reviewVersion);
      documents := documents[d := current.(status := StatusAfter(review), reviewVersion := current.reviewVersion + 1)];
      if review == RequestReplacement && status in {PENDING_REVIEW, CHANGES_REQUESTED} {
        status := CHANGES_REQUESTED;
        version := version + 1;
      }
      events := events + [DocumentReviewed(d, review)];
      return Done;
    }
  }

  // ---------------------------------------------------------------- one call as a run of statements

  ghost predicate SameRow(a: Courier, b: Courier) {
    a.status == b.status && a.version == b.version && a.documents == b.documents && a.events == b.events
  }

  lemma TransitionAtOnce(c: Courier, action: Action, submitted: nat, eligible: bool)
    requires c.pending == [] && c.status in From(action) && c.version == submitted
    requires eligible || action !in {Approve, Reactivate}
    ensures SameRow(Run(c, [TransitionRead(action, submitted, eligible), Write(0)]),
                    c.(status := To(action), version := c.version + 1,
                       events := c.events + [Transitioned(action, c.status, To(action))]))
  {
    var read := Apply(c, TransitionRead(action, submitted, eligible));
    FirstOf(c, TransitionRead(action, submitted, eligible), [Write(0)]);
    FirstOf(read, Write(0), []);
    assert [Write(0)] + [] == [Write(0)];
    assert [TransitionRead(action, submitted, eligible)] + [Write(0)]
        == [TransitionRead(action, submitted, eligible), Write(0)];
  }

  lemma ReviewedAtOnce(c: Courier, d: nat, review: DocumentAction, reviewVersion: nat)
    requires c.pending == [] && MayReview(c, d, reviewVersion)
    ensures var matched := review == RequestReplacement && c.status in UNDER_REVIEW;
            SameRow(Run(c, [ReviewAtOnce(d, review, reviewVersion)]),
                    RecordReview(Reads(c, Review(d, review, matched)), 0))
  {
    FirstOf(c, ReviewAtOnce(d, review, reviewVersion), []);
    assert [ReviewAtOnce(d, review, reviewVersion)] + [] == [ReviewAtOnce(d, review, reviewVersion)];
  }
}
