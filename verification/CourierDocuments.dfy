/** The documents of a courier under review: what their verdicts say of them, however the two halves of the
    reviews interleave with each other and with uploads. */
module CourierDocuments {
  import opened Options
  import opened CourierReview

  /** The verdicts that the events record about a document, in their order. */
  function Verdicts(events: seq<Event>, d: nat): seq<DocumentAction> {
    if events == [] then []
    else
      var before, last := Verdicts(events[..|events| - 1], d), events[|events| - 1];
      if last.DocumentReviewed? && last.document == d then before + [last.review] else before
  }

  lemma VerdictsAppend(events: seq<Event>, e: Event, d: nat)
    ensures Verdicts(events + [e], d)
         == if e.DocumentReviewed? && e.document == d then Verdicts(events, d) + [e.review] else Verdicts(events, d)
  {
    assert (events + [e])[..|events|] == events;
  }

  lemma {:induction false} NoVerdicts(events: seq<Event>, d: nat)
    requires forall e :: e in events && e.DocumentReviewed? ==> e.document != d
    ensures Verdicts(events, d) == []
  {
    if events != [] {
      NoVerdicts(events[..|events| - 1], d);
    }
  }

  // ---------------------------------------------------------------- what the verdicts tell

  /** The status that a document's verdicts give it while it is current. */
  predicate Told(status: DocumentStatus, verdicts: seq<DocumentAction>) {
    if verdicts == [] then status == DOCUMENT_PENDING
    else
      match verdicts[|verdicts| - 1]
      case ApproveDocument => status == DOCUMENT_APPROVED
      case RejectDocument => status == DOCUMENT_REJECTED
      case RequestReplacement => status == DOCUMENT_CHANGES_REQUESTED
  }

  /** An approval is a document's last verdict. */
  ghost predicate ApprovalIsLast(verdicts: seq<DocumentAction>) {
    forall i :: 0 <= i < |verdicts| - 1 ==> verdicts[i] != ApproveDocument
  }

  ghost predicate DocumentSound(document: Document, verdicts: seq<DocumentAction>) {
    document.reviewVersion == 1 + |verdicts| && ApprovalIsLast(verdicts) &&
    (if document.isCurrent then Told(document.status, verdicts) else document.status == SUPERSEDED)
  }

  predicate Reviewing(c: Courier, t: nat) {
    t < |c.pending| && c.pending[t].Review?
  }

  predicate Reviewable(c: Courier, d: nat) {
    d < |c.documents| && c.documents[d].isCurrent && c.documents[d].status != DOCUMENT_APPROVED
  }

  /** A review between its halves holds its document, which can still be reviewed. */
  ghost predicate ReviewsSound(c: Courier) {
    (forall t: nat :: Reviewing(c, t) ==> Reviewable(c, c.pending[t].document)) &&
    (forall t: nat, u: nat :: Reviewing(c, t) && Reviewing(c, u) && c.pending[t].document == c.pending[u].document ==>
      t == u)
  }

  ghost predicate DocumentsSound(c: Courier) {
    (forall e :: e in c.events && e.DocumentReviewed? ==> e.document < |c.documents|) &&
    (forall d: nat :: d < |c.documents| ==> DocumentSound(c.documents[d], Verdicts(c.events, d)))
  }

  ghost predicate PapersSound(c: Courier) {
    ReviewsSound(c) && DocumentsSound(c)
  }

  lemma CheckKeepsReviews(c: Courier, d: nat, review: DocumentAction, reviewVersion: nat)
    requires ReviewsSound(c)
    ensures ReviewsSound(CheckReview(c, d, review, reviewVersion))
  {
    var c' := CheckReview(c, d, review, reviewVersion);
    assert forall t: nat :: t < |c.pending| ==> (Reviewing(c', t) <==> Reviewing(c, t));
  }

  lemma RecordKeepsReviews(c: Courier, t: nat)
    requires ReviewsSound(c) && Reviewing(c, t)
    ensures ReviewsSound(RecordReview(c, t))
  {
    var c' := RecordReview(c, t);
    assert forall u: nat :: Reviewing(c', u) <==> u != t && Reviewing(c, u);
    forall u: nat | Reviewing(c', u) ensures Reviewable(c', c'.pending[u].document) {
      assert Reviewable(c, c.pending[u].document);
    }
  }

  lemma UploadKeepsReviews(c: Courier, supersedes: Option<nat>)
    requires ReviewsSound(c)
    ensures ReviewsSound(Upload(c, supersedes))
  {
    var c' := Upload(c, supersedes);
    forall u: nat | Reviewing(c', u) ensures Reviewable(c', c'.pending[u].document) {
      assert Reviewing(c, u) && Reviewable(c, c.pending[u].document);
    }
  }

  lemma RecordKeepsDocuments(c: Courier, t: nat)
    requires PapersSound(c) && Reviewing(c, t)
    ensures DocumentsSound(RecordReview(c, t))
  {
    var c', p := RecordReview(c, t), c.pending[t];
    assert Reviewable(c, p.document);
    forall d: nat | d < |c'.documents| ensures DocumentSound(c'.documents[d], Verdicts(c'.events, d)) {
      assert DocumentSound(c.documents[d], Verdicts(c.events, d));
      VerdictsAppend(c.events, DocumentReviewed(p.document, p.review), d);
    }
  }

  lemma UploadKeepsDocuments(c: Courier, supersedes: Option<nat>)
    requires DocumentsSound(c)
    ensures DocumentsSound(Upload(c, supersedes))
  {
    var c' := Upload(c, supersedes);
    NoVerdicts(c.events, |c.documents|);
    forall d: nat | d < |c'.documents| ensures DocumentSound(c'.documents[d], Verdicts(c'.events, d)) {
      assert d < |c.documents| ==> DocumentSound(c.documents[d], Verdicts(c.events, d));
    }
  }

  lemma WriteKeepsPapers(c: Courier, t: nat)
    requires PapersSound(c) && t < |c.pending|
    ensures PapersSound(WriteAny(c, t))
  {
    var c' := WriteAny(c, t);
    assert c'.documents == c.documents;
    assert forall u: nat :: Reviewing(c', u) ==> Reviewing(c, u) && c'.pending[u] == c.pending[u];
    if c'.events != c.events {
      var e := c'.events[|c.events|];
      assert c'.events == c.events + [e] && !e.DocumentReviewed?;
      forall d: nat | d < |c.documents| ensures DocumentSound(c'.documents[d], Verdicts(c'.events, d)) {
        assert DocumentSound(c.documents[d], Verdicts(c.events, d));
        VerdictsAppend(c.events, e, d);
      }
    }
  }

  lemma OthersKeepPapers(c: Courier, s: Step)
    requires PapersSound(c)
    requires s.TransitionRead? || s.SubmissionRead? || s.EditRead? || s.Rollback?
    ensures PapersSound(Apply(c, s))
  {
    var c' := Apply(c, s);
    assert c'.documents == c.documents && c'.events == c.events;
    assert forall u: nat :: Reviewing(c', u) ==> Reviewing(c, u) && c'.pending[u] == c.pending[u];
  }

  lemma CheckKeepsPapers(c: Courier, d: nat, review: DocumentAction, reviewVersion: nat)
    requires PapersSound(c)
    ensures PapersSound(CheckReview(c, d, review, reviewVersion))
  {
    CheckKeepsReviews(c, d, review, reviewVersion);
  }

  lemma StepKeepsPapers(c: Courier, s: Step)
    requires PapersSound(c)
    ensures PapersSound(Apply(c, s))
  {
    match s
    case Write(t) => if t < |c.pending| { WriteKeepsPapers(c, t); }
    case ReviewCheck(d, review, reviewVersion) => CheckKeepsPapers(c, d, review, reviewVersion);
    case ReviewRecord(t) =>
      if Reviewing(c, t) {
        RecordKeepsReviews(c, t);
        RecordKeepsDocuments(c, t);
      }
    case ReviewAtOnce(d, review, reviewVersion) =>
      CheckKeepsPapers(c, d, review, reviewVersion);
      var checked := CheckReview(c, d, review, reviewVersion);
      if Reviewing(checked, |c.pending|) {
        RecordKeepsReviews(checked, |c.pending|);
        RecordKeepsDocuments(checked, |c.pending|);
      }
    case Uploading(supersedes) =>
      UploadKeepsReviews(c, supersedes);
      UploadKeepsDocuments(c, supersedes);
    case _ => OthersKeepPapers(c, s);
  }

  lemma {:induction false} RunKeepsPapers(c: Courier, steps: seq<Step>)
    requires PapersSound(c)
    ensures PapersSound(Run(c, steps))
    decreases |steps|
  {
    if steps != [] {
      StepKeepsPapers(c, steps[0]);
      RunKeepsPapers(Apply(c, steps[0]), steps[1..]);
    }
  }

  /** After every run a current document has the status that its last verdict names, PENDING when it has none;
      an approval is its last verdict; and its review version counts its verdicts. */
  lemma VerdictsTell(start: Status, steps: seq<Step>, d: nat)
    requires d < |Run(Registered(start), steps).documents|
    ensures var c := Run(Registered(start), steps);
            var verdicts := Verdicts(c.events, d);
            (c.documents[d].isCurrent ==> Told(c.documents[d].status, verdicts)) &&
            (!c.documents[d].isCurrent ==> c.documents[d].status == SUPERSEDED) &&
            ApprovalIsLast(verdicts) && c.documents[d].reviewVersion == 1 + |verdicts|
  {
    assert PapersSound(Registered(start));
    RunKeepsPapers(Registered(start), steps);
    var c := Run(Registered(start), steps);
    assert DocumentSound(c.documents[d], Verdicts(c.events, d));
  }

  // ---------------------------------------------------------------- which reviews are open

  /** In every reachable state a current document admits a review, at its review version and no other, if and
      only if its last verdict is not an approval. */
  lemma ReviewableExactly(start: Status, steps: seq<Step>, d: nat, reviewVersion: nat)
    requires var c := Run(Registered(start), steps); d < |c.documents| && c.documents[d].isCurrent
    ensures var c := Run(Registered(start), steps);
            var verdicts := Verdicts(c.events, d);
            MayReview(c, d, reviewVersion) <==>
              reviewVersion == 1 + |verdicts| &&
              (verdicts == [] || verdicts[|verdicts| - 1] != ApproveDocument)
  {
    VerdictsTell(start, steps, d);
  }

  /** Once approved, a document keeps its row until a new upload supersedes it, and it is never current again. */
  ghost predicate StaysApproved(c: Courier, d: nat) {
    d < |c.documents| && (c.documents[d].status == DOCUMENT_APPROVED || !c.documents[d].isCurrent)
  }

  lemma StepKeepsApproval(c: Courier, s: Step, d: nat)
    requires PapersSound(c) && StaysApproved(c, d)
    ensures StaysApproved(Apply(c, s), d)
  {
    if s.ReviewRecord? && Reviewing(c, s.t) {
      assert Reviewable(c, c.pending[s.t].document);
    }
  }

  lemma {:induction false} ApprovalIsFinal(c: Courier, steps: seq<Step>, d: nat)
    requires PapersSound(c) && StaysApproved(c, d)
    ensures StaysApproved(Run(c, steps), d)
    decreases |steps|
  {
    if steps != [] {
      StepKeepsApproval(c, steps[0], d);
      StepKeepsPapers(c, steps[0]);
      ApprovalIsFinal(Apply(c, steps[0]), steps[1..], d);
    }
  }
}
