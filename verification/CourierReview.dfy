/** The review of one courier: transitions by administrators, submissions and edits by the courier, and
    document reviews.  A transaction reads first and writes later; writes to the profile's row are
    serialised by its lock, but a document review whose condition the profile does not meet takes no lock
    on it.  Events stand in the order of the commits. */
module CourierReview {
  import opened Options

  datatype Status = DRAFT | INCOMPLETE | PENDING_REVIEW | CHANGES_REQUESTED | APPROVED | REJECTED | SUSPENDED

  datatype Action = Approve | RequestChanges | Reject | Suspend | Reactivate

  datatype DocumentAction = ApproveDocument | RejectDocument | RequestReplacement

  datatype DocumentStatus =
    DOCUMENT_PENDING | DOCUMENT_APPROVED | DOCUMENT_REJECTED | DOCUMENT_CHANGES_REQUESTED | SUPERSEDED

  datatype Document = Document(status: DocumentStatus, reviewVersion: nat, isCurrent: bool)

  datatype Event =
    | Transitioned(action: Action, from: Status, to: Status)
    | Submitted(from: Status)
    | DocumentReviewed(document: nat, review: DocumentAction)

  /** The profile's row as a transaction has read it. */
  datatype Reading = Reading(status: Status, version: nat)

  /** A transaction between its first and its last statement.  A review has already updated its document;
      `matched` is whether the profile met the condition of its second update. */
  datatype Pending =
    | Transition(action: Action, version: nat, seen: Reading)
    | Submission(seen: Reading)
    | Edit(version: nat)
    | Review(document: nat, review: DocumentAction, matched: bool)
    | Over

  datatype Courier = Courier(
    status: Status,
    version: nat,
    documents: seq<Document>,
    events: seq<Event>,
    pending: seq<Pending>)

  // ---------------------------------------------------------------- rules

  function From(action: Action): set<Status> {
    match action
    case Approve => {PENDING_REVIEW}
    case RequestChanges => {PENDING_REVIEW}
    case Reject => {PENDING_REVIEW, CHANGES_REQUESTED}
    case Suspend => {APPROVED}
    case Reactivate => {SUSPENDED}
  }

  function To(action: Action): Status {
    match action
    case Approve => APPROVED
    case RequestChanges => CHANGES_REQUESTED
    case Reject => REJECTED
    case Suspend => SUSPENDED
    case Reactivate => APPROVED
  }

  const EDITABLE := {INCOMPLETE, DRAFT, CHANGES_REQUESTED}

  /** Statuses in which a replacement request sends the courier back. */
  const UNDER_REVIEW := {PENDING_REVIEW, CHANGES_REQUESTED}

  function StatusAfter(review: DocumentAction): DocumentStatus {
    match review
    case ApproveDocument => DOCUMENT_APPROVED
    case RejectDocument => DOCUMENT_REJECTED
    case RequestReplacement => DOCUMENT_CHANGES_REQUESTED
  }

  // ---------------------------------------------------------------- locks

  /** Some review holds the lock on the profile's row. */
  predicate ProfileLocked(c: Courier) {
    exists t :: 0 <= t < |c.pending| && c.pending[t].Review? && c.pending[t].matched
  }

  predicate DocumentLocked(c: Courier, d: nat) {
    exists t :: 0 <= t < |c.pending| && c.pending[t].Review? && c.pending[t].document == d
  }

  // ---------------------------------------------------------------- statements

  function Reads(c: Courier, p: Pending): Courier {
    c.(pending := c.pending + [p])
  }

  function Ends(c: Courier, t: nat): Courier
    requires t < |c.pending|
  {
    c.(pending := c.pending[t := Over])
  }

  /** `eligible` is what the check of account, vehicles and documents finds. */
  function ReadTransition(c: Courier, action: Action, version: nat, eligible: bool): Courier {
    if c.status !in From(action) || (action in {Approve, Reactivate} && !eligible) then c
    else Reads(c, Transition(action, version, Reading(c.status, c.version)))
  }

  function WriteTransition(c: Courier, t: nat): Courier
    requires t < |c.pending| && c.pending[t].Transition?
  {
    var p := c.pending[t];
    if ProfileLocked(c) then c
    else if c.version != p.version || c.status !in From(p.action) then Ends(c, t)
    else Ends(c, t).(status := To(p.action), version := c.version + 1,
                     events := c.events + [Transitioned(p.action, p.seen.status, To(p.action))])
  }

  /** `complete` is whether a motorcycle and all required documents are there. */
  function ReadSubmission(c: Courier, complete: bool): Courier {
    if c.status !in EDITABLE || !complete then c else Reads(c, Submission(Reading(c.status, c.version)))
  }

  function WriteSubmission(c: Courier, t: nat): Courier
    requires t < |c.pending| && c.pending[t].Submission?
  {
    var p := c.pending[t];
    if ProfileLocked(c) then c
    else if c.version != p.seen.version then Ends(c, t)
    else
      Ends(c, t).(
        status := PENDING_REVIEW, version := c.version + 1, events := c.events + [Submitted(p.seen.status)])
  }

  function ReadEdit(c: Courier, version: nat): Courier {
    if c.status !in EDITABLE then c else Reads(c, Edit(version))
  }

  function WriteEdit(c: Courier, t: nat): Courier
    requires t < |c.pending| && c.pending[t].Edit?
  {
    if ProfileLocked(c) then c
    else if c.version != c.pending[t].version then Ends(c, t)
    else Ends(c, t).(version := c.version + 1)
  }

  predicate MayReview(c: Courier, d: nat, reviewVersion: nat) {
    d < |c.documents| && c.documents[d].isCurrent && c.documents[d].reviewVersion == reviewVersion &&
    c.documents[d].status in {DOCUMENT_PENDING, DOCUMENT_REJECTED, DOCUMENT_CHANGES_REQUESTED}
  }

  /** The two conditional updates of a review; it waits while a row it needs is locked. */
  function CheckReview(c: Courier, d: nat, review: DocumentAction, reviewVersion: nat): Courier {
    if !MayReview(c, d, reviewVersion) || DocumentLocked(c, d) then c
    else
      var matched := review == RequestReplacement && c.status in UNDER_REVIEW;
      if matched && ProfileLocked(c) then c else Reads(c, Review(d, review, matched))
  }

  /** The event and the commit of a review. */
  function RecordReview(c: Courier, t: nat): Courier
    requires t < |c.pending| && c.pending[t].Review?
  {
    var p := c.pending[t];
    var documents :=
      if p.document >= |c.documents| then c.documents
      else
        var d := c.documents[p.document];
        c.documents[p.document := d.(status := StatusAfter(p.review), reviewVersion := d.reviewVersion + 1)];
    var done := Ends(c, t).(documents := documents, events := c.events + [DocumentReviewed(p.document, p.review)]);
    if p.matched then done.(status := CHANGES_REQUESTED, version := c.version + 1) else done
  }

  /** An upload, in place of a current document or beside the others. */
  function Upload(c: Courier, supersedes: Option<nat>): Courier {
    match supersedes
    case None => c.(documents := c.documents + [Document(DOCUMENT_PENDING, 1, true)])
    case Some(d) =>
      if d >= |c.documents| || !c.documents[d].isCurrent || DocumentLocked(c, d) then c
      else c.(documents := c.documents[d := c.documents[d].(status := SUPERSEDED, isCurrent := false)]
                           + [Document(DOCUMENT_PENDING, 1, true)])
  }

  // ---------------------------------------------------------------- runs

  datatype Step =
    | TransitionRead(action: Action, version: nat, eligible: bool)
    | SubmissionRead(complete: bool)
    | EditRead(version: nat)
    | Write(t: nat)
    | ReviewCheck(document: nat, review: DocumentAction, reviewVersion: nat)
    | ReviewRecord(t: nat)
    | ReviewAtOnce(document: nat, review: DocumentAction, reviewVersion: nat)
    | Uploading(supersedes: Option<nat>)
    | Rollback(t: nat)

  function WriteAny(c: Courier, t: nat): Courier
    requires t < |c.pending|
  {
    match c.pending[t]
    case Transition(_, _, _) => WriteTransition(c, t)
    case Submission(_) => WriteSubmission(c, t)
    case Edit(_) => WriteEdit(c, t)
    case _ => c
  }

  /** A review with nothing in between. */
  function ReviewWhole(c: Courier, d: nat, review: DocumentAction, reviewVersion: nat): Courier {
    var checked := CheckReview(c, d, review, reviewVersion);
    if |checked.pending| > |c.pending| && checked.pending[|c.pending|].Review?
    then RecordReview(checked, |c.pending|) else c
  }

  function Apply(c: Courier, s: Step): Courier {
    match s
    case TransitionRead(action, version, eligible) => ReadTransition(c, action, version, eligible)
    case SubmissionRead(complete) => ReadSubmission(c, complete)
    case EditRead(version) => ReadEdit(c, version)
    case Write(t) => if t < |c.pending| then WriteAny(c, t) else c
    case ReviewCheck(d, review, reviewVersion) => CheckReview(c, d, review, reviewVersion)
    case ReviewRecord(t) => if t < |c.pending| && c.pending[t].Review? then RecordReview(c, t) else c
    case ReviewAtOnce(d, review, reviewVersion) => ReviewWhole(c, d, review, reviewVersion)
    case Uploading(supersedes) => Upload(c, supersedes)
    case Rollback(t) => if t < |c.pending| then Ends(c, t) else c
  }

  function Run(c: Courier, steps: seq<Step>): Courier
    decreases |steps|
  {
    if steps == [] then c else Run(Apply(c, steps[0]), steps[1..])
  }

  /** A courier who has just registered. */
  function Registered(status: Status): Courier {
    Courier(status, 1, [], [], [])
  }

  // ---------------------------------------------------------------- the log, replayed

  function Replayed(s: Status, e: Event): Status {
    match e
    case Transitioned(_, _, to) => to
    case Submitted(_) => PENDING_REVIEW
    case DocumentReviewed(_, review) =>
      if review == RequestReplacement && s in UNDER_REVIEW then CHANGES_REQUESTED else s
  }

  function Replay(start: Status, events: seq<Event>): Status {
    if events == [] then start else Replayed(Replay(start, events[..|events| - 1]), events[|events| - 1])
  }

  lemma ReplayAppend(start: Status, events: seq<Event>, e: Event)
    ensures Replay(start, events + [e]) == Replayed(Replay(start, events), e)
  {
    assert (events + [e])[..|events|] == events;
  }

  /** One transaction holds the profile's row, and only while the courier is under review. */
  ghost predicate LocksSound(c: Courier) {
    (forall t, u :: 0 <= t < u < |c.pending| && c.pending[t].Review? && c.pending[u].Review? ==>
      !(c.pending[t].matched && c.pending[u].matched)) &&
    (forall t :: 0 <= t < |c.pending| && c.pending[t].Review? && c.pending[t].matched ==>
      c.status in UNDER_REVIEW && c.pending[t].review == RequestReplacement)
  }

  /** What a transaction has read is still true while the version it has read is. */
  ghost predicate ReadingSound(c: Courier, seen: Reading) {
    seen.version <= c.version && (seen.version == c.version ==> seen.status == c.status)
  }

  ghost predicate PendingSound(c: Courier, p: Pending) {
    match p
    case Transition(action, _, seen) => ReadingSound(c, seen) && seen.status in From(action)
    case Submission(seen) => ReadingSound(c, seen) && seen.status in EDITABLE
    case _ => true
  }

  ghost predicate ReadingsSound(c: Courier) {
    forall t :: 0 <= t < |c.pending| ==> PendingSound(c, c.pending[t])
  }

  ghost predicate Sound(c: Courier) {
    LocksSound(c) && ReadingsSound(c)
  }

  lemma WriteKeepsLocks(c: Courier, t: nat)
    requires LocksSound(c) && t < |c.pending|
    ensures LocksSound(WriteAny(c, t))
  {}

  lemma CheckKeepsLocks(c: Courier, d: nat, review: DocumentAction, reviewVersion: nat)
    requires LocksSound(c)
    ensures LocksSound(CheckReview(c, d, review, reviewVersion))
  {}

  lemma RecordKeepsLocks(c: Courier, t: nat)
    requires LocksSound(c) && t < |c.pending| && c.pending[t].Review?
    ensures LocksSound(RecordReview(c, t))
  {}

  lemma OthersKeepLocks(c: Courier, s: Step)
    requires LocksSound(c) && !s.Write? && !s.ReviewCheck? && !s.ReviewRecord? && !s.ReviewAtOnce?
    ensures LocksSound(Apply(c, s))
  {}

  lemma StepKeepsLocks(c: Courier, s: Step)
    requires LocksSound(c)
    ensures LocksSound(Apply(c, s))
  {
    match s
    case Write(t) => if t < |c.pending| { WriteKeepsLocks(c, t); }
    case ReviewCheck(d, review, reviewVersion) => CheckKeepsLocks(c, d, review, reviewVersion);
    case ReviewRecord(t) => if t < |c.pending| && c.pending[t].Review? { RecordKeepsLocks(c, t); }
    case ReviewAtOnce(d, review, reviewVersion) =>
      var checked := CheckReview(c, d, review, reviewVersion);
      CheckKeepsLocks(c, d, review, reviewVersion);
      if |checked.pending| > |c.pending| { RecordKeepsLocks(checked, |c.pending|); }
    case _ => OthersKeepLocks(c, s);
  }

  /** The status never changes without the version going up. */
  lemma VersionMarksChange(c: Courier, s: Step)
    ensures var c' := Apply(c, s); c'.version > c.version || (c'.version == c.version && c'.status == c.status)
  {}

  lemma PendingComesFrom(c: Courier, s: Step, t: nat)
    requires t < |Apply(c, s).pending|
    ensures var p := Apply(c, s).pending[t]; p == Over || (t < |c.pending| && p == c.pending[t]) || PendingSound(c, p)
  {}

  lemma StepKeepsReadings(c: Courier, s: Step)
    requires ReadingsSound(c)
    ensures ReadingsSound(Apply(c, s))
  {
    var c' := Apply(c, s);
    VersionMarksChange(c, s);
    forall t | 0 <= t < |c'.pending| ensures PendingSound(c', c'.pending[t]) {
      PendingComesFrom(c, s, t);
    }
  }

  lemma {:induction false} RunIsSound(c: Courier, steps: seq<Step>)
    requires Sound(c)
    ensures Sound(Run(c, steps))
    decreases |steps|
  {
    if steps != [] {
      StepKeepsLocks(c, steps[0]);
      StepKeepsReadings(c, steps[0]);
      RunIsSound(Apply(c, steps[0]), steps[1..]);
    }
  }

  // ---------------------------------------------------------------- when the log replays

  /** The record of a replacement request that did not find the courier under review, made when the
      courier has been submitted since. */
  predicate OvertakenBySubmission(c: Courier, s: Step) {
    s.ReviewRecord? && s.t < |c.pending| && c.pending[s.t].Review? && !c.pending[s.t].matched &&
    c.pending[s.t].review == RequestReplacement && c.status == PENDING_REVIEW
  }

  lemma WriteReplays(start: Status, c: Courier, t: nat)
    requires t < |c.pending| && Replay(start, c.events) == c.status
    ensures Replay(start, WriteAny(c, t).events) == WriteAny(c, t).status
  {
    match c.pending[t]
    case Transition(action, _, seen) => ReplayAppend(start, c.events, Transitioned(action, seen.status, To(action)));
    case Submission(seen) => ReplayAppend(start, c.events, Submitted(seen.status));
    case _ =>
  }

  lemma RecordReplays(start: Status, c: Courier, t: nat)
    requires t < |c.pending| && c.pending[t].Review? && Replay(start, c.events) == c.status
    requires c.pending[t].matched ==> c.status in UNDER_REVIEW && c.pending[t].review == RequestReplacement
    ensures var c' := RecordReview(c, t);
            Replay(start, c'.events) == c'.status <==>
            c.pending[t].matched || c.pending[t].review != RequestReplacement || c.status != PENDING_REVIEW
  {
    ReplayAppend(start, c.events, DocumentReviewed(c.pending[t].document, c.pending[t].review));
  }

  lemma WholeReviewReplays(start: Status, c: Courier, d: nat, review: DocumentAction, reviewVersion: nat)
    requires Replay(start, c.events) == c.status
    ensures var c' := ReviewWhole(c, d, review, reviewVersion); Replay(start, c'.events) == c'.status
  {
    var checked := CheckReview(c, d, review, reviewVersion);
    if |checked.pending| > |c.pending| {
      RecordReplays(start, checked, |c.pending|);
    }
  }

  lemma OthersRecordNothing(c: Courier, s: Step)
    requires !s.Write? && !s.ReviewRecord? && !s.ReviewAtOnce?
    ensures Apply(c, s).events == c.events && Apply(c, s).status == c.status
  {}

  /** A step keeps the replayed events in agreement with the courier's status if and only if it is not
      the record of a replacement request that a submission has overtaken. */
  lemma ReplayBreaksExactly(start: Status, c: Courier, s: Step)
    requires Sound(c) && Replay(start, c.events) == c.status
    ensures var c' := Apply(c, s); Replay(start, c'.events) == c'.status <==> !OvertakenBySubmission(c, s)
  {
    match s
    case Write(t) => if t < |c.pending| { WriteReplays(start, c, t); }
    case ReviewRecord(t) => if t < |c.pending| && c.pending[t].Review? { RecordReplays(start, c, t); }
    case ReviewAtOnce(d, review, reviewVersion) => WholeReviewReplays(start, c, d, review, reviewVersion);
    case _ => OthersRecordNothing(c, s);
  }

  /** No step of the run is overtaken. */
  ghost predicate NeverOvertaken(c: Courier, steps: seq<Step>)
    decreases |steps|
  {
    steps == [] || (!OvertakenBySubmission(c, steps[0]) && NeverOvertaken(Apply(c, steps[0]), steps[1..]))
  }

  lemma {:induction false} LogReplaysFrom(start: Status, c: Courier, steps: seq<Step>)
    requires Sound(c) && Replay(start, c.events) == c.status && NeverOvertaken(c, steps)
    ensures Replay(start, Run(c, steps).events) == Run(c, steps).status
    decreases |steps|
  {
    if steps != [] {
      ReplayBreaksExactly(start, c, steps[0]);
      StepKeepsLocks(c, steps[0]);
      StepKeepsReadings(c, steps[0]);
      LogReplaysFrom(start, Apply(c, steps[0]), steps[1..]);
    }
  }

  predicate NoReviewOpen(c: Courier) {
    forall t :: 0 <= t < |c.pending| ==> !c.pending[t].Review?
  }

  lemma {:induction false} WholeReviewsAreNotOvertaken(c: Courier, steps: seq<Step>)
    requires NoReviewOpen(c) && forall i :: 0 <= i < |steps| ==> !steps[i].ReviewCheck?
    ensures NeverOvertaken(c, steps)
    decreases |steps|
  {
    if steps != [] {
      assert NoReviewOpen(Apply(c, steps[0]));
      WholeReviewsAreNotOvertaken(Apply(c, steps[0]), steps[1..]);
    }
  }

  /** When each document review runs in one piece, replaying the events gives the courier's status after
      every run, the conditional change made by replacement requests included. */
  lemma LogReplays(start: Status, steps: seq<Step>)
    requires forall i :: 0 <= i < |steps| ==> !steps[i].ReviewCheck?
    ensures var c := Run(Registered(start), steps); Replay(start, c.events) == c.status
  {
    WholeReviewsAreNotOvertaken(Registered(start), steps);
    LogReplaysFrom(start, Registered(start), steps);
  }

  lemma FirstOf(c: Courier, s: Step, rest: seq<Step>)
    ensures Run(c, [s] + rest) == Run(Apply(c, s), rest)
  {
    assert ([s] + rest)[1..] == rest;
  }

  lemma SubmittedInBetween(c: Courier)
    requires c == Courier(INCOMPLETE, 1, [Document(DOCUMENT_PENDING, 1, true)], [],
                          [Review(0, RequestReplacement, false)])
    ensures var c' := Apply(Apply(c, SubmissionRead(true)), Write(1));
            c'.status == PENDING_REVIEW && c'.events == [Submitted(INCOMPLETE)] &&
            |c'.pending| == 2 && c'.pending[0] == c.pending[0]
  {}

  lemma RecordOverwrites(c: Courier)
    requires c.status == PENDING_REVIEW && c.events == [Submitted(INCOMPLETE)]
    requires |c.pending| > 0 && c.pending[0] == Review(0, RequestReplacement, false)
    ensures var c' := Apply(c, ReviewRecord(0));
            c'.status == PENDING_REVIEW && Replay(INCOMPLETE, c'.events) == CHANGES_REQUESTED
  {
    ReplayAppend(INCOMPLETE, [], Submitted(INCOMPLETE));
    assert [] + [Submitted(INCOMPLETE)] == [Submitted(INCOMPLETE)];
    ReplayAppend(INCOMPLETE, c.events, DocumentReviewed(0, RequestReplacement));
  }

  /** When it does not, the claim is false: a submission that commits between the two halves of a
      replacement request leaves a courier pending whom the events say changes were requested of. */
  lemma OvertakenReview() returns (steps: seq<Step>)
    ensures var c := Run(Registered(INCOMPLETE), steps);
            c.status == PENDING_REVIEW && Replay(INCOMPLETE, c.events) == CHANGES_REQUESTED
  {
    var c0 := Registered(INCOMPLETE);
    var c1 := Apply(c0, Uploading(None));
    var c2 := Apply(c1, ReviewCheck(0, RequestReplacement, 1));
    SubmittedInBetween(c2);
    var c3 := Apply(c2, SubmissionRead(true));
    var c4 := Apply(c3, Write(1));
    RecordOverwrites(c4);
    FirstOf(c4, ReviewRecord(0), []);
    FirstOf(c3, Write(1), [ReviewRecord(0)] + []);
    FirstOf(c2, SubmissionRead(true), [Write(1)] + ([ReviewRecord(0)] + []));
    steps := [SubmissionRead(true)] + ([Write(1)] + ([ReviewRecord(0)] + []));
    FirstOf(c1, ReviewCheck(0, RequestReplacement, 1), steps);
    steps := [ReviewCheck(0, RequestReplacement, 1)] + steps;
    FirstOf(c0, Uploading(None), steps);
    steps := [Uploading(None)] + steps;
  }

  // ---------------------------------------------------------------- the courier's own statements

  /** The row is as before but for what is pending. */
  ghost predicate Untouched(c: Courier, c': Courier) {
    c'.status == c.status && c'.version == c.version && c'.documents == c.documents && c'.events == c.events
  }

  /** A submission in one piece puts a complete application under review, from the three editable statuses only. */
  lemma SubmissionAtOnce(c: Courier, complete: bool)
    requires !ProfileLocked(c)
    ensures var c' := Apply(Apply(c, SubmissionRead(complete)), Write(|c.pending|));
            if complete && c.status in {DRAFT, INCOMPLETE, CHANGES_REQUESTED} then
              c'.status == PENDING_REVIEW && c'.version == c.version + 1 && c'.documents == c.documents &&
              c'.events == c.events + [Submitted(c.status)]
            else Untouched(c, c')
  {}

  /** An edit in one piece raises the version, in the same statuses, at the version submitted. */
  lemma EditAtOnce(c: Courier, version: nat)
    requires !ProfileLocked(c)
    ensures var c' := Apply(Apply(c, EditRead(version)), Write(|c.pending|));
            if c.version == version && c.status in {DRAFT, INCOMPLETE, CHANGES_REQUESTED} then
              c'.version == version + 1 && Untouched(c, c'.(version := version))
            else Untouched(c, c')
  {}

  /** A write whose transaction has been overtaken, by the version it bears or by a lock, writes nothing. */
  lemma OvertakenWriteFails(c: Courier, t: nat)
    requires t < |c.pending|
    requires ProfileLocked(c) ||
             match c.pending[t]
             case Transition(_, version, _) => version != c.version
             case Submission(seen) => seen.version != c.version
             case Edit(version) => version != c.version
             case _ => true
    ensures Untouched(c, Apply(c, Write(t)))
  {}

  /** A transaction that has been rolled back has changed nothing, holds nothing, and writes nothing ever after. */
  lemma RolledBackForGood(c: Courier, t: nat)
    requires t < |c.pending|
    ensures var c' := Apply(c, Rollback(t));
            Untouched(c, c') && c'.pending == c.pending[t := Over] &&
            Apply(c', Write(t)) == c' && Apply(c', ReviewRecord(t)) == c'
  {}

  /** An upload adds a pending document at its first review version; a current document it supersedes, unless a
      review holds it, is no longer current. */
  lemma UploadWrites(c: Courier, supersedes: Option<nat>)
    ensures var c' := Upload(c, supersedes);
            c'.status == c.status && c'.version == c.version && c'.events == c.events && c'.pending == c.pending &&
            if supersedes == None then c'.documents == c.documents + [Document(DOCUMENT_PENDING, 1, true)]
            else
              var d := supersedes.value;
              if d < |c.documents| && c.documents[d].isCurrent && !DocumentLocked(c, d) then
                c'.documents == c.documents[d := Document(SUPERSEDED, c.documents[d].reviewVersion, false)]
                                + [Document(DOCUMENT_PENDING, 1, true)]
              else c'.documents == c.documents
  {}

  // ---------------------------------------------------------------- versions

  predicate Bears(p: Pending, version: nat) {
    p.Transition? && p.version == version
  }

  lemma VersionRises(c: Courier, s: Step)
    ensures Apply(c, s).version >= c.version
  {}

  lemma {:induction false} VersionRisesOverRun(c: Courier, steps: seq<Step>)
    ensures Run(c, steps).version >= c.version
    decreases |steps|
  {
    if steps != [] {
      VersionRises(c, steps[0]);
      VersionRisesOverRun(Apply(c, steps[0]), steps[1..]);
    }
  }

  /** Two transitions submitted with the same version cannot both succeed, whenever they were read and
      whatever is committed between them. */
  lemma OneTransitionWins(c: Courier, t: nat, between: seq<Step>, u: nat, version: nat)
    requires t < |c.pending| && Bears(c.pending[t], version) && WriteTransition(c, t).status != c.status
    requires var later := Run(WriteTransition(c, t), between); u < |later.pending| && Bears(later.pending[u], version)
    ensures var later := Run(WriteTransition(c, t), between);
            WriteTransition(later, u).status == later.status && WriteTransition(later, u).events == later.events
  {
    VersionRisesOverRun(WriteTransition(c, t), between);
  }

  /** The move that an event records is the one made: the status it says the courier left is the one the
      courier had.  It holds for administrators, who cannot submit a version that did not yet exist when
      their transaction read the row. */
  lemma RecordedMoveIsTrue(c: Courier, t: nat)
    requires Sound(c) && t < |c.pending| && c.pending[t].Transition?
    requires c.pending[t].version <= c.pending[t].seen.version
    ensures var c' := WriteTransition(c, t);
            c'.events != c.events ==> c'.events == c.events + [Transitioned(c.pending[t].action, c.status, c'.status)]
  {
    assert PendingSound(c, c.pending[t]);
  }

  /** The moves the review allows. */
  function Moves(from: Status): set<Status> {
    match from
    case INCOMPLETE => {PENDING_REVIEW}
    case DRAFT => {PENDING_REVIEW}
    case PENDING_REVIEW => {APPROVED, CHANGES_REQUESTED, REJECTED}
    case CHANGES_REQUESTED => {PENDING_REVIEW, REJECTED}
    case APPROVED => {SUSPENDED}
    case SUSPENDED => {APPROVED}
    case REJECTED => {}
  }

  /** Although a submission checks the status only when it reads, a courier moves only along the table:
      one who is rejected, say, is never submitted again. */
  lemma OnlyAllowedMoves(c: Courier, s: Step)
    requires Sound(c)
    ensures Apply(c, s).status == c.status || Apply(c, s).status in Moves(c.status)
  {
    if s.Write? && s.t < |c.pending| {
      assert PendingSound(c, c.pending[s.t]);
    }
  }
}
