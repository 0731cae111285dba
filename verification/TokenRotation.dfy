/** The courier app's session as an asynchronous protocol: every function is cut at its awaits, and the
    pieces of concurrent calls interleave in any order. */
module TokenRotation {
  import opened Options
  import opened Sums

  datatype Tokens = Tokens(access: string, refresh: string)

  // ---------------------------------------------------------------- suspended calls

  /** Where a rotation is: its refresh call, the save of the new pair, the clear after a failure, settled
      but not yet past `finally`, and finished.  A save is `written` once storage holds the pair, which is
      some time before the await on it ends. */
  datatype RotationStage =
    | Sending
    | Saving(pair: Tokens, written: bool)
    | Clearing
    | Settled(result: Option<Tokens>)
    | Finished(result: Option<Tokens>)

  /** A rotation and the refresh token it has sent. */
  datatype Rotation = Rotation(refresh: string, stage: RotationStage)

  /** Where a request is: its first call, told which tokens to retry with, waiting for a rotation,
      its second call, and over. */
  datatype RequestStage =
    | Trying(attempted: Tokens)
    | Refreshed(tokens: Tokens)
    | Waiting(rotation: nat)
    | Retrying
    | Over

  datatype Request = Request(stage: RequestStage, calls: nat)

  /** A login whose pair is being saved, or done. */
  datatype Login = LoginSaving(pair: Tokens, written: bool) | LoginOver

  datatype Session = Session(
    tokens: Option<Tokens>,
    refreshInFlight: Option<nat>,
    rotations: seq<Rotation>,
    requests: seq<Request>,
    logins: seq<Login>,
    loads: seq<Option<Tokens>>,        // what each suspended `restore` has found
    stored: Option<Tokens>,
    clears: nat,
    sent: seq<string>,
    issued: set<string>)

  /** A freshly started app that finds `stored` in storage. */
  function Start(stored: Option<Tokens>): Session {
    Session(None, None, [], [], [], [], stored, 0, [], if stored.Some? then {stored.value.refresh} else {})
  }

  // ---------------------------------------------------------------- the pieces between awaits

  datatype Reply = Success | Unauthorized | OtherError

  datatype Step =
    | Begin                                            // request: up to its first call
    | FirstReply(request: nat, reply: Reply)           // ... its answer, and refreshAfterUnauthorized
    | Retry(request: nat)                              // ... the second call
    | SecondReply(request: nat, reply: Reply)          // ... its answer
    | RefreshReply(rotation: nat, answer: Option<Tokens>)
    | RotationWritten(rotation: nat)                   // the save reaches storage
    | RotationSaved(rotation: nat, ok: bool)           // the await on it ends
    | RotationCleared(rotation: nat)
    | Settle(rotation: nat)                            // the `finally` callback
    | LogIn(pair: Tokens)
    | LoginWritten(login: nat)
    | LoginSaved(login: nat, ok: bool)
    | SignOut
    | StorageCleared
    | RestoreLoad
    | RestoreFinish(load: nat)

  function Clear(s: Session): Session {
    s.(tokens := None, clears := s.clears + 1)
  }

  function WithStage(s: Session, r: nat, stage: RotationStage): Session
    requires r < |s.rotations|
  {
    s.(rotations := s.rotations[r := s.rotations[r].(stage := stage)])
  }

  function WithRequest(s: Session, q: nat, stage: RequestStage): Session
    requires q < |s.requests|
  {
    s.(requests := s.requests[q := s.requests[q].(stage := stage)])
  }

  /** refreshAfterUnauthorized: what the caller goes on with, and the rotation it may start. */
  function RefreshAfterUnauthorized(s: Session, failedAccess: string): (Session, RequestStage) {
    if s.tokens == None then (s, Over)
    else if s.tokens.value.access != failedAccess then (s, Refreshed(s.tokens.value))
    else if s.refreshInFlight.Some? then (s, Waiting(s.refreshInFlight.value))
    else
      var r := |s.rotations|;
      (s.(refreshInFlight := Some(r),
          rotations := s.rotations + [Rotation(s.tokens.value.refresh, Sending)],
          sent := s.sent + [s.tokens.value.refresh]),
       Waiting(r))
  }

  function OnFirstReply(s: Session, q: nat, reply: Reply): Session {
    if q >= |s.requests| || !s.requests[q].stage.Trying? then s
    else if reply != Unauthorized then WithRequest(s, q, Over)
    else
      var (s', stage) := RefreshAfterUnauthorized(s, s.requests[q].stage.attempted.access);
      WithRequest(s', q, stage)
  }

  /** A request told its tokens, or woken by the rotation it waits for, makes its second call. */
  function OnRetry(s: Session, q: nat): Session {
    if q >= |s.requests| then s
    else
      var again := s.requests[q].(stage := Retrying, calls := s.requests[q].calls + 1);
      match s.requests[q].stage
      case Refreshed(_) => s.(requests := s.requests[q := again])
      case Waiting(r) =>
        if r >= |s.rotations| || !s.rotations[r].stage.Finished? then s
        else if s.rotations[r].stage.result == None then WithRequest(s, q, Over)
        else s.(requests := s.requests[q := again])
      case _ => s
  }

  function OnSecondReply(s: Session, q: nat, reply: Reply): Session {
    if q >= |s.requests| || !s.requests[q].stage.Retrying? then s
    else
      var over := WithRequest(s, q, Over);
      if reply == Unauthorized then Clear(over) else over
  }

  function OnRefreshReply(s: Session, r: nat, answer: Option<Tokens>): Session {
    if r >= |s.rotations| || s.rotations[r].stage != Sending then s
    else
      match answer
      case None => WithStage(Clear(s), r, Clearing)
      case Some(pair) =>
        if pair.refresh in s.issued then s
        else WithStage(s, r, Saving(pair, false)).(issued := s.issued + {pair.refresh})
  }

  function OnRotationWritten(s: Session, r: nat): Session {
    if r >= |s.rotations| || !s.rotations[r].stage.Saving? || s.rotations[r].stage.written then s
    else
      var pair := s.rotations[r].stage.pair;
      WithStage(s, r, Saving(pair, true)).(stored := Some(pair))
  }

  /** A save that succeeds has been written; one that fails may have been. */
  function OnRotationSaved(s: Session, r: nat, ok: bool): Session {
    if r >= |s.rotations| || !s.rotations[r].stage.Saving? then s
    else if !ok then WithStage(Clear(s), r, Clearing)
    else if !s.rotations[r].stage.written then s
    else
      var pair := s.rotations[r].stage.pair;
      WithStage(s, r, Settled(Some(pair))).(tokens := Some(pair))
  }

  function OnRotationCleared(s: Session, r: nat): Session {
    if r >= |s.rotations| || s.rotations[r].stage != Clearing then s else WithStage(s, r, Settled(None))
  }

  function OnSettle(s: Session, r: nat): Session {
    if r >= |s.rotations| || !s.rotations[r].stage.Settled? then s
    else WithStage(s, r, Finished(s.rotations[r].stage.result)).(refreshInFlight := None)
  }

  function OnLogIn(s: Session, pair: Tokens): Session {
    if pair.refresh in s.issued then s
    else s.(logins := s.logins + [LoginSaving(pair, false)], issued := s.issued + {pair.refresh})
  }

  function OnLoginWritten(s: Session, l: nat): Session {
    if l >= |s.logins| || !s.logins[l].LoginSaving? || s.logins[l].written then s
    else s.(logins := s.logins[l := s.logins[l].(written := true)], stored := Some(s.logins[l].pair))
  }

  function OnLoginSaved(s: Session, l: nat, ok: bool): Session {
    if l >= |s.logins| || !s.logins[l].LoginSaving? then s
    else
      var over := s.(logins := s.logins[l := LoginOver]);
      if !ok then over
      else if !s.logins[l].written then s
      else over.(tokens := Some(s.logins[l].pair))
  }

  /** The rest of a `restore`, once: a load that has found nothing, or has been used, is no longer there. */
  function OnRestoreFinish(s: Session, k: nat): Session {
    if k < |s.loads| && s.loads[k].Some? then s.(tokens := s.loads[k], loads := s.loads[k := None]) else s
  }

  function Apply(s: Session, step: Step): Session {
    match step
    case Begin =>
      if s.tokens == None then s else s.(requests := s.requests + [Request(Trying(s.tokens.value), 1)])
    case FirstReply(q, reply) => OnFirstReply(s, q, reply)
    case Retry(q) => OnRetry(s, q)
    case SecondReply(q, reply) => OnSecondReply(s, q, reply)
    case RefreshReply(r, answer) => OnRefreshReply(s, r, answer)
    case RotationWritten(r) => OnRotationWritten(s, r)
    case RotationSaved(r, ok) => OnRotationSaved(s, r, ok)
    case RotationCleared(r) => OnRotationCleared(s, r)
    case Settle(r) => OnSettle(s, r)
    case LogIn(pair) => OnLogIn(s, pair)
    case LoginWritten(l) => OnLoginWritten(s, l)
    case LoginSaved(l, ok) => OnLoginSaved(s, l, ok)
    case SignOut => Clear(s)
    case StorageCleared => if s.clears == 0 then s else s.(stored := None, clears := s.clears - 1)
    case RestoreLoad => s.(loads := s.loads + [s.stored])
    case RestoreFinish(k) => OnRestoreFinish(s, k)
  }

  function Run(s: Session, steps: seq<Step>): Session
    decreases |steps|
  {
    if steps == [] then s else Run(Apply(s, steps[0]), steps[1..])
  }

  // ---------------------------------------------------------------- the invariant

  predicate Unfinished(s: Session, r: nat) {
    r < |s.rotations| && !s.rotations[r].stage.Finished?
  }

  /** The shared promise is set exactly while a rotation has not passed its `finally`. */
  ghost predicate SingleFlight(s: Session) {
    forall r: nat :: Unfinished(s, r) <==> s.refreshInFlight == Some(r)
  }

  predicate PendingRotation(s: Session, r: nat) {
    r < |s.rotations| && s.rotations[r].stage.Saving?
  }

  predicate PendingLogin(s: Session, l: nat) {
    l < |s.logins| && s.logins[l].LoginSaving?
  }

  predicate Held(s: Session, refresh: string) {
    s.tokens.Some? && s.tokens.value.refresh == refresh
  }

  /** A rotation under way that has not yet replaced what is held: until it has, nothing held is sent. */
  predicate Replacing(s: Session) {
    s.refreshInFlight.Some? && s.refreshInFlight.value < |s.rotations| &&
    (s.rotations[s.refreshInFlight.value].stage.Sending? || s.rotations[s.refreshInFlight.value].stage.Saving?)
  }

  /** Pairs still being saved have been issued, have not been sent, and differ from each other; one that a
      login is saving is held, by way of storage, only until a rotation replaces it. */
  ghost predicate PendingUnused(s: Session) {
    (forall r: nat :: PendingRotation(s, r) ==>
      var t := s.rotations[r].stage.pair.refresh; t in s.issued && t !in s.sent) &&
    (forall l: nat :: PendingLogin(s, l) ==>
      var t := s.logins[l].pair.refresh; t in s.issued && t !in s.sent && (Held(s, t) ==> Replacing(s))) &&
    (forall l: nat, m: nat :: PendingLogin(s, l) && PendingLogin(s, m) && l != m ==>
      s.logins[l].pair.refresh != s.logins[m].pair.refresh) &&
    (forall r: nat, l: nat :: PendingRotation(s, r) && PendingLogin(s, l) ==>
      s.rotations[r].stage.pair.refresh != s.logins[l].pair.refresh)
  }

  /** The held refresh token has been sent only if a rotation is about to replace it. */
  ghost predicate HeldUnused(s: Session) {
    (forall t :: t in s.sent ==> t in s.issued) &&
    (s.tokens.Some? ==> s.tokens.value.refresh in s.issued) &&
    (s.tokens.Some? && s.tokens.value.refresh in s.sent ==> Replacing(s))
  }

  ghost predicate Safe(s: Session) {
    SingleFlight(s) && PendingUnused(s) && HeldUnused(s) && NoDuplicates(s.sent)
  }

  /** What storage holds, and what a `restore` has found there, has been issued. */
  ghost predicate StorageSound(s: Session) {
    (s.stored.Some? ==> s.stored.value.refresh in s.issued) &&
    (forall k: nat :: k < |s.loads| && s.loads[k].Some? ==> s.loads[k].value.refresh in s.issued)
  }

  /** A login is still saving the pair with this refresh token. */
  predicate LoggingIn(s: Session, t: string) {
    exists l :: 0 <= l < |s.logins| && s.logins[l].LoginSaving? && s.logins[l].pair.refresh == t
  }

  /** The token has been sent, or will be put into memory again by the login still saving it, and no rotation
      under way will replace it before it can be sent. */
  predicate Spent(s: Session, t: string) {
    (t in s.sent || LoggingIn(s, t)) && !Replacing(s)
  }

  predicate Found(s: Session, k: nat) {
    k < |s.loads| && s.loads[k].Some?
  }

  /** The end of a `restore` keeps the session safe if and only if the pair it has found is not spent. */
  lemma RestoreIsSafeExactly(s: Session, k: nat)
    requires Safe(s) && StorageSound(s) && Found(s, k)
    ensures Safe(OnRestoreFinish(s, k)) <==> !Spent(s, s.loads[k].value.refresh)
  {
    var s', t := OnRestoreFinish(s, k), s.loads[k].value.refresh;
    assert SingleFlight(s') by {
      forall r: nat ensures Unfinished(s', r) <==> s'.refreshInFlight == Some(r) {
        assert Unfinished(s, r) <==> s.refreshInFlight == Some(r);
      }
    }
    assert forall r: nat :: PendingRotation(s', r) <==> PendingRotation(s, r);
    assert forall l: nat :: PendingLogin(s', l) <==> PendingLogin(s, l);
    if LoggingIn(s, t) {
      var l: nat :| l < |s.logins| && s.logins[l].LoginSaving? && s.logins[l].pair.refresh == t;
      assert PendingLogin(s', l) && Held(s', t);
    }
  }

  lemma RequestsDoNotMatter(s: Session, requests: seq<Request>)
    requires Safe(s)
    ensures Safe(s.(requests := requests))
  {
    var s' := s.(requests := requests);
    assert forall r: nat :: Unfinished(s', r) <==> Unfinished(s, r);
    assert forall r: nat :: PendingRotation(s', r) <==> PendingRotation(s, r);
    assert forall l: nat :: PendingLogin(s', l) <==> PendingLogin(s, l);
  }

  /** A rotation that starts while none is under way sends the token held, which is then being replaced. */
  lemma RotationStartIsSafe(s: Session)
    requires Safe(s) && s.tokens.Some? && s.refreshInFlight == None
    ensures Safe(RefreshAfterUnauthorized(s, s.tokens.value.access).0)
  {
    var s' := RefreshAfterUnauthorized(s, s.tokens.value.access).0;
    assert forall r: nat :: !Unfinished(s, r);
    assert Replacing(s');
    forall r: nat ensures Unfinished(s', r) <==> r == |s.rotations| {
      assert r < |s.rotations| ==> (Unfinished(s', r) <==> Unfinished(s, r));
    }
    assert forall r: nat :: !PendingRotation(s', r) by {
      assert forall r: nat :: PendingRotation(s', r) ==> Unfinished(s, r);
    }
    forall l: nat | PendingLogin(s', l) ensures s.logins[l].pair.refresh !in s'.sent {
      assert PendingLogin(s, l) && !Held(s, s.logins[l].pair.refresh);
    }
  }

  lemma FirstReplyIsSafe(s: Session, q: nat, reply: Reply)
    requires Safe(s)
    ensures Safe(OnFirstReply(s, q, reply))
  {
    var next := s;
    if q < |s.requests| && s.requests[q].stage.Trying? && reply == Unauthorized {
      next := RefreshAfterUnauthorized(s, s.requests[q].stage.attempted.access).0;
      if next != s {
        RotationStartIsSafe(s);
      }
    }
    RequestsDoNotMatter(next, OnFirstReply(s, q, reply).requests);
  }

  lemma RefreshReplyIsSafe(s: Session, r: nat, answer: Option<Tokens>)
    requires Safe(s)
    ensures Safe(OnRefreshReply(s, r, answer))
  {
    var s' := OnRefreshReply(s, r, answer);
    if Unfinished(s, r) {
      OneUnfinished(s, r);
      assert forall x: nat :: Unfinished(s', x) <==> Unfinished(s, x);
      assert forall x: nat :: PendingRotation(s', x) ==> Unfinished(s, x);
    }
  }

  lemma OneUnfinished(s: Session, r: nat)
    requires SingleFlight(s) && Unfinished(s, r)
    ensures s.refreshInFlight == Some(r)
    ensures forall x: nat :: Unfinished(s, x) ==> x == r
  {
    forall x: nat | Unfinished(s, x) ensures x == r {
      assert s.refreshInFlight == Some(x);
    }
  }

  lemma RotationSavedIsSafe(s: Session, r: nat, ok: bool)
    requires Safe(s)
    ensures Safe(OnRotationSaved(s, r, ok))
  {
    if PendingRotation(s, r) && (!ok || s.rotations[r].stage.written) {
      OneUnfinished(s, r);
      forall x: nat ensures !PendingRotation(OnRotationSaved(s, r, ok), x) {
        assert PendingRotation(s, x) ==> Unfinished(s, x);
      }
    }
  }

  lemma RotationWrittenIsSafe(s: Session, r: nat)
    requires Safe(s)
    ensures Safe(OnRotationWritten(s, r))
  {
    var s' := OnRotationWritten(s, r);
    assert forall x: nat :: Unfinished(s', x) <==> Unfinished(s, x);
    assert forall x: nat :: PendingRotation(s', x) ==>
      PendingRotation(s, x) && s'.rotations[x].stage.pair == s.rotations[x].stage.pair;
  }

  lemma LoginWrittenIsSafe(s: Session, l: nat)
    requires Safe(s)
    ensures Safe(OnLoginWritten(s, l))
  {
    var s' := OnLoginWritten(s, l);
    assert forall x: nat :: Unfinished(s', x) <==> Unfinished(s, x);
    assert forall x: nat :: PendingLogin(s', x) ==> PendingLogin(s, x) && s'.logins[x].pair == s.logins[x].pair;
  }

  lemma RotationClearedIsSafe(s: Session, r: nat)
    requires Safe(s)
    ensures Safe(OnRotationCleared(s, r))
  {
    if Unfinished(s, r) {
      OneUnfinished(s, r);
    }
  }

  lemma SettleIsSafe(s: Session, r: nat)
    requires Safe(s)
    ensures Safe(OnSettle(s, r))
  {
    if Unfinished(s, r) && s.rotations[r].stage.Settled? {
      OneUnfinished(s, r);
      forall x: nat ensures !Unfinished(OnSettle(s, r), x) {
        assert Unfinished(s, x) ==> x == r;
      }
    }
  }

  lemma LogInIsSafe(s: Session, pair: Tokens)
    requires Safe(s)
    ensures Safe(OnLogIn(s, pair))
  {}

  lemma LoginSavedIsSafe(s: Session, l: nat, ok: bool)
    requires Safe(s)
    ensures Safe(OnLoginSaved(s, l, ok))
  {}

  lemma RetryIsSafe(s: Session, q: nat)
    requires Safe(s)
    ensures Safe(OnRetry(s, q))
  {}

  lemma SecondReplyIsSafe(s: Session, q: nat, reply: Reply)
    requires Safe(s)
    ensures Safe(OnSecondReply(s, q, reply))
  {}

  lemma StepKeepsStorage(s: Session, step: Step)
    requires Safe(s) && StorageSound(s)
    ensures StorageSound(Apply(s, step))
  {
    if step.RotationWritten? {
      assert PendingRotation(s, step.rotation) ==> s.rotations[step.rotation].stage.pair.refresh in s.issued;
    } else if step.LoginWritten? {
      assert PendingLogin(s, step.login) ==> s.logins[step.login].pair.refresh in s.issued;
    }
  }

  /** The step is not the end of a `restore` that has found a spent pair. */
  predicate Fresh(s: Session, step: Step) {
    step.RestoreFinish? && Found(s, step.load) ==> !Spent(s, s.loads[step.load].value.refresh)
  }

  lemma StepIsSafe(s: Session, step: Step)
    requires Safe(s) && StorageSound(s) && Fresh(s, step)
    ensures Safe(Apply(s, step))
  {
    match step
    case Begin =>
    case FirstReply(q, reply) => FirstReplyIsSafe(s, q, reply);
    case Retry(q) => RetryIsSafe(s, q);
    case SecondReply(q, reply) => SecondReplyIsSafe(s, q, reply);
    case RefreshReply(r, answer) => RefreshReplyIsSafe(s, r, answer);
    case RotationWritten(r) => RotationWrittenIsSafe(s, r);
    case RotationSaved(r, ok) => RotationSavedIsSafe(s, r, ok);
    case RotationCleared(r) => RotationClearedIsSafe(s, r);
    case Settle(r) => SettleIsSafe(s, r);
    case LogIn(pair) => LogInIsSafe(s, pair);
    case LoginWritten(l) => LoginWrittenIsSafe(s, l);
    case LoginSaved(l, ok) => LoginSavedIsSafe(s, l, ok);
    case SignOut =>
    case StorageCleared =>
    case RestoreLoad =>
    case RestoreFinish(k) => if Found(s, k) { RestoreIsSafeExactly(s, k); }
  }

  /** No `restore` of the run ends with a spent pair. */
  ghost predicate FreshRestores(s: Session, steps: seq<Step>)
    decreases |steps|
  {
    steps == [] || (Fresh(s, steps[0]) && FreshRestores(Apply(s, steps[0]), steps[1..]))
  }

  lemma {:induction false} RunIsSafe(s: Session, steps: seq<Step>)
    requires Safe(s) && StorageSound(s) && FreshRestores(s, steps)
    ensures Safe(Run(s, steps)) && StorageSound(Run(s, steps))
    decreases |steps|
  {
    if steps != [] {
      StepIsSafe(s, steps[0]);
      StepKeepsStorage(s, steps[0]);
      RunIsSafe(Apply(s, steps[0]), steps[1..]);
    }
  }

  // ---------------------------------------------------------------- refresh tokens are single-use

  lemma StartIsSafe(stored: Option<Tokens>)
    ensures Safe(Start(stored)) && StorageSound(Start(stored))
  {}

  /** Under every interleaving of requests, logins, sign-outs and restores at await points, no refresh
      token is ever sent twice and at most one rotation is under way, provided no `restore` ends with a
      spent pair. */
  lemma RefreshTokensAreSingleUse(stored: Option<Tokens>, steps: seq<Step>)
    requires FreshRestores(Start(stored), steps)
    ensures var s := Run(Start(stored), steps);
            NoDuplicates(s.sent) && forall r: nat, x: nat :: Unfinished(s, r) && Unfinished(s, x) ==> r == x
  {
    StartIsSafe(stored);
    RunIsSafe(Start(stored), steps);
    var s := Run(Start(stored), steps);
    forall r: nat, x: nat | Unfinished(s, r) && Unfinished(s, x) ensures r == x {
      OneUnfinished(s, r);
    }
  }

  predicate IsRestore(step: Step) {
    step.RestoreLoad? || step.RestoreFinish?
  }

  /** `restore` runs to its end before anything else happens. */
  ghost predicate RestoreFirst(steps: seq<Step>) {
    forall i, j :: 0 <= i < j < |steps| && steps[j].RestoreFinish? ==> IsRestore(steps[i])
  }

  lemma {:induction false} NoRestoreIsFresh(s: Session, steps: seq<Step>)
    requires forall i :: 0 <= i < |steps| ==> !steps[i].RestoreFinish?
    ensures FreshRestores(s, steps)
    decreases |steps|
  {
    if steps != [] {
      NoRestoreIsFresh(Apply(s, steps[0]), steps[1..]);
    }
  }

  /** The app's own way is one of the fresh ones: it restores before it does anything else. */
  lemma {:induction false} RestoreFirstIsFresh(s: Session, steps: seq<Step>)
    requires s.sent == [] && s.logins == [] && RestoreFirst(steps)
    ensures FreshRestores(s, steps)
    decreases |steps|
  {
    if steps == [] {
    } else if IsRestore(steps[0]) {
      RestoreFirstIsFresh(Apply(s, steps[0]), steps[1..]);
    } else {
      NoRestoreIsFresh(s, steps);
    }
  }

  lemma {:induction false} RunConcat(s: Session, p: seq<Step>, q: seq<Step>)
    ensures Run(s, p + q) == Run(Run(s, p), q)
    decreases |p|
  {
    if p == [] {
      assert p + q == q;
    } else {
      assert (p + q)[0] == p[0] && (p + q)[1..] == p[1..] + q;
      RunConcat(Apply(s, p[0]), p[1..], q);
    }
  }

  lemma Two(s: Session, a: Step, b: Step)
    ensures Run(s, [a, b]) == Apply(Apply(s, a), b)
  {
    assert [a, b][1..] == [b];
    assert Run(Apply(s, a), [b]) == Run(Apply(Apply(s, a), b), []);
  }

  lemma Three(s: Session, a: Step, b: Step, c: Step)
    ensures Run(s, [a, b, c]) == Apply(Apply(Apply(s, a), b), c)
  {
    assert [a, b, c][1..] == [b, c];
    Two(Apply(s, a), b, c);
  }

  /** A request that finds its token refused and nobody refreshing sends the refresh token. */
  lemma RefusedRequestSends(s: Session)
    requires s.tokens.Some? && s.refreshInFlight == None
    ensures var s' := Run(s, [Begin, FirstReply(|s.requests|, Unauthorized)]);
            s'.sent == s.sent + [s.tokens.value.refresh] && s'.tokens == s.tokens &&
            s'.rotations == s.rotations + [Rotation(s.tokens.value.refresh, Sending)] &&
            s'.refreshInFlight == Some(|s.rotations|) && s'.issued == s.issued && s'.loads == s.loads &&
            s'.logins == s.logins
  {
    Two(s, Begin, FirstReply(|s.requests|, Unauthorized));
  }

  lemma RotationSucceeds(s: Session, r: nat, next: Tokens)
    requires r < |s.rotations| && s.rotations[r].stage == Sending && next.refresh !in s.issued
    ensures var s' := Run(s, [RefreshReply(r, Some(next)), RotationWritten(r), RotationSaved(r, true)]);
            r < |s'.rotations| && s'.rotations[r].stage == Settled(Some(next)) &&
            s'.tokens == Some(next) && s'.sent == s.sent && s'.loads == s.loads
  {
    Three(s, RefreshReply(r, Some(next)), RotationWritten(r), RotationSaved(r, true));
    var replied := OnRefreshReply(s, r, Some(next));
    assert replied.rotations[r].stage == Saving(next, false);
    assert OnRotationWritten(replied, r).rotations[r].stage == Saving(next, true);
  }

  /** Whatever happens from here on, short of a `restore` that ends with a spent pair, no refresh token is
      sent twice. */
  ghost predicate StaysSingleUse(s: Session) {
    forall steps: seq<Step> | FreshRestores(s, steps) :: NoDuplicates(Run(s, steps).sent)
  }

  lemma SentAgain(s: Session)
    requires s.tokens.Some? && s.tokens.value.refresh in s.sent && s.refreshInFlight == None
    ensures !NoDuplicates(Run(s, [Begin, FirstReply(|s.requests|, Unauthorized)]).sent)
  {
    RefusedRequestSends(s);
    var i :| 0 <= i < |s.sent| && s.sent[i] == s.tokens.value.refresh;
    var sent := Run(s, [Begin, FirstReply(|s.requests|, Unauthorized)]).sent;
    assert sent[i] == sent[|s.sent|];
  }

  /** Lets a rotation that has nothing left to save settle. */
  lemma LetSettle(s: Session, r: nat) returns (steps: seq<Step>)
    requires r < |s.rotations| && (s.rotations[r].stage.Clearing? || s.rotations[r].stage.Settled?)
    ensures var s' := Run(s, steps);
            s'.refreshInFlight == None && s'.tokens == s.tokens && s'.sent == s.sent && s'.logins == s.logins &&
            s'.loads == s.loads
    ensures forall i :: 0 <= i < |steps| ==> !steps[i].RestoreFinish?
  {
    if s.rotations[r].stage.Clearing? {
      steps := [RotationCleared(r), Settle(r)];
      Two(s, RotationCleared(r), Settle(r));
    } else {
      steps := [Settle(r)];
      assert Run(s, steps) == Run(Apply(s, Settle(r)), []);
    }
  }

  /** The rotation's refresh call fails. */
  lemma RotationFails(s: Session, r: nat) returns (steps: seq<Step>)
    requires r < |s.rotations| && s.rotations[r].stage == Sending
    ensures var s' := Run(s, steps); s'.refreshInFlight == None && s'.sent == s.sent && s'.logins == s.logins
    ensures forall i :: 0 <= i < |steps| ==> !steps[i].RestoreFinish?
  {
    var failed := OnRefreshReply(s, r, None);
    assert Run(s, [RefreshReply(r, None)]) == Run(failed, []);
    var settling := LetSettle(failed, r);
    RunConcat(s, [RefreshReply(r, None)], settling);
    steps := [RefreshReply(r, None)] + settling;
  }

  lemma LoginEnds(s: Session, l: nat) returns (steps: seq<Step>)
    requires PendingLogin(s, l)
    ensures var s' := Run(s, steps);
            s'.tokens == Some(s.logins[l].pair) && s'.sent == s.sent && s'.refreshInFlight == s.refreshInFlight
    ensures forall i :: 0 <= i < |steps| ==> !steps[i].RestoreFinish? && !steps[i].LogIn? && !steps[i].RestoreLoad?
  {
    if s.logins[l].written {
      steps := [LoginSaved(l, true)];
      assert Run(s, steps) == Run(Apply(s, steps[0]), []);
    } else {
      steps := [LoginWritten(l), LoginSaved(l, true)];
      Two(s, steps[0], steps[1]);
    }
  }

  /** A pair in memory that a login is still saving is sent, and sent again once the login has saved it. */
  lemma LoginSendsTwice(s: Session, l: nat) returns (steps: seq<Step>)
    requires PendingLogin(s, l) && s.tokens.Some? && s.tokens.value.refresh == s.logins[l].pair.refresh
    requires s.refreshInFlight == None
    ensures var t := s.logins[l].pair.refresh; Run(s, steps).sent == s.sent + [t] + [t]
    ensures forall i :: 0 <= i < |steps| ==> !steps[i].RestoreFinish?
  {
    var once := [Begin, FirstReply(|s.requests|, Unauthorized)];
    RefusedRequestSends(s);
    var sent := Run(s, once);
    var failing := RotationFails(sent, |s.rotations|);
    var failed := Run(sent, failing);
    var ending := LoginEnds(failed, l);
    var ended := Run(failed, ending);
    var again := [Begin, FirstReply(|ended.requests|, Unauthorized)];
    RefusedRequestSends(ended);
    RunConcat(s, once, failing);
    RunConcat(s, once + failing, ending);
    RunConcat(s, once + failing + ending, again);
    steps := once + failing + ending + again;
  }

  lemma Twice(sent: seq<string>, t: string)
    ensures !NoDuplicates(sent + [t] + [t])
  {
    var more := sent + [t] + [t];
    assert more[|sent|] == more[|sent| + 1];
  }

  /** Once nothing is in flight, a spent token that is held is sent a second time by some continuation. */
  lemma SpentIsSentTwice(s: Session) returns (steps: seq<Step>)
    requires s.tokens.Some? && s.refreshInFlight == None
    requires s.tokens.value.refresh in s.sent || LoggingIn(s, s.tokens.value.refresh)
    ensures !NoDuplicates(Run(s, steps).sent)
    ensures forall i :: 0 <= i < |steps| ==> !steps[i].RestoreFinish?
  {
    var t := s.tokens.value.refresh;
    if t in s.sent {
      steps := [Begin, FirstReply(|s.requests|, Unauthorized)];
      SentAgain(s);
    } else {
      var l: nat :| l < |s.logins| && s.logins[l].LoginSaving? && s.logins[l].pair.refresh == t;
      steps := LoginSendsTwice(s, l);
      Twice(s.sent, t);
    }
  }

  /** After a `restore` that ends with a spent pair some continuation sends its token a second time. */
  lemma SpentRestoreSendsTwice(s: Session, k: nat) returns (steps: seq<Step>)
    requires Safe(s) && Found(s, k) && Spent(s, s.loads[k].value.refresh)
    ensures var s' := OnRestoreFinish(s, k); FreshRestores(s', steps) && !NoDuplicates(Run(s', steps).sent)
  {
    var s' := OnRestoreFinish(s, k);
    steps := [];
    if s.refreshInFlight.Some? {
      assert Unfinished(s, s.refreshInFlight.value);
      steps := LetSettle(s', s.refreshInFlight.value);
    }
    var settled := Run(s', steps);
    var t := s.loads[k].value.refresh;
    assert LoggingIn(s, t) ==> LoggingIn(settled, t);
    var more := SpentIsSentTwice(settled);
    RunConcat(s', steps, more);
    steps := steps + more;
    NoRestoreIsFresh(s', steps);
  }

  /** In every reachable state in which a `restore` is about to end, single use survives that end if and
      only if the pair it has found is not spent. */
  lemma SingleUseExactly(stored: Option<Tokens>, before: seq<Step>, k: nat)
    requires FreshRestores(Start(stored), before) && Found(Run(Start(stored), before), k)
    ensures var s := Run(Start(stored), before);
            StaysSingleUse(OnRestoreFinish(s, k)) <==> !Spent(s, s.loads[k].value.refresh)
  {
    var s := Run(Start(stored), before);
    StartIsSafe(stored);
    RunIsSafe(Start(stored), before);
    var s' := OnRestoreFinish(s, k);
    if Spent(s, s.loads[k].value.refresh) {
      var steps := SpentRestoreSendsTwice(s, k);
    } else {
      RestoreIsSafeExactly(s, k);
      StepKeepsStorage(s, RestoreFinish(k));
      forall steps: seq<Step> | FreshRestores(s', steps) ensures NoDuplicates(Run(s', steps).sent) {
        RunIsSafe(s', steps);
      }
    }
  }

  /** A `restore` that has found a pair ends after that pair's token has been sent and replaced. */
  lemma RestoredAgain(s: Session, first: Tokens, next: Tokens) returns (steps: seq<Step>)
    requires s.tokens == Some(first) && s.refreshInFlight == None && s.loads == [None, Some(first)]
    requires next.refresh !in s.issued
    ensures Run(s, steps).sent == s.sent + [first.refresh] + [first.refresh]
  {
    var begin := [Begin, FirstReply(|s.requests|, Unauthorized)];
    RefusedRequestSends(s);
    var refused, r := Run(s, begin), |s.rotations|;
    var rotate := [RefreshReply(r, Some(next)), RotationWritten(r), RotationSaved(r, true)];
    RotationSucceeds(refused, r, next);
    var saved := Run(refused, rotate);
    var settling := LetSettle(saved, r);
    var rotated := Run(saved, settling);
    assert Run(rotated, [RestoreFinish(1)]) == Run(Apply(rotated, RestoreFinish(1)), []);
    var back := Run(rotated, [RestoreFinish(1)]);
    var again := [Begin, FirstReply(|back.requests|, Unauthorized)];
    RefusedRequestSends(back);
    RunConcat(s, begin, rotate);
    RunConcat(s, begin + rotate, settling);
    RunConcat(s, begin + rotate + settling, [RestoreFinish(1)]);
    RunConcat(s, begin + rotate + settling + [RestoreFinish(1)], again);
    steps := begin + rotate + settling + [RestoreFinish(1)] + again;
  }

  /** The first of the two ways: a `restore` that loads before a rotation and finishes after it brings the
      first pair back, and its refresh token is sent again. */
  lemma OverlappingRestoreSendsTwice(first: Tokens, next: Tokens) returns (steps: seq<Step>)
    requires first.refresh != next.refresh
    ensures Run(Start(Some(first)), steps).sent == [first.refresh, first.refresh]
  {
    var restore := [RestoreLoad, RestoreFinish(0), RestoreLoad];
    Three(Start(Some(first)), RestoreLoad, RestoreFinish(0), RestoreLoad);
    var more := RestoredAgain(Run(Start(Some(first)), restore), first, next);
    RunConcat(Start(Some(first)), restore, more);
    steps := restore + more;
  }

  /** The second: a `restore` finds the pair that a login has written to storage but not yet put into
      memory; its refresh token is sent, and sent again when the login puts it there. */
  lemma LoginFoundInStorageSendsTwice(pair: Tokens) returns (steps: seq<Step>)
    ensures Run(Start(None), steps).sent == [pair.refresh, pair.refresh]
  {
    var login, restore := [LogIn(pair), LoginWritten(0)], [RestoreLoad, RestoreFinish(0)];
    Two(Start(None), LogIn(pair), LoginWritten(0));
    var written := Run(Start(None), login);
    Two(written, RestoreLoad, RestoreFinish(0));
    var more := LoginSendsTwice(Run(written, restore), 0);
    RunConcat(Start(None), login, restore);
    RunConcat(Start(None), login + restore, more);
    steps := login + restore + more;
  }

  // ---------------------------------------------------------------- no retry loop

  /** Calls a request has made, by the stage it is in: never more than two. */
  predicate CallsBounded(q: Request) {
    match q.stage
    case Trying(_) => q.calls == 1
    case Refreshed(_) => q.calls == 1
    case Waiting(_) => q.calls == 1
    case Retrying => q.calls == 2
    case Over => q.calls <= 2
  }

  ghost predicate AllCallsBounded(s: Session) {
    forall q :: 0 <= q < |s.requests| ==> CallsBounded(s.requests[q])
  }

  lemma StepBoundsCalls(s: Session, step: Step)
    requires AllCallsBounded(s)
    ensures AllCallsBounded(Apply(s, step))
  {}

  /** No request is ever made more than twice, whatever is answered. */
  lemma {:induction false} AtMostTwoCalls(s: Session, steps: seq<Step>)
    requires AllCallsBounded(s)
    ensures AllCallsBounded(Run(s, steps))
    decreases |steps|
  {
    if steps != [] {
      StepBoundsCalls(s, steps[0]);
      AtMostTwoCalls(Apply(s, steps[0]), steps[1..]);
    }
  }

  // ---------------------------------------------------------------- all of it

  ghost predicate Sound(s: Session) {
    Safe(s) && StorageSound(s) && AllCallsBounded(s)
  }

  lemma StepIsSound(s: Session, step: Step)
    requires Sound(s) && Fresh(s, step)
    ensures Sound(Apply(s, step))
  {
    StepIsSafe(s, step);
    StepKeepsStorage(s, step);
    StepBoundsCalls(s, step);
  }

  /** A session that is sound and about to send the token it holds has not sent it before. */
  lemma HeldIsUnsent(s: Session)
    requires Safe(s) && s.tokens.Some? && s.refreshInFlight == None
    ensures s.tokens.value.refresh !in s.sent
  {}

  // ---------------------------------------------------------------- signing out

  /** Nothing suspended will still put tokens into memory: no rotation before its save has ended, no
      login being saved, no load to finish. */
  ghost predicate Quiet(s: Session) {
    (forall r: nat :: r < |s.rotations| ==> !s.rotations[r].stage.Sending? && !s.rotations[r].stage.Saving?) &&
    (forall l: nat :: l < |s.logins| ==> !s.logins[l].LoginSaving?) &&
    (forall k: nat :: k < |s.loads| ==> s.loads[k] == None)
  }

  /** The user neither logs in nor restarts the app. */
  ghost predicate NoSignIn(steps: seq<Step>) {
    forall i :: 0 <= i < |steps| ==> !steps[i].LogIn? && !steps[i].RestoreLoad?
  }

  ghost predicate StaysSignedOut(s: Session) {
    forall steps: seq<Step> | NoSignIn(steps) :: Run(s, steps).tokens == None
  }

  lemma StepStaysQuiet(s: Session, step: Step)
    requires Quiet(s) && s.tokens == None && !step.LogIn? && !step.RestoreLoad?
    ensures Quiet(Apply(s, step)) && Apply(s, step).tokens == None
  {}

  lemma {:induction false} QuietStaysSignedOut(s: Session, steps: seq<Step>)
    requires Quiet(s) && s.tokens == None && NoSignIn(steps)
    ensures Run(s, steps).tokens == None
    decreases |steps|
  {
    if steps != [] {
      StepStaysQuiet(s, steps[0]);
      QuietStaysSignedOut(Apply(s, steps[0]), steps[1..]);
    }
  }

  lemma SaveEnds(s: Session, r: nat) returns (steps: seq<Step>)
    requires PendingRotation(s, r)
    ensures NoSignIn(steps) && Run(s, steps).tokens.Some?
  {
    if s.rotations[r].stage.written {
      steps := [RotationSaved(r, true)];
      assert Run(s, steps) == Run(Apply(s, steps[0]), []);
    } else {
      steps := [RotationWritten(r), RotationSaved(r, true)];
      Two(s, steps[0], steps[1]);
    }
  }

  lemma ComesBack(s: Session, next: Tokens) returns (steps: seq<Step>)
    requires !Quiet(s) && next.refresh !in s.issued
    ensures NoSignIn(steps) && Run(s, steps).tokens.Some?
  {
    if r: nat :| r < |s.rotations| && s.rotations[r].stage.Sending? {
      steps := [RefreshReply(r, Some(next)), RotationWritten(r), RotationSaved(r, true)];
      RotationSucceeds(s, r, next);
    } else if r: nat :| r < |s.rotations| && s.rotations[r].stage.Saving? {
      steps := SaveEnds(s, r);
    } else if l: nat :| l < |s.logins| && s.logins[l].LoginSaving? {
      steps := LoginEnds(s, l);
    } else {
      var k: nat :| k < |s.loads| && s.loads[k] != None;
      steps := [RestoreFinish(k)];
      assert Run(s, steps) == Run(Apply(s, steps[0]), []);
    }
  }

  /** Signing out lasts until the next login exactly when nothing suspended at that moment will still
      assign tokens; a rotation under way undoes the sign-out. */
  lemma SignOutLastsExactly(s: Session, next: Tokens)
    requires next.refresh !in s.issued
    ensures StaysSignedOut(Apply(s, SignOut)) <==> Quiet(s)
  {
    var out := Apply(s, SignOut);
    assert Quiet(out) <==> Quiet(s);
    if Quiet(s) {
      forall steps: seq<Step> | NoSignIn(steps) ensures Run(out, steps).tokens == None {
        QuietStaysSignedOut(out, steps);
      }
    } else {
      var steps := ComesBack(out, next);
    }
  }

  /** A request refused a second time ends the session: memory is empty at once and a clear of storage is under
      way, and it stays so until the next login exactly when nothing else suspended will still assign tokens. */
  lemma SecondRefusalLastsExactly(s: Session, q: nat, next: Tokens)
    requires q < |s.requests| && s.requests[q].stage.Retrying? && next.refresh !in s.issued
    ensures var out := Apply(s, SecondReply(q, Unauthorized));
            out.tokens == None && out.clears == s.clears + 1 && (StaysSignedOut(out) <==> Quiet(s))
  {
    var out := Apply(s, SecondReply(q, Unauthorized));
    assert Quiet(out) <==> Quiet(s);
    if Quiet(s) {
      forall steps: seq<Step> | NoSignIn(steps) ensures Run(out, steps).tokens == None {
        QuietStaysSignedOut(out, steps);
      }
    } else {
      var steps := ComesBack(out, next);
    }
  }

  /** When a `restore` is all that is suspended, a sign-out after its end lasts. */
  lemma SignOutAfterRestoreLasts(s: Session, k: nat, next: Tokens)
    requires Found(s, k) && Quiet(s.(loads := s.loads[k := None])) && next.refresh !in s.issued
    ensures StaysSignedOut(Apply(OnRestoreFinish(s, k), SignOut))
  {
    SignOutLastsExactly(OnRestoreFinish(s, k), next);
  }

  /** The ordinary start: after the stored pair has been restored a sign-out lasts. */
  lemma RestoredSessionSignsOut(first: Tokens, next: Tokens)
    requires first.refresh != next.refresh
    ensures var s := Run(Start(Some(first)), [RestoreLoad, RestoreFinish(0)]);
            s.tokens == Some(first) && StaysSignedOut(Apply(s, SignOut))
  {
    Two(Start(Some(first)), RestoreLoad, RestoreFinish(0));
    SignOutAfterRestoreLasts(Apply(Start(Some(first)), RestoreLoad), 0, next);
  }

  /** From the start to a rotation under way. */
  lemma RotationStarts(first: Tokens) returns (steps: seq<Step>)
    ensures var s := Run(Start(Some(first)), steps);
            |s.rotations| == 1 && s.rotations[0].stage.Sending? && s.issued == {first.refresh}
  {
    var restore := [RestoreLoad, RestoreFinish(0)];
    Two(Start(Some(first)), RestoreLoad, RestoreFinish(0));
    var restored := Run(Start(Some(first)), restore);
    RefusedRequestSends(restored);
    steps := [Begin, FirstReply(|restored.requests|, Unauthorized)];
    RunConcat(Start(Some(first)), restore, steps);
    steps := restore + steps;
  }

  /** A rotation started before the sign-out undoes it. */
  lemma RotationUndoesSignOut(first: Tokens, next: Tokens) returns (before: seq<Step>, later: seq<Step>)
    requires first.refresh != next.refresh
    ensures NoSignIn(later) && Run(Start(Some(first)), before + [SignOut] + later).tokens == Some(next)
  {
    before := RotationStarts(first);
    later := [RefreshReply(0, Some(next)), RotationWritten(0), RotationSaved(0, true)];
    var s := Run(Start(Some(first)), before);
    assert Run(s, [SignOut]) == Run(Apply(s, SignOut), []);
    RotationSucceeds(Apply(s, SignOut), 0, next);
    RunConcat(Start(Some(first)), before, [SignOut]);
    RunConcat(Start(Some(first)), before + [SignOut], later);
  }
}
