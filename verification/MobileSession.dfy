/** The session object of the courier app: its two fields, and its methods cut at their awaits.  Each
    method below runs without interruption; what is left of a suspended call is kept beside the fields. */
module MobileSession {
  import opened Options
  import R = TokenRotation

  class MobileSession {
    var tokens: Option<R.Tokens>
    var refreshInFlight: Option<nat>

    // suspended calls and the device's storage
    var rotations: seq<R.Rotation>
    var requests: seq<R.Request>
    var logins: seq<R.Login>
    var loads: seq<Option<R.Tokens>>
    var stored: Option<R.Tokens>
    var clears: nat

    // on the server: the refresh tokens received and those issued
    var sent: seq<string>
    var issued: set<string>

    constructor (stored: Option<R.Tokens>)
      ensures View() == R.Start(stored) && Valid()
      ensures tokens == None && refreshInFlight == None && this.stored == stored && clears == 0
      ensures rotations == [] && requests == [] && logins == [] && loads == []
    {
      tokens, refreshInFlight := None, None;
      rotations, requests, logins, loads := [], [], [], [];
      this.stored, clears := stored, 0;
      sent, issued := [], if stored.Some? then {stored.value.refresh} else {};
      new;
      R.StartIsSafe(stored);
    }

    ghost function View(): R.Session
      reads this
    {
      R.Session(tokens, refreshInFlight, rotations, requests, logins, loads, stored, clears, sent, issued)
    }

    /** No refresh token has been sent twice, one rotation at most is under way, and the shared promise is
        set exactly while it is. */
    ghost predicate Valid()
      reads this
    {
      R.Sound(View())
    }

    /** request, up to its first call; without tokens it throws. */
    method Request() returns (started: bool)
      requires Valid()
      modifies this`requests
      ensures Valid() && View() == R.Apply(old(View()), R.Begin)
      ensures started == tokens.Some?
      ensures requests == if tokens == None then old(requests)
                          else old(requests) + [R.Request(R.Trying(tokens.value), 1)]
    {
      R.StepIsSound(View(), R.Begin);
      if tokens == None {
        return false;
      }
      requests := requests + [R.Request(R.Trying(tokens.value), 1)];
      return true;
    }

    /** refreshAfterUnauthorized; starting `rotate` runs it up to its call.  A refresh token is sent only if
        no rotation is under way, and never one that has been sent before. */
    method RefreshAfterUnauthorized(failedAccess: string) returns (next: R.RequestStage)
      requires R.Safe(View())
      modifies this`refreshInFlight, this`rotations, this`sent
      ensures (View(), next) == R.RefreshAfterUnauthorized(old(View()), failedAccess)
      ensures sent != old(sent) <==>
                old(refreshInFlight) == None && tokens.Some? && tokens.value.access == failedAccess
      ensures sent != old(sent) ==>
                tokens.value.refresh !in old(sent) && sent == old(sent) + [tokens.value.refresh] &&
                rotations == old(rotations) + [R.Rotation(tokens.value.refresh, R.Sending)] &&
                refreshInFlight == Some(|old(rotations)|)
      ensures sent == old(sent) ==> rotations == old(rotations) && refreshInFlight == old(refreshInFlight)
      ensures next == R.Over <==> tokens == None
      ensures next.Refreshed? <==> tokens.Some? && tokens.value.access != failedAccess
      ensures next.Refreshed? ==> tokens == Some(next.tokens) && next.tokens.access != failedAccess
      ensures next.Waiting? ==> refreshInFlight == Some(next.rotation) && R.Unfinished(View(), next.rotation)
    {
      if tokens == None {
        return R.Over;
      }
      var current := tokens.value;
      if current.access != failedAccess {
        return R.Refreshed(current);
      }
      if refreshInFlight == None {
        R.HeldIsUnsent(View());
        refreshInFlight := Some(|rotations|);
        sent := sent + [current.refresh];
        rotations := rotations + [R.Rotation(current.refresh, R.Sending)];
      } else {
        assert R.Unfinished(View(), refreshInFlight.value);
      }
      return R.Waiting(refreshInFlight.value);
    }

    /** Only an unauthorised answer, with no rotation under way, sends a refresh token, and never one that
        has been sent before. */
    method FirstReply(q: nat, reply: R.Reply)
      requires Valid()
      modifies this`refreshInFlight, this`rotations, this`sent, this`requests
      ensures Valid() && View() == R.Apply(old(View()), R.FirstReply(q, reply))
      ensures sent == old(sent) ||
              (reply == R.Unauthorized && old(refreshInFlight) == None && refreshInFlight.Some? && tokens.Some? &&
               tokens.value.refresh !in old(sent) && sent == old(sent) + [tokens.value.refresh])
      ensures |requests| == |old(requests)| &&
              forall x :: 0 <= x < |requests| && (x != q || !old(requests)[x].stage.Trying?) ==>
                requests[x] == old(requests)[x]
      ensures q < |requests| && old(requests)[q].stage.Trying? ==>
                requests[q].calls == old(requests)[q].calls &&
                var attempted := old(requests)[q].stage.attempted.access;
                if reply != R.Unauthorized || tokens == None then requests[q].stage == R.Over
                else if tokens.value.access != attempted then requests[q].stage == R.Refreshed(tokens.value)
                else refreshInFlight.Some? && requests[q].stage == R.Waiting(refreshInFlight.value)
      ensures q < |requests| && old(requests)[q].stage.Trying? && reply == R.Unauthorized && tokens.Some? &&
              tokens.value.access == old(requests)[q].stage.attempted.access && old(refreshInFlight) == None ==>
                sent == old(sent) + [tokens.value.refresh]
    {
      R.StepIsSound(View(), R.FirstReply(q, reply));
      if q < |requests| && requests[q].stage.Trying? {
        var next := R.Over;
        if reply == R.Unauthorized {
          next := RefreshAfterUnauthorized(requests[q].stage.attempted.access);
        }
        requests := requests[q := requests[q].(stage := next)];
      }
    }

    /** The second call, once the caller has been told its tokens or the shared promise has settled; it is
        the last one. */
    method Retry(q: nat)
      requires Valid()
      modifies this`requests
      ensures Valid() && View() == R.Apply(old(View()), R.Retry(q))
      ensures q < |requests| && requests[q].stage.Retrying? ==> requests[q].calls == 2
      ensures |requests| == |old(requests)| &&
              forall x :: 0 <= x < |requests| && x != q ==> requests[x] == old(requests)[x]
      ensures q < |requests| ==>
                match old(requests)[q].stage
                case Refreshed(_) => requests[q] == R.Request(R.Retrying, 2)
                case Waiting(r) =>
                  if r < |rotations| && rotations[r].stage.Finished? then
                    if rotations[r].stage.result.Some? then requests[q] == R.Request(R.Retrying, 2)
                    else requests[q] == R.Request(R.Over, old(requests)[q].calls)
                  else requests[q] == old(requests)[q]
                case _ => requests[q] == old(requests)[q]
      ensures q < |requests| && old(requests)[q].stage.Waiting? && requests[q].stage.Retrying? ==>
                var r := old(requests)[q].stage.rotation;
                r < |rotations| && rotations[r].stage.Finished? && rotations[r].stage.result.Some?
    {
      R.StepIsSound(View(), R.Retry(q));
      if q < |requests| {
        var stage := requests[q].stage;
        if stage.Waiting? && (stage.rotation >= |rotations| || !rotations[stage.rotation].stage.Finished?) {
          return;
        }
        if stage.Waiting? && rotations[stage.rotation].stage.result == None {
          requests := requests[q := requests[q].(stage := R.Over)];
        } else if stage.Waiting? || stage.Refreshed? {
          requests := requests[q := R.Request(R.Retrying, requests[q].calls + 1)];
        }
      }
    }

    /** A second unauthorised answer signs the courier out: memory is emptied and one more clear of storage
        is under way.  Any other answer leaves the session as it is. */
    method SecondReply(q: nat, reply: R.Reply)
      requires Valid()
      modifies this`requests, this`tokens, this`clears
      ensures Valid() && View() == R.Apply(old(View()), R.SecondReply(q, reply))
      ensures var second := q < |old(requests)| && old(requests)[q].stage.Retrying?;
              (second && reply == R.Unauthorized ==> tokens == None && clears == old(clears) + 1) &&
              (!(second && reply == R.Unauthorized) ==> tokens == old(tokens) && clears == old(clears)) &&
              requests == if second then old(requests)[q := R.Request(R.Over, old(requests)[q].calls)]
                          else old(requests)
    {
      R.StepIsSound(View(), R.SecondReply(q, reply));
      if q < |requests| && requests[q].stage.Retrying? {
        requests := requests[q := requests[q].(stage := R.Over)];
        if reply == R.Unauthorized {
          Clear();
        }
      }
    }

    /** A sign-out. */
    method SignOut()
      requires Valid()
      modifies this`tokens, this`clears
      ensures Valid() && View() == R.Apply(old(View()), R.SignOut)
      ensures tokens == None && clears == old(clears) + 1
    {
      R.StepIsSound(View(), R.SignOut);
      Clear();
    }

    /** clear, up to its await: memory is emptied at once, storage later. */
    method Clear()
      modifies this`tokens, this`clears
      ensures View() == R.Clear(old(View()))
      ensures tokens == None && clears == old(clears) + 1
    {
      tokens := None;
      clears := clears + 1;
    }

    /** rotate, after its call: on failure `clear` runs; on success `establish` starts saving a pair whose
        refresh token has never been sent. */
    method RefreshReply(r: nat, answer: Option<R.Tokens>)
      requires Valid()
      modifies this`tokens, this`clears, this`rotations, this`issued
      ensures Valid() && View() == R.Apply(old(View()), R.RefreshReply(r, answer))
      ensures R.PendingRotation(View(), r) ==> rotations[r].stage.pair.refresh !in sent
      ensures var sending := r < |old(rotations)| && old(rotations)[r].stage == R.Sending;
              (sending && answer == None ==>
                tokens == None && clears == old(clears) + 1 && issued == old(issued) &&
                rotations == old(rotations)[r := R.Rotation(old(rotations)[r].refresh, R.Clearing)]) &&
              (sending && answer.Some? && answer.value.refresh !in old(issued) ==>
                tokens == old(tokens) && clears == old(clears) && issued == old(issued) + {answer.value.refresh} &&
                rotations == old(rotations)[r := R.Rotation(old(rotations)[r].refresh,
                                                            R.Saving(answer.value, false))]) &&
              (!sending || (answer.Some? && answer.value.refresh in old(issued)) ==> View() == old(View()))
    {
      R.StepIsSound(View(), R.RefreshReply(r, answer));
      if r < |rotations| && rotations[r].stage == R.Sending {
        if answer == None {
          Clear();
          rotations := rotations[r := rotations[r].(stage := R.Clearing)];
        } else if answer.value.refresh !in issued {
          issued := issued + {answer.value.refresh};
          rotations := rotations[r := rotations[r].(stage := R.Saving(answer.value, false))];
        }
      }
    }

    /** The save inside rotate's `establish` reaches storage, before the await on it ends. */
    method RotationWritten(r: nat)
      requires Valid()
      modifies this`stored, this`rotations
      ensures Valid() && View() == R.Apply(old(View()), R.RotationWritten(r))
      ensures stored == old(stored) || (stored.Some? && stored.value.refresh !in sent)
      ensures if r < |old(rotations)| && old(rotations)[r].stage.Saving? && !old(rotations)[r].stage.written then
                var was := old(rotations)[r];
                stored == Some(was.stage.pair) &&
                rotations == old(rotations)[r := R.Rotation(was.refresh, R.Saving(was.stage.pair, true))]
              else View() == old(View())
    {
      R.StepIsSound(View(), R.RotationWritten(r));
      if r < |rotations| && rotations[r].stage.Saving? && !rotations[r].stage.written {
        assert R.PendingRotation(View(), r);
        stored := Some(rotations[r].stage.pair);
        rotations := rotations[r := rotations[r].(stage := R.Saving(rotations[r].stage.pair, true))];
      }
    }

    /** rotate, after the save inside `establish`: memory holds a pair whose refresh token has not been
        sent, or is empty. */
    method RotationSaved(r: nat, ok: bool)
      requires Valid()
      modifies this`tokens, this`clears, this`rotations
      ensures Valid() && View() == R.Apply(old(View()), R.RotationSaved(r, ok))
      ensures R.PendingRotation(old(View()), r) && !ok ==>
                tokens == None && clears == old(clears) + 1 &&
                rotations == old(rotations)[r := R.Rotation(old(rotations)[r].refresh, R.Clearing)]
      ensures R.PendingRotation(old(View()), r) && ok && old(rotations)[r].stage.written ==>
                tokens == Some(old(rotations)[r].stage.pair) && tokens.value.refresh !in sent &&
                clears == old(clears) &&
                rotations == old(rotations)[r := R.Rotation(old(rotations)[r].refresh, R.Settled(tokens))]
      ensures !R.PendingRotation(old(View()), r) || (ok && !old(rotations)[r].stage.written) ==> View() == old(View())
    {
      R.StepIsSound(View(), R.RotationSaved(r, ok));
      if r < |rotations| && rotations[r].stage.Saving? {
        var pair := rotations[r].stage.pair;
        assert R.PendingRotation(View(), r);
        if !ok {
          Clear();
          rotations := rotations[r := rotations[r].(stage := R.Clearing)];
        } else if rotations[r].stage.written {
          tokens := Some(pair);
          rotations := rotations[r := rotations[r].(stage := R.Settled(Some(pair)))];
        }
      }
    }

    /** rotate, after the `clear` that follows a failure. */
    method RotationCleared(r: nat)
      requires Valid()
      modifies this`rotations
      ensures Valid() && View() == R.Apply(old(View()), R.RotationCleared(r))
      ensures rotations == if r < |old(rotations)| && old(rotations)[r].stage.Clearing?
                           then old(rotations)[r := R.Rotation(old(rotations)[r].refresh, R.Settled(None))]
                           else old(rotations)
    {
      R.StepIsSound(View(), R.RotationCleared(r));
      if r < |rotations| && rotations[r].stage == R.Clearing {
        rotations := rotations[r := rotations[r].(stage := R.Settled(None))];
      }
    }

    /** The `finally` callback of the shared promise: when it has run no rotation is under way. */
    method Settle(r: nat)
      requires Valid()
      modifies this`refreshInFlight, this`rotations
      ensures Valid() && View() == R.Apply(old(View()), R.Settle(r))
      ensures r < |old(rotations)| && old(rotations)[r].stage.Settled? ==>
                old(refreshInFlight) == Some(r) && refreshInFlight == None &&
                rotations == old(rotations)[r := R.Rotation(old(rotations)[r].refresh,
                                                            R.Finished(old(rotations)[r].stage.result))] &&
                forall x: nat :: !R.Unfinished(View(), x)
      ensures !(r < |old(rotations)| && old(rotations)[r].stage.Settled?) ==> View() == old(View())
    {
      R.StepIsSound(View(), R.Settle(r));
      if r < |rotations| && rotations[r].stage.Settled? {
        assert R.Unfinished(View(), r);
        rotations := rotations[r := rotations[r].(stage := R.Finished(rotations[r].stage.result))];
        refreshInFlight := None;
      }
    }

    /** establish after a login, up to its save. */
    method Establish(pair: R.Tokens)
      requires Valid()
      modifies this`logins, this`issued
      ensures Valid() && View() == R.Apply(old(View()), R.LogIn(pair))
      ensures if pair.refresh in old(issued) then View() == old(View())
              else logins == old(logins) + [R.LoginSaving(pair, false)] && issued == old(issued) + {pair.refresh}
    {
      R.StepIsSound(View(), R.LogIn(pair));
      if pair.refresh !in issued {
        logins := logins + [R.LoginSaving(pair, false)];
        issued := issued + {pair.refresh};
      }
    }

    /** The save inside `establish` reaches storage. */
    method LoginWritten(l: nat)
      requires Valid()
      modifies this`logins, this`stored
      ensures Valid() && View() == R.Apply(old(View()), R.LoginWritten(l))
      ensures stored == old(stored) || (stored.Some? && stored.value.refresh !in sent)
      ensures if l < |old(logins)| && old(logins)[l].LoginSaving? && !old(logins)[l].written then
                stored == Some(old(logins)[l].pair) &&
                logins == old(logins)[l := R.LoginSaving(old(logins)[l].pair, true)]
              else View() == old(View())
    {
      R.StepIsSound(View(), R.LoginWritten(l));
      if l < |logins| && logins[l].LoginSaving? && !logins[l].written {
        assert R.PendingLogin(View(), l);
        stored := Some(logins[l].pair);
        logins := logins[l := R.LoginSaving(logins[l].pair, true)];
      }
    }

    /** establish, after its save. */
    method LoginSaved(l: nat, ok: bool)
      requires Valid()
      modifies this`logins, this`tokens
      ensures Valid() && View() == R.Apply(old(View()), R.LoginSaved(l, ok))
      ensures R.PendingLogin(old(View()), l) && ok && old(logins)[l].written ==>
                tokens == Some(old(logins)[l].pair) && tokens.value.refresh !in sent &&
                logins == old(logins)[l := R.LoginOver]
      ensures R.PendingLogin(old(View()), l) && !ok ==>
                tokens == old(tokens) && logins == old(logins)[l := R.LoginOver]
      ensures !R.PendingLogin(old(View()), l) || (ok && !old(logins)[l].written) ==> View() == old(View())
    {
      R.StepIsSound(View(), R.LoginSaved(l, ok));
      if l < |logins| && logins[l].LoginSaving? {
        var pair := logins[l].pair;
        assert R.PendingLogin(View(), l);
        if !ok {
          logins := logins[l := R.LoginOver];
        } else if logins[l].written {
          logins := logins[l := R.LoginOver];
          tokens := Some(pair);
        }
      }
    }

    /** clear, after its await. */
    method StorageCleared()
      requires Valid()
      modifies this`stored, this`clears
      ensures Valid() && View() == R.Apply(old(View()), R.StorageCleared)
      ensures if old(clears) == 0 then View() == old(View()) else stored == None && clears == old(clears) - 1
    {
      R.StepIsSound(View(), R.StorageCleared);
      if clears > 0 {
        stored := None;
        clears := clears - 1;
      }
    }

    /** restore, up to the end of its load. */
    method RestoreLoad()
      requires Valid()
      modifies this`loads
      ensures Valid() && View() == R.Apply(old(View()), R.RestoreLoad)
      ensures loads == old(loads) + [stored]
    {
      R.StepIsSound(View(), R.RestoreLoad);
      loads := loads + [stored];
    }

    /** restore, after its load: an empty storage leaves memory as it is.  The session stays valid if and
        only if the pair found is not spent. */
    method RestoreFinish(k: nat)
      requires Valid()
      modifies this`tokens, this`loads
      ensures View() == R.Apply(old(View()), R.RestoreFinish(k))
      ensures Valid() <==> R.Fresh(old(View()), R.RestoreFinish(k))
      ensures R.Found(old(View()), k) ==> tokens == old(loads)[k] && loads == old(loads)[k := None]
      ensures !R.Found(old(View()), k) ==> View() == old(View())
    {
      ghost var before := View();
      if k < |loads| && loads[k].Some? {
        R.RestoreIsSafeExactly(View(), k);
        tokens := loads[k];
        loads := loads[k := None];
      }
      if R.Fresh(before, R.RestoreFinish(k)) {
        R.StepIsSound(before, R.RestoreFinish(k));
      }
    }
  }
}
