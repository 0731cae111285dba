/** When the last audit entry about a rule can be taken at its word. */
module PricingLog {
  import opened Options
  import opened PricingRules
  import opened PricingSafety
  import opened PricingAdmin

  /** What the last entry about a rule says, with no regard to those before it. */
  function LastWord(log: seq<Entry>, id: nat): Known {
    if log == [] then Unborn
    else if log[|log| - 1].rule == id then Says(log[|log| - 1].action)
    else LastWord(log[..|log| - 1], id)
  }

  ghost predicate LastEntryTells(deletable: bool) {
    forall steps: seq<Step>, id: nat ::
      var p := Run(Empty(deletable), steps); LastWord(p.log, id) == KnownState(p, id)
  }

  // ---------------------------------------------------------------- rows that cannot be deleted

  lemma {:induction false} ReplacedOnlyDeactivates(listed: seq<nat>, e: Entry)
    requires e in ReplacedEntries(listed)
    ensures e.action == Deactivated && e.rule in listed
  {
    if listed != [] && e in ReplacedEntries(listed[..|listed| - 1]) {
      ReplacedOnlyDeactivates(listed[..|listed| - 1], e);
    }
  }

  /** Entries about a rule that is there, none of them a deletion, fold to what the last of them says. */
  lemma {:induction false} LastFolds(a: seq<Entry>, b: seq<Entry>, id: nat)
    requires forall e :: e in b && e.rule == id ==> LastWord(a, id).Present? && e.action != Deleted
    ensures LastWord(a + b, id) == FoldLog(LastWord(a, id), b, id)
    ensures LastWord(a, id).Present? ==> LastWord(a + b, id).Present?
  {
    if b == [] {
      assert a + b == a;
    } else {
      assert (a + b)[..|a + b| - 1] == a + b[..|b| - 1];
      LastFolds(a, b[..|b| - 1], id);
    }
  }

  /** No row has ever been deleted, and every last word is true. */
  ghost predicate LastWordsTrue(p: Pricing) {
    !p.deletable && Sound(p) && (forall id: nat :: id < p.born ==> id in p.rules) &&
    (forall id: nat :: LastWord(p.log, id) == KnownState(p, id))
  }

  lemma EntriesAreAboutPresentRules(p: Pricing, t: nat, e: Entry)
    requires LastWordsTrue(p) && t < |p.transactions| && p.transactions[t].stage == Written
    requires e in p.transactions[t].entries
    ensures e.rule in p.rules && e.action != Deleted
  {
    var x := p.transactions[t];
    assert TransactionSound(p, x);
    if e in ReplacedEntries(x.listed) {
      ReplacedOnlyDeactivates(x.listed, e);
    }
  }

  lemma CommitKeepsLastWords(p: Pricing, t: nat)
    requires LastWordsTrue(p) && t < |p.transactions| && p.transactions[t].stage == Written
    ensures LastWordsTrue(Commit(p, t))
  {
    var x, p' := p.transactions[t], Commit(p, t);
    CommitIsSound(p, t);
    assert TransactionSound(p, x);
    forall id: nat ensures LastWord(p'.log, id) == KnownState(p', id) {
      forall e | e in x.entries && e.rule == id ensures LastWord(p.log, id).Present? && e.action != Deleted {
        EntriesAreAboutPresentRules(p, t, e);
      }
      LastFolds(p.log, x.entries, id);
      CommitIsLogged(p, t, id);
    }
  }

  lemma CreateKeepsLastWords(p: Pricing, zone: string, newVersion: bool)
    requires LastWordsTrue(p)
    ensures LastWordsTrue(Create(p, zone, newVersion))
  {
    var p' := Create(p, zone, newVersion);
    CreateIsSound(p, zone, newVersion);
    assert p'.log[..|p'.log| - 1] == p.log;
  }

  lemma StepKeepsLastWords(p: Pricing, s: Step)
    requires LastWordsTrue(p)
    ensures LastWordsTrue(Apply(p, s))
  {
    if s.Creation? {
      CreateKeepsLastWords(p, s.zone, s.newVersion);
    } else if s.Committing? && s.t < |p.transactions| && p.transactions[s.t].stage == Written {
      CommitKeepsLastWords(p, s.t);
    } else {
      StepIsSound(p, s);
      OnlyCommitsChangeRules(p, s);
    }
  }

  lemma {:induction false} RunKeepsLastWords(p: Pricing, steps: seq<Step>)
    requires LastWordsTrue(p)
    ensures LastWordsTrue(Run(p, steps))
    decreases |steps|
  {
    if steps != [] {
      StepKeepsLastWords(p, steps[0]);
      RunKeepsLastWords(Apply(p, steps[0]), steps[1..]);
    }
  }

  // ---------------------------------------------------------------- rows that can

  /** Rule 0 is active, and an activation of rule 1 in the same zone has listed it. */
  lemma ListedActivation(deletable: bool) returns (steps: seq<Step>)
    ensures var p := Run(Empty(deletable), steps);
            p.rules == map[0 := Rule(Some("zone"), ACTIVE), 1 := Rule(Some("zone"), DRAFT)] && p.born == 2 &&
            p.deletable == deletable &&
            |p.transactions| == 2 && p.transactions[0].stage == Ended && p.transactions[0].pending == map[] &&
            p.transactions[1] == Transaction(Activate, 1, Some("zone"), Replacing(0), [0], map[], [])
  {
    var drafts := [Creation("zone", false), Creation("zone", false)];
    Two(Empty(deletable), drafts[0], drafts[1]);
    var p := Run(Empty(deletable), drafts);
    assert Found(p, Transaction(Activate, 0, Some("zone"), Listing, [], map[], []), []);
    SerialRun(p, 0, Activate, []);
    var first := Serial(p, 0, Activate, []);
    RunConcat(Empty(deletable), drafts, first);
    var q := Run(p, first);
    assert q.rules == map[0 := Rule(Some("zone"), ACTIVE), 1 := Rule(Some("zone"), DRAFT)];
    assert [0][0] == 0;
    assert Found(q, Transaction(Activate, 1, Some("zone"), Listing, [], map[], []), [0]);
    var listed := SerialActivation(q, 1, [0]);
    var second := [Start(1, Activate, 0, 0), ZoneLock(1), Query(1, [0])];
    RunConcat(Empty(deletable), drafts + first, second);
    steps := drafts + first + second;
  }

  lemma DeactivateThenDelete(p: Pricing) returns (steps: seq<Step>)
    requires NoRowLocked(p) && p.deletable && 0 in p.rules
    ensures var q := Run(p, steps);
            q.rules == p.rules - {0} && q.born == p.born && NoRowLocked(q) &&
            |q.transactions| == |p.transactions| + 2 &&
            q.transactions[..|p.transactions|] == p.transactions
  {
    var off := Serial(p, 0, Deactivate, []);
    SerialRun(p, 0, Deactivate, []);
    var q := Run(p, off);
    assert Replacements([]) == map[];
    var gone := Serial(q, 0, Delete, []);
    SerialRun(q, 0, Delete, []);
    RunConcat(p, off, gone);
    steps := off + gone;
  }

  lemma FinishAfterDeletion(p: Pricing) returns (steps: seq<Step>)
    requires NoRowLocked(p) && 1 < |p.transactions| && 0 !in p.rules && 1 in p.rules
    requires p.transactions[1] == Transaction(Activate, 1, Some("zone"), Replacing(0), [0], map[], [])
    ensures var q := Run(p, steps); 0 !in q.rules && q.born == p.born && LastWord(q.log, 0) == Present(INACTIVE)
  {
    var passing := [Replacement(1), Replacement(1)];
    Two(p, passing[0], passing[1]);
    var q := Run(p, passing);
    assert q.rules == p.rules;
    assert q.transactions[1] == Transaction(Activate, 1, Some("zone"), Updating, [0], map[], ReplacedEntries([0]));
    WriteAndCommit(q, 1);
    RunConcat(p, passing, [Write(1), Committing(1)]);
    steps := passing + [Write(1), Committing(1)];
    var end := Run(p, steps);
    assert ReplacedEntries([0]) == [Entry(0, Deactivated)] by {
      assert [0][..0] == [];
    }
    var log := p.log + [Entry(0, Deactivated)];
    assert end.log == log + [Entry(1, Activated)];
    assert end.log[..|log|] == log;
  }

  /** If rows can be deleted, a rule deactivated and deleted while an activation has it listed is logged
      as deactivated after its deletion. */
  lemma DeletedRuleLoggedInactive() returns (steps: seq<Step>)
    ensures var p := Run(Empty(true), steps);
            KnownState(p, 0) == Removed && LastWord(p.log, 0) == Present(INACTIVE)
  {
    var a := ListedActivation(true);
    var p := Run(Empty(true), a);
    var b := DeactivateThenDelete(p);
    var q := Run(p, b);
    assert q.transactions[1] == p.transactions[1] by {
      assert q.transactions[..2][1] == p.transactions[1];
    }
    var c := FinishAfterDeletion(q);
    RunConcat(Empty(true), a, b);
    RunConcat(Empty(true), a + b, c);
    steps := a + b + c;
  }

  /** The last entry about a rule gives its status or its absence in every committed state if and only if
      the database refuses to delete rows. */
  lemma LastEntryTellsExactly(deletable: bool)
    ensures LastEntryTells(deletable) <==> !deletable
  {
    if deletable {
      var steps := DeletedRuleLoggedInactive();
      assert LastWord(Run(Empty(true), steps).log, 0) != KnownState(Run(Empty(true), steps), 0);
    } else {
      forall steps: seq<Step>, id: nat
        ensures LastWord(Run(Empty(false), steps).log, id) == KnownState(Run(Empty(false), steps), id)
      {
        RunKeepsLastWords(Empty(false), steps);
      }
    }
  }
}
