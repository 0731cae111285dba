/** Archiving checks that the rule is not active before its transaction, and not again inside it; and an activation
    does not look again at the rules it replaces. */
module PricingArchive {
  import opened Options
  import opened PricingRules
  import opened PricingSafety
  import opened PricingAdmin
  import opened PricingLog

  /** The commit of transaction t takes the rule out of use while it is active. */
  ghost predicate RetiresActive(p: Pricing, t: nat, id: nat)
    requires t < |p.transactions|
  {
    id in p.rules && p.rules[id].status == ACTIVE &&
    id in Commit(p, t).rules && Commit(p, t).rules[id].status == RETIRED
  }

  lemma StepKeepsTransactions(p: Pricing, s: Step, t: nat)
    requires t < |p.transactions|
    ensures t < |Apply(p, s).transactions|
    ensures Apply(p, s).transactions[t].operation == p.transactions[t].operation
    ensures Apply(p, s).transactions[t].rule == p.transactions[t].rule
  {}

  lemma {:induction false} RunKeepsTransactions(p: Pricing, steps: seq<Step>, t: nat)
    requires t < |p.transactions|
    ensures t < |Run(p, steps).transactions|
    ensures Run(p, steps).transactions[t].operation == p.transactions[t].operation
    ensures Run(p, steps).transactions[t].rule == p.transactions[t].rule
    decreases |steps|
  {
    if steps != [] {
      StepKeepsTransactions(p, steps[0], t);
      RunKeepsTransactions(Apply(p, steps[0]), steps[1..], t);
    }
  }

  /** Neither committed nor rolled back by this step. */
  predicate Leaves(s: Step, t: nat) {
    s != Committing(t) && s != Rollback(t)
  }

  lemma OtherCommit(p: Pricing, u: nat, t: nat)
    requires Sound(p) && t < |p.transactions| && u < |p.transactions| && u != t && p.transactions[t].stage == Written
    ensures var p', id := Commit(p, u), p.transactions[t].rule;
            p'.transactions[t] == p.transactions[t] && id in p.rules && id in p'.rules && p'.rules[id] == p.rules[id]
  {
    assert TransactionSound(p, p.transactions[t]);
    assert RowFree(p, t, p.transactions[t].rule);
  }

  lemma WrittenStays(p: Pricing, s: Step, t: nat)
    requires t < |p.transactions| && p.transactions[t].stage == Written && Leaves(s, t)
    ensures t < |Apply(p, s).transactions| && Apply(p, s).transactions[t] == p.transactions[t]
  {}

  /** A written row is as it was until its transaction ends. */
  lemma WrittenRowStays(p: Pricing, s: Step, t: nat)
    requires Sound(p) && t < |p.transactions| && p.transactions[t].stage == Written && Leaves(s, t)
    ensures var p', id := Apply(p, s), p.transactions[t].rule;
            t < |p'.transactions| && p'.transactions[t] == p.transactions[t] &&
            id in p.rules && id in p'.rules && p'.rules[id] == p.rules[id]
  {
    WrittenStays(p, s, t);
    assert TransactionSound(p, p.transactions[t]);
    if s.Committing? && s.t < |p.transactions| {
      OtherCommit(p, s.t, t);
    } else if !s.Creation? {
      OnlyCommitsChangeRules(p, s);
    }
  }

  lemma {:induction false} WrittenRowStaysOverRun(p: Pricing, steps: seq<Step>, t: nat)
    requires Sound(p) && t < |p.transactions| && p.transactions[t].stage == Written
    requires forall i :: 0 <= i < |steps| ==> Leaves(steps[i], t)
    ensures var p', id := Run(p, steps), p.transactions[t].rule;
            Sound(p') && t < |p'.transactions| && p'.transactions[t] == p.transactions[t] &&
            id in p.rules && id in p'.rules && p'.rules[id] == p.rules[id]
    decreases |steps|
  {
    if steps == [] {
      assert TransactionSound(p, p.transactions[t]);
    } else {
      WrittenRowStays(p, steps[0], t);
      StepIsSound(p, steps[0]);
      WrittenRowStaysOverRun(Apply(p, steps[0]), steps[1..], t);
    }
  }

  lemma CommitRetires(p: Pricing, t: nat)
    requires Sound(p) && t < |p.transactions| && p.transactions[t].stage == Written
    requires p.transactions[t].operation == Archive
    ensures var id := p.transactions[t].rule;
            id in p.rules && (RetiresActive(p, t, id) <==> p.rules[id].status == ACTIVE)
  {
    assert TransactionSound(p, p.transactions[t]);
  }

  /** An archiving transaction is let in only if the rule is not active, and its commit retires an active
      rule if and only if the rule has become active by the time the row is written. */
  lemma ArchiveRetiresActiveExactly(
    p: Pricing, rule: nat, operation: Operation, quoteCount: nat, orderCount: nat, between: seq<Step>, later: seq<Step>)
    requires Sound(p) && |Begin(p, rule, operation, quoteCount, orderCount).transactions| > |p.transactions|
    requires Begin(p, rule, operation, quoteCount, orderCount).transactions[|p.transactions|].operation == Archive
    requires var t := |p.transactions|;
             var seen := Run(Begin(p, rule, operation, quoteCount, orderCount), between);
             t < |seen.transactions| && seen.transactions[t].stage == Updating && rule in seen.rules &&
             t < |Update(seen, t).transactions| && Update(seen, t).transactions[t].stage == Written
    requires forall i :: 0 <= i < |later| ==> Leaves(later[i], |p.transactions|)
    ensures var t := |p.transactions|;
            var seen := Run(Begin(p, rule, operation, quoteCount, orderCount), between);
            var last := Run(Update(seen, t), later);
            rule in p.rules && p.rules[rule].status != ACTIVE && t < |last.transactions| &&
            (RetiresActive(last, t, rule) <==> seen.rules[rule].status == ACTIVE)
  {
    var t, begun := |p.transactions|, Begin(p, rule, operation, quoteCount, orderCount);
    var seen := Run(begun, between);
    BeginIsSound(p, rule, operation, quoteCount, orderCount);
    RunIsSound(begun, between);
    RunKeepsTransactions(begun, between, t);
    UpdateIsSound(seen, t);
    WrittenRowStaysOverRun(Update(seen, t), later, t);
    CommitRetires(Run(Update(seen, t), later), t);
  }

  // ---------------------------------------------------------------- a run

  /** Rule 0 is a draft, and a transaction that will archive it has been let in. */
  lemma ArchiveWaits(deletable: bool) returns (steps: seq<Step>)
    ensures var p := Run(Empty(deletable), steps);
            p.rules == map[0 := Rule(Some("zone"), DRAFT)] && Sound(p) &&
            p.transactions == [Transaction(Archive, 0, Some("zone"), Updating, [], map[], [])]
  {
    steps := [Creation("zone", false), Start(0, Archive, 0, 0)];
    Two(Empty(deletable), steps[0], steps[1]);
    RunIsSound(Empty(deletable), steps);
  }

  /** A run in which a rule is activated after it has been let in for archiving, and is then archived:
      the zone is left without an active rule, and nobody has been refused. */
  lemma ActiveRuleArchived(deletable: bool) returns (steps: seq<Step>)
    ensures var p := Run(Empty(deletable), steps);
            |p.transactions| > 0 && p.transactions[0].stage == Written && RetiresActive(p, 0, 0)
  {
    var waits := ArchiveWaits(deletable);
    var p := Run(Empty(deletable), waits);
    assert Found(p, Transaction(Activate, 0, Some("zone"), Listing, [], map[], []), []);
    var activates := Serial(p, 0, Activate, []);
    SerialRun(p, 0, Activate, []);
    RunConcat(Empty(deletable), waits, activates);
    var active := Run(p, activates);
    assert active.rules[0].status == ACTIVE && active.transactions[0] == p.transactions[0];
    WaitingWrites(active);
    RunConcat(Empty(deletable), waits + activates, [Write(0)]);
    steps := waits + activates + [Write(0)];
  }

  lemma WaitingWrites(p: Pricing)
    requires NoRowLocked(p) && 0 < |p.transactions| && 0 in p.rules && p.rules[0].status == ACTIVE
    requires p.transactions[0] == Transaction(Archive, 0, Some("zone"), Updating, [], map[], [])
    ensures var p' := Run(p, [Write(0)]);
            |p'.transactions| > 0 && p'.transactions[0].stage == Written && RetiresActive(p', 0, 0)
  {
    assert Run(p, [Write(0)]) == Run(Apply(p, Write(0)), []);
  }

  // ---------------------------------------------------------------- a retired rule comes back

  lemma DeactivateThenArchive(p: Pricing) returns (steps: seq<Step>)
    requires NoRowLocked(p) && 0 in p.rules && 1 < |p.transactions|
    ensures var q := Run(p, steps);
            q.rules == p.rules[0 := Rule(p.rules[0].zone, RETIRED)] && NoRowLocked(q) &&
            1 < |q.transactions| && q.transactions[1] == p.transactions[1]
  {
    var off := Serial(p, 0, Deactivate, []);
    SerialRun(p, 0, Deactivate, []);
    var q := Run(p, off);
    assert Replacements([]) == map[];
    var archive := Serial(q, 0, Archive, []);
    SerialRun(q, 0, Archive, []);
    RunConcat(p, off, archive);
    steps := off + archive;
  }

  lemma FinishAfterArchiving(p: Pricing) returns (steps: seq<Step>)
    requires NoRowLocked(p) && 1 < |p.transactions| && 0 in p.rules && 1 in p.rules
    requires p.transactions[1] == Transaction(Activate, 1, Some("zone"), Replacing(0), [0], map[], [])
    ensures var q := Run(p, steps); 0 in q.rules && q.rules[0].status == INACTIVE
  {
    var replacing := [Replacement(1), Replacement(1)];
    Two(p, replacing[0], replacing[1]);
    var q := Run(p, replacing);
    assert q.rules == p.rules;
    assert q.transactions[1]
        == Transaction(Activate, 1, Some("zone"), Updating, [0], map[0 := Some(INACTIVE)], ReplacedEntries([0]));
    WriteAndCommit(q, 1);
    RunConcat(p, replacing, [Write(1), Committing(1)]);
    steps := replacing + [Write(1), Committing(1)];
  }

  /** The statement that deactivates the rules an activation has listed does not look at their status again: a rule
      deactivated and archived since it was listed is retired no longer. */
  lemma RetiredRuleRevived(deletable: bool) returns (before: seq<Step>, later: seq<Step>)
    ensures var p, q := Run(Empty(deletable), before), Run(Empty(deletable), before + later);
            0 in p.rules && p.rules[0].status == RETIRED && 0 in q.rules && q.rules[0].status == INACTIVE
  {
    var listing := ListedActivation(deletable);
    var archiving := DeactivateThenArchive(Run(Empty(deletable), listing));
    RunConcat(Empty(deletable), listing, archiving);
    before := listing + archiving;
    later := FinishAfterArchiving(Run(Empty(deletable), before));
    RunConcat(Empty(deletable), before, later);
  }
}
