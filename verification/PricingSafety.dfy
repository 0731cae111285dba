/** What holds of pricing rules in every committed state, however transactions interleave. */
module PricingSafety {
  import opened PricingRules

  // ---------------------------------------------------------------- one active rule per zone

  /** Before its last write a transaction has dealt with every rule it listed. */
  lemma ListedAreGone(p: Pricing, x: Transaction)
    requires TransactionSound(p, x) && x.stage == Written
    ensures forall id: nat :: id in x.listed ==> id in x.pending || id !in p.rules
  {
    forall id: nat | id in x.listed ensures id in x.pending || id !in p.rules {
      var j :| 0 <= j < |x.listed| && x.listed[j] == id;
    }
  }

  lemma CommittedOneActive(p: Pricing, t: nat)
    requires Sound(p) && t < |p.transactions| && p.transactions[t].stage == Written
    ensures OneActive(Merge(p.rules, p.transactions[t].pending))
  {
    var x := p.transactions[t];
    var rules := Merge(p.rules, x.pending);
    assert TransactionSound(p, x);
    ListedAreGone(p, x);
    forall a: nat, b: nat | ActiveIn(rules, a) && ActiveIn(rules, b) && rules[a].zone == rules[b].zone ensures a == b {
      if a != x.rule && b != x.rule {
        assert ActiveIn(p.rules, a) && ActiveIn(p.rules, b);
      } else if a != b {
        var other := if a == x.rule then b else a;
        assert OtherActive(p.rules, other, x.zone, x.rule);
      }
    }
  }

  /** A commit of transaction t leaves what transaction u relies on as it was. */
  lemma OthersUnaffected(p: Pricing, t: nat, u: nat)
    requires Sound(p) && t < |p.transactions| && u < |p.transactions| && t != u && p.transactions[t].stage == Written
    ensures var rules, y := Merge(p.rules, p.transactions[t].pending), p.transactions[u];
            WritesSound(rules, y) && ListSound(rules, y) && RuleSound(p.(rules := rules), y)
  {
    var x, y := p.transactions[t], p.transactions[u];
    var rules := Merge(p.rules, x.pending);
    assert TransactionSound(p, x) && TransactionSound(p, y);
    forall id | id in y.pending ensures id in rules && rules[id] == p.rules[id] {
      assert RowFree(p, u, id);
    }
    if y.operation == Activate && (y.stage.Replacing? || y.stage == Updating || y.stage == Written) {
      forall id: nat | OtherActive(rules, id, y.zone, y.rule) ensures id in y.listed {
        if id in x.pending {
          assert id == x.rule && x.operation == Activate;
          assert HoldsZone(x, x.zone.value) && ZoneFree(p, t, x.zone.value);
          assert HoldsZone(y, x.zone.value);
        } else {
          assert OtherActive(p.rules, id, y.zone, y.rule);
        }
      }
    }
  }

  lemma CommitIsSound(p: Pricing, t: nat)
    requires Sound(p) && t < |p.transactions|
    ensures Sound(Commit(p, t))
  {
    var x := p.transactions[t];
    if x.stage == Written {
      var p' := Commit(p, t);
      CommittedOneActive(p, t);
      forall u: nat, id: nat | u < |p'.transactions| && id in p'.transactions[u].pending ensures RowFree(p', u, id) {
        assert RowFree(p, u, id);
      }
      forall u: nat, z: string | u < |p'.transactions| && HoldsZone(p'.transactions[u], z) ensures ZoneFree(p', u, z) {
        assert ZoneFree(p, u, z);
      }
      forall u: nat | u < |p'.transactions| ensures TransactionSound(p', p'.transactions[u]) {
        assert TransactionSound(p, x);
        if u != t {
          OthersUnaffected(p, t, u);
        }
      }
    }
  }

  lemma StepIsSound(p: Pricing, s: Step)
    requires Sound(p)
    ensures Sound(Apply(p, s))
  {
    match s
    case Creation(zone, newVersion) => CreateIsSound(p, zone, newVersion);
    case Start(rule, operation, quoteCount, orderCount) => BeginIsSound(p, rule, operation, quoteCount, orderCount);
    case ZoneLock(t) => if t < |p.transactions| { LockZoneIsSound(p, t); }
    case Query(t, found) => if t < |p.transactions| { ListIsSound(p, t, found); }
    case Replacement(t) => if t < |p.transactions| { ReplaceIsSound(p, t); }
    case Write(t) => if t < |p.transactions| { UpdateIsSound(p, t); }
    case Committing(t) => if t < |p.transactions| { CommitIsSound(p, t); }
    case Rollback(t) => if t < |p.transactions| { EndIsSound(p, t); }
  }

  lemma {:induction false} RunIsSound(p: Pricing, steps: seq<Step>)
    requires Sound(p)
    ensures Sound(Run(p, steps))
    decreases |steps|
  {
    if steps != [] {
      StepIsSound(p, steps[0]);
      RunIsSound(Apply(p, steps[0]), steps[1..]);
    }
  }

  /** In every committed state each zone has at most one active rule, with no help from the database's
      unique index. */
  lemma OneActiveRulePerZone(deletable: bool, steps: seq<Step>, x: nat, y: nat)
    requires var rules := Run(Empty(deletable), steps).rules;
             ActiveIn(rules, x) && ActiveIn(rules, y) && rules[x].zone == rules[y].zone
    ensures x == y
  {
    RunIsSound(Empty(deletable), steps);
  }

  /** No step removes an active rule, although the check that it is not active is made first outside the
      transaction. */
  lemma ActiveRuleIsNeverDeleted(p: Pricing, s: Step, id: nat)
    requires Sound(p) && id in p.rules && p.rules[id].status == ACTIVE
    ensures id in Apply(p, s).rules
  {
    if s.Committing? && s.t < |p.transactions| {
      assert TransactionSound(p, p.transactions[s.t]);
    }
  }

  // ---------------------------------------------------------------- who is let in, and who fails

  /** An operation on a rule that is not there is not let in. */
  lemma NoRuleNoTransaction(p: Pricing, rule: nat, operation: Operation, quoteCount: nat, orderCount: nat)
    requires rule !in p.rules
    ensures Begin(p, rule, operation, quoteCount, orderCount) == p
  {}

  /** An activation is let in for a rule with a zone, a deactivation always, archiving and deletion for a rule that is
      not active; the deletion of a rule in use becomes its archiving. */
  lemma AdmitsExactly(p: Pricing, rule: nat, operation: Operation, quoteCount: nat, orderCount: nat)
    requires rule in p.rules
    ensures var p', r := Begin(p, rule, operation, quoteCount, orderCount), p.rules[rule];
            var letIn := match operation
                         case Activate => r.zone.Some?
                         case Deactivate => true
                         case Archive => r.status != ACTIVE
                         case Delete => r.status != ACTIVE;
            var admitted := if operation == Delete && (quoteCount > 0 || orderCount > 0) then Archive else operation;
            var stage := if operation == Activate then Locking else Updating;
            if letIn then
              p' == p.(transactions := p.transactions + [Transaction(admitted, rule, r.zone, stage, [], map[], [])])
            else p' == p
  {}

  /** The write of the rule itself fails, and rolls the transaction back, exactly when the row is gone or, free of
      locks, may not be deleted. */
  lemma WriteFailsExactly(p: Pricing, t: nat)
    requires t < |p.transactions| && p.transactions[t].stage == Updating
    ensures var x, y := p.transactions[t], Update(p, t).transactions[t];
            (y.stage == Ended <==>
              x.rule !in p.rules ||
              (RowFree(p, t, x.rule) && x.operation == Delete && (p.rules[x.rule].status == ACTIVE || !p.deletable))) &&
            (y.stage == Ended ==> y.pending == map[])
  {}

  /** A transaction that has been rolled back has changed no rule and no entry, holds no lock, and changes none ever
      after. */
  lemma RolledBackForGood(p: Pricing, t: nat, s: Step)
    requires t < |p.transactions| && s.Rollback? && s.t == t
    ensures var p' := Apply(p, s);
            p'.rules == p.rules && p'.log == p.log && p'.born == p.born && Commit(p', t) == p' &&
            p'.transactions[t].pending == map[] && forall zone :: !HoldsZone(p'.transactions[t], zone)
  {}

  // ---------------------------------------------------------------- what a commit changes

  predicate ListedAt(p: Pricing, t: nat, id: nat) {
    t < |p.transactions| && id in p.transactions[t].listed && id in p.rules
  }

  /** The rules an activation has listed are of its zone. */
  ghost predicate ListedInZone(p: Pricing) {
    forall t: nat, id: nat :: ListedAt(p, t, id) ==> p.rules[id].zone == p.transactions[t].zone
  }

  /** Rules that are there keep their zone, and what is listed, and for which zone, stays. */
  lemma OthersListNothing(p: Pricing, s: Step, t: nat)
    requires !s.Query? && t < |Apply(p, s).transactions|
    ensures var x := Apply(p, s).transactions[t];
            if t < |p.transactions| then x.listed == p.transactions[t].listed && x.zone == p.transactions[t].zone
            else x.listed == []
  {}

  lemma ZonesStay(p: Pricing, s: Step, id: nat)
    requires id in Apply(p, s).rules && (s.Creation? ==> id != p.born)
    ensures id in p.rules && Apply(p, s).rules[id].zone == p.rules[id].zone
  {}

  lemma QueryListsZone(p: Pricing, t: nat, found: seq<nat>)
    requires ListedInZone(p) && t < |p.transactions|
    ensures ListedInZone(List(p, t, found))
  {
    var p' := List(p, t, found);
    forall u: nat, id: nat | ListedAt(p', u, id) ensures p'.rules[id].zone == p'.transactions[u].zone {
      assert u != t ==> ListedAt(p, u, id);
      assert p' == p ==> ListedAt(p, u, id);
    }
  }

  lemma StepKeepsListed(p: Pricing, s: Step)
    requires Sound(p) && ListedInZone(p)
    ensures ListedInZone(Apply(p, s))
  {
    if s.Query? {
      if s.t < |p.transactions| { QueryListsZone(p, s.t, s.found); }
    } else {
      var p' := Apply(p, s);
      forall t: nat, id: nat | ListedAt(p', t, id) ensures p'.rules[id].zone == p'.transactions[t].zone {
        OthersListNothing(p, s, t);
        assert TransactionSound(p, p.transactions[t]);
        ZonesStay(p, s, id);
        assert ListedAt(p, t, id);
      }
    }
  }

  lemma {:induction false} RunKeepsListed(p: Pricing, steps: seq<Step>)
    requires Sound(p) && ListedInZone(p)
    ensures Sound(Run(p, steps)) && ListedInZone(Run(p, steps))
    decreases |steps|
  {
    if steps != [] {
      StepIsSound(p, steps[0]);
      StepKeepsListed(p, steps[0]);
      RunKeepsListed(Apply(p, steps[0]), steps[1..]);
    }
  }

  /** In every reachable state a commit gives its rule the status asked for, or removes it, and touches no other
      rule, save that an activation deactivates rules of its own zone. */
  lemma CommitTouchesExactly(deletable: bool, steps: seq<Step>, t: nat, id: nat)
    requires var p := Run(Empty(deletable), steps);
             t < |p.transactions| && p.transactions[t].stage == Written && id in p.rules
    ensures var p := Run(Empty(deletable), steps);
            var x, after := p.transactions[t], Commit(p, t).rules;
            if id == x.rule then
              match x.operation
              case Activate => id in after && after[id] == Rule(p.rules[id].zone, ACTIVE)
              case Deactivate => id in after && after[id] == Rule(p.rules[id].zone, INACTIVE)
              case Archive => id in after && after[id] == Rule(p.rules[id].zone, RETIRED)
              case Delete => id !in after && deletable
            else
              id in after && after[id].zone == p.rules[id].zone &&
              (after[id] != p.rules[id] ==>
                x.operation == Activate && p.rules[id].zone == x.zone && after[id].status == INACTIVE)
  {
    var p := Run(Empty(deletable), steps);
    RunKeepsListed(Empty(deletable), steps);
    RunKeepsDeletable(Empty(deletable), steps);
    var x := p.transactions[t];
    assert TransactionSound(p, x);
    if id in x.listed {
      assert ListedAt(p, t, id);
    }
  }

  lemma {:induction false} RunKeepsDeletable(p: Pricing, steps: seq<Step>)
    ensures Run(p, steps).deletable == p.deletable
    decreases |steps|
  {
    if steps != [] {
      RunKeepsDeletable(Apply(p, steps[0]), steps[1..]);
    }
  }

  // ---------------------------------------------------------------- the audit log

  /** What is known of a rule. */
  datatype Known = Unborn | Present(status: RuleStatus) | Removed

  function KnownState(p: Pricing, id: nat): Known {
    if id in p.rules then Present(p.rules[id].status) else if id < p.born then Removed else Unborn
  }

  /** What one entry says by itself. */
  function Says(action: Action): Known {
    match action
    case Created => Present(DRAFT)
    case VersionCreated => Present(DRAFT)
    case Activated => Present(ACTIVE)
    case Deactivated => Present(INACTIVE)
    case Archived => Present(RETIRED)
    case Deleted => Removed
  }

  /** Folding in an entry, in the order of the commits: one about a rule that is not there changes nothing. */
  function Folded(k: Known, e: Entry, id: nat): Known {
    if e.rule != id then k
    else if e.action == Created || e.action == VersionCreated || k.Present? then Says(e.action)
    else k
  }

  function FoldLog(k: Known, log: seq<Entry>, id: nat): Known {
    if log == [] then k else Folded(FoldLog(k, log[..|log| - 1], id), log[|log| - 1], id)
  }

  lemma {:induction false} FoldConcat(k: Known, a: seq<Entry>, b: seq<Entry>, id: nat)
    ensures FoldLog(k, a + b, id) == FoldLog(FoldLog(k, a, id), b, id)
  {
    if b == [] {
      assert a + b == a;
    } else {
      assert (a + b)[..|a + b| - 1] == a + b[..|b| - 1];
      FoldConcat(k, a, b[..|b| - 1], id);
    }
  }

  lemma {:induction false} FoldReplaced(k: Known, listed: seq<nat>, id: nat)
    ensures FoldLog(k, ReplacedEntries(listed), id) == if id in listed && k.Present? then Present(INACTIVE) else k
  {
    if listed != [] {
      var front, last := listed[..|listed| - 1], listed[|listed| - 1];
      FoldReplaced(k, front, id);
      assert listed == front + [last];
      assert ReplacedEntries(listed)[..|ReplacedEntries(listed)| - 1] == ReplacedEntries(front);
    }
  }

  lemma FoldOne(k: Known, e: Entry, id: nat)
    ensures FoldLog(k, [e], id) == Folded(k, e, id)
  {
    assert [e][..0] == [];
    assert FoldLog(k, [e][..0], id) == k;
  }

  ghost predicate LogTells(p: Pricing) {
    forall id: nat :: FoldLog(Unborn, p.log, id) == KnownState(p, id)
  }

  /** Folding in a transaction's entries does to the log's account of a rule what its commit does to the row. */
  lemma CommitIsLogged(p: Pricing, t: nat, id: nat)
    requires Sound(p) && t < |p.transactions| && p.transactions[t].stage == Written
    ensures FoldLog(KnownState(p, id), p.transactions[t].entries, id) == KnownState(Commit(p, t), id)
  {
    var x := p.transactions[t];
    assert TransactionSound(p, x);
    var replaced, last := ReplacedEntries(x.listed), Entry(x.rule, ActionOf(x.operation));
    FoldConcat(KnownState(p, id), replaced, [last], id);
    FoldReplaced(KnownState(p, id), x.listed, id);
    FoldOne(FoldLog(KnownState(p, id), replaced, id), last, id);
    ListedAreGone(p, x);
  }

  lemma CreationIsLogged(p: Pricing, zone: string, newVersion: bool)
    requires Sound(p) && LogTells(p)
    ensures LogTells(Create(p, zone, newVersion))
  {
    var p' := Create(p, zone, newVersion);
    forall id: nat ensures FoldLog(Unborn, p'.log, id) == KnownState(p', id) {
      var e := p'.log[|p.log|];
      FoldConcat(Unborn, p.log, [e], id);
      FoldOne(FoldLog(Unborn, p.log, id), e, id);
    }
  }

  lemma OnlyCommitsChangeRules(p: Pricing, s: Step)
    requires !s.Creation? && !(s.Committing? && s.t < |p.transactions| && p.transactions[s.t].stage == Written)
    ensures var p' := Apply(p, s); p'.log == p.log && p'.rules == p.rules && p'.born == p.born
  {}

  lemma StepIsLogged(p: Pricing, s: Step)
    requires Sound(p) && LogTells(p)
    ensures LogTells(Apply(p, s))
  {
    if s.Creation? {
      CreationIsLogged(p, s.zone, s.newVersion);
    } else if s.Committing? && s.t < |p.transactions| && p.transactions[s.t].stage == Written {
      forall id: nat ensures FoldLog(Unborn, Commit(p, s.t).log, id) == KnownState(Commit(p, s.t), id) {
        FoldConcat(Unborn, p.log, p.transactions[s.t].entries, id);
        CommitIsLogged(p, s.t, id);
      }
    } else {
      OnlyCommitsChangeRules(p, s);
    }
  }

  lemma {:induction false} RunIsLogged(p: Pricing, steps: seq<Step>)
    requires Sound(p) && LogTells(p)
    ensures LogTells(Run(p, steps))
    decreases |steps|
  {
    if steps != [] {
      StepIsLogged(p, steps[0]);
      StepIsSound(p, steps[0]);
      RunIsLogged(Apply(p, steps[0]), steps[1..]);
    }
  }

  /** Folding the committed audit entries in the order of their commits, and ignoring those about rules that are
      not there, gives the status or the absence of every rule, including rules deactivated by another's
      activation.  The rows themselves carry only a creation time, which need not tell that order. */
  lemma LogDeterminesRules(deletable: bool, steps: seq<Step>, id: nat)
    ensures var p := Run(Empty(deletable), steps); FoldLog(Unborn, p.log, id) == KnownState(p, id)
  {
    RunIsLogged(Empty(deletable), steps);
  }
}
