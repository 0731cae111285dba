/** The administration of pricing rules as the service writes it, one call at a time, and how it is a run
    of the statement-by-statement protocol. */
module PricingAdmin {
  import opened Options
  import opened PricingRules
  import opened PricingSafety

  /** `Refused` is an error raised by the database. */
  datatype Response = Done | NotFound | Conflict | Refused

  class PricingDatabase {
    var rules: map<nat, Rule>
    var log: seq<Entry>
    var born: nat
    const deletable: bool

    constructor (deletable: bool)
      ensures Tables() == Empty(deletable)
    {
      rules, log, born, this.deletable := map[], [], 0, deletable;
    }

    ghost function Tables(): Pricing
      reads this
    {
      Pricing(rules, log, born, [], deletable)
    }

    method CreatePricingRule(zone: string, newVersion: bool) returns (id: nat)
      modifies this
      ensures id == old(born) && Tables() == Create(old(Tables()), zone, newVersion)
      ensures rules == old(rules)[id := Rule(Some(zone), DRAFT)] && born == id + 1
      ensures log == old(log) + [Entry(id, if newVersion then VersionCreated else Created)]
    {
      id := born;
      rules := rules[id := Rule(Some(zone), DRAFT)];
      log := log + [Entry(id, if newVersion then VersionCreated else Created)];
      born := born + 1;
    }

    /** The active rules of the zone other than the given one, in some order. */
    method FindActive(zone: string, ruleId: nat) returns (found: seq<nat>)
      ensures forall id: nat :: id in found <==> OtherActive(rules, id, Some(zone), ruleId)
      ensures forall id: nat :: id in found <==>
                id in rules && id != ruleId && rules[id].status == ACTIVE && rules[id].zone == Some(zone)
      ensures forall i, j :: 0 <= i < j < |found| ==> found[i] != found[j]
    {
      var left := set id | id in rules && OtherActive(rules, id, Some(zone), ruleId);
      found := [];
      while left != {}
        invariant forall id: nat :: OtherActive(rules, id, Some(zone), ruleId) <==> id in left || id in found
        invariant forall id :: id in found ==> id !in left
        invariant forall i, j :: 0 <= i < j < |found| ==> found[i] != found[j]
        decreases left
      {
        var id :| id in left;
        found, left := found + [id], left - {id};
      }
    }

    /** Deactivates the rules found and audits each. */
    method DeactivateAll(found: seq<nat>)
      requires forall id :: id in found ==> id in rules
      modifies this`rules, this`log
      ensures rules == Merge(old(rules), Replacements(found)) && log == old(log) + ReplacedEntries(found)
      ensures rules.Keys == old(rules).Keys
      ensures forall id :: id in rules ==>
                rules[id] == if id in found then Rule(old(rules)[id].zone, INACTIVE) else old(rules)[id]
    {
      rules := map id | id in rules :: if id in found then rules[id].(status := INACTIVE) else rules[id];
      for i := 0 to |found|
        invariant rules == Merge(old(rules), Replacements(found))
        invariant log == old(log) + ReplacedEntries(found[..i])
      {
        assert found[..i + 1][..i] == found[..i];
        log := log + [Entry(found[i], Deactivated)];
      }
      assert found[..|found|] == found;
    }

    /** The active rules of the zone, when there are any, give way to the rule being activated. */
    method ReplaceActive(ruleId: nat, zone: string) returns (deactivated: seq<nat>)
      modifies this`rules, this`log
      ensures forall id: nat :: id in deactivated <==> OtherActive(old(rules), id, Some(zone), ruleId)
      ensures forall id: nat :: id in deactivated <==>
                id in old(rules) && id != ruleId && old(rules)[id].status == ACTIVE && old(rules)[id].zone == Some(zone)
      ensures forall i, j :: 0 <= i < j < |deactivated| ==> deactivated[i] != deactivated[j]
      ensures rules == Merge(old(rules), Replacements(deactivated)) && log == old(log) + ReplacedEntries(deactivated)
      ensures rules.Keys == old(rules).Keys
      ensures forall id :: id in rules ==>
                rules[id] == if id in deactivated then Rule(old(rules)[id].zone, INACTIVE) else old(rules)[id]
    {
      deactivated := FindActive(zone, ruleId);
      if |deactivated| > 0 {
        DeactivateAll(deactivated);
      } else {
        assert Merge(rules, Replacements([])) == rules;
      }
    }

    /** setPricingStatus.  An accepted call has the effect of the steps of one transaction; `replaced` are the
        rules it deactivates, and each is audited before the rule itself. */
    method SetPricingStatus(ruleId: nat, status: RuleStatus)
      returns (response: Response, ghost replaced: seq<nat>, ghost steps: seq<Step>)
      requires status == ACTIVE || status == INACTIVE
      modifies this`rules, this`log
      ensures response == NotFound <==> ruleId !in old(rules)
      ensures response == Conflict <==> ruleId in old(rules) && status == ACTIVE && old(rules)[ruleId].zone == None
      ensures response != Done ==> Tables() == old(Tables())
      ensures response != Refused
      ensures response == Done ==> StatusSet(old(rules), rules, ruleId, status)
      ensures response == Done ==>
                (forall id: nat :: id in replaced <==>
                  status == ACTIVE && id in old(rules) && id != ruleId && old(rules)[id].status == ACTIVE &&
                  old(rules)[id].zone == old(rules)[ruleId].zone) &&
                (forall i, j :: 0 <= i < j < |replaced| ==> replaced[i] != replaced[j]) &&
                Audited(old(log), replaced, Entry(ruleId, if status == ACTIVE then Activated else Deactivated), log)
      ensures response == Done ==>
                steps == if status == ACTIVE then ActivationSteps(ruleId, replaced)
                         else [Start(ruleId, Deactivate, 0, 0), Write(0), Committing(0)]
      ensures response != Done ==> steps == []
      ensures SameTables(Tables(), Run(old(Tables()), steps))
    {
      steps, replaced := [], [];
      if ruleId !in rules {
        return NotFound, [], [];
      }
      var current := rules[ruleId];
      if status == ACTIVE && current.zone == None {
        return Conflict, [], [];
      }
      var deactivated := [];
      if status == ACTIVE {
        deactivated := ReplaceActive(ruleId, current.zone.value);
      }
      rules := rules[ruleId := rules[ruleId].(status := status)];
      log := log + [Entry(ruleId, if status == ACTIVE then Activated else Deactivated)];
      replaced := deactivated;
      steps := StatusSetIsSerial(old(Tables()), Tables(), ruleId, status, replaced);
      ReplacedEntriesAre(deactivated);
      response := Done;
    }

    /** archivePricingRule. */
    method ArchivePricingRule(ruleId: nat) returns (response: Response, ghost steps: seq<Step>)
      modifies this`rules, this`log
      ensures response == NotFound <==> ruleId !in old(rules)
      ensures response == Conflict <==> ruleId in old(rules) && old(rules)[ruleId].status == ACTIVE
      ensures response != Refused
      ensures response == Done ==> Retired(old(rules), old(log), ruleId, rules, log)
      ensures response == Done ==> steps == [Start(ruleId, Archive, 0, 0), Write(0), Committing(0)]
      ensures response != Done ==> steps == []
      ensures response != Done ==> Tables() == old(Tables())
      ensures SameTables(Tables(), Run(old(Tables()), steps))
    {
      steps := [];
      if ruleId !in rules {
        return NotFound, [];
      }
      if rules[ruleId].status == ACTIVE {
        return Conflict, [];
      }
      rules := rules[ruleId := rules[ruleId].(status := RETIRED)];
      log := log + [Entry(ruleId, Archived)];
      steps := Serial(old(Tables()), ruleId, Archive, []);
      SerialRun(old(Tables()), ruleId, Archive, []);
      assert rules == Merge(old(rules), Replacements([])[ruleId := Some(RETIRED)]);
      response := Done;
    }

    /** deletePricingRule: a rule in use is archived instead. */
    method DeletePricingRule(ruleId: nat, quoteCount: nat, orderCount: nat)
      returns (response: Response, archived: bool, ghost steps: seq<Step>)
      modifies this`rules, this`log
      ensures archived <==>
                ruleId in old(rules) && old(rules)[ruleId].status != ACTIVE && (quoteCount > 0 || orderCount > 0)
      ensures archived ==>
                response == Done && Retired(old(rules), old(log), ruleId, rules, log) &&
                steps == [Start(ruleId, Archive, 0, 0), Write(0), Committing(0)]
      ensures response == Done && !archived ==>
                rules == old(rules) - {ruleId} && log == old(log) + [Entry(ruleId, Deleted)] &&
                quoteCount == 0 && orderCount == 0 &&
                steps == [Start(ruleId, Delete, 0, 0), Write(0), Committing(0)]
      ensures response != Done ==> steps == []
      ensures response == NotFound <==> ruleId !in old(rules)
      ensures response == Conflict <==> ruleId in old(rules) && old(rules)[ruleId].status == ACTIVE
      ensures response == Refused <==>
                ruleId in old(rules) && old(rules)[ruleId].status != ACTIVE && quoteCount == orderCount == 0 &&
                !deletable
      ensures response != Done ==> Tables() == old(Tables())
      ensures SameTables(Tables(), Run(old(Tables()), steps))
    {
      archived, steps := false, [];
      if ruleId !in rules {
        return NotFound, false, [];
      }
      match RemovalDecision(rules[ruleId].status, quoteCount, orderCount) {
        case BLOCK_ACTIVE =>
          response := Conflict;
        case ARCHIVE_USED =>
          response, steps := ArchivePricingRule(ruleId);
          archived := true;
        case DELETE_RULE =>
          if !deletable {
            return Refused, false, [];
          }
          rules := rules - {ruleId};
          log := log + [Entry(ruleId, Deleted)];
          steps := Serial(old(Tables()), ruleId, Delete, []);
          SerialRun(old(Tables()), ruleId, Delete, []);
          assert rules == Merge(old(rules), Replacements([])[ruleId := None]);
          response := Done;
      }
    }
  }

  // ---------------------------------------------------------------- one call as a run of statements

  ghost predicate SameTables(a: Pricing, b: Pricing) {
    a.rules == b.rules && a.log == b.log && a.born == b.born
  }

  /** The rule is retired and audited as archived; every other rule is as before. */
  ghost predicate Retired(
    rules: map<nat, Rule>, log: seq<Entry>, rule: nat, rules': map<nat, Rule>, log': seq<Entry>)
  {
    rule in rules && rules' == rules[rule := Rule(rules[rule].zone, RETIRED)] && log' == log + [Entry(rule, Archived)]
  }

  /** The log has grown by the replaced rules' entries and then one more. */
  ghost predicate Audited(log: seq<Entry>, replaced: seq<nat>, last: Entry, log': seq<Entry>) {
    log' == log + seq(|replaced|, i requires 0 <= i < |replaced| => Entry(replaced[i], Deactivated)) + [last]
  }

  /** The statements of the only transaction there is, an activation that replaces the given rules. */
  ghost function ActivationSteps(rule: nat, replaced: seq<nat>): seq<Step> {
    [Start(rule, Activate, 0, 0), ZoneLock(0), Query(0, replaced)]
    + seq(|replaced| + 1, i => Replacement(0)) + [Write(0), Committing(0)]
  }

  lemma {:induction false} ReplacedEntriesAre(replaced: seq<nat>)
    ensures ReplacedEntries(replaced)
         == seq(|replaced|, i requires 0 <= i < |replaced| => Entry(replaced[i], Deactivated))
  {
    if replaced != [] {
      ReplacedEntriesAre(replaced[..|replaced| - 1]);
    }
  }

  function Replacements(found: seq<nat>): map<nat, Option<RuleStatus>> {
    map id | id in found :: Some(INACTIVE)
  }

  /** The steps of one transaction with nothing in between. */
  ghost function Serial(p: Pricing, rule: nat, operation: Operation, found: seq<nat>): seq<Step> {
    var t := |p.transactions|;
    [Start(rule, operation, 0, 0)]
    + (if operation == Activate then [ZoneLock(t), Query(t, found)] + seq(|found| + 1, i => Replacement(t)) else [])
    + [Write(t), Committing(t)]
  }

  ghost predicate NoRowLocked(p: Pricing) {
    forall u :: 0 <= u < |p.transactions| ==> p.transactions[u].pending == map[]
  }

  /** The state after a transaction that has run undisturbed. */
  ghost function AfterCommit(p: Pricing, rule: nat, operation: Operation, found: seq<nat>): Pricing
    requires rule in p.rules
  {
    var entries := ReplacedEntries(found) + [Entry(rule, ActionOf(operation))];
    p.(rules := Merge(p.rules, Replacements(found)[rule := Outcome(operation)]), log := p.log + entries,
       transactions := p.transactions +
                       [Transaction(operation, rule, p.rules[rule].zone, Ended, found, map[], entries)])
  }

  ghost predicate MayRunSerially(p: Pricing, rule: nat, operation: Operation, found: seq<nat>) {
    NoRowLocked(p) && rule in p.rules && Admitted(p.rules[rule], operation, 0, 0) == Some(operation) &&
    (operation == Delete ==> p.deletable) &&
    (if operation == Activate then
       Found(p, Transaction(Activate, rule, p.rules[rule].zone, Listing, [], map[], []), found) &&
       forall u :: 0 <= u < |p.transactions| ==> !HoldsZone(p.transactions[u], p.rules[rule].zone.value)
     else found == [])
  }

  lemma {:induction false} RunConcat(p: Pricing, a: seq<Step>, b: seq<Step>)
    ensures Run(p, a + b) == Run(Run(p, a), b)
    decreases |a|
  {
    if a == [] {
      assert a + b == b;
    } else {
      assert (a + b)[0] == a[0] && (a + b)[1..] == a[1..] + b;
      RunConcat(Apply(p, a[0]), a[1..], b);
    }
  }

  lemma Two(p: Pricing, a: Step, b: Step)
    ensures Run(p, [a, b]) == Apply(Apply(p, a), b)
  {
    assert [a, b][1..] == [b];
    assert Run(Apply(p, a), [b]) == Run(Apply(Apply(p, a), b), []);
  }

  lemma Three(p: Pricing, a: Step, b: Step, c: Step)
    ensures Run(p, [a, b, c]) == Apply(Apply(Apply(p, a), b), c)
  {
    assert [a, b, c][1..] == [b, c];
    Two(Apply(p, a), b, c);
  }

  /** The replacements of a transaction that nobody disturbs, from the k-th on. */
  lemma {:induction false} AllReplaced(p: Pricing, t: nat, k: nat)
    requires t < |p.transactions| && k <= |p.transactions[t].listed|
    requires p.transactions[t].stage == Replacing(k)
    requires p.transactions[t].pending == Replacements(p.transactions[t].listed[..k])
    requires forall id :: id in p.transactions[t].listed ==> id in p.rules
    requires forall u :: 0 <= u < |p.transactions| && u != t ==> p.transactions[u].pending == map[]
    ensures var x := p.transactions[t];
            Run(p, seq(|x.listed| + 1 - k, i => Replacement(t)))
            == With(p, t, x.(stage := Updating, pending := Replacements(x.listed),
                             entries := ReplacedEntries(x.listed)))
    decreases |p.transactions[t].listed| - k
  {
    var x := p.transactions[t];
    var steps := seq(|x.listed| + 1 - k, i => Replacement(t));
    assert steps[1..] == seq(|x.listed| - k, i => Replacement(t));
    if k == |x.listed| {
      assert x.listed[..k] == x.listed;
      assert Run(Apply(p, steps[0]), steps[1..]) == Apply(p, steps[0]);
    } else {
      assert x.listed[..k + 1] == x.listed[..k] + [x.listed[k]];
      assert Replacements(x.listed[..k])[x.listed[k] := Some(INACTIVE)] == Replacements(x.listed[..k + 1]);
      AllReplaced(Replace(p, t), t, k + 1);
    }
  }

  function WrittenBy(x: Transaction): Transaction {
    x.(stage := Written, pending := x.pending[x.rule := Outcome(x.operation)],
       entries := x.entries + [Entry(x.rule, ActionOf(x.operation))])
  }

  /** From the last write on. */
  lemma WriteAndCommit(p: Pricing, t: nat)
    requires t < |p.transactions| && p.transactions[t].stage == Updating && p.transactions[t].rule in p.rules
    requires p.transactions[t].operation == Delete ==> p.deletable && p.rules[p.transactions[t].rule].status != ACTIVE
    requires RowFree(p, t, p.transactions[t].rule)
    ensures var w := WrittenBy(p.transactions[t]);
            Run(p, [Write(t), Committing(t)])
            == With(p.(rules := Merge(p.rules, w.pending), log := p.log + w.entries), t,
                    w.(stage := Ended, pending := map[]))
  {
    Two(p, Write(t), Committing(t));
    assert Update(p, t) == With(p, t, WrittenBy(p.transactions[t]));
    CommitWritten(p, t, WrittenBy(p.transactions[t]));
  }

  lemma CommitWritten(p: Pricing, t: nat, w: Transaction)
    requires t < |p.transactions| && w.stage == Written
    ensures Commit(With(p, t, w), t)
         == With(p.(rules := Merge(p.rules, w.pending), log := p.log + w.entries), t,
                 w.(stage := Ended, pending := map[]))
  {}

  lemma SerialActivation(p: Pricing, rule: nat, found: seq<nat>) returns (listed: Pricing)
    requires MayRunSerially(p, rule, Activate, found)
    ensures var t := |p.transactions|;
            listed == Run(p, [Start(rule, Activate, 0, 0), ZoneLock(t), Query(t, found)]) &&
            listed == p.(transactions := p.transactions
                                         + [Transaction(Activate, rule, p.rules[rule].zone, Replacing(0), found,
                                                        map[], [])])
  {
    var t := |p.transactions|;
    Three(p, Start(rule, Activate, 0, 0), ZoneLock(t), Query(t, found));
    var begun := Begin(p, rule, Activate, 0, 0);
    assert ZoneFree(begun, t, p.rules[rule].zone.value);
    assert Found(LockZone(begun, t), LockZone(begun, t).transactions[t], found);
    listed := Run(p, [Start(rule, Activate, 0, 0), ZoneLock(t), Query(t, found)]);
  }

  lemma ActivationRun(p: Pricing, rule: nat, found: seq<nat>)
    requires MayRunSerially(p, rule, Activate, found)
    ensures Run(p, Serial(p, rule, Activate, found)) == AfterCommit(p, rule, Activate, found)
  {
    var t := |p.transactions|;
    var listed := SerialActivation(p, rule, found);
    var opening := [Start(rule, Activate, 0, 0), ZoneLock(t), Query(t, found)];
    var replacing := seq(|found| + 1, i => Replacement(t));
    assert found[..0] == [] && Replacements(found[..0]) == map[];
    AllReplaced(listed, t, 0);
    WriteAndCommit(Run(listed, replacing), t);
    assert Serial(p, rule, Activate, found) == opening + (replacing + [Write(t), Committing(t)]);
    RunConcat(p, opening, replacing + [Write(t), Committing(t)]);
    RunConcat(listed, replacing, [Write(t), Committing(t)]);
  }

  /** A transaction that runs undisturbed has exactly the effect the service's code describes. */
  lemma SerialRun(p: Pricing, rule: nat, operation: Operation, found: seq<nat>)
    requires MayRunSerially(p, rule, operation, found)
    ensures Run(p, Serial(p, rule, operation, found)) == AfterCommit(p, rule, operation, found)
  {
    if operation == Activate {
      ActivationRun(p, rule, found);
    } else {
      var t := |p.transactions|;
      assert ReplacedEntries([]) == [] && Replacements([]) == map[];
      WriteAndCommit(Begin(p, rule, operation, 0, 0), t);
      assert Serial(p, rule, operation, found)[1..] == [Write(t), Committing(t)];
    }
  }

  /** The rule has the status, the active rules it replaces are inactive, and nothing else has changed. */
  ghost predicate StatusSet(before: map<nat, Rule>, after: map<nat, Rule>, rule: nat, status: RuleStatus)
    requires rule in before
  {
    after.Keys == before.Keys &&
    after[rule] == Rule(before[rule].zone, status) &&
    forall id :: id in after && id != rule ==>
      after[id] == if status == ACTIVE && before[id].status == ACTIVE && before[id].zone == before[rule].zone
                   then Rule(before[id].zone, INACTIVE) else before[id]
  }

  lemma StatusSetIsSerial(p: Pricing, after: Pricing, rule: nat, status: RuleStatus, found: seq<nat>)
    returns (steps: seq<Step>)
    requires status == ACTIVE || status == INACTIVE
    requires var operation := if status == ACTIVE then Activate else Deactivate;
             MayRunSerially(p, rule, operation, found) &&
             after.log == p.log + ReplacedEntries(found) + [Entry(rule, ActionOf(operation))]
    requires after.born == p.born
    requires var replaced := Merge(p.rules, Replacements(found));
             rule in replaced && after.rules == replaced[rule := replaced[rule].(status := status)]
    ensures StatusSet(p.rules, after.rules, rule, status) && SameTables(after, Run(p, steps))
    ensures steps == Serial(p, rule, if status == ACTIVE then Activate else Deactivate, found)
  {
    var operation := if status == ACTIVE then Activate else Deactivate;
    steps := Serial(p, rule, operation, found);
    SerialRun(p, rule, operation, found);
    assert after.rules == Merge(p.rules, Replacements(found)[rule := Some(status)]);
  }
}
