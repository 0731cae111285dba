/** Pricing rules under concurrent administration, statement by statement.  A transaction reads the rule
    before it starts, then writes row by row; a row it has written stays locked, and what it has written
    stays unseen by others, until it commits or is rolled back. */
module PricingRules {
  import opened Options

  // ---------------------------------------------------------------- rows and transactions

  datatype RuleStatus = DRAFT | ACTIVE | INACTIVE | RETIRED

  /** A rule's zone never changes; the database refuses any update but one of the status. */
  datatype Rule = Rule(zone: Option<string>, status: RuleStatus)

  datatype Action = Created | VersionCreated | Activated | Deactivated | Archived | Deleted

  /** An audit entry about a pricing rule. */
  datatype Entry = Entry(rule: nat, action: Action)

  datatype Operation = Activate | Deactivate | Archive | Delete

  datatype Stage = Locking | Listing | Replacing(next: nat) | Updating | Written | Ended

  /** `listed` are the rules an activation found active; `pending` the rows written, with their new
      status or None for a deleted row; `entries` the audit rows inserted. */
  datatype Transaction = Transaction(
    operation: Operation,
    rule: nat,
    zone: Option<string>,
    stage: Stage,
    listed: seq<nat>,
    pending: map<nat, Option<RuleStatus>>,
    entries: seq<Entry>)

  /** `rules` and `log` are what is committed; ids below `born` have been used; `deletable` is whether
      the database lets rows be deleted at all. */
  datatype Pricing = Pricing(
    rules: map<nat, Rule>,
    log: seq<Entry>,
    born: nat,
    transactions: seq<Transaction>,
    deletable: bool)

  function Empty(deletable: bool): Pricing {
    Pricing(map[], [], 0, [], deletable)
  }

  // ---------------------------------------------------------------- locks

  predicate HoldsZone(t: Transaction, zone: string) {
    t.operation == Activate && t.zone == Some(zone) && t.stage != Locking && t.stage != Ended
  }

  ghost predicate RowFree(p: Pricing, t: nat, x: nat) {
    forall u :: 0 <= u < |p.transactions| && u != t ==> x !in p.transactions[u].pending
  }

  ghost predicate ZoneFree(p: Pricing, t: nat, zone: string) {
    forall u :: 0 <= u < |p.transactions| && u != t ==> !HoldsZone(p.transactions[u], zone)
  }

  // ---------------------------------------------------------------- operations

  datatype Removal = BLOCK_ACTIVE | ARCHIVE_USED | DELETE_RULE

  function RemovalDecision(status: RuleStatus, quoteCount: nat, orderCount: nat): Removal {
    if status == ACTIVE then BLOCK_ACTIVE
    else if quoteCount > 0 || orderCount > 0 then ARCHIVE_USED
    else DELETE_RULE
  }

  /** What the check made on the rule before the transaction lets happen, if anything. */
  function Admitted(rule: Rule, operation: Operation, quoteCount: nat, orderCount: nat): Option<Operation> {
    match operation
    case Activate => if rule.zone == None then None else Some(Activate)
    case Deactivate => Some(Deactivate)
    case Archive => if rule.status == ACTIVE then None else Some(Archive)
    case Delete =>
      match RemovalDecision(rule.status, quoteCount, orderCount)
      case BLOCK_ACTIVE => None
      case ARCHIVE_USED => Some(Archive)
      case DELETE_RULE => Some(Delete)
  }

  function Outcome(operation: Operation): Option<RuleStatus> {
    match operation
    case Activate => Some(ACTIVE)
    case Deactivate => Some(INACTIVE)
    case Archive => Some(RETIRED)
    case Delete => None
  }

  function ActionOf(operation: Operation): Action {
    match operation
    case Activate => Activated
    case Deactivate => Deactivated
    case Archive => Archived
    case Delete => Deleted
  }

  function ReplacedEntries(listed: seq<nat>): (entries: seq<Entry>) {
    if listed == [] then []
    else ReplacedEntries(listed[..|listed| - 1]) + [Entry(listed[|listed| - 1], Deactivated)]
  }

  function Create(p: Pricing, zone: string, newVersion: bool): Pricing {
    p.(rules := p.rules[p.born := Rule(Some(zone), DRAFT)],
       log := p.log + [Entry(p.born, if newVersion then VersionCreated else Created)],
       born := p.born + 1)
  }

  function Begin(p: Pricing, rule: nat, operation: Operation, quoteCount: nat, orderCount: nat): Pricing {
    if rule !in p.rules then p
    else
      match Admitted(p.rules[rule], operation, quoteCount, orderCount)
      case None => p
      case Some(admitted) =>
        var stage := if admitted == Activate then Locking else Updating;
        p.(transactions := p.transactions + [Transaction(admitted, rule, p.rules[rule].zone, stage, [], map[], [])])
  }

  function With(p: Pricing, t: nat, x: Transaction): Pricing
    requires t < |p.transactions|
  {
    p.(transactions := p.transactions[t := x])
  }

  function End(p: Pricing, t: nat): Pricing
    requires t < |p.transactions|
  {
    With(p, t, p.transactions[t].(stage := Ended, pending := map[]))
  }

  ghost function LockZone(p: Pricing, t: nat): Pricing
    requires t < |p.transactions|
  {
    var x := p.transactions[t];
    if x.stage == Locking && x.zone.Some? && ZoneFree(p, t, x.zone.value) then With(p, t, x.(stage := Listing)) else p
  }

  predicate OtherActive(rules: map<nat, Rule>, id: nat, zone: Option<string>, rule: nat) {
    id in rules && id != rule && rules[id].status == ACTIVE && rules[id].zone == zone
  }

  /** The rules the query finds, in some order. */
  ghost predicate Found(p: Pricing, x: Transaction, found: seq<nat>) {
    (forall id: nat :: id in found <==> OtherActive(p.rules, id, x.zone, x.rule)) &&
    (forall i, j :: 0 <= i < j < |found| ==> found[i] != found[j])
  }

  ghost function List(p: Pricing, t: nat, found: seq<nat>): Pricing
    requires t < |p.transactions|
  {
    var x := p.transactions[t];
    if x.stage == Listing && Found(p, x, found) then With(p, t, x.(stage := Replacing(0), listed := found)) else p
  }

  /** One row of the statement that deactivates the listed rules: a row deleted meanwhile is passed over,
      a locked one is waited for.  After the last, their audit rows are inserted. */
  ghost function Replace(p: Pricing, t: nat): Pricing
    requires t < |p.transactions|
  {
    var x := p.transactions[t];
    if !x.stage.Replacing? then p
    else if x.stage.next >= |x.listed| then With(p, t, x.(stage := Updating, entries := ReplacedEntries(x.listed)))
    else
      var id := x.listed[x.stage.next];
      if id !in p.rules then With(p, t, x.(stage := Replacing(x.stage.next + 1)))
      else if !RowFree(p, t, id) then p
      else With(p, t, x.(stage := Replacing(x.stage.next + 1), pending := x.pending[id := Some(INACTIVE)]))
  }

  /** The write of the rule itself.  It fails when the row is gone; a deletion fails also when the row has
      become active, or when the database forbids it. */
  ghost function Update(p: Pricing, t: nat): Pricing
    requires t < |p.transactions|
  {
    var x := p.transactions[t];
    if x.stage != Updating then p
    else if x.rule !in p.rules then End(p, t)
    else if !RowFree(p, t, x.rule) then p
    else if x.operation == Delete && (p.rules[x.rule].status == ACTIVE || !p.deletable) then End(p, t)
    else With(p, t, x.(stage := Written, pending := x.pending[x.rule := Outcome(x.operation)],
                       entries := x.entries + [Entry(x.rule, ActionOf(x.operation))]))
  }

  function Merge(rules: map<nat, Rule>, pending: map<nat, Option<RuleStatus>>): map<nat, Rule> {
    map id | id in rules && (id in pending ==> pending[id].Some?) ::
      if id in pending then rules[id].(status := pending[id].value) else rules[id]
  }

  function Commit(p: Pricing, t: nat): Pricing
    requires t < |p.transactions|
  {
    var x := p.transactions[t];
    if x.stage != Written then p
    else End(p.(rules := Merge(p.rules, x.pending), log := p.log + x.entries), t)
  }

  // ---------------------------------------------------------------- runs

  datatype Step =
    | Creation(zone: string, newVersion: bool)
    | Start(rule: nat, operation: Operation, quoteCount: nat, orderCount: nat)
    | ZoneLock(t: nat)
    | Query(t: nat, found: seq<nat>)
    | Replacement(t: nat)
    | Write(t: nat)
    | Committing(t: nat)
    | Rollback(t: nat)

  ghost function Apply(p: Pricing, s: Step): Pricing {
    match s
    case Creation(zone, newVersion) => Create(p, zone, newVersion)
    case Start(rule, operation, quoteCount, orderCount) => Begin(p, rule, operation, quoteCount, orderCount)
    case ZoneLock(t) => if t < |p.transactions| then LockZone(p, t) else p
    case Query(t, found) => if t < |p.transactions| then List(p, t, found) else p
    case Replacement(t) => if t < |p.transactions| then Replace(p, t) else p
    case Write(t) => if t < |p.transactions| then Update(p, t) else p
    case Committing(t) => if t < |p.transactions| then Commit(p, t) else p
    case Rollback(t) => if t < |p.transactions| then End(p, t) else p
  }

  ghost function Run(p: Pricing, steps: seq<Step>): Pricing
    decreases |steps|
  {
    if steps == [] then p else Run(Apply(p, steps[0]), steps[1..])
  }

  // ---------------------------------------------------------------- the invariant

  predicate ActiveIn(rules: map<nat, Rule>, x: nat) {
    x in rules && rules[x].status == ACTIVE && rules[x].zone.Some?
  }

  /** At most one active rule in each zone. */
  ghost predicate OneActive(rules: map<nat, Rule>) {
    forall x: nat, y: nat :: ActiveIn(rules, x) && ActiveIn(rules, y) && rules[x].zone == rules[y].zone ==> x == y
  }

  ghost predicate LocksExclusive(p: Pricing) {
    (forall t: nat, x: nat :: t < |p.transactions| && x in p.transactions[t].pending ==> RowFree(p, t, x)) &&
    (forall t: nat, zone: string :: t < |p.transactions| && HoldsZone(p.transactions[t], zone) ==> ZoneFree(p, t, zone))
  }

  /** How many of its listed rules a transaction has dealt with. */
  function Handled(x: Transaction): nat {
    match x.stage
    case Replacing(next) => next
    case Updating => |x.listed|
    case Written => |x.listed|
    case _ => 0
  }

  /** Rows a transaction has written are its rule and listed ones. */
  ghost predicate WritesSound(rules: map<nat, Rule>, x: Transaction) {
    (x.stage == Locking || x.stage == Listing || x.stage == Ended ==> x.pending == map[]) &&
    (x.stage == Written ==> x.rule in x.pending) &&
    (forall id :: id in x.pending ==>
      id in rules &&
      (id == x.rule ==> x.stage == Written && x.pending[id] == Outcome(x.operation)) &&
      (id != x.rule ==> x.operation == Activate && id in x.listed && x.pending[id] == Some(INACTIVE)))
  }

  /** A transaction that has listed the active rules of its zone has not missed one since, and those it
      has dealt with are deactivated or gone. */
  ghost predicate ListSound(rules: map<nat, Rule>, x: Transaction) {
    Handled(x) <= |x.listed| && x.rule !in x.listed &&
    (x.operation != Activate ==> x.listed == []) &&
    (x.operation == Activate && (x.stage.Replacing? || x.stage == Updating || x.stage == Written) ==>
      forall id: nat :: OtherActive(rules, id, x.zone, x.rule) ==> id in x.listed) &&
    (forall j :: 0 <= j < Handled(x) ==> x.listed[j] in x.pending || x.listed[j] !in rules)
  }

  ghost predicate RuleSound(p: Pricing, x: Transaction) {
    x.rule < p.born && (forall id :: id in x.listed ==> id < p.born) &&
    (x.operation == Activate ==> x.zone.Some? && (x.rule in p.rules ==> p.rules[x.rule].zone == x.zone)) &&
    (x.operation != Activate ==> x.stage == Updating || x.stage == Written || x.stage == Ended) &&
    (x.operation == Delete && x.stage == Written ==>
      p.deletable && (x.rule in p.rules ==> p.rules[x.rule].status != ACTIVE)) &&
    (x.stage == Updating ==> x.entries == ReplacedEntries(x.listed)) &&
    (x.stage == Written ==> x.entries == ReplacedEntries(x.listed) + [Entry(x.rule, ActionOf(x.operation))])
  }

  ghost predicate TransactionSound(p: Pricing, x: Transaction) {
    WritesSound(p.rules, x) && ListSound(p.rules, x) && RuleSound(p, x)
  }

  ghost predicate Sound(p: Pricing) {
    (forall id :: id in p.rules ==> id < p.born) &&
    OneActive(p.rules) && LocksExclusive(p) &&
    (forall t: nat :: t < |p.transactions| ==> TransactionSound(p, p.transactions[t]))
  }

  // ---------------------------------------------------------------- steps keep it

  /** A step inside one transaction that takes only free locks. */
  lemma OwnStepIsSound(p: Pricing, t: nat, x: Transaction)
    requires Sound(p) && t < |p.transactions| && TransactionSound(p, x)
    requires forall id :: id in x.pending ==> id in p.transactions[t].pending || RowFree(p, t, id)
    requires forall zone :: HoldsZone(x, zone) ==> HoldsZone(p.transactions[t], zone) || ZoneFree(p, t, zone)
    ensures Sound(With(p, t, x))
  {
    var p' := With(p, t, x);
    assert forall u: nat :: u < |p'.transactions| ==> p'.transactions[u] == if u == t then x else p.transactions[u];
    assert LocksExclusive(p') by {
      forall u: nat, id: nat | u < |p'.transactions| && id in p'.transactions[u].pending ensures RowFree(p', u, id) {
        if u == t {
          assert RowFree(p, t, id);
        } else {
          assert RowFree(p, u, id);
          assert id !in x.pending;
        }
      }
      forall u: nat, zone: string | u < |p'.transactions| && HoldsZone(p'.transactions[u], zone)
        ensures ZoneFree(p', u, zone)
      {
        if u == t {
          assert ZoneFree(p, t, zone);
        } else {
          assert ZoneFree(p, u, zone);
          assert !HoldsZone(x, zone);
        }
      }
    }
    forall u: nat | u < |p'.transactions| ensures TransactionSound(p', p'.transactions[u]) {
      assert u != t ==> TransactionSound(p, p.transactions[u]);
    }
  }

  lemma CreateIsSound(p: Pricing, zone: string, newVersion: bool)
    requires Sound(p)
    ensures Sound(Create(p, zone, newVersion))
  {
    var p' := Create(p, zone, newVersion);
    forall t: nat, x: nat | t < |p'.transactions| && x in p'.transactions[t].pending ensures RowFree(p', t, x) {
      assert RowFree(p, t, x);
    }
    forall t: nat, z: string | t < |p'.transactions| && HoldsZone(p'.transactions[t], z) ensures ZoneFree(p', t, z) {
      assert ZoneFree(p, t, z);
    }
    forall t: nat | t < |p'.transactions| ensures TransactionSound(p', p'.transactions[t]) {
      var x := p.transactions[t];
      assert TransactionSound(p, x);
      forall id: nat | OtherActive(p'.rules, id, x.zone, x.rule) ensures OtherActive(p.rules, id, x.zone, x.rule) {}
      forall j | 0 <= j < Handled(x) ensures x.listed[j] in x.pending || x.listed[j] !in p'.rules {
        assert x.listed[j] in x.listed;
      }
    }
  }

  lemma BeginIsSound(p: Pricing, rule: nat, operation: Operation, quoteCount: nat, orderCount: nat)
    requires Sound(p)
    ensures Sound(Begin(p, rule, operation, quoteCount, orderCount))
  {
    var p' := Begin(p, rule, operation, quoteCount, orderCount);
    if p' != p {
      var n := |p.transactions|;
      assert forall u: nat :: u < n ==> p'.transactions[u] == p.transactions[u];
      forall t: nat, x: nat | t < |p'.transactions| && x in p'.transactions[t].pending ensures RowFree(p', t, x) {
        assert t < n && RowFree(p, t, x);
      }
      forall t: nat, z: string | t < |p'.transactions| && HoldsZone(p'.transactions[t], z) ensures ZoneFree(p', t, z) {
        assert t < n && ZoneFree(p, t, z);
      }
      forall t: nat | t < |p'.transactions| ensures TransactionSound(p', p'.transactions[t]) {
        if t < n {
          assert TransactionSound(p, p.transactions[t]);
          assert RuleSound(p', p.transactions[t]);
        }
      }
    }
  }

  lemma LockZoneIsSound(p: Pricing, t: nat)
    requires Sound(p) && t < |p.transactions|
    ensures Sound(LockZone(p, t))
  {
    var x := p.transactions[t];
    assert TransactionSound(p, x);
    if LockZone(p, t) != p {
      OwnStepIsSound(p, t, x.(stage := Listing));
    }
  }

  lemma ListIsSound(p: Pricing, t: nat, found: seq<nat>)
    requires Sound(p) && t < |p.transactions|
    ensures Sound(List(p, t, found))
  {
    var x := p.transactions[t];
    assert TransactionSound(p, x);
    if x.stage == Listing && Found(p, x, found) {
      assert x.operation == Activate;
      OwnStepIsSound(p, t, x.(stage := Replacing(0), listed := found));
    }
  }

  lemma RowReplaced(p: Pricing, t: nat)
    requires Sound(p) && t < |p.transactions|
    requires var x := p.transactions[t];
             x.stage.Replacing? && x.stage.next < |x.listed| && x.listed[x.stage.next] in p.rules
    ensures var x := p.transactions[t];
            TransactionSound(p, x.(stage := Replacing(x.stage.next + 1),
                                   pending := x.pending[x.listed[x.stage.next] := Some(INACTIVE)]))
  {
    assert TransactionSound(p, p.transactions[t]);
  }

  lemma RowPassedOver(p: Pricing, t: nat)
    requires Sound(p) && t < |p.transactions|
    requires var x := p.transactions[t];
             x.stage.Replacing? && x.stage.next < |x.listed| && x.listed[x.stage.next] !in p.rules
    ensures TransactionSound(p, p.transactions[t].(stage := Replacing(p.transactions[t].stage.next + 1)))
  {
    assert TransactionSound(p, p.transactions[t]);
  }

  lemma ReplaceIsSound(p: Pricing, t: nat)
    requires Sound(p) && t < |p.transactions|
    ensures Sound(Replace(p, t))
  {
    var x := p.transactions[t];
    if x.stage.Replacing? {
      var next := x.stage.next;
      if next >= |x.listed| {
        assert TransactionSound(p, x);
        OwnStepIsSound(p, t, x.(stage := Updating, entries := ReplacedEntries(x.listed)));
      } else if x.listed[next] !in p.rules {
        RowPassedOver(p, t);
        OwnStepIsSound(p, t, x.(stage := Replacing(next + 1)));
      } else if RowFree(p, t, x.listed[next]) {
        RowReplaced(p, t);
        OwnStepIsSound(p, t, x.(stage := Replacing(next + 1), pending := x.pending[x.listed[next] := Some(INACTIVE)]));
      }
    }
  }

  lemma EndIsSound(p: Pricing, t: nat)
    requires Sound(p) && t < |p.transactions|
    ensures Sound(End(p, t))
  {
    var x := p.transactions[t];
    assert TransactionSound(p, x);
    OwnStepIsSound(p, t, x.(stage := Ended, pending := map[]));
  }

  lemma UpdateIsSound(p: Pricing, t: nat)
    requires Sound(p) && t < |p.transactions|
    ensures Sound(Update(p, t))
  {
    var x := p.transactions[t];
    assert TransactionSound(p, x);
    if x.stage == Updating {
      if x.rule !in p.rules || (x.operation == Delete && (p.rules[x.rule].status == ACTIVE || !p.deletable)) {
        EndIsSound(p, t);
      } else if RowFree(p, t, x.rule) {
        var y := x.(stage := Written, pending := x.pending[x.rule := Outcome(x.operation)],
                    entries := x.entries + [Entry(x.rule, ActionOf(x.operation))]);
        assert WritesSound(p.rules, y) && ListSound(p.rules, y);
        OwnStepIsSound(p, t, y);
      }
    }
  }
}
