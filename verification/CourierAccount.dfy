/** A courier's account, added up from the ledger and the live payments, against the courier's settlement
    periods, added up from lines and allocations: two sets of books that must tell the same. */
module CourierAccount {
  import opened Options
  import opened Sums
  import opened WeeklyWindows
  import opened PaymentAllocation
  import opened FinanceBooks
  import opened BookInvariants
  import opened Closing

  // ---------------------------------------------------------------- the account summary

  function LedgerShare(b: Books, courier: string): nat -> int {
    (i: nat) => if i < |b.ledger| && b.ledger[i].courier == courier then b.ledger[i].amount else 0
  }

  /** Entries of some kinds; a reversal counts only when an administrator has booked it. */
  function AccountShare(b: Books, courier: string, kinds: set<EntryKind>): nat -> int {
    (i: nat) =>
      if i < |b.ledger| && b.ledger[i].courier == courier && b.ledger[i].kind in kinds && !TakesBackPayment(b, i)
      then b.ledger[i].amount else 0
  }

  function LiveShare(payments: seq<Payment>, courier: string): nat -> int {
    (p: nat) =>
      if p < |payments| && payments[p].courier == courier && payments[p].reverses == None && !Reversed(payments, p)
      then payments[p].amount else 0
  }

  function LedgerTotal(b: Books, courier: string): int {
    SumTo(|b.ledger|, LedgerShare(b, courier))
  }

  function AccountTotal(b: Books, courier: string, kinds: set<EntryKind>): int {
    SumTo(|b.ledger|, AccountShare(b, courier, kinds))
  }

  function LiveTotal(b: Books, courier: string): int {
    SumTo(|b.payments|, LiveShare(b.payments, courier))
  }

  /** What the courier is shown. */
  function Summary(b: Books, courier: string): Totals {
    Totals(AccountTotal(b, courier, COMMISSION_KINDS), LiveTotal(b, courier),
           AccountTotal(b, courier, ADJUSTMENT_KINDS), Abs(AccountTotal(b, courier, WAIVER_KINDS)),
           AtLeastZero(LedgerTotal(b, courier)))
  }

  // ---------------------------------------------------------------- what every transaction keeps

  /** Every entry has a line or records a payment or the taking back of one. */
  ghost predicate Recorded(b: Books) {
    forall i: nat :: i < |b.ledger| ==>
      i in b.lines || b.ledger[i].kind == EXTERNAL_PAYMENT || TakesBackPayment(b, i)
  }

  /** A payment's parts are its courier's and, over any list that holds their periods, add up to it. */
  ghost predicate AddsUp(p: Payment) {
    (forall k :: k in p.parts ==> k.courier == p.courier) &&
    forall keys: seq<PeriodKey> :: NoDuplicates(keys) && (forall k :: k in p.parts ==> k in keys) ==>
      SumBy(keys, Part(p.parts)) == p.amount
  }

  ghost predicate PaymentsAddUp(b: Books) {
    forall p :: 0 <= p < |b.payments| ==> AddsUp(b.payments[p])
  }

  /** Entries that record a payment or its being taken back. */
  function RecordShare(b: Books, courier: string): nat -> int {
    (i: nat) =>
      if i < |b.ledger| && b.ledger[i].courier == courier &&
         (b.ledger[i].kind == EXTERNAL_PAYMENT || TakesBackPayment(b, i))
      then b.ledger[i].amount else 0
  }

  function RecordTotal(b: Books, courier: string): int {
    SumTo(|b.ledger|, RecordShare(b, courier))
  }

  /** The records of payments and of their being taken back are worth the live payments. */
  ghost predicate RecordsBalance(b: Books) {
    forall c: string :: RecordTotal(b, c) == -LiveTotal(b, c)
  }

  ghost predicate Accounted(b: Books) {
    Recorded(b) && PaymentsAddUp(b) && RecordsBalance(b)
  }

  // ---------------------------------------------------------------- transactions without a payment

  /** Payments stay; the ledger stays, or grows by an entry with a line that is no payment's. */
  ghost predicate BooksAtMostALine(b: Books, b': Books) {
    b'.payments == b.payments && b.lines.Keys <= b'.lines.Keys && b.ledger <= b'.ledger &&
    forall i: nat :: |b.ledger| <= i < |b'.ledger| ==> i in b'.lines && b'.ledger[i].kind != EXTERNAL_PAYMENT
  }

  lemma {:induction false} ZeroTail(n: nat, m: nat, f: nat -> int)
    requires n <= m && forall i: nat :: n <= i < m ==> f(i) == 0
    ensures SumTo(m, f) == SumTo(n, f)
  {
    if n < m {
      ZeroTail(n, m - 1, f);
    }
  }

  lemma SameTaking(b: Books, b': Books, i: nat)
    requires b'.payments == b.payments
    ensures TakesBackPayment(b', i) <==> TakesBackPayment(b, i)
  {}

  lemma NewEntryTakesNothingBack(b: Books, i: nat)
    requires PaymentsSound(b) && |b.ledger| <= i
    ensures !TakesBackPayment(b, i)
  {}

  lemma LineKeepsRecorded(b: Books, b': Books)
    requires Recorded(b) && BooksAtMostALine(b, b')
    ensures Recorded(b')
  {
    forall i: nat | i < |b'.ledger|
      ensures i in b'.lines || b'.ledger[i].kind == EXTERNAL_PAYMENT || TakesBackPayment(b', i)
    {
      if i < |b.ledger| {
        assert b'.ledger[i] == b.ledger[i];
        SameTaking(b, b', i);
        assert i in b.lines || b.ledger[i].kind == EXTERNAL_PAYMENT || TakesBackPayment(b, i);
      }
    }
  }

  lemma LineKeepsBalance(b: Books, b': Books, courier: string)
    requires PaymentsSound(b) && BooksAtMostALine(b, b')
    ensures RecordTotal(b', courier) == RecordTotal(b, courier)
  {
    var n, m := |b.ledger|, |b'.ledger|;
    forall i: nat | i < m
      ensures RecordShare(b', courier)(i) == if i < n then RecordShare(b, courier)(i) else 0
    {
      SameTaking(b, b', i);
      if i < n {
        assert b'.ledger[i] == b.ledger[i];
      } else {
        NewEntryTakesNothingBack(b, i);
      }
    }
    ZeroTail(n, m, RecordShare(b', courier));
    Congruent(n, RecordShare(b', courier), RecordShare(b, courier));
  }

  lemma LineKeepsAccounted(b: Books, b': Books)
    requires Accounted(b) && PaymentsSound(b) && BooksAtMostALine(b, b')
    ensures Accounted(b')
  {
    LineKeepsRecorded(b, b');
    forall c: string ensures RecordTotal(b', c) == -LiveTotal(b', c) {
      LineKeepsBalance(b, b', c);
      assert RecordTotal(b, c) == -LiveTotal(b, c);
    }
  }

  lemma OthersBookLines(b: Books, s: Step)
    requires !s.Pay? && !s.Reverse?
    ensures BooksAtMostALine(b, Apply(b, s))
  {
    match s
    case Complete(id, now, grace) =>
      if CompletionOutcome(b, id, now, grace) == Done {
        var o := b.orders[id];
        var w := WeeklyBounds(now, grace.value);
        var key := TargetPeriod(o.courier.value, now, grace.value);
        CompletedBooksALine(b, id, key, Incremented(b, key, w.dueAt, o.commission), now);
      }
    case Close(key, now) => CloseBooksNothing(b, key, now);
    case ApiClose(key, version, now, soon) => ApiCloseBooksNothing(b, key, version, now, soon);
    case Overdue(now) =>
    case Finalize(id, now, w, soon) => FinalizeBooksALine(b, id, now, w, soon);
    case AdjustBy(e, key, now, soon) => AdjustBooksALine(b, e, key, now, soon);
    case Change(id, order, now) => ChangeBooksNothing(b, id, order);
  }

  lemma CompletedBooksALine(b: Books, id: nat, key: PeriodKey, period: Period, now: int)
    requires id < |b.orders| && b.orders[id].courier.Some?
    ensures BooksAtMostALine(b, Completed(b, id, CompletionEntry(b.orders[id], id, now), key, period, now))
  {}

  lemma FinalizeBooksALine(b: Books, id: nat, now: int, w: Bounds, soon: set<PeriodKey>)
    ensures BooksAtMostALine(b, FinalizeOrder(b, id, now, w, soon))
  {
    if MayFinalize(b, id, now, w) {
      var key := PeriodKey(b.orders[id].courier.value, w.periodStart, w.periodEnd);
      var period := if key in b.periods then b.periods[key] else Period(w.dueAt, Totals(0, 0, 0, 0, 0), OPEN, 1, None);
      CompletedBooksALine(b, id, key, period, now);
    }
  }

  lemma CloseBooksNothing(b: Books, key: PeriodKey, now: int)
    ensures BooksAtMostALine(b, CloseSettlement(b, key, now))
  {}

  lemma ApiCloseBooksNothing(b: Books, key: PeriodKey, version: nat, now: int, soon: set<PeriodKey>)
    ensures BooksAtMostALine(b, CloseByApi(b, key, version, now, soon))
  {}

  lemma AdjustBooksALine(b: Books, e: Entry, key: PeriodKey, now: int, soon: set<PeriodKey>)
    ensures BooksAtMostALine(b, Adjust(b, e, key, now, soon))
  {}

  lemma ChangeBooksNothing(b: Books, id: nat, o: Order)
    ensures BooksAtMostALine(b, ChangeOrder(b, id, o))
  {}

  // ---------------------------------------------------------------- payments

  function Only<K>(s: seq<K>, parts: map<K, int>): seq<K> {
    if s == [] then []
    else if s[0] in parts then [s[0]] + Only(s[1..], parts) else Only(s[1..], parts)
  }

  lemma {:induction false} OnlyHolds<K(!new)>(s: seq<K>, parts: map<K, int>)
    ensures forall k :: k in Only(s, parts) <==> k in s && k in parts
  {
    if s != [] {
      assert s == [s[0]] + s[1..];
      OnlyHolds(s[1..], parts);
    }
  }

  lemma {:induction false} OnlyOnce<K(!new)>(s: seq<K>, parts: map<K, int>)
    requires NoDuplicates(s)
    ensures NoDuplicates(Only(s, parts))
  {
    if s != [] {
      OnlyOnce(s[1..], parts);
      OnlyHolds(s[1..], parts);
    }
  }

  lemma {:induction false} OnlySum<K>(s: seq<K>, parts: map<K, int>)
    ensures SumBy(Only(s, parts), Part(parts)) == SumBy(s, Part(parts))
  {
    if s != [] {
      OnlySum(s[1..], parts);
      assert ([s[0]] + Only(s[1..], parts))[1..] == Only(s[1..], parts);
    }
  }

  /** Over two lists that hold every period paid, the parts have one sum. */
  lemma PartsSum<K(!new)>(s: seq<K>, t: seq<K>, parts: map<K, int>)
    requires NoDuplicates(s) && NoDuplicates(t)
    requires forall k :: k in parts ==> k in s && k in t
    ensures SumBy(s, Part(parts)) == SumBy(t, Part(parts))
  {
    OnlyHolds(s, parts);
    OnlyHolds(t, parts);
    OnlyOnce(s, parts);
    OnlyOnce(t, parts);
    OnlySum(s, parts);
    OnlySum(t, parts);
    SameElements(Only(s, parts), Only(t, parts));
    Permutation(Only(s, parts), Only(t, parts), Part(parts));
  }

  lemma AllocationAddsUp(b: Books, courier: string, amount: int, owing: seq<PeriodKey>)
    requires MayPay(b, courier, amount, owing)
    ensures AddsUp(Payment(courier, amount, Allocate(owing, Owed(b.periods), amount), None, |b.ledger|))
  {
    var parts := Allocate(owing, Owed(b.periods), amount);
    PartsWithinOwed(b, courier, amount, owing);
    assert forall k :: k in parts ==> Outstanding(b, courier, k);
    forall keys: seq<PeriodKey> | NoDuplicates(keys) && (forall k :: k in parts ==> k in keys)
      ensures SumBy(keys, Part(parts)) == amount
    {
      PartsSum(keys, owing, parts);
    }
  }

  /** The row of a payment and its entry, or of a payment taken back and its entry. */
  ghost predicate Pays(b: Books, p: Payment, e: Entry) {
    e.courier == p.courier && p.entry == |b.ledger| && AddsUp(p) &&
    match p.reverses
    case None => e.kind == EXTERNAL_PAYMENT && e.amount == -p.amount
    case Some(q) =>
      e.kind == REVERSAL && e.amount == p.amount && q < |b.payments| && b.payments[q].reverses == None &&
      !Reversed(b.payments, q) && b.payments[q].amount == p.amount && b.payments[q].courier == p.courier
  }

  lemma PaymentTakes(b: Books, p: Payment, e: Entry, i: nat)
    requires PaymentsSound(b) && p.entry == |b.ledger|
    ensures TakesBackPayment(WithPayment(b, p, e), i) <==>
            TakesBackPayment(b, i) || (i == |b.ledger| && p.reverses.Some?)
  {
    var b' := WithPayment(b, p, e);
    if TakesBackPayment(b, i) {
      var q :| 0 <= q < |b.payments| && b.payments[q].entry == i && b.payments[q].reverses.Some?;
      assert b'.payments[q] == b.payments[q];
    }
    assert b'.payments[|b.payments|] == p;
  }

  lemma PaymentKeepsRecorded(b: Books, p: Payment, e: Entry)
    requires Recorded(b) && PaymentsSound(b) && Pays(b, p, e)
    ensures Recorded(WithPayment(b, p, e))
  {
    var b' := WithPayment(b, p, e);
    forall i: nat | i < |b'.ledger|
      ensures i in b'.lines || b'.ledger[i].kind == EXTERNAL_PAYMENT || TakesBackPayment(b', i)
    {
      PaymentTakes(b, p, e, i);
      assert i < |b.ledger| ==> i in b.lines || b.ledger[i].kind == EXTERNAL_PAYMENT || TakesBackPayment(b, i);
    }
  }

  lemma PaymentRecords(b: Books, p: Payment, e: Entry, courier: string)
    requires PaymentsSound(b) && Pays(b, p, e)
    ensures RecordTotal(WithPayment(b, p, e), courier)
         == RecordTotal(b, courier) + (if e.courier == courier then e.amount else 0)
  {
    var b', n := WithPayment(b, p, e), |b.ledger|;
    forall i: nat | i <= n
      ensures RecordShare(b', courier)(i)
           == if i < n then RecordShare(b, courier)(i) else if e.courier == courier then e.amount else 0
    {
      PaymentTakes(b, p, e, i);
    }
    Congruent(n, RecordShare(b', courier), RecordShare(b, courier));
  }

  lemma NowReversed(payments: seq<Payment>, p: Payment, q: nat)
    ensures Reversed(payments + [p], q) <==> Reversed(payments, q) || p.reverses == Some(q)
  {
    var all := payments + [p];
    if Reversed(payments, q) {
      var r :| 0 <= r < |payments| && payments[r].reverses == Some(q);
      assert all[r].reverses == Some(q);
    }
    assert all[|payments|] == p;
  }

  lemma PaymentLives(b: Books, p: Payment, e: Entry, courier: string)
    requires PaymentsSound(b) && Pays(b, p, e)
    ensures LiveTotal(WithPayment(b, p, e), courier)
         == LiveTotal(b, courier) - (if e.courier == courier then e.amount else 0)
  {
    var all, n := b.payments + [p], |b.payments|;
    forall i: nat | i <= n
      ensures LiveShare(all, courier)(i) ==
        if i == n then (if p.reverses == None && p.courier == courier then p.amount else 0)
        else if p.reverses == Some(i) then 0 else LiveShare(b.payments, courier)(i)
    {
      NowReversed(b.payments, p, i);
      if i == n {
        assert !Reversed(b.payments, n);
      }
    }
    match p.reverses
    case None => Congruent(n, LiveShare(b.payments, courier), LiveShare(all, courier));
    case Some(q) => DifferAt(n, LiveShare(b.payments, courier), LiveShare(all, courier), q);
  }

  lemma PaymentKeepsAccounted(b: Books, p: Payment, e: Entry)
    requires Accounted(b) && PaymentsSound(b) && Pays(b, p, e)
    ensures Accounted(WithPayment(b, p, e))
  {
    var b' := WithPayment(b, p, e);
    PaymentKeepsRecorded(b, p, e);
    forall c: string ensures RecordTotal(b', c) == -LiveTotal(b', c) {
      PaymentRecords(b, p, e, c);
      PaymentLives(b, p, e, c);
      assert RecordTotal(b, c) == -LiveTotal(b, c);
    }
  }

  lemma RefreshKeepsAccounted(b: Books, keys: set<PeriodKey>, now: int, soon: set<PeriodKey>)
    requires Accounted(b) && PaymentsSound(b)
    ensures Accounted(Refresh(b, keys, now, soon))
  {
    LineKeepsAccounted(b, Refresh(b, keys, now, soon));
  }

  lemma PayKeepsAccounted(b: Books, s: Step)
    requires Accounted(b) && RowsSound(b) && s.Pay?
    ensures Accounted(Apply(b, s))
  {
    if MayPay(b, s.courier, s.amount, s.owing) {
      var parts := Allocate(s.owing, Owed(b.periods), s.amount);
      var p := Payment(s.courier, s.amount, parts, None, |b.ledger|);
      var e := Entry(s.courier, None, EXTERNAL_PAYMENT, -s.amount, s.paidAt, None);
      AllocationAddsUp(b, s.courier, s.amount, s.owing);
      PaymentKeepsAccounted(b, p, e);
      PartsWithinOwed(b, s.courier, s.amount, s.owing);
      PaymentRows(b, p, e);
      RefreshKeepsAccounted(WithPayment(b, p, e), parts.Keys, s.now, s.soon);
    }
  }

  lemma ReverseKeepsAccounted(b: Books, s: Step)
    requires Accounted(b) && RowsSound(b) && s.Reverse?
    ensures Accounted(Apply(b, s))
  {
    if MayReverse(b, s.payment) {
      var original := b.payments[s.payment];
      var p := Payment(original.courier, original.amount, original.parts, Some(s.payment), |b.ledger|);
      var e := Entry(original.courier, None, REVERSAL, original.amount, s.now, Some(original.entry));
      assert AddsUp(original);
      PaymentKeepsAccounted(b, p, e);
      PaymentRows(b, p, e);
      RefreshKeepsAccounted(WithPayment(b, p, e), original.parts.Keys, s.now, s.soon);
    }
  }

  lemma StepKeepsAccounted(b: Books, s: Step)
    requires Accounted(b) && RowsSound(b)
    ensures Accounted(Apply(b, s))
  {
    if s.Pay? {
      PayKeepsAccounted(b, s);
    } else if s.Reverse? {
      ReverseKeepsAccounted(b, s);
    } else {
      OthersBookLines(b, s);
      LineKeepsAccounted(b, Apply(b, s));
    }
  }

  lemma {:induction false} RunKeepsAccounted(b: Books, steps: seq<Step>)
    requires Accounted(b) && RowsSound(b) && Projected(b)
    ensures Accounted(Run(b, steps)) && RowsSound(Run(b, steps)) && Projected(Run(b, steps))
    decreases |steps|
  {
    if steps != [] {
      StepKeepsAccounted(b, steps[0]);
      StepKeepsTotals(b, steps[0]);
      RunKeepsAccounted(Apply(b, steps[0]), steps[1..]);
    }
  }

  // ---------------------------------------------------------------- sums over a courier's periods

  /** The courier's settlement periods, each once. */
  ghost predicate Lists(b: Books, courier: string, keys: seq<PeriodKey>) {
    NoDuplicates(keys) && forall k :: k in keys <==> k in b.periods && k.courier == courier
  }

  /** Row i of every key. */
  function At<K>(f: K -> nat -> int, i: nat): K -> int {
    (k: K) => f(k)(i)
  }

  function Row<K>(keys: seq<K>, f: K -> nat -> int): nat -> int {
    (i: nat) => SumBy(keys, At(f, i))
  }

  function Column<K>(n: nat, f: K -> nat -> int): K -> int {
    (k: K) => SumTo(n, f(k))
  }

  /** Adding up by periods and then rows, or by rows and then periods. */
  lemma {:induction false} Swap<K(!new)>(keys: seq<K>, n: nat, f: K -> nat -> int)
    ensures SumBy(keys, Column(n, f)) == SumTo(n, Row(keys, f))
  {
    if keys == [] {
      Congruent(n, Zero(), Row(keys, f));
      SumOfZeros(n);
    } else {
      Swap(keys[1..], n, f);
      SumOfSums(n, f(keys[0]), Row(keys[1..], f), Row(keys, f));
    }
  }

  /** Summands that are all zero but for one element. */
  lemma {:induction false} Pick<K(!new)>(keys: seq<K>, x: K, v: int, f: K -> int)
    requires NoDuplicates(keys) && forall k :: k in keys ==> f(k) == if k == x then v else 0
    ensures SumBy(keys, f) == if x in keys then v else 0
  {
    if keys != [] {
      assert keys == [keys[0]] + keys[1..];
      Pick(keys[1..], x, v, f);
    }
  }

  function LineSums(b: Books, kinds: set<EntryKind>): PeriodKey -> int {
    (k: PeriodKey) => LineTotal(b.ledger, b.lines, k, kinds)
  }

  function PaidSums(b: Books): PeriodKey -> int {
    (k: PeriodKey) => Paid(b.payments, k)
  }

  function LinesOf(b: Books, kinds: set<EntryKind>): PeriodKey -> nat -> int {
    (k: PeriodKey) => LineShare(b.ledger, b.lines, k, kinds)
  }

  function PaymentsOf(b: Books): PeriodKey -> nat -> int {
    (k: PeriodKey) => PaidShare(b.payments, k)
  }

  /** Entries with a line. */
  function LinedShare(b: Books, courier: string, kinds: set<EntryKind>): nat -> int {
    (i: nat) =>
      if i < |b.ledger| && i in b.lines && b.ledger[i].courier == courier && b.ledger[i].kind in kinds
      then b.ledger[i].amount else 0
  }

  lemma RowOfEntry(b: Books, courier: string, keys: seq<PeriodKey>, kinds: set<EntryKind>, i: nat)
    requires LinesSound(b) && Lists(b, courier, keys) && i < |b.ledger|
    ensures Row(keys, LinesOf(b, kinds))(i) == LinedShare(b, courier, kinds)(i)
  {
    var f := At(LinesOf(b, kinds), i);
    if i in b.lines && b.ledger[i].kind in kinds {
      var period, amount := b.lines[i].period, b.ledger[i].amount;
      forall k ensures f(k) == if k == period then amount else 0 {
        assert f(k) == LineShare(b.ledger, b.lines, k, kinds)(i);
      }
      Pick(keys, period, amount, f);
    } else {
      forall k ensures f(k) == 0 {
        assert f(k) == LineShare(b.ledger, b.lines, k, kinds)(i);
      }
      SumsNonNegative(keys, f);
    }
  }

  lemma LinesOverPeriods(b: Books, courier: string, keys: seq<PeriodKey>, kinds: set<EntryKind>)
    requires LinesSound(b) && Lists(b, courier, keys)
    ensures SumBy(keys, LineSums(b, kinds)) == SumTo(|b.ledger|, LinedShare(b, courier, kinds))
  {
    var n := |b.ledger|;
    SameSums(keys, LineSums(b, kinds), Column(n, LinesOf(b, kinds)));
    Swap(keys, n, LinesOf(b, kinds));
    forall i: nat | i < n ensures Row(keys, LinesOf(b, kinds))(i) == LinedShare(b, courier, kinds)(i) {
      RowOfEntry(b, courier, keys, kinds, i);
    }
    Congruent(n, Row(keys, LinesOf(b, kinds)), LinedShare(b, courier, kinds));
  }

  lemma RowOfPayment(b: Books, courier: string, keys: seq<PeriodKey>, p: nat)
    requires PaymentsSound(b) && PaymentsAddUp(b) && Lists(b, courier, keys) && p < |b.payments|
    ensures Row(keys, PaymentsOf(b))(p) == LiveShare(b.payments, courier)(p)
  {
    var f := At(PaymentsOf(b), p);
    var payment := b.payments[p];
    assert AddsUp(payment);
    forall k ensures f(k) == PaidShare(b.payments, k)(p) {}
    if payment.reverses == None && !Reversed(b.payments, p) && payment.courier == courier {
      SameSums(keys, f, Part(payment.parts));
      assert forall k :: k in payment.parts ==> k in b.periods && k.courier == courier;
    } else {
      SumsNonNegative(keys, f);
    }
  }

  lemma PaymentsOverPeriods(b: Books, courier: string, keys: seq<PeriodKey>)
    requires PaymentsSound(b) && PaymentsAddUp(b) && Lists(b, courier, keys)
    ensures SumBy(keys, PaidSums(b)) == LiveTotal(b, courier)
  {
    var n := |b.payments|;
    SameSums(keys, PaidSums(b), Column(n, PaymentsOf(b)));
    Swap(keys, n, PaymentsOf(b));
    forall p: nat | p < n ensures Row(keys, PaymentsOf(b))(p) == LiveShare(b.payments, courier)(p) {
      RowOfPayment(b, courier, keys, p);
    }
    Congruent(n, Row(keys, PaymentsOf(b)), LiveShare(b.payments, courier));
  }

  // ---------------------------------------------------------------- the two sets of books

  // each figure of a period's row

  function CommissionOf(b: Books): PeriodKey -> int {
    (k: PeriodKey) => if k in b.periods then b.periods[k].totals.commission else 0
  }

  function AdjustmentsOf(b: Books): PeriodKey -> int {
    (k: PeriodKey) => if k in b.periods then b.periods[k].totals.adjustments else 0
  }

  function WaivedOf(b: Books): PeriodKey -> int {
    (k: PeriodKey) => if k in b.periods then b.periods[k].totals.waived else 0
  }

  function PaidOf(b: Books): PeriodKey -> int {
    (k: PeriodKey) => if k in b.periods then b.periods[k].totals.payments else 0
  }

  function BalanceOf(b: Books): PeriodKey -> int {
    (k: PeriodKey) => if k in b.periods then Balance(b.periods[k].totals) else 0
  }

  function BilledBackShare(b: Books, courier: string): nat -> int {
    (i: nat) =>
      if i < |b.ledger| && i in b.lines && b.ledger[i].courier == courier && TakesBackPayment(b, i)
      then b.ledger[i].amount else 0
  }

  /** Entries of payments taken back that have a line nevertheless. */
  function BilledBack(b: Books, courier: string): int {
    SumTo(|b.ledger|, BilledBackShare(b, courier))
  }

  lemma LinedAreAccounted(b: Books, courier: string)
    requires RowsSound(b) && Recorded(b)
    ensures SumTo(|b.ledger|, LinedShare(b, courier, COMMISSION_KINDS)) == AccountTotal(b, courier, COMMISSION_KINDS)
    ensures SumTo(|b.ledger|, LinedShare(b, courier, WAIVER_KINDS)) == AccountTotal(b, courier, WAIVER_KINDS)
    ensures SumTo(|b.ledger|, LinedShare(b, courier, ADJUSTMENT_KINDS))
         == AccountTotal(b, courier, ADJUSTMENT_KINDS) + BilledBack(b, courier)
  {
    var n := |b.ledger|;
    forall i: nat | i < n
      ensures LinedShare(b, courier, COMMISSION_KINDS)(i) == AccountShare(b, courier, COMMISSION_KINDS)(i)
      ensures LinedShare(b, courier, WAIVER_KINDS)(i) == AccountShare(b, courier, WAIVER_KINDS)(i)
      ensures LinedShare(b, courier, ADJUSTMENT_KINDS)(i)
           == AccountShare(b, courier, ADJUSTMENT_KINDS)(i) + BilledBackShare(b, courier)(i)
    {
      if TakesBackPayment(b, i) {
        TakenBackFacts(b, i);
      }
    }
    Congruent(n, LinedShare(b, courier, COMMISSION_KINDS), AccountShare(b, courier, COMMISSION_KINDS));
    Congruent(n, LinedShare(b, courier, WAIVER_KINDS), AccountShare(b, courier, WAIVER_KINDS));
    SumOfSums(n, AccountShare(b, courier, ADJUSTMENT_KINDS), BilledBackShare(b, courier),
              LinedShare(b, courier, ADJUSTMENT_KINDS));
  }

  lemma WaiversNegative(b: Books, courier: string)
    requires SignsAllowed(b)
    ensures AccountTotal(b, courier, WAIVER_KINDS) <= 0
  {
    var waivers := AccountShare(b, courier, WAIVER_KINDS);
    NonNegative(|b.ledger|, Negated(waivers));
    SumOfSums(|b.ledger|, waivers, Negated(waivers), Zero());
    SumOfZeros(|b.ledger|);
  }

  /** Every entry is one of the four figures'. */
  lemma LedgerSplits(b: Books, courier: string)
    requires RowsSound(b)
    ensures LedgerTotal(b, courier) ==
      AccountTotal(b, courier, COMMISSION_KINDS) + AccountTotal(b, courier, ADJUSTMENT_KINDS) +
      AccountTotal(b, courier, WAIVER_KINDS) + RecordTotal(b, courier)
  {
    forall i: nat | i < |b.ledger|
      ensures AccountShare(b, courier, COMMISSION_KINDS)(i) + AccountShare(b, courier, ADJUSTMENT_KINDS)(i)
            + AccountShare(b, courier, WAIVER_KINDS)(i)
           == LedgerShare(b, courier)(i) + Negated(RecordShare(b, courier))(i)
    {
      if TakesBackPayment(b, i) {
        TakenBackFacts(b, i);
      }
    }
    AddThree(|b.ledger|, AccountShare(b, courier, COMMISSION_KINDS), AccountShare(b, courier, ADJUSTMENT_KINDS),
             AccountShare(b, courier, WAIVER_KINDS), LedgerShare(b, courier), Negated(RecordShare(b, courier)));
    SumOfSums(|b.ledger|, RecordShare(b, courier), Negated(RecordShare(b, courier)), Zero());
    SumOfZeros(|b.ledger|);
  }

  lemma ReachableIsAccounted(steps: seq<Step>)
    ensures var b := Run(EMPTY, steps); Accounted(b) && RowsSound(b) && Projected(b)
  {
    RunKeepsAccounted(EMPTY, steps);
  }

  /** In every reachable state the ledger's sum, which the courier is shown as remaining, is the balance of the
      four other figures shown. */
  lemma SummaryAddsUp(steps: seq<Step>, courier: string)
    ensures var b, shown := Run(EMPTY, steps), Summary(Run(EMPTY, steps), courier);
            var balance := shown.commission + shown.adjustments - shown.waived - shown.payments;
            LedgerTotal(b, courier) == balance && shown.remaining == if balance < 0 then 0 else balance
  {
    var b := Run(EMPTY, steps);
    ReachableIsAccounted(steps);
    LedgerSplits(b, courier);
    WaiversNegative(b, courier);
    assert RecordTotal(b, courier) == -LiveTotal(b, courier);
  }

  lemma FieldsAreSums(b: Books, courier: string, keys: seq<PeriodKey>)
    requires RowsSound(b) && Projected(b) && Lists(b, courier, keys)
    ensures SumBy(keys, CommissionOf(b)) == SumBy(keys, LineSums(b, COMMISSION_KINDS))
    ensures SumBy(keys, AdjustmentsOf(b)) == SumBy(keys, LineSums(b, ADJUSTMENT_KINDS))
    ensures SumBy(keys, PaidOf(b)) == SumBy(keys, PaidSums(b))
  {
    forall k | k in keys
      ensures k in b.periods && b.periods[k].totals == Recomputed(b.ledger, b.lines, b.payments, k)
    {}
    SameSums(keys, CommissionOf(b), LineSums(b, COMMISSION_KINDS));
    SameSums(keys, AdjustmentsOf(b), LineSums(b, ADJUSTMENT_KINDS));
    SameSums(keys, PaidOf(b), PaidSums(b));
  }

  lemma {:induction false} NegatedSum<K>(s: seq<K>, f: K -> int, g: K -> int)
    requires forall k :: k in s ==> f(k) == -g(k)
    ensures SumBy(s, f) == -SumBy(s, g)
  {
    if s != [] {
      NegatedSum(s[1..], f, g);
    }
  }

  lemma WaivedIsSum(b: Books, courier: string, keys: seq<PeriodKey>)
    requires RowsSound(b) && Projected(b) && Lists(b, courier, keys)
    ensures SumBy(keys, WaivedOf(b)) == -SumBy(keys, LineSums(b, WAIVER_KINDS))
  {
    forall k | k in keys
      ensures WaivedOf(b)(k) == -LineSums(b, WAIVER_KINDS)(k)
    {
      assert k in b.periods && b.periods[k].totals == Recomputed(b.ledger, b.lines, b.payments, k);
      CommissionsNonNegative(b, k);
    }
    NegatedSum(keys, WaivedOf(b), LineSums(b, WAIVER_KINDS));
  }

  /** In every reachable state the courier's periods add up to the figures shown, save that an entry of a
      payment taken back that a period bills is in the periods' adjustments and not among those shown. */
  lemma PeriodsAddUp(steps: seq<Step>, courier: string, keys: seq<PeriodKey>)
    requires Lists(Run(EMPTY, steps), courier, keys)
    ensures var b, shown := Run(EMPTY, steps), Summary(Run(EMPTY, steps), courier);
            SumBy(keys, CommissionOf(b)) == shown.commission &&
            SumBy(keys, PaidOf(b)) == shown.payments &&
            SumBy(keys, WaivedOf(b)) == shown.waived &&
            SumBy(keys, AdjustmentsOf(b)) == shown.adjustments + BilledBack(b, courier)
  {
    var b := Run(EMPTY, steps);
    ReachableIsAccounted(steps);
    FieldsAreSums(b, courier, keys);
    WaivedIsSum(b, courier, keys);
    LinesOverPeriods(b, courier, keys, COMMISSION_KINDS);
    LinesOverPeriods(b, courier, keys, ADJUSTMENT_KINDS);
    LinesOverPeriods(b, courier, keys, WAIVER_KINDS);
    PaymentsOverPeriods(b, courier, keys);
    LinedAreAccounted(b, courier);
    WaiversNegative(b, courier);
  }

  lemma {:induction false} SumOfFour<K>(s: seq<K>, f: K -> int, a: K -> int, b: K -> int, c: K -> int, d: K -> int)
    requires forall k :: k in s ==> f(k) == a(k) + b(k) - c(k) - d(k)
    ensures SumBy(s, f) == SumBy(s, a) + SumBy(s, b) - SumBy(s, c) - SumBy(s, d)
  {
    if s != [] {
      SumOfFour(s[1..], f, a, b, c, d);
    }
  }

  lemma BalancesSplit(b: Books, keys: seq<PeriodKey>)
    requires forall k :: k in keys ==> k in b.periods
    ensures SumBy(keys, BalanceOf(b)) ==
      SumBy(keys, CommissionOf(b)) + SumBy(keys, AdjustmentsOf(b)) - SumBy(keys, WaivedOf(b)) - SumBy(keys, PaidOf(b))
  {
    SumOfFour(keys, BalanceOf(b), CommissionOf(b), AdjustmentsOf(b), WaivedOf(b), PaidOf(b));
  }

  lemma BilledBackZero(b: Books, courier: string, keys: seq<PeriodKey>)
    requires RowsSound(b) && Lists(b, courier, keys)
    ensures BilledBack(b, courier) >= 0
    ensures BilledBack(b, courier) == 0 <==> forall k :: k in keys ==> BillsNoTakenBack(b, k)
  {
    forall i: nat | i < |b.ledger|
      ensures BilledBackShare(b, courier)(i) >= 0
      ensures BilledBackShare(b, courier)(i) != 0 <==>
              i in b.lines && b.ledger[i].courier == courier && TakesBackPayment(b, i)
    {
      if TakesBackPayment(b, i) {
        TakenBackFacts(b, i);
      }
    }
    NonNegative(|b.ledger|, BilledBackShare(b, courier));
    if BilledBack(b, courier) == 0 {
      forall k, i: nat | k in keys && OnPeriod(b, i, k) ensures !TakesBackPayment(b, i) {
        assert BilledBackShare(b, courier)(i) == 0;
      }
    } else {
      var i: nat :| i < |b.ledger| && BilledBackShare(b, courier)(i) != 0;
      assert b.lines[i].period in keys && OnPeriod(b, i, b.lines[i].period);
    }
  }

  /** In every reachable state a courier's periods ask for at least what the ledger says is owed, and for exactly
      that if and only if no period bills the entry of a payment taken back.  The difference is those entries. */
  lemma PeriodsAgreeWithLedgerExactly(steps: seq<Step>, courier: string, keys: seq<PeriodKey>)
    requires Lists(Run(EMPTY, steps), courier, keys)
    ensures var b := Run(EMPTY, steps);
            SumBy(keys, BalanceOf(b)) == LedgerTotal(b, courier) + BilledBack(b, courier) &&
            SumBy(keys, BalanceOf(b)) >= LedgerTotal(b, courier) &&
            (SumBy(keys, BalanceOf(b)) == LedgerTotal(b, courier) <==>
              forall k :: k in keys ==> BillsNoTakenBack(b, k))
  {
    var b := Run(EMPTY, steps);
    PeriodsAddUp(steps, courier, keys);
    SummaryAddsUp(steps, courier);
    BalancesSplit(b, keys);
    ReachableIsAccounted(steps);
    BilledBackZero(b, courier, keys);
  }
}
