/** How a payment is split over the settlements a courier owes: oldest first. */
module PaymentAllocation {
  import opened Sums

  datatype Allocation<K> = Allocated(parts: map<K, int>) | InvalidAmount | Overpayment

  function Min(x: int, y: int): int { if x < y then x else y }

  /** What an allocation gives to one settlement. */
  function Part<K>(parts: map<K, int>): K -> int {
    (k: K) => if k in parts then parts[k] else 0
  }

  /** Each settlement in turn gets what it owes until the amount is used up; none gets an empty part. */
  function Allocate<K>(order: seq<K>, owed: K -> int, amount: int): map<K, int> {
    if order == [] || amount == 0 then map[]
    else
      var part := Min(amount, owed(order[0]));
      var rest := Allocate(order[1..], owed, amount - part);
      if part > 0 then rest[order[0] := part] else rest
  }

  // ---------------------------------------------------------------- what an allocation promises

  /** Parts are positive, go to the settlements listed and stay within what each owes. */
  ghost predicate WithinOwed<K(!new)>(order: seq<K>, owed: K -> int, parts: map<K, int>) {
    forall k :: k in parts ==> k in order && 0 < parts[k] <= owed(k)
  }

  /** A settlement gets something only when every earlier one is paid in full. */
  ghost predicate OldestFirst<K(!new)>(order: seq<K>, owed: K -> int, parts: map<K, int>) {
    forall i, j :: 0 <= i < j < |order| && order[j] in parts ==> Part(parts)(order[i]) == owed(order[i])
  }

  ghost predicate IsAllocation<K(!new)>(order: seq<K>, owed: K -> int, amount: int, parts: map<K, int>) {
    WithinOwed(order, owed, parts) && OldestFirst(order, owed, parts) && SumBy(order, Part(parts)) == amount
  }

  ghost predicate Payable<K(!new)>(order: seq<K>, owed: K -> int) {
    NoDuplicates(order) && forall k :: k in order ==> owed(k) >= 0
  }

  lemma {:induction false} SameSums<K>(s: seq<K>, f: K -> int, g: K -> int)
    requires forall k :: k in s ==> f(k) == g(k)
    ensures SumBy(s, f) == SumBy(s, g)
  {
    if s != [] {
      SameSums(s[1..], f, g);
    }
  }

  lemma {:induction false} SumsNonNegative<K>(s: seq<K>, f: K -> int)
    requires forall k :: k in s ==> f(k) >= 0
    ensures SumBy(s, f) >= 0
    ensures SumBy(s, f) == 0 <==> forall k :: k in s ==> f(k) == 0
  {
    if s != [] {
      SumsNonNegative(s[1..], f);
      assert s == [s[0]] + s[1..];
    }
  }

  lemma Rest<K(!new)>(order: seq<K>, owed: K -> int)
    requires Payable(order, owed) && order != []
    ensures Payable(order[1..], owed) && order[0] !in order[1..]
  {}

  /** The loop's allocation stays within what is owed, pays the oldest first and adds up to the payment. */
  lemma {:induction false} AllocateAllocates<K(!new)>(order: seq<K>, owed: K -> int, amount: int)
    requires Payable(order, owed) && 0 <= amount <= SumBy(order, owed)
    ensures IsAllocation(order, owed, amount, Allocate(order, owed, amount))
  {
    if order == [] || amount == 0 {
      NothingPaid(order, owed);
    } else {
      var part := Min(amount, owed(order[0]));
      FirstWithin(order, owed, amount);
      AllocateAllocates(order[1..], owed, amount - part);
      FirstPaid(order, owed, amount, Allocate(order[1..], owed, amount - part));
    }
  }

  lemma NothingPaid<K(!new)>(order: seq<K>, owed: K -> int)
    ensures IsAllocation(order, owed, 0, map[])
  {
    SumsNonNegative(order, Part(map[]));
  }

  lemma FirstWithin<K(!new)>(order: seq<K>, owed: K -> int, amount: int)
    requires Payable(order, owed) && order != [] && 0 < amount <= SumBy(order, owed)
    ensures Payable(order[1..], owed) && 0 <= amount - Min(amount, owed(order[0])) <= SumBy(order[1..], owed)
  {
    Rest(order, owed);
    SumsNonNegative(order[1..], owed);
  }

  lemma FirstPaid<K(!new)>(order: seq<K>, owed: K -> int, amount: int, rest: map<K, int>)
    requires Payable(order, owed) && order != [] && 0 < amount
    requires IsAllocation(order[1..], owed, amount - Min(amount, owed(order[0])), rest)
    ensures var part := Min(amount, owed(order[0]));
            IsAllocation(order, owed, amount, if part > 0 then rest[order[0] := part] else rest)
  {
    var first, tail, part := order[0], order[1..], Min(amount, owed(order[0]));
    var parts := if part > 0 then rest[first := part] else rest;
    Rest(order, owed);
    assert WithinOwed(order, owed, parts);
    SameSums(tail, Part(parts), Part(rest));
    assert Part(parts)(first) == part;
    if part < owed(first) {
      SumsNonNegative(tail, Part(rest));
      assert forall k :: k in rest ==> Part(rest)(k) == 0;
    }
    FirstIsOldest(order, owed, parts, rest);
  }

  lemma FirstIsOldest<K(!new)>(order: seq<K>, owed: K -> int, parts: map<K, int>, rest: map<K, int>)
    requires order != [] && OldestFirst(order[1..], owed, rest)
    requires forall k :: k in order[1..] ==> Part(parts)(k) == Part(rest)(k) && (k in parts <==> k in rest)
    requires Part(parts)(order[0]) == owed(order[0]) || forall k :: k in order[1..] ==> k !in rest
    ensures OldestFirst(order, owed, parts)
  {
    forall i, j | 0 <= i < j < |order| && order[j] in parts ensures Part(parts)(order[i]) == owed(order[i]) {
      assert order[j] == order[1..][j - 1];
      if i > 0 {
        assert order[i] == order[1..][i - 1];
      }
    }
  }

  lemma {:induction false} OverTheRest<K(!new)>(order: seq<K>, owed: K -> int, amount: int, parts: map<K, int>)
    requires Payable(order, owed) && order != [] && IsAllocation(order, owed, amount, parts)
    ensures IsAllocation(order[1..], owed, amount - Part(parts)(order[0]), parts - {order[0]})
    ensures Part(parts)(order[0]) == Min(amount, owed(order[0]))
  {
    var first, tail := order[0], order[1..];
    var rest := parts - {first};
    Rest(order, owed);
    SameSums(tail, Part(parts), Part(rest));
    assert forall k :: k in parts ==> k == first || k in tail;
    forall i, j | 0 <= i < j < |tail| && tail[j] in rest ensures Part(rest)(tail[i]) == owed(tail[i]) {
      assert tail[i] == order[i + 1] && tail[j] == order[j + 1];
    }
    SumsNonNegative(tail, Part(parts));
    if Part(parts)(first) != owed(first) {
      forall k | k in tail ensures Part(parts)(k) == 0 {
        var j :| 0 <= j < |tail| && tail[j] == k;
        assert order[j + 1] == k && order[0] == first;
      }
    }
  }

  /** No other allocation does all three: oldest first leaves no choice. */
  lemma {:induction false} OldestFirstIsUnique<K(!new)>(order: seq<K>, owed: K -> int, amount: int, parts: map<K, int>)
    requires Payable(order, owed) && IsAllocation(order, owed, amount, parts)
    ensures parts == Allocate(order, owed, amount)
  {
    if order == [] || amount == 0 {
      NothingToPay(order, owed, amount, parts);
    } else {
      OverTheRest(order, owed, amount, parts);
      Rest(order, owed);
      OldestFirstIsUnique(order[1..], owed, amount - Part(parts)(order[0]), parts - {order[0]});
      FirstAndRest(parts, order[0]);
    }
  }

  lemma NothingToPay<K(!new)>(order: seq<K>, owed: K -> int, amount: int, parts: map<K, int>)
    requires WithinOwed(order, owed, parts) && SumBy(order, Part(parts)) == amount && (order == [] || amount == 0)
    ensures parts == map[]
  {
    SumsNonNegative(order, Part(parts));
    assert forall k :: k in parts ==> Part(parts)(k) == 0;
    assert parts.Keys == {};
  }

  lemma FirstAndRest<K>(parts: map<K, int>, k: K)
    ensures parts == if k in parts then (parts - {k})[k := parts[k]] else parts - {k}
  {}

  // ---------------------------------------------------------------- the loop

  method Available<K>(order: seq<K>, owed: K -> int) returns (total: int)
    ensures total == SumBy(order, owed)
  {
    total := 0;
    for i := 0 to |order|
      invariant total == SumBy(order[..i], owed)
    {
      assert order[..i + 1] == order[..i] + [order[i]];
      Append(order[..i], order[i], owed);
      total := total + owed(order[i]);
    }
    assert order[..|order|] == order;
  }

  /** The first i settlements have been given `parts`; the others are still to be given the remaining amount. */
  ghost predicate Handed<K(!new)>(
    order: seq<K>, owed: K -> int, amount: int, parts: map<K, int>, i: nat, remaining: int)
  {
    i <= |order| && (forall k :: k in parts ==> k in order[..i]) &&
    Allocate(order, owed, amount) == parts + Allocate(order[i..], owed, remaining)
  }

  /** The loop over the settlements. */
  method HandOut<K(!new, ==)>(order: seq<K>, owed: K -> int, amount: int) returns (parts: map<K, int>)
    requires Payable(order, owed)
    ensures parts == Allocate(order, owed, amount)
  {
    var remaining, i := amount, 0;
    parts := map[];
    assert order[0..] == order;
    while i < |order| && remaining != 0
      invariant i <= |order|
      invariant Handed(order, owed, amount, parts, i, remaining)
    {
      var part := Min(remaining, owed(order[i]));
      AddPart(order, owed, amount, parts, i, remaining);
      if part > 0 {
        parts := parts[order[i] := part];
      }
      remaining := remaining - part;
      i := i + 1;
    }
  }

  /** allocateOldestSettlements on settlements in the order of its sort, which is the order of the query. */
  method AllocateOldestSettlements<K(!new, ==)>(order: seq<K>, owed: K -> int, amount: int)
    returns (result: Allocation<K>)
    requires Payable(order, owed)
    ensures result.InvalidAmount? <==> amount <= 0
    ensures result.Overpayment? <==> 0 < amount && SumBy(order, owed) < amount
    ensures result.Allocated? ==> IsAllocation(order, owed, amount, result.parts)
    ensures result.Allocated? ==> result.parts == Allocate(order, owed, amount)
  {
    if amount <= 0 {
      return InvalidAmount;
    }
    var available := Available(order, owed);
    if amount > available {
      return Overpayment;
    }
    AllocateAllocates(order, owed, amount);
    var parts := HandOut(order, owed, amount);
    return Allocated(parts);
  }

  lemma {:induction false} AllocatesWithin<K(!new)>(order: seq<K>, owed: K -> int, amount: int)
    ensures forall k :: k in Allocate(order, owed, amount) ==> k in order
  {
    if order != [] && amount != 0 {
      AllocatesWithin(order[1..], owed, amount - Min(amount, owed(order[0])));
    }
  }

  lemma AddPart<K(!new)>(order: seq<K>, owed: K -> int, amount: int, parts: map<K, int>, i: nat, remaining: int)
    requires Payable(order, owed) && i < |order| && remaining != 0
    requires Handed(order, owed, amount, parts, i, remaining)
    ensures var part := Min(remaining, owed(order[i]));
            Handed(order, owed, amount, if part > 0 then parts[order[i] := part] else parts, i + 1, remaining - part)
  {
    var part := Min(remaining, owed(order[i]));
    assert order[i..][0] == order[i] && order[i..][1..] == order[i + 1..];
    assert order[..i + 1] == order[..i] + [order[i]];
    var rest := Allocate(order[i + 1..], owed, remaining - part);
    AllocatesWithin(order[i + 1..], owed, remaining - part);
    Rest(order[i..], owed);
    AddFirst(parts, rest, order[i], part);
  }

  lemma AddFirst<K>(parts: map<K, int>, rest: map<K, int>, k: K, part: int)
    requires k !in rest
    ensures parts + rest[k := part] == parts[k := part] + rest
  {}
}
