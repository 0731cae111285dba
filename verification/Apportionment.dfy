/** Largest-remainder division of one payment, on rows already ranked the way the code sorts them. */
module Apportionment {
  import opened Collation
  import opened JsNumbers

  /** A zone of the period: its positive due, its floored share and the remainder of that division. */
  datatype Row = Row(zoneId: string, due: int, share: int, remainder: int)

  function SumDue(rows: seq<Row>): int {
    if rows == [] then 0 else rows[0].due + SumDue(rows[1..])
  }

  function SumShare(rows: seq<Row>): int {
    if rows == [] then 0 else rows[0].share + SumShare(rows[1..])
  }

  /** The comparator of the sort: larger remainder first, then zone id. */
  predicate Ahead(a: Row, b: Row) {
    a.remainder > b.remainder || (a.remainder == b.remainder && Precedes(a.zoneId, b.zoneId))
  }

  ghost predicate Sorted(rows: seq<Row>) {
    forall i, j :: 0 <= i < j < |rows| ==> Ahead(rows[i], rows[j])
  }

  ghost predicate DistinctZones(rows: seq<Row>) {
    forall i, j :: 0 <= i < j < |rows| ==> rows[i].zoneId != rows[j].zoneId
  }

  /** Every row holds the floor and the remainder of amount * due / total. */
  ghost predicate Quotas(amount: int, total: int, rows: seq<Row>) {
    total > 0 &&
    forall i :: 0 <= i < |rows| ==>
      rows[i].due > 0 &&
      rows[i].share == (amount * rows[i].due) / total &&
      rows[i].remainder == JsRemainder(amount * rows[i].due, total)
  }

  /** The rows of one payment after sorting and before the leftover units are handed out. */
  ghost predicate Ranking(amount: int, rows: seq<Row>) {
    |rows| > 0 && Quotas(amount, SumDue(rows), rows) && Sorted(rows)
  }

  function Leftover(amount: int, rows: seq<Row>): int {
    amount - SumShare(rows)
  }

  /** What the zone at position i of the ranking is credited with. */
  function Credit(amount: int, rows: seq<Row>, i: nat): int
    requires i < |rows|
  {
    rows[i].share + (if i < Leftover(amount, rows) then 1 else 0)
  }

  function Credits(amount: int, rows: seq<Row>): seq<int> {
    seq(|rows|, i requires 0 <= i < |rows| => Credit(amount, rows, i))
  }

  function Sum(v: seq<int>): int {
    if v == [] then 0 else v[0] + Sum(v[1..])
  }

  function Abs(x: int): int { if x < 0 then -x else x }

  /** Total deviation from the exact proportions amount * due / total, scaled by the total. */
  function Deviation(v: seq<int>, amount: int, total: int, rows: seq<Row>): int
    requires |v| == |rows|
  {
    if rows == [] then 0
    else Abs(v[0] * total - amount * rows[0].due) + Deviation(v[1..], amount, total, rows[1..])
  }

  // ---------------------------------------------------------------- products

  lemma MulLe(a: int, b: int, t: int)
    requires a <= b && t >= 0
    ensures a * t <= b * t
  {}

  lemma MulAdd(a: int, b: int, t: int)
    ensures (a + b) * t == a * t + b * t
    ensures t * (a + b) == t * a + t * b
  {}

  lemma MulSub(a: int, b: int, t: int)
    ensures (a - b) * t == a * t - b * t
    ensures t * (a - b) == t * a - t * b
  {}

  lemma DivMod(n: int, t: int)
    requires t > 0
    ensures n == n / t * t + n % t && 0 <= n % t < t
  {}

  lemma SmallMultiple(q: int, t: int, s: int)
    requires t > 0 && q * t + s == 0 && 0 <= s < 2 * t
    ensures q == 0 || q == -1
  {
    if q >= 1 { MulLe(1, q, t); }
    if q <= -2 { MulLe(q, -2, t); }
  }

  lemma NegativeRemainder(n: int, t: int)
    requires t > 0
    ensures (-n) % t == (if n % t == 0 then 0 else t - n % t)
  {
    DivMod(n, t);
    DivMod(-n, t);
    MulAdd(n / t, (-n) / t, t);
    SmallMultiple(n / t + (-n) / t, t, n % t + (-n) % t);
  }

  // ---------------------------------------------------------------- the leftover

  /** The mathematical (never negative) remainder of a row. */
  function Part(amount: int, total: int, row: Row): int {
    amount * row.due - row.share * total
  }

  function Parts(amount: int, total: int, rows: seq<Row>): seq<int> {
    seq(|rows|, i requires 0 <= i < |rows| => Part(amount, total, rows[i]))
  }

  lemma PartBounds(amount: int, total: int, row: Row)
    requires total > 0 && row.share == (amount * row.due) / total
    requires row.remainder == JsRemainder(amount * row.due, total)
    ensures 0 <= Part(amount, total, row) < total
    ensures Part(amount, total, row) == 0 <==> row.remainder == 0
    ensures amount * row.due >= 0 ==> row.remainder == Part(amount, total, row)
    ensures amount * row.due < 0 && row.remainder != 0 ==> row.remainder == Part(amount, total, row) - total
  {
    var n := amount * row.due;
    DivMod(n, total);
    if n < 0 {
      NegativeRemainder(n, total);
    }
  }

  lemma {:induction false} SumPartIs(amount: int, total: int, rows: seq<Row>)
    ensures Sum(Parts(amount, total, rows)) == amount * SumDue(rows) - SumShare(rows) * total
  {
    if rows == [] {
      assert Parts(amount, total, rows) == [];
    } else {
      assert Parts(amount, total, rows)[1..] == Parts(amount, total, rows[1..]);
      SumPartIs(amount, total, rows[1..]);
      MulAdd(rows[0].due, SumDue(rows[1..]), amount);
      MulAdd(rows[0].share, SumShare(rows[1..]), total);
    }
  }

  /** If only the first k parts are positive and none exceeds m, they add up to at most k * m. */
  lemma {:induction false} SumBound(parts: seq<int>, k: nat, m: int)
    requires m >= 0
    requires forall i :: 0 <= i < |parts| ==> 0 <= parts[i] <= (if i < k then m else 0)
    ensures 0 <= Sum(parts) <= k * m
  {
    if parts == [] {
      MulLe(0, k, m);
    } else {
      var k' := if k == 0 then 0 else k - 1;
      SumBound(parts[1..], k', m);
      MulSub(k, 1, m);
    }
  }

  lemma {:induction false} SumZero(parts: seq<int>)
    requires forall i :: 0 <= i < |parts| ==> 0 <= parts[i]
    ensures Sum(parts) >= 0
    ensures Sum(parts) == 0 ==> forall i :: 0 <= i < |parts| ==> parts[i] == 0
  {
    if parts != [] {
      SumZero(parts[1..]);
      assert forall i :: 0 < i < |parts| ==> parts[i] == parts[1..][i - 1];
    }
  }

  lemma AmountSign(amount: int, due: int)
    requires due > 0
    ensures amount >= 0 ==> amount * due >= 0
    ensures amount < 0 ==> amount * due < 0
  {}

  /** Remainder and mathematical part of the row at position i. */
  lemma RowFacts(amount: int, rows: seq<Row>, i: nat)
    requires Ranking(amount, rows) && i < |rows|
    ensures 0 <= Part(amount, SumDue(rows), rows[i]) < SumDue(rows)
    ensures Part(amount, SumDue(rows), rows[i]) == 0 <==> rows[i].remainder == 0
    ensures amount >= 0 ==> rows[i].remainder == Part(amount, SumDue(rows), rows[i])
    ensures amount < 0 && rows[i].remainder != 0 ==>
              rows[i].remainder == Part(amount, SumDue(rows), rows[i]) - SumDue(rows)
  {
    PartBounds(amount, SumDue(rows), rows[i]);
    AmountSign(amount, rows[i].due);
  }

  lemma LeftoverArithmetic(left: int, total: int, n: int, parts: int)
    requires total > 0 && left * total == parts && 0 <= parts <= n * (total - 1) && n > 0
    ensures 0 <= left < n
    ensures left == 0 <==> parts == 0
  {
    MulSub(total, 1, n);
    if left < 0 { MulLe(left, -1, total); }
    if left >= n { MulLe(n, left, total); }
    if left > 0 { MulLe(1, left, total); }
  }

  lemma PartsRange(amount: int, rows: seq<Row>)
    requires Ranking(amount, rows)
    ensures forall i :: 0 <= i < |rows| ==> 0 <= Parts(amount, SumDue(rows), rows)[i] <= SumDue(rows) - 1
    ensures forall i :: 0 <= i < |rows| ==> (Parts(amount, SumDue(rows), rows)[i] == 0 <==> rows[i].remainder == 0)
  {
    forall i | 0 <= i < |rows|
      ensures 0 <= Parts(amount, SumDue(rows), rows)[i] <= SumDue(rows) - 1
      ensures Parts(amount, SumDue(rows), rows)[i] == 0 <==> rows[i].remainder == 0
    {
      RowFacts(amount, rows, i);
    }
  }

  /** The units still to hand out after flooring: never negative, fewer than the zones, and none
      exactly when every proportion is a whole number. */
  lemma LeftoverRange(amount: int, rows: seq<Row>)
    requires Ranking(amount, rows)
    ensures 0 <= Leftover(amount, rows) < |rows|
    ensures Leftover(amount, rows) * SumDue(rows) == Sum(Parts(amount, SumDue(rows), rows))
    ensures Leftover(amount, rows) == 0 <==> forall i :: 0 <= i < |rows| ==> rows[i].remainder == 0
  {
    var total, left := SumDue(rows), Leftover(amount, rows);
    var parts := Parts(amount, total, rows);
    SumPartIs(amount, total, rows);
    MulSub(amount, SumShare(rows), total);
    PartsRange(amount, rows);
    SumBound(parts, |rows|, total - 1);
    LeftoverArithmetic(left, total, |rows|, Sum(parts));
    SumZero(parts);
    if forall i :: 0 <= i < |rows| ==> rows[i].remainder == 0 {
      SumBound(parts, 0, 0);
    }
  }

  // ---------------------------------------------------------------- conservation

  lemma {:induction false} SumOfBumped(rows: seq<Row>, k: nat, v: seq<int>)
    requires k <= |rows| == |v|
    requires forall i :: 0 <= i < |rows| ==> v[i] == rows[i].share + (if i < k then 1 else 0)
    ensures Sum(v) == SumShare(rows) + k
  {
    if rows != [] {
      var k' := if k == 0 then 0 else k - 1;
      forall i | 0 <= i < |rows[1..]|
        ensures v[1..][i] == rows[1..][i].share + (if i < k' then 1 else 0)
      {
        assert v[1..][i] == v[i + 1] && rows[1..][i] == rows[i + 1];
      }
      SumOfBumped(rows[1..], k', v[1..]);
    }
  }

  /** Every minor unit of the payment is credited, for every amount. */
  lemma Conservation(amount: int, rows: seq<Row>)
    requires Ranking(amount, rows)
    ensures Sum(Credits(amount, rows)) == amount
  {
    LeftoverRange(amount, rows);
    SumOfBumped(rows, Leftover(amount, rows), Credits(amount, rows));
  }

  // ---------------------------------------------------------------- the quota rule

  /** The credit is the floor or the ceiling of amount * due / total. */
  predicate WithinQuota(credit: int, amount: int, total: int, due: int) {
    (credit - 1) * total < amount * due < (credit + 1) * total
  }

  /** When a zone whose proportion is exact may still be handed a leftover unit: a negative amount
      ranks exact zones first, because `%` makes every other remainder negative. */
  ghost predicate ExactZoneRankedForUnit(amount: int, rows: seq<Row>) {
    amount < 0 &&
    (exists i :: 0 <= i < |rows| && rows[i].remainder == 0) &&
    (exists i :: 0 <= i < |rows| && rows[i].remainder != 0)
  }

  lemma TooFewParts(left: int, i: int, total: int)
    requires total > 0 && i >= 0 && left * total <= i * (total - 1)
    ensures left <= i
  {
    MulSub(total, 1, i);
    if left > i { MulLe(i + 1, left, total); MulAdd(i, 1, total); }
  }

  /** Unless a negative amount meets an exact zone, no exact zone is handed a unit. */
  lemma ExactZonesAreNotBumped(amount: int, rows: seq<Row>, i: nat)
    requires Ranking(amount, rows) && !ExactZoneRankedForUnit(amount, rows)
    requires i < |rows| && i < Leftover(amount, rows)
    ensures rows[i].remainder != 0
  {
    var total, left := SumDue(rows), Leftover(amount, rows);
    LeftoverRange(amount, rows);
    if rows[i].remainder == 0 {
      assert amount >= 0;
      PartsRange(amount, rows);
      forall j | i <= j < |rows| ensures rows[j].remainder == 0 {
        RowFacts(amount, rows, j);
        assert j > i ==> Ahead(rows[i], rows[j]);
      }
      SumBound(Parts(amount, total, rows), i, total - 1);
      TooFewParts(left, i, total);
      assert false;
    }
  }

  lemma QuotaOfCredit(total: int, amount: int, row: Row, bump: int)
    requires total > 0 && 0 <= bump <= 1 && 0 <= Part(amount, total, row) < total
    ensures WithinQuota(row.share + bump, amount, total, row.due) <==> !(bump == 1 && Part(amount, total, row) == 0)
  {
    assert (row.share + bump - 1) * total == row.share * total + (bump - 1) * total;
    assert (row.share + bump + 1) * total == row.share * total + (bump + 1) * total;
    if bump == 0 {
      assert (bump - 1) * total == -total && (bump + 1) * total == total;
    } else {
      assert (bump - 1) * total == 0 && (bump + 1) * total == 2 * total;
    }
  }

  /** The quota rule holds of every zone exactly when no negative amount meets an exact zone;
      in particular it holds of every payment, whose amount is positive. */
  lemma QuotaRule(amount: int, rows: seq<Row>)
    requires Ranking(amount, rows)
    ensures (forall i :: 0 <= i < |rows| ==> WithinQuota(Credit(amount, rows, i), amount, SumDue(rows), rows[i].due))
      <==> !ExactZoneRankedForUnit(amount, rows)
  {
    var total, left := SumDue(rows), Leftover(amount, rows);
    LeftoverRange(amount, rows);
    forall i | 0 <= i < |rows|
      ensures WithinQuota(Credit(amount, rows, i), amount, total, rows[i].due)
        <==> !(i < left && rows[i].remainder == 0)
    {
      RowFacts(amount, rows, i);
      QuotaOfCredit(total, amount, rows[i], if i < left then 1 else 0);
    }
    if ExactZoneRankedForUnit(amount, rows) {
      var i :| 0 <= i < |rows| && rows[i].remainder == 0;
      RowFacts(amount, rows, 0);
      assert i > 0 ==> Ahead(rows[0], rows[i]);
      assert rows[0].remainder == 0;
      assert left > 0;
      assert !WithinQuota(Credit(amount, rows, 0), amount, total, rows[0].due);
    } else {
      forall i | 0 <= i < |rows| && i < left ensures rows[i].remainder != 0 {
        ExactZonesAreNotBumped(amount, rows, i);
      }
    }
  }

  // ---------------------------------------------------------------- optimality

  lemma SlopeValue(total: int, theta: int, k: int, bump: int)
    requires 0 <= bump <= 1
    ensures (total - 2 * theta) * (k - bump)
         == k * total - 2 * (theta * k) - (if bump == 1 then total - 2 * theta else 0)
    ensures bump * total == if bump == 1 then total else 0
  {
    MulSub(k, bump, total - 2 * theta);
    MulSub(total, 2 * theta, k);
  }

  /** |k * total - r| is convex in k; its slopes around the step from 0 to 1 admit total - 2 * theta. */
  lemma ConvexCost(total: int, r: int, bump: int, theta: int, k: int)
    requires total > 0 && 0 <= bump <= 1 && 0 <= theta <= total && 0 <= r < total
    requires if bump == 1 then theta <= r else r <= theta
    ensures Abs(k * total - r) >= Abs(bump * total - r) + (total - 2 * theta) * (k - bump)
  {
    if k <= 0 {
      NonPositiveStep(total, theta, k);
    } else {
      PositiveStep(total, theta, k);
    }
    SlopeValue(total, theta, k, bump);
    LinearCost(total, r, bump, theta, k, k * total, theta * k);
  }

  lemma LinearCost(total: int, r: int, bump: int, theta: int, k: int, kt: int, tk: int)
    requires total > 0 && 0 <= bump <= 1 && 0 <= theta <= total && 0 <= r < total
    requires if bump == 1 then theta <= r else r <= theta
    requires if k <= 0 then kt <= tk <= 0 else kt >= total && tk >= theta
    ensures Abs(kt - r) >= Abs((if bump == 1 then total else 0) - r)
                           + (kt - 2 * tk - (if bump == 1 then total - 2 * theta else 0))
  {}

  lemma NonPositiveStep(total: int, theta: int, k: int)
    requires 0 <= theta <= total && k <= 0
    ensures k * total <= theta * k <= 0
  {
    MulLe(theta, total, -k);
    MulLe(0, theta, -k);
    assert theta * (-k) == -(theta * k) && total * (-k) == -(k * total);
  }

  lemma PositiveStep(total: int, theta: int, k: int)
    requires 0 <= theta <= total && k >= 1
    ensures k * total >= total && theta * k >= theta
  {
    MulLe(1, k, total);
    MulLe(1, k, theta);
  }

  /** The cost of giving a zone z units lies above the line of slope total - 2 * theta through its
      credit, whenever theta separates the remainders of bumped and unbumped zones. */
  lemma SupportingSlope(amount: int, total: int, row: Row, bump: int, theta: int, z: int)
    requires total > 0 && 0 <= bump <= 1 && 0 <= theta <= total
    requires 0 <= Part(amount, total, row) < total
    requires if bump == 1 then theta <= Part(amount, total, row) else Part(amount, total, row) <= theta
    ensures Abs(z * total - amount * row.due) >=
            Abs((row.share + bump) * total - amount * row.due)
            + (total - 2 * theta) * (z - (row.share + bump))
  {
    var r := Part(amount, total, row);
    MulSub(z, row.share, total);
    MulAdd(row.share, bump, total);
    ConvexCost(total, r, bump, theta, z - row.share);
  }

  lemma {:induction false} DeviationAboveLine(
    amount: int, total: int, rows: seq<Row>, k: nat, theta: int, x: seq<int>, y: seq<int>)
    requires Quotas(amount, total, rows) && 0 <= theta <= total && |x| == |y| == |rows|
    requires forall i :: 0 <= i < |rows| ==> x[i] == rows[i].share + (if i < k then 1 else 0)
    requires forall i :: 0 <= i < |rows| ==>
      if i < k then theta <= Part(amount, total, rows[i]) else Part(amount, total, rows[i]) <= theta
    ensures Deviation(y, amount, total, rows) >=
            Deviation(x, amount, total, rows) + (total - 2 * theta) * (Sum(y) - Sum(x))
  {
    if rows != [] {
      var k' := if k == 0 then 0 else k - 1;
      forall i | 0 <= i < |rows[1..]|
        ensures rows[1..][i] == rows[i + 1] && x[1..][i] == x[i + 1]
      {}
      DeviationAboveLine(amount, total, rows[1..], k', theta, x[1..], y[1..]);
      PartBounds(amount, total, rows[0]);
      SupportingSlope(amount, total, rows[0], if 0 < k then 1 else 0, theta, y[0]);
      MulAdd(y[0] - x[0], Sum(y[1..]) - Sum(x[1..]), total - 2 * theta);
    }
  }

  /** The remainder of the last zone that was handed a unit separates the two groups. */
  lemma Threshold(amount: int, rows: seq<Row>) returns (theta: int)
    requires Ranking(amount, rows) && !ExactZoneRankedForUnit(amount, rows)
    ensures 0 <= theta <= SumDue(rows)
    ensures forall i :: 0 <= i < |rows| ==>
      if i < Leftover(amount, rows) then theta <= Part(amount, SumDue(rows), rows[i])
      else Part(amount, SumDue(rows), rows[i]) <= theta
  {
    var left := Leftover(amount, rows);
    LeftoverRange(amount, rows);
    forall i | 0 <= i < |rows|
      ensures rows[i].remainder == 0 ==> Part(amount, SumDue(rows), rows[i]) == 0
    {
      RowFacts(amount, rows, i);
    }
    if left == 0 {
      theta := 0;
    } else {
      theta := Part(amount, SumDue(rows), rows[left - 1]);
      RowFacts(amount, rows, left - 1);
      assert exists i :: 0 <= i < |rows| && rows[i].remainder != 0;
      forall i | 0 <= i < |rows|
        ensures if i < left then theta <= Part(amount, SumDue(rows), rows[i])
                else Part(amount, SumDue(rows), rows[i]) <= theta
      {
        RowFacts(amount, rows, i);
        assert i < left - 1 ==> Ahead(rows[i], rows[left - 1]);
        assert left - 1 < i ==> Ahead(rows[left - 1], rows[i]);
      }
    }
  }

  lemma CreditsAreClosest(amount: int, rows: seq<Row>, y: seq<int>)
    requires Ranking(amount, rows) && !ExactZoneRankedForUnit(amount, rows)
    requires |y| == |rows| && Sum(y) == amount
    ensures Deviation(Credits(amount, rows), amount, SumDue(rows), rows)
         <= Deviation(y, amount, SumDue(rows), rows)
  {
    var theta := Threshold(amount, rows);
    LeftoverRange(amount, rows);
    Conservation(amount, rows);
    DeviationAboveLine(amount, SumDue(rows), rows, Leftover(amount, rows), theta, Credits(amount, rows), y);
    NoShift(SumDue(rows) - 2 * theta, Sum(y) - Sum(Credits(amount, rows)));
  }

  lemma NoShift(slope: int, shift: int)
    requires shift == 0
    ensures slope * shift == 0
  {}

  lemma {:induction false} ReplaceOne(v: seq<int>, i: nat, z: int, amount: int, total: int, rows: seq<Row>)
    requires i < |v| == |rows|
    ensures Sum(v[i := z]) == Sum(v) - v[i] + z
    ensures Deviation(v[i := z], amount, total, rows) == Deviation(v, amount, total, rows)
      - Abs(v[i] * total - amount * rows[i].due) + Abs(z * total - amount * rows[i].due)
  {
    if i == 0 {
      assert v[0 := z][1..] == v[1..];
    } else {
      assert v[i := z][1..] == v[1..][i - 1 := z];
      ReplaceOne(v[1..], i - 1, z, amount, total, rows[1..]);
    }
  }

  /** A unit handed to an exact zone is better given to the last zone of the ranking. */
  lemma CloserDivision(amount: int, rows: seq<Row>) returns (y: seq<int>)
    requires Ranking(amount, rows) && ExactZoneRankedForUnit(amount, rows)
    ensures |y| == |rows| && Sum(y) == amount
    ensures Deviation(y, amount, SumDue(rows), rows)
          < Deviation(Credits(amount, rows), amount, SumDue(rows), rows)
  {
    var total, last, x := SumDue(rows), |rows| - 1, Credits(amount, rows);
    LeftoverRange(amount, rows);
    Conservation(amount, rows);
    forall i | 0 <= i < |rows|
      ensures i > 0 ==> Ahead(rows[0], rows[i])
      ensures i < last ==> Ahead(rows[i], rows[last])
      ensures rows[i].remainder <= 0
    {
      RowFacts(amount, rows, i);
    }
    RowFacts(amount, rows, 0);
    RowFacts(amount, rows, last);
    var y0 := x[0 := rows[0].share];
    ReplaceOne(x, 0, rows[0].share, amount, total, rows);
    y := y0[last := rows[last].share + 1];
    ReplaceOne(y0, last, rows[last].share + 1, amount, total, rows);
    MulAdd(rows[0].share, 1, total);
    MulAdd(rows[last].share, 1, total);
  }

  /** No other division of the amount into whole units deviates less. */
  ghost predicate Closest(amount: int, rows: seq<Row>) {
    forall y: seq<int> | |y| == |rows| && Sum(y) == amount ::
      Deviation(Credits(amount, rows), amount, SumDue(rows), rows) <= Deviation(y, amount, SumDue(rows), rows)
  }

  /** No division of the payment into whole units is closer to the exact proportions, exactly when
      no negative amount meets an exact zone. */
  lemma Optimality(amount: int, rows: seq<Row>)
    requires Ranking(amount, rows)
    ensures Closest(amount, rows) <==> !ExactZoneRankedForUnit(amount, rows)
  {
    if ExactZoneRankedForUnit(amount, rows) {
      var y := CloserDivision(amount, rows);
    } else {
      forall y: seq<int> | |y| == |rows| && Sum(y) == amount
        ensures Deviation(Credits(amount, rows), amount, SumDue(rows), rows)
             <= Deviation(y, amount, SumDue(rows), rows)
      {
        CreditsAreClosest(amount, rows, y);
      }
    }
  }

  // ---------------------------------------------------------------- credit and due

  /** Such an amount: -2 over dues of 2, 1 and 1 gives the zone whose proportion is exactly -1 nothing. */
  lemma NegativeAmount() returns (rows: seq<Row>)
    ensures Ranking(-2, rows) && ExactZoneRankedForUnit(-2, rows)
    ensures rows[0].due * -2 == -1 * SumDue(rows) && Credit(-2, rows, 0) == 0
  {
    rows := [Row("a", 2, -1, 0), Row("b", 1, -1, -2), Row("c", 1, -1, -2)];
    assert rows[1..] == [Row("b", 1, -1, -2), Row("c", 1, -1, -2)] && rows[1..][1..] == [Row("c", 1, -1, -2)];
    assert rows[1..][1..][1..] == [];
    assert SumDue(rows) == 4 && SumShare(rows) == -3;
    assert Precedes("b", "c");
  }

  lemma ShareAtMostDue(amount: int, total: int, due: int, share: int, part: int)
    requires amount * due == share * total + part && 0 <= part < total && 0 <= amount <= total && due > 0
    ensures 0 <= share <= due && (part > 0 ==> share < due)
  {
    MulLe(amount, total, due);
    MulLe(0, amount, due);
    if share < 0 { MulLe(share, -1, total); }
    if share > due { MulLe(due + 1, share, total); MulAdd(due, 1, total); }
  }

  /** A payment that does not exceed what the period owes credits no zone above its own due. */
  lemma NoOverCredit(amount: int, rows: seq<Row>, i: nat)
    requires Ranking(amount, rows) && 0 <= amount <= SumDue(rows) && i < |rows|
    ensures 0 <= Credit(amount, rows, i) <= rows[i].due
  {
    RowFacts(amount, rows, i);
    ShareAtMostDue(amount, SumDue(rows), rows[i].due, rows[i].share, Part(amount, SumDue(rows), rows[i]));
    if i < Leftover(amount, rows) {
      ExactZonesAreNotBumped(amount, rows, i);
    }
  }

  lemma ShareOrder(amount: int, total: int, d1: int, s1: int, r1: int, d2: int, s2: int, r2: int)
    requires amount * d1 == s1 * total + r1 && amount * d2 == s2 * total + r2
    requires 0 <= r1 < total && 0 <= r2 < total && amount > 0 && d1 > d2
    ensures s1 > s2 || (s1 == s2 && r1 > r2)
  {
    MulLe(1, d1 - d2, amount);
    MulSub(d1, d2, amount);
    if s1 < s2 { MulLe(s1 + 1, s2, total); MulAdd(s1, 1, total); }
  }

  /** A zone that owes more never receives less. */
  lemma Monotone(amount: int, rows: seq<Row>, i: nat, j: nat)
    requires Ranking(amount, rows) && amount >= 0 && i < |rows| && j < |rows|
    requires rows[i].due > rows[j].due
    ensures Credit(amount, rows, i) >= Credit(amount, rows, j)
  {
    var total := SumDue(rows);
    RowFacts(amount, rows, i);
    RowFacts(amount, rows, j);
    LeftoverRange(amount, rows);
    if amount == 0 {
      forall k | 0 <= k < |rows| ensures rows[k].remainder == 0 && rows[k].share == 0 {
        assert amount * rows[k].due == 0;
      }
    } else {
      ShareOrder(amount, total, rows[i].due, rows[i].share, Part(amount, total, rows[i]),
                 rows[j].due, rows[j].share, Part(amount, total, rows[j]));
      if j < i { assert Ahead(rows[j], rows[i]); }
    }
  }
}
