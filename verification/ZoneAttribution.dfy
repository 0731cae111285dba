/** Attribution of external payments to the zones their settlement period's lines come from. */
module ZoneAttribution {
  import opened Sums
  import opened Collation
  import opened JsNumbers
  import opened Apportionment

  datatype Line = Line(periodId: string, zoneId: string, amount: int, courierId: string, occurredAt: int)

  datatype Allocation = Allocation(periodId: string, paymentId: string, amount: int, paidAt: int, courierId: string)

  datatype Attributed = Attributed(allocation: Allocation, zoneId: string, credit: int)

  // ---------------------------------------------------------------- what the lines say

  function PeriodLines(lines: seq<Line>, periodId: string): seq<Line> {
    if lines == [] then []
    else
      var rest := PeriodLines(lines[..|lines| - 1], periodId);
      if lines[|lines| - 1].periodId == periodId then rest + [lines[|lines| - 1]] else rest
  }

  function AmountFor(zoneId: string): Line -> int {
    (line: Line) => if line.zoneId == zoneId then line.amount else 0
  }

  /** The balance of a zone over some lines. */
  function Balance(lines: seq<Line>, zoneId: string): int {
    SumBy(lines, AmountFor(zoneId))
  }

  /** The balance of a zone in a period. */
  function Due(lines: seq<Line>, periodId: string, zoneId: string): int {
    Balance(PeriodLines(lines, periodId), zoneId)
  }

  function Zones(rows: seq<Row>): set<string> {
    set r | r in rows :: r.zoneId
  }

  ghost predicate CarriesDues(lines: seq<Line>, periodId: string, rows: seq<Row>) {
    forall r :: r in rows ==> r.due == Due(lines, periodId, r.zoneId)
  }

  /** Rows for exactly the zones with a positive balance in the period, each carrying that balance,
      its floored proportion and remainder, in the order of the sort. */
  ghost predicate Ranked(lines: seq<Line>, a: Allocation, rows: seq<Row>) {
    CarriesDues(lines, a.periodId, rows) &&
    (forall z :: z in Zones(rows) <==> Due(lines, a.periodId, z) > 0) &&
    DistinctZones(rows) &&
    (rows != [] ==> Ranking(a.amount, rows))
  }

  /** The records emitted for one allocation. */
  function Block(a: Allocation, rows: seq<Row>): seq<Attributed> {
    seq(|rows|, i requires 0 <= i < |rows| => Attributed(a, rows[i].zoneId, Credit(a.amount, rows, i)))
  }

  /** The output for all allocations, in order. */
  function Blocks(allocations: seq<Allocation>, rankings: seq<seq<Row>>): seq<Attributed>
    requires |allocations| == |rankings|
  {
    if allocations == [] then []
    else
      var n := |allocations| - 1;
      Blocks(allocations[..n], rankings[..n]) + Block(allocations[n], rankings[n])
  }

  ghost predicate AllRanked(lines: seq<Line>, allocations: seq<Allocation>, rankings: seq<seq<Row>>) {
    |rankings| == |allocations| &&
    forall i :: 0 <= i < |allocations| ==> Ranked(lines, allocations[i], rankings[i])
  }

  /** The block, or the whole output, that the specification asks for. */
  ghost predicate IsBlock(lines: seq<Line>, a: Allocation, block: seq<Attributed>) {
    exists ranking :: Ranked(lines, a, ranking) && block == Block(a, ranking)
  }

  ghost predicate IsAttribution(lines: seq<Line>, allocations: seq<Allocation>, output: seq<Attributed>) {
    exists rankings :: AllRanked(lines, allocations, rankings) && output == Blocks(allocations, rankings)
  }

  // ---------------------------------------------------------------- order independence

  function Pairs(rows: seq<Row>): seq<(string, int)> {
    seq(|rows|, i requires 0 <= i < |rows| => (rows[i].zoneId, rows[i].due))
  }

  function Second(): ((string, int)) -> int {
    (p: (string, int)) => p.1
  }

  lemma {:induction false} SumDueOfPairs(rows: seq<Row>)
    ensures SumDue(rows) == SumBy(Pairs(rows), Second())
  {
    if rows != [] {
      SumDueOfPairs(rows[1..]);
      assert Pairs(rows)[1..] == Pairs(rows[1..]);
    }
  }

  lemma PairsOf(lines: seq<Line>, periodId: string, rows: seq<Row>)
    requires CarriesDues(lines, periodId, rows) && DistinctZones(rows)
    ensures NoDuplicates(Pairs(rows))
    ensures forall p :: p in Pairs(rows) <==> p.0 in Zones(rows) && p.1 == Due(lines, periodId, p.0)
  {
    var pairs := Pairs(rows);
    forall p ensures p in pairs <==> p.0 in Zones(rows) && p.1 == Due(lines, periodId, p.0) {
      if p in pairs {
        var i :| 0 <= i < |pairs| && pairs[i] == p;
        assert rows[i] in rows;
      }
      if p.0 in Zones(rows) && p.1 == Due(lines, periodId, p.0) {
        var r :| r in rows && r.zoneId == p.0;
        var i :| 0 <= i < |rows| && rows[i] == r;
        assert pairs[i] == p;
      }
    }
  }

  /** Rows over the same zones with the same dues have the same total. */
  lemma SameTotal(lines: seq<Line>, periodId: string, p: seq<Row>, q: seq<Row>)
    requires DistinctZones(p) && DistinctZones(q) && Zones(p) == Zones(q)
    requires CarriesDues(lines, periodId, p) && CarriesDues(lines, periodId, q)
    ensures SumDue(p) == SumDue(q) && |p| == |q|
  {
    SumDueOfPairs(p);
    SumDueOfPairs(q);
    PairsOf(lines, periodId, p);
    PairsOf(lines, periodId, q);
    SameElements(Pairs(p), Pairs(q));
    Permutation(Pairs(p), Pairs(q), Second());
  }

  lemma AheadAsymmetric(a: Row, b: Row)
    requires Ahead(a, b)
    ensures !Ahead(b, a)
  {
    if a.remainder == b.remainder && Precedes(b.zoneId, a.zoneId) {
      Transitive(a.zoneId, b.zoneId, a.zoneId);
      Irreflexive(a.zoneId);
    }
  }

  lemma AheadTransitive(a: Row, b: Row, c: Row)
    requires Ahead(a, b) && Ahead(b, c)
    ensures Ahead(a, c)
  {
    if a.remainder == b.remainder == c.remainder {
      Transitive(a.zoneId, b.zoneId, c.zoneId);
    }
  }

  lemma FirstIsSame(p: seq<Row>, q: seq<Row>)
    requires Sorted(p) && Sorted(q) && p != [] && q != []
    requires p[0] in q && q[0] in p
    ensures p[0] == q[0]
  {
    if p[0] != q[0] {
      AheadAsymmetric(p[0], q[0]);
    }
  }

  lemma TailElements(p: seq<Row>, r: Row)
    requires Sorted(p) && p != []
    ensures r in p[1..] <==> r in p && r != p[0]
  {
    if p[0] in p[1..] {
      AheadAsymmetric(p[0], p[0]);
    }
  }

  /** A strictly sorted sequence is determined by its elements. */
  lemma {:induction false} SortedUnique(p: seq<Row>, q: seq<Row>)
    requires Sorted(p) && Sorted(q) && |p| == |q|
    requires forall r :: r in p <==> r in q
    ensures p == q
    decreases |p|
  {
    if p != [] {
      assert p[0] in q;
      assert q[0] in p;
      FirstIsSame(p, q);
      forall r ensures r in p[1..] <==> r in q[1..] {
        TailElements(p, r);
        TailElements(q, r);
      }
      SortedUnique(p[1..], q[1..]);
      assert p == [p[0]] + p[1..] && q == [q[0]] + q[1..];
    }
  }

  lemma RowsIncluded(lines: seq<Line>, periodId: string, amount: int, p: seq<Row>, q: seq<Row>, r: Row)
    requires Ranking(amount, p) && Ranking(amount, q) && SumDue(p) == SumDue(q) && Zones(p) == Zones(q)
    requires CarriesDues(lines, periodId, p) && CarriesDues(lines, periodId, q)
    requires r in p
    ensures r in q
  {
    assert r.zoneId in Zones(q);
    var r' :| r' in q && r'.zoneId == r.zoneId;
    var i :| 0 <= i < |p| && p[i] == r;
    var j :| 0 <= j < |q| && q[j] == r';
    assert r.due == r'.due;
    assert r == r';
  }

  /** The ranking of an allocation is determined by the balances of its period's zones. */
  lemma RankingUnique(lines: seq<Line>, a: Allocation, p: seq<Row>, q: seq<Row>)
    requires Ranked(lines, a, p) && Ranked(lines, a, q)
    ensures p == q
  {
    forall z ensures z in Zones(p) <==> z in Zones(q) {}
    SameTotal(lines, a.periodId, p, q);
    if p != [] {
      forall r ensures r in p <==> r in q {
        if r in p { RowsIncluded(lines, a.periodId, a.amount, p, q, r); }
        if r in q { RowsIncluded(lines, a.periodId, a.amount, q, p, r); }
      }
      SortedUnique(p, q);
    }
  }

  /** Neither the order of the lines nor lines of other periods change the records of an allocation. */
  lemma OrderIndependence(lines: seq<Line>, lines': seq<Line>, a: Allocation, rows: seq<Row>, rows': seq<Row>)
    requires Ranked(lines, a, rows) && Ranked(lines', a, rows')
    requires multiset(PeriodLines(lines, a.periodId)) == multiset(PeriodLines(lines', a.periodId))
    ensures Block(a, rows) == Block(a, rows')
  {
    forall z: string ensures Due(lines, a.periodId, z) == Due(lines', a.periodId, z) {
      Permutation(PeriodLines(lines, a.periodId), PeriodLines(lines', a.periodId), AmountFor(z));
    }
    assert Ranked(lines, a, rows');
    RankingUnique(lines, a, rows, rows');
  }

  /** For every period paid for, the same lines in some order. */
  ghost predicate SameLines(lines: seq<Line>, lines': seq<Line>, allocations: seq<Allocation>) {
    forall a :: a in allocations ==>
      multiset(PeriodLines(lines, a.periodId)) == multiset(PeriodLines(lines', a.periodId))
  }

  lemma {:induction false} SameBlocks(
    lines: seq<Line>, lines': seq<Line>, allocations: seq<Allocation>, p: seq<seq<Row>>, q: seq<seq<Row>>)
    requires AllRanked(lines, allocations, p) && AllRanked(lines', allocations, q)
    requires SameLines(lines, lines', allocations)
    ensures Blocks(allocations, p) == Blocks(allocations, q)
    decreases |allocations|
  {
    if allocations != [] {
      var n := |allocations| - 1;
      assert forall a :: a in allocations[..n] ==> a in allocations;
      assert AllRanked(lines, allocations[..n], p[..n]) && AllRanked(lines', allocations[..n], q[..n]);
      SameBlocks(lines, lines', allocations[..n], p[..n], q[..n]);
      OrderIndependence(lines, lines', allocations[n], p[n], q[n]);
    }
  }

  /** The output is determined by the allocations and, for each period, the multiset of its lines. */
  lemma OutputDetermined(
    lines: seq<Line>, lines': seq<Line>, allocations: seq<Allocation>, x: seq<Attributed>, y: seq<Attributed>)
    requires SameLines(lines, lines', allocations)
    ensures IsAttribution(lines, allocations, x) && IsAttribution(lines', allocations, y) ==> x == y
  {
    if IsAttribution(lines, allocations, x) && IsAttribution(lines', allocations, y) {
      var p :| AllRanked(lines, allocations, p) && x == Blocks(allocations, p);
      var q :| AllRanked(lines', allocations, q) && y == Blocks(allocations, q);
      SameBlocks(lines, lines', allocations, p, q);
    }
  }

  // ---------------------------------------------------------------- every minor unit

  function CreditOf(): Attributed -> int {
    (x: Attributed) => x.credit
  }

  lemma {:induction false} SumOfCredits(block: seq<Attributed>, credits: seq<int>)
    requires |block| == |credits| && forall i :: 0 <= i < |block| ==> block[i].credit == credits[i]
    ensures SumBy(block, CreditOf()) == Sum(credits)
  {
    if block != [] {
      SumOfCredits(block[1..], credits[1..]);
    }
  }

  /** An allocation is credited in full when some zone of its period owes something, and not at all
      otherwise; with a payment no larger than what the period owes, no zone gets more than its due. */
  lemma EveryUnitAttributed(lines: seq<Line>, a: Allocation, rows: seq<Row>)
    requires Ranked(lines, a, rows)
    ensures SumBy(Block(a, rows), CreditOf())
         == if exists z: string :: Due(lines, a.periodId, z) > 0 then a.amount else 0
    ensures 0 <= a.amount <= SumDue(rows) ==>
      forall x :: x in Block(a, rows) ==> 0 <= x.credit <= Due(lines, a.periodId, x.zoneId)
  {
    if rows == [] {
      assert forall z: string :: z !in Zones(rows);
    } else {
      assert rows[0].zoneId in Zones(rows);
      Conservation(a.amount, rows);
      SumOfCredits(Block(a, rows), Credits(a.amount, rows));
      if 0 <= a.amount <= SumDue(rows) {
        forall i | 0 <= i < |rows|
          ensures 0 <= Block(a, rows)[i].credit <= Due(lines, a.periodId, Block(a, rows)[i].zoneId)
        {
          NoOverCredit(a.amount, rows, i);
          assert rows[i] in rows;
        }
      }
    }
  }

  // ---------------------------------------------------------------- who gets the odd unit

  /** What the period's zones in the records owe together. */
  function OwedTogether(lines: seq<Line>, a: Allocation, block: seq<Attributed>): int {
    SumBy(block, DueOfRecord(lines, a))
  }

  function DueOfRecord(lines: seq<Line>, a: Allocation): Attributed -> int {
    (x: Attributed) => Due(lines, a.periodId, x.zoneId)
  }

  lemma {:induction false} SameDues(lines: seq<Line>, a: Allocation, rows: seq<Row>, block: seq<Attributed>)
    requires |block| == |rows| && forall i :: 0 <= i < |rows| ==> rows[i].due == DueOfRecord(lines, a)(block[i])
    ensures SumDue(rows) == OwedTogether(lines, a, block)
  {
    if rows != [] {
      SameDues(lines, a, rows[1..], block[1..]);
    }
  }

  lemma RecordsAreRows(lines: seq<Line>, a: Allocation, rows: seq<Row>, i: nat)
    requires Ranked(lines, a, rows) && i < |rows|
    ensures OwedTogether(lines, a, Block(a, rows)) == SumDue(rows) > 0
    ensures rows[i].due == Due(lines, a.periodId, rows[i].zoneId)
    ensures rows[i].share == (a.amount * rows[i].due) / SumDue(rows)
    ensures rows[i].remainder == JsRemainder(a.amount * rows[i].due, SumDue(rows))
  {
    forall j | 0 <= j < |rows| ensures rows[j].due == DueOfRecord(lines, a)(Block(a, rows)[j]) {
      assert rows[j] in rows;
    }
    SameDues(lines, a, rows, Block(a, rows));
  }

  /** Of two records of one allocation the earlier has the larger remainder or, on a tie, the id that comes
      first; each credit is the floored proportion or one more, and the earlier gets its extra unit first. */
  lemma OddUnits(lines: seq<Line>, a: Allocation, block: seq<Attributed>, i: nat, j: nat)
    requires IsBlock(lines, a, block) && i < j < |block|
    ensures var total := OwedTogether(lines, a, block);
            var dueI, dueJ := Due(lines, a.periodId, block[i].zoneId), Due(lines, a.periodId, block[j].zoneId);
            total > 0 && block[i].allocation == a == block[j].allocation &&
            var extraI := block[i].credit - a.amount * dueI / total;
            var extraJ := block[j].credit - a.amount * dueJ / total;
            var remainderI := JsRemainder(a.amount * dueI, total);
            var remainderJ := JsRemainder(a.amount * dueJ, total);
            0 <= extraJ <= extraI <= 1 &&
            (remainderI > remainderJ ||
             (remainderI == remainderJ && ComesFirst(block[i].zoneId, block[j].zoneId)))
  {
    var rows: seq<Row> :| Ranked(lines, a, rows) && block == Block(a, rows);
    RecordsAreRows(lines, a, rows, i);
    RecordsAreRows(lines, a, rows, j);
    assert Ahead(rows[i], rows[j]);
    FirstDifferenceDecides(rows[i].zoneId, rows[j].zoneId);
  }

  lemma ComesFirstOneWay(a: string, b: string)
    requires ComesFirst(a, b)
    ensures !ComesFirst(b, a)
  {
    FirstDifferenceDecides(a, b);
    FirstDifferenceDecides(b, a);
    if Precedes(b, a) {
      Transitive(a, b, a);
      Irreflexive(a);
    }
  }

  /** Of two zones that owe the same, the one whose id comes first is credited at least as much. */
  lemma TiesGoToFirstId(lines: seq<Line>, a: Allocation, block: seq<Attributed>, x: Attributed, y: Attributed)
    requires IsBlock(lines, a, block) && x in block && y in block
    requires Due(lines, a.periodId, x.zoneId) == Due(lines, a.periodId, y.zoneId) && ComesFirst(x.zoneId, y.zoneId)
    ensures x.credit >= y.credit
  {
    var i: nat :| i < |block| && block[i] == x;
    var j: nat :| j < |block| && block[j] == y;
    ComesFirstOneWay(x.zoneId, y.zoneId);
    if i < j {
      OddUnits(lines, a, block, i, j);
    } else if j < i {
      OddUnits(lines, a, block, j, i);
    }
  }

  /** The output is one block for each allocation, in the allocations' order. */
  ghost predicate InOrder(lines: seq<Line>, allocations: seq<Allocation>, output: seq<Attributed>)
    decreases |allocations|
  {
    if allocations == [] then output == []
    else exists cut: nat :: StartsLast(lines, allocations, output, cut)
  }

  ghost predicate StartsLast(lines: seq<Line>, allocations: seq<Allocation>, output: seq<Attributed>, cut: nat)
    requires allocations != []
    decreases |allocations|, 0
  {
    cut <= |output| && InOrder(lines, allocations[..|allocations| - 1], output[..cut]) &&
    IsBlock(lines, allocations[|allocations| - 1], output[cut..])
  }

  lemma {:induction false} OutputInOrder(lines: seq<Line>, allocations: seq<Allocation>, output: seq<Attributed>)
    requires IsAttribution(lines, allocations, output)
    ensures InOrder(lines, allocations, output)
    decreases |allocations|
  {
    var rankings: seq<seq<Row>> :| AllRanked(lines, allocations, rankings) && output == Blocks(allocations, rankings);
    if allocations != [] {
      var n := |allocations| - 1;
      var before := Blocks(allocations[..n], rankings[..n]);
      assert AllRanked(lines, allocations[..n], rankings[..n]);
      OutputInOrder(lines, allocations[..n], before);
      assert output[..|before|] == before && output[|before|..] == Block(allocations[n], rankings[n]);
      assert StartsLast(lines, allocations, output, |before|);
    }
  }

  /** What can be attributed of some allocations: all of those whose period has a zone that owes something. */
  ghost function Attributable(lines: seq<Line>, allocations: seq<Allocation>): int {
    if allocations == [] then 0
    else
      var n := |allocations| - 1;
      Attributable(lines, allocations[..n])
      + if exists z: string :: Due(lines, allocations[n].periodId, z) > 0 then allocations[n].amount else 0
  }

  lemma {:induction false} BlocksConserve(lines: seq<Line>, allocations: seq<Allocation>, rankings: seq<seq<Row>>)
    requires AllRanked(lines, allocations, rankings)
    ensures SumBy(Blocks(allocations, rankings), CreditOf()) == Attributable(lines, allocations)
    decreases |allocations|
  {
    if allocations != [] {
      var n := |allocations| - 1;
      BlocksConserve(lines, allocations[..n], rankings[..n]);
      EveryUnitAttributed(lines, allocations[n], rankings[n]);
      Concat(Blocks(allocations[..n], rankings[..n]), Block(allocations[n], rankings[n]), CreditOf());
    }
  }

  /** The whole output accounts for every minor unit of every payment that some zone can take. */
  lemma OutputConserves(lines: seq<Line>, allocations: seq<Allocation>, output: seq<Attributed>)
    requires IsAttribution(lines, allocations, output)
    ensures SumBy(output, CreditOf()) == Attributable(lines, allocations)
  {
    var rankings :| AllRanked(lines, allocations, rankings) && output == Blocks(allocations, rankings);
    BlocksConserve(lines, allocations, rankings);
  }

  // ---------------------------------------------------------------- the code

  /** One step of `Array.prototype.sort` with the comparator of the ranking. */
  method Insert(rows: seq<Row>, row: Row) returns (out: seq<Row>)
    requires Sorted(rows)
    requires forall r :: r in rows ==> r.zoneId != row.zoneId
    ensures Sorted(out) && multiset(out) == multiset(rows) + multiset{row}
  {
    var k := 0;
    while k < |rows| && Ahead(rows[k], row)
      invariant 0 <= k <= |rows|
      invariant forall j :: 0 <= j < k ==> Ahead(rows[j], row)
    {
      k := k + 1;
    }
    InsertSorted(rows, row, k);
    assert rows == rows[..k] + rows[k..];
    out := rows[..k] + [row] + rows[k..];
  }

  lemma InsertSorted(rows: seq<Row>, row: Row, k: nat)
    requires Sorted(rows) && k <= |rows|
    requires forall r :: r in rows ==> r.zoneId != row.zoneId
    requires forall j :: 0 <= j < k ==> Ahead(rows[j], row)
    requires k < |rows| ==> !Ahead(rows[k], row)
    ensures Sorted(rows[..k] + [row] + rows[k..])
  {
    forall j | k <= j < |rows| ensures Ahead(row, rows[j]) {
      assert rows[k] in rows;
      Connected(rows[k].zoneId, row.zoneId);
      if j > k {
        AheadTransitive(row, rows[k], rows[j]);
      }
    }
  }

  /** `Array.prototype.sort`: the same rows, in the order of the ranking. */
  method Sort(unsorted: seq<Row>) returns (rows: seq<Row>)
    requires DistinctZones(unsorted)
    ensures Sorted(rows) && multiset(rows) == multiset(unsorted)
  {
    rows := [];
    for i := 0 to |unsorted|
      invariant Sorted(rows) && multiset(rows) == multiset(unsorted[..i])
    {
      forall r | r in rows ensures r.zoneId != unsorted[i].zoneId {
        assert r in multiset(unsorted[..i]);
      }
      rows := Insert(rows, unsorted[i]);
      assert unsorted[..i + 1] == unsorted[..i] + [unsorted[i]];
    }
    assert unsorted[..|unsorted|] == unsorted;
  }

  /** The lines of every period, in their order. */
  method GroupByPeriod(lines: seq<Line>) returns (linesByPeriod: map<string, seq<Line>>)
    ensures forall p: string ::
      PeriodLines(lines, p) == if p in linesByPeriod then linesByPeriod[p] else []
  {
    linesByPeriod := map[];
    for n := 0 to |lines|
      invariant forall p: string ::
        PeriodLines(lines[..n], p) == if p in linesByPeriod then linesByPeriod[p] else []
    {
      var line := lines[n];
      assert lines[..n + 1][..n] == lines[..n];
      var rows := if line.periodId in linesByPeriod then linesByPeriod[line.periodId] else [];
      linesByPeriod := linesByPeriod[line.periodId := rows + [line]];
    }
    assert lines[..|lines|] == lines;
  }

  /** The per-zone balances of a period's lines, with the zones in order of first appearance. */
  method DueByZone(periodLines: seq<Line>) returns (zones: seq<string>, dueByZone: map<string, int>)
    ensures NoDuplicates(zones)
    ensures forall z :: z in zones <==> z in dueByZone
    ensures forall z: string :: Balance(periodLines, z) == if z in dueByZone then dueByZone[z] else 0
  {
    zones, dueByZone := [], map[];
    for n := 0 to |periodLines|
      invariant NoDuplicates(zones)
      invariant forall z :: z in zones <==> z in dueByZone
      invariant forall z: string :: Balance(periodLines[..n], z) == if z in dueByZone then dueByZone[z] else 0
    {
      var line := periodLines[n];
      assert periodLines[..n + 1] == periodLines[..n] + [line];
      forall z: string
        ensures Balance(periodLines[..n + 1], z) == Balance(periodLines[..n], z) + AmountFor(z)(line)
      {
        Append(periodLines[..n], line, AmountFor(z));
      }
      var before := if line.zoneId in dueByZone then dueByZone[line.zoneId] else 0;
      if line.zoneId !in dueByZone {
        zones := zones + [line.zoneId];
      }
      dueByZone := dueByZone[line.zoneId := before + line.amount];
    }
    assert periodLines[..|periodLines|] == periodLines;
  }

  /** `map` and `filter`: the zones whose balance is positive. */
  method Positive(zones: seq<string>, dueByZone: map<string, int>) returns (positive: seq<(string, int)>)
    requires NoDuplicates(zones) && forall z :: z in zones ==> z in dueByZone
    ensures forall i, j :: 0 <= i < j < |positive| ==> positive[i].0 != positive[j].0
    ensures forall p :: p in positive <==> p.0 in zones && p.1 == dueByZone[p.0] && p.1 > 0
  {
    positive := [];
    for n := 0 to |zones|
      invariant forall i, j :: 0 <= i < j < |positive| ==> positive[i].0 != positive[j].0
      invariant forall p :: p in positive <==> p.0 in zones[..n] && p.1 == dueByZone[p.0] && p.1 > 0
    {
      var due := dueByZone[zones[n]];
      assert zones[..n + 1] == zones[..n] + [zones[n]];
      if due > 0 {
        forall p | p in positive ensures p.0 != zones[n] {
          var m :| 0 <= m < n && zones[..n][m] == p.0;
        }
        positive := positive + [(zones[n], due)];
      }
    }
    assert zones[..|zones|] == zones;
  }

  /** `reduce`: the total of the positive balances; zero only when there is none. */
  method Total(positive: seq<(string, int)>) returns (total: int)
    requires forall p :: p in positive ==> p.1 > 0
    ensures total == SumBy(positive, Second())
    ensures total >= 0 && (total == 0 <==> positive == [])
  {
    total := 0;
    for n := 0 to |positive|
      invariant total == SumBy(positive[..n], Second())
      invariant total >= 0 && (total == 0 <==> n == 0)
    {
      assert positive[..n + 1] == positive[..n] + [positive[n]];
      Append(positive[..n], positive[n], Second());
      assert positive[n] in positive;
      total := total + positive[n].1;
    }
    assert positive[..|positive|] == positive;
  }

  function Quotient(amount: int, total: int, zoneId: string, due: int): Row
    requires total > 0
  {
    Row(zoneId, due, (amount * due) / total, JsRemainder(amount * due, total))
  }

  /** The floored shares of the amount, before sorting. */
  method Apportion(amount: int, positive: seq<(string, int)>, total: int) returns (rows: seq<Row>)
    requires total == SumBy(positive, Second()) && total > 0
    requires forall i, j :: 0 <= i < j < |positive| ==> positive[i].0 != positive[j].0
    requires forall p :: p in positive ==> p.1 > 0
    ensures Pairs(rows) == positive
    ensures DistinctZones(rows) && Quotas(amount, SumDue(rows), rows) && SumDue(rows) == total
  {
    rows := seq(|positive|, i requires 0 <= i < |positive| =>
      Quotient(amount, total, positive[i].0, positive[i].1));
    assert Pairs(rows) == positive;
    SumDueOfPairs(rows);
    assert forall i :: 0 <= i < |positive| ==> positive[i] in positive;
  }

  lemma SortedQuotas(amount: int, unsorted: seq<Row>, rows: seq<Row>)
    requires Quotas(amount, SumDue(unsorted), unsorted) && DistinctZones(unsorted)
    requires Sorted(rows) && multiset(rows) == multiset(unsorted)
    ensures SumDue(rows) == SumDue(unsorted) && DistinctZones(rows) && Quotas(amount, SumDue(rows), rows)
  {
    SumDueIs(rows);
    SumDueIs(unsorted);
    Permutation(rows, unsorted, DueOf());
    forall i | 0 <= i < |rows| ensures exists j :: 0 <= j < |unsorted| && unsorted[j] == rows[i] {
      assert rows[i] in multiset(unsorted);
    }
    forall i, j | 0 <= i < j < |rows| ensures rows[i].zoneId != rows[j].zoneId {
      assert Ahead(rows[i], rows[j]);
      AheadAsymmetric(rows[i], rows[j]);
      var i' :| 0 <= i' < |unsorted| && unsorted[i'] == rows[i];
      var j' :| 0 <= j' < |unsorted| && unsorted[j'] == rows[j];
      assert i' != j';
    }
  }

  function DueOf(): Row -> int {
    (r: Row) => r.due
  }

  lemma {:induction false} SumDueIs(rows: seq<Row>)
    ensures SumDue(rows) == SumBy(rows, DueOf())
  {
    if rows != [] {
      SumDueIs(rows[1..]);
    }
  }

  /** The bump loop: hands out the leftover units one at a time from the front of the ranking. */
  method HandOut(amount: int, ranking: seq<Row>) returns (credits: seq<int>)
    requires Ranking(amount, ranking)
    ensures credits == Credits(amount, ranking)
  {
    LeftoverRange(amount, ranking);
    credits := seq(|ranking|, i requires 0 <= i < |ranking| => ranking[i].share);
    var remaining := Leftover(amount, ranking);
    var n := 0;
    while n < |ranking| && remaining > 0
      invariant 0 <= n <= |ranking| == |credits|
      invariant remaining == Leftover(amount, ranking) - n >= 0
      invariant forall i :: 0 <= i < |ranking| ==> credits[i] == ranking[i].share + (if i < n then 1 else 0)
    {
      credits := credits[n := credits[n] + 1];
      remaining := remaining - 1;
      n := n + 1;
    }
    assert remaining == 0;
  }

  /** The zones of one allocation with their floored shares, ranked; none when its period has no positive
      balance. */
  method RankZones(ghost lines: seq<Line>, periodLines: seq<Line>, a: Allocation) returns (ranking: seq<Row>)
    requires periodLines == PeriodLines(lines, a.periodId)
    ensures Ranked(lines, a, ranking)
  {
    var zones, dueByZone := DueByZone(periodLines);
    var positive := Positive(zones, dueByZone);
    var total := Total(positive);
    if total == 0 {
      assert forall z :: z in zones ==> (z, dueByZone[z]) !in positive;
      return [];
    }
    var apportioned := Apportion(a.amount, positive, total);
    ranking := Sort(apportioned);
    SortedQuotas(a.amount, apportioned, ranking);
    RankedFrom(lines, a, positive, apportioned, ranking);
  }

  /** The records of one allocation. */
  method AttributeOne(ghost lines: seq<Line>, periodLines: seq<Line>, a: Allocation)
    returns (block: seq<Attributed>)
    requires periodLines == PeriodLines(lines, a.periodId)
    ensures IsBlock(lines, a, block)
  {
    var sorted := RankZones(lines, periodLines, a);
    if sorted == [] {
      assert Block(a, []) == [];
      return [];
    }
    var credits := HandOut(a.amount, sorted);
    block := seq(|sorted|, i requires 0 <= i < |sorted| => Attributed(a, sorted[i].zoneId, credits[i]));
    assert block == Block(a, sorted);
  }

  lemma RankedFrom(lines: seq<Line>, a: Allocation, positive: seq<(string, int)>, unsorted: seq<Row>, rows: seq<Row>)
    requires forall z: string :: (z, Due(lines, a.periodId, z)) in positive <==> Due(lines, a.periodId, z) > 0
    requires forall p :: p in positive ==> p.1 == Due(lines, a.periodId, p.0)
    requires Pairs(unsorted) == positive && multiset(rows) == multiset(unsorted)
    ensures CarriesDues(lines, a.periodId, rows)
    ensures forall z :: z in Zones(rows) <==> Due(lines, a.periodId, z) > 0
  {
    forall r | r in rows ensures (r.zoneId, r.due) in positive {
      assert r in multiset(unsorted);
      var i :| 0 <= i < |unsorted| && unsorted[i] == r;
      assert positive[i] == (r.zoneId, r.due);
    }
    forall z | Due(lines, a.periodId, z) > 0 ensures z in Zones(rows) {
      var i :| 0 <= i < |positive| && positive[i] == (z, Due(lines, a.periodId, z));
      assert unsorted[i] in multiset(rows);
    }
  }

  lemma OneMore(lines: seq<Line>, allocations: seq<Allocation>, n: nat, rankings: seq<seq<Row>>, ranking: seq<Row>)
    requires n < |allocations| && AllRanked(lines, allocations[..n], rankings)
    requires Ranked(lines, allocations[n], ranking)
    ensures AllRanked(lines, allocations[..n + 1], rankings + [ranking])
    ensures Blocks(allocations[..n + 1], rankings + [ranking])
         == Blocks(allocations[..n], rankings) + Block(allocations[n], ranking)
  {
    assert allocations[..n + 1][..n] == allocations[..n];
    assert (rankings + [ranking])[..n] == rankings;
  }

  /** Every payment allocation split over the zones its period's lines come from, in order. */
  method AttributePaymentsToZones(lines: seq<Line>, allocations: seq<Allocation>) returns (output: seq<Attributed>)
    ensures IsAttribution(lines, allocations, output)
  {
    var linesByPeriod := GroupByPeriod(lines);
    output := [];
    ghost var rankings := [];
    for n := 0 to |allocations|
      invariant AllRanked(lines, allocations[..n], rankings)
      invariant output == Blocks(allocations[..n], rankings)
    {
      var a := allocations[n];
      var periodLines := if a.periodId in linesByPeriod then linesByPeriod[a.periodId] else [];
      var block := AttributeOne(lines, periodLines, a);
      ghost var ranking :| Ranked(lines, a, ranking) && block == Block(a, ranking);
      OneMore(lines, allocations, n, rankings, ranking);
      output := output + block;
      rankings := rankings + [ranking];
    }
    assert allocations[..|allocations|] == allocations;
  }
}
