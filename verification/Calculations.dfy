/**
 Invoice arithmetic.  Amounts are whole cents, quantities whole thousandths, percentages and tax rates
 whole hundredths of a percent, so that 10000 is 100 %.
 */
module Calculations {
  import opened Settlement

  // ---------- rounding ----------

  /** `n / d` rounded to the nearest whole number, halves away from zero. */
  function RoundHalfAway(n: int, d: int): (r: int)
    requires d > 0
  {
    if n >= 0 then (2 * n + d) / (2 * d) else -((-2 * n + d) / (2 * d))
  }

  /** `r` is nearest to `n / d`, and a tie is broken away from zero. */
  predicate IsRounded(n: int, d: int, r: int) {
    && -d <= 2 * (d * r - n) <= d
    && (2 * (d * r - n) == d ==> n >= 0)
    && (2 * (d * r - n) == -d ==> n < 0)
  }

  lemma RoundingIsNearest(n: int, d: int)
    requires d > 0
    ensures IsRounded(n, d, RoundHalfAway(n, d))
  {
    var m := if n >= 0 then n else -n;
    var q := (2 * m + d) / (2 * d);
    assert 2 * d * q <= 2 * m + d < 2 * d * q + 2 * d;
    assert 2 * (d * q) == 2 * d * q;
    assert RoundHalfAway(n, d) == if n >= 0 then q else -q;
    assert d * -q == -(d * q);
  }

  /** There is no other number with that property. */
  lemma RoundedIsUnique(n: int, d: int, r: int)
    requires d > 0 && IsRounded(n, d, r)
    ensures r == RoundHalfAway(n, d)
  {
    var s := RoundHalfAway(n, d);
    RoundingIsNearest(n, d);
    if r < s {
      Scaled(d, r, s);
    } else if s < r {
      Scaled(d, s, r);
    }
  }

  lemma Scaled(d: int, r: int, s: int)
    requires d > 0 && r < s
    ensures d * r + d <= d * s
  {
    assert d * (s - r - 1) >= 0;
    assert d * (s - r - 1) == d * s - d * r - d;
  }

  lemma RoundingIsMonotone(n: int, m: int, d: int)
    requires d > 0 && n <= m
    ensures RoundHalfAway(n, d) <= RoundHalfAway(m, d)
  {
    var r, s := RoundHalfAway(n, d), RoundHalfAway(m, d);
    RoundingIsNearest(n, d);
    RoundingIsNearest(m, d);
    if s < r {
      Scaled(d, s, r);
    }
  }

  lemma RoundingWhole(k: int, d: int)
    requires d > 0
    ensures RoundHalfAway(k * d, d) == k
  {
    assert d * k == k * d;
    RoundedIsUnique(k * d, d, k);
  }

  // ---------- one line ----------

  datatype LineInput = LineInput(quantity: int, unitPrice: int, discountPercent: int, discountAmount: int, taxRate: int)

  datatype Taxed = Taxed(base: int, tax: int, total: int)

  datatype LineAmounts = LineAmounts(subtotal: int, discount: int, taxed: Taxed)

  /** What the request schema and the table of tax rates guarantee. */
  predicate ValidInput(i: LineInput) {
    i.quantity != 0 && i.unitPrice >= 0 && 0 <= i.discountPercent <= 10000 && i.discountAmount >= 0 && 0 <= i.taxRate <= 10000
  }

  function Max(a: int, b: int): int { if a >= b then a else b }

  function Min(a: int, b: int): int { if a <= b then a else b }

  function CalculateLine(i: LineInput): LineAmounts {
    var subtotal := RoundHalfAway(i.quantity * i.unitPrice, 1000);
    var percentDiscount := RoundHalfAway(subtotal * i.discountPercent, 10000);
    var fixedDiscount := Min(i.discountAmount, Max(subtotal - percentDiscount, 0));
    var discount := percentDiscount + fixedDiscount;
    var base := Max(subtotal - discount, 0);
    var tax := RoundHalfAway(base * i.taxRate, 10000);
    LineAmounts(subtotal, discount, Taxed(base, tax, base + tax))
  }

  /** What the amounts of a line are, without saying how they are rounded: quantity times price in whole
      cents; the percentage of it in whole cents plus as much of the fixed discount as is left; the rest
      as base, never negative; the tax on the base in whole cents; and their sum. */
  ghost predicate IsLine(i: LineInput, r: LineAmounts) {
    && IsRounded(i.quantity * i.unitPrice, 1000, r.subtotal)
    && IsRounded(r.taxed.base * i.taxRate, 10000, r.taxed.tax)
    && r.taxed.total == r.taxed.base + r.taxed.tax
    && (r.discount < r.subtotal ==> r.taxed.base == r.subtotal - r.discount)
    && (r.discount >= r.subtotal ==> r.taxed.base == 0)
    && exists percent: int :: DiscountFits(i, r, percent)
  }

  /** `percent` is the share of the subtotal in whole cents, and the fixed discount adds to it what is left. */
  ghost predicate DiscountFits(i: LineInput, r: LineAmounts, percent: int) {
    && IsRounded(r.subtotal * i.discountPercent, 10000, percent)
    && (percent >= r.subtotal ==> r.discount == percent + (if i.discountAmount < 0 then i.discountAmount else 0))
    && (percent < r.subtotal && percent + i.discountAmount <= r.subtotal ==> r.discount == percent + i.discountAmount)
    && (percent < r.subtotal && percent + i.discountAmount > r.subtotal ==> r.discount == r.subtotal)
  }

  lemma LineFits(i: LineInput)
    ensures IsLine(i, CalculateLine(i))
  {
    var c := CalculateLine(i);
    hide RoundHalfAway, IsRounded;
    RoundingIsNearest(i.quantity * i.unitPrice, 1000);
    RoundingIsNearest(c.subtotal * i.discountPercent, 10000);
    RoundingIsNearest(c.taxed.base * i.taxRate, 10000);
    assert DiscountFits(i, c, RoundHalfAway(c.subtotal * i.discountPercent, 10000));
  }

  lemma OnlyOneFits(i: LineInput, r: LineAmounts, s: LineAmounts)
    requires IsLine(i, r) && IsLine(i, s)
    ensures r == s
  {
    hide IsRounded, RoundHalfAway;
    var p: int :| DiscountFits(i, r, p);
    var q: int :| DiscountFits(i, s, q);
    RoundedOnce(i.quantity * i.unitPrice, 1000, r.subtotal, s.subtotal);
    RoundedOnce(r.subtotal * i.discountPercent, 10000, p, q);
    RoundedOnce(r.taxed.base * i.taxRate, 10000, r.taxed.tax, s.taxed.tax);
  }

  lemma RoundedOnce(a: int, b: int, r: int, s: int)
    requires b > 0 && IsRounded(a, b, r) && IsRounded(a, b, s)
    ensures r == s
  {
    RoundedIsUnique(a, b, r);
    RoundedIsUnique(a, b, s);
  }

  /** For every input, of either sign, the calculated line is the one line that fits that description. */
  lemma LineIsExact(i: LineInput, r: LineAmounts)
    ensures r == CalculateLine(i) <==> IsLine(i, r)
  {
    hide IsLine, CalculateLine;
    LineFits(i);
    if IsLine(i, r) { OnlyOneFits(i, r, CalculateLine(i)); }
  }

  /** A share between nothing and everything, rounded, is between nothing and everything. */
  lemma RoundedShare(amount: int, share: int)
    requires 0 <= share <= 10000
    ensures amount >= 0 ==> 0 <= RoundHalfAway(amount * share, 10000) <= amount
    ensures amount <= 0 ==> amount <= RoundHalfAway(amount * share, 10000) <= 0
  {
    hide RoundHalfAway;
    RoundingWhole(0, 10000);
    RoundingWhole(amount, 10000);
    ShareBounds(amount, share);
    if amount >= 0 {
      RoundingIsMonotone(0, amount * share, 10000);
      RoundingIsMonotone(amount * share, amount * 10000, 10000);
    } else {
      RoundingIsMonotone(amount * share, 0, 10000);
      RoundingIsMonotone(amount * 10000, amount * share, 10000);
    }
  }

  lemma ShareBounds(amount: int, share: int)
    requires 0 <= share <= 10000
    ensures amount >= 0 ==> 0 <= amount * share <= amount * 10000
    ensures amount <= 0 ==> amount * 10000 <= amount * share <= 0
    ensures 0 * 10000 == 0
  {
    if amount >= 0 {
      assert amount * (10000 - share) >= 0;
    } else {
      assert (-amount) * share >= 0 && (-amount) * (10000 - share) >= 0;
    }
  }

  lemma SubtotalSign(quantity: int, unitPrice: int)
    requires unitPrice >= 0
    ensures quantity >= 0 ==> RoundHalfAway(quantity * unitPrice, 1000) >= 0
    ensures quantity <= 0 ==> RoundHalfAway(quantity * unitPrice, 1000) <= 0
  {
    RoundingWhole(0, 1000);
    assert 0 * 1000 == 0;
    if quantity >= 0 {
      assert quantity * unitPrice >= 0;
      RoundingIsMonotone(0, quantity * unitPrice, 1000);
    } else {
      assert (-quantity) * unitPrice >= 0;
      RoundingIsMonotone(quantity * unitPrice, 0, 1000);
    }
  }

  /** For a positive quantity the discount lies between nothing and the subtotal, and takes the fixed
      amount in full unless that exceeds what the percentage left over. */
  lemma PositiveLine(i: LineInput)
    requires ValidInput(i) && i.quantity > 0
    ensures var r := CalculateLine(i);
            var percent := RoundHalfAway(r.subtotal * i.discountPercent, 10000);
            && 0 <= r.discount <= r.subtotal
            && (percent + i.discountAmount <= r.subtotal ==> r.discount == percent + i.discountAmount)
            && (percent + i.discountAmount > r.subtotal ==> r.discount == r.subtotal)
            && r.taxed.base == r.subtotal - r.discount
            && 0 <= r.taxed.tax <= r.taxed.base
            && r.taxed.total == r.taxed.base + r.taxed.tax
  {
    var r := CalculateLine(i);
    SubtotalSign(i.quantity, i.unitPrice);
    RoundedShare(r.subtotal, i.discountPercent);
    RoundedShare(r.taxed.base, i.taxRate);
  }

  /** For a negative quantity there is nothing to pay, though subtotal and discount are negative. */
  lemma NegativeLine(i: LineInput)
    requires ValidInput(i) && i.quantity < 0
    ensures var r := CalculateLine(i);
            r.taxed == Taxed(0, 0, 0) && r.subtotal <= r.discount <= 0
  {
    var r := CalculateLine(i);
    SubtotalSign(i.quantity, i.unitPrice);
    RoundedShare(r.subtotal, i.discountPercent);
    RoundedShare(0, i.taxRate);
  }

  // ---------- sums ----------

  datatype TaxKey = TaxKey(code: string, rate: int)

  datatype CalculatedLine = CalculatedLine(key: TaxKey, amounts: LineAmounts)

  datatype Summary = Summary(key: TaxKey, taxed: Taxed)

  const NOTHING := Taxed(0, 0, 0)

  function Add(a: Taxed, b: Taxed): Taxed {
    Taxed(a.base + b.base, a.tax + b.tax, a.total + b.total)
  }

  function SumLines(lines: seq<CalculatedLine>): Taxed {
    if lines == [] then NOTHING else Add(SumLines(lines[..|lines| - 1]), lines[|lines| - 1].amounts.taxed)
  }

  function SumSummaries(summaries: seq<Summary>): Taxed {
    if summaries == [] then NOTHING else Add(SumSummaries(summaries[..|summaries| - 1]), summaries[|summaries| - 1].taxed)
  }

  function SumSubtotals(lines: seq<CalculatedLine>): int {
    if lines == [] then 0 else SumSubtotals(lines[..|lines| - 1]) + lines[|lines| - 1].amounts.subtotal
  }

  function SumDiscounts(lines: seq<CalculatedLine>): int {
    if lines == [] then 0 else SumDiscounts(lines[..|lines| - 1]) + lines[|lines| - 1].amounts.discount
  }

  /** The part of the sum that belongs to one tax rate. */
  function GroupSum(lines: seq<CalculatedLine>, key: TaxKey): Taxed {
    if lines == [] then NOTHING
    else
      var before, last := GroupSum(lines[..|lines| - 1], key), lines[|lines| - 1];
      if last.key == key then Add(before, last.amounts.taxed) else before
  }

  function GroupCount(lines: seq<CalculatedLine>, key: TaxKey): nat {
    if lines == [] then 0
    else GroupCount(lines[..|lines| - 1], key) + if lines[|lines| - 1].key == key then 1 else 0
  }

  datatype Totals = Totals(subtotal: int, discount: int, taxed: Taxed)

  function CalculateTotals(lines: seq<CalculatedLine>): Totals {
    Totals(SumSubtotals(lines), SumDiscounts(lines), SumLines(lines))
  }

  function Sum(amounts: seq<int>): int {
    if amounts == [] then 0 else Sum(amounts[..|amounts| - 1]) + amounts[|amounts| - 1]
  }

  /** Each total is the sum of the amounts of that kind, line by line. */
  lemma {:induction false} TotalsLineByLine(lines: seq<CalculatedLine>)
    ensures var t := CalculateTotals(lines);
            && t.subtotal == Sum(seq(|lines|, k requires 0 <= k < |lines| => lines[k].amounts.subtotal))
            && t.discount == Sum(seq(|lines|, k requires 0 <= k < |lines| => lines[k].amounts.discount))
            && t.taxed.base == Sum(seq(|lines|, k requires 0 <= k < |lines| => lines[k].amounts.taxed.base))
            && t.taxed.tax == Sum(seq(|lines|, k requires 0 <= k < |lines| => lines[k].amounts.taxed.tax))
            && t.taxed.total == Sum(seq(|lines|, k requires 0 <= k < |lines| => lines[k].amounts.taxed.total))
  {
    if lines != [] {
      var n := |lines| - 1;
      var front := lines[..n];
      TotalsLineByLine(front);
      FrontSum(seq(|lines|, k requires 0 <= k < |lines| => lines[k].amounts.subtotal), seq(n, k requires 0 <= k < n => front[k].amounts.subtotal));
      FrontSum(seq(|lines|, k requires 0 <= k < |lines| => lines[k].amounts.discount), seq(n, k requires 0 <= k < n => front[k].amounts.discount));
      FrontSum(seq(|lines|, k requires 0 <= k < |lines| => lines[k].amounts.taxed.base), seq(n, k requires 0 <= k < n => front[k].amounts.taxed.base));
      FrontSum(seq(|lines|, k requires 0 <= k < |lines| => lines[k].amounts.taxed.tax), seq(n, k requires 0 <= k < n => front[k].amounts.taxed.tax));
      FrontSum(seq(|lines|, k requires 0 <= k < |lines| => lines[k].amounts.taxed.total), seq(n, k requires 0 <= k < n => front[k].amounts.taxed.total));
    }
  }

  lemma FrontSum(amounts: seq<int>, front: seq<int>)
    requires |amounts| == |front| + 1 && forall k :: 0 <= k < |front| ==> front[k] == amounts[k]
    ensures Sum(amounts) == Sum(front) + amounts[|front|]
  {
    assert amounts[..|front|] == front;
  }

  /** The line was computed from valid input, at the rate it is grouped under. */
  ghost predicate Computed(l: CalculatedLine) {
    exists i :: ComputedFrom(l, i)
  }

  ghost predicate ComputedFrom(l: CalculatedLine, i: LineInput) {
    ValidInput(i) && i.taxRate == l.key.rate && IsLine(i, l.amounts)
  }

  ghost predicate AllComputed(lines: seq<CalculatedLine>) {
    forall i :: 0 <= i < |lines| ==> Computed(lines[i])
  }

  lemma ComputedLine(l: CalculatedLine)
    requires Computed(l)
    ensures l.amounts.taxed.base >= 0 && l.amounts.taxed.tax >= 0
    ensures l.amounts.taxed.total == l.amounts.taxed.base + l.amounts.taxed.tax
    ensures IsRounded(l.amounts.taxed.base * l.key.rate, 10000, l.amounts.taxed.tax)
    ensures l.amounts.subtotal - l.amounts.discount <= l.amounts.taxed.base
  {
    var i :| ComputedFrom(l, i);
    LineIsExact(i, l.amounts);
    if i.quantity > 0 { PositiveLine(i); } else { NegativeLine(i); }
    RoundingIsNearest(l.amounts.taxed.base * i.taxRate, 10000);
  }

  /** The total of an invoice is its base plus its tax, and none of them is negative. */
  lemma {:induction false} TotalsAddUp(lines: seq<CalculatedLine>)
    requires AllComputed(lines)
    ensures var t := CalculateTotals(lines);
            && t.taxed.total == t.taxed.base + t.taxed.tax
            && t.taxed.base >= 0 && t.taxed.tax >= 0
            && t.subtotal - t.discount <= t.taxed.base
  {
    if lines != [] {
      TotalsAddUp(lines[..|lines| - 1]);
      ComputedLine(lines[|lines| - 1]);
    }
  }

  /** A line without a price amounts to nothing, and so does an invoice that has no other line. */
  lemma FreeOfCharge(i: LineInput)
    requires i.unitPrice == 0 && i.discountAmount >= 0
    ensures CalculateLine(i) == LineAmounts(0, 0, NOTHING)
  {
    hide RoundHalfAway;
    RoundingWhole(0, 1000);
    RoundingWhole(0, 10000);
    assert i.quantity * i.unitPrice == 0 * 1000;
    assert 0 * i.discountPercent == 0 * 10000;
    assert 0 * i.taxRate == 0 * 10000;
  }

  lemma OneFreeLine(l: CalculatedLine)
    requires l.amounts == LineAmounts(0, 0, NOTHING)
    ensures CalculateTotals([l]) == Totals(0, 0, NOTHING)
  {
    assert [l][..|[l]| - 1] == [];
    assert SumLines([l]) == Add(SumLines([]), l.amounts.taxed);
    assert SumSubtotals([l]) == SumSubtotals([]) + l.amounts.subtotal;
    assert SumDiscounts([l]) == SumDiscounts([]) + l.amounts.discount;
  }

  // ---------- tax summaries ----------

  predicate KeyOccurs(lines: seq<CalculatedLine>, key: TaxKey) {
    exists i :: 0 <= i < |lines| && lines[i].key == key
  }

  predicate KeysDistinct(summaries: seq<Summary>) {
    forall i, j :: 0 <= i < j < |summaries| ==> summaries[i].key != summaries[j].key
  }

  predicate HasSummary(summaries: seq<Summary>, key: TaxKey) {
    exists j :: 0 <= j < |summaries| && summaries[j].key == key
  }

  predicate OrderedByCode(summaries: seq<Summary>) {
    forall i :: 0 < i < |summaries| ==> !CodeBefore(summaries[i].key.code, summaries[i - 1].key.code)
  }

  /** One summary for every rate that occurs, holding exactly the sum of the lines at that rate. */
  predicate Summarizes(lines: seq<CalculatedLine>, summaries: seq<Summary>) {
    && KeysDistinct(summaries)
    && (forall j :: 0 <= j < |summaries| ==> KeyOccurs(lines, summaries[j].key) && summaries[j].taxed == GroupSum(lines, summaries[j].key))
    && (forall i :: 0 <= i < |lines| ==> HasSummary(summaries, lines[i].key))
  }

  function InsertSummary(sorted: seq<Summary>, s: Summary): (r: seq<Summary>)
    ensures |r| == |sorted| + 1 && (r[0] == s || (|sorted| > 0 && r[0] == sorted[0]))
  {
    if sorted == [] then [s]
    else if CodeBefore(s.key.code, sorted[0].key.code) then [s] + sorted
    else [sorted[0]] + InsertSummary(sorted[1..], s)
  }

  lemma {:induction false} InsertedOnce(sorted: seq<Summary>, s: Summary)
    ensures multiset(InsertSummary(sorted, s)) == multiset(sorted) + multiset{s}
  {
    hide CodeBefore;
    if sorted != [] {
      assert sorted == [sorted[0]] + sorted[1..];
      InsertedOnce(sorted[1..], s);
    }
  }

  lemma {:induction false} InsertedInOrder(sorted: seq<Summary>, s: Summary)
    requires OrderedByCode(sorted)
    ensures OrderedByCode(InsertSummary(sorted, s))
  {
    hide CodeBefore;
    if sorted != [] {
      if CodeBefore(s.key.code, sorted[0].key.code) {
        NotBothBefore(s.key.code, sorted[0].key.code);
        assert ([s] + sorted)[1..] == sorted;
      } else {
        assert OrderedByCode(sorted[1..]);
        InsertedInOrder(sorted[1..], s);
      }
    }
  }

  lemma {:induction false} NotBothBefore(a: string, b: string)
    requires CodeBefore(a, b)
    ensures !CodeBefore(b, a)
  {
    if a != "" && a[0] == b[0] { NotBothBefore(a[1..], b[1..]); }
  }

  function SortByCode(summaries: seq<Summary>): (r: seq<Summary>)
    ensures multiset(r) == multiset(summaries)
    ensures OrderedByCode(r)
  {
    if summaries == [] then []
    else
      var n := |summaries| - 1;
      assert summaries == summaries[..n] + [summaries[n]];
      InsertedOnce(SortByCode(summaries[..n]), summaries[n]);
      InsertedInOrder(SortByCode(summaries[..n]), summaries[n]);
      InsertSummary(SortByCode(summaries[..n]), summaries[n])
  }

  method CalculateTaxSummaries(lines: seq<CalculatedLine>) returns (summaries: seq<Summary>)
    ensures Summarizes(lines, summaries)
    ensures OrderedByCode(summaries)
  {
    var grouped: map<TaxKey, Taxed> := map[];
    var order: seq<TaxKey> := [];
    for i := 0 to |lines|
      invariant forall k :: k in order <==> k in grouped
      invariant forall p, q :: 0 <= p < q < |order| ==> order[p] != order[q]
      invariant forall k :: k in grouped <==> KeyOccurs(lines[..i], k)
      invariant forall k :: GroupSum(lines[..i], k) == if k in grouped then grouped[k] else NOTHING
    {
      var line := lines[i];
      assert lines[..i + 1][..i] == lines[..i] && lines[..i + 1][i] == line;
      OccursSnoc(lines, i);
      if line.key !in grouped {
        order := order + [line.key];
        grouped := grouped[line.key := line.amounts.taxed];
      } else {
        grouped := grouped[line.key := Add(grouped[line.key], line.amounts.taxed)];
      }
    }
    assert lines[..|lines|] == lines;
    var values := seq(|order|, j requires 0 <= j < |order| && order[j] in grouped => Summary(order[j], grouped[order[j]]));
    assert Summarizes(lines, values) by {
      forall i | 0 <= i < |lines| ensures HasSummary(values, lines[i].key) {
        assert KeyOccurs(lines, lines[i].key);
        var j :| 0 <= j < |order| && order[j] == lines[i].key;
        assert values[j].key == lines[i].key;
      }
    }
    summaries := SortByCode(values);
    ReorderedStillSummarizes(lines, values, summaries);
  }

  lemma OccursSnoc(lines: seq<CalculatedLine>, i: nat)
    requires i < |lines|
    ensures forall k :: KeyOccurs(lines[..i + 1], k) <==> KeyOccurs(lines[..i], k) || k == lines[i].key
  {
    forall k ensures KeyOccurs(lines[..i + 1], k) <==> KeyOccurs(lines[..i], k) || k == lines[i].key {
      if k == lines[i].key { assert lines[..i + 1][i].key == k; }
      if KeyOccurs(lines[..i], k) {
        var j :| 0 <= j < i && lines[..i][j].key == k;
        assert lines[..i + 1][j].key == k;
      }
    }
  }

  lemma ReorderedStillSummarizes(lines: seq<CalculatedLine>, a: seq<Summary>, b: seq<Summary>)
    requires Summarizes(lines, a) && multiset(a) == multiset(b)
    ensures Summarizes(lines, b)
  {
    forall j | 0 <= j < |b| ensures KeyOccurs(lines, b[j].key) && b[j].taxed == GroupSum(lines, b[j].key) {
      assert b[j] in multiset(a);
    }
    forall i | 0 <= i < |lines| ensures HasSummary(b, lines[i].key) {
      assert HasSummary(a, lines[i].key);
      var j :| 0 <= j < |a| && a[j].key == lines[i].key;
      assert a[j] in multiset(b);
    }
    DistinctReordered(a, b);
  }

  lemma DistinctReordered(a: seq<Summary>, b: seq<Summary>)
    requires KeysDistinct(a) && multiset(a) == multiset(b)
    ensures KeysDistinct(b)
  {
    forall i, j | 0 <= i < j < |b| ensures b[i].key != b[j].key {
      if b[i].key == b[j].key {
        assert b[i] in multiset(a) && b[j] in multiset(a);
        var p :| 0 <= p < |a| && a[p] == b[i];
        var q :| 0 <= q < |a| && a[q] == b[j];
        assert p == q;
        assert b[i] == b[j];
        OccursTwice(b, i, j);
        AtMostOnce(a, p);
        assert false;
      }
    }
  }

  lemma OccursTwice(s: seq<Summary>, i: nat, j: nat)
    requires i < j < |s| && s[i] == s[j]
    ensures multiset(s)[s[i]] >= 2
  {
    assert s == s[..i] + [s[i]] + s[i + 1..j] + [s[j]] + s[j + 1..];
  }

  lemma {:induction false} AtMostOnce(s: seq<Summary>, p: nat)
    requires KeysDistinct(s) && p < |s|
    ensures multiset(s)[s[p]] == 1
  {
    assert s == s[..p] + [s[p]] + s[p + 1..];
    assert s[p] !in s[..p] && s[p] !in s[p + 1..];
  }

  // ---------- summaries and totals agree ----------

  /** Sum, over the keys of the summaries, of the groups of `lines`. */
  ghost function SumGroups(summaries: seq<Summary>, lines: seq<CalculatedLine>): Taxed {
    if summaries == [] then NOTHING
    else Add(SumGroups(summaries[..|summaries| - 1], lines), GroupSum(lines, summaries[|summaries| - 1].key))
  }

  lemma {:induction false} SumGroupsSnoc(summaries: seq<Summary>, lines: seq<CalculatedLine>, l: CalculatedLine)
    requires KeysDistinct(summaries)
    ensures SumGroups(summaries, lines + [l])
         == if HasSummary(summaries, l.key) then Add(SumGroups(summaries, lines), l.amounts.taxed) else SumGroups(summaries, lines)
  {
    assert (lines + [l])[..|lines|] == lines;
    if summaries != [] {
      var front, last := summaries[..|summaries| - 1], summaries[|summaries| - 1];
      SumGroupsSnoc(front, lines, l);
      assert HasSummary(summaries, l.key) <==> HasSummary(front, l.key) || last.key == l.key by {
        if HasSummary(front, l.key) {
          var j :| 0 <= j < |front| && front[j].key == l.key;
          assert summaries[j].key == l.key;
        }
      }
      if HasSummary(front, l.key) {
        var j :| 0 <= j < |front| && front[j].key == l.key;
        assert summaries[j].key != last.key;
      }
    }
  }

  lemma {:induction false} NoLinesNoGroups(summaries: seq<Summary>)
    ensures SumGroups(summaries, []) == NOTHING
  {
    if summaries != [] { NoLinesNoGroups(summaries[..|summaries| - 1]); }
  }

  lemma {:induction false} GroupsCoverLines(summaries: seq<Summary>, lines: seq<CalculatedLine>)
    requires KeysDistinct(summaries)
    requires forall i :: 0 <= i < |lines| ==> HasSummary(summaries, lines[i].key)
    ensures SumGroups(summaries, lines) == SumLines(lines)
  {
    if lines == [] {
      NoLinesNoGroups(summaries);
    } else {
      var front, last := lines[..|lines| - 1], lines[|lines| - 1];
      assert lines == front + [last];
      GroupsCoverLines(summaries, front);
      SumGroupsSnoc(summaries, front, last);
      assert HasSummary(summaries, lines[|lines| - 1].key);
    }
  }

  lemma {:induction false} SummariesAreGroups(summaries: seq<Summary>, lines: seq<CalculatedLine>)
    requires forall j :: 0 <= j < |summaries| ==> summaries[j].taxed == GroupSum(lines, summaries[j].key)
    ensures SumSummaries(summaries) == SumGroups(summaries, lines)
  {
    if summaries != [] { SummariesAreGroups(summaries[..|summaries| - 1], lines); }
  }

  /** The summaries add up to the totals of the invoice. */
  lemma SummariesMatchTotals(lines: seq<CalculatedLine>, summaries: seq<Summary>)
    requires Summarizes(lines, summaries)
    ensures SumSummaries(summaries) == CalculateTotals(lines).taxed
  {
    SummariesAreGroups(summaries, lines);
    GroupsCoverLines(summaries, lines);
  }

  lemma {:induction false} GroupConcat(a: seq<CalculatedLine>, b: seq<CalculatedLine>, key: TaxKey)
    ensures GroupSum(a + b, key) == Add(GroupSum(a, key), GroupSum(b, key))
  {
    if b == [] {
      assert a + b == a;
    } else {
      assert (a + b)[..|a + b| - 1] == a + b[..|b| - 1];
      GroupConcat(a, b[..|b| - 1], key);
    }
  }

  lemma GroupWithout(b: seq<CalculatedLine>, k: nat, key: TaxKey)
    requires k < |b|
    ensures GroupSum(b, key) == Add(GroupSum(b[..k] + b[k + 1..], key), GroupSum([b[k]], key))
  {
    assert b == (b[..k] + [b[k]]) + b[k + 1..];
    GroupConcat(b[..k], b[k + 1..], key);
    GroupConcat(b[..k] + [b[k]], b[k + 1..], key);
    GroupConcat(b[..k], [b[k]], key);
  }

  lemma MultisetWithout(b: seq<CalculatedLine>, k: nat)
    requires k < |b|
    ensures multiset(b[..k] + b[k + 1..]) == multiset(b) - multiset{b[k]}
  {
    assert b == b[..k] + [b[k]] + b[k + 1..];
  }

  /** The group sums, and with them the summaries, do not depend on the order of the lines. */
  lemma {:induction false} GroupsIgnoreOrder(a: seq<CalculatedLine>, b: seq<CalculatedLine>, key: TaxKey)
    requires multiset(a) == multiset(b)
    ensures GroupSum(a, key) == GroupSum(b, key)
    decreases |a|
  {
    assert |a| == |multiset(a)| && |b| == |multiset(b)|;
    if a != [] {
      assert a[0] in multiset(b);
      var k :| 0 <= k < |b| && b[k] == a[0];
      MultisetWithout(a, 0);
      MultisetWithout(b, k);
      GroupsIgnoreOrder(a[..0] + a[1..], b[..k] + b[k + 1..], key);
      GroupWithout(a, 0, key);
      GroupWithout(b, k, key);
    }
  }

  lemma WithinHalf(l: CalculatedLine)
    requires IsRounded(l.amounts.taxed.base * l.key.rate, 10000, l.amounts.taxed.tax)
    ensures -10000 <= 2 * (10000 * l.amounts.taxed.tax - l.amounts.taxed.base * l.key.rate) <= 10000
  {
  }

  lemma Distribute(a: int, b: int, c: int)
    ensures (a + b) * c == a * c + b * c
  {
  }

  /** The tax of a group of `n` lines is within `n` half-cents of the exact tax on its summed base. */
  lemma {:induction false} TaxDrift(lines: seq<CalculatedLine>, key: TaxKey)
    requires AllComputed(lines)
    ensures var g := GroupSum(lines, key);
            -5000 * GroupCount(lines, key) <= 10000 * g.tax - g.base * key.rate <= 5000 * GroupCount(lines, key)
  {
    if lines != [] {
      var front, last := lines[..|lines| - 1], lines[|lines| - 1];
      TaxDrift(front, key);
      ComputedLine(last);
      hide CalculateLine, IsRounded;
      assert -10000 <= 2 * (10000 * last.amounts.taxed.tax - last.amounts.taxed.base * last.key.rate) <= 10000 by { WithinHalf(last); }
      Distribute(GroupSum(front, key).base, last.amounts.taxed.base, key.rate);
    }
  }
}
