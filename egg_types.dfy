/** The values the egg-sorting dashboard derives its summaries from: the six
    egg-size categories, one day's sorting log, and one row of a per-size
    breakdown table, together with the sums the tables display. */
module EggTypes {

  datatype Option<T> = None | Some(value: T)

  /** One of the six egg-size categories, whose keys are '0' to '5'. */
  datatype EggSize = Size0 | Size1 | Size2 | Size3 | Size4 | Size5

  /** The fixed order in which every breakdown lists the categories. */
  const EggSizes: seq<EggSize> := [Size0, Size1, Size2, Size3, Size4, Size5]

  /** The key under which a category's count is stored in a log's breakdown. */
  function Label(s: EggSize): char
  {
    match s
    case Size0 => '0'
    case Size1 => '1'
    case Size2 => '2'
    case Size3 => '3'
    case Size4 => '4'
    case Size5 => '5'
  }

  /** The position of a category in EggSizes. */
  function Index(s: EggSize): (i: nat)
    ensures i < |EggSizes| && EggSizes[i] == s
  {
    match s
    case Size0 => 0
    case Size1 => 1
    case Size2 => 2
    case Size3 => 3
    case Size4 => 4
    case Size5 => 5
  }

  /** EggSizes lists every category exactly once, keyed '0' to '5' in order. */
  lemma EggSizesEnumerate()
    ensures |EggSizes| == 6
    ensures forall s: EggSize :: s in EggSizes
    ensures forall i, j :: 0 <= i < j < |EggSizes| ==> EggSizes[i] != EggSizes[j]
    ensures forall i :: 0 <= i < |EggSizes| ==> Label(EggSizes[i]) as int == '0' as int + i
  {
    forall s: EggSize ensures s in EggSizes {
      assert EggSizes[Index(s)] == s;
    }
  }

  /** One day's sorting record. The breakdown may lack some categories;
      nothing ties the sum of its values to totalSorted. */
  datatype DailyLog = DailyLog(
    date: string,
    totalSorted: nat,
    totalWeightKg: real,
    breakdown: map<EggSize, nat>)

  /** One row of a breakdown table. */
  datatype BreakdownItem = BreakdownItem(size: EggSize, count: nat, percent: real)

  /** A category's count in a breakdown record, 0 when the entry is absent. */
  function Count(b: map<EggSize, nat>, s: EggSize): nat
  {
    if s in b then b[s] else 0
  }

  /** The exact share of `count` in `total`, in percent; 0 when the total is 0,
      so that no division by zero happens. */
  function Percent(count: nat, total: nat): (p: real)
    ensures total == 0 ==> p == 0.0
    ensures total > 0 ==> p * total as real == count as real * 100.0
    ensures 0.0 <= p
  {
    if total > 0 then (count as real / total as real) * 100.0 else 0.0
  }

  /** A part of the total is at most 100 percent of it. */
  lemma PercentAtMost100(count: nat, total: nat)
    requires count <= total
    ensures Percent(count, total) <= 100.0
  {
    if total > 0 {
      var t := total as real;
      assert Percent(count, total) * t <= 100.0 * t;
    }
  }

  /** The six rows of a breakdown table, given the count of each category in
      EggSizes order and the total the percentages are taken against. */
  function Items(counts: seq<nat>, total: nat): seq<BreakdownItem>
    requires |counts| == |EggSizes|
  {
    seq(|EggSizes|, i requires 0 <= i < |EggSizes| =>
      BreakdownItem(EggSizes[i], counts[i], Percent(counts[i], total)))
  }

  /** The counts of the given categories, in order, absent ones as 0. */
  function CountsOf(b: map<EggSize, nat>, sizes: seq<EggSize>): (c: seq<nat>)
    ensures |c| == |sizes|
    ensures forall i :: 0 <= i < |sizes| ==> c[i] == Count(b, sizes[i])
  {
    if sizes == [] then [] else [Count(b, sizes[0])] + CountsOf(b, sizes[1..])
  }

  function Sum(xs: seq<nat>): nat
  {
    if xs == [] then 0 else xs[0] + Sum(xs[1..])
  }

  /** The count column's total. */
  function CountSum(items: seq<BreakdownItem>): nat
  {
    if items == [] then 0 else items[0].count + CountSum(items[1..])
  }

  /** The percent column's total. */
  function PercentSum(items: seq<BreakdownItem>): real
  {
    if items == [] then 0.0 else items[0].percent + PercentSum(items[1..])
  }

  /** A six-element sum written out. */
  lemma {:induction false} SumOfSix(xs: seq<nat>)
    requires |xs| == 6
    ensures Sum(xs) == xs[0] + xs[1] + xs[2] + xs[3] + xs[4] + xs[5]
  {
    var r := xs;
    assert Sum(r) == r[0] + Sum(r[1..]);
    r := r[1..];
    assert Sum(r) == r[0] + Sum(r[1..]);
    r := r[1..];
    assert Sum(r) == r[0] + Sum(r[1..]);
    r := r[1..];
    assert Sum(r) == r[0] + Sum(r[1..]);
    r := r[1..];
    assert Sum(r) == r[0] + Sum(r[1..]);
    r := r[1..];
    assert Sum(r) == r[0] + Sum(r[1..]);
    assert r[1..] == [];
  }

  /** The count column of Items adds up to the sum of the counts it was given. */
  lemma {:induction false} ItemsCountSum(counts: seq<nat>, total: nat)
    requires |counts| == |EggSizes|
    ensures CountSum(Items(counts, total)) == Sum(counts)
  {
    CountColumnSum(Items(counts, total), counts);
  }

  lemma {:induction false} CountColumnSum(items: seq<BreakdownItem>, counts: seq<nat>)
    requires |items| == |counts|
    requires forall i :: 0 <= i < |items| ==> items[i].count == counts[i]
    ensures CountSum(items) == Sum(counts)
  {
    if items != [] {
      CountColumnSum(items[1..], counts[1..]);
    }
  }

  /** When every row's percent is taken against the same positive total, the
      percent column adds up to the count column's share of that total. */
  lemma {:induction false} PercentColumnSum(items: seq<BreakdownItem>, total: nat)
    requires total > 0
    requires forall i :: 0 <= i < |items| ==> items[i].percent == Percent(items[i].count, total)
    ensures PercentSum(items) * total as real == CountSum(items) as real * 100.0
  {
    if items != [] {
      var rest := items[1..];
      PercentColumnSum(rest, total);
      var t := total as real;
      var p, c := items[0].percent, items[0].count as real;
      assert p * t == c * 100.0;
      assert PercentSum(items) == p + PercentSum(rest);
      assert CountSum(items) as real == c + CountSum(rest) as real;
      assert (p + PercentSum(rest)) * t == p * t + PercentSum(rest) * t;
    }
  }

  /** Every percentage of a table whose total is 0 is 0. */
  lemma ItemsZeroTotal(counts: seq<nat>)
    requires |counts| == |EggSizes|
    ensures forall i :: 0 <= i < |EggSizes| ==> Items(counts, 0)[i].percent == 0.0
  {
  }

  /** When the counts add up to a positive total, the percent column of the
      table adds up to exactly 100, the figure the table footer displays. */
  lemma ItemsPercentsAddUpTo100(counts: seq<nat>, total: nat)
    requires |counts| == |EggSizes|
    requires total > 0 && Sum(counts) == total
    ensures PercentSum(Items(counts, total)) == 100.0
  {
    var items := Items(counts, total);
    assert forall i :: 0 <= i < |items| ==> items[i].percent == Percent(items[i].count, total);
    ItemsCountSum(counts, total);
    PercentsOfWholeAddUpTo100(items, total);
  }

  lemma PercentsOfWholeAddUpTo100(items: seq<BreakdownItem>, total: nat)
    requires total > 0 && CountSum(items) == total
    requires forall i :: 0 <= i < |items| ==> items[i].percent == Percent(items[i].count, total)
    ensures PercentSum(items) == 100.0
  {
    PercentColumnSum(items, total);
    var t := total as real;
    var sum, c := PercentSum(items), CountSum(items) as real;
    assert sum * t == c * 100.0;
    assert c == t;
    assert c * 100.0 == 100.0 * t;
    CancelPositive(sum, 100.0, t);
  }

  lemma CancelPositive(x: real, y: real, t: real)
    requires t > 0.0 && x * t == y * t
    ensures x == y
  {
    assert (x - y) * t == 0.0;
  }

  /** The sum of the values stored in a breakdown record, whichever categories
      it holds. */
  ghost function ValuesSum(b: map<EggSize, nat>): nat
  {
    KeySum(b, b.Keys)
  }

  ghost function KeySum(b: map<EggSize, nat>, keys: set<EggSize>): nat
    requires keys <= b.Keys
    decreases keys
  {
    if keys == {} then 0 else
      var k :| k in keys;
      b[k] + KeySum(b, keys - {k})
  }

  /** KeySum does not depend on which key it takes first. */
  lemma {:induction false} KeySumRemove(b: map<EggSize, nat>, keys: set<EggSize>, k: EggSize)
    requires keys <= b.Keys && k in keys
    ensures KeySum(b, keys) == b[k] + KeySum(b, keys - {k})
    decreases keys
  {
    var j :| j in keys && KeySum(b, keys) == b[j] + KeySum(b, keys - {j});
    if j != k {
      KeySumRemove(b, keys - {j}, k);
      KeySumRemove(b, keys - {k}, j);
      assert keys - {j} - {k} == keys - {k} - {j};
    }
  }

  /** Summing the defaulted counts of distinct categories is summing the
      record's values under those categories. */
  lemma {:induction false} CountsOfSum(b: map<EggSize, nat>, sizes: seq<EggSize>)
    requires forall i, j :: 0 <= i < j < |sizes| ==> sizes[i] != sizes[j]
    ensures Sum(CountsOf(b, sizes)) == KeySum(b, b.Keys * set s | s in sizes)
  {
    if sizes == [] {
      assert b.Keys * (set s | s in sizes) == {};
    } else {
      var rest := sizes[1..];
      CountsOfSum(b, rest);
      var keys := b.Keys * set s | s in sizes;
      var restKeys := b.Keys * set s | s in rest;
      assert sizes[0] !in rest by {
        forall i | 0 <= i < |rest| ensures rest[i] != sizes[0] {
          assert rest[i] == sizes[i + 1];
        }
      }
      if sizes[0] in b {
        KeySumRemove(b, keys, sizes[0]);
        assert keys - {sizes[0]} == restKeys;
      } else {
        assert keys == restKeys;
      }
    }
  }

  /** The six defaulted counts of a record add up to the sum of its values. */
  lemma SixCountsSum(b: map<EggSize, nat>)
    ensures Sum(CountsOf(b, EggSizes)) == ValuesSum(b)
  {
    EggSizesEnumerate();
    CountsOfSum(b, EggSizes);
    assert b.Keys * (set s | s in EggSizes) == b.Keys;
  }
}
