/**
  Monthly comparison: `processMonthlyData` (bar/line charts) and its
  duplicate `processRadarData` (radar chart). Each fills a twelve-slot counter
  per year with `count[parseInt(mes_jrl) - 1]++`, skipping months that do not
  parse or fall outside 1..12, and then maps the fixed month names to rows.
*/
module Monthly {
  import opened Wrappers
  import opened Tally
  import opened Records

  /** `meses`: the row labels, January to December. */
  const Meses: seq<string> := ["Jan", "Fev", "Mar", "Abr", "Mai", "Jun", "Jul", "Ago", "Set", "Out", "Nov", "Dez"]

  /** One row of the monthly chart: the month, both years' counts and `diferenca`. */
  datatype MonthRow = MonthRow(mes: string, count1992: nat, count2024: nat, diferenca: int)

  /** One row of the radar chart: the same counts without the difference. */
  datatype RadarRow = RadarRow(mes: string, count1992: nat, count2024: nat)

  /**
    The counter slot a record bumps: `parseInt(mes_jrl) - 1` when that lies in
    0..11, otherwise none (the record is skipped).
  */
  function MonthSlot(r: Record): (slot: Option<int>)
    ensures slot.Some? <==> r.month.Some? && 1 <= r.month.value <= 12
    ensures slot.Some? ==> slot.value == r.month.value - 1
  {
    match r.month
    case None => None
    case Some(v) => if 0 <= v - 1 < 12 then Some(v - 1) else None
  }

  /** Reference count: the records of `data` whose slot is `i`. */
  function MonthCount(data: seq<Record>, i: int): nat
  {
    Occurrences(KeysOf(data, MonthSlot), Some(i))
  }

  /** The slots of the twelve counters, in calendar order. */
  function MonthSlots(): seq<Option<int>>
  {
    seq(12, i requires 0 <= i < 12 => Some(i))
  }

  /** The twelve counters of one dataset, as a sequence. */
  function MonthCounts(data: seq<Record>): seq<nat>
  {
    CountsFor(KeysOf(data, MonthSlot), MonthSlots())
  }

  /**
    One `forEach` of the source: `Array(12).fill(0)`, then one increment per
    record whose month is in range.
  */
  method CountMonths(data: seq<Record>) returns (counts: seq<nat>)
    ensures |counts| == 12
    ensures forall i :: 0 <= i < 12 ==> counts[i] == MonthCount(data, i)
  {
    var count := new nat[12](_ => 0);
    var k := 0;
    while k < |data|
      invariant 0 <= k <= |data|
      invariant forall i :: 0 <= i < 12 ==> count[i] == MonthCount(data[..k], i)
    {
      KeysOfPrefix(data, k, MonthSlot);
      forall i | 0 <= i < 12
        ensures MonthCount(data[..k + 1], i) == MonthCount(data[..k], i) + (if MonthSlot(data[k]) == Some(i) then 1 else 0)
      {
        OccurrencesAppend(KeysOf(data[..k], MonthSlot), MonthSlot(data[k]), Some(i));
      }
      match data[k].month {
        case None =>
        case Some(v) =>
          var mes := v - 1;
          if mes >= 0 && mes < 12 {
            count[mes] := count[mes] + 1;
          }
      }
      k := k + 1;
    }
    assert data[..k] == data;
    counts := count[..];
  }

  /**
    `processMonthlyData`: exactly twelve rows in calendar order; slot `i`
    holds the number of records of each year whose month is `i + 1`, and
    `diferenca` is the 2024 count minus the 1992 count.
  */
  method ProcessMonthlyData(data1992: seq<Record>, data2024: seq<Record>) returns (rows: seq<MonthRow>)
    ensures |rows| == 12
    ensures forall i :: 0 <= i < 12 ==>
      && rows[i].mes == Meses[i]
      && rows[i].count1992 == MonthCount(data1992, i)
      && rows[i].count2024 == MonthCount(data2024, i)
      && rows[i].diferenca == rows[i].count2024 - rows[i].count1992
  {
    var count1992 := CountMonths(data1992);
    var count2024 := CountMonths(data2024);
    rows := seq(12, i requires 0 <= i < 12 =>
      MonthRow(Meses[i], count1992[i], count2024[i], (count2024[i] as int) - count1992[i]));
  }

  /**
    `processRadarData`: the same twelve rows and the same per-month counts as
    `processMonthlyData`, without the difference column.
  */
  method ProcessRadarData(data1992: seq<Record>, data2024: seq<Record>) returns (rows: seq<RadarRow>)
    ensures |rows| == 12
    ensures forall i :: 0 <= i < 12 ==>
      && rows[i].mes == Meses[i]
      && rows[i].count1992 == MonthCount(data1992, i)
      && rows[i].count2024 == MonthCount(data2024, i)
  {
    var count1992 := CountMonths(data1992);
    var count2024 := CountMonths(data2024);
    rows := seq(12, i requires 0 <= i < 12 => RadarRow(Meses[i], count1992[i], count2024[i]));
  }

  /**
    The twelve counts never exceed the dataset: together with the skipped
    records they add up to its length, so their sum equals the length exactly
    when every record's month parses into 1..12.
  */
  lemma MonthlyTotal(data: seq<Record>)
    ensures |MonthCounts(data)| == 12
    ensures forall i :: 0 <= i < 12 ==> MonthCounts(data)[i] == MonthCount(data, i)
    ensures Sum(MonthCounts(data)) <= |data|
    ensures Sum(MonthCounts(data)) == |data| <==> forall r :: r in data ==> MonthSlot(r).Some?
  {
    var slots := KeysOf(data, MonthSlot);
    var keys := MonthSlots() + [None];
    assert Distinct(keys) by {
      forall i, j | 0 <= i < j < |keys| ensures keys[i] != keys[j] {
        if j < 12 { assert keys[i] == Some(i) && keys[j] == Some(j); }
      }
    }
    forall x | x in slots ensures x in keys {
      var j :| 0 <= j < |slots| && slots[j] == x;
      assert x == MonthSlot(data[j]);
      if x.Some? { assert keys[x.value] == x; } else { assert keys[12] == x; }
    }
    PartitionSum(slots, keys);
    assert CountsFor(slots, keys)[..12] == MonthCounts(data);
    assert Sum(CountsFor(slots, keys)) == Sum(MonthCounts(data)) + Occurrences(slots, None);
    OccurrencesPositive(slots, None);
    if None in slots {
      var i :| 0 <= i < |slots| && slots[i] == None;
      assert data[i] in data && MonthSlot(data[i]) == None;
    }
    forall r | r in data ensures MonthSlot(r) in slots {
      var i :| 0 <= i < |data| && data[i] == r;
      assert slots[i] == MonthSlot(r);
    }
  }

  /** The parsed month of a record, `parseInt(mes_jrl)`. */
  function ParsedMonth(r: Record): Option<int>
  {
    r.month
  }

  /** Slot `i` counts exactly the records whose month parses to `i + 1`. */
  lemma {:induction false} MonthCountIsParsedMonth(data: seq<Record>, i: int)
    requires 0 <= i < 12
    ensures MonthCount(data, i) == Occurrences(KeysOf(data, ParsedMonth), Some(i + 1))
  {
    if data != [] {
      var n := |data| - 1;
      MonthCountIsParsedMonth(data[..n], i);
      KeysOfPrefix(data, n, MonthSlot);
      KeysOfPrefix(data, n, ParsedMonth);
      assert data[..n + 1] == data;
      OccurrencesAppend(KeysOf(data[..n], MonthSlot), MonthSlot(data[n]), Some(i));
      OccurrencesAppend(KeysOf(data[..n], ParsedMonth), ParsedMonth(data[n]), Some(i + 1));
    }
  }
}
