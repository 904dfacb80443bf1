/**
  Category ranking: `processCadernData`. Each year's records are tallied
  under the label `Cad ${cardern_jrl}`; the union of both years' labels
  becomes one row per label with both counts (0 where a year lacks it); rows
  are stably sorted by combined total, largest first, and the first eight kept.
*/
module Categories {
  import opened Tally
  import opened Records
  import Wrappers
  import Strings

  /** `.slice(0, 8)`. */
  const TopN: nat := 8

  datatype CadernRow = CadernRow(caderno: string, count1992: nat, count2024: nat)

  /** `Cad ${item.cardern_jrl}`; a missing value renders as `undefined`. */
  function Label(r: Record): (name: string)
    ensures |name| >= 4 && name[..4] == "Cad " && name[4..] == Render(r.cat)
    ensures Strings.ParseInt(name) == Wrappers.None
  {
    "Cad " + Render(r.cat)
  }

  function Labels(data: seq<Record>): seq<string>
  {
    KeysOf(data, Label)
  }

  /** The sort key: `row['2024'] + row['1992']`. */
  function Total(row: CadernRow): nat
  {
    row.count1992 + row.count2024
  }

  /** The candidate labels: the 1992 keys followed by the 2024 keys, each label kept once, first occurrence first. */
  function UnionLabels(data1992: seq<Record>, data2024: seq<Record>): seq<string>
  {
    Dedup(Dedup(Labels(data1992)) + Dedup(Labels(data2024)))
  }

  /** One row per candidate label, carrying the reference count of each year. */
  function Candidates(data1992: seq<Record>, data2024: seq<Record>): seq<CadernRow>
  {
    var u := UnionLabels(data1992, data2024);
    seq(|u|, i requires 0 <= i < |u| =>
      CadernRow(u[i], Occurrences(Labels(data1992), u[i]), Occurrences(Labels(data2024), u[i])))
  }

  predicate NonIncreasing(s: seq<CadernRow>)
  {
    forall i, j :: 0 <= i < j < |s| ==> Total(s[i]) >= Total(s[j])
  }

  /** The rows of `s` whose total is `t`, in their order in `s`. */
  function WithTotal(s: seq<CadernRow>, t: nat): seq<CadernRow>
  {
    if s == [] then []
    else (if Total(s[0]) == t then [s[0]] else []) + WithTotal(s[1..], t)
  }

  /** Stable insertion of `x` ahead of every row whose total does not exceed its own. */
  function Insert(x: CadernRow, s: seq<CadernRow>): (r: seq<CadernRow>)
    ensures multiset(r) == multiset(s) + multiset{x}
  {
    if s == [] || Total(s[0]) <= Total(x) then [x] + s
    else
      assert s == [s[0]] + s[1..];
      [s[0]] + Insert(x, s[1..])
  }

  lemma NonIncreasingTail(s: seq<CadernRow>)
    requires NonIncreasing(s) && s != []
    ensures NonIncreasing(s[1..])
  {
    forall i, j | 0 <= i < j < |s| - 1 ensures Total(s[1..][i]) >= Total(s[1..][j]) {
      assert s[1..][i] == s[i + 1] && s[1..][j] == s[j + 1];
    }
  }

  lemma InsertMembers(x: CadernRow, s: seq<CadernRow>, y: CadernRow)
    requires y in Insert(x, s)
    ensures y == x || y in s
  {
    assert y in multiset(Insert(x, s));
  }

  lemma {:induction false} InsertNonIncreasing(x: CadernRow, s: seq<CadernRow>)
    requires NonIncreasing(s)
    ensures NonIncreasing(Insert(x, s))
  {
    if s == [] || Total(s[0]) <= Total(x) {
      var r := [x] + s;
      assert Insert(x, s) == r;
      forall i, j | 0 <= i < j < |r| ensures Total(r[i]) >= Total(r[j]) {
        assert r[j] == s[j - 1];
        if i > 0 { assert r[i] == s[i - 1]; } else { assert Total(s[0]) >= Total(s[j - 1]); }
      }
    } else {
      var rest := Insert(x, s[1..]);
      NonIncreasingTail(s);
      InsertNonIncreasing(x, s[1..]);
      var r := [s[0]] + rest;
      assert Insert(x, s) == r;
      forall i, j | 0 <= i < j < |r| ensures Total(r[i]) >= Total(r[j]) {
        if i == 0 {
          InsertMembers(x, s[1..], r[j]);
          if r[j] != x {
            var k :| 0 <= k < |s[1..]| && s[1..][k] == r[j];
            assert s[k + 1] == r[j];
          }
        } else {
          assert r[i] == rest[i - 1] && r[j] == rest[j - 1];
        }
      }
    }
  }

  lemma WithTotalCons(y: CadernRow, s: seq<CadernRow>, t: nat)
    ensures WithTotal([y] + s, t) == (if Total(y) == t then [y] else []) + WithTotal(s, t)
  {
    assert ([y] + s)[1..] == s;
  }

  /** Inserting `x` adds it in front of the rows that tie with it, leaving the other ties alone. */
  lemma {:induction false} InsertWithTotal(x: CadernRow, s: seq<CadernRow>, t: nat)
    ensures WithTotal(Insert(x, s), t) == (if Total(x) == t then [x] else []) + WithTotal(s, t)
  {
    if s == [] || Total(s[0]) <= Total(x) {
      WithTotalCons(x, s, t);
    } else {
      var rest := Insert(x, s[1..]);
      assert Insert(x, s) == [s[0]] + rest;
      WithTotalCons(s[0], rest, t);
      InsertWithTotal(x, s[1..], t);
      assert s == [s[0]] + s[1..];
      WithTotalCons(s[0], s[1..], t);
    }
  }

  /**
    The ranking sort, descending by total and stable: the result is a
    permutation of the rows, ordered by total from largest to smallest, and
    rows with equal totals keep their relative order.
  */
  function SortByTotal(s: seq<CadernRow>): (r: seq<CadernRow>)
    ensures NonIncreasing(r)
    ensures multiset(r) == multiset(s)
    ensures forall t :: WithTotal(r, t) == WithTotal(s, t)
  {
    if s == [] then []
    else
      var rest := SortByTotal(s[1..]);
      assert s == [s[0]] + s[1..];
      InsertNonIncreasing(s[0], rest);
      assert forall t :: WithTotal(Insert(s[0], rest), t) == WithTotal(s, t) by {
        forall t ensures WithTotal(Insert(s[0], rest), t) == WithTotal(s, t) {
          InsertWithTotal(s[0], rest, t);
        }
      }
      Insert(s[0], rest)
  }

  /** The rows the chart shows: the candidates ranked by total, first eight kept. */
  function TopCadernos(data1992: seq<Record>, data2024: seq<Record>): seq<CadernRow>
  {
    Take(SortByTotal(Candidates(data1992, data2024)), TopN)
  }

  /** `processCadernData`: tally both years by label, build the union rows, rank them and keep eight. */
  method ProcessCadernData(data1992: seq<Record>, data2024: seq<Record>) returns (rows: seq<CadernRow>)
    ensures rows == TopCadernos(data1992, data2024)
  {
    var cadernos1992, keys1992 := CountBy(data1992, Label);
    var cadernos2024, keys2024 := CountBy(data2024, Label);
    var allCadernos := Dedup(keys1992 + keys2024);
    var candidates := seq(|allCadernos|, i requires 0 <= i < |allCadernos| =>
      CadernRow(allCadernos[i], Lookup(cadernos1992, allCadernos[i]), Lookup(cadernos2024, allCadernos[i])));
    assert candidates == Candidates(data1992, data2024);
    rows := Take(SortByTotal(candidates), TopN);
  }

  /**
    Before truncation the candidates are exactly the labels seen in either
    year, each once; each row's count is the true count for that year, and it
    is 0 exactly when the label does not occur in that year.
  */
  lemma CandidatesCoverUnion(data1992: seq<Record>, data2024: seq<Record>)
    ensures forall i, j :: 0 <= i < j < |Candidates(data1992, data2024)| ==>
      Candidates(data1992, data2024)[i].caderno != Candidates(data1992, data2024)[j].caderno
    ensures forall l :: l in UnionLabels(data1992, data2024) <==> l in Labels(data1992) || l in Labels(data2024)
    ensures forall i :: 0 <= i < |Candidates(data1992, data2024)| ==>
      var row := Candidates(data1992, data2024)[i];
      && row.caderno == UnionLabels(data1992, data2024)[i]
      && (row.count1992 == 0 <==> row.caderno !in Labels(data1992))
      && (row.count2024 == 0 <==> row.caderno !in Labels(data2024))
  {
    var c := Candidates(data1992, data2024);
    forall i | 0 <= i < |c|
      ensures (c[i].count1992 == 0 <==> c[i].caderno !in Labels(data1992))
      ensures (c[i].count2024 == 0 <==> c[i].caderno !in Labels(data2024))
    {
      OccurrencesPositive(Labels(data1992), c[i].caderno);
      OccurrencesPositive(Labels(data2024), c[i].caderno);
    }
  }

  /** The 1992 column of a list of rows. */
  function Column1992(s: seq<CadernRow>): seq<nat>
  {
    seq(|s|, i requires 0 <= i < |s| => s[i].count1992)
  }

  /** The 2024 column of a list of rows. */
  function Column2024(s: seq<CadernRow>): seq<nat>
  {
    seq(|s|, i requires 0 <= i < |s| => s[i].count2024)
  }

  /**
    No record is dropped: a missing category is grouped under `Cad undefined`,
    so before truncation each year's column adds up to that year's length.
  */
  lemma CandidateColumnsSum(data1992: seq<Record>, data2024: seq<Record>)
    ensures Sum(Column1992(Candidates(data1992, data2024))) == |data1992|
    ensures Sum(Column2024(Candidates(data1992, data2024))) == |data2024|
  {
    var u := UnionLabels(data1992, data2024);
    var c := Candidates(data1992, data2024);
    assert Column1992(c) == CountsFor(Labels(data1992), u);
    assert Column2024(c) == CountsFor(Labels(data2024), u);
    PartitionSum(Labels(data1992), u);
    PartitionSum(Labels(data2024), u);
  }

  /** A record without `cardern_jrl` is counted under `Cad undefined`. */
  lemma MissingCategoryLabel(r: Record)
    requires r.cat == Missing
    ensures Label(r) == "Cad undefined"
  {
  }

  /** Keeping a prefix of a ranked list keeps the largest totals. */
  lemma RankedPrefix(sorted: seq<CadernRow>, n: nat)
    requires NonIncreasing(sorted)
    ensures NonIncreasing(Take(sorted, n))
    ensures forall row, kept :: (row in sorted && row !in Take(sorted, n) && kept in Take(sorted, n)) ==> Total(row) <= Total(kept)
  {
    var top := Take(sorted, n);
    forall row, kept | row in sorted && row !in top && kept in top
      ensures Total(row) <= Total(kept)
    {
      var i :| 0 <= i < |sorted| && sorted[i] == row;
      var j :| 0 <= j < |top| && top[j] == kept;
      assert top[j] == sorted[j];
    }
  }

  /**
    The ranking keeps at most eight rows (eight whenever there are that many
    labels), all of them candidates, in non-increasing order of total, and no
    candidate left out has a larger total than a row that was kept.
  */
  lemma TopCadernosRanked(data1992: seq<Record>, data2024: seq<Record>)
    ensures |TopCadernos(data1992, data2024)| == if |Candidates(data1992, data2024)| <= TopN then |Candidates(data1992, data2024)| else TopN
    ensures NonIncreasing(TopCadernos(data1992, data2024))
    ensures forall row :: row in TopCadernos(data1992, data2024) ==> row in Candidates(data1992, data2024)
    ensures forall row, kept :: (row in Candidates(data1992, data2024) && row !in TopCadernos(data1992, data2024) && kept in TopCadernos(data1992, data2024)) ==> Total(row) <= Total(kept)
  {
    var c := Candidates(data1992, data2024);
    var sorted := SortByTotal(c);
    var top := TopCadernos(data1992, data2024);
    RankedPrefix(sorted, TopN);
    assert |sorted| == |c| by {
      assert |multiset(sorted)| == |multiset(c)|;
    }
    forall row | row in top ensures row in c {
      assert row in sorted;
      assert row in multiset(sorted);
    }
    forall row | row in c ensures row in sorted {
      assert row in multiset(c);
    }
  }

  /** Cutting a list keeps, for every total, a prefix of the rows with that total. */
  lemma {:induction false} WithTotalTake(s: seq<CadernRow>, n: nat, t: nat)
    ensures WithTotal(Take(s, n), t) <= WithTotal(s, t)
  {
    if n > 0 && |s| > n {
      var tail := Take(s[1..], n - 1);
      assert Take(s, n) == [s[0]] + tail;
      WithTotalCons(s[0], tail, t);
      WithTotalTake(s[1..], n - 1, t);
    }
  }

  /**
    Ties keep their first-seen order: for every total, the kept rows with that
    total are the first of the candidates with that total, in union order.
  */
  lemma TopCadernosKeepTieOrder(data1992: seq<Record>, data2024: seq<Record>, t: nat)
    ensures WithTotal(TopCadernos(data1992, data2024), t) <= WithTotal(Candidates(data1992, data2024), t)
  {
    WithTotalTake(SortByTotal(Candidates(data1992, data2024)), TopN, t);
  }
}
