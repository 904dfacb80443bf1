/**
  Summary figures: `getStats`. Raw record totals, the growth from 1992 to
  2024 (relative, guarded against an empty 1992 dataset, and absolute), the
  mean per day over a 365-day year, and the number of distinct raw
  `cardern_jrl` values per year.
*/
module Stats {
  import opened Tally
  import opened Records
  import Wrappers
  import Strings
  import Categories

  /** `mediaDia`: records per day, over a fixed 365-day year. */
  const DaysPerYear: nat := 365

  datatype Stats = Stats(
    total1992: nat,
    total2024: nat,
    crescimento: real,
    crescimentoAbs: int,
    mediaDia1992: real,
    mediaDia2024: real,
    cadernos1992: nat,
    cadernos2024: nat)

  function RawCat(r: Record): CatValue
  {
    r.cat
  }

  /**
    `new Set(data.map(item => item.cardern_jrl)).size`: the size of the set of
    raw category values, at most one per record and none only for an empty
    dataset.
  */
  function DistinctCats(data: seq<Record>): (n: nat)
    ensures n == |set r | r in data :: r.cat|
    ensures n <= |data|
    ensures n == 0 <==> |data| == 0
  {
    var cats := KeysOf(data, RawCat);
    var d := Dedup(cats);
    DistinctCard(d);
    assert (set x | x in d) == (set r | r in data :: r.cat) by {
      forall x | x in d ensures exists r :: r in data && r.cat == x {
        var i :| 0 <= i < |cats| && cats[i] == x;
        assert cats[i] == RawCat(data[i]);
        assert data[i] in data && data[i].cat == x;
      }
      forall r | r in data ensures r.cat in d {
        var i :| 0 <= i < |data| && data[i] == r;
        assert cats[i] == RawCat(data[i]) == r.cat;
      }
    }
    |d|
  }

  /** `(t2024 - t1992) / t1992 * 100`, or 0 when there is no 1992 record. */
  function Growth(total1992: nat, total2024: nat): (g: real)
    ensures total1992 == 0 ==> g == 0.0
    ensures total1992 > 0 ==> g * (total1992 as real) == ((total2024 - total1992) as real) * 100.0
    ensures g > 0.0 <==> total1992 > 0 && total2024 > total1992
    ensures g < 0.0 <==> total1992 > 0 && total2024 < total1992
  {
    if total1992 > 0 then ((total2024 - total1992) as real) / (total1992 as real) * 100.0 else 0.0
  }

  /**
    `getStats`: the totals are the raw, unfiltered lengths; growth is never a
    division by zero; the absolute growth is the difference of the totals;
    each distinct-category count is the number of distinct raw
    `cardern_jrl` values of its year, at most its total and 0 only for an
    empty dataset.
  */
  function GetStats(data1992: seq<Record>, data2024: seq<Record>): (s: Stats)
    ensures s.total1992 == |data1992| && s.total2024 == |data2024|
    ensures s.crescimentoAbs == |data2024| - |data1992|
    ensures |data1992| == 0 ==> s.crescimento == 0.0
    ensures |data1992| > 0 ==> s.crescimento * (|data1992| as real) == (s.crescimentoAbs as real) * 100.0
    ensures s.mediaDia1992 * (DaysPerYear as real) == |data1992| as real
    ensures s.mediaDia2024 * (DaysPerYear as real) == |data2024| as real
    ensures s.cadernos1992 == |set r | r in data1992 :: r.cat|
    ensures s.cadernos2024 == |set r | r in data2024 :: r.cat|
    ensures s.cadernos1992 <= s.total1992 && (s.cadernos1992 == 0 <==> s.total1992 == 0)
    ensures s.cadernos2024 <= s.total2024 && (s.cadernos2024 == 0 <==> s.total2024 == 0)
  {
    Stats(
      |data1992|,
      |data2024|,
      Growth(|data1992|, |data2024|),
      |data2024| - |data1992|,
      (|data1992| as real) / (DaysPerYear as real),
      (|data2024| as real) / (DaysPerYear as real),
      DistinctCats(data1992),
      DistinctCats(data2024))
  }

  /**
    Distinct raw values never number fewer than the distinct `Cad ...` labels
    they render to, since a label is a function of the raw value.
  */
  lemma LabelsAtMostDistinctCats(data: seq<Record>)
    ensures |Dedup(Categories.Labels(data))| <= DistinctCats(data)
  {
    DedupCoarser(data, RawCat, Categories.Label);
  }

  /**
    The two counts can differ: the number 1 and the string "1" are two
    distinct raw values but share the label `Cad 1`.
  */
  lemma RawCatsCanOutnumberLabels()
    ensures var data := [Record(Wrappers.None, Number(1), 1), Record(Wrappers.None, Text("1"), 1)];
      DistinctCats(data) == 2 && |Dedup(Categories.Labels(data))| == 1
  {
    var data := [Record(Wrappers.None, Number(1), 1), Record(Wrappers.None, Text("1"), 1)];
    assert Strings.DigitChar(1) == '1';
    assert Render(Number(1)) == "1" == Render(Text("1"));
    var cats := KeysOf(data, RawCat);
    assert |cats| == 2 && cats[0] == RawCat(data[0]) && cats[1] == RawCat(data[1]);
    assert cats == [Number(1), Text("1")];
    assert cats[..1] == [Number(1)];
    var labels := Categories.Labels(data);
    assert |labels| == 2 && labels[0] == Categories.Label(data[0]) && labels[1] == Categories.Label(data[1]);
    assert Categories.Label(data[0]) == "Cad " + "1" == "Cad 1";
    assert Categories.Label(data[1]) == "Cad 1";
    assert labels == ["Cad 1", "Cad 1"];
    assert labels[..1] == ["Cad 1"];
  }
}
