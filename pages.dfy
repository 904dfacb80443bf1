/**
  Page distribution: `processPageData`. Each year's records are tallied by
  the start of their five-page range, `Math.floor(pgn_jrl / 5) * 5`; the union
  of both years' starts is sorted in ascending numeric order, the first ten
  are kept, and each becomes a row labelled `start-(start+4)` with both counts.
*/
module Pages {
  import opened Wrappers
  import opened Tally
  import opened Records
  import opened Strings

  /** The range width: each range spans five pages. */
  const Width: int := 5

  /** `.slice(0, 10)`. */
  const TopN: nat := 10

  datatype PageRow = PageRow(pagina: string, count1992: nat, count2024: nat)

  /**
    `Math.floor(page / 5) * 5`. Dafny's `/` on `int` rounds towards negative
    infinity for a positive divisor, as `Math.floor` of the quotient does.
  */
  function RangeStart(page: int): (start: int)
    ensures start % Width == 0
    ensures start <= page <= start + 4
  {
    (page / Width) * Width
  }

  function Bucket(r: Record): int
  {
    RangeStart(r.page)
  }

  function Starts(data: seq<Record>): seq<int>
  {
    KeysOf(data, Bucket)
  }

  /** The observed range starts: the 1992 keys followed by the 2024 keys, each start kept once. */
  function UnionStarts(data1992: seq<Record>, data2024: seq<Record>): seq<int>
  {
    Dedup(Dedup(Starts(data1992)) + Dedup(Starts(data2024)))
  }

  predicate Ascending(s: seq<int>)
  {
    forall i, j :: 0 <= i < j < |s| ==> s[i] <= s[j]
  }

  predicate StrictlyAscending(s: seq<int>)
  {
    forall i, j :: 0 <= i < j < |s| ==> s[i] < s[j]
  }

  function InsertAscending(x: int, s: seq<int>): (r: seq<int>)
    ensures multiset(r) == multiset(s) + multiset{x}
  {
    if s == [] || x <= s[0] then [x] + s
    else
      assert s == [s[0]] + s[1..];
      [s[0]] + InsertAscending(x, s[1..])
  }

  lemma InsertAscendingMembers(x: int, s: seq<int>, y: int)
    requires y in InsertAscending(x, s)
    ensures y == x || y in s
  {
    assert y in multiset(InsertAscending(x, s));
  }

  /** Insertion keeps a sorted list sorted. */
  lemma {:induction false} InsertAscendingSorted(x: int, s: seq<int>)
    requires Ascending(s)
    ensures Ascending(InsertAscending(x, s))
  {
    if s != [] && x > s[0] {
      var rest := InsertAscending(x, s[1..]);
      InsertAscendingSorted(x, s[1..]);
      var r := [s[0]] + rest;
      forall i, j | 0 <= i < j < |r| ensures r[i] <= r[j] {
        if i == 0 {
          InsertAscendingMembers(x, s[1..], r[j]);
        } else {
          assert r[i] == rest[i - 1] && r[j] == rest[j - 1];
        }
      }
    }
  }

  /** Inserting a new value into a strictly ascending list keeps it strictly ascending. */
  lemma {:induction false} InsertAscendingStrict(x: int, s: seq<int>)
    requires StrictlyAscending(s)
    requires x !in s
    ensures StrictlyAscending(InsertAscending(x, s))
  {
    if s != [] && x > s[0] {
      var rest := InsertAscending(x, s[1..]);
      assert x !in s[1..];
      InsertAscendingStrict(x, s[1..]);
      var r := [s[0]] + rest;
      forall i, j | 0 <= i < j < |r| ensures r[i] < r[j] {
        if i == 0 {
          InsertAscendingMembers(x, s[1..], r[j]);
        } else {
          assert r[i] == rest[i - 1] && r[j] == rest[j - 1];
        }
      }
    } else if s != [] {
      assert x < s[0];
    }
  }

  lemma DistinctTail(s: seq<int>)
    requires Distinct(s) && s != []
    ensures Distinct(s[1..]) && s[0] !in s[1..]
  {
    forall i, j | 0 <= i < j < |s| - 1 ensures s[1..][i] != s[1..][j] {
      assert s[1..][i] == s[i + 1] && s[1..][j] == s[j + 1];
    }
  }

  /**
    The numeric sort of the range starts: a permutation in ascending order, strictly
    ascending when the input has no repeated value.
  */
  function SortAscending(s: seq<int>): (r: seq<int>)
    ensures Ascending(r)
    ensures multiset(r) == multiset(s)
    ensures Distinct(s) ==> StrictlyAscending(r)
  {
    if s == [] then []
    else
      var rest := SortAscending(s[1..]);
      assert s == [s[0]] + s[1..];
      InsertAscendingSorted(s[0], rest);
      SortStrictStep(s, rest);
      InsertAscending(s[0], rest)
  }

  lemma SortStrictStep(s: seq<int>, rest: seq<int>)
    requires s != []
    requires multiset(rest) == multiset(s[1..])
    requires Distinct(s[1..]) ==> StrictlyAscending(rest)
    ensures Distinct(s) ==> StrictlyAscending(InsertAscending(s[0], rest))
  {
    if Distinct(s) {
      DistinctTail(s);
      assert s[0] !in multiset(rest);
      InsertAscendingStrict(s[0], rest);
    }
  }

  /** The range starts the chart shows: the ten lowest, ascending. */
  function ShownStarts(data1992: seq<Record>, data2024: seq<Record>): seq<int>
  {
    Take(SortAscending(UnionStarts(data1992, data2024)), TopN)
  }

  /** `${page}-${parseInt(page) + 4}`, with `page` the dictionary key `String(start)`. */
  function RangeLabel(start: int): (name: string)
    ensures var n := |IntToString(start)|;
      && |name| > n + 1
      && ParseInt(name[..n]) == Some(start)
      && name[n] == '-'
      && ParseInt(name[n + 1..]) == Some(start + 4)
  {
    var a, b := IntToString(start), IntToString(start + 4);
    IntRoundTrip(start);
    IntRoundTrip(start + 4);
    var name := a + "-" + b;
    assert name[..|a|] == a && name[|a| + 1..] == b;
    name
  }

  /** The rows the chart shows, each with the reference count of both years. */
  function PageRows(data1992: seq<Record>, data2024: seq<Record>): seq<PageRow>
  {
    var ks := ShownStarts(data1992, data2024);
    seq(|ks|, i requires 0 <= i < |ks| =>
      PageRow(RangeLabel(ks[i]), Occurrences(Starts(data1992), ks[i]), Occurrences(Starts(data2024), ks[i])))
  }

  /** `processPageData`: tally both years by range start, sort the union of starts, keep ten, label them. */
  method ProcessPageData(data1992: seq<Record>, data2024: seq<Record>) returns (rows: seq<PageRow>)
    ensures rows == PageRows(data1992, data2024)
  {
    var pages1992, keys1992 := CountBy(data1992, Bucket);
    var pages2024, keys2024 := CountBy(data2024, Bucket);
    var allPages := Take(SortAscending(Dedup(keys1992 + keys2024)), TopN);
    rows := seq(|allPages|, i requires 0 <= i < |allPages| =>
      PageRow(RangeLabel(allPages[i]), Lookup(pages1992, allPages[i]), Lookup(pages2024, allPages[i])));
  }

  /**
    Every page lies in exactly one range: no multiple of five other than
    `RangeStart(page)` starts a range covering it.
  */
  lemma RangeStartUnique(page: int, start: int)
    requires start % Width == 0
    requires start <= page <= start + 4
    ensures start == RangeStart(page)
  {
    var q := start / Width;
    assert start == q * Width;
    assert page == q * Width + (page - start);
    assert page / Width == q;
  }

  /** The key parsed back in the label is the range start: `parseInt(String(start)) == start`. */
  lemma RangeLabelParsesStart(start: int)
    ensures ParseInt(IntToString(start)) == Some(start)
    ensures RangeLabel(start) == IntToString(start) + "-" + IntToString(ParseInt(IntToString(start)).value + 4)
  {
    IntRoundTrip(start);
  }

  /**
    Partition: before truncation, the counts per range start of one year add
    up to that year's length, so no record is lost or counted twice.
  */
  lemma PagePartition(data1992: seq<Record>, data2024: seq<Record>)
    ensures Sum(CountsFor(Starts(data1992), UnionStarts(data1992, data2024))) == |data1992|
    ensures Sum(CountsFor(Starts(data2024), UnionStarts(data1992, data2024))) == |data2024|
  {
    PartitionSum(Starts(data1992), UnionStarts(data1992, data2024));
    PartitionSum(Starts(data2024), UnionStarts(data1992, data2024));
  }

  /**
    The chart shows at most ten ranges (ten whenever there are that many), in
    strictly ascending order of start, each observed in some year, and they
    are the lowest: every observed start left out is above every shown one.
  */
  lemma ShownStartsLowest(data1992: seq<Record>, data2024: seq<Record>)
    ensures |ShownStarts(data1992, data2024)| == if |UnionStarts(data1992, data2024)| <= TopN then |UnionStarts(data1992, data2024)| else TopN
    ensures StrictlyAscending(ShownStarts(data1992, data2024))
    ensures forall k :: k in ShownStarts(data1992, data2024) ==> k in Starts(data1992) || k in Starts(data2024)
    ensures forall k, shown :: (k in UnionStarts(data1992, data2024) && k !in ShownStarts(data1992, data2024) && shown in ShownStarts(data1992, data2024)) ==> shown < k
  {
    var u := UnionStarts(data1992, data2024);
    var sorted := SortAscending(u);
    var top := ShownStarts(data1992, data2024);
    assert |sorted| == |u| by {
      assert |multiset(sorted)| == |multiset(u)|;
    }
    forall k | k in top ensures k in u {
      assert k in sorted;
      assert k in multiset(sorted);
    }
    forall k, shown | k in u && k !in top && shown in top
      ensures shown < k
    {
      assert k in multiset(u);
      var i :| 0 <= i < |sorted| && sorted[i] == k;
      var j :| 0 <= j < |top| && top[j] == shown;
      assert top[j] == sorted[j];
    }
  }

  /** The row for each shown start carries its label and both years' true counts. */
  lemma PageRowsFaithful(data1992: seq<Record>, data2024: seq<Record>)
    ensures |PageRows(data1992, data2024)| == |ShownStarts(data1992, data2024)|
    ensures forall i :: 0 <= i < |PageRows(data1992, data2024)| ==>
      var k := ShownStarts(data1992, data2024)[i];
      && PageRows(data1992, data2024)[i].pagina == RangeLabel(k)
      && (PageRows(data1992, data2024)[i].count1992 > 0 <==> k in Starts(data1992))
      && (PageRows(data1992, data2024)[i].count2024 > 0 <==> k in Starts(data2024))
  {
    var ks := ShownStarts(data1992, data2024);
    forall i | 0 <= i < |ks|
      ensures Occurrences(Starts(data1992), ks[i]) > 0 <==> ks[i] in Starts(data1992)
      ensures Occurrences(Starts(data2024), ks[i]) > 0 <==> ks[i] in Starts(data2024)
    {
      OccurrencesPositive(Starts(data1992), ks[i]);
      OccurrencesPositive(Starts(data2024), ks[i]);
    }
  }

  /** Every record carries a page here, so the chart is empty exactly when both datasets are. */
  lemma PageRowsEmpty(data1992: seq<Record>, data2024: seq<Record>)
    ensures PageRows(data1992, data2024) == [] <==> data1992 == [] && data2024 == []
  {
    var u := UnionStarts(data1992, data2024);
    assert |SortAscending(u)| == |u| by {
      assert |multiset(SortAscending(u))| == |multiset(u)|;
    }
    if data1992 != [] {
      assert Starts(data1992)[0] in Starts(data1992);
    }
    if data2024 != [] {
      assert Starts(data2024)[0] in Starts(data2024);
    }
  }
}
