/**
 * The summary sentence of `getPortfolioAnalysis`: the entries of `sectorDiversification`
 * sorted by the comparator `(a, b) => b[1] - a[1]` under JavaScript's stable sort (largest
 * percentage first, equal percentages in insertion order), the first two kept, their
 * sector names joined with " and " and set in a fixed sentence.
 */
module SectorRanking {
  import opened JsObject

  /** An entry of `Object.entries(sectorDiversification)` with its position in that list. */
  type Ranked = (nat, (string, real))

  function Tagged(d: Dict): (r: seq<Ranked>)
    ensures |r| == |d|
    ensures forall i :: 0 <= i < |d| ==> r[i] == (i, d[i])
  {
    seq(|d|, i requires 0 <= i < |d| => (i, d[i]))
  }

  /**
   * The order a stable sort with comparator `b[1] - a[1]` produces: x goes before y when its
   * percentage is larger, or when the two are equal and x came first.
   */
  predicate Precedes(x: Ranked, y: Ranked)
  {
    x.1.1 > y.1.1 || (x.1.1 == y.1.1 && x.0 < y.0)
  }

  predicate Sorted(s: seq<Ranked>)
  {
    forall i, j :: 0 <= i < j < |s| ==> Precedes(s[i], s[j])
  }

  predicate DistinctPositions(s: seq<Ranked>)
  {
    forall i, j :: 0 <= i < j < |s| ==> s[i].0 != s[j].0
  }

  /** Inserts x after every entry that goes before it. */
  function Insert(x: Ranked, s: seq<Ranked>): (r: seq<Ranked>)
    decreases |s|
    ensures |r| == |s| + 1
    ensures multiset(r) == multiset(s) + multiset{x}
  {
    if s == [] then [x]
    else if Precedes(s[0], x) then
      assert s == [s[0]] + s[1..];
      [s[0]] + Insert(x, s[1..])
    else [x] + s
  }

  /** Insertion sort, taking the entries in list order. */
  function StableSort(s: seq<Ranked>): (r: seq<Ranked>)
    decreases |s|
    ensures |r| == |s|
    ensures multiset(r) == multiset(s)
  {
    if s == [] then []
    else
      assert s == s[..|s| - 1] + [s[|s| - 1]];
      Insert(s[|s| - 1], StableSort(s[..|s| - 1]))
  }

  lemma {:induction false} InsertSorted(x: Ranked, s: seq<Ranked>)
    requires Sorted(s)
    requires forall i :: 0 <= i < |s| ==> s[i].0 != x.0
    ensures Sorted(Insert(x, s))
    decreases |s|
  {
    if s != [] && Precedes(s[0], x) {
      var rest := s[1..];
      InsertSorted(x, rest);
      InsertFirst(x, s);
    } else if s != [] {
      forall j | 0 <= j < |s|
        ensures Precedes(x, s[j])
      {
        assert j == 0 || Precedes(s[0], s[j]);
      }
      SortedCons(x, s);
    }
  }

  /** When s[0] goes before x, it also goes before everything x is inserted among. */
  lemma {:induction false} InsertFirst(x: Ranked, s: seq<Ranked>)
    requires s != [] && Sorted(s) && Precedes(s[0], x)
    requires Sorted(Insert(x, s[1..]))
    ensures Sorted(Insert(x, s))
  {
    var r := Insert(x, s[1..]);
    forall j | 0 <= j < |r|
      ensures Precedes(s[0], r[j])
    {
      HeadPrecedes(x, s, r[j]);
    }
    SortedCons(s[0], r);
  }

  lemma {:induction false} HeadPrecedes(x: Ranked, s: seq<Ranked>, e: Ranked)
    requires s != [] && Sorted(s) && Precedes(s[0], x)
    requires e in multiset(Insert(x, s[1..]))
    ensures Precedes(s[0], e)
  {
    if e != x {
      var rest := s[1..];
      assert e in multiset(rest);
      var m :| 0 <= m < |rest| && rest[m] == e;
      assert s[m + 1] == e;
    }
  }

  lemma {:induction false} SortedCons(x: Ranked, s: seq<Ranked>)
    requires Sorted(s)
    requires forall j :: 0 <= j < |s| ==> Precedes(x, s[j])
    ensures Sorted([x] + s)
  {
    var r := [x] + s;
    forall i, j | 0 <= i < j < |r|
      ensures Precedes(r[i], r[j])
    {
      assert r[j] == s[j - 1];
      if i > 0 {
        assert r[i] == s[i - 1];
      }
    }
  }

  /** Entries with distinct positions come out sorted. */
  lemma {:induction false} StableSortSorted(s: seq<Ranked>)
    requires DistinctPositions(s)
    ensures Sorted(StableSort(s))
    decreases |s|
  {
    if s != [] {
      var init, last := s[..|s| - 1], s[|s| - 1];
      var sorted := StableSort(init);
      StableSortSorted(init);
      forall i | 0 <= i < |sorted|
        ensures sorted[i].0 != last.0
      {
        assert sorted[i] in multiset(init);
        var m :| 0 <= m < |init| && init[m] == sorted[i];
        assert s[m] == sorted[i];
      }
      InsertSorted(last, sorted);
    }
  }

  /** Two sorted lists holding the same entries are the same list: the order leaves no choice. */
  lemma {:induction false} SortedUnique(a: seq<Ranked>, b: seq<Ranked>)
    requires Sorted(a) && Sorted(b) && multiset(a) == multiset(b)
    ensures a == b
    decreases |a|
  {
    assert |a| == |multiset(a)| == |b|;
    if a != [] {
      SortedHeads(a, b);
      MultisetTail(a, b);
      SortedUnique(a[1..], b[1..]);
    }
  }

  /** The first entry of a sorted list goes before all the others, so two such lists start alike. */
  lemma {:induction false} SortedHeads(a: seq<Ranked>, b: seq<Ranked>)
    requires Sorted(a) && Sorted(b) && multiset(a) == multiset(b) && a != []
    ensures b != [] && a[0] == b[0]
  {
    assert a[0] in multiset(b);
    var k :| 0 <= k < |b| && b[k] == a[0];
    assert b[0] in multiset(a);
    assert k == 0;
  }

  lemma {:induction false} MultisetTail(a: seq<Ranked>, b: seq<Ranked>)
    requires a != [] && b != [] && a[0] == b[0] && multiset(a) == multiset(b)
    ensures multiset(a[1..]) == multiset(b[1..])
  {
    var ta, tb := multiset(a[1..]), multiset(b[1..]);
    assert a == [a[0]] + a[1..] && b == [b[0]] + b[1..];
    assert multiset(a) == multiset{a[0]} + ta;
    assert multiset(b) == multiset{a[0]} + tb;
    forall x
      ensures ta[x] == tb[x]
    {
      assert multiset(a)[x] == multiset{a[0]}[x] + ta[x];
      assert multiset(b)[x] == multiset{a[0]}[x] + tb[x];
    }
    assert ta == tb;
  }

  /** The entries of `sectorDiversification` in the order the sort leaves them. */
  function Ranking(d: Dict): seq<Ranked>
  {
    StableSort(Tagged(d))
  }

  /**
   * The ranking is sorted and holds each entry once, so it is the one order any stable sort
   * with that comparator produces.
   */
  lemma {:induction false} RankingIsStableSort(d: Dict, t: seq<Ranked>)
    ensures |Ranking(d)| == |d|
    ensures multiset(Ranking(d)) == multiset(Tagged(d))
    ensures Sorted(Ranking(d))
    ensures Sorted(t) && multiset(t) == multiset(Tagged(d)) ==> t == Ranking(d)
  {
    StableSortSorted(Tagged(d));
    if Sorted(t) && multiset(t) == multiset(Tagged(d)) {
      SortedUnique(t, Ranking(d));
    }
  }

  /** Every ranked entry is the entry of d at the position it carries. */
  lemma {:induction false} RankedEntry(d: Dict, k: nat)
    requires k < |Ranking(d)|
    ensures Ranking(d)[k].0 < |d| && Ranking(d)[k].1 == d[Ranking(d)[k].0]
  {
    var r := Ranking(d);
    assert r[k] in multiset(Tagged(d));
    var m :| 0 <= m < |d| && Tagged(d)[m] == r[k];
  }

  /** `.slice(0, 2).map(([sector]) => sector)` on the ranked entries. */
  function TopSectors(d: Dict): seq<string>
  {
    var r := Ranking(d);
    var n := if |r| < 2 then |r| else 2;
    seq(n, k requires 0 <= k < n => r[k].1.0)
  }

  /**
   * At most two sectors are named, and the k-th named sector is the k-th ranked entry: its
   * percentage is larger than that of any entry not named up to k, or equal and earlier.
   */
  lemma {:induction false} TopSectorsRankFirst(d: Dict, k: nat, j: nat)
    requires k < |TopSectors(d)| && j < |d|
    requires forall m :: 0 <= m <= k ==> Ranking(d)[m].0 != j
    ensures |TopSectors(d)| == if |d| < 2 then |d| else 2
    ensures var p := Ranking(d)[k].0;
      p < |d| && TopSectors(d)[k] == d[p].0 &&
      (d[p].1 > d[j].1 || (d[p].1 == d[j].1 && p < j))
  {
    var r := Ranking(d);
    RankingIsStableSort(d, r);
    RankedEntry(d, k);
    assert Tagged(d)[j] in multiset(r);
    var m :| 0 <= m < |r| && r[m] == (j, d[j]);
    assert Precedes(r[k], r[m]);
  }

  const SummaryLead := "Your portfolio is mostly concentrated in "
  const SummaryTail := " sectors. Consider diversifying into other sectors to reduce risk."

  /** The `summary` field of the analysis. */
  function Summary(d: Dict): string
  {
    SummaryLead + Join(TopSectors(d), " and ") + SummaryTail
  }

  /**
   * The sentence names the top sector, or the top two joined by " and "; with no sector
   * the name slot is left empty.
   */
  lemma {:induction false} SummaryNames(d: Dict)
    ensures |d| == 0 ==> Summary(d) == SummaryLead + SummaryTail
    ensures |d| == 1 ==> Summary(d) == SummaryLead + d[0].0 + SummaryTail
    ensures |d| >= 2 ==>
      |TopSectors(d)| == 2 &&
      Summary(d) == SummaryLead + TopSectors(d)[0] + " and " + TopSectors(d)[1] + SummaryTail
  {
    var top := TopSectors(d);
    RankingIsStableSort(d, Ranking(d));
    if |d| == 1 {
      RankedEntry(d, 0);
    } else if |d| >= 2 {
      assert top[1..] == [top[1]];
      var names := top[0] + " and " + top[1];
      assert Join(top, " and ") == names;
      assert SummaryLead + names + SummaryTail == SummaryLead + top[0] + " and " + top[1] + SummaryTail;
    }
  }
}
