/**
 * Plain JavaScript objects and arrays as the controllers use them. An object with string
 * keys and numeric values is its list of entries in insertion order, which is the order
 * `Object.keys` and `Object.entries` report; a well-formed object has no key twice.
 */
module JsObject {
  import opened Sums

  type Dict = seq<(string, real)>

  function Keys(d: Dict): (ks: seq<string>)
    decreases |d|
    ensures |ks| == |d|
    ensures forall i :: 0 <= i < |d| ==> ks[i] == d[i].0
  {
    if d == [] then [] else Keys(d[..|d| - 1]) + [d[|d| - 1].0]
  }

  /** The keys of the first j + 1 entries: those of the first j, then the j-th. */
  lemma {:induction false} KeysPrefixSnoc(d: Dict, j: nat)
    requires j < |d|
    ensures Keys(d)[..j + 1] == Keys(d)[..j] + [d[j].0]
  {
    var a, b := Keys(d)[..j + 1], Keys(d)[..j] + [d[j].0];
    assert |a| == |b|;
    forall i | 0 <= i <= j
      ensures a[i] == b[i]
    {
      if i < j {
        assert a[i] == Keys(d)[i] == b[i];
      }
    }
  }

  predicate DistinctKeys(d: Dict)
  {
    Distinct(Keys(d))
  }

  function EntryValue(e: (string, real)): real
  {
    e.1
  }

  /** The sum of all values of an object, left to right. */
  function SumValues(d: Dict): real
    decreases |d|
  {
    if d == [] then 0.0 else SumValues(d[..|d| - 1]) + d[|d| - 1].1
  }

  lemma {:induction false} SumValuesIsSumBy(d: Dict)
    ensures SumValues(d) == SumBy(d, EntryValue)
    decreases |d|
  {
    if d != [] {
      SumValuesIsSumBy(d[..|d| - 1]);
    }
  }

  predicate NonNegativeValues(d: Dict)
  {
    forall i :: 0 <= i < |d| ==> 0.0 <= d[i].1
  }

  /** `d[k] || 0`: the value bound to k (the last binding, as JSON.parse keeps it), or 0 when k is absent. */
  function Get(d: Dict, k: string): (v: real)
    decreases |d|
    ensures k !in Keys(d) ==> v == 0.0
  {
    if d == [] then 0.0
    else
      assert Keys(d[..|d| - 1]) == Keys(d)[..|d| - 1];
      if d[|d| - 1].0 == k then d[|d| - 1].1 else Get(d[..|d| - 1], k)
  }

  function GetOf(d: Dict): string -> real
  {
    k => Get(d, k)
  }

  lemma {:induction false} GetAt(d: Dict, i: nat)
    requires DistinctKeys(d) && i < |d|
    ensures Get(d, d[i].0) == d[i].1
    decreases |d|
  {
    if i < |d| - 1 {
      var init := d[..|d| - 1];
      assert Keys(init) == Keys(d)[..|d| - 1];
      assert Keys(d)[i] != Keys(d)[|d| - 1];
      GetAt(init, i);
    }
  }

  lemma {:induction false} GetNonNegative(d: Dict, k: string)
    requires NonNegativeValues(d)
    ensures 0.0 <= Get(d, k)
    decreases |d|
  {
    if d != [] && d[|d| - 1].0 != k {
      GetNonNegative(d[..|d| - 1], k);
    }
  }

  /** Summing the value of each key over the key list gives the sum of the values. */
  lemma {:induction false} SumOfGetsOverKeys(d: Dict)
    requires DistinctKeys(d)
    ensures SumBy(Keys(d), GetOf(d)) == SumValues(d)
    decreases |d|
  {
    if d != [] {
      var init, last := d[..|d| - 1], d[|d| - 1];
      assert Keys(d) == Keys(init) + [last.0];
      assert Keys(d)[..|d| - 1] == Keys(init);
      assert DistinctKeys(init);
      forall i | 0 <= i < |Keys(init)|
        ensures GetOf(d)(Keys(init)[i]) == GetOf(init)(Keys(init)[i])
      {
        assert Keys(d)[i] != Keys(d)[|d| - 1];
      }
      SumByPointwiseEqual(Keys(init), GetOf(d), GetOf(init));
      SumOfGetsOverKeys(init);
    }
  }

  function InKeys(d: Dict): string -> bool
  {
    k => k in Keys(d)
  }

  /** Summing the value of each name over any list of distinct names that covers the keys gives the sum of the values. */
  lemma {:induction false} SumOfGetsOverCover(d: Dict, t: seq<string>)
    requires DistinctKeys(d) && Distinct(t)
    requires forall k :: k in Keys(d) ==> k in t
    ensures SumBy(t, GetOf(d)) == SumValues(d)
  {
    SumByDropZeros(t, GetOf(d), InKeys(d));
    FilterDistinct(t, InKeys(d));
    SameElementsPermutation(Filter(t, InKeys(d)), Keys(d));
    SumByPermutation(Filter(t, InKeys(d)), Keys(d), GetOf(d));
    SumOfGetsOverKeys(d);
  }

  /** The first position of k in s. */
  function IndexOf(s: seq<string>, k: string): (i: nat)
    requires k in s
    ensures i < |s| && s[i] == k
    ensures forall j :: 0 <= j < i ==> s[j] != k
  {
    if s[0] == k then 0 else 1 + IndexOf(s[1..], k)
  }

  /** `d[k] = v`: an existing key keeps its place, a new key goes last. */
  function Put(d: Dict, k: string, v: real): (r: Dict)
    requires DistinctKeys(d)
    ensures Keys(r) == if k in Keys(d) then Keys(d) else Keys(d) + [k]
    ensures DistinctKeys(r)
  {
    if k in Keys(d) then
      var i := IndexOf(Keys(d), k);
      d[i := (k, v)]
    else
      d + [(k, v)]
  }

  /** Entry by entry: the entry named k now holds v, every other entry is unchanged, and a new k comes last. */
  lemma {:induction false} PutAt(d: Dict, k: string, v: real)
    requires DistinctKeys(d)
    ensures |Put(d, k, v)| == if k in Keys(d) then |d| else |d| + 1
    ensures forall j :: 0 <= j < |d| ==> Put(d, k, v)[j] == if d[j].0 == k then (k, v) else d[j]
    ensures k !in Keys(d) ==> Put(d, k, v)[|d|] == (k, v)
  {
    if k in Keys(d) {
      var i := IndexOf(Keys(d), k);
      forall j | 0 <= j < |d| && j != i
        ensures d[j].0 != k
      {
        assert Keys(d)[j] != Keys(d)[i];
      }
    }
  }

  /** After `d[k] = v`, reading k gives v and reading any other key gives what it gave before. */
  lemma {:induction false} GetPut(d: Dict, k: string, v: real, k': string)
    requires DistinctKeys(d)
    ensures Get(Put(d, k, v), k') == if k' == k then v else Get(d, k')
  {
    var r := Put(d, k, v);
    PutAt(d, k, v);
    if k' == k {
      var i := if k in Keys(d) then IndexOf(Keys(d), k) else |d|;
      GetAt(r, i);
    } else if k' in Keys(d) {
      var j := IndexOf(Keys(d), k');
      GetAt(r, j);
      GetAt(d, j);
    }
  }

  /** Assigning a key the object does not hold appends an entry. */
  lemma {:induction false} PutNew(d: Dict, k: string, v: real)
    requires DistinctKeys(d) && k !in Keys(d)
    ensures Put(d, k, v) == d + [(k, v)]
  {
    var r := Put(d, k, v);
    PutAt(d, k, v);
    forall j | 0 <= j < |d|
      ensures r[j] == d[j]
    {
      assert Keys(d)[j] == d[j].0;
    }
  }

  /** A second assignment to the same key overrides the first and leaves the key where it was. */
  lemma {:induction false} PutPut(d: Dict, k: string, a: real, b: real)
    requires DistinctKeys(d)
    ensures Put(Put(d, k, a), k, b) == Put(d, k, b)
  {
    var r1 := Put(d, k, a);
    var r2, r3 := Put(r1, k, b), Put(d, k, b);
    PutAt(d, k, a);
    PutAt(r1, k, b);
    PutAt(d, k, b);
    forall j | 0 <= j < |r2|
      ensures r2[j] == r3[j]
    {
      if j < |d| {
        assert r1[j].0 == d[j].0;
      } else {
        assert k !in Keys(d) && j == |d|;
      }
    }
  }

  /** `d[k] += delta`, with a missing key read as 0. */
  function AddTo(d: Dict, k: string, delta: real): Dict
    requires DistinctKeys(d)
  {
    Put(d, k, Get(d, k) + delta)
  }

  /** After `d[k] += delta`, reading k gives delta more and reading any other key is unchanged. */
  lemma {:induction false} GetAddTo(d: Dict, k: string, delta: real, k': string)
    requires DistinctKeys(d)
    ensures Get(AddTo(d, k, delta), k') == if k' == k then Get(d, k) + delta else Get(d, k')
  {
    var v := Get(d, k) + delta;
    var r := Put(d, k, v);
    GetPut(d, k, v, k');
    assert Get(r, k') == if k' == k then v else Get(d, k');
    assert AddTo(d, k, delta) == r;
  }

  /** `parts.join(sep)` */
  function Join(parts: seq<string>, sep: string): string
    decreases |parts|
  {
    if |parts| == 0 then ""
    else if |parts| == 1 then parts[0]
    else parts[0] + sep + Join(parts[1..], sep)
  }

  /** Where the k-th part starts in `parts.join(sep)`. */
  function Offset(parts: seq<string>, sep: string, k: nat): nat
    requires k <= |parts|
    decreases k
  {
    if k == 0 then 0 else |parts[0]| + |sep| + Offset(parts[1..], sep, k - 1)
  }

  function TotalLength(parts: seq<string>): nat
    decreases |parts|
  {
    if parts == [] then 0 else |parts[0]| + TotalLength(parts[1..])
  }

  /** A slice that lies wholly in the second half of a concatenation. */
  lemma {:induction false} SliceOfSecond(a: string, b: string, i: nat, j: nat)
    requires |a| <= i <= j <= |a| + |b|
    ensures (a + b)[i..j] == b[i - |a|..j - |a|]
  {
    var c := a + b;
    assert |c[i..j]| == |b[i - |a|..j - |a|]|;
    forall t | 0 <= t < j - i
      ensures c[i..j][t] == b[i - |a|..j - |a|][t]
    {
      assert c[i + t] == b[i + t - |a|];
    }
  }

  /** The joined string holds each part, unchanged, at its offset. */
  lemma {:induction false} JoinPart(parts: seq<string>, sep: string, k: nat)
    requires k < |parts|
    ensures Offset(parts, sep, k) + |parts[k]| <= |Join(parts, sep)|
    ensures Join(parts, sep)[Offset(parts, sep, k)..Offset(parts, sep, k) + |parts[k]|] == parts[k]
    decreases k
  {
    if |parts| > 1 {
      var rest, head := parts[1..], parts[0] + sep;
      assert Join(parts, sep) == head + Join(rest, sep);
      if k == 0 {
        assert Join(parts, sep)[..|parts[0]|] == parts[0];
      } else {
        JoinPart(rest, sep, k - 1);
        var o := Offset(rest, sep, k - 1);
        assert Offset(parts, sep, k) == |head| + o;
        assert rest[k - 1] == parts[k];
        SliceOfSecond(head, Join(rest, sep), |head| + o, |head| + o + |parts[k]|);
      }
    }
  }

  /** The next part starts after this one and one separator. */
  lemma {:induction false} OffsetStep(parts: seq<string>, sep: string, k: nat)
    requires k < |parts|
    ensures Offset(parts, sep, k + 1) == Offset(parts, sep, k) + |parts[k]| + |sep|
    decreases k
  {
    if k > 0 {
      OffsetStep(parts[1..], sep, k - 1);
      assert parts[1..][k - 1] == parts[k];
    }
  }

  /** Two neighbouring parts are separated by exactly one copy of the separator. */
  lemma {:induction false} JoinSeparator(parts: seq<string>, sep: string, k: nat)
    requires k + 1 < |parts|
    ensures Offset(parts, sep, k) + |parts[k]| + |sep| == Offset(parts, sep, k + 1) <= |Join(parts, sep)|
    ensures Join(parts, sep)[Offset(parts, sep, k) + |parts[k]|..Offset(parts, sep, k + 1)] == sep
    decreases k
  {
    OffsetStep(parts, sep, k);
    JoinPart(parts, sep, k + 1);
    var rest, head := parts[1..], parts[0] + sep;
    var j := Join(rest, sep);
    assert Join(parts, sep) == head + j;
    if k == 0 {
      assert (head + j)[|parts[0]|..|head|] == sep;
    } else {
      JoinSeparator(rest, sep, k - 1);
      assert rest[k - 1] == parts[k];
      SliceOfSecond(head, j, Offset(parts, sep, k) + |parts[k]|, Offset(parts, sep, k + 1));
    }
  }

  /** Nothing but the parts and the separators: the length of `parts.join(sep)`. */
  lemma {:induction false} JoinLength(parts: seq<string>, sep: string)
    requires parts != []
    ensures |Join(parts, sep)| == TotalLength(parts) + (|parts| - 1) * |sep|
    decreases |parts|
  {
    if |parts| > 1 {
      JoinLength(parts[1..], sep);
    } else {
      assert parts[1..] == [];
    }
  }
}
