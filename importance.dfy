/** The feature-importance map that `ModelEngine.predict` returns, built from
    the model's weight vector with Python's `zip`, `dict` and a stable
    descending `sorted`. A Python dict keeps insertion order, so it is modelled
    as a list of (name, weight) entries. */
module Importance {
  import opened Common

  /** One (feature name, weight) entry of an importance dict. */
  type Entry = (string, real)

  function Keys(d: seq<Entry>): (ks: seq<string>)
    ensures |ks| == |d| && forall i :: 0 <= i < |d| ==> ks[i] == d[i].0
  {
    seq(|d|, i requires 0 <= i < |d| => d[i].0)
  }

  ghost predicate DistinctKeys(d: seq<Entry>)
  {
    forall i, j :: 0 <= i < j < |d| ==> d[i].0 != d[j].0
  }

  /** Weights never increase from one entry to the next. */
  ghost predicate NonIncreasing(d: seq<Entry>)
  {
    forall i, j :: 0 <= i < j < |d| ==> d[i].1 >= d[j].1
  }

  /** The weight of the last pair with key `k`: what a dict built from
      `pairs` holds for `k`. */
  function LastValue(pairs: seq<Entry>, k: string): Option<real>
  {
    if pairs == [] then None
    else if pairs[|pairs| - 1].0 == k then Some(pairs[|pairs| - 1].1)
    else LastValue(pairs[..|pairs| - 1], k)
  }

  /** `zip(names, weights)`: pairs up to the shorter of the two. */
  function Zip(names: seq<string>, weights: seq<real>): (r: seq<Entry>)
    ensures |r| == Min(|names|, |weights|)
    ensures forall i :: 0 <= i < |r| ==> r[i] == (names[i], weights[i])
  {
    seq(Min(|names|, |weights|), i requires 0 <= i < Min(|names|, |weights|) => (names[i], weights[i]))
  }

  /** Position of key `k` in `d`, or `|d|` when absent. */
  function IndexOf(d: seq<Entry>, k: string): (r: nat)
    ensures r <= |d|
    ensures r < |d| ==> d[r].0 == k
    ensures r == |d| ==> k !in Keys(d)
  {
    if d == [] then 0
    else if d[0].0 == k then 0
    else
      var r := 1 + IndexOf(d[1..], k);
      assert r == |d| ==> Keys(d) == [d[0].0] + Keys(d[1..]);
      r
  }

  /** `d[k] = v` on an insertion-ordered dict: an existing key keeps its
      position and takes the new weight; a new key goes last. */
  function Put(d: seq<Entry>, e: Entry): (r: seq<Entry>)
    ensures forall x :: x in r ==> x in d || x == e
    ensures forall k :: k in Keys(r) <==> k in Keys(d) || k == e.0
    ensures DistinctKeys(d) ==> DistinctKeys(r) && forall x :: x in r && x.0 == e.0 ==> x == e
    ensures e.0 !in Keys(d) ==> r == d + [e]
    ensures DistinctKeys(d) && e.0 in Keys(d) ==>
      |r| == |d| && forall i :: 0 <= i < |d| ==> r[i] == (if d[i].0 == e.0 then e else d[i])
    ensures |r| <= |d| + 1
  {
    var i := IndexOf(d, e.0);
    if i < |d| then
      var r := d[i := e];
      assert Keys(r) == Keys(d);
      r
    else
      var r := d + [e];
      assert Keys(r) == Keys(d) + [e.0];
      r
  }

  /** `dict(pairs)`: one entry per distinct key, holding the weight of the
      key's last occurrence. (Each key also sits where it first occurs; the
      contract states that order only for pairs with distinct keys.) */
  function DictFrom(pairs: seq<Entry>): (r: seq<Entry>)
    ensures DistinctKeys(r) && |r| <= |pairs|
    ensures forall k :: k in Keys(r) <==> k in Keys(pairs)
    ensures forall e :: e in r ==> e in pairs && LastValue(pairs, e.0) == Some(e.1)
    ensures DistinctKeys(pairs) ==> r == pairs
  {
    if pairs == [] then []
    else
      var init := pairs[..|pairs| - 1];
      var last := pairs[|pairs| - 1];
      assert pairs == init + [last];
      assert Keys(pairs) == Keys(init) + [last.0];
      Put(DictFrom(init), last)
  }

  /** Inserts `e` into a descending list before the first entry whose weight
      is not larger, so that entries of equal weight keep their order. */
  function InsertDesc(e: Entry, s: seq<Entry>): (r: seq<Entry>)
    requires NonIncreasing(s)
    ensures NonIncreasing(r)
    ensures multiset(r) == multiset(s) + multiset{e}
  {
    if s == [] || s[0].1 <= e.1 then [e] + s
    else
      var rest := InsertDesc(e, s[1..]);
      assert s == [s[0]] + s[1..];
      HeadDominates(s[0], s[1..], e, rest);
      assert multiset([s[0]] + rest) == multiset{s[0]} + multiset(rest);
      [s[0]] + rest
  }

  /** Putting `h` in front of `rest` keeps it descending when `h` outweighs
      every entry of `rest`, which holds out of `tail` and `e`. */
  lemma HeadDominates(h: Entry, tail: seq<Entry>, e: Entry, rest: seq<Entry>)
    requires NonIncreasing([h] + tail) && h.1 > e.1 && NonIncreasing(rest)
    requires multiset(rest) == multiset(tail) + multiset{e}
    ensures NonIncreasing([h] + rest)
  {
    forall j | 0 <= j < |rest| ensures h.1 >= rest[j].1 {
      assert rest[j] in multiset(rest);
      if rest[j] != e {
        assert rest[j] in multiset(tail);
        var k :| 0 <= k < |tail| && tail[k] == rest[j];
        assert ([h] + tail)[0] == h && ([h] + tail)[k + 1] == rest[j];
      }
    }
    forall i, j | 0 <= i < j < |[h] + rest| ensures ([h] + rest)[i].1 >= ([h] + rest)[j].1 {
      if i > 0 {
        assert ([h] + rest)[i] == rest[i - 1] && ([h] + rest)[j] == rest[j - 1];
      }
    }
  }

  /** `sorted(d, key=weight, reverse=True)`: a stable descending sort. */
  function SortDesc(d: seq<Entry>): (r: seq<Entry>)
    ensures NonIncreasing(r)
    ensures multiset(r) == multiset(d) && |r| == |d|
  {
    if d == [] then []
    else
      assert d == [d[0]] + d[1..];
      InsertDesc(d[0], SortDesc(d[1..]))
  }

  /** Sorting keeps the keys distinct. */
  lemma {:induction false} InsertDescDistinct(e: Entry, s: seq<Entry>)
    requires NonIncreasing(s) && DistinctKeys(s) && e.0 !in Keys(s)
    ensures DistinctKeys(InsertDesc(e, s))
  {
    if s != [] && s[0].1 > e.1 {
      var rest := InsertDesc(e, s[1..]);
      assert Keys(s) == [s[0].0] + Keys(s[1..]);
      InsertDescDistinct(e, s[1..]);
      HeadKeyFresh(s);
      forall j | 0 <= j < |rest| ensures rest[j].0 != s[0].0 {
        assert rest[j] in multiset(rest);
        if rest[j] != e {
          MemberKey(rest[j], s[1..]);
        }
      }
      ConsDistinct(s[0], rest);
    } else {
      assert Keys([e] + s) == [e.0] + Keys(s);
      ConsDistinct(e, s);
    }
  }

  /** In a list with distinct keys the first key does not recur. */
  lemma HeadKeyFresh(s: seq<Entry>)
    requires s != [] && DistinctKeys(s)
    ensures s[0].0 !in Keys(s[1..])
  {
    forall k | 0 <= k < |s| - 1 ensures Keys(s[1..])[k] != s[0].0 {
      assert Keys(s[1..])[k] == s[k + 1].0;
    }
  }

  /** An entry of a list has its key among the list's keys. */
  lemma MemberKey(x: Entry, s: seq<Entry>)
    requires x in multiset(s)
    ensures x.0 in Keys(s)
  {
    var k :| 0 <= k < |s| && s[k] == x;
    assert Keys(s)[k] == x.0;
  }

  /** Putting an entry with a fresh key in front keeps the keys distinct. */
  lemma ConsDistinct(h: Entry, t: seq<Entry>)
    requires DistinctKeys(t) && forall j :: 0 <= j < |t| ==> t[j].0 != h.0
    ensures DistinctKeys([h] + t)
  {
    forall i, j | 0 <= i < j < |[h] + t| ensures ([h] + t)[i].0 != ([h] + t)[j].0 {
      assert ([h] + t)[j] == t[j - 1];
      if i > 0 {
        assert ([h] + t)[i] == t[i - 1];
      }
    }
  }

  lemma {:induction false} SortDescDistinct(d: seq<Entry>)
    requires DistinctKeys(d)
    ensures DistinctKeys(SortDesc(d))
  {
    if d != [] {
      SortDescDistinct(d[1..]);
      var sorted := SortDesc(d[1..]);
      forall k | k in Keys(sorted) ensures k != d[0].0 {
        var i :| 0 <= i < |sorted| && sorted[i].0 == k;
        assert sorted[i] in multiset(d[1..]);
        var j :| 0 <= j < |d[1..]| && d[1..][j] == sorted[i];
        assert d[j + 1] == sorted[i];
      }
      InsertDescDistinct(d[0], sorted);
    }
  }

  /** The importance dict of a tree model: `dict(zip(features, weights))`,
      sorted by weight, highest first, cut to its first five entries, made a
      dict again. */
  function TreeImportance(features: seq<string>, weights: seq<real>): (r: seq<Entry>)
    ensures |r| == Min(5, |DictFrom(Zip(features, weights))|)
    ensures |r| <= |features| && |r| <= |weights|
    ensures DistinctKeys(r) && NonIncreasing(r)
    ensures forall e :: e in r ==> e.0 in features && LastValue(Zip(features, weights), e.0) == Some(e.1)
    ensures forall e, x :: e in DictFrom(Zip(features, weights)) && e !in r && x in r ==> e.1 <= x.1
  {
    var all := DictFrom(Zip(features, weights));
    var sorted := SortDesc(all);
    SortDescDistinct(all);
    var top := sorted[..Min(5, |sorted|)];
    TopOfSorted(all, sorted, top);
    ZipNames(features, weights);
    DictFrom(top)
  }

  /** The first entries of the sorted dict: a descending dict of entries of
      `all`, and no entry of `all` left out weighs more than one kept. */
  lemma TopOfSorted(all: seq<Entry>, sorted: seq<Entry>, top: seq<Entry>)
    requires multiset(sorted) == multiset(all) && NonIncreasing(sorted) && DistinctKeys(sorted)
    requires |top| <= |sorted| && top == sorted[..|top|]
    ensures NonIncreasing(top) && DistinctKeys(top)
    ensures forall e :: e in top ==> e in all
    ensures forall e, x :: e in all && e !in top && x in top ==> e.1 <= x.1
  {
    forall e | e in top ensures e in all {
      assert e in multiset(sorted);
    }
    forall e, x | e in all && e !in top && x in top ensures e.1 <= x.1 {
      assert e in multiset(sorted);
      var j :| 0 <= j < |sorted| && sorted[j] == e;
      var i :| 0 <= i < |top| && top[i] == x;
      assert sorted[i] == x;
    }
  }

  lemma ZipNames(names: seq<string>, weights: seq<real>)
    ensures forall e :: e in Zip(names, weights) ==> e.0 in names
  {
    var z := Zip(names, weights);
    forall e | e in z ensures e.0 in names {
      var i :| 0 <= i < |z| && z[i] == e;
    }
  }

  /** The importance dict of a linear model: `dict(zip(features, coefficients))`,
      in feature order and with the coefficients' signs. */
  function LinearImportance(features: seq<string>, coefficients: seq<real>): (r: seq<Entry>)
    ensures DistinctKeys(r) && |r| <= |features| && |r| <= |coefficients|
    ensures forall e :: e in r ==> e.0 in features && LastValue(Zip(features, coefficients), e.0) == Some(e.1)
    ensures forall i :: 0 <= i < Min(|features|, |coefficients|) ==> features[i] in Keys(r)
    ensures (forall i, j :: 0 <= i < j < |features| ==> features[i] != features[j]) ==>
      |r| == Min(|features|, |coefficients|) &&
      forall i :: 0 <= i < |r| ==> r[i] == (features[i], coefficients[i])
  {
    var pairs := Zip(features, coefficients);
    ZipFacts(features, coefficients);
    DictFrom(pairs)
  }

  /** The zipped pairs' keys are the first `|pairs|` names, and distinct
      names give distinct keys. */
  lemma ZipFacts(names: seq<string>, weights: seq<real>)
    ensures forall e :: e in Zip(names, weights) ==> e.0 in names
    ensures forall i :: 0 <= i < Min(|names|, |weights|) ==> names[i] in Keys(Zip(names, weights))
    ensures (forall i, j :: 0 <= i < j < |names| ==> names[i] != names[j]) ==>
      DistinctKeys(Zip(names, weights))
  {
    var pairs := Zip(names, weights);
    ZipNames(names, weights);
    forall i | 0 <= i < |pairs| ensures names[i] in Keys(pairs) {
      assert Keys(pairs)[i] == names[i];
    }
  }
}
