/**
 * `groupby(key).size()` followed by a sort on the size, descending, as in
 * `value_counts()` and the top-zones table. The order among equal counts is
 * not promised.
 */
module Tally {
  /** One row of a count table. */
  datatype Entry<K> = Entry(key: K, count: nat)

  function Keys<K>(t: seq<Entry<K>>): (ks: seq<K>)
    ensures |ks| == |t| && forall i :: 0 <= i < |t| ==> ks[i] == t[i].key
  {
    seq(|t|, i requires 0 <= i < |t| => t[i].key)
  }

  predicate NoDuplicates<K(==)>(s: seq<K>) {
    forall i, j :: 0 <= i < j < |s| ==> s[i] != s[j]
  }

  /** Each key of a count table appears on one row only. */
  predicate UniqueKeys<K(==)>(t: seq<Entry<K>>) {
    forall i, j :: 0 <= i < j < |t| ==> t[i].key != t[j].key
  }

  predicate SortedByCount<K>(t: seq<Entry<K>>) {
    forall i, j :: 0 <= i < j < |t| ==> t[i].count >= t[j].count
  }

  /** The sum of the counts. */
  function Total<K>(t: seq<Entry<K>>): nat {
    if t == [] then 0 else t[0].count + Total(t[1..])
  }

  /** The distinct values of `s`. */
  function Distinct<K(==)>(s: seq<K>): (d: seq<K>)
    ensures NoDuplicates(d)
    ensures forall x :: x in d ==> x in s
    ensures forall x :: x in s ==> x in d
  {
    if s == [] then []
    else if s[0] in s[1..] then Distinct(s[1..])
    else
      var rest := Distinct(s[1..]);
      assert forall j :: 0 <= j < |rest| ==> rest[j] != s[0];
      [s[0]] + rest
  }

  /** The number of occurrences in `s` of each of `keys`. */
  function CountsOf<K(==)>(keys: seq<K>, s: seq<K>): (t: seq<Entry<K>>)
    ensures Keys(t) == keys
    ensures forall e :: e in t ==> e.count == multiset(s)[e.key]
  {
    if keys == [] then []
    else
      var rest := CountsOf(keys[1..], s);
      var t := [Entry(keys[0], multiset(s)[keys[0]])] + rest;
      assert forall i :: 0 < i < |t| ==> t[i] == rest[i - 1] && Keys(t)[i] == Keys(rest)[i - 1];
      assert forall e :: e in t ==> e == t[0] || e in rest;
      t
  }

  /** The tail of a list without duplicates has none either, and lacks the head. */
  lemma NoDuplicatesTail<K>(keys: seq<K>)
    requires keys != [] && NoDuplicates(keys)
    ensures NoDuplicates(keys[1..]) && keys[0] !in keys[1..]
  {
    var rest := keys[1..];
    forall i, j | 0 <= i < j < |rest| ensures rest[i] != rest[j] {
      assert rest[i] == keys[i + 1] && rest[j] == keys[j + 1];
    }
    forall j | 0 <= j < |rest| ensures rest[j] != keys[0] {
      assert rest[j] == keys[j + 1];
    }
  }

  /** One more value `x` adds one to the total count over distinct `keys` iff `x` is among them. */
  lemma {:induction false} CountsOfCons<K>(keys: seq<K>, x: K, s: seq<K>)
    requires NoDuplicates(keys)
    ensures Total(CountsOf(keys, [x] + s)) == Total(CountsOf(keys, s)) + (if x in keys then 1 else 0)
  {
    if keys != [] {
      NoDuplicatesTail(keys);
      CountsOfCons(keys[1..], x, s);
      assert multiset([x] + s)[keys[0]] == multiset(s)[keys[0]] + (if x == keys[0] then 1 else 0);
      assert keys == [keys[0]] + keys[1..];
      assert x in keys <==> x == keys[0] || x in keys[1..];
    }
  }

  /** `groupby(...).size()`: one row per distinct value, with its number of occurrences. */
  function Group<K(==)>(s: seq<K>): seq<Entry<K>> {
    CountsOf(Distinct(s), s)
  }

  /** The group sizes add up to the number of grouped values. */
  lemma {:induction false} GroupTotal<K>(s: seq<K>)
    ensures Total(Group(s)) == |s|
  {
    if s != [] {
      var x, t := s[0], s[1..];
      assert s == [x] + t;
      GroupTotal(t);
      CountsOfCons(Distinct(t), x, t);
      if x !in t {
        assert Distinct(s) == [x] + Distinct(t);
        assert multiset(s)[x] == 1;
        assert CountsOf(Distinct(s), s) == [Entry(x, 1)] + CountsOf(Distinct(t), s);
      }
    }
  }

  function Insert<K>(e: Entry<K>, t: seq<Entry<K>>): (r: seq<Entry<K>>)
    requires SortedByCount(t)
    ensures SortedByCount(r)
    ensures multiset(r) == multiset(t) + multiset{e}
    ensures Total(r) == Total(t) + e.count
  {
    if t == [] || e.count >= t[0].count then
      assert ([e] + t)[1..] == t;
      [e] + t
    else
      var rest := Insert(e, t[1..]);
      InsertBelowHead(e, t, rest);
      assert ([t[0]] + rest)[1..] == rest;
      assert t == [t[0]] + t[1..];
      [t[0]] + rest
  }

  /** Inserting below the head of a sorted table keeps the head's count on top. */
  lemma InsertBelowHead<K>(e: Entry<K>, t: seq<Entry<K>>, rest: seq<Entry<K>>)
    requires t != [] && SortedByCount(t) && e.count < t[0].count
    requires SortedByCount(rest) && multiset(rest) == multiset(t[1..]) + multiset{e}
    ensures SortedByCount([t[0]] + rest)
  {
    forall x | x in rest ensures x.count <= t[0].count {
      assert x in multiset(rest);
      if x != e {
        assert x in t[1..];
      }
    }
    var r := [t[0]] + rest;
    forall i, j | 0 <= i < j < |r| ensures r[i].count >= r[j].count {
      assert r[j] == rest[j - 1] && rest[j - 1] in rest;
      if i > 0 {
        assert r[i] == rest[i - 1];
      }
    }
  }

  /** The rows of `t` ordered by count, largest first. */
  function SortByCount<K>(t: seq<Entry<K>>): (r: seq<Entry<K>>)
    ensures SortedByCount(r)
    ensures multiset(r) == multiset(t)
    ensures Total(r) == Total(t)
  {
    if t == [] then []
    else
      assert t == [t[0]] + t[1..];
      Insert(t[0], SortByCount(t[1..]))
  }

  lemma UniqueKeysCons<K>(x: Entry<K>, t: seq<Entry<K>>)
    requires UniqueKeys(t) && forall y :: y in t ==> y.key != x.key
    ensures UniqueKeys([x] + t)
  {
    var r := [x] + t;
    forall i, j | 0 <= i < j < |r| ensures r[i].key != r[j].key {
      assert r[j] == t[j - 1] && t[j - 1] in t;
      if i > 0 {
        assert r[i] == t[i - 1];
      }
    }
  }

  lemma {:induction false} InsertKeepsUniqueKeys<K>(e: Entry<K>, t: seq<Entry<K>>)
    requires SortedByCount(t) && UniqueKeys(t)
    requires forall x :: x in t ==> x.key != e.key
    ensures UniqueKeys(Insert(e, t))
  {
    if t == [] || e.count >= t[0].count {
      UniqueKeysCons(e, t);
    } else {
      var t1 := t[1..];
      assert UniqueKeys(t1);
      InsertKeepsUniqueKeys(e, t1);
      var rest := Insert(e, t1);
      forall x | x in rest ensures x.key != t[0].key {
        assert x in multiset(rest);
        if x != e {
          var k :| 0 <= k < |t1| && t1[k] == x;
          assert t[k + 1] == x;
        }
      }
      UniqueKeysCons(t[0], rest);
    }
  }

  lemma {:induction false} SortKeepsUniqueKeys<K>(t: seq<Entry<K>>)
    requires UniqueKeys(t)
    ensures UniqueKeys(SortByCount(t))
  {
    if t != [] {
      var t1 := t[1..];
      assert UniqueKeys(t1);
      SortKeepsUniqueKeys(t1);
      var sorted := SortByCount(t1);
      forall x | x in sorted ensures x.key != t[0].key {
        assert x in multiset(sorted);
        var k :| 0 <= k < |t1| && t1[k] == x;
        assert t[k + 1] == x;
      }
      assert forall x :: x in sorted ==> x.key != t[0].key;
      InsertKeepsUniqueKeys(t[0], sorted);
    }
  }

  /** The group table has one row per distinct value, each with that value's count. */
  lemma GroupFacts<K>(s: seq<K>)
    ensures UniqueKeys(Group(s))
    ensures forall e :: e in Group(s) ==> e.count == multiset(s)[e.key] && e.key in s
    ensures forall k :: k in s ==> k in Keys(Group(s))
  {
    var g := Group(s);
    forall i, j | 0 <= i < j < |g| ensures g[i].key != g[j].key {
      assert Keys(g)[i] == g[i].key && Keys(g)[j] == g[j].key;
    }
    forall e | e in g ensures e.key in s {
      var i :| 0 <= i < |g| && g[i] == e;
      assert Keys(g)[i] == e.key;
    }
  }

  /** Reordering the rows of a count table keeps its rows and its keys. */
  lemma PermutedKeys<K>(g: seq<Entry<K>>, r: seq<Entry<K>>)
    requires multiset(r) == multiset(g)
    ensures forall e :: e in r ==> e in g
    ensures forall k :: k in Keys(g) ==> k in Keys(r)
    ensures forall k :: k in Keys(r) ==> k in Keys(g)
  {
    forall e | e in r ensures e in g { assert e in multiset(r); }
    forall k | k in Keys(g) ensures k in Keys(r) {
      var i :| 0 <= i < |g| && Keys(g)[i] == k;
      assert g[i] in multiset(r);
      var j :| 0 <= j < |r| && r[j] == g[i];
      assert Keys(r)[j] == k;
    }
    forall k | k in Keys(r) ensures k in Keys(g) {
      var j :| 0 <= j < |r| && Keys(r)[j] == k;
      assert r[j] in multiset(g);
      var i :| 0 <= i < |g| && g[i] == r[j];
      assert Keys(g)[i] == k;
    }
  }

  /**
   * `value_counts()`: one row per distinct value of `s`, with its number of
   * occurrences, largest count first; the counts add up to `|s|`.
   */
  function ValueCounts<K(==)>(s: seq<K>): (r: seq<Entry<K>>)
    ensures SortedByCount(r)
    ensures UniqueKeys(r)
    ensures forall e :: e in r ==> e.count == multiset(s)[e.key] && e.count > 0
    ensures forall k :: k in s ==> k in Keys(r)
    ensures forall k :: k in Keys(r) ==> k in s
    ensures Total(r) == |s|
  {
    var g := Group(s);
    GroupTotal(s);
    GroupFacts(s);
    SortKeepsUniqueKeys(g);
    var r := SortByCount(g);
    PermutedKeys(g, r);
    assert forall e :: e in r ==> e.key in s;
    r
  }

  /**
   * The first `n` rows of `value_counts()`: no key left out has a larger count
   * than a key shown, and keys are left out only when all `n` places are taken.
   */
  function TopCounts<K(==)>(s: seq<K>, n: nat): (r: seq<Entry<K>>)
    ensures |r| <= n
    ensures SortedByCount(r)
    ensures UniqueKeys(r)
    ensures forall e :: e in r ==> e.count == multiset(s)[e.key] && e.count > 0
    ensures forall k :: k in Keys(r) ==> k in s
    ensures forall k :: k in s && k !in Keys(r) ==> |r| == n
    ensures forall e, k :: e in r && k in s && k !in Keys(r) ==> multiset(s)[k] <= e.count
  {
    var all := ValueCounts(s);
    var r := if |all| <= n then all else all[..n];
    assert forall i :: 0 <= i < |r| ==> r[i] == all[i];
    forall k | k in Keys(r) ensures k in s {
      var j :| 0 <= j < |r| && Keys(r)[j] == k;
      assert Keys(all)[j] == k;
    }
    forall k | k in s && k !in Keys(r) ensures |r| == n && forall e :: e in r ==> multiset(s)[k] <= e.count {
      var j :| 0 <= j < |all| && Keys(all)[j] == k;
      forall e | e in r ensures multiset(s)[k] <= e.count {
        var i :| 0 <= i < |r| && r[i] == e;
        assert all[j] in all;
      }
    }
    r
  }
}
