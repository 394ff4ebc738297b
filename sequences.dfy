/** Row selection by a boolean mask, and what it means to be an order-preserving selection. */
module Sequences {
  import opened Wrappers

  /** The rows of `s` for which `keep` holds, in their original order (`df[mask]`). */
  function Select<T>(s: seq<T>, keep: T -> bool): (r: seq<T>)
    ensures |r| <= |s|
    ensures forall x :: x in r ==> x in s && keep(x)
    ensures forall x :: x in s && keep(x) ==> x in r
  {
    if s == [] then [] else (if keep(s[0]) then [s[0]] else []) + Select(s[1..], keep)
  }

  /** `idx` lists, in increasing order, positions of `b` whose elements spell out `a`. */
  ghost predicate Embeds<T>(a: seq<T>, b: seq<T>, idx: seq<nat>) {
    && |idx| == |a|
    && (forall i :: 0 <= i < |idx| ==> idx[i] < |b| && a[i] == b[idx[i]])
    && (forall i, j :: 0 <= i < j < |idx| ==> idx[i] < idx[j])
  }

  /** Every position moved one step to the right. */
  function Shift(idx: seq<nat>): (r: seq<nat>)
    ensures |r| == |idx| && forall i :: 0 <= i < |idx| ==> r[i] == idx[i] + 1
  {
    seq(|idx|, i requires 0 <= i < |idx| => idx[i] + 1)
  }

  /** An embedding into `t` is one into `[x] + t` once every position moves one step right. */
  lemma ShiftEmbeds<T>(a: seq<T>, x: T, t: seq<T>, idx: seq<nat>)
    requires Embeds(a, t, idx)
    ensures Embeds(a, [x] + t, Shift(idx))
    ensures Embeds([x] + a, [x] + t, [0] + Shift(idx))
  {
    var sh := Shift(idx);
    forall i | 0 <= i < |sh| ensures sh[i] < |[x] + t| && a[i] == ([x] + t)[sh[i]] {
      assert ([x] + t)[idx[i] + 1] == t[idx[i]];
    }
    var sh0 := [0] + sh;
    forall i | 0 <= i < |sh0| ensures sh0[i] < |[x] + t| && ([x] + a)[i] == ([x] + t)[sh0[i]] {
      if i > 0 {
        assert sh0[i] == sh[i - 1];
      }
    }
  }

  /** A selection is the subsequence made of exactly the positions where `keep` holds. */
  lemma {:induction false} SelectPositions<T>(s: seq<T>, keep: T -> bool) returns (idx: seq<nat>)
    ensures Embeds(Select(s, keep), s, idx)
    ensures forall j :: 0 <= j < |s| ==> (j in idx <==> keep(s[j]))
  {
    if s == [] {
      idx := [];
    } else {
      var t := s[1..];
      assert s == [s[0]] + t;
      var rest := SelectPositions(t, keep);
      ShiftEmbeds(Select(t, keep), s[0], t, rest);
      var shifted := Shift(rest);
      if keep(s[0]) {
        idx := [0] + shifted;
        assert Select(s, keep) == [s[0]] + Select(t, keep);
      } else {
        idx := shifted;
        assert Select(s, keep) == Select(t, keep);
      }
      forall j | 0 <= j < |s| ensures j in idx <==> keep(s[j]) {
        if j == 0 {
          assert 0 !in shifted;
        } else {
          assert s[j] == t[j - 1];
          assert j in shifted <==> j - 1 in rest;
        }
      }
    }
  }

  /** A selection keeps every copy of a kept value and no copy of a dropped one. */
  lemma {:induction false} SelectMultiplicity<T>(s: seq<T>, keep: T -> bool, x: T)
    ensures multiset(Select(s, keep))[x] == if keep(x) then multiset(s)[x] else 0
  {
    if s != [] {
      SelectMultiplicity(s[1..], keep, x);
      assert s == [s[0]] + s[1..];
    }
  }

  /** Selecting changes nothing exactly when every row passes the mask. */
  lemma {:induction false} SelectKeepsAll<T>(s: seq<T>, keep: T -> bool)
    ensures Select(s, keep) == s <==> forall x :: x in s ==> keep(x)
  {
    if s != [] {
      SelectKeepsAll(s[1..], keep);
      if !keep(s[0]) {
        assert |Select(s, keep)| < |s| by {
          assert Select(s, keep) == Select(s[1..], keep);
        }
      } else if forall x :: x in s ==> keep(x) {
        assert forall x :: x in s[1..] ==> x in s;
      } else {
        assert Select(s, keep) == [s[0]] + Select(s[1..], keep);
        var y :| y in s && !keep(y);
        assert y in s[1..];
      }
    }
  }

  /** A mask no row passes selects nothing. */
  lemma {:induction false} SelectNone<T>(s: seq<T>, keep: T -> bool)
    requires forall x :: x in s ==> !keep(x)
    ensures Select(s, keep) == []
  {
    if s != [] {
      assert forall x :: x in s[1..] ==> x in s;
      SelectNone(s[1..], keep);
    }
  }

  /** Two masks that agree on every row select the same rows. */
  lemma {:induction false} SelectAgree<T>(s: seq<T>, p: T -> bool, q: T -> bool)
    requires forall x :: x in s ==> p(x) == q(x)
    ensures Select(s, p) == Select(s, q)
  {
    if s != [] {
      assert forall x :: x in s[1..] ==> x in s;
      SelectAgree(s[1..], p, q);
    }
  }

  /** Masking twice is masking once by the conjunction. */
  lemma {:induction false} SelectThenSelect<T>(s: seq<T>, p: T -> bool, q: T -> bool, both: T -> bool)
    requires forall x :: both(x) == (p(x) && q(x))
    ensures Select(Select(s, p), q) == Select(s, both)
  {
    if s != [] {
      SelectThenSelect(s[1..], p, q, both);
      if p(s[0]) {
        assert Select(s, p) == [s[0]] + Select(s[1..], p);
        assert Select(s, p)[1..] == Select(s[1..], p);
      } else {
        assert Select(s, p) == Select(s[1..], p);
      }
    }
  }

  /** The position of the first occurrence of `x` in `s`, if any. */
  function IndexOf<T(==)>(s: seq<T>, x: T): (r: Option<nat>)
    ensures r.Some? <==> x in s
    ensures r.Some? ==> r.value < |s| && s[r.value] == x && forall j :: 0 <= j < r.value ==> s[j] != x
  {
    if s == [] then None
    else if s[0] == x then Some(0)
    else match IndexOf(s[1..], x)
      case None => None
      case Some(i) => Some(i + 1)
  }
}
