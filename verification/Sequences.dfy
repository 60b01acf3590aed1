/** Filters, sums and removals on sequences, and what a permutation keeps of them. */
module Sequences {

  /** The members of `s` that satisfy `keep`, in order. */
  function Select<T>(keep: T -> bool, s: seq<T>): (r: seq<T>)
    ensures |r| <= |s|
  {
    if s == [] then []
    else
      var last := s[|s| - 1];
      Select(keep, s[..|s| - 1]) + if keep(last) then [last] else []
  }

  /** At most the first `n` members: `s[:n]`. */
  function Take<T>(s: seq<T>, n: nat): (r: seq<T>)
    ensures |r| <= n && r <= s
  {
    if n <= |s| then s[..n] else s
  }

  ghost function Keys<T, K>(key: T -> K, rows: seq<T>): set<K> {
    set row <- rows :: key(row)
  }

  /** The rows whose key no earlier row has: what a loop with a `seen` set keeps. */
  ghost function FirstPer<T, K>(key: T -> K, rows: seq<T>): seq<T> {
    if rows == [] then []
    else
      var n := |rows| - 1;
      FirstPer(key, rows[..n]) + if key(rows[n]) in Keys(key, rows[..n]) then [] else [rows[n]]
  }

  lemma KeysStep<T, K>(key: T -> K, rows: seq<T>, n: nat)
    requires n < |rows|
    ensures Keys(key, rows[..n + 1]) == Keys(key, rows[..n]) + {key(rows[n])}
  {
    assert rows[..n + 1] == rows[..n] + [rows[n]];
  }

  ghost predicate DistinctKeys<T, K>(key: T -> K, rows: seq<T>) {
    forall i, j :: 0 <= i < j < |rows| ==> key(rows[i]) != key(rows[j])
  }

  /** Rows with distinct keys are all kept. */
  lemma {:induction false} AllFirst<T, K>(key: T -> K, rows: seq<T>)
    requires DistinctKeys(key, rows)
    ensures FirstPer(key, rows) == rows
  {
    if rows != [] {
      AllFirst(key, rows[..|rows| - 1]);
      assert rows == rows[..|rows| - 1] + [rows[|rows| - 1]];
    }
  }

  lemma PrefixStep<T>(s: seq<T>, i: nat)
    requires i < |s|
    ensures s[..i + 1] == s[..i] + [s[i]]
  {
  }

  function Without<T>(s: seq<T>, i: nat): seq<T>
    requires i < |s|
  {
    s[..i] + s[i + 1..]
  }

  function Sum<T>(f: T -> real, s: seq<T>): real
  {
    if s == [] then 0.0 else Sum(f, s[..|s| - 1]) + f(s[|s| - 1])
  }

  lemma {:induction false} SelectAppend<T>(keep: T -> bool, s: seq<T>, t: seq<T>)
    ensures Select(keep, s + t) == Select(keep, s) + Select(keep, t)
  {
    if t == [] {
      assert s + t == s;
    } else {
      assert (s + t)[..|s + t| - 1] == s + t[..|t| - 1];
      SelectAppend(keep, s, t[..|t| - 1]);
    }
  }

  lemma {:induction false} WithoutMultiset<T>(s: seq<T>, i: nat)
    requires i < |s|
    ensures multiset(s) == multiset(Without(s, i)) + multiset{s[i]}
  {
    assert s == s[..i] + [s[i]] + s[i + 1..];
  }

  lemma {:induction false} SelectMember<T>(keep: T -> bool, s: seq<T>, x: T)
    ensures x in Select(keep, s) <==> x in s && keep(x)
  {
    if s != [] {
      SelectMember(keep, s[..|s| - 1], x);
      assert s == s[..|s| - 1] + [s[|s| - 1]];
    }
  }

  /** In a permutation `t` of `s`, the last member of `s` sits somewhere; removing both leaves a permutation. */
  lemma {:induction false} MatchLast<T>(s: seq<T>, t: seq<T>) returns (i: nat)
    requires s != [] && multiset(s) == multiset(t)
    ensures i < |t| && t[i] == s[|s| - 1]
    ensures multiset(s[..|s| - 1]) == multiset(Without(t, i))
  {
    var last := s[|s| - 1];
    assert s == s[..|s| - 1] + [last];
    assert last in multiset(t);
    i :| 0 <= i < |t| && t[i] == last;
    WithoutMultiset(t, i);
    assert multiset(s[..|s| - 1]) == multiset(s) - multiset{last};
  }

  lemma SelectOne<T>(keep: T -> bool, x: T)
    ensures Select(keep, [x]) == if keep(x) then [x] else []
  {
    assert [x][..0] == [];
  }

  lemma SelectAround<T>(keep: T -> bool, left: seq<T>, x: T, right: seq<T>)
    ensures Select(keep, left + [x] + right) == Select(keep, left) + (if keep(x) then [x] else []) + Select(keep, right)
  {
    SelectAppend(keep, left + [x], right);
    SelectAppend(keep, left, [x]);
    SelectOne(keep, x);
  }

  lemma MultisetAround<T>(left: seq<T>, middle: seq<T>, right: seq<T>)
    ensures multiset(left + middle + right) == multiset(left + right) + multiset(middle)
    ensures middle == [] ==> left + middle + right == left + right
  {
  }

  lemma {:induction false} SelectWithout<T>(keep: T -> bool, s: seq<T>, i: nat)
    requires i < |s|
    ensures multiset(Select(keep, s)) == multiset(Select(keep, Without(s, i))) + (if keep(s[i]) then multiset{s[i]} else multiset{})
    ensures !keep(s[i]) ==> Select(keep, s) == Select(keep, Without(s, i))
  {
    var left, right := s[..i], s[i + 1..];
    assert s == left + [s[i]] + right;
    SelectAround(keep, left, s[i], right);
    SelectAppend(keep, left, right);
    MultisetAround(Select(keep, left), if keep(s[i]) then [s[i]] else [], Select(keep, right));
  }

  /** A permutation of `s` selects a permutation. */
  lemma {:induction false} SelectPermutation<T>(keep: T -> bool, s: seq<T>, t: seq<T>)
    requires multiset(s) == multiset(t)
    ensures multiset(Select(keep, s)) == multiset(Select(keep, t))
  {
    if s == [] {
      assert |t| == |multiset(t)| == 0;
    } else {
      var i := MatchLast(s, t);
      SelectPermutation(keep, s[..|s| - 1], Without(t, i));
      SelectWithout(keep, t, i);
    }
  }

  lemma {:induction false} SumAppend<T>(f: T -> real, s: seq<T>, t: seq<T>)
    ensures Sum(f, s + t) == Sum(f, s) + Sum(f, t)
  {
    if t == [] {
      assert s + t == s;
    } else {
      assert (s + t)[..|s + t| - 1] == s + t[..|t| - 1];
      SumAppend(f, s, t[..|t| - 1]);
    }
  }

  lemma SumPrefix<T>(f: T -> real, s: seq<T>, i: nat)
    requires i < |s|
    ensures Sum(f, s[..i + 1]) == Sum(f, s[..i]) + f(s[i])
  {
    assert s[..i + 1][..i] == s[..i];
  }

  lemma {:induction false} SumWithout<T>(f: T -> real, s: seq<T>, i: nat)
    requires i < |s|
    ensures Sum(f, s) == Sum(f, Without(s, i)) + f(s[i])
  {
    assert s == s[..i] + ([s[i]] + s[i + 1..]);
    SumAppend(f, s[..i], [s[i]] + s[i + 1..]);
    SumAppend(f, [s[i]], s[i + 1..]);
    SumAppend(f, s[..i], s[i + 1..]);
    assert [s[i]][..0] == [];
  }

  /** A sum does not depend on the order of its terms. */
  lemma {:induction false} SumPermutation<T>(f: T -> real, s: seq<T>, t: seq<T>)
    requires multiset(s) == multiset(t)
    ensures Sum(f, s) == Sum(f, t)
  {
    if s == [] {
      assert |t| == |multiset(t)| == 0;
    } else {
      var i := MatchLast(s, t);
      SumPermutation(f, s[..|s| - 1], Without(t, i));
      SumWithout(f, t, i);
    }
  }
}
