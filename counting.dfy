/** Counting the values of one text column: pandas' `value_counts()` (every
    distinct value with its number of occurrences, most frequent first) and
    `mode()` (a most frequent value). */
module Counting {
  import opened Outcome

  /** The number of occurrences of `x` in `s`. */
  function Count(s: seq<string>, x: string): (n: nat)
    ensures n <= |s|
    ensures n > 0 <==> x in s
  {
    if s == [] then 0
    else (if s[0] == x then 1 else 0) + Count(s[1..], x)
  }

  /** No value occurs twice in `s`. */
  predicate NoDuplicates(s: seq<string>)
  {
    forall i, j :: 0 <= i < j < |s| ==> s[i] != s[j]
  }

  /** Prepending a value that is not yet present keeps a sequence free of duplicates. */
  lemma PrependFresh(x: string, s: seq<string>)
    ensures NoDuplicates(s) && x !in s ==> NoDuplicates([x] + s)
  {
    if NoDuplicates(s) && x !in s {
      var r := [x] + s;
      forall i, j | 0 <= i < j < |r|
        ensures r[i] != r[j]
      {
        assert r[j] == s[j - 1];
        if i > 0 {
          assert r[i] == s[i - 1];
        }
      }
    }
  }

  /** The distinct values of `s`, each once. */
  function Distinct(s: seq<string>): (d: seq<string>)
    ensures forall x :: x in d <==> x in s
    ensures NoDuplicates(d)
  {
    if s == [] then []
    else
      var rest := Distinct(s[1..]);
      assert forall x :: x in s <==> x == s[0] || x in s[1..];
      PrependFresh(s[0], rest);
      if s[0] in rest then rest else [s[0]] + rest
  }

  /** `keys` is ordered from the most to the least frequent value of `s`. */
  predicate MostFrequentFirst(keys: seq<string>, s: seq<string>)
  {
    forall i, j :: 0 <= i < j < |keys| ==> Count(s, keys[i]) >= Count(s, keys[j])
  }

  /** Inserts `k` into `keys` before the first key that is strictly less
      frequent in `s` than `k`. */
  function InsertByCount(k: string, keys: seq<string>, s: seq<string>): (r: seq<string>)
    ensures multiset(r) == multiset(keys) + multiset{k}
    ensures MostFrequentFirst(keys, s) ==> MostFrequentFirst(r, s)
    ensures NoDuplicates(keys) && k !in keys ==> NoDuplicates(r)
  {
    if keys == [] then [k]
    else if Count(s, k) >= Count(s, keys[0]) then
      HeadIsMostFrequent(keys, s);
      PrependOrdered(k, keys, s);
      PrependFresh(k, keys);
      [k] + keys
    else
      var rest := InsertByCount(k, keys[1..], s);
      assert keys == [keys[0]] + keys[1..];
      InsertedMembers(k, keys[1..], rest);
      NoDuplicatesTail(keys);
      OrderedTail(keys, s);
      HeadIsMostFrequent(keys, s);
      PrependOrdered(keys[0], rest, s);
      PrependFresh(keys[0], rest);
      [keys[0]] + rest
  }

  /** A sequence with the multiset of `keys` plus `k` holds exactly `k` and the keys. */
  lemma InsertedMembers(k: string, keys: seq<string>, r: seq<string>)
    requires multiset(r) == multiset(keys) + multiset{k}
    ensures forall x :: x in r <==> x == k || x in keys
  {
    forall x
      ensures x in r <==> x == k || x in keys
    {
      assert x in r <==> x in multiset(r);
      assert x in keys <==> x in multiset(keys);
    }
  }

  /** The tail of an ordered sequence is ordered. */
  lemma OrderedTail(keys: seq<string>, s: seq<string>)
    requires keys != []
    ensures MostFrequentFirst(keys, s) ==> MostFrequentFirst(keys[1..], s)
  {
    if MostFrequentFirst(keys, s) {
      var t := keys[1..];
      forall i, j | 0 <= i < j < |t|
        ensures Count(s, t[i]) >= Count(s, t[j])
      {
        assert t[i] == keys[i + 1] && t[j] == keys[j + 1];
      }
    }
  }

  /** In an ordered sequence no key is more frequent than the first. */
  lemma HeadIsMostFrequent(keys: seq<string>, s: seq<string>)
    requires keys != []
    ensures MostFrequentFirst(keys, s) ==> forall x :: x in keys ==> Count(s, x) <= Count(s, keys[0])
  {
    if MostFrequentFirst(keys, s) {
      forall x | x in keys
        ensures Count(s, x) <= Count(s, keys[0])
      {
        var j :| 0 <= j < |keys| && keys[j] == x;
        assert j == 0 || Count(s, keys[0]) >= Count(s, keys[j]);
      }
    }
  }

  /** Putting a key in front of an ordered sequence keeps it ordered when the
      key is at least as frequent as every key already there. */
  lemma PrependOrdered(k: string, keys: seq<string>, s: seq<string>)
    ensures MostFrequentFirst(keys, s) && (forall x :: x in keys ==> Count(s, x) <= Count(s, k))
      ==> MostFrequentFirst([k] + keys, s)
  {
    if MostFrequentFirst(keys, s) && forall x :: x in keys ==> Count(s, x) <= Count(s, k) {
      var r := [k] + keys;
      forall i, j | 0 <= i < j < |r|
        ensures Count(s, r[i]) >= Count(s, r[j])
      {
        assert r[j] == keys[j - 1];
        if i > 0 {
          assert r[i] == keys[i - 1];
        }
      }
    }
  }

  /** Insertion sort of `keys`, most frequent in `s` first. */
  function SortByCount(keys: seq<string>, s: seq<string>): (r: seq<string>)
    ensures multiset(r) == multiset(keys)
    ensures MostFrequentFirst(r, s)
    ensures NoDuplicates(keys) ==> NoDuplicates(r)
  {
    if keys == [] then []
    else
      var rest := SortByCount(keys[1..], s);
      assert keys == [keys[0]] + keys[1..];
      assert multiset(keys) == multiset{keys[0]} + multiset(keys[1..]);
      NoDuplicatesTail(keys);
      assert keys[0] in rest <==> keys[0] in multiset(keys[1..]);
      InsertByCount(keys[0], rest, s)
  }

  /** The tail of a duplicate-free sequence is duplicate-free and lacks the head. */
  lemma NoDuplicatesTail(keys: seq<string>)
    requires keys != []
    ensures NoDuplicates(keys) ==> NoDuplicates(keys[1..]) && keys[0] !in keys[1..]
  {
    if NoDuplicates(keys) {
      forall j | 0 <= j < |keys| - 1
        ensures keys[1..][j] != keys[0]
      {
        assert keys[1..][j] == keys[j + 1];
      }
    }
  }

  /** One entry of `value_counts()`: a value and its number of occurrences. */
  datatype Tally = Tally(value: string, count: nat)

  /** The values of a list of tallies, in order. */
  function Values(tallies: seq<Tally>): (vs: seq<string>)
    ensures |vs| == |tallies|
    ensures forall i :: 0 <= i < |tallies| ==> vs[i] == tallies[i].value
  {
    if tallies == [] then [] else [tallies[0].value] + Values(tallies[1..])
  }

  /** The sum of the counts of a list of tallies. */
  function TotalCount(tallies: seq<Tally>): nat
  {
    if tallies == [] then 0 else tallies[0].count + TotalCount(tallies[1..])
  }

  /** Each key of `keys` with its number of occurrences in `s`, in the order of `keys`. */
  function Tallies(keys: seq<string>, s: seq<string>): (r: seq<Tally>)
    ensures |r| == |keys|
    ensures forall i :: 0 <= i < |keys| ==> r[i] == Tally(keys[i], Count(s, keys[i]))
  {
    if keys == [] then [] else [Tally(keys[0], Count(s, keys[0]))] + Tallies(keys[1..], s)
  }

  /** `value_counts()`: every distinct value of `s` exactly once, with its
      number of occurrences (at least one), the most frequent first; the
      counts add up to the length of `s`. Which of several equally frequent
      values comes first is not fixed. */
  function ValueCounts(s: seq<string>): (r: seq<Tally>)
    ensures forall i :: 0 <= i < |r| ==> r[i].count == Count(s, r[i].value) && r[i].count >= 1
    ensures forall x :: x in Values(r) <==> x in s
    ensures NoDuplicates(Values(r))
    ensures forall i, j :: 0 <= i < j < |r| ==> r[i].count >= r[j].count
    ensures TotalCount(r) == |s|
  {
    var keys := SortByCount(Distinct(s), s);
    SameValues(s, keys);
    TalliesOfSortedKeys(keys, s);
    Tallies(keys, s)
  }

  /** The tallies of duplicate-free keys that are exactly the values of `s`,
      most frequent first. */
  lemma TalliesOfSortedKeys(keys: seq<string>, s: seq<string>)
    requires forall x :: x in keys <==> x in s
    requires NoDuplicates(keys) && MostFrequentFirst(keys, s)
    ensures var r := Tallies(keys, s);
      && (forall i :: 0 <= i < |r| ==> r[i].count == Count(s, r[i].value) && r[i].count >= 1)
      && (forall x :: x in Values(r) <==> x in s)
      && NoDuplicates(Values(r))
      && (forall i, j :: 0 <= i < j < |r| ==> r[i].count >= r[j].count)
      && TotalCount(r) == |s|
  {
    TalliesOfValues(keys, s);
    TalliesCoverAll(keys, s);
  }

  /** Sorting the distinct values keeps exactly the values of `s`. */
  lemma SameValues(s: seq<string>, keys: seq<string>)
    requires multiset(keys) == multiset(Distinct(s))
    ensures forall x :: x in keys <==> x in s
  {
    forall x
      ensures x in keys <==> x in s
    {
      assert x in keys <==> x in multiset(keys);
      assert x in Distinct(s) <==> x in multiset(Distinct(s));
    }
  }

  /** The values of the tallies of `keys` are `keys`. */
  lemma TalliesOfValues(keys: seq<string>, s: seq<string>)
    ensures Values(Tallies(keys, s)) == keys
  {
  }

  /** When every value of `s` is among the duplicate-free `keys`, the
      counts of the keys add up to the length of `s`. */
  lemma {:induction false} TalliesCoverAll(keys: seq<string>, s: seq<string>)
    requires NoDuplicates(keys)
    requires forall x :: x in s ==> x in keys
    ensures TotalCount(Tallies(keys, s)) == |s|
  {
    if s == [] {
      TalliesOfNothing(keys);
    } else {
      var x, t := s[0], s[1..];
      assert s == [x] + t;
      TalliesCoverAll(keys, t);
      TalliesOfCons(keys, x, t);
      CountOfDistinct(keys, x);
    }
  }

  /** Nothing occurs in the empty sequence. */
  lemma {:induction false} TalliesOfNothing(keys: seq<string>)
    ensures TotalCount(Tallies(keys, [])) == 0
  {
    if keys != [] {
      TalliesOfNothing(keys[1..]);
      assert Tallies(keys, [])[1..] == Tallies(keys[1..], []);
    }
  }

  /** Adding one value `x` in front of `t` adds, to the total of the tallies
      of `keys`, the number of times `x` occurs among the keys. */
  lemma {:induction false} TalliesOfCons(keys: seq<string>, x: string, t: seq<string>)
    ensures TotalCount(Tallies(keys, [x] + t)) == Count(keys, x) + TotalCount(Tallies(keys, t))
  {
    if keys != [] {
      TalliesOfCons(keys[1..], x, t);
      assert ([x] + t)[1..] == t;
      assert Tallies(keys, [x] + t)[1..] == Tallies(keys[1..], [x] + t);
      assert Tallies(keys, t)[1..] == Tallies(keys[1..], t);
    }
  }

  /** A value occurs exactly once in a duplicate-free sequence that holds it. */
  lemma {:induction false} CountOfDistinct(keys: seq<string>, x: string)
    requires NoDuplicates(keys) && x in keys
    ensures Count(keys, x) == 1
  {
    if keys[0] == x {
      assert x !in keys[1..];
    } else {
      CountOfDistinct(keys[1..], x);
    }
  }

  /** `mode()[0]`: a most frequent value of `s`, or nothing when `s` is
      empty. Which of several equally frequent values is chosen is not
      fixed. */
  function Mode(s: seq<string>): (m: Option<string>)
    ensures m.Some? <==> |s| > 0
    ensures m.Some? ==> m.value in s && forall x :: Count(s, x) <= Count(s, m.value)
  {
    if s == [] then None
    else
      var counts := ValueCounts(s);
      FirstIsMostFrequent(counts, s);
      Some(counts[0].value)
  }

  /** The first of the tallies of a non-empty `s`, most frequent first, is a
      most frequent value of `s`. */
  lemma FirstIsMostFrequent(counts: seq<Tally>, s: seq<string>)
    requires |s| > 0
    requires forall i :: 0 <= i < |counts| ==> counts[i].count == Count(s, counts[i].value)
    requires forall x :: x in Values(counts) <==> x in s
    requires forall i, j :: 0 <= i < j < |counts| ==> counts[i].count >= counts[j].count
    ensures |counts| > 0 && counts[0].value in s
    ensures forall x :: Count(s, x) <= Count(s, counts[0].value)
  {
    var vs := Values(counts);
    assert s[0] in vs;
    assert vs[0] in vs;
    forall x
      ensures Count(s, x) <= Count(s, counts[0].value)
    {
      if x in s {
        assert x in vs;
        var j :| 0 <= j < |vs| && vs[j] == x;
        AtMostFirst(counts, s, j);
      }
    }
  }

  /** No tally of a list ordered by count counts more than the first. */
  lemma AtMostFirst(counts: seq<Tally>, s: seq<string>, j: int)
    requires 0 <= j < |counts|
    requires forall i :: 0 <= i < |counts| ==> counts[i].count == Count(s, counts[i].value)
    requires forall i, j :: 0 <= i < j < |counts| ==> counts[i].count >= counts[j].count
    ensures Count(s, counts[j].value) <= Count(s, counts[0].value)
  {
    assert counts[j].count == Count(s, counts[j].value);
    assert counts[0].count == Count(s, counts[0].value);
    assert j == 0 || counts[0].count >= counts[j].count;
  }
}
