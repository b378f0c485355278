/** `sortScores`: the score table's entries, ordered by points, highest first.
    The order among equal scores follows the host's sort and the table's key
    order and is left unspecified here. */
module Ranker {
  import opened Aggregator

  /** An (address, points) leaderboard row. */
  type Entry = (string, int)

  /** Points never increase along the sequence. */
  predicate NonIncreasing(s: seq<Entry>) {
    forall i, j :: 0 <= i < j < |s| ==> s[i].1 >= s[j].1
  }

  /** No address occurs twice. */
  predicate DistinctKeys(s: seq<Entry>) {
    forall i, j :: 0 <= i < j < |s| ==> s[i].0 != s[j].0
  }

  /** `s` lists every entry of `scores` exactly once, in any order. */
  ghost predicate ListsEntries(scores: Scores, s: seq<Entry>) {
    && |s| == |scores|
    && DistinctKeys(s)
    && forall e :: e in s <==> e.0 in scores && scores[e.0] == e.1
  }

  /** A ranking of `scores`: its entries, by points, highest first. */
  ghost predicate IsRanking(scores: Scores, ranking: seq<Entry>) {
    ListsEntries(scores, ranking) && NonIncreasing(ranking)
  }

  /** `Object.entries`: every entry of the table once, in an order the model
      does not fix. */
  method Entries(scores: Scores) returns (es: seq<Entry>)
    ensures ListsEntries(scores, es)
  {
    es := [];
    var rest := scores.Keys;
    while rest != {}
      invariant rest <= scores.Keys
      invariant |es| + |rest| == |scores|
      invariant forall e :: e in es <==> e.0 in scores && e.0 !in rest && scores[e.0] == e.1
      invariant DistinctKeys(es)
      decreases |rest|
    {
      var k :| k in rest;
      assert forall e :: e in es ==> e.0 != k;
      es := es + [(k, scores[k])];
      rest := rest - {k};
    }
  }

  /** Inserts `e` before the first entry with fewer points. */
  function Insert(e: Entry, s: seq<Entry>): (r: seq<Entry>)
    requires NonIncreasing(s)
    ensures NonIncreasing(r)
    ensures forall x :: x in r ==> x == e || x in s
  {
    if s == [] then [e]
    else if e.1 >= s[0].1 then [e] + s
    else
      var tail := Insert(e, s[1..]);
      assert forall x :: x in tail ==> x.1 <= s[0].1 by {
        forall x | x in tail ensures x.1 <= s[0].1 {
          if x != e {
            var j :| 1 <= j < |s| && s[j] == x;
          }
        }
      }
      [s[0]] + tail
  }

  /** Inserting adds exactly the new entry: the result is a permutation of
      the old entries plus `e`. */
  lemma {:induction false} InsertPermutes(e: Entry, s: seq<Entry>)
    requires NonIncreasing(s)
    ensures multiset(Insert(e, s)) == multiset(s) + multiset{e}
  {
    if s != [] && e.1 < s[0].1 {
      InsertPermutes(e, s[1..]);
      assert s == [s[0]] + s[1..];
      assert Insert(e, s) == [s[0]] + Insert(e, s[1..]);
    }
  }

  /** Sorts by points, highest first (the comparator `bPts - aPts`). */
  function SortByPoints(s: seq<Entry>): (r: seq<Entry>)
    ensures NonIncreasing(r)
    ensures multiset(r) == multiset(s)
  {
    if s == [] then []
    else
      assert s == [s[0]] + s[1..];
      var rest := SortByPoints(s[1..]);
      InsertPermutes(s[0], rest);
      Insert(s[0], rest)
  }

  lemma {:induction false} InsertKeepsDistinct(e: Entry, s: seq<Entry>)
    requires NonIncreasing(s) && DistinctKeys(s)
    requires forall x :: x in s ==> x.0 != e.0
    ensures DistinctKeys(Insert(e, s))
  {
    if s != [] && e.1 < s[0].1 {
      assert forall x :: x in s[1..] ==> x in s;
      InsertKeepsDistinct(e, s[1..]);
      var r := Insert(e, s);
      forall i, j | 0 <= i < j < |r| ensures r[i].0 != r[j].0 {
        if i == 0 {
          assert r[j] in Insert(e, s[1..]);
        }
      }
    }
  }

  /** Sorting entries with distinct addresses keeps them distinct. */
  lemma {:induction false} SortKeepsDistinct(s: seq<Entry>)
    requires DistinctKeys(s)
    ensures DistinctKeys(SortByPoints(s))
  {
    if s != [] {
      SortKeepsDistinct(s[1..]);
      forall x | x in SortByPoints(s[1..]) ensures x.0 != s[0].0 {
        assert x in multiset(SortByPoints(s[1..]));
        assert x in s[1..];
      }
      InsertKeepsDistinct(s[0], SortByPoints(s[1..]));
    }
  }

  /** `sortScores`: the table's entries, points non-increasing, each entry once. */
  method SortScores(scores: Scores) returns (ranking: seq<Entry>)
    ensures IsRanking(scores, ranking)
  {
    var entries := Entries(scores);
    ranking := SortByPoints(entries);
    SortKeepsDistinct(entries);
    assert |ranking| == |multiset(ranking)| == |multiset(entries)| == |entries|;
    forall e ensures e in ranking <==> e in entries {
      assert e in ranking <==> e in multiset(ranking);
      assert e in entries <==> e in multiset(entries);
    }
  }

  /** Tied or not, any two rankings of one table have the same points column:
      only the order of addresses with equal points can differ. */
  lemma RankingPointsUnique(scores: Scores, r1: seq<Entry>, r2: seq<Entry>, k: nat)
    requires IsRanking(scores, r1) && IsRanking(scores, r2)
    requires k < |r1|
    ensures r1[k].1 == r2[k].1
  {
    RankingPointsBound(scores, r1, r2, k);
    RankingPointsBound(scores, r2, r1, k);
  }

  /** The k-th score of one ranking is at most the k-th score of another. */
  lemma RankingPointsBound(scores: Scores, hi: seq<Entry>, lo: seq<Entry>, k: nat)
    requires IsRanking(scores, hi) && IsRanking(scores, lo)
    requires k < |hi|
    ensures hi[k].1 <= lo[k].1
  {
    if hi[k].1 > lo[k].1 {
      // The k + 1 entries hi[0..k] all score more than lo[k], so in `lo` they
      // all sit before position k: k + 1 distinct entries in k places.
      var ahead := set i | 0 <= i < k + 1 :: hi[i];
      var before := set j | 0 <= j < k :: lo[j];
      forall x | x in ahead ensures x in before {
        AheadIsBefore(scores, hi, lo, k, x);
      }
      IndexSetSize(hi, k + 1);
      IndexSetSize(lo, k);
      SubsetCardinality(ahead, before);
      assert false;
    }
  }

  /** An entry among the first k + 1 of `hi`, all scoring above `lo[k]`, is
      among the first k of `lo`. */
  lemma AheadIsBefore(scores: Scores, hi: seq<Entry>, lo: seq<Entry>, k: nat, x: Entry)
    requires IsRanking(scores, hi) && IsRanking(scores, lo)
    requires k < |hi| && hi[k].1 > lo[k].1
    requires x in set i | 0 <= i < k + 1 :: hi[i]
    ensures x in set j | 0 <= j < k :: lo[j]
  {
    var i :| 0 <= i < k + 1 && hi[i] == x;
    assert x in lo;
    var j :| 0 <= j < |lo| && lo[j] == x;
    assert lo[j].1 >= hi[k].1 > lo[k].1;
    assert j < k;
  }

  lemma {:induction false} IndexSetSize(s: seq<Entry>, n: nat)
    requires n <= |s| && DistinctKeys(s)
    ensures |set i | 0 <= i < n :: s[i]| == n
  {
    if n > 0 {
      IndexSetSize(s, n - 1);
      var smaller := set i | 0 <= i < n - 1 :: s[i];
      assert (set i | 0 <= i < n :: s[i]) == smaller + {s[n - 1]};
      assert s[n - 1] !in smaller;
    }
  }

  lemma SubsetCardinality(a: set<Entry>, b: set<Entry>)
    requires a <= b
    ensures |a| <= |b|
  {
    assert b == a + (b - a);
  }
}
