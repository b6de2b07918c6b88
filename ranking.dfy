/** The order of the group report, `sort({ message_count: -1,
    average_message_length: -1 })`, and the message totals it adds up. */
module Ranking {
  import opened Values
  import opened StatsRecord

  /** The rank of an average in a descending sort: the store orders a null below
      every number, so a user with no average comes last among equal counts. */
  function AvgRank(a: Option<nat>): int {
    if a.None? then -1 else a.value
  }

  /** x may be listed before y: more messages, or as many and a rank at least as high. */
  predicate Precedes(x: Record, y: Record) {
    x.message_count > y.message_count ||
    (x.message_count == y.message_count && AvgRank(x.average_message_length) >= AvgRank(y.average_message_length))
  }

  predicate Sorted(s: seq<Record>) {
    forall i, j :: 0 <= i < j < |s| ==> Precedes(s[i], s[j])
  }

  /** Puts x into a sorted sequence in front of the first record it precedes. */
  function Insert(s: seq<Record>, x: Record): (r: seq<Record>)
    requires Sorted(s)
    ensures Sorted(r)
    ensures multiset(r) == multiset(s) + multiset{x}
    decreases |s|
  {
    if s == [] then [x]
    else if Precedes(x, s[0]) then [x] + s
    else
      var rest := Insert(s[1..], x);
      assert forall k :: 0 <= k < |rest| ==> Precedes(s[0], rest[k]) by {
        forall k | 0 <= k < |rest| ensures Precedes(s[0], rest[k]) {
          assert rest[k] in multiset(s[1..]) + multiset{x};
          if rest[k] != x {
            assert rest[k] in s[1..];
          }
        }
      }
      assert s == [s[0]] + s[1..];
      [s[0]] + rest
  }

  /** The `reduce` that adds up the message counts of the listed records. */
  function SumCounts(s: seq<Record>): nat
    decreases |s|
  {
    if s == [] then 0 else s[0].message_count + SumCounts(s[1..])
  }

  lemma {:induction false} SumCountsAppend(s: seq<Record>, x: Record)
    ensures SumCounts(s + [x]) == SumCounts(s) + x.message_count
    decreases |s|
  {
    if s != [] {
      assert (s + [x])[1..] == s[1..] + [x];
      SumCountsAppend(s[1..], x);
    }
  }

  /** The message total of a set of records, in no particular order. */
  ghost function SumSet(S: set<Record>): nat
    decreases S
  {
    if S == {} then 0 else var x :| x in S; x.message_count + SumSet(S - {x})
  }

  /** The total does not depend on which record is taken out first. */
  lemma {:induction false} SumSetRemove(S: set<Record>, x: Record)
    requires x in S
    ensures SumSet(S) == x.message_count + SumSet(S - {x})
    decreases S
  {
    var y :| y in S && SumSet(S) == y.message_count + SumSet(S - {y});
    if y != x {
      SumSetRemove(S - {y}, x);
      SumSetRemove(S - {x}, y);
      assert S - {y} - {x} == S - {x} - {y};
    }
  }

  lemma SumSetAdd(S: set<Record>, x: Record)
    requires x !in S
    ensures SumSet(S + {x}) == SumSet(S) + x.message_count
  {
    SumSetRemove(S + {x}, x);
    assert S + {x} - {x} == S;
  }

  /** Adding up a listing of a set of records gives the set's total, whatever the order. */
  lemma {:induction false} SumCountsOfListing(s: seq<Record>, S: set<Record>)
    requires multiset(s) == multiset(S)
    ensures SumCounts(s) == SumSet(S)
    decreases |s|
  {
    if s != [] {
      var x := s[0];
      assert s == [x] + s[1..];
      assert x in multiset(S);
      assert multiset(s[1..]) == multiset(S - {x}) by {
        assert multiset(S - {x}) == multiset(S) - multiset{x};
      }
      SumCountsOfListing(s[1..], S - {x});
      SumSetRemove(S, x);
    }
  }
}
