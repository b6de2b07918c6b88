/** The UserStats collection of bot.js as an in-memory table keyed by the unique
    (user_id, group_id) index, with the find-or-create, save and find-by-group
    operations the bot uses, and what a sequence of counted messages does to it. */
module Store {
  import opened Values
  import opened StatsRecord
  import opened Ranking

  type Table = map<Key, Record>

  /** The document find-or-create yields for a key: the stored one, else a new one. */
  function Lookup(m: Table, key: Key): Record {
    if key in m then m[key] else NewRecord(key)
  }

  /** Each document is stored under its own (user_id, group_id): the unique index. */
  ghost predicate WellKeyed(m: Table) {
    forall k :: k in m ==> KeyOf(m[k]) == k
  }

  /** No stored average message length is 0: once set, it is at least 1. */
  ghost predicate AveragesPositive(m: Table) {
    forall k :: k in m ==> m[k].average_message_length != Some(0)
  }

  /** The table after `updateUserStats` has counted a message from `from` in
      chat `group` and saved the document. */
  function AfterUpdate(m: Table, group: int, from: Sender, text: Option<string>): (r: Table)
    ensures r.Keys == m.Keys + {Key(from.id, group)}
    ensures r[Key(from.id, group)].message_count == Lookup(m, Key(from.id, group)).message_count + 1
    ensures r[Key(from.id, group)].username == Some(ResolveName(from))
    ensures r[Key(from.id, group)].average_message_length
         == NextAverage(Lookup(m, Key(from.id, group)).average_message_length, text)
    ensures forall k :: k in m && k != Key(from.id, group) ==> r[k] == m[k]
  {
    var key := Key(from.id, group);
    m[key := ApplyMessage(Lookup(m, key), from, text)]
  }

  lemma UpdateKeepsKeying(m: Table, group: int, from: Sender, text: Option<string>)
    requires WellKeyed(m)
    ensures WellKeyed(AfterUpdate(m, group, from, text))
  {
  }

  /** A counted message never stores an average of 0, so the falsy test on the
      stored average only ever sees null. */
  lemma UpdateKeepsAveragesPositive(m: Table, group: int, from: Sender, text: Option<string>)
    requires AveragesPositive(m)
    ensures AveragesPositive(AfterUpdate(m, group, from, text))
  {
  }

  /** One message of a sequence counted in one group. */
  datatype Incoming = Incoming(from: Sender, text: Option<string>)

  /** The table after the messages have been counted one after another in `group`. */
  function Replay(m: Table, group: int, msgs: seq<Incoming>): Table
    decreases |msgs|
  {
    if msgs == [] then m
    else Replay(AfterUpdate(m, group, msgs[0].from, msgs[0].text), group, msgs[1..])
  }

  /** N messages from one user raise that user's count in the group by exactly N,
      whatever they contain; from a pair with no document yet the count is N. */
  lemma {:induction false} ReplayCount(m: Table, group: int, msgs: seq<Incoming>, user: int)
    requires forall i :: 0 <= i < |msgs| ==> msgs[i].from.id == user
    ensures Lookup(Replay(m, group, msgs), Key(user, group)).message_count
         == Lookup(m, Key(user, group)).message_count + |msgs|
    ensures Key(user, group) !in m ==> Lookup(Replay(m, group, msgs), Key(user, group)).message_count == |msgs|
    decreases |msgs|
  {
    if msgs != [] {
      ReplayCount(AfterUpdate(m, group, msgs[0].from, msgs[0].text), group, msgs[1..], user);
    }
  }

  /** Counting messages leaves every other pair's document as it was, and creates none. */
  lemma {:induction false} ReplayOthersUnchanged(m: Table, group: int, msgs: seq<Incoming>, k: Key)
    requires forall i :: 0 <= i < |msgs| ==> Key(msgs[i].from.id, group) != k
    ensures k in Replay(m, group, msgs) <==> k in m
    ensures k in m ==> Replay(m, group, msgs)[k] == m[k]
    decreases |msgs|
  {
    if msgs != [] {
      ReplayOthersUnchanged(AfterUpdate(m, group, msgs[0].from, msgs[0].text), group, msgs[1..], k);
    }
  }

  /** The documents of set S that belong to group g. */
  ghost function Matching(S: set<Record>, g: int): set<Record> {
    set r | r in S && r.group_id == g
  }

  /** `find({ group_id: g })`: every stored document of group g. */
  ghost function GroupRecords(m: Table, g: int): set<Record> {
    Matching(m.Values, g)
  }

  /** The number of messages counted in group g. */
  ghost function GroupTotal(m: Table, g: int): nat {
    SumSet(GroupRecords(m, g))
  }

  /** s is what the sorted group query may return: each document of group g
      exactly once, in the report's order. */
  ghost predicate IsGroupQuery(m: Table, g: int, s: seq<Record>) {
    Sorted(s) && multiset(s) == multiset(GroupRecords(m, g))
  }

  lemma MatchingAdd(S: set<Record>, r: Record, g: int)
    requires r !in S
    ensures multiset(Matching(S + {r}, g))
         == multiset(Matching(S, g)) + (if r.group_id == g then multiset{r} else multiset{})
  {
    if r.group_id == g {
      assert Matching(S + {r}, g) == Matching(S, g) + {r};
    } else {
      assert Matching(S + {r}, g) == Matching(S, g);
    }
  }

  /** A listing of a set names no element twice. */
  lemma ListingDistinct(s: seq<Record>, S: set<Record>, i: int, j: int)
    requires multiset(s) == multiset(S)
    requires 0 <= i < j < |s|
    ensures s[i] != s[j]
  {
    var y := s[j];
    assert s == s[..j] + [y] + s[j + 1..];
    assert multiset(s)[y] == multiset(s[..j])[y] + 1 + multiset(s[j + 1..])[y];
    assert multiset(S)[y] <= 1;
    assert y !in multiset(s[..j]);
    assert s[i] in s[..j];
  }

  /** A group query lists exactly the group's documents, none twice, and its
      counts add up to the group's total. */
  lemma QueryListsGroup(m: Table, g: int, s: seq<Record>)
    requires IsGroupQuery(m, g, s)
    ensures forall r :: r in s <==> r in m.Values && r.group_id == g
    ensures forall i, j :: 0 <= i < j < |s| ==> s[i] != s[j]
    ensures |s| == |GroupRecords(m, g)|
    ensures SumCounts(s) == GroupTotal(m, g)
  {
    var S := GroupRecords(m, g);
    forall r ensures r in s <==> r in S {
      assert r in s <==> r in multiset(s);
      assert r in S <==> r in multiset(S);
    }
    forall i, j | 0 <= i < j < |s| ensures s[i] != s[j] {
      ListingDistinct(s, S, i, j);
    }
    assert |s| == |multiset(s)| == |multiset(S)|;
    SumCountsOfListing(s, S);
  }

  /** Three users of one group with counts 5, 5, 2 and averages 3, 9, 100 are
      listed as (5, 9), (5, 3), (2, 100): the count decides first, the average
      breaks the tie. */
  lemma ReportOrderExample(g: int, s: seq<Record>)
    requires IsGroupQuery(map[Key(1, g) := Record(1, g, None, 5, Some(3)),
                              Key(2, g) := Record(2, g, None, 5, Some(9)),
                              Key(3, g) := Record(3, g, None, 2, Some(100))], g, s)
    ensures s == [Record(2, g, None, 5, Some(9)), Record(1, g, None, 5, Some(3)), Record(3, g, None, 2, Some(100))]
  {
    var a, b, c := Record(1, g, None, 5, Some(3)), Record(2, g, None, 5, Some(9)), Record(3, g, None, 2, Some(100));
    var m := map[Key(1, g) := a, Key(2, g) := b, Key(3, g) := c];
    assert m.Values == {a, b, c} by {
      assert m[Key(1, g)] == a && m[Key(2, g)] == b && m[Key(3, g)] == c;
    }
    assert GroupRecords(m, g) == {a, b, c};
    QueryListsGroup(m, g, s);
    assert |s| == 3;
    assert s[0] in {a, b, c} && s[1] in {a, b, c} && s[2] in {a, b, c};
    assert Precedes(s[0], s[1]) && Precedes(s[0], s[2]) && Precedes(s[1], s[2]);
  }

  /** Counting a message in a group adds exactly one to that group's total and
      changes no other group's total. */
  lemma UpdateGroupTotal(m: Table, group: int, from: Sender, text: Option<string>)
    requires WellKeyed(m)
    ensures GroupTotal(AfterUpdate(m, group, from, text), group) == GroupTotal(m, group) + 1
    ensures forall g :: g != group ==> GroupTotal(AfterUpdate(m, group, from, text), g) == GroupTotal(m, g)
  {
    var key := Key(from.id, group);
    var m' := AfterUpdate(m, group, from, text);
    var was := Lookup(m, key);
    var now := m'[key];
    var S := GroupRecords(m, group);
    var R := S - {was};
    // The documents of the other pairs are the same before and after.
    forall r | r in m'.Values && r != now ensures r in m.Values && KeyOf(r) != key {
      var k :| k in m' && m'[k] == r;
      assert k != key && k in m;
    }
    forall r | r in m.Values && r != was ensures r in m'.Values && KeyOf(r) != key {
      var k :| k in m && m[k] == r;
      assert k != key && m'[k] == r;
    }
    assert SumSet(S) == was.message_count + SumSet(R) by {
      if key in m {
        assert was in m.Values;
        SumSetRemove(S, was);
      } else {
        assert R == S;
      }
    }
    assert GroupRecords(m', group) == R + {now};
    assert now !in R;
    SumSetAdd(R, now);
    forall g | g != group ensures GroupTotal(m', g) == GroupTotal(m, g) {
      assert GroupRecords(m', g) == GroupRecords(m, g);
    }
  }

  /** N counted messages in a group raise its total by exactly N. */
  lemma {:induction false} ReplayGroupTotal(m: Table, group: int, msgs: seq<Incoming>)
    requires WellKeyed(m)
    ensures GroupTotal(Replay(m, group, msgs), group) == GroupTotal(m, group) + |msgs|
    decreases |msgs|
  {
    if msgs != [] {
      var m' := AfterUpdate(m, group, msgs[0].from, msgs[0].text);
      UpdateGroupTotal(m, group, msgs[0].from, msgs[0].text);
      UpdateKeepsKeying(m, group, msgs[0].from, msgs[0].text);
      ReplayGroupTotal(m', group, msgs[1..]);
    }
  }

  /** The UserStats collection: one document per (user_id, group_id). */
  class UserStatsStore {
    var records: Table

    ghost predicate Valid()
      reads this
    {
      WellKeyed(records) && AveragesPositive(records)
    }

    constructor ()
      ensures Valid() && records == map[]
    {
      records := map[];
    }

    /** `findOneOrCreate(where, where)`: the stored document of the pair if there
        is one; otherwise a new document with the schema defaults, inserted. A
        store failure (`failure`) yields nothing and changes nothing. */
    method FindOneOrCreate(key: Key, failure: bool) returns (found: Option<Record>)
      requires Valid()
      modifies this
      ensures Valid()
      ensures failure ==> found == None && records == old(records)
      ensures !failure && key in old(records) ==>
        found == Some(old(records)[key]) && records == old(records)
      ensures !failure && key !in old(records) ==>
        found == Some(NewRecord(key)) && records == old(records)[key := NewRecord(key)] &&
        |records| == |old(records)| + 1
    {
      if failure {
        return None;
      }
      if key in records {
        found := Some(records[key]);
      } else {
        var doc := NewRecord(key);
        records := records[key := doc];
        found := Some(doc);
      }
    }

    /** `updateUserStats`: find or create the sender's document in the chat,
        change it in place and save it. */
    method UpdateUserStats(group: int, from: Sender, text: Option<string>, failure: bool)
      requires Valid()
      modifies this
      ensures Valid()
      ensures records == if failure then old(records) else AfterUpdate(old(records), group, from, text)
    {
      var key := Key(from.id, group);
      var found := FindOneOrCreate(key, failure);
      if found.None? {
        return;
      }
      var stats := found.value;
      stats := stats.(message_count := stats.message_count + 1);
      stats := stats.(username := Some(ResolveName(from)));
      stats := stats.(average_message_length := NextAverage(stats.average_message_length, text));
      records := records[key := stats];
      assert records == AfterUpdate(old(records), group, from, text);
    }

    /** `find({ group_id: group }).sort({ message_count: -1, average_message_length: -1 })`. */
    method FindByGroup(group: int) returns (stats: seq<Record>)
      ensures IsGroupQuery(records, group, stats)
    {
      stats := [];
      var remaining := records.Values;
      while remaining != {}
        invariant remaining <= records.Values
        invariant Sorted(stats)
        invariant multiset(stats) == multiset(Matching(records.Values - remaining, group))
        decreases remaining
      {
        var r :| r in remaining;
        ghost var done := records.Values - remaining;
        if r.group_id == group {
          stats := Insert(stats, r);
        }
        remaining := remaining - {r};
        assert records.Values - remaining == done + {r};
        MatchingAdd(done, r, group);
      }
      assert records.Values - remaining == records.Values;
    }
  }
}
