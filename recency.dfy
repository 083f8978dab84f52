/** Ordering conversations by recency: `[...list].sort((a, b) => b.timestamp - a.timestamp)`.
    Array.prototype.sort is stable, so conversations with equal timestamps keep
    their list order; the sort works on a copy and leaves its input alone. */
module Recency {
  import opened Types

  /** Timestamps never increase along the sequence. */
  predicate SortedByRecency(s: seq<Conversation>) {
    forall i, j | 0 <= i < j < |s| :: s[i].timestamp >= s[j].timestamp
  }

  /** The conversations of s that carry timestamp t, in the order of s. */
  function WithTimestamp(s: seq<Conversation>, t: int): seq<Conversation> {
    if s == [] then []
    else (if s[0].timestamp == t then [s[0]] else []) + WithTimestamp(s[1..], t)
  }

  lemma ConsSorted(a: Conversation, r: seq<Conversation>)
    requires SortedByRecency(r)
    requires r == [] || a.timestamp >= r[0].timestamp
    ensures SortedByRecency([a] + r)
  {
    forall i, j | 0 <= i < j < |[a] + r|
      ensures ([a] + r)[i].timestamp >= ([a] + r)[j].timestamp
    {
      if i == 0 {
        assert ([a] + r)[j] == r[j - 1];
        assert r[0].timestamp >= r[j - 1].timestamp;
      }
    }
  }

  /** Places x before the first element that is not more recent than it. */
  function Insert(x: Conversation, s: seq<Conversation>): (r: seq<Conversation>)
    requires SortedByRecency(s)
    ensures SortedByRecency(r)
    ensures multiset(r) == multiset(s) + multiset{x}
    ensures r[0] == x || r[0] == s[0]
  {
    if s == [] || x.timestamp >= s[0].timestamp then
      ConsSorted(x, s);
      [x] + s
    else
      var rest := Insert(x, s[1..]);
      assert s == [s[0]] + s[1..];
      ConsSorted(s[0], rest);
      [s[0]] + rest
  }

  /** The sorted copy of s. */
  function SortByRecency(s: seq<Conversation>): (r: seq<Conversation>)
    ensures SortedByRecency(r)
    ensures multiset(r) == multiset(s)
    ensures |r| == |s|
  {
    if s == [] then []
    else
      assert s == [s[0]] + s[1..];
      Insert(s[0], SortByRecency(s[1..]))
  }

  lemma WithTimestampCons(y: Conversation, r: seq<Conversation>, t: int)
    ensures WithTimestamp([y] + r, t) == (if y.timestamp == t then [y] else []) + WithTimestamp(r, t)
  {
    assert ([y] + r)[1..] == r;
  }

  lemma {:induction false} InsertIsStable(x: Conversation, s: seq<Conversation>, t: int)
    requires SortedByRecency(s)
    ensures WithTimestamp(Insert(x, s), t) == WithTimestamp([x] + s, t)
    decreases |s|
  {
    if s != [] && x.timestamp < s[0].timestamp {
      var y, tail := s[0], s[1..];
      assert s == [y] + tail;
      var hx := if x.timestamp == t then [x] else [];
      var hy := if y.timestamp == t then [y] else [];
      calc {
        WithTimestamp(Insert(x, s), t);
        WithTimestamp([y] + Insert(x, tail), t);
        { WithTimestampCons(y, Insert(x, tail), t); }
        hy + WithTimestamp(Insert(x, tail), t);
        { InsertIsStable(x, tail, t); }
        hy + WithTimestamp([x] + tail, t);
        { WithTimestampCons(x, tail, t); }
        hy + (hx + WithTimestamp(tail, t));
        { assert hx == [] || hy == []; }
        hx + (hy + WithTimestamp(tail, t));
        { WithTimestampCons(y, tail, t); }
        hx + WithTimestamp(s, t);
        { WithTimestampCons(x, s, t); }
        WithTimestamp([x] + s, t);
      }
    }
  }

  /** Stability: for every timestamp, the conversations carrying it appear in
      the sorted copy in exactly their original order. */
  lemma {:induction false} SortIsStable(s: seq<Conversation>, t: int)
    ensures WithTimestamp(SortByRecency(s), t) == WithTimestamp(s, t)
  {
    if s != [] {
      SortIsStable(s[1..], t);
      InsertIsStable(s[0], SortByRecency(s[1..]), t);
      WithTimestampCons(s[0], SortByRecency(s[1..]), t);
      WithTimestampCons(s[0], s[1..], t);
      assert s == [s[0]] + s[1..];
    }
  }

  /** Reference definition of "the most recent conversation": the first
      position holding a maximal timestamp. */
  function FirstMostRecent(s: seq<Conversation>): (k: nat)
    requires |s| > 0
    ensures k < |s|
    ensures forall j | 0 <= j < |s| :: s[j].timestamp <= s[k].timestamp
    ensures forall j | 0 <= j < k :: s[j].timestamp < s[k].timestamp
  {
    if |s| == 1 then 0
    else
      var k := FirstMostRecent(s[1..]);
      if s[0].timestamp >= s[1 + k].timestamp then 0 else 1 + k
  }

  /** The head of the sorted copy is the first most recent conversation. */
  lemma {:induction false} SortHeadIsFirstMostRecent(s: seq<Conversation>)
    requires |s| > 0
    ensures SortByRecency(s)[0] == s[FirstMostRecent(s)]
  {
    if |s| > 1 {
      SortHeadIsFirstMostRecent(s[1..]);
    }
  }
}
