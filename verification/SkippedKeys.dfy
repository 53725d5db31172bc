/**
 The bounded store of skipped message keys: eviction of the oldest entries, insertion of a range of
 keys, and the search for a stored key that opens a message.

 Clock readings and the iteration order of the hash map are arbitrary: a method draws them freely and
 its contract holds for whatever was drawn.
 */
module SkippedKeys {
  import opened Wrappers
  import opened Bytes
  import opened Keys
  import opened Framing

  const MAX_SKIP: nat := 1000
  const MAX_SKIPPED_KEYS: nat := 2000

  /** Header key and index of a skipped message. */
  datatype SkipId = SkipId(hk: Key, n: int)

  datatype SkippedKey = SkippedKey(mk: Key, timestamp: int)

  type SkippedMap = map<SkipId, SkippedKey>

  // ---- Eviction ----

  /** kept is what remains of m after discarding all but the target newest entries; which of several
      entries with the same timestamp go is left open. */
  ghost predicate IsEviction(m: SkippedMap, target: nat, kept: SkippedMap) {
    && kept.Keys <= m.Keys
    && (forall id: SkipId | id in kept :: kept[id] == m[id])
    && |kept| == (if |m| <= target then |m| else target)
    && (forall gone, stays | gone in m && gone !in kept && stays in kept ::
          m[gone].timestamp <= m[stays].timestamp)
  }

  /** entries lists every key of m exactly once. */
  ghost predicate Lists(entries: seq<SkipId>, m: SkippedMap) {
    && |entries| == |m|
    && (forall i | 0 <= i < |entries| :: entries[i] in m)
    && (forall i, j | 0 <= i < j < |entries| :: entries[i] != entries[j])
    && (forall id: SkipId | id in m :: id in entries)
  }

  ghost predicate OldestFirst(entries: seq<SkipId>, m: SkippedMap)
    requires forall i | 0 <= i < |entries| :: entries[i] in m
  {
    forall i, j | 0 <= i < j < |entries| :: m[entries[i]].timestamp <= m[entries[j]].timestamp
  }

  lemma {:induction false} HasOldest(m: SkippedMap, ids: set<SkipId>)
    requires ids <= m.Keys && ids != {}
    ensures exists id :: id in ids && forall x | x in ids :: m[id].timestamp <= m[x].timestamp
    decreases ids
  {
    var a :| a in ids;
    if ids == {a} {
      assert a in ids && forall x | x in ids :: m[a].timestamp <= m[x].timestamp;
    } else {
      HasOldest(m, ids - {a});
      var b :| b in ids - {a} && forall x | x in ids - {a} :: m[b].timestamp <= m[x].timestamp;
      var c := if m[a].timestamp <= m[b].timestamp then a else b;
      assert c in ids && forall x | x in ids :: m[c].timestamp <= m[x].timestamp;
    }
  }

  /** HashMap::iter: every key once, in an arbitrary order. */
  method IterationOrder(m: SkippedMap) returns (entries: seq<SkipId>)
    ensures Lists(entries, m)
  {
    entries := [];
    var rest := m.Keys;
    while rest != {}
      invariant rest <= m.Keys
      invariant |entries| + |rest| == |m.Keys|
      invariant forall i | 0 <= i < |entries| :: entries[i] in m && entries[i] !in rest
      invariant forall i, j | 0 <= i < j < |entries| :: entries[i] != entries[j]
      invariant forall id: SkipId | id in m && id !in rest :: id in entries
    {
      var id :| id in rest;
      entries := entries + [id];
      rest := rest - {id};
    }
  }

  /** HashMap::iter followed by the stable sort_by_key on the timestamp. The iteration order being
      arbitrary, so is the order of entries with equal timestamps. */
  method IterationOrderByTime(m: SkippedMap) returns (entries: seq<SkipId>)
    ensures Lists(entries, m) && OldestFirst(entries, m)
  {
    entries := [];
    var rest := m.Keys;
    while rest != {}
      invariant rest <= m.Keys
      invariant |entries| + |rest| == |m.Keys|
      invariant forall i | 0 <= i < |entries| :: entries[i] in m && entries[i] !in rest
      invariant forall i, j | 0 <= i < j < |entries| :: entries[i] != entries[j]
      invariant forall id: SkipId | id in m && id !in rest :: id in entries
      invariant OldestFirst(entries, m)
      invariant forall i, id | 0 <= i < |entries| && id in rest :: m[entries[i]].timestamp <= m[id].timestamp
    {
      HasOldest(m, rest);
      var id :| id in rest && forall x | x in rest :: m[id].timestamp <= m[x].timestamp;
      entries := entries + [id];
      rest := rest - {id};
    }
  }

  /** evict_oldest_skipped_keys */
  method EvictOldestSkippedKeys(mkskipped: SkippedMap, targetSize: nat) returns (kept: SkippedMap)
    ensures IsEviction(mkskipped, targetSize, kept)
  {
    var entries := IterationOrderByTime(mkskipped);
    var toRemove := if |entries| <= targetSize then 0 else |entries| - targetSize;
    kept := mkskipped;
    for i := 0 to toRemove
      invariant kept.Keys <= mkskipped.Keys
      invariant forall id: SkipId | id in kept :: kept[id] == mkskipped[id]
      invariant |kept.Keys| == |mkskipped.Keys| - i
      invariant forall k | 0 <= k < |entries| :: entries[k] in kept <==> i <= k
    {
      var was := kept;
      kept := kept - {entries[i]};
      assert kept.Keys == was.Keys - {entries[i]};
    }
  }

  lemma {:induction false} EvictionExists(m: SkippedMap, target: nat) returns (kept: SkippedMap)
    ensures IsEviction(m, target, kept)
    decreases m.Keys
  {
    if |m| <= target {
      kept := m;
    } else {
      HasOldest(m, m.Keys);
      var id :| id in m.Keys && forall x | x in m.Keys :: m[id].timestamp <= m[x].timestamp;
      var rest := m - {id};
      assert rest.Keys == m.Keys - {id} && |rest.Keys| == |m.Keys| - 1;
      kept := EvictionExists(rest, target);
    }
  }

  // ---- Skipping a range of message keys ----

  /** Room for one more entry: the store is halved first when it is full. */
  ghost predicate MakesRoom(m: SkippedMap, roomy: SkippedMap) {
    if |m| >= MAX_SKIPPED_KEYS then IsEviction(m, MAX_SKIPPED_KEYS / 2, roomy) else roomy == m
  }

  /** Entry made for message i of a chain whose key at position from is ck. */
  function EntryFor(ck: Key, from: nat, i: nat, time: int): SkippedKey
    requires from <= i
  {
    SkippedKey(MkOf(Iter(ck, i - from)), time)
  }

  /** One insertion; lost grows by the ids evicted for it. */
  ghost predicate Enters(prev: SkippedMap, lostBefore: set<SkipId>, id: SkipId, key: SkippedKey,
                         after: SkippedMap, lost: set<SkipId>) {
    exists roomy: SkippedMap ::
      && MakesRoom(prev, roomy)
      && after == roomy[id := key]
      && lost == lostBefore + (prev.Keys - roomy.Keys)
  }

  /** after is the store before with the keys of messages from..until of chain hk entered one by one,
      at the given clock readings; lost collects the ids evicted on the way. */
  ghost predicate Skips(before: SkippedMap, ck: Key, hk: Key, from: nat, until: nat, times: seq<int>,
                        after: SkippedMap, lost: set<SkipId>)
    requires from <= until <= from + |times|
    decreases until, 0
  {
    if until == from then after == before && lost == {}
    else exists prev: SkippedMap, l: set<SkipId> :: SkipsVia(before, ck, hk, from, until, times, prev, l, after, lost)
  }

  /** The last insertion of a skip starts from prev, with l lost so far. */
  ghost predicate SkipsVia(before: SkippedMap, ck: Key, hk: Key, from: nat, until: nat, times: seq<int>,
                           prev: SkippedMap, l: set<SkipId>, after: SkippedMap, lost: set<SkipId>)
    requires from < until <= from + |times|
    decreases until - 1, 1
  {
    && Skips(before, ck, hk, from, until - 1, times, prev, l)
    && Enters(prev, l, SkipId(hk, until - 1), EntryFor(ck, from, until - 1, times[until - 1 - from]), after, lost)
  }

  ghost predicate InRange(id: SkipId, hk: Key, from: nat, until: nat) {
    id.hk == hk && from <= id.n < until
  }

  lemma EntersAt(prev: SkippedMap, l: set<SkipId>, id: SkipId, key: SkippedKey, after: SkippedMap, lost: set<SkipId>,
                 x: SkipId)
    requires Enters(prev, l, id, key, after, lost)
    ensures id in after && after[id] == key
    ensures x != id ==> (x in prev || x in l <==> x in after || x in lost)
    ensures x != id && x in after ==> x in prev && after[x] == prev[x]
    ensures x in lost ==> x in prev || x in l
  {
  }

  lemma InsertionSize(roomy: SkippedMap, id: SkipId, key: SkippedKey)
    ensures |roomy[id := key]| <= |roomy| + 1
  {
    assert roomy[id := key].Keys == roomy.Keys + {id};
  }

  lemma MakesRoomSize(prev: SkippedMap, roomy: SkippedMap)
    requires MakesRoom(prev, roomy) && |prev| <= MAX_SKIPPED_KEYS
    ensures |prev| < MAX_SKIPPED_KEYS ==> |roomy| == |prev| && prev.Keys - roomy.Keys == {}
    ensures |prev| == MAX_SKIPPED_KEYS ==>
              |roomy| == MAX_SKIPPED_KEYS / 2 && |prev.Keys - roomy.Keys| == MAX_SKIPPED_KEYS / 2
  {
    if |prev| == MAX_SKIPPED_KEYS {
      var all, kept := prev.Keys, roomy.Keys;
      assert |all - kept| == |all| - |kept|;
    }
  }

  lemma UnionWithEmpty(a: set<SkipId>, b: set<SkipId>)
    ensures a == {} ==> a + b == b
    ensures b == {} ==> a + b == a
  {
  }

  lemma EntersSize(prev: SkippedMap, l: set<SkipId>, id: SkipId, key: SkippedKey, after: SkippedMap, lost: set<SkipId>)
    requires Enters(prev, l, id, key, after, lost)
    requires |prev| <= MAX_SKIPPED_KEYS
    ensures |after| <= |prev| + 1
    ensures |prev| < MAX_SKIPPED_KEYS ==> lost == l
    ensures |prev| == MAX_SKIPPED_KEYS ==> |after| <= MAX_SKIPPED_KEYS / 2 + 1
    ensures |prev| == MAX_SKIPPED_KEYS && l == {} ==> |lost| == MAX_SKIPPED_KEYS / 2
  {
    var roomy :| MakesRoom(prev, roomy) && after == roomy[id := key] && lost == l + (prev.Keys - roomy.Keys);
    InsertionSize(roomy, id, key);
    MakesRoomSize(prev, roomy);
    UnionWithEmpty(l, prev.Keys - roomy.Keys);
  }

  lemma LastSkip(before: SkippedMap, ck: Key, hk: Key, from: nat, until: nat, times: seq<int>,
                 after: SkippedMap, lost: set<SkipId>)
    returns (prev: SkippedMap, l: set<SkipId>)
    requires from < until <= from + |times|
    requires Skips(before, ck, hk, from, until, times, after, lost)
    ensures Skips(before, ck, hk, from, until - 1, times, prev, l)
    ensures Enters(prev, l, SkipId(hk, until - 1), EntryFor(ck, from, until - 1, times[until - 1 - from]), after, lost)
  {
    prev, l :| SkipsVia(before, ck, hk, from, until, times, prev, l, after, lost);
  }

  /** What a skip does to one id: it disappears only if it was evicted, appears only if it is in the
      range, and holds the chain's message key where it is in the range. */
  ghost predicate ContentsAt(before: SkippedMap, ck: Key, hk: Key, from: nat, until: nat, times: seq<int>,
                             after: SkippedMap, lost: set<SkipId>, id: SkipId)
    requires from <= until <= from + |times|
  {
    && (id in before || InRange(id, hk, from, until) <==> id in after || id in lost)
    && (id in after && InRange(id, hk, from, until) ==> after[id] == EntryFor(ck, from, id.n, times[id.n - from]))
    && (id in after && !InRange(id, hk, from, until) ==> after[id] == before[id])
  }

  lemma {:induction false} SkipsContentsAt(before: SkippedMap, ck: Key, hk: Key, from: nat, until: nat, times: seq<int>,
                                           after: SkippedMap, lost: set<SkipId>, id: SkipId)
    requires from <= until <= from + |times|
    requires Skips(before, ck, hk, from, until, times, after, lost)
    ensures ContentsAt(before, ck, hk, from, until, times, after, lost, id)
    decreases until
  {
    if until > from {
      var prev, l := LastSkip(before, ck, hk, from, until, times, after, lost);
      SkipsContentsAt(before, ck, hk, from, until - 1, times, prev, l, id);
      var last, key := SkipId(hk, until - 1), EntryFor(ck, from, until - 1, times[until - 1 - from]);
      EntersAt(prev, l, last, key, after, lost, id);
    }
  }

  /** Which keys a skip holds, loses and overwrites. */
  lemma SkipsContents(before: SkippedMap, ck: Key, hk: Key, from: nat, until: nat, times: seq<int>,
                      after: SkippedMap, lost: set<SkipId>)
    requires from <= until <= from + |times|
    requires Skips(before, ck, hk, from, until, times, after, lost)
    ensures forall id: SkipId :: ContentsAt(before, ck, hk, from, until, times, after, lost, id)
  {
    forall id: SkipId ensures ContentsAt(before, ck, hk, from, until, times, after, lost, id) {
      SkipsContentsAt(before, ck, hk, from, until, times, after, lost, id);
    }
  }

  /** The store never exceeds its bound, and one call of at most 1000 insertions evicts at most
      once: either nothing is lost, or exactly the older half of a full store. */
  lemma {:induction false} SkipsSize(before: SkippedMap, ck: Key, hk: Key, from: nat, until: nat, times: seq<int>,
                                     after: SkippedMap, lost: set<SkipId>)
    requires from <= until <= from + |times|
    requires until - from <= 1000 && |before| <= 2000
    requires Skips(before, ck, hk, from, until, times, after, lost)
    ensures |after| <= 2000
    ensures |after| <= |before| + (until - from)
    ensures lost == {} || (|lost| == 1000 && |after| <= 1000 + (until - from))
    ensures |before| + (until - from) <= 2000 ==> lost == {}
    decreases until
  {
    if until > from {
      var prev, l := LastSkip(before, ck, hk, from, until, times, after, lost);
      SkipsSize(before, ck, hk, from, until - 1, times, prev, l);
      EntersSize(prev, l, SkipId(hk, until - 1), EntryFor(ck, from, until - 1, times[until - 1 - from]), after, lost);
    }
  }

  lemma {:induction false} RangeSize(ids: set<SkipId>, hk: Key, from: nat, until: nat)
    requires from <= until && forall id: SkipId | id in ids :: InRange(id, hk, from, until)
    ensures |ids| <= until - from
    decreases until
  {
    if until == from {
      assert forall id: SkipId :: id !in ids;
      assert ids == {};
    } else {
      RangeSize(ids - {SkipId(hk, until - 1)}, hk, from, until - 1);
    }
  }

  /** If an eviction discards a key entered by the current call, every survivor is one too. */
  lemma OnlyNewKeysSurvive(before: SkippedMap, ck: Key, hk: Key, from: nat, until: nat, times: seq<int>,
                           prev: SkippedMap, lost: set<SkipId>, roomy: SkippedMap, i: nat)
    requires from <= i < until <= from + |times|
    requires forall id: SkipId, k: nat | id in before && k < |times| :: before[id].timestamp < times[k]
    requires Skips(before, ck, hk, from, until, times, prev, lost)
    requires |prev| >= MAX_SKIPPED_KEYS && IsEviction(prev, MAX_SKIPPED_KEYS / 2, roomy)
    requires SkipId(hk, i) in prev && SkipId(hk, i) !in roomy
    ensures forall id: SkipId | id in roomy.Keys :: InRange(id, hk, from, until)
  {
    SkipsContentsAt(before, ck, hk, from, until, times, prev, lost, SkipId(hk, i));
    forall id: SkipId | id in roomy.Keys ensures InRange(id, hk, from, until) {
      SkipsContentsAt(before, ck, hk, from, until, times, prev, lost, id);
      assert prev[SkipId(hk, i)].timestamp == times[i - from];
      assert prev[SkipId(hk, i)].timestamp <= prev[id].timestamp;
    }
  }

  lemma NewKeySurvives(before: SkippedMap, ck: Key, hk: Key, from: nat, until: nat, times: seq<int>,
                       prev: SkippedMap, lost: set<SkipId>, roomy: SkippedMap, i: nat)
    requires from <= i < until <= from + |times|
    requires until - from < MAX_SKIP
    requires forall id: SkipId, k: nat | id in before && k < |times| :: before[id].timestamp < times[k]
    requires Skips(before, ck, hk, from, until, times, prev, lost)
    requires MakesRoom(prev, roomy) && SkipId(hk, i) in prev
    ensures SkipId(hk, i) in roomy
  {
    assert |roomy| == |roomy.Keys|;
    if SkipId(hk, i) !in roomy {
      OnlyNewKeysSurvive(before, ck, hk, from, until, times, prev, lost, roomy, i);
      RangeSize(roomy.Keys, hk, from, until);
    }
  }

  lemma {:induction false} SkipsKeepsNewKey(before: SkippedMap, ck: Key, hk: Key, from: nat, until: nat,
                                            times: seq<int>, after: SkippedMap, lost: set<SkipId>, i: nat)
    requires from <= i < until <= from + |times|
    requires until - from <= MAX_SKIP
    requires forall id: SkipId, k: nat | id in before && k < |times| :: before[id].timestamp < times[k]
    requires Skips(before, ck, hk, from, until, times, after, lost)
    ensures SkipId(hk, i) in after
    decreases until
  {
    var prev, l := LastSkip(before, ck, hk, from, until, times, after, lost);
    if i < until - 1 {
      SkipsKeepsNewKey(before, ck, hk, from, until - 1, times, prev, l, i);
      var last, key := SkipId(hk, until - 1), EntryFor(ck, from, until - 1, times[until - 1 - from]);
      var roomy :| MakesRoom(prev, roomy) && after == roomy[last := key] && lost == l + (prev.Keys - roomy.Keys);
      NewKeySurvives(before, ck, hk, from, until - 1, times, prev, l, roomy, i);
    }
  }

  /** When the clock readings are later than every stored timestamp, no key entered by the call is
      evicted by it, even where it overwrites an older entry. */
  lemma SkipsKeepsNewKeys(before: SkippedMap, ck: Key, hk: Key, from: nat, until: nat, times: seq<int>,
                          after: SkippedMap, lost: set<SkipId>)
    requires from <= until <= from + |times|
    requires until - from <= MAX_SKIP
    requires forall id: SkipId, k: nat | id in before && k < |times| :: before[id].timestamp < times[k]
    requires Skips(before, ck, hk, from, until, times, after, lost)
    ensures forall i: nat | from <= i < until :: SkipId(hk, i) in after
  {
    forall i: nat | from <= i < until ensures SkipId(hk, i) in after {
      SkipsKeepsNewKey(before, ck, hk, from, until, times, after, lost, i);
    }
  }

  /** If an eviction discards an entry that was among the recent ones before the call, every survivor is
      recent or new. */
  lemma OnlyRecentSurvive(before: SkippedMap, ck: Key, hk: Key, from: nat, until: nat, times: seq<int>,
                          prev: SkippedMap, lost: set<SkipId>, roomy: SkippedMap, recent: set<SkipId>, x: SkipId)
    requires from <= until <= from + |times|
    requires x in before && !InRange(x, hk, from, until)
    requires forall id: SkipId | id in before && id !in recent :: before[id].timestamp < before[x].timestamp
    requires Skips(before, ck, hk, from, until, times, prev, lost)
    requires |prev| >= MAX_SKIPPED_KEYS && IsEviction(prev, MAX_SKIPPED_KEYS / 2, roomy)
    requires x in prev && x !in roomy
    ensures forall id: SkipId | id in roomy.Keys :: id in recent - {x} || InRange(id, hk, from, until)
  {
    SkipsContentsAt(before, ck, hk, from, until, times, prev, lost, x);
    forall id: SkipId | id in roomy.Keys ensures id in recent - {x} || InRange(id, hk, from, until) {
      SkipsContentsAt(before, ck, hk, from, until, times, prev, lost, id);
      assert prev[x].timestamp <= prev[id].timestamp;
    }
  }

  lemma SmallUnion(all: set<SkipId>, recent: set<SkipId>, hk: Key, from: nat, until: nat)
    requires from <= until && forall id: SkipId | id in all :: id in recent || InRange(id, hk, from, until)
    ensures |all| <= |recent| + (until - from)
  {
    RangeSize(all - recent, hk, from, until);
    SmallerSet(all * recent, recent);
    assert all == all * recent + (all - recent);
  }

  lemma SmallerSet(a: set<SkipId>, b: set<SkipId>)
    requires a <= b
    ensures |a| <= |b|
  {
    assert b == a + (b - a);
  }

  /** The recent entries of a store, newer than all others, survive a call that together with them makes up at most
      MAX_SKIP entries. */
  lemma {:induction false} SkipsKeepsRecent(before: SkippedMap, ck: Key, hk: Key, from: nat, until: nat,
                                            times: seq<int>,
                                            after: SkippedMap, lost: set<SkipId>, recent: set<SkipId>, x: SkipId)
    requires from <= until <= from + |times|
    requires x in recent && x in before && !InRange(x, hk, from, until)
    requires |recent| + (until - from) <= MAX_SKIP
    requires forall id: SkipId | id in before && id !in recent :: before[id].timestamp < before[x].timestamp
    requires Skips(before, ck, hk, from, until, times, after, lost)
    ensures x in after
    decreases until
  {
    if until > from {
      var prev, l := LastSkip(before, ck, hk, from, until, times, after, lost);
      SkipsKeepsRecent(before, ck, hk, from, until - 1, times, prev, l, recent, x);
      RecentSurvives(before, ck, hk, from, until - 1, times, prev, l, recent, x,
                     EntryFor(ck, from, until - 1, times[until - 1 - from]), after, lost);
    }
  }

  lemma RecentSurvives(before: SkippedMap, ck: Key, hk: Key, from: nat, until: nat, times: seq<int>,
                       prev: SkippedMap, l: set<SkipId>, recent: set<SkipId>, x: SkipId,
                       key: SkippedKey, after: SkippedMap, lost: set<SkipId>)
    requires from <= until <= from + |times|
    requires x in recent && x in before && !InRange(x, hk, from, until + 1)
    requires |recent| + (until - from) <= MAX_SKIP
    requires forall id: SkipId | id in before && id !in recent :: before[id].timestamp < before[x].timestamp
    requires Skips(before, ck, hk, from, until, times, prev, l) && x in prev
    requires Enters(prev, l, SkipId(hk, until), key, after, lost)
    ensures x in after
  {
    hide Skips;
    var roomy :| MakesRoom(prev, roomy) && after == roomy[SkipId(hk, until) := key]
      && lost == l + (prev.Keys - roomy.Keys);
    assert |roomy| == |roomy.Keys|;
    if x !in roomy {
      OnlyRecentSurvive(before, ck, hk, from, until, times, prev, l, roomy, recent, x);
      SmallUnion(roomy.Keys, recent - {x}, hk, from, until);
    }
  }

  function SkipError(from: nat, until: nat): Option<RatchetError> {
    if until < from then Some(InvalidHeader)
    else if until - from > MAX_SKIP then Some(OldMessageKeysLimitReached)
    else None
  }

  /** Which ranges are refused, and how. */
  lemma SkipLimits(from: nat, until: nat)
    ensures SkipError(from, until) == Some(InvalidHeader) <==> until < from
    ensures SkipError(from, until) == Some(OldMessageKeysLimitReached) <==> until - from > 1000
    ensures SkipError(from, until) == None <==> from <= until <= from + 1000
  {
  }

  lemma SkipsPrefixOfTimes(before: SkippedMap, ck: Key, hk: Key, from: nat, until: nat, times: seq<int>, more: seq<int>,
                           after: SkippedMap, lost: set<SkipId>)
    requires from <= until <= from + |times| && times <= more
    requires Skips(before, ck, hk, from, until, times, after, lost)
    ensures Skips(before, ck, hk, from, until, more, after, lost)
    decreases until
  {
    if until > from {
      var prev, l := LastSkip(before, ck, hk, from, until, times, after, lost);
      SkipsPrefixOfTimes(before, ck, hk, from, until - 1, times, more, prev, l);
      assert SkipsVia(before, ck, hk, from, until, more, prev, l, after, lost);
    }
  }

  lemma SkipsOneMore(before: SkippedMap, ck: Key, hk: Key, from: nat, current: nat, times: seq<int>,
                     prev: SkippedMap, lost: set<SkipId>, roomy: SkippedMap, now: int)
    requires from <= current && |times| == current - from
    requires Skips(before, ck, hk, from, current, times, prev, lost) && MakesRoom(prev, roomy)
    ensures Skips(before, ck, hk, from, current + 1, times + [now],
                  roomy[SkipId(hk, current) := EntryFor(ck, from, current, now)], lost + (prev.Keys - roomy.Keys))
  {
    var id, key := SkipId(hk, current), EntryFor(ck, from, current, now);
    var more, after, gone := times + [now], roomy[id := key], lost + (prev.Keys - roomy.Keys);
    SkipsPrefixOfTimes(before, ck, hk, from, current, times, more, prev, lost);
    assert Enters(prev, lost, id, key, after, gone);
    assert SkipsVia(before, ck, hk, from, current + 1, more, prev, lost, after, gone);
  }

  /** Some outcome exists for every store and every clock. */
  lemma {:induction false} SkipsExists(before: SkippedMap, ck: Key, hk: Key, from: nat, until: nat, times: seq<int>)
    returns (after: SkippedMap, lost: set<SkipId>)
    requires from <= until && |times| == until - from
    ensures Skips(before, ck, hk, from, until, times, after, lost)
    decreases until
  {
    if until == from {
      after, lost := before, {};
    } else {
      var earlier, now := times[..|times| - 1], times[|times| - 1];
      var prev, l := SkipsExists(before, ck, hk, from, until - 1, earlier);
      var roomy := prev;
      if |prev| >= MAX_SKIPPED_KEYS {
        roomy := EvictionExists(prev, MAX_SKIPPED_KEYS / 2);
      }
      SkipsOneMore(before, ck, hk, from, until - 1, earlier, prev, l, roomy, now);
      assert times == earlier + [now];
      after := roomy[SkipId(hk, until - 1) := EntryFor(ck, from, until - 1, now)];
      lost := l + (prev.Keys - roomy.Keys);
    }
  }

  /** skip_message_keys */
  method SkipMessageKeys(mkskipped0: SkippedMap, ck0: Key, hk: Key, from: nat, until: nat)
    returns (r: Result<SkippedMap, RatchetError>, ghost times: seq<int>, ghost lost: set<SkipId>)
    ensures SkipError(from, until).Some? ==> r == Err(SkipError(from, until).value)
    ensures SkipError(from, until).None? ==>
              r.Ok? && |times| == until - from && Skips(mkskipped0, ck0, hk, from, until, times, r.value, lost)
  {
    times, lost := [], {};
    if until < from {
      return Err(InvalidHeader), times, lost;
    }
    var skipCount := until - from;
    if skipCount > MAX_SKIP {
      return Err(OldMessageKeysLimitReached), times, lost;
    }
    var mkskipped, ck := mkskipped0, ck0;
    var current := from;
    while current < until
      invariant from <= current <= until
      invariant |times| == current - from
      invariant ck == Iter(ck0, current - from)
      invariant Skips(mkskipped0, ck0, hk, from, current, times, mkskipped, lost)
    {
      ghost var prev := mkskipped;
      if |mkskipped| >= MAX_SKIPPED_KEYS {
        mkskipped := EvictOldestSkippedKeys(mkskipped, MAX_SKIPPED_KEYS / 2);
      }
      var (nextCk, mk) := KdfCk(ck);
      var now: int := *;  // SystemTime::now()
      SkipsOneMore(mkskipped0, ck0, hk, from, current, times, prev, lost, mkskipped, now);
      times, lost := times + [now], lost + (prev.Keys - mkskipped.Keys);
      mkskipped := mkskipped[SkipId(hk, current) := SkippedKey(mk, now)];
      ck := nextCk;
      current := current + 1;  // checked_add cannot fail below the bound
    }
    r := Ok(mkskipped);
  }

  // ---- Searching the store for a key that opens a message ----

  /** The stored key id opens the message and yields plaintext. */
  ghost predicate Opens(m: SkippedMap, id: SkipId, enc: Wire, ct: Wire, ad: Wire, plaintext: seq<byte>) {
    && id in m
    && OpenHeader(id.hk, enc).Ok? && OpenHeader(id.hk, enc).value.n == id.n
    && OpenBody(m[id].mk, ct, ad) == Ok(plaintext)
  }

  /** The stored key that opens a message, if there is one: a header opens under one key only. */
  function StoredMatch(m: SkippedMap, enc: Wire, ct: Wire, ad: Wire): Option<(SkipId, seq<byte>)> {
    if |enc| == 13 && enc[12].HeaderBox? then
      var hk := enc[12].key;
      match OpenHeader(hk, enc) {
        case Ok(header) =>
          if SkipId(hk, header.n) in m then
            match OpenBody(m[SkipId(hk, header.n)].mk, ct, ad) {
              case Ok(plaintext) => Some((SkipId(hk, header.n), plaintext))
              case Err(_) => None
            }
          else None
        case Err(_) => None
      }
    else None
  }

  lemma StoredMatchUnique(m: SkippedMap, enc: Wire, ct: Wire, ad: Wire, id: SkipId, plaintext: seq<byte>)
    ensures Opens(m, id, enc, ct, ad, plaintext) <==> StoredMatch(m, enc, ct, ad) == Some((id, plaintext))
  {
  }

  /** try_skipped_message_keys: the outcome does not depend on the iteration order. */
  method TrySkippedMessageKeys(mkskipped: SkippedMap, enc: Wire, ct: Wire, ad: Wire)
    returns (rest: SkippedMap, result: Option<seq<byte>>)
    ensures match StoredMatch(mkskipped, enc, ct, ad)
            case Some((id, plaintext)) => rest == mkskipped - {id} && result == Some(plaintext)
            case None => rest == mkskipped && result == None
  {
    var candidates := IterationOrder(mkskipped);
    rest := mkskipped;
    for c := 0 to |candidates|
      invariant rest == mkskipped
      invariant forall k, p | 0 <= k < c :: !Opens(mkskipped, candidates[k], enc, ct, ad, p)
    {
      var SkipId(hk, n) := candidates[c];
      var header := OpenHeader(hk, enc);
      if header.Ok? && header.value.n == n {
        var body := OpenBody(mkskipped[SkipId(hk, n)].mk, ct, ad);
        if body.Ok? {
          StoredMatchUnique(mkskipped, enc, ct, ad, SkipId(hk, n), body.value);
          return mkskipped - {SkipId(hk, n)}, Some(body.value);
        }
      }
    }
    ghost var found := StoredMatch(mkskipped, enc, ct, ad);
    if found.Some? {
      StoredMatchUnique(mkskipped, enc, ct, ad, found.value.0, found.value.1);
    }
    result := None;
  }
}
