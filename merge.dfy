/**
 * Merging several recordings in the legacy entry format into one timeline
 * (the directory constructor of `Replay`): each recording is cleaned to
 * increasing timestamps, the recordings are ordered by their first
 * timestamp, their object ids are moved into id groups of 100, and
 * `BuildData` interleaves them frame by frame, re-emitting the current
 * frame of every recording at every merged time step.
 */
module Merge {
  import opened Wrappers

  /**
   * A `ReplayEntry`: the object id and the timestamp of its state, and the
   * remaining fields of the state, which the merge carries along unchanged.
   */
  datatype Entry = Entry(id: int, timestamp: int, rest: seq<int>)

  /** Timestamps never decrease along the entries. */
  predicate Ordered(e: seq<Entry>) {
    forall a, b :: 0 <= a < b < |e| ==> e[a].timestamp <= e[b].timestamp
  }

  /** The adjacent pairs starting before position `n` are in timestamp order. */
  predicate SortedBelow(e: seq<Entry>, n: int) {
    forall k :: 0 <= k < n && k + 1 < |e| ==> e[k].timestamp <= e[k + 1].timestamp
  }

  /** Adjacent order is order: no entry has a later timestamp than any entry after it. */
  lemma {:induction false} AdjacentOrdered(e: seq<Entry>)
    requires SortedBelow(e, |e|)
    ensures Ordered(e)
    decreases |e|
  {
    if |e| > 1 {
      var init := e[..|e| - 1];
      assert SortedBelow(init, |init|) by {
        forall k | 0 <= k < |init| && k + 1 < |init| ensures init[k].timestamp <= init[k + 1].timestamp {
          assert init[k] == e[k] && init[k + 1] == e[k + 1];
        }
      }
      AdjacentOrdered(init);
      forall a, b | 0 <= a < b < |e| ensures e[a].timestamp <= e[b].timestamp {
        if b < |e| - 1 {
          assert init[a] == e[a] && init[b] == e[b];
        } else if a < b - 1 {
          assert init[a] == e[a] && init[b - 1] == e[b - 1];
          assert e[b - 1].timestamp <= e[b].timestamp;
        }
      }
    }
  }

  /** `ks` picks entries of `from`, in increasing positions, and `e` is what it picks. */
  ghost predicate Picks(e: seq<Entry>, from: seq<Entry>, ks: seq<nat>) {
    && |ks| == |e|
    && (forall m :: 0 <= m < |ks| ==> ks[m] < |from| && e[m] == from[ks[m]])
    && (forall m :: 0 <= m < |ks| - 1 ==> ks[m] < ks[m + 1])
  }

  /** `e` is `from` with some entries erased. */
  ghost predicate SubsequenceOf(e: seq<Entry>, from: seq<Entry>) {
    exists ks :: Picks(e, from, ks)
  }

  /** Positions picked further apart are further apart in `from`. */
  lemma {:induction false} PicksIncreasing(ks: seq<nat>, a: nat, b: nat)
    requires forall m :: 0 <= m < |ks| - 1 ==> ks[m] < ks[m + 1]
    requires a < b < |ks|
    ensures ks[a] < ks[b]
    decreases b - a
  {
    if a + 1 < b {
      PicksIncreasing(ks, a + 1, b);
    }
  }

  /**
   * Why `CleanEntries` may erase entry `p` of `from`: an earlier entry of
   * `from` is later than it, or a later entry of the same object has its
   * timestamp.
   */
  ghost predicate Droppable(from: seq<Entry>, p: nat)
    requires p < |from|
  {
    || (exists q :: 0 <= q < p && from[q].timestamp > from[p].timestamp)
    || (exists q :: p < q < |from| && from[q].timestamp == from[p].timestamp && from[q].id == from[p].id)
  }

  /** Every entry of `from` that `ks` does not pick may be erased. */
  ghost predicate DropsJustified(from: seq<Entry>, ks: seq<nat>) {
    forall p :: 0 <= p < |from| && p !in ks ==> Droppable(from, p)
  }

  /** `e` keeps entries of `from` in order, and every entry it leaves out may be erased. */
  ghost predicate CleanedOf(e: seq<Entry>, from: seq<Entry>) {
    exists ks :: Picks(e, from, ks) && DropsJustified(from, ks)
  }

  /** Erasing a droppable pick keeps every left-out entry droppable. */
  lemma EraseJustified(from: seq<Entry>, ks: seq<nat>, p: nat)
    requires p < |ks| && ks[p] < |from| && DropsJustified(from, ks) && Droppable(from, ks[p])
    ensures DropsJustified(from, ks[..p] + ks[p + 1..])
  {
    assert ks == ks[..p] + [ks[p]] + ks[p + 1..];
  }

  /** Two entries at the same timestamp carry different ids. */
  predicate NoRepeats(e: seq<Entry>) {
    forall a, b :: 0 <= a < b < |e| && e[a].timestamp == e[b].timestamp ==> e[a].id != e[b].id
  }

  /** Erasing position `p` keeps a picking. */
  lemma ErasePicks(e: seq<Entry>, from: seq<Entry>, ks: seq<nat>, p: nat)
    requires Picks(e, from, ks) && p < |e|
    ensures Picks(e[..p] + e[p + 1..], from, ks[..p] + ks[p + 1..])
  {
    var e', ks' := e[..p] + e[p + 1..], ks[..p] + ks[p + 1..];
    assert forall m :: 0 <= m < |ks'| ==> ks'[m] == (if m < p then ks[m] else ks[m + 1]);
    assert forall m :: 0 <= m < |e'| ==> e'[m] == (if m < p then e[m] else e[m + 1]);
    forall m | 0 <= m < |ks'| - 1 ensures ks'[m] < ks'[m + 1] {
      if m + 1 == p {
        assert ks[m] < ks[m + 1] < ks[m + 2];
      }
    }
  }

  /**
   * The inner loop of `CleanEntries` at position `i`: when a later entry of
   * the same object follows among the entries sharing `e[i]`'s timestamp,
   * `e[i]` is erased.
   */
  method DropRepeat(e: seq<Entry>, i: nat) returns (e': seq<Entry>, dropped: bool)
    requires i < |e|
    ensures !dropped ==> e' == e
    ensures dropped ==> i + 1 < |e| && e[i + 1].timestamp == e[i].timestamp && e' == e[..i] + e[i + 1..]
    ensures dropped ==> exists j :: i < j < |e| && e[j].timestamp == e[i].timestamp && e[j].id == e[i].id
  {
    e', dropped := e, false;
    var j := 1;
    while i + j < |e| && e[i + j].timestamp == e[i].timestamp
      invariant 1 <= j && i + j <= |e|
      invariant forall k :: i < k < i + j ==> e[k].timestamp == e[i].timestamp
      decreases |e| - j
    {
      if e[i + j].id == e[i].id {
        e', dropped := e[..i] + e[i + 1..], true;
        return;
      }
      j := j + 1;
    }
  }

  /** Erasing the entry after position `i` keeps the pairs before `i` in order. */
  lemma EraseAfter(e: seq<Entry>, i: nat)
    requires i + 1 < |e| && SortedBelow(e, i)
    ensures SortedBelow(e[..i + 1] + e[i + 2..], i)
  {
    var e' := e[..i + 1] + e[i + 2..];
    forall k | 0 <= k < i && k + 1 < |e'| ensures e'[k].timestamp <= e'[k + 1].timestamp {
      assert e'[k] == e[k] && e'[k + 1] == e[k + 1];
    }
  }

  /** Erasing `e[i]` when `e[i + 1]` has its timestamp keeps the pairs before `i` in order. */
  lemma EraseAt(e: seq<Entry>, i: nat)
    requires i + 1 < |e| && SortedBelow(e, i + 1) && e[i + 1].timestamp == e[i].timestamp
    ensures SortedBelow(e[..i] + e[i + 1..], i)
  {
    var e' := e[..i] + e[i + 1..];
    forall k | 0 <= k < i && k + 1 < |e'| ensures e'[k].timestamp <= e'[k + 1].timestamp {
      if k + 1 == i {
        assert e'[k] == e[k] && e'[k + 1] == e[i + 1];
      } else {
        assert e'[k] == e[k] && e'[k + 1] == e[k + 1];
      }
    }
  }

  /**
   * The order check of `CleanEntries` at position `i`: an entry earlier than
   * `e[i]` right after it is erased, and the counter steps back.
   */
  method DropEarlier(ghost from: seq<Entry>, e: seq<Entry>, ghost ks: seq<nat>, i: nat)
    returns (e': seq<Entry>, ghost ks': seq<nat>, i': int)
    requires i + 1 < |e| && SortedBelow(e, i) && Picks(e, from, ks) && DropsJustified(from, ks)
    ensures SortedBelow(e', i' + 1) && Picks(e', from, ks') && DropsJustified(from, ks')
    ensures (e' == e && i' == i) || (|e'| == |e| - 1 && i' == i - 1)
    ensures Ordered(e) ==> e' == e && i' == i
    ensures |e'| > 0 && e'[0].timestamp == e[0].timestamp
  {
    if e[i + 1].timestamp < e[i].timestamp {
      assert from[ks[i]].timestamp > from[ks[i + 1]].timestamp;
      EraseJustified(from, ks, i + 1);
      ErasePicks(e, from, ks, i + 1);
      EraseAfter(e, i);
      e', ks', i' := e[..i + 1] + e[i + 2..], ks[..i + 1] + ks[i + 2..], i - 1;
    } else {
      e', ks', i' := e, ks, i;
    }
  }

  /**
   * The duplicate check of `CleanEntries` at position `i`, followed by the
   * step to the next position: `e[i]` is erased when an entry of the same
   * object follows it at the same timestamp, and the counter stays.
   */
  method DropRepeatAt(ghost from: seq<Entry>, e: seq<Entry>, ghost ks: seq<nat>, i: nat)
    returns (e': seq<Entry>, ghost ks': seq<nat>, i': nat)
    requires i < |e| && SortedBelow(e, i + 1) && Picks(e, from, ks) && DropsJustified(from, ks)
    ensures SortedBelow(e', i') && Picks(e', from, ks') && DropsJustified(from, ks') && |e'| > 0
    ensures (e' == e && i' == i + 1) || (|e'| == |e| - 1 && i' == i)
    ensures NoRepeats(e) ==> e' == e && i' == i + 1
    ensures e'[0].timestamp == e[0].timestamp
  {
    var dropped;
    e', dropped := DropRepeat(e, i);
    if dropped {
      var j :| i < j < |e| && e[j].timestamp == e[i].timestamp && e[j].id == e[i].id;
      PicksIncreasing(ks, i, j);
      assert from[ks[j]].timestamp == from[ks[i]].timestamp && from[ks[j]].id == from[ks[i]].id;
      EraseJustified(from, ks, i);
      ErasePicks(e, from, ks, i);
      EraseAt(e, i);
      ks', i' := ks[..i] + ks[i + 1..], i;
    } else {
      ks', i' := ks, i + 1;
    }
  }

  /**
   * `CleanEntries`, with the counter a signed integer: an entry earlier than
   * its predecessor is erased, and of two entries of one object at the same
   * timestamp the earlier is erased. The result is in timestamp order, keeps
   * every recording non-empty, erases only entries that are preceded by a
   * later one or followed by one of the same object at the same timestamp,
   * and changes nothing in an input that is already ordered without repeats.
   */
  method CleanEntries(entries: seq<Entry>) returns (e: seq<Entry>)
    ensures Ordered(e)
    ensures SubsequenceOf(e, entries)
    ensures CleanedOf(e, entries)
    ensures |entries| > 0 ==> |e| > 0 && e[0].timestamp == entries[0].timestamp
    ensures Ordered(entries) && NoRepeats(entries) ==> e == entries
  {
    e := entries;
    ghost var ks: seq<nat> := seq(|entries|, m requires 0 <= m < |entries| => m);
    ghost var clean := Ordered(entries) && NoRepeats(entries);
    assert forall p :: 0 <= p < |entries| ==> ks[p] == p;
    var i: int := 0;
    while i < |e| - 1
      invariant 0 <= i && (|entries| > 0 ==> |e| > 0 && e[0].timestamp == entries[0].timestamp)
      invariant SortedBelow(e, i) && Picks(e, entries, ks) && DropsJustified(entries, ks)
      invariant clean ==> e == entries
      decreases 2 * |e| - i
    {
      e, ks, i := DropEarlier(entries, e, ks, i);
      if i >= 0 {
        e, ks, i := DropRepeatAt(entries, e, ks, i);
      } else {
        i := 0;
      }
    }
    assert Picks(e, entries, ks) && DropsJustified(entries, ks);
    AdjacentOrdered(e);
  }

  /** The unsigned 32-bit decrement and addition of the counters of `CleanEntries` as written. */
  function Dec32(x: nat): (r: nat)
    requires x < 0x1_0000_0000
    ensures r < 0x1_0000_0000 && (x > 0 ==> r == x - 1) && (x == 0 ==> r == 0xFFFF_FFFF)
  {
    (x + 0xFFFF_FFFF) % 0x1_0000_0000
  }

  function Add32(x: nat, y: nat): (r: nat)
    requires x < 0x1_0000_0000 && y < 0x1_0000_0000
    ensures r < 0x1_0000_0000 && (x + y < 0x1_0000_0000 ==> r == x + y)
  {
    (x + y) % 0x1_0000_0000
  }

  /**
   * As written, the order check of `CleanEntries` at position `i`: the
   * entries and the unsigned counter the inner duplicate loop then starts
   * from.
   */
  function OrderCheckAsWritten(e: seq<Entry>, i: nat): (r: (seq<Entry>, nat))
    requires i + 1 < |e| && i < 0x1_0000_0000
    ensures r.1 < 0x1_0000_0000
  {
    if e[i + 1].timestamp < e[i].timestamp then (e[..i + 1] + e[i + 2..], Dec32(i)) else (e, i)
  }

  /**
   * As written, an entry earlier than the first one wraps the counter to
   * 2^32 - 1; the bound check `i + j < size` of the inner loop wraps to 0
   * and passes, and the loop then reads `entries[i]` far past the end.
   */
  lemma CleanEntriesReadsPastEnd()
    ensures var r := OrderCheckAsWritten([Entry(1, 5, []), Entry(1, 3, [])], 0);
      && |r.0| == 1 && r.1 == 0xFFFF_FFFF
      && Add32(r.1, 1) < |r.0| && r.1 >= |r.0|
  {
  }

  /** The recordings with the ids of recording `j` moved into id group `100 * j`. */
  function Grouped(scen: seq<seq<Entry>>): (g: seq<seq<Entry>>)
    ensures |g| == |scen|
    ensures forall j :: 0 <= j < |scen| ==> |g[j]| == |scen[j]|
  {
    seq(|scen|, j requires 0 <= j < |scen| =>
      seq(|scen[j]|, k requires 0 <= k < |scen[j]| => scen[j][k].(id := scen[j][k].id + 100 * j)))
  }

  /** The id groups of `BuildData`: every entry of recording `j` keeps its state and gains `100 * j` on its id. */
  method GroupIds(scen: seq<seq<Entry>>) returns (g: seq<seq<Entry>>)
    ensures g == Grouped(scen)
    ensures forall j, k :: 0 <= j < |scen| && 0 <= k < |scen[j]| ==>
      g[j][k].id == scen[j][k].id + 100 * j && g[j][k].timestamp == scen[j][k].timestamp && g[j][k].rest == scen[j][k].rest
  {
    g := scen;
    var j := 0;
    while j < |g|
      invariant 0 <= j <= |g| && |g| == |scen|
      invariant forall j' :: 0 <= j' < j ==> g[j'] == Grouped(scen)[j']
      invariant forall j' :: j <= j' < |g| ==> g[j'] == scen[j']
    {
      var r := g[j];
      var k := 0;
      while k < |r|
        invariant 0 <= k <= |r| && |r| == |scen[j]|
        invariant forall k' :: 0 <= k' < k ==> r[k'] == Grouped(scen)[j][k']
        invariant forall k' :: k <= k' < |r| ==> r[k'] == scen[j][k']
      {
        r := r[k := r[k].(id := r[k].id + 100 * j)];
        k := k + 1;
      }
      g := g[j := r];
      j := j + 1;
    }
  }

  /** No entry of recording `r` is later than `m`, and `base <= m`. */
  function LatestIn(r: seq<Entry>, base: int): (m: int)
    ensures base <= m && forall k :: 0 <= k < |r| ==> r[k].timestamp <= m
    decreases |r|
  {
    if |r| == 0 then base
    else
      var m := LatestIn(r[..|r| - 1], base);
      if r[|r| - 1].timestamp > m then r[|r| - 1].timestamp else m
  }

  /** The latest timestamp of all recordings (`base` when there is none). */
  function Latest(g: seq<seq<Entry>>, base: int): (m: int)
    ensures base <= m && forall j, k :: 0 <= j < |g| && 0 <= k < |g[j]| ==> g[j][k].timestamp <= m
    decreases |g|
  {
    if |g| == 0 then base else LatestIn(g[|g| - 1], Latest(g[..|g| - 1], base))
  }

  /** `e` is the state `x` stamped with a merged time no earlier than its own. */
  predicate Derives(x: Entry, e: Entry) {
    e == x.(timestamp := e.timestamp) && x.timestamp <= e.timestamp
  }

  /** `e` is an entry of one of the recordings, stamped with a merged time. */
  ghost predicate FromInput(g: seq<seq<Entry>>, e: Entry) {
    exists j, k :: 0 <= j < |g| && 0 <= k < |g[j]| && Derives(g[j][k], e)
  }

  /** Entry `k` of recording `j` appears in the merged data. */
  ghost predicate Emitted(g: seq<seq<Entry>>, data: seq<Entry>, j: nat, k: nat)
    requires j < |g| && k < |g[j]|
  {
    exists m :: 0 <= m < |data| && Derives(g[j][k], data[m])
  }

  /** The `next_idx` vector: per recording, -1 once it is exhausted, otherwise a position in it. */
  predicate NextOk(g: seq<seq<Entry>>, nx: seq<int>) {
    |nx| == |g| && forall j :: 0 <= j < |g| ==> nx[j] == -1 || 0 <= nx[j] <= |g[j]|
  }

  /** How far recording `j` has been emitted. */
  function Done(g: seq<seq<Entry>>, nx: seq<int>, j: nat): (n: nat)
    requires NextOk(g, nx) && j < |g|
    ensures n <= |g[j]|
  {
    if nx[j] == -1 then |g[j]| else nx[j]
  }

  /** Every entry of every recording before its `Done` position has been emitted. */
  ghost predicate Covered(g: seq<seq<Entry>>, data: seq<Entry>, nx: seq<int>)
    requires NextOk(g, nx)
  {
    forall j, k :: 0 <= j < |g| && 0 <= k < Done(g, nx, j) ==> Emitted(g, data, j, k)
  }

  /** `data'` is `data` followed by entries of the recordings stamped `cur`. */
  ghost predicate Extends(g: seq<seq<Entry>>, data: seq<Entry>, data': seq<Entry>, cur: int) {
    && |data| <= |data'| && data'[..|data|] == data
    && forall m :: |data| <= m < |data'| ==> data'[m].timestamp == cur && FromInput(g, data'[m])
  }

  lemma EmittedGrow(g: seq<seq<Entry>>, data: seq<Entry>, data': seq<Entry>, j: nat, k: nat)
    requires j < |g| && k < |g[j]| && |data| <= |data'| && data'[..|data|] == data
    requires Emitted(g, data, j, k)
    ensures Emitted(g, data', j, k)
  {
    var m :| 0 <= m < |data| && Derives(g[j][k], data[m]);
    assert data'[m] == data[m];
  }

  lemma ExtendsTrans(g: seq<seq<Entry>>, d0: seq<Entry>, d1: seq<Entry>, d2: seq<Entry>, cur: int)
    requires Extends(g, d0, d1, cur) && Extends(g, d1, d2, cur)
    ensures Extends(g, d0, d2, cur)
  {
    assert d2[..|d0|] == d1[..|d1|][..|d0|];
    forall m | |d0| <= m < |d2| ensures d2[m].timestamp == cur && FromInput(g, d2[m]) {
      if m < |d1| {
        assert d2[m] == d1[m];
      }
    }
  }

  /** The first position of `r` from `from` on whose entry is later than `cur`, or the end of `r`. */
  function FirstLater(r: seq<Entry>, from: nat, cur: int): (k: nat)
    requires from <= |r|
    ensures from <= k <= |r| && (k < |r| ==> r[k].timestamp > cur)
    ensures forall q :: from <= q < k ==> r[q].timestamp <= cur
    decreases |r| - from
  {
    if from < |r| && r[from].timestamp <= cur then FirstLater(r, from + 1, cur) else from
  }

  /** The entries `s` stamped with the merged time `cur`. */
  function Stamped(s: seq<Entry>, cur: int): seq<Entry> {
    seq(|s|, i requires 0 <= i < |s| => s[i].(timestamp := cur))
  }

  /** A state of `BuildData`: per recording, its current position `cur_idx` within it, and `next_idx`. */
  predicate MergeState(g: seq<seq<Entry>>, curIdx: seq<nat>, nx: seq<int>) {
    NextOk(g, nx) && |curIdx| == |g| && forall j :: 0 <= j < |g| ==> curIdx[j] <= |g[j]|
  }

  /**
   * What recording `j` emits at the merged time `cur`: nothing once it is
   * exhausted, otherwise its current frame and every later entry due by
   * `cur`, all stamped `cur`.
   */
  function Part(g: seq<seq<Entry>>, curIdx: seq<nat>, nx: seq<int>, cur: int, j: nat): seq<Entry>
    requires MergeState(g, curIdx, nx) && j < |g|
  {
    if nx[j] == -1 then [] else Stamped(g[j][curIdx[j] .. FirstLater(g[j], curIdx[j], cur)], cur)
  }

  /** What the first `n` recordings emit at the merged time `cur`, recording by recording. */
  function StepOut(g: seq<seq<Entry>>, curIdx: seq<nat>, nx: seq<int>, cur: int, n: nat): seq<Entry>
    requires MergeState(g, curIdx, nx) && n <= |g|
  {
    if n == 0 then [] else StepOut(g, curIdx, nx, cur, n - 1) + Part(g, curIdx, nx, cur, n - 1)
  }

  /** `next_idx` after the pass at the merged time `cur`: the first entry left of each recording, or -1. */
  function StepNext(g: seq<seq<Entry>>, curIdx: seq<nat>, nx: seq<int>, cur: int): (nx': seq<int>)
    requires MergeState(g, curIdx, nx)
    ensures |nx'| == |g|
  {
    seq(|g|, j requires 0 <= j < |g| =>
      if nx[j] == -1 then -1
      else var k := FirstLater(g[j], curIdx[j], cur); if k < |g[j]| then k else -1)
  }

  /** After the pass at `cur`, every recording is exhausted or next at an entry later than `cur`, and an exhausted one stays so. */
  lemma StepNextSpec(g: seq<seq<Entry>>, curIdx: seq<nat>, nx: seq<int>, cur: int)
    requires MergeState(g, curIdx, nx)
    ensures var nx' := StepNext(g, curIdx, nx, cur);
      && NextOk(g, nx')
      && (forall j :: 0 <= j < |g| ==> nx'[j] == -1 || (curIdx[j] <= nx'[j] < |g[j]| && g[j][nx'[j]].timestamp > cur))
      && (forall j :: 0 <= j < |g| && nx[j] == -1 ==> nx'[j] == -1)
  {
  }

  /** `min_time_stamp` after the pass over the first `n` recordings: the earliest of their next entries, or none. */
  function MinNext(g: seq<seq<Entry>>, nx: seq<int>, n: nat): (min: Option<int>)
    requires NextOk(g, nx) && n <= |g| && forall j :: 0 <= j < n ==> nx[j] == -1 || nx[j] < |g[j]|
  {
    if n == 0 then None
    else
      var m := MinNext(g, nx, n - 1);
      if nx[n - 1] == -1 then m
      else if m.None? || g[n - 1][nx[n - 1]].timestamp < m.value then Some(g[n - 1][nx[n - 1]].timestamp)
      else m
  }

  /** `MinNext` is none exactly when all of the first `n` recordings are exhausted, and otherwise the earliest of their next entries. */
  lemma {:induction false} MinNextSpec(g: seq<seq<Entry>>, nx: seq<int>, n: nat)
    requires NextOk(g, nx) && n <= |g| && forall j :: 0 <= j < n ==> nx[j] == -1 || nx[j] < |g[j]|
    ensures var min := MinNext(g, nx, n);
      && (min.None? <==> forall j :: 0 <= j < n ==> nx[j] == -1)
      && (min.Some? ==> exists j :: 0 <= j < n && nx[j] != -1 && min.value == g[j][nx[j]].timestamp)
      && (min.Some? ==> forall j :: 0 <= j < n && nx[j] != -1 ==> min.value <= g[j][nx[j]].timestamp)
  {
    if n > 0 {
      MinNextSpec(g, nx, n - 1);
    }
  }

  /** `MinNext` depends only on the first `n` next positions. */
  lemma {:induction false} MinNextFrame(g: seq<seq<Entry>>, nx: seq<int>, nx': seq<int>, n: nat)
    requires NextOk(g, nx) && NextOk(g, nx') && n <= |g|
    requires forall j :: 0 <= j < n ==> nx[j] == nx'[j] && (nx[j] == -1 || nx[j] < |g[j]|)
    ensures MinNext(g, nx, n) == MinNext(g, nx', n)
  {
    if n > 0 {
      MinNextFrame(g, nx, nx', n - 1);
    }
  }

  /** `cur_idx` after the step to `min`: a recording whose next entry is due moves its current frame there. */
  function StepIdx(g: seq<seq<Entry>>, curIdx: seq<nat>, nx: seq<int>, min: int): (r: seq<nat>)
    requires NextOk(g, nx) && |curIdx| == |g| && forall j :: 0 <= j < |g| ==> nx[j] == -1 || nx[j] < |g[j]|
  {
    seq(|g|, j requires 0 <= j < |g| => if nx[j] > 0 && g[j][nx[j]].timestamp <= min then nx[j] as nat else curIdx[j])
  }

  /**
   * The merge from a state of `BuildData` on: the pass at the merged time
   * `cur`, then the merge from the earliest entry left, until every
   * recording is exhausted; `latest` bounds every timestamp.
   */
  function MergeFrom(g: seq<seq<Entry>>, curIdx: seq<nat>, nx: seq<int>, cur: int, latest: int): seq<Entry>
    requires MergeState(g, curIdx, nx)
    requires forall j, k :: 0 <= j < |g| && 0 <= k < |g[j]| ==> g[j][k].timestamp <= latest
    decreases latest - cur
  {
    var nx' := StepNext(g, curIdx, nx, cur);
    StepNextSpec(g, curIdx, nx, cur);
    var min := MinNext(g, nx', |g|);
    MinNextSpec(g, nx', |g|);
    StepOut(g, curIdx, nx, cur, |g|) +
      if min.None? then []
      else
        assert cur < min.value <= latest;
        MergeFrom(g, StepIdx(g, curIdx, nx', min.value), nx', min.value, latest)
  }

  /** The merged timeline of the grouped recordings `g`, starting at the first entry of the first one. */
  function MergeOf(g: seq<seq<Entry>>): seq<Entry>
    requires |g| > 0 && |g[0]| > 0
  {
    var cur := g[0][0].timestamp;
    MergeFrom(g, seq(|g|, _ => 0), seq(|g|, _ => 0), cur, Latest(g, cur))
  }

  /** Every recording not yet exhausted emits its part of a step in the step's output. */
  lemma {:induction false} StepOutHasPart(g: seq<seq<Entry>>, curIdx: seq<nat>, nx: seq<int>, cur: int, n: nat, j: nat, i: nat)
    requires MergeState(g, curIdx, nx) && j < n <= |g| && i < |Part(g, curIdx, nx, cur, j)|
    ensures Part(g, curIdx, nx, cur, j)[i] in StepOut(g, curIdx, nx, cur, n)
  {
    if j < n - 1 {
      StepOutHasPart(g, curIdx, nx, cur, n - 1, j, i);
    }
  }

  /**
   * Sample and hold: at every merged time, every recording not yet
   * exhausted whose current frame is due emits that frame again, stamped
   * with the merged time, whether or not it has a new entry then.
   */
  lemma HoldsCurrentFrame(g: seq<seq<Entry>>, curIdx: seq<nat>, nx: seq<int>, cur: int, latest: int, j: nat)
    requires MergeState(g, curIdx, nx)
    requires forall j, k :: 0 <= j < |g| && 0 <= k < |g[j]| ==> g[j][k].timestamp <= latest
    requires j < |g| && nx[j] != -1 && curIdx[j] < |g[j]| && g[j][curIdx[j]].timestamp <= cur
    ensures g[j][curIdx[j]].(timestamp := cur) in MergeFrom(g, curIdx, nx, cur, latest)
  {
    assert Part(g, curIdx, nx, cur, j)[0] == g[j][curIdx[j]].(timestamp := cur);
    StepOutHasPart(g, curIdx, nx, cur, |g|, j, 0);
  }

  /**
   * Sample and hold on two recordings: one with states at 0 and 10, one
   * with states at 0 and 20. At the merged time 10 the second recording
   * has no new state, so its state from time 0 is emitted again, stamped 10.
   */
  lemma HoldExample(a0: Entry, a10: Entry, b0: Entry, b20: Entry)
    requires a0.timestamp == 0 && a10.timestamp == 10 && b0.timestamp == 0 && b20.timestamp == 20
    ensures MergeOf([[a0, a10], [b0, b20]]) == [a0, b0, a10, b0.(timestamp := 10), b20]
  {
    var g := [[a0, a10], [b0, b20]];
    HoldLatest(a0, a10, b0, b20);
    HoldStart(a0, a10, b0, b20);
    HoldAt0(a0, a10, b0, b20);
    HoldAt10(a0, a10, b0, b20);
    HoldAt20(a0, a10, b0, b20);
    assert [a0, b0] + ([a10, b0.(timestamp := 10)] + [b20]) == [a0, b0, a10, b0.(timestamp := 10), b20];
  }

  /** The example's merge starts at time 0 with every recording at its first entry. */
  lemma HoldStart(a0: Entry, a10: Entry, b0: Entry, b20: Entry)
    requires a0.timestamp == 0 && a10.timestamp == 10 && b0.timestamp == 0 && b20.timestamp == 20
    requires Latest([[a0, a10], [b0, b20]], 0) == 20
    ensures MergeOf([[a0, a10], [b0, b20]]) == MergeFrom([[a0, a10], [b0, b20]], [0, 0], [0, 0], 0, 20)
  {
    var g := [[a0, a10], [b0, b20]];
    var z: seq<nat>, z': seq<int> := seq(|g|, _ => 0), seq(|g|, _ => 0);
    assert z == [0, 0] && z' == [0, 0];
  }

  /** The latest timestamp of the example is 20. */
  lemma HoldLatest(a0: Entry, a10: Entry, b0: Entry, b20: Entry)
    requires a0.timestamp == 0 && a10.timestamp == 10 && b0.timestamp == 0 && b20.timestamp == 20
    ensures Latest([[a0, a10], [b0, b20]], 0) == 20
  {
    var g := [[a0, a10], [b0, b20]];
    assert g[..1] == [[a0, a10]] && g[..1][..0] == [];
    assert [a0, a10][..1] == [a0] && [a0][..0] == [];
    assert [b0, b20][..1] == [b0] && [b0][..0] == [];
    assert LatestIn([a0], 0) == 0 && LatestIn([a0, a10], 0) == 10;
    assert Latest(g[..1], 0) == 10;
    assert LatestIn([b0], 10) == 10 && LatestIn([b0, b20], 10) == 20;
  }

  /** The example's pass at 0: both first states; both recordings then wait at their second entry. */
  lemma HoldAt0(a0: Entry, a10: Entry, b0: Entry, b20: Entry)
    requires a0.timestamp == 0 && a10.timestamp == 10 && b0.timestamp == 0 && b20.timestamp == 20
    ensures MergeFrom([[a0, a10], [b0, b20]], [0, 0], [0, 0], 0, 20) ==
      [a0, b0] + MergeFrom([[a0, a10], [b0, b20]], [1, 0], [1, 1], 10, 20)
  {
    var g := [[a0, a10], [b0, b20]];
    var c0: seq<nat>, n0: seq<int> := [0, 0], [0, 0];
    assert FirstLater(g[0], 0, 0) == 1 && FirstLater(g[1], 0, 0) == 1;
    assert Part(g, c0, n0, 0, 0) == [a0] && Part(g, c0, n0, 0, 1) == [b0];
    assert StepOut(g, c0, n0, 0, 1) == [a0];
    assert StepOut(g, c0, n0, 0, 2) == [a0, b0];
    var n1 := StepNext(g, c0, n0, 0);
    assert n1 == [1, 1];
    assert MinNext(g, n1, 1) == Some(10);
    assert MinNext(g, n1, 2) == Some(10);
    assert StepIdx(g, c0, n1, 10) == [1, 0];
  }

  /** The example's pass at 10: the first recording's second state, and the second recording's first state again. */
  lemma HoldAt10(a0: Entry, a10: Entry, b0: Entry, b20: Entry)
    requires a0.timestamp == 0 && a10.timestamp == 10 && b0.timestamp == 0 && b20.timestamp == 20
    ensures MergeFrom([[a0, a10], [b0, b20]], [1, 0], [1, 1], 10, 20) ==
      [a10, b0.(timestamp := 10)] + MergeFrom([[a0, a10], [b0, b20]], [1, 1], [-1, 1], 20, 20)
  {
    var g := [[a0, a10], [b0, b20]];
    var c1: seq<nat>, n1: seq<int> := [1, 0], [1, 1];
    assert FirstLater(g[0], 1, 10) == 2 && FirstLater(g[1], 0, 10) == 1;
    assert Part(g, c1, n1, 10, 0) == [a10] && Part(g, c1, n1, 10, 1) == [b0.(timestamp := 10)];
    assert StepOut(g, c1, n1, 10, 1) == [a10];
    assert StepOut(g, c1, n1, 10, 2) == [a10, b0.(timestamp := 10)];
    var n2 := StepNext(g, c1, n1, 10);
    assert n2 == [-1, 1];
    assert MinNext(g, n2, 1) == None;
    assert MinNext(g, n2, 2) == Some(20);
    assert StepIdx(g, c1, n2, 20) == [1, 1];
  }

  /** The example's pass at 20: the second recording's last state; then both recordings are exhausted. */
  lemma HoldAt20(a0: Entry, a10: Entry, b0: Entry, b20: Entry)
    requires a0.timestamp == 0 && a10.timestamp == 10 && b0.timestamp == 0 && b20.timestamp == 20
    ensures MergeFrom([[a0, a10], [b0, b20]], [1, 1], [-1, 1], 20, 20) == [b20]
  {
    var g := [[a0, a10], [b0, b20]];
    var c2: seq<nat>, n2: seq<int> := [1, 1], [-1, 1];
    assert FirstLater(g[1], 1, 20) == 2;
    assert Part(g, c2, n2, 20, 0) == [] && Part(g, c2, n2, 20, 1) == [b20];
    assert StepOut(g, c2, n2, 20, 1) == [];
    assert StepOut(g, c2, n2, 20, 2) == [b20];
    var n3 := StepNext(g, c2, n2, 20);
    assert n3 == [-1, -1];
    assert MinNext(g, n3, 1) == None;
    assert MinNext(g, n3, 2) == None;
  }

  /**
   * The emission loop of `BuildData` for one recording `r`: from position
   * `from` on, every entry no later than `cur` is appended, stamped `cur`;
   * `k` is the first entry left, which is later than `cur`.
   */
  method EmitRun(r: seq<Entry>, from: nat, cur: int, data: seq<Entry>) returns (data': seq<Entry>, k: nat)
    requires from <= |r|
    ensures from <= k <= |r| && (k < |r| ==> r[k].timestamp > cur)
    ensures forall q :: from <= q < k ==> r[q].timestamp <= cur
    ensures |data'| == |data| + (k - from) && data'[..|data|] == data
    ensures forall q :: from <= q < k ==> data'[|data| + q - from] == r[q].(timestamp := cur)
    ensures k == FirstLater(r, from, cur) && data' == data + Stamped(r[from..k], cur)
  {
    data', k := data, from;
    while k < |r| && r[k].timestamp <= cur
      invariant from <= k <= |r|
      invariant forall q :: from <= q < k ==> r[q].timestamp <= cur
      invariant |data'| == |data| + (k - from) && data'[..|data|] == data
      invariant forall q :: from <= q < k ==> data'[|data| + q - from] == r[q].(timestamp := cur)
    {
      data' := data' + [r[k].(timestamp := cur)];
      k := k + 1;
    }
    ghost var f := FirstLater(r, from, cur);
    assert !(f < k) && !(k < f);
    assert data'[|data|..] == Stamped(r[from..k], cur);
    assert data' == data + data'[|data|..];
  }

  /**
   * What one recording's turn in a merged time step leaves: `nx'` differs
   * from `nx` only for recording `j`, whose next position is the first entry
   * later than `cur`, or -1; `data'` is `data` followed by its entries from
   * `from` on up to `cur`, stamped `cur`, and covers every entry before the
   * next positions.
   */
  ghost predicate Scanned(g: seq<seq<Entry>>, j: nat, from: nat, nx: seq<int>, cur: int,
                          data: seq<Entry>, data': seq<Entry>, nx': seq<int>)
  {
    && j < |g| && from <= |g[j]| && |nx| == |g|
    && NextOk(g, nx') && nx' == nx[j := nx'[j]] && from <= Done(g, nx', j)
    && (nx'[j] == -1 || (nx'[j] < |g[j]| && g[j][nx'[j]].timestamp > cur))
    && Covered(g, data', nx') && Extends(g, data, data', cur)
    && (from < |g[j]| && g[j][from].timestamp <= cur ==> |data'| > |data| && data'[|data|] == g[j][from].(timestamp := cur))
    && var k := FirstLater(g[j], from, cur);
      data' == data + Stamped(g[j][from..k], cur) && nx'[j] == (if k < |g[j]| then k else -1)
  }

  /**
   * One recording in one merged time step: its entries from `from` on up to
   * `cur` are emitted, and its next position is the first entry left, or
   * -1 when it is exhausted.
   */
  method ScanOne(g: seq<seq<Entry>>, j: nat, from: nat, nx: seq<int>, cur: int, data: seq<Entry>)
    returns (data': seq<Entry>, nx': seq<int>)
    requires j < |g| && NextOk(g, nx) && Covered(g, data, nx)
    requires nx[j] != -1 && from <= Done(g, nx, j)
    ensures Scanned(g, j, from, nx, cur, data, data', nx')
  {
    var k;
    data', k := EmitRun(g[j], from, cur, data);
    nx' := nx[j := if k < |g[j]| then k else -1];
    forall m | |data| <= m < |data'| ensures data'[m].timestamp == cur && FromInput(g, data'[m]) {
      var q := m - |data| + from;
      assert data'[|data| + q - from] == g[j][q].(timestamp := cur);
      assert Derives(g[j][q], data'[m]);
    }
    forall j', k' | 0 <= j' < |g| && 0 <= k' < Done(g, nx', j') ensures Emitted(g, data', j', k') {
      if j' == j && from <= k' {
        assert data'[|data| + k' - from] == g[j][k'].(timestamp := cur);
        assert Derives(g[j][k'], data'[|data| + k' - from]);
      } else {
        assert Done(g, nx', j') <= Done(g, nx, j') || k' < from;
        EmittedGrow(g, data, data', j', k');
      }
    }
  }

  /** `min` is the earliest timestamp of the next entries of the first `n` recordings, `None` when all of them are exhausted. */
  predicate MinOfNext(g: seq<seq<Entry>>, nx: seq<int>, n: nat, cur: int, min: Option<int>)
    requires NextOk(g, nx) && n <= |g|
    requires forall j :: 0 <= j < n ==> nx[j] == -1 || nx[j] < |g[j]|
  {
    && (min.None? <==> forall j :: 0 <= j < n ==> nx[j] == -1)
    && (min.Some? ==> cur < min.value && exists j :: 0 <= j < n && nx[j] != -1 && min.value == g[j][nx[j]].timestamp)
    && (min.Some? ==> forall j :: 0 <= j < n && nx[j] != -1 ==> min.value <= g[j][nx[j]].timestamp)
  }

  /** The state of the pass of `ScanAll` before recording `n`. */
  ghost predicate ScanState(g: seq<seq<Entry>>, curIdx: seq<nat>, nx0: seq<int>, cur: int, data0: seq<Entry>,
                            n: nat, data: seq<Entry>, nx: seq<int>, min: Option<int>)
  {
    && n <= |g| && |curIdx| == |g| && NextOk(g, nx0)
    && NextOk(g, nx) && Covered(g, data, nx) && Extends(g, data0, data, cur)
    && (forall j :: 0 <= j < |g| ==> curIdx[j] <= Done(g, nx, j))
    && (forall j :: n <= j < |g| ==> nx[j] == nx0[j])
    && (n == 0 ==> data == data0)
    && (forall j :: 0 <= j < n ==> nx[j] == -1 || (nx[j] < |g[j]| && g[j][nx[j]].timestamp > cur))
    && (forall j :: 0 <= j < n && nx0[j] == -1 ==> nx[j] == -1)
    && MinOfNext(g, nx, n, cur, min)
    && (data0 == [] && 0 < n && 0 < |g[0]| && curIdx[0] == 0 && nx0[0] != -1 && g[0][0].timestamp <= cur ==>
        |data| > 0 && data[0] == g[0][0].(timestamp := cur))
  }

  /** The pass of `ScanAll` before recording `n` agrees with the reference step: output, next positions and minimum so far. */
  ghost predicate ScanTrack(g: seq<seq<Entry>>, curIdx: seq<nat>, nx0: seq<int>, cur: int, data0: seq<Entry>,
                            n: nat, data: seq<Entry>, nx: seq<int>, min: Option<int>)
  {
    && n <= |g| && MergeState(g, curIdx, nx0) && NextOk(g, nx)
    && (forall j :: 0 <= j < n ==> nx[j] == -1 || nx[j] < |g[j]|)
    && data == data0 + StepOut(g, curIdx, nx0, cur, n)
    && (forall j :: 0 <= j < n ==> nx[j] == StepNext(g, curIdx, nx0, cur)[j])
    && min == MinNext(g, nx, n)
  }

  /** An exhausted recording's turn in the pass keeps `ScanTrack`. */
  lemma ScanTrackSkip(g: seq<seq<Entry>>, curIdx: seq<nat>, nx0: seq<int>, cur: int, data0: seq<Entry>,
                      n: nat, data: seq<Entry>, nx: seq<int>, min: Option<int>)
    requires n < |g| && ScanTrack(g, curIdx, nx0, cur, data0, n, data, nx, min) && nx[n] == nx0[n] == -1
    ensures ScanTrack(g, curIdx, nx0, cur, data0, n + 1, data, nx, min)
  {
    assert Part(g, curIdx, nx0, cur, n) == [];
    assert StepOut(g, curIdx, nx0, cur, n + 1) == StepOut(g, curIdx, nx0, cur, n) + [];
    assert StepNext(g, curIdx, nx0, cur)[n] == -1;
    assert MinNext(g, nx, n + 1) == MinNext(g, nx, n);
  }

  /** A live recording's turn in the pass keeps `ScanTrack`. */
  lemma ScanTrackEmit(g: seq<seq<Entry>>, curIdx: seq<nat>, nx0: seq<int>, cur: int, data0: seq<Entry>,
                      n: nat, data: seq<Entry>, nx: seq<int>, min: Option<int>,
                      data': seq<Entry>, nx': seq<int>, min': Option<int>)
    requires n < |g| && ScanTrack(g, curIdx, nx0, cur, data0, n, data, nx, min) && nx[n] == nx0[n] != -1
    requires NextOk(g, nx') && nx' == nx[n := nx'[n]]
    requires var k := FirstLater(g[n], curIdx[n], cur);
      && data' == data + Stamped(g[n][curIdx[n]..k], cur) && nx'[n] == (if k < |g[n]| then k else -1)
    requires min' == (if nx'[n] != -1 && (min.None? || g[n][nx'[n]].timestamp < min.value) then Some(g[n][nx'[n]].timestamp) else min)
    ensures ScanTrack(g, curIdx, nx0, cur, data0, n + 1, data', nx', min')
  {
    var part := Part(g, curIdx, nx0, cur, n);
    assert data' == data + part;
    assert StepOut(g, curIdx, nx0, cur, n + 1) == StepOut(g, curIdx, nx0, cur, n) + part;
    Associative(data0, StepOut(g, curIdx, nx0, cur, n), part);
    assert nx'[n] == StepNext(g, curIdx, nx0, cur)[n];
    MinNextFrame(g, nx, nx', n);
  }

  /** Recording `n` in the pass of `ScanAll`: it emits unless exhausted, and `min` takes in its next entry. */
  method ScanStep(g: seq<seq<Entry>>, curIdx: seq<nat>, ghost nx0: seq<int>, cur: int, ghost data0: seq<Entry>,
                  n: nat, data: seq<Entry>, nx: seq<int>, min: Option<int>)
    returns (data': seq<Entry>, nx': seq<int>, min': Option<int>)
    requires n < |g| && ScanState(g, curIdx, nx0, cur, data0, n, data, nx, min)
    requires ScanTrack(g, curIdx, nx0, cur, data0, n, data, nx, min)
    ensures ScanState(g, curIdx, nx0, cur, data0, n + 1, data', nx', min')
    ensures ScanTrack(g, curIdx, nx0, cur, data0, n + 1, data', nx', min')
  {
    if nx[n] == -1 {
      data', nx', min' := data, nx, min;
      ScanTrackSkip(g, curIdx, nx0, cur, data0, n, data, nx, min);
    } else {
      data', nx' := ScanOne(g, n, curIdx[n], nx, cur, data);
      min' := if nx'[n] != -1 && (min.None? || g[n][nx'[n]].timestamp < min.value) then Some(g[n][nx'[n]].timestamp) else min;
      ScanStateEmit(g, curIdx, nx0, cur, data0, n, data, nx, min, data', nx', min');
      ScannedOutput(g, n, curIdx[n], nx, cur, data, data', nx');
      ScanTrackEmit(g, curIdx, nx0, cur, data0, n, data, nx, min, data', nx', min');
    }
  }

  /** The part of `Scanned` that `ScanTrack` needs. */
  lemma ScannedOutput(g: seq<seq<Entry>>, j: nat, from: nat, nx: seq<int>, cur: int,
                      data: seq<Entry>, data': seq<Entry>, nx': seq<int>)
    requires Scanned(g, j, from, nx, cur, data, data', nx')
    ensures NextOk(g, nx') && nx' == nx[j := nx'[j]]
    ensures var k := FirstLater(g[j], from, cur);
      && data' == data + Stamped(g[j][from..k], cur) && nx'[j] == (if k < |g[j]| then k else -1)
  {
  }

  /** A live recording's turn in the pass keeps `ScanState`. */
  lemma ScanStateEmit(g: seq<seq<Entry>>, curIdx: seq<nat>, nx0: seq<int>, cur: int, data0: seq<Entry>,
                      n: nat, data: seq<Entry>, nx: seq<int>, min: Option<int>,
                      data': seq<Entry>, nx': seq<int>, min': Option<int>)
    requires n < |g| && ScanState(g, curIdx, nx0, cur, data0, n, data, nx, min) && nx[n] != -1
    requires Scanned(g, n, curIdx[n], nx, cur, data, data', nx')
    requires min' == (if nx'[n] != -1 && (min.None? || g[n][nx'[n]].timestamp < min.value) then Some(g[n][nx'[n]].timestamp) else min)
    ensures ScanState(g, curIdx, nx0, cur, data0, n + 1, data', nx', min')
  {
    ExtendsTrans(g, data0, data, data', cur);
    if data0 == [] && n == 0 && 0 < |g[0]| && curIdx[0] == 0 && g[0][0].timestamp <= cur {
      assert |data'| > 0 && data'[0] == g[0][0].(timestamp := cur);
    } else if data0 == [] && 0 < n && |data| > 0 {
      assert data'[0] == data[0];
    }
  }

  /**
   * The pass of one merged time step over all recordings: every recording
   * not yet exhausted emits its entries up to `cur`, and `min` is the
   * earliest timestamp of the entries left next, or `None` when all
   * recordings are exhausted.
   */
  method ScanAll(g: seq<seq<Entry>>, curIdx: seq<nat>, nx0: seq<int>, cur: int, data0: seq<Entry>)
    returns (data: seq<Entry>, nx: seq<int>, min: Option<int>)
    requires NextOk(g, nx0) && Covered(g, data0, nx0) && |curIdx| == |g|
    requires forall j :: 0 <= j < |g| ==> curIdx[j] <= Done(g, nx0, j)
    ensures NextOk(g, nx) && Covered(g, data, nx) && Extends(g, data0, data, cur)
    ensures forall j :: 0 <= j < |g| ==> curIdx[j] <= Done(g, nx, j)
    ensures forall j :: 0 <= j < |g| ==> nx[j] == -1 || (nx[j] < |g[j]| && g[j][nx[j]].timestamp > cur)
    ensures forall j :: 0 <= j < |g| && nx0[j] == -1 ==> nx[j] == -1
    ensures min.None? <==> forall j :: 0 <= j < |g| ==> nx[j] == -1
    ensures min.Some? ==> cur < min.value && exists j :: 0 <= j < |g| && nx[j] != -1 && min.value == g[j][nx[j]].timestamp
    ensures min.Some? ==> forall j :: 0 <= j < |g| && nx[j] != -1 ==> min.value <= g[j][nx[j]].timestamp
    ensures data0 == [] && 0 < |g| && 0 < |g[0]| && curIdx[0] == 0 && nx0[0] != -1 && g[0][0].timestamp <= cur ==>
      |data| > 0 && data[0] == g[0][0].(timestamp := cur)
    ensures ScanTrack(g, curIdx, nx0, cur, data0, |g|, data, nx, min)
  {
    data, nx, min := data0, nx0, None;
    ScanBegin(g, curIdx, nx0, cur, data0);
    var j := 0;
    while j < |g|
      invariant ScanState(g, curIdx, nx0, cur, data0, j, data, nx, min)
      invariant ScanTrack(g, curIdx, nx0, cur, data0, j, data, nx, min)
    {
      data, nx, min := ScanStep(g, curIdx, nx0, cur, data0, j, data, nx, min);
      j := j + 1;
    }
    ScanStateDone(g, curIdx, nx0, cur, data0, data, nx, min);
  }

  /** At the end of the pass, `ScanState` gives what `ScanAll` promises about coverage, next positions and the minimum. */
  lemma ScanStateDone(g: seq<seq<Entry>>, curIdx: seq<nat>, nx0: seq<int>, cur: int, data0: seq<Entry>,
                      data: seq<Entry>, nx: seq<int>, min: Option<int>)
    requires ScanState(g, curIdx, nx0, cur, data0, |g|, data, nx, min)
    ensures NextOk(g, nx) && Covered(g, data, nx) && Extends(g, data0, data, cur)
    ensures forall j :: 0 <= j < |g| ==> curIdx[j] <= Done(g, nx, j)
    ensures forall j :: 0 <= j < |g| ==> nx[j] == -1 || (nx[j] < |g[j]| && g[j][nx[j]].timestamp > cur)
    ensures forall j :: 0 <= j < |g| && nx0[j] == -1 ==> nx[j] == -1
    ensures min.None? <==> forall j :: 0 <= j < |g| ==> nx[j] == -1
    ensures min.Some? ==> cur < min.value && exists j :: 0 <= j < |g| && nx[j] != -1 && min.value == g[j][nx[j]].timestamp
    ensures min.Some? ==> forall j :: 0 <= j < |g| && nx[j] != -1 ==> min.value <= g[j][nx[j]].timestamp
    ensures data0 == [] && 0 < |g| && 0 < |g[0]| && curIdx[0] == 0 && nx0[0] != -1 && g[0][0].timestamp <= cur ==>
      |data| > 0 && data[0] == g[0][0].(timestamp := cur)
  {
  }

  /** The pass of `ScanAll` starts in `ScanState` and `ScanTrack`. */
  lemma ScanBegin(g: seq<seq<Entry>>, curIdx: seq<nat>, nx0: seq<int>, cur: int, data0: seq<Entry>)
    requires NextOk(g, nx0) && Covered(g, data0, nx0) && |curIdx| == |g|
    requires forall j :: 0 <= j < |g| ==> curIdx[j] <= Done(g, nx0, j)
    ensures ScanState(g, curIdx, nx0, cur, data0, 0, data0, nx0, None)
    ensures ScanTrack(g, curIdx, nx0, cur, data0, 0, data0, nx0, None)
  {
    assert data0[..|data0|] == data0;
    assert data0 + [] == data0;
  }

  /** At the end of the pass, `ScanTrack` says the pass computed the reference step. */
  lemma ScanTrackDone(g: seq<seq<Entry>>, curIdx: seq<nat>, nx0: seq<int>, cur: int, data0: seq<Entry>,
                      data: seq<Entry>, nx: seq<int>, min: Option<int>)
    requires ScanTrack(g, curIdx, nx0, cur, data0, |g|, data, nx, min)
    ensures MergeState(g, curIdx, nx0)
    ensures data == data0 + StepOut(g, curIdx, nx0, cur, |g|)
    ensures nx == StepNext(g, curIdx, nx0, cur) && min == MinNext(g, nx, |g|)
  {
  }

  /**
   * The step of the recordings at the end of a merged time step: a
   * recording whose next entry is due at `min` moves its current position
   * there; the others keep replaying their current frame.
   */
  method StepAll(g: seq<seq<Entry>>, curIdx: seq<nat>, nx: seq<int>, min: int) returns (curIdx': seq<nat>)
    requires NextOk(g, nx) && |curIdx| == |g|
    requires forall j :: 0 <= j < |g| ==> nx[j] == -1 || nx[j] < |g[j]|
    ensures |curIdx'| == |g|
    ensures forall j :: 0 <= j < |g| ==>
      curIdx'[j] == if nx[j] > 0 && g[j][nx[j]].timestamp <= min then nx[j] else curIdx[j]
    ensures curIdx' == StepIdx(g, curIdx, nx, min)
  {
    curIdx' := curIdx;
    var j := 0;
    while j < |g|
      invariant 0 <= j <= |g| && |curIdx'| == |g|
      invariant forall j' :: 0 <= j' < j ==>
        curIdx'[j'] == if nx[j'] > 0 && g[j'][nx[j']].timestamp <= min then nx[j'] else curIdx[j']
      invariant forall j' :: j <= j' < |g| ==> curIdx'[j'] == curIdx[j']
    {
      if nx[j] > 0 && g[j][nx[j]].timestamp <= min {
        curIdx' := curIdx'[j := nx[j]];
      }
      j := j + 1;
    }
  }

  /**
   * `BuildData`: the recordings, moved into their id groups, interleaved by
   * merged time steps, starting at the first entry of the first recording.
   * Each step emits, for every recording not yet exhausted, its current
   * frame and every entry due by then, stamped with the step's time; the
   * next step is the earliest timestamp left. The result is the reference
   * merge `MergeOf` of the groups (so a recording with no new state at a
   * step repeats its current one, as `HoldsCurrentFrame` and `HoldExample`
   * show); it is in timestamp order, starts with the first entry, holds
   * only states of the recordings stamped no earlier than their own time,
   * and holds every state of every recording.
   */
  method BuildData(scen: seq<seq<Entry>>) returns (data: seq<Entry>)
    requires |scen| > 0 && |scen[0]| > 0
    ensures Ordered(data)
    ensures |data| > 0 && data[0] == scen[0][0]
    ensures forall m :: 0 <= m < |data| ==> FromInput(Grouped(scen), data[m])
    ensures forall j, k :: 0 <= j < |scen| && 0 <= k < |scen[j]| ==> Emitted(Grouped(scen), data, j, k)
    ensures data == MergeOf(Grouped(scen))
  {
    var g := GroupIds(scen);
    assert g[0][0] == scen[0][0];
    var curIdx: seq<nat> := seq(|g|, _ => 0);
    var nx: seq<int> := seq(|g|, _ => 0);
    var cur := g[0][0].timestamp;
    ghost var latest := Latest(g, cur);
    data := [];
    var running := true;
    while running
      invariant Built(g, data, curIdx, nx, cur, latest, running)
      invariant MergeInv(g, data, curIdx, nx, cur, latest, running)
      decreases if running then latest - cur + 1 else 0
    {
      ghost var before := data;
      var data1, nx1, min := ScanAll(g, curIdx, nx, cur, data);
      MergeStep(g, curIdx, nx, cur, latest, before, data1, nx1, min);
      BuiltStep(g, data, curIdx, nx, cur, latest, data1, nx1, min);
      data, nx := data1, nx1;
      if min.Some? {
        curIdx := StepAll(g, curIdx, nx, min.value);
        cur := min.value;
      } else {
        running := false;
      }
    }
  }

  /**
   * The loop state of `BuildData`: the positions are consistent, what has
   * been emitted covers every recording up to its position, is ordered, no
   * later than the current time and taken from the recordings, and starts
   * with the first entry; once stopped, every recording is exhausted.
   */
  ghost predicate Built(g: seq<seq<Entry>>, data: seq<Entry>, curIdx: seq<nat>, nx: seq<int>, cur: int, latest: int, running: bool) {
    && |g| > 0 && |g[0]| > 0 && latest == Latest(g, g[0][0].timestamp)
    && NextOk(g, nx) && Covered(g, data, nx) && |curIdx| == |g|
    && (forall j :: 0 <= j < |g| ==> curIdx[j] <= Done(g, nx, j))
    && Ordered(data) && (forall m :: 0 <= m < |data| ==> data[m].timestamp <= cur)
    && (forall m :: 0 <= m < |data| ==> FromInput(g, data[m]))
    && (running ==> cur <= latest)
    && (!running ==> forall j :: 0 <= j < |g| ==> nx[j] == -1)
    && (data == [] ==> running && cur == g[0][0].timestamp && curIdx[0] == 0 && nx[0] == 0)
    && (|data| > 0 ==> data[0] == g[0][0])
  }

  /** One merged time step, as `ScanAll` and `StepAll` perform it, keeps the loop state of `BuildData`. */
  lemma BuiltStep(g: seq<seq<Entry>>, data: seq<Entry>, curIdx: seq<nat>, nx: seq<int>, cur: int, latest: int,
                  data': seq<Entry>, nx': seq<int>, min: Option<int>)
    requires Built(g, data, curIdx, nx, cur, latest, true)
    requires NextOk(g, nx') && Covered(g, data', nx') && Extends(g, data, data', cur)
    requires forall j :: 0 <= j < |g| ==> curIdx[j] <= Done(g, nx', j)
    requires forall j :: 0 <= j < |g| ==> nx'[j] == -1 || (nx'[j] < |g[j]| && g[j][nx'[j]].timestamp > cur)
    requires min.None? <==> forall j :: 0 <= j < |g| ==> nx'[j] == -1
    requires min.Some? ==> cur < min.value && exists j :: 0 <= j < |g| && nx'[j] != -1 && min.value == g[j][nx'[j]].timestamp
    requires data == [] && 0 < |g| && 0 < |g[0]| && curIdx[0] == 0 && nx[0] != -1 && g[0][0].timestamp <= cur ==>
      |data'| > 0 && data'[0] == g[0][0].(timestamp := cur)
    ensures min.None? ==> Built(g, data', curIdx, nx', cur, latest, false)
    ensures min.Some? ==> Built(g, data', StepIdx(g, curIdx, nx', min.value), nx', min.value, latest, true)
  {
    ExtendsKeeps(g, data, data', cur);
    if min.Some? {
      var j :| 0 <= j < |g| && nx'[j] != -1 && min.value == g[j][nx'[j]].timestamp;
      assert min.value <= latest;
      var c' := StepIdx(g, curIdx, nx', min.value);
      assert forall j :: 0 <= j < |g| ==> c'[j] <= Done(g, nx', j);
    }
  }

  /** Appending a merged step at time `cur` keeps the emitted data ordered, its first entry, and its states taken from the recordings. */
  lemma ExtendsKeeps(g: seq<seq<Entry>>, data: seq<Entry>, data': seq<Entry>, cur: int)
    requires Extends(g, data, data', cur)
    requires Ordered(data) && forall m :: 0 <= m < |data| ==> data[m].timestamp <= cur
    requires forall m :: 0 <= m < |data| ==> FromInput(g, data[m])
    ensures Ordered(data') && forall m :: 0 <= m < |data'| ==> data'[m].timestamp <= cur
    ensures forall m :: 0 <= m < |data'| ==> FromInput(g, data'[m])
    ensures |data| > 0 ==> data'[0] == data[0]
  {
    assert forall m :: 0 <= m < |data| ==> data'[m] == data[m];
  }

  /**
   * What `BuildData` has emitted so far, followed by the reference merge
   * from its current state, is the whole merged timeline; once it stops,
   * what it emitted is that timeline.
   */
  ghost predicate MergeInv(g: seq<seq<Entry>>, data: seq<Entry>, curIdx: seq<nat>, nx: seq<int>, cur: int, latest: int, running: bool) {
    && |g| > 0 && |g[0]| > 0 && latest == Latest(g, g[0][0].timestamp)
    && (running ==> MergeState(g, curIdx, nx) && data + MergeFrom(g, curIdx, nx, cur, latest) == MergeOf(g))
    && (!running ==> data == MergeOf(g))
  }

  /** One merged time step of `BuildData` follows the reference merge: what is left to emit is the merge from the new state. */
  lemma MergeStep(g: seq<seq<Entry>>, curIdx: seq<nat>, nx: seq<int>, cur: int, latest: int,
                  data: seq<Entry>, data': seq<Entry>, nx': seq<int>, min: Option<int>)
    requires MergeInv(g, data, curIdx, nx, cur, latest, true)
    requires ScanTrack(g, curIdx, nx, cur, data, |g|, data', nx', min)
    ensures min.None? ==> MergeInv(g, data', curIdx, nx', cur, latest, false)
    ensures min.Some? ==> MergeInv(g, data', StepIdx(g, curIdx, nx', min.value), nx', min.value, latest, true)
  {
    ScanTrackDone(g, curIdx, nx, cur, data, data', nx', min);
    StepNextSpec(g, curIdx, nx, cur);
    MinNextSpec(g, nx', |g|);
    var out := StepOut(g, curIdx, nx, cur, |g|);
    if min.None? {
      assert MergeFrom(g, curIdx, nx, cur, latest) == out + [];
      assert data' == data + out;
    } else {
      var rest := MergeFrom(g, StepIdx(g, curIdx, nx', min.value), nx', min.value, latest);
      assert MergeFrom(g, curIdx, nx, cur, latest) == out + rest;
      Associative(data, out, rest);
    }
  }

  /** A recording read from one file of the directory: its name, its header's format version, and its entries. */
  datatype Recording = Recording(name: string, version: int, entries: seq<Entry>)

  /** Why the recordings of a directory cannot be merged. */
  datatype MergeError =
    | VersionMismatch(index: nat)
    | TooFewRecordings
    | EmptyRecording(index: nat)

  /** The state of a `Replay` built from several recordings. */
  datatype Merged = Merged(data: seq<Entry>, time: int, startTime: int, startIndex: int, stopTime: int, stopIndex: nat)

  /** The timestamp of the first entry of a recording (0 for an empty one, which the merge refuses). */
  function Start(r: Recording): int {
    if |r.entries| > 0 then r.entries[0].timestamp else 0
  }

  predicate StartSorted(s: seq<Recording>) {
    forall a, b :: 0 <= a < b < |s| ==> Start(s[a]) <= Start(s[b])
  }

  /** A recording no later than the first of a sorted list can go in front of it. */
  lemma StartPrepend(x: Recording, s: seq<Recording>)
    requires StartSorted(s) && (|s| > 0 ==> Start(x) <= Start(s[0]))
    ensures StartSorted([x] + s)
  {
    var r := [x] + s;
    forall a, b | 0 <= a < b < |r| ensures Start(r[a]) <= Start(r[b]) {
      if a == 0 {
        assert r[b] == s[b - 1];
        assert Start(s[0]) <= Start(s[b - 1]);
      } else {
        assert r[a] == s[a - 1] && r[b] == s[b - 1];
      }
    }
  }

  lemma SortedTail(s: seq<Recording>)
    requires StartSorted(s) && |s| > 0
    ensures StartSorted(s[1..]) && (|s| > 1 ==> Start(s[0]) <= Start(s[1..][0]))
  {
    var t := s[1..];
    forall a, b | 0 <= a < b < |t| ensures Start(t[a]) <= Start(t[b]) {
      assert t[a] == s[a + 1] && t[b] == s[b + 1];
    }
  }

  /** Putting the head of `s` back in front of `x` inserted into its tail. */
  lemma InsertBehind(x: Recording, s: seq<Recording>, rest: seq<Recording>)
    requires |s| > 0 && Start(s[0]) < Start(x) && StartSorted(s)
    requires StartSorted(rest) && multiset(rest) == multiset(s[1..]) + multiset{x} && |rest| == |s|
    requires Start(rest[0]) == Start(x) || (|s| > 1 && Start(rest[0]) == Start(s[1..][0]))
    ensures StartSorted([s[0]] + rest) && multiset([s[0]] + rest) == multiset(s) + multiset{x}
  {
    SortedTail(s);
    StartPrepend(s[0], rest);
    assert s == [s[0]] + s[1..];
  }

  function Insert(x: Recording, s: seq<Recording>): (r: seq<Recording>)
    requires StartSorted(s)
    ensures |r| == |s| + 1 && StartSorted(r) && multiset(r) == multiset(s) + multiset{x}
    ensures Start(r[0]) == Start(x) || (|s| > 0 && Start(r[0]) == Start(s[0]))
    decreases |s|
  {
    if |s| == 0 || Start(x) <= Start(s[0]) then
      StartPrepend(x, s);
      [x] + s
    else
      SortedTail(s);
      var rest := Insert(x, s[1..]);
      InsertBehind(x, s, rest);
      [s[0]] + rest
  }

  /** The recordings ordered by their first timestamp, the earliest first. */
  function SortByStart(s: seq<Recording>): (r: seq<Recording>)
    ensures StartSorted(r) && multiset(r) == multiset(s) && |r| == |s|
    decreases |s|
  {
    if |s| == 0 then []
    else
      assert s == s[..|s| - 1] + [s[|s| - 1]];
      Insert(s[|s| - 1], SortByStart(s[..|s| - 1]))
  }

  /**
   * `FindIndexAtTimestamp` on a `Replay` that holds no packages, as the
   * merged one, for a timestamp not after the stop time (the merged
   * constructor passes the stop time itself): a timestamp before the start
   * time gives the current index `index`, any other the last package index
   * of an empty list, -1.
   */
  function IndexWithoutPackages(ts: int, startTime: int, index: nat): (r: int)
    ensures ts < startTime ==> r == index
    ensures startTime <= ts ==> r == -1
  {
    if ts < startTime then index else -1
  }

  /** The conversion of an `int` to `unsigned int`. */
  function ToUnsigned32(x: int): (r: nat)
    ensures r < 0x1_0000_0000 && (x == -1 ==> r == 0xFFFF_FFFF) && (0 <= x < 0x1_0000_0000 ==> r == x)
  {
    x % 0x1_0000_0000
  }

  /** `e` is the state `x` with its id moved into one of the first `n` id groups and stamped with a merged time. */
  predicate InGroup(x: Entry, e: Entry, n: nat) {
    var d := e.id - x.id;
    d % 100 == 0 && 0 <= d < 100 * n && e.rest == x.rest && x.timestamp <= e.timestamp
  }

  /** `e` is an entry of one of the recordings, moved into one of the id groups and stamped with a merged time. */
  ghost predicate FromRecordings(recs: seq<Recording>, e: Entry) {
    exists i, k :: 0 <= i < |recs| && 0 <= k < |recs[i].entries| && InGroup(recs[i].entries[k], e, |recs|)
  }

  /** The earliest start among the sorted recordings is the earliest of all. */
  lemma SortedStart(recs: seq<Recording>, sorted: seq<Recording>)
    requires multiset(sorted) == multiset(recs) && StartSorted(sorted) && |sorted| > 0
    ensures forall i :: 0 <= i < |recs| ==> Start(sorted[0]) <= Start(recs[i])
    ensures exists i :: 0 <= i < |recs| && recs[i] == sorted[0]
  {
    forall i | 0 <= i < |recs| ensures Start(sorted[0]) <= Start(recs[i]) {
      assert recs[i] in multiset(sorted);
      var j :| 0 <= j < |sorted| && sorted[j] == recs[i];
    }
    assert sorted[0] in multiset(recs);
  }

  /** An entry of the merge of the cleaned and sorted recordings is an entry of the recordings. */
  lemma MergedFromRecordings(recs: seq<Recording>, sorted: seq<Recording>, cleaned: seq<seq<Entry>>, e: Entry)
    requires multiset(sorted) == multiset(recs) && |cleaned| == |sorted| == |recs|
    requires forall j :: 0 <= j < |sorted| ==> SubsequenceOf(cleaned[j], sorted[j].entries)
    requires FromInput(Grouped(cleaned), e)
    ensures FromRecordings(recs, e)
  {
    var g := Grouped(cleaned);
    var j, k :| 0 <= j < |g| && 0 <= k < |g[j]| && Derives(g[j][k], e);
    var ks :| Picks(cleaned[j], sorted[j].entries, ks);
    assert sorted[j] in multiset(recs);
    var i :| 0 <= i < |recs| && recs[i] == sorted[j];
    var x := recs[i].entries[ks[k]];
    assert x == cleaned[j][k];
    assert e.id - x.id == 100 * j;
    assert InGroup(x, e, |recs|);
  }

  /** `c` is what `CleanEntries` makes of the entries of `rec`. */
  ghost predicate CleanedFrom(c: seq<Entry>, rec: Recording) {
    SubsequenceOf(c, rec.entries) && Ordered(c) && |c| > 0 && c[0].timestamp == Start(rec)
  }

  /** `CleanEntries` on every recording, in order. */
  method CleanAll(sorted: seq<Recording>) returns (cleaned: seq<seq<Entry>>)
    requires forall j :: 0 <= j < |sorted| ==> |sorted[j].entries| > 0
    ensures |cleaned| == |sorted|
    ensures forall j :: 0 <= j < |sorted| ==> CleanedFrom(cleaned[j], sorted[j])
  {
    cleaned := [];
    var j := 0;
    while j < |sorted|
      invariant 0 <= j <= |sorted| && |cleaned| == j
      invariant forall j' :: 0 <= j' < j ==> CleanedFrom(cleaned[j'], sorted[j'])
    {
      var c := CleanEntries(sorted[j].entries);
      assert CleanedFrom(c, sorted[j]);
      ghost var before := cleaned;
      cleaned := cleaned + [c];
      forall j' | 0 <= j' <= j ensures CleanedFrom(cleaned[j'], sorted[j']) {
        if j' < j {
          assert cleaned[j'] == before[j'];
        }
      }
      j := j + 1;
    }
  }

  /**
   * The checks of the directory constructor of `Replay` before merging: the
   * first recording of another format version than `supported` stops it,
   * then fewer than two recordings, then an empty recording.
   */
  method CheckRecordings(recs: seq<Recording>, supported: int) returns (err: Option<MergeError>)
    ensures forall i :: 0 <= i < |recs| ==>
      (err == Some(VersionMismatch(i)) <==> recs[i].version != supported && forall i' :: 0 <= i' < i ==> recs[i'].version == supported)
    ensures err == Some(TooFewRecordings) <==> |recs| < 2 && forall i :: 0 <= i < |recs| ==> recs[i].version == supported
    ensures err.Some? && err.value.EmptyRecording? ==> err.value.index < |recs| && |recs[err.value.index].entries| == 0
    ensures err.None? <==>
      && 2 <= |recs|
      && (forall i :: 0 <= i < |recs| ==> recs[i].version == supported)
      && (forall i :: 0 <= i < |recs| ==> |recs[i].entries| > 0)
  {
    var i := 0;
    while i < |recs|
      invariant 0 <= i <= |recs| && forall i' :: 0 <= i' < i ==> recs[i'].version == supported
    {
      if recs[i].version != supported {
        return Some(VersionMismatch(i));
      }
      i := i + 1;
    }
    if |recs| < 2 {
      return Some(TooFewRecordings);
    }
    i := 0;
    while i < |recs|
      invariant 0 <= i <= |recs| && forall i' :: 0 <= i' < i ==> |recs[i'].entries| > 0
    {
      if |recs[i].entries| == 0 {
        return Some(EmptyRecording(i));
      }
      i := i + 1;
    }
    return None;
  }

  /**
   * The merge proper of the directory constructor of `Replay`: the
   * recordings are ordered by their start, cleaned, and merged; the replay
   * starts at the first merged entry, which is the earliest start of all
   * recordings, and stops at the last one.
   */
  method MergeChecked(recs: seq<Recording>) returns (m: Merged)
    requires 2 <= |recs| && forall i :: 0 <= i < |recs| ==> |recs[i].entries| > 0
    ensures Ordered(m.data) && |m.data| > 0
    ensures m.time == m.startTime == m.data[0].timestamp && m.startIndex == 0
    ensures m.stopTime == m.data[|m.data| - 1].timestamp && m.stopIndex == 0xFFFF_FFFF
    ensures forall i :: 0 <= i < |recs| ==> m.startTime <= recs[i].entries[0].timestamp
    ensures exists i :: 0 <= i < |recs| && m.startTime == recs[i].entries[0].timestamp
    ensures forall k :: 0 <= k < |m.data| ==> FromRecordings(recs, m.data[k])
  {
    var sorted := SortByStart(recs);
    forall j | 0 <= j < |sorted| ensures |sorted[j].entries| > 0 {
      assert sorted[j] in multiset(recs);
    }
    var cleaned := CleanAll(sorted);
    var data := BuildData(cleaned);
    SortedStart(recs, sorted);
    forall k | 0 <= k < |data| ensures FromRecordings(recs, data[k]) {
      MergedFromRecordings(recs, sorted, cleaned, data[k]);
    }
    var startTime := data[0].timestamp;
    var stopTime := data[|data| - 1].timestamp;
    var stopIndex := ToUnsigned32(IndexWithoutPackages(stopTime, startTime, 0));
    m := Merged(data, startTime, startTime, 0, stopTime, stopIndex);
  }

  /** The directory constructor of `Replay` on the recordings read from the directory. */
  method MergeRecordings(recs: seq<Recording>, supported: int) returns (r: Result<Merged, MergeError>)
    ensures forall i :: 0 <= i < |recs| ==>
      (r == Failure(VersionMismatch(i)) <==> recs[i].version != supported && forall i' :: 0 <= i' < i ==> recs[i'].version == supported)
    ensures r == Failure(TooFewRecordings) <==> |recs| < 2 && forall i :: 0 <= i < |recs| ==> recs[i].version == supported
    ensures r.Failure? && r.error.EmptyRecording? ==> r.error.index < |recs| && |recs[r.error.index].entries| == 0
    ensures r.Success? <==>
      && 2 <= |recs|
      && (forall i :: 0 <= i < |recs| ==> recs[i].version == supported)
      && (forall i :: 0 <= i < |recs| ==> |recs[i].entries| > 0)
    ensures r.Success? ==>
      && Ordered(r.value.data) && |r.value.data| > 0
      && r.value.time == r.value.startTime == r.value.data[0].timestamp && r.value.startIndex == 0
      && r.value.stopTime == r.value.data[|r.value.data| - 1].timestamp && r.value.stopIndex == 0xFFFF_FFFF
      && (forall i :: 0 <= i < |recs| ==> r.value.startTime <= recs[i].entries[0].timestamp)
      && (exists i :: 0 <= i < |recs| && r.value.startTime == recs[i].entries[0].timestamp)
      && (forall k :: 0 <= k < |r.value.data| ==> FromRecordings(recs, r.value.data[k]))
  {
    var err := CheckRecordings(recs, supported);
    if err.Some? {
      return Failure(err.value);
    }
    var m := MergeChecked(recs);
    return Success(m);
  }
}
