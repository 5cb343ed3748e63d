/**
 * Pure specifications of the replayer's scans over the decoded timeline
 * `pkgs_`: frame navigation, the objects of the current frame, entity blocks,
 * the time-index searches and the entity list. Each is characterised by its
 * contract; the `Replay` class runs them as loops and is proved against them.
 */
module Timeline {
  import opened Wrappers
  import opened Packages

  /** The replayer's read cursor: `index_` and `time_`. */
  datatype Cursor = Cursor(index: nat, time: int)

  /** The cursor sits on a time marker and carries its time. */
  predicate OnFrame(P: seq<Package>, c: Cursor) {
    c.index < |P| && IsTime(P[c.index]) && TimeOf(P[c.index]) == c.time
  }

  /** Time markers after position 0 never go back in time. */
  predicate Monotone(P: seq<Package>) {
    forall i, j :: 0 < i <= j < |P| && IsTime(P[i]) && IsTime(P[j]) ==> TimeOf(P[i]) <= TimeOf(P[j])
  }

  predicate IsTimeAbove(p: Package, time: int) { IsTime(p) && TimeOf(p) > time }

  predicate IsTimeBelow(p: Package, time: int) { IsTime(p) && TimeOf(p) < time }

  /** The first time marker at or after `i` that is later than `time`. */
  function NextFrom(P: seq<Package>, i: nat, time: int): (r: Option<nat>)
    decreases |P| - i
    ensures r.Some? ==> i <= r.value < |P| && IsTimeAbove(P[r.value], time)
    ensures r.Some? ==> forall k :: i <= k < r.value ==> !IsTimeAbove(P[k], time)
    ensures r.None? ==> forall k :: i <= k < |P| ==> !IsTimeAbove(P[k], time)
  {
    if i >= |P| then None
    else if IsTimeAbove(P[i], time) then Some(i)
    else NextFrom(P, i + 1, time)
  }

  /** `MoveToNextFrame`: go to the first later frame at or after the cursor; stay if there is none. */
  function NextFrame(P: seq<Package>, c: Cursor): (r: Cursor)
    ensures r == c || (c.index <= r.index < |P| && c.time < r.time && OnFrame(P, r))
  {
    match NextFrom(P, c.index, c.time)
    case None => c
    case Some(i) => Cursor(i, TimeOf(P[i]))
  }

  /** The last time marker in positions 1..i that is earlier than `time` (position 0 is never examined). */
  function PrevFrom(P: seq<Package>, i: nat, time: int): (r: Option<nat>)
    requires i < |P|
    decreases i
    ensures r.Some? ==> 0 < r.value <= i && IsTimeBelow(P[r.value], time)
    ensures r.Some? ==> forall k :: r.value < k <= i ==> !IsTimeBelow(P[k], time)
    ensures r.None? ==> forall k :: 0 < k <= i ==> !IsTimeBelow(P[k], time)
  {
    if i == 0 then None
    else if IsTimeBelow(P[i], time) then Some(i)
    else PrevFrom(P, i - 1, time)
  }

  /** `MoveToPreviousFrame`: go to the last earlier frame at or before the cursor; stay if there is none. */
  function PrevFrame(P: seq<Package>, c: Cursor): (r: Cursor)
    requires c.index < |P|
    ensures r == c || (0 < r.index <= c.index && r.time < c.time && OnFrame(P, r))
  {
    match PrevFrom(P, c.index, c.time)
    case None => c
    case Some(i) => Cursor(i, TimeOf(P[i]))
  }

  /** The latest time any time marker carries (0 when there is none). */
  function MaxTime(P: seq<Package>): (m: int)
    ensures forall k :: 0 <= k < |P| && IsTime(P[k]) ==> TimeOf(P[k]) <= m
  {
    if P == [] then 0
    else
      var m := MaxTime(P[..|P| - 1]);
      assert forall k :: 0 <= k < |P| - 1 ==> P[..|P| - 1][k] == P[k];
      if IsTime(P[|P| - 1]) && TimeOf(P[|P| - 1]) > m then TimeOf(P[|P| - 1]) else m
  }

  /** The earliest time any time marker carries (0 when there is none). */
  function MinTime(P: seq<Package>): (m: int)
    ensures forall k :: 0 <= k < |P| && IsTime(P[k]) ==> m <= TimeOf(P[k])
  {
    if P == [] then 0
    else
      var m := MinTime(P[..|P| - 1]);
      assert forall k :: 0 <= k < |P| - 1 ==> P[..|P| - 1][k] == P[k];
      if IsTime(P[|P| - 1]) && TimeOf(P[|P| - 1]) < m then TimeOf(P[|P| - 1]) else m
  }

  /** The first position at or after `i` holding a time marker (the end of the frame run from `i`), or |P|. */
  function FrameEnd(P: seq<Package>, i: nat): (e: nat)
    requires i <= |P|
    decreases |P| - i
    ensures i <= e <= |P|
    ensures e < |P| ==> IsTime(P[e])
    ensures forall k :: i <= k < e ==> !IsTime(P[k])
  {
    if i == |P| || IsTime(P[i]) then i else FrameEnd(P, i + 1)
  }

  /** The object-id markers from `i` up to the next time marker, in order. */
  function ObjIdsInFrame(P: seq<Package>, i: nat): (r: seq<nat>)
    requires i <= |P|
    decreases |P| - i
    ensures forall m :: 0 <= m < |r| ==> i <= r[m] < |P|
  {
    if i == |P| || IsTime(P[i]) then []
    else if IsObjId(P[i]) then [i] + ObjIdsInFrame(P, i + 1)
    else ObjIdsInFrame(P, i + 1)
  }

  /** `ObjIdsInFrame` lists only object-id markers before the next time marker. */
  lemma {:induction false} ObjIdsInFrameSound(P: seq<Package>, i: nat)
    requires i <= |P|
    decreases |P| - i
    ensures forall m :: 0 <= m < |ObjIdsInFrame(P, i)| ==> i <= ObjIdsInFrame(P, i)[m] < FrameEnd(P, i) && IsObjId(P[ObjIdsInFrame(P, i)[m]])
  {
    if i < |P| && !IsTime(P[i]) {
      ObjIdsInFrameSound(P, i + 1);
    }
  }

  /** `ObjIdsInFrame` lists every object-id marker before the next time marker. */
  lemma {:induction false} ObjIdsInFrameComplete(P: seq<Package>, i: nat, k: nat)
    requires i <= |P| && i <= k < FrameEnd(P, i) && IsObjId(P[k])
    decreases |P| - i
    ensures k in ObjIdsInFrame(P, i)
  {
    if k > i {
      ObjIdsInFrameComplete(P, i + 1, k);
    }
  }

  /** `ObjIdsInFrame` lists the markers in increasing order. */
  lemma {:induction false} ObjIdsInFrameSorted(P: seq<Package>, i: nat)
    requires i <= |P|
    decreases |P| - i
    ensures forall m, n :: 0 <= m < n < |ObjIdsInFrame(P, i)| ==> ObjIdsInFrame(P, i)[m] < ObjIdsInFrame(P, i)[n]
  {
    if i < |P| && !IsTime(P[i]) {
      ObjIdsInFrameSorted(P, i + 1);
    }
  }

  lemma ObjIdsInFrameStep(P: seq<Package>, i: nat)
    requires i < |P| && !IsTime(P[i])
    ensures ObjIdsInFrame(P, i) == (if IsObjId(P[i]) then [i] else []) + ObjIdsInFrame(P, i + 1)
  {
  }

  /** The first time marker at or after `i` whose time is `time`. */
  function FindTime(P: seq<Package>, i: nat, time: int): (r: Option<nat>)
    decreases |P| - i
    ensures r.Some? ==> i <= r.value < |P| && IsTime(P[r.value]) && TimeOf(P[r.value]) == time
    ensures r.Some? ==> forall k :: i <= k < r.value ==> !(IsTime(P[k]) && TimeOf(P[k]) == time)
    ensures r.None? ==> forall k :: i <= k < |P| ==> !(IsTime(P[k]) && TimeOf(P[k]) == time)
  {
    if i >= |P| then None
    else if IsTime(P[i]) && TimeOf(P[i]) == time then Some(i)
    else FindTime(P, i + 1, time)
  }

  /**
   * `GetNumberOfObjectsAtTime`: the object-id markers of the frame whose time
   * marker is the first one at or after the cursor carrying the cursor's time.
   */
  function ObjectsAtTime(P: seq<Package>, c: Cursor): (r: seq<nat>)
    ensures forall m :: 0 <= m < |r| ==> c.index < r[m] < |P| && IsObjId(P[r[m]])
  {
    match FindTime(P, c.index, c.time)
    case None => []
    case Some(k) => ObjIdsInFrameSound(P, k + 1); ObjIdsInFrame(P, k + 1)
  }

  /** `GetPkgCntBtwObj` counts from `i`: the packages before the next time or object-id marker. */
  function BlockLen(P: seq<Package>, i: nat): (n: nat)
    decreases |P| - i
    ensures i <= |P| ==> i + n <= |P|
    ensures forall k :: i <= k < i + n ==> k < |P| && !IsBoundary(P[k])
    ensures i + n < |P| ==> IsBoundary(P[i + n])
  {
    if i >= |P| || IsBoundary(P[i]) then 0 else 1 + BlockLen(P, i + 1)
  }

  /**
   * The search loop of `FindIndexAtTimestamp`: the first time marker at or
   * after `i` whose time is not earlier than `ts`; `i` itself when `i` is
   * past the end, |P| when no marker qualifies.
   */
  function FirstTimeNotBefore(P: seq<Package>, i: nat, ts: int): (r: nat)
    decreases |P| - i
    ensures i <= r
    ensures r < |P| ==> IsTime(P[r]) && TimeOf(P[r]) >= ts
    ensures i <= |P| ==> r <= |P|
    ensures forall k :: i <= k < r && k < |P| ==> !(IsTime(P[k]) && TimeOf(P[k]) >= ts)
  {
    if i >= |P| then i
    else if IsTime(P[i]) && TimeOf(P[i]) >= ts then i
    else FirstTimeNotBefore(P, i + 1, ts)
  }

  /** The number of time markers in `P`. */
  function CountTimes(P: seq<Package>): nat {
    if P == [] then 0 else CountTimes(P[..|P| - 1]) + (if IsTime(P[|P| - 1]) then 1 else 0)
  }

  /** The position of the `n`-th time marker (counting from 1) at or after `i`, `seen` markers having been passed before `i`. */
  function NthTime(P: seq<Package>, i: nat, seen: nat, n: int): (r: Option<nat>)
    requires i <= |P| && seen == CountTimes(P[..i])
    decreases |P| - i
    ensures r.Some? ==> i <= r.value < |P| && IsTime(P[r.value]) && CountTimes(P[..r.value]) + 1 == n
    ensures r.None? ==> seen >= n || CountTimes(P) < n
  {
    if i == |P| then
      assert P[..i] == P;
      None
    else
      assert P[..i + 1][..i] == P[..i];
      if IsTime(P[i]) && seen + 1 == n then Some(i)
      else NthTime(P, i + 1, seen + (if IsTime(P[i]) then 1 else 0), n)
  }

  /** The last time marker in positions 1..i. */
  function LastTime(P: seq<Package>, i: nat): (r: Option<nat>)
    requires i < |P|
    decreases i
    ensures r.Some? ==> 0 < r.value <= i && IsTime(P[r.value])
    ensures r.Some? ==> forall k :: r.value < k <= i ==> !IsTime(P[k])
    ensures r.None? ==> forall k :: 0 < k <= i ==> !IsTime(P[k])
  {
    if i == 0 then None else if IsTime(P[i]) then Some(i) else LastTime(P, i - 1)
  }

  /** An element of the replayer's `entities` list: an object id and the time it was first seen at. */
  datatype ScenarioEntity = ScenarioEntity(simTime: int, objId: int)

  /** `IsObjAvailableInEntities`. */
  predicate HasEntity(es: seq<ScenarioEntity>, id: int) {
    exists i :: 0 <= i < |es| && es[i].objId == id
  }

  /** A package that is not a time marker of time `time` does not end the search. */
  lemma FindTimeSkip(P: seq<Package>, i: nat, time: int)
    requires i < |P| && !(IsTime(P[i]) && TimeOf(P[i]) == time)
    ensures FindTime(P, i, time) == FindTime(P, i + 1, time)
  {
  }

  predicate DistinctIds(es: seq<ScenarioEntity>) {
    forall i, j :: 0 <= i < j < |es| ==> es[i].objId != es[j].objId
  }

  /**
   * `GetScenarioEntities` from position `i` on, `time` being the time of the
   * last time marker passed: at most one entity is added per package scanned.
   */
  function EntitiesFrom(P: seq<Package>, i: nat, time: int, es: seq<ScenarioEntity>): (r: seq<ScenarioEntity>)
    ensures |es| <= |r| <= |es| + (if i < |P| then |P| - i else 0)
    decreases |P| - i
  {
    if i >= |P| then es
    else
      var time' := if IsTime(P[i]) then TimeOf(P[i]) else time;
      var es' := if IsObjId(P[i]) && !HasEntity(es, IntOf(P[i])) then es + [ScenarioEntity(time', IntOf(P[i]))] else es;
      EntitiesFrom(P, i + 1, time', es')
  }

  /** Appending an entity keeps the list's entities and adds the new one; a new id keeps the ids distinct. */
  lemma AddEntity(es: seq<ScenarioEntity>, e: ScenarioEntity)
    ensures (es + [e])[..|es|] == es && HasEntity(es + [e], e.objId)
    ensures forall id :: HasEntity(es, id) ==> HasEntity(es + [e], id)
    ensures DistinctIds(es) && !HasEntity(es, e.objId) ==> DistinctIds(es + [e])
  {
    var es' := es + [e];
    assert es'[|es|] == e;
    forall id | HasEntity(es, id) ensures HasEntity(es', id) {
      var j :| 0 <= j < |es| && es[j].objId == id;
      assert es'[j] == es[j];
    }
  }

  /** The entity scan only appends: the list it starts from is a prefix of the result. */
  lemma {:induction false} EntitiesFromGrows(P: seq<Package>, i: nat, time: int, es: seq<ScenarioEntity>)
    ensures var r := EntitiesFrom(P, i, time, es);
      && |es| <= |r| && r[..|es|] == es
      && (forall id :: HasEntity(es, id) ==> HasEntity(r, id))
    decreases |P| - i
  {
    if i < |P| {
      var time' := if IsTime(P[i]) then TimeOf(P[i]) else time;
      if IsObjId(P[i]) && !HasEntity(es, IntOf(P[i])) {
        var es' := es + [ScenarioEntity(time', IntOf(P[i]))];
        AddEntity(es, ScenarioEntity(time', IntOf(P[i])));
        EntitiesFromGrows(P, i + 1, time', es');
        var r := EntitiesFrom(P, i + 1, time', es');
        assert r[..|es'|][..|es|] == r[..|es|];
      } else {
        EntitiesFromGrows(P, i + 1, time', es);
      }
    } else {
      assert es[..|es|] == es;
    }
  }

  /** The entity scan never lists an id twice. */
  lemma {:induction false} EntitiesFromDistinct(P: seq<Package>, i: nat, time: int, es: seq<ScenarioEntity>)
    requires DistinctIds(es)
    ensures DistinctIds(EntitiesFrom(P, i, time, es))
    decreases |P| - i
  {
    if i < |P| {
      var time' := if IsTime(P[i]) then TimeOf(P[i]) else time;
      if IsObjId(P[i]) && !HasEntity(es, IntOf(P[i])) {
        AddEntity(es, ScenarioEntity(time', IntOf(P[i])));
        EntitiesFromDistinct(P, i + 1, time', es + [ScenarioEntity(time', IntOf(P[i]))]);
      } else {
        EntitiesFromDistinct(P, i + 1, time', es);
      }
    }
  }

  /** The entity scan lists every object id met from position `i` on. */
  lemma {:induction false} EntitiesFromComplete(P: seq<Package>, i: nat, time: int, es: seq<ScenarioEntity>, k: nat)
    requires i <= k < |P| && IsObjId(P[k])
    ensures HasEntity(EntitiesFrom(P, i, time, es), IntOf(P[k]))
    decreases |P| - i
  {
    var time' := if IsTime(P[i]) then TimeOf(P[i]) else time;
    var es' := if IsObjId(P[i]) && !HasEntity(es, IntOf(P[i])) then es + [ScenarioEntity(time', IntOf(P[i]))] else es;
    assert EntitiesFrom(P, i, time, es) == EntitiesFrom(P, i + 1, time', es');
    if k == i {
      if es' != es {
        AddEntity(es, ScenarioEntity(time', IntOf(P[i])));
      }
      EntitiesFromGrows(P, i + 1, time', es');
    } else {
      EntitiesFromComplete(P, i + 1, time', es', k);
    }
  }

}
