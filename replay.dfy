/**
 * The `Replay` object of the replayer for the package-based recording
 * format: the decoded timeline `pkgs_`, the read cursor (`index_`, `time_`),
 * the scenario time, the start/stop window, the object cache and the entity
 * list. Every method is proved against the specification functions of
 * `Timeline`, `Cache` and `Seek`.
 */
module ReplayEngine {
  import opened Wrappers
  import opened Packages
  import opened Codec
  import opened Timeline
  import opened Cache
  import opened SeekEngine

  /** Why opening a recording fails (the source quits the process). */
  datatype OpenError = NoHeader | VersionMismatch(found: int, supported: int) | NoFirstFrame

  /** `ObjectPositionStructDat`: the position (`None` for the default one) with the road coordinates. */
  datatype CompletePos = CompletePos(pos: Option<Pos>, laneId: int, roadId: int, offset: Real64, t: Real64, s: Real64)

  class Replay {
    const pkgs: seq<Package>
    const version: int
    /** `index_` and `time_`: the read cursor. */
    var index: nat
    var time: int
    /** `scenarioState.sim_time` and `scenarioState.obj_states`. */
    var simTime: int
    var objStates: seq<ObjState>
    var startTime: int
    var stopTime: int
    var startIndex: nat
    var stopIndex: nat
    var entities: seq<ScenarioEntity>

    ghost predicate Valid()
      reads this
    {
      && |pkgs| >= 2
      && index < |pkgs| && startIndex < |pkgs| && stopIndex < |pkgs|
      && CacheValid(objStates, |pkgs|)
      && DistinctIds(entities)
    }

    function Cur(): Cursor
      reads this
    {
      Cursor(index, time)
    }

    function Eng(): Engine
      reads this
    {
      Engine(Cursor(index, time), simTime, objStates)
    }

    function Bnds(): Bounds
      reads this
    {
      Bounds(startTime, stopTime, startIndex, stopIndex)
    }

    /** `MoveToNextFrame`. */
    method MoveToNextFrame()
      requires Valid()
      modifies this
      ensures Valid()
      ensures Cur() == NextFrame(pkgs, old(Cur()))
      ensures simTime == old(simTime) && objStates == old(objStates) && Bnds() == old(Bnds()) && entities == old(entities)
    {
      ghost var c0 := Cur();
      var i := index;
      while i < |pkgs|
        invariant c0.index <= i <= |pkgs| && Cur() == c0
        invariant NextFrom(pkgs, i, c0.time) == NextFrom(pkgs, c0.index, c0.time)
        decreases |pkgs| - i
      {
        if IsTime(pkgs[i]) {
          var timeTemp := TimeOf(pkgs[i]);
          if timeTemp > time {
            index := i;
            time := timeTemp;
            break;
          }
        }
        i := i + 1;
      }
    }

    /** `MoveToPreviousFrame`. */
    method MoveToPreviousFrame()
      requires Valid()
      modifies this
      ensures Valid()
      ensures Cur() == PrevFrame(pkgs, old(Cur()))
      ensures simTime == old(simTime) && objStates == old(objStates) && Bnds() == old(Bnds()) && entities == old(entities)
    {
      ghost var c0 := Cur();
      var i: nat := index;
      while i > 0
        invariant i <= c0.index && Cur() == c0
        invariant PrevFrom(pkgs, i, c0.time) == PrevFrom(pkgs, c0.index, c0.time)
        decreases i
      {
        if IsTime(pkgs[i]) {
          var timeTemp := TimeOf(pkgs[i]);
          if timeTemp < time {
            index := i;
            time := timeTemp;
            break;
          }
        }
        i := i - 1;
      }
    }

    /** `GetPkgCntBtwObj`. */
    method GetPkgCntBtwObj(idx: nat) returns (count: nat)
      ensures count == BlockLen(pkgs, idx + 1)
    {
      count := 0;
      var i := idx + 1;
      while i < |pkgs|
        invariant i == idx + 1 + count
        invariant BlockLen(pkgs, idx + 1) == count + BlockLen(pkgs, i)
        decreases |pkgs| - i
      {
        if IsBoundary(pkgs[i]) {
          break;
        }
        count := count + 1;
        i := i + 1;
      }
    }

    /** `GetNumberOfObjectsAtTime`. */
    method GetNumberOfObjectsAtTime() returns (indices: seq<nat>)
      requires index <= |pkgs|
      ensures indices == ObjectsAtTime(pkgs, Cur())
    {
      indices := [];
      var timeFound := false;
      ghost var k: nat := 0;
      ghost var found := FindTime(pkgs, index, time);
      var i := index;
      while i < |pkgs|
        invariant index <= i <= |pkgs|
        invariant !timeFound ==> indices == [] && FindTime(pkgs, i, time) == found
        invariant timeFound ==> (found == Some(k) && k < i
          && indices + ObjIdsInFrame(pkgs, i) == ObjIdsInFrame(pkgs, k + 1))
        decreases |pkgs| - i
      {
        if IsTime(pkgs[i]) && !timeFound {
          if TimeOf(pkgs[i]) == time {
            timeFound := true;
            k := i;
          } else {
            FindTimeSkip(pkgs, i, time);
          }
          i := i + 1;
          continue;
        }
        if IsTime(pkgs[i]) {
          assert indices + ObjIdsInFrame(pkgs, i) == indices;
          return;
        }
        if !timeFound {
          FindTimeSkip(pkgs, i, time);
        }
        ObjIdsInFrameStep(pkgs, i);
        if timeFound && IsObjId(pkgs[i]) {
          Associative(indices, [i], ObjIdsInFrame(pkgs, i + 1));
          indices := indices + [i];
        }
        i := i + 1;
      }
    }

    /** `IsObjAvailableInCache`. */
    method IsObjAvailableInCache(id: int) returns (status: bool)
      ensures status == InCache(objStates, id)
    {
      status := false;
      var i := 0;
      while i < |objStates|
        invariant 0 <= i <= |objStates|
        invariant forall i' :: 0 <= i' < i ==> objStates[i'].id != id
      {
        if objStates[i].id == id {
          status := true;
          break;
        }
        i := i + 1;
      }
    }

    /** `IsObjAvailableActive`. */
    method IsObjAvailableActive(id: int) returns (status: bool)
      ensures status == ActiveInCache(objStates, id)
    {
      status := false;
      var i := 0;
      while i < |objStates|
        invariant 0 <= i <= |objStates|
        invariant forall i' :: 0 <= i' < i ==> !(objStates[i'].id == id && objStates[i'].active)
      {
        if objStates[i].id == id {
          if objStates[i].active {
            status := true;
            break;
          }
        }
        i := i + 1;
      }
    }

    /** `UpdateObjStatus`. */
    method UpdateObjStatus(id: int, status: bool)
      requires Valid()
      modifies this
      ensures Valid()
      ensures objStates == SetStatus(old(objStates), id, status)
      ensures Cur() == old(Cur()) && simTime == old(simTime) && Bnds() == old(Bnds()) && entities == old(entities)
    {
      ghost var s0 := objStates;
      var i := 0;
      while i < |objStates|
        invariant 0 <= i <= |objStates| == |s0|
        invariant forall i' :: 0 <= i' < i ==> objStates[i'] == WithStatus(s0[i'], id, status)
        invariant forall i' :: i <= i' < |s0| ==> objStates[i'] == s0[i']
        invariant Cur() == old(Cur()) && simTime == old(simTime) && Bnds() == old(Bnds()) && entities == old(entities)
      {
        if objStates[i].id == id {
          objStates := objStates[i := objStates[i].(active := status)];
        }
        i := i + 1;
      }
      assert forall i' :: 0 <= i' < |s0| ==> objStates[i'] == SetStatus(s0, id, status)[i'];
    }

    /** `deleteObjState`: the object's entries become inactive; nothing is erased. */
    method DeleteObjState(objId: int)
      requires Valid()
      modifies this
      ensures Valid()
      ensures objStates == SetStatus(old(objStates), objId, false)
      ensures Cur() == old(Cur()) && simTime == old(simTime) && Bnds() == old(Bnds()) && entities == old(entities)
    {
      UpdateObjStatus(objId, false);
    }

    /** The loop of `AddObjState`: references, stamped `t`, to the block after the id marker at `idx`. */
    method CollectRefs(idx: nat, pkgCount: nat, t: int) returns (ps: seq<CachedPkg>)
      requires idx < |pkgs| && pkgCount == BlockLen(pkgs, idx + 1)
      ensures ps == BlockRefs(pkgs, idx + 1, BlockEnd(pkgs, idx), t)
    {
      ps := [];
      var i := idx + 1;
      while i < pkgCount + idx + 1
        invariant idx + 1 <= i <= pkgCount + idx + 1
        invariant ps == BlockRefs(pkgs, idx + 1, i, t)
      {
        if pkgs[i].kind == ObjAdded || pkgs[i].kind == ObjDeleted {
          i := i + 1;
          continue;
        }
        ps := ps + [CachedPkg(i, t)];
        i := i + 1;
      }
    }

    /** `AddObjState`. */
    method AddObjState(idx: nat, t: int)
      requires Valid() && idx < |pkgs|
      modifies this
      ensures Valid()
      ensures objStates == old(objStates) + [NewEntry(pkgs, idx, t)]
      ensures Cur() == old(Cur()) && simTime == old(simTime) && Bnds() == old(Bnds()) && entities == old(entities)
    {
      var id := IntOf(pkgs[idx]);
      var pkgCount := GetPkgCntBtwObj(idx);
      var ps := CollectRefs(idx, pkgCount, t);
      var entry := ObjState(id, true, ps);
      CacheSnoc(objStates, entry, |pkgs|);
      objStates := objStates + [entry];
    }

    /** The search of `UpdateCache` for a package of kind `k` in the block `lo..hi`. */
    method FindKindInBlock(k: Kind, lo: nat, hi: nat) returns (r: Option<nat>)
      requires hi <= |pkgs|
      ensures r == FirstOfKind(pkgs, k, lo, hi)
    {
      var i := lo;
      while i < hi
        invariant lo <= i || hi <= lo
        invariant FirstOfKind(pkgs, k, i, hi) == FirstOfKind(pkgs, k, lo, hi)
        decreases hi - i
      {
        if pkgs[i].kind == k {
          return Some(i);
        }
        i := i + 1;
      }
      return None;
    }

    /** The inner loops of `UpdateCache` for one entry: each reference moves to the first package of its kind in the block. */
    method RefreshRefs(ps: seq<CachedPkg>, lo: nat, hi: nat, t: int) returns (qs: seq<CachedPkg>)
      requires RefsIn(ps, |pkgs|) && hi <= |pkgs|
      ensures qs == RefreshPkgs(pkgs, ps, lo, hi, t)
    {
      qs := ps;
      var j := 0;
      while j < |qs|
        invariant 0 <= j <= |qs| == |ps|
        invariant forall j' :: 0 <= j' < j ==> qs[j'] == RefreshPkg(pkgs, ps[j'], lo, hi, t)
        invariant forall j' :: j <= j' < |ps| ==> qs[j'] == ps[j']
      {
        var found := FindKindInBlock(pkgs[qs[j].pkg].kind, lo, hi);
        if found.Some? {
          qs := qs[j := CachedPkg(found.value, t)];
        }
        j := j + 1;
      }
      assert forall j' :: 0 <= j' < |ps| ==> qs[j'] == RefreshPkgs(pkgs, ps, lo, hi, t)[j'];
    }

    /** `UpdateCache`'s work for the object whose id marker is at `obj`. */
    method RefreshObjectInCache(obj: nat)
      requires Valid() && obj < |pkgs|
      modifies this
      ensures Valid()
      ensures objStates == RefreshObject(pkgs, old(objStates), obj, time)
      ensures Cur() == old(Cur()) && simTime == old(simTime) && Bnds() == old(Bnds()) && entities == old(entities)
    {
      var objId := IntOf(pkgs[obj]);
      var pkgCnt := GetPkgCntBtwObj(obj);
      ghost var prev := objStates;
      var lo, hi := obj + 1, obj + 1 + pkgCnt;
      assert hi == BlockEnd(pkgs, obj);
      var states := objStates;
      var i := 0;
      while i < |states|
        invariant CacheValid(prev, |pkgs|) && unchanged(this) && objStates == prev
        invariant 0 <= i <= |states| == |prev|
        invariant forall i' :: 0 <= i' < i ==> states[i'] == RefreshEntry(pkgs, prev[i'], objId, lo, hi, time)
        invariant forall i' :: i <= i' < |states| ==> states[i'] == prev[i']
      {
        if states[i].id == objId {
          var qs := RefreshRefs(states[i].pkgs, lo, hi, time);
          states := states[i := states[i].(pkgs := qs)];
        }
        i := i + 1;
      }
      ghost var r := RefreshObject(pkgs, prev, obj, time);
      assert forall i' :: 0 <= i' < |states| ==> states[i'] == r[i'];
      assert states == r;
      RefreshObjectValid(pkgs, prev, obj, time);
      objStates := states;
    }

    /** `UpdateCache`. */
    method UpdateCache()
      requires Valid()
      modifies this
      ensures Valid()
      ensures objStates == UpdateAll(pkgs, ObjectsAtTime(pkgs, old(Cur())), old(objStates), time)
      ensures Cur() == old(Cur()) && simTime == old(simTime) && Bnds() == old(Bnds()) && entities == old(entities)
    {
      var objIdIndices := GetNumberOfObjectsAtTime();
      ghost var s0 := objStates;
      var l := 0;
      while l < |objIdIndices|
        invariant 0 <= l <= |objIdIndices|
        invariant Valid() && Cur() == old(Cur()) && simTime == old(simTime) && Bnds() == old(Bnds()) && entities == old(entities)
        invariant objStates == UpdateAll(pkgs, objIdIndices[..l], s0, time)
      {
        RefreshObjectInCache(objIdIndices[l]);
        UpdateAllSnoc(pkgs, objIdIndices, l, s0, time);
        l := l + 1;
      }
      assert objIdIndices[..l] == objIdIndices;
    }

    /** `InitiateStates`: the scenario time starts at the start time and every object of the cursor's frame gets an entry. */
    method InitiateStates()
      requires Valid()
      modifies this
      ensures Valid()
      ensures objStates == old(objStates) + NewEntries(pkgs, ObjectsAtTime(pkgs, Cur()), startTime)
      ensures simTime == startTime
      ensures Cur() == old(Cur()) && Bnds() == old(Bnds()) && entities == old(entities)
    {
      var objIdIndices := GetNumberOfObjectsAtTime();
      simTime := startTime;
      var m := 0;
      while m < |objIdIndices|
        invariant 0 <= m <= |objIdIndices|
        invariant Valid() && simTime == startTime && Cur() == old(Cur()) && Bnds() == old(Bnds()) && entities == old(entities)
        invariant objStates == old(objStates) + NewEntries(pkgs, objIdIndices[..m], startTime)
      {
        AddObjState(objIdIndices[m], startTime);
        NewEntriesSnoc(pkgs, objIdIndices, m, startTime);
        m := m + 1;
      }
      assert objIdIndices[..m] == objIdIndices;
    }

    /** `SetStopEntries`: the last time marker becomes the stop frame. */
    method SetStopEntries()
      requires Valid()
      modifies this
      ensures Valid()
      ensures match LastTime(pkgs, |pkgs| - 1)
        case Some(k) => stopIndex == k && stopTime == TimeOf(pkgs[k])
        case None => stopIndex == old(stopIndex) && stopTime == old(stopTime)
      ensures Eng() == old(Eng()) && startTime == old(startTime) && startIndex == old(startIndex) && entities == old(entities)
    {
      var i: nat := |pkgs| - 1;
      while i > 0
        invariant i <= |pkgs| - 1
        invariant LastTime(pkgs, i) == LastTime(pkgs, |pkgs| - 1)
        invariant stopIndex == old(stopIndex) && stopTime == old(stopTime)
        decreases i
      {
        if IsTime(pkgs[i]) {
          stopTime := TimeOf(pkgs[i]);
          stopIndex := i;
          break;
        }
        i := i - 1;
      }
    }

    /** The body of the marker loop of `MoveToTime` for the object-id marker `l`. */
    method ApplyMarker(l: nat, t: int, forward: bool)
      requires Valid() && l < |pkgs|
      modifies this
      ensures Valid()
      ensures objStates == MarkerStep(pkgs, l, old(objStates), t, forward)
      ensures Cur() == old(Cur()) && simTime == old(simTime) && Bnds() == old(Bnds()) && entities == old(entities)
    {
      var objId := IntOf(pkgs[l]);
      var deleted := l + 1 < |pkgs| && pkgs[l + 1].kind == ObjDeleted;
      var added := l + 1 < |pkgs| && pkgs[l + 1].kind == ObjAdded;
      assert deleted <==> MarkerAfter(pkgs, l) == Some(ObjDeleted);
      assert added <==> MarkerAfter(pkgs, l) == Some(ObjAdded);
      if (forward && deleted) || (!forward && added) {
        UpdateObjStatus(objId, false);
      } else if (forward && added) || (!forward && deleted) {
        var cached := IsObjAvailableInCache(objId);
        if !cached {
          AddObjState(l, t);
        } else {
          UpdateObjStatus(objId, true);
        }
      }
    }

    /**
     * The marker loop of `MoveToTime` over the objects of the cursor's frame,
     * seeking forwards (`forward`) or backwards to `t`.
     */
    method ApplyMarkers(t: int, forward: bool)
      requires Valid()
      modifies this
      ensures Valid()
      ensures objStates == Markers(pkgs, ObjectsAtTime(pkgs, Cur()), old(objStates), t, forward)
      ensures Cur() == old(Cur()) && simTime == old(simTime) && Bnds() == old(Bnds()) && entities == old(entities)
    {
      var objIdIndices := GetNumberOfObjectsAtTime();
      ghost var s0 := objStates;
      var m := 0;
      while m < |objIdIndices|
        invariant 0 <= m <= |objIdIndices|
        invariant Valid() && Cur() == old(Cur()) && simTime == old(simTime) && Bnds() == old(Bnds()) && entities == old(entities)
        invariant objStates == Markers(pkgs, objIdIndices[..m], s0, t, forward)
      {
        MarkersSnoc(pkgs, objIdIndices, m, s0, t, forward);
        ApplyMarker(objIdIndices[m], t, forward);
        m := m + 1;
      }
      assert objIdIndices[..m] == objIdIndices;
    }

    /** The forward loop of `MoveToTime`. */
    method SeekForward(t: int)
      requires Valid()
      modifies this
      ensures Valid()
      ensures Landing(Cur(), objStates) == ForwardLoop(pkgs, old(Bnds()), old(Cur()), old(objStates), t)
      ensures simTime == old(simTime) && Bnds() == old(Bnds()) && entities == old(entities)
    {
      ghost var b := Bnds();
      ghost var c0, s0 := Cur(), objStates;
      ghost var done: seq<Cursor> := [];
      while t > time
        invariant Valid() && Bnds() == b && simTime == old(simTime) && entities == old(entities)
        invariant objStates == ApplyFrames(pkgs, done, s0, t, true)
        invariant ForwardWalk(pkgs, b, c0, t) == After(done, ForwardWalk(pkgs, b, Cur(), t))
        decreases MaxTime(pkgs) - time
      {
        ghost var c := Cur();
        ForwardWalkStep(pkgs, b, c, t);
        if stopTime == time {
          AfterStill(done, c);
          break;
        }
        var i0, t0 := index, time;
        MoveToNextFrame();
        if index == i0 && time == t0 {
          AfterStill(done, c);
          break;
        }
        if t < time {
          MoveToPreviousFrame();
          AfterStill(done, Cur());
          break;
        }
        ghost var n := Cur();
        ApplyMarkers(t, true);
        UpdateCache();
        ApplyFramesSnoc(pkgs, done, n, s0, t, true);
        AfterAfter(done, [n], ForwardWalk(pkgs, b, n, t));
        done := done + [n];
        if t == time {
          break;
        }
      }
      ForwardWalkStep(pkgs, b, Cur(), t);
      AfterStill(done, Cur());
    }

    /** The backward loop of `MoveToTime`. */
    method SeekBackward(t: int)
      requires Valid()
      modifies this
      ensures Valid()
      ensures Landing(Cur(), objStates) == BackwardLoop(pkgs, old(Bnds()), old(Cur()), old(objStates), t)
      ensures simTime == old(simTime) && Bnds() == old(Bnds()) && entities == old(entities)
    {
      ghost var b := Bnds();
      ghost var c0, s0 := Cur(), objStates;
      ghost var done: seq<Cursor> := [];
      while t < time
        invariant Valid() && Bnds() == b && simTime == old(simTime) && entities == old(entities)
        invariant objStates == ApplyFrames(pkgs, done, s0, t, false)
        invariant BackwardWalk(pkgs, b, c0, t) == After(done, BackwardWalk(pkgs, b, Cur(), t))
        decreases time - MinTime(pkgs)
      {
        ghost var c := Cur();
        BackwardWalkStep(pkgs, b, c, t);
        if startTime == time {
          AfterStill(done, c);
          break;
        }
        ApplyMarkers(t, false);
        UpdateCache();
        ApplyFramesSnoc(pkgs, done, c, s0, t, false);
        var i0, t0 := index, time;
        MoveToPreviousFrame();
        AfterAfter(done, [c], BackwardWalk(pkgs, b, Cur(), t));
        done := done + [c];
        if index == i0 && time == t0 {
          AfterStill(done, c);
          break;
        }
        if t >= time {
          AfterStill(done, Cur());
          break;
        }
      }
      BackwardWalkStep(pkgs, b, Cur(), t);
      AfterStill(done, Cur());
    }

    /** `MoveToTime(t)`, with the loops stopping when the cursor cannot move. */
    method MoveToTime(t: int)
      requires Valid()
      modifies this
      ensures Valid()
      ensures Eng() == Seek(pkgs, old(Bnds()), old(Eng()), t)
      ensures Bnds() == old(Bnds()) && entities == old(entities)
    {
      if t == simTime {
        return;
      }
      if simTime < t {
        SeekForward(t);
      }
      if simTime > t {
        SeekBackward(t);
      }
      if t > stopTime {
        simTime := stopTime;
        index := stopIndex;
      } else if t < startTime {
        simTime := startTime;
        index := startIndex;
      } else {
        simTime := t;
      }
    }

    /** `MoveToDeltaTime`: a seek by `dt` from the scenario time. */
    method MoveToDeltaTime(dt: int)
      requires Valid()
      modifies this
      ensures Valid()
      ensures Eng() == Seek(pkgs, old(Bnds()), old(Eng()), old(Eng()).simTime + dt)
      ensures Bnds() == old(Bnds()) && entities == old(entities)
    {
      MoveToTime(simTime + dt);
    }

    /** `MoveToStart`. */
    method MoveToStart()
      requires Valid()
      modifies this
      ensures Valid()
      ensures Eng() == Seek(pkgs, old(Bnds()), old(Eng()), old(startTime))
      ensures Bnds() == old(Bnds()) && entities == old(entities)
    {
      MoveToTime(startTime);
    }

    /** `MoveToEnd`. */
    method MoveToEnd()
      requires Valid()
      modifies this
      ensures Valid()
      ensures Eng() == Seek(pkgs, old(Bnds()), old(Eng()), old(stopTime))
      ensures Bnds() == old(Bnds()) && entities == old(entities)
    {
      MoveToTime(stopTime);
    }

    /** `FindIndexAtTimestamp(timestamp, startSearchIndex)`. */
    method FindIndexAtTimestamp(ts: int, from: nat) returns (r: nat)
      requires Valid()
      modifies this
      ensures Valid() && Bnds() == old(Bnds()) && entities == old(entities)
      ensures (Eng(), r) == FindIndex(pkgs, old(Bnds()), old(Eng()), ts, from)
    {
      if ts > stopTime {
        MoveToEnd();
        return index;
      } else if ts < startTime {
        return index;
      }
      var start := if ts < time then 0 else from;
      var i := start;
      while i < |pkgs|
        invariant start <= i
        invariant FirstTimeNotBefore(pkgs, i, ts) == FirstTimeNotBefore(pkgs, start, ts)
        decreases |pkgs| - i
      {
        if IsTime(pkgs[i]) && TimeOf(pkgs[i]) >= ts {
          break;
        }
        i := i + 1;
      }
      r := if i < |pkgs| - 1 then i else |pkgs| - 1;
    }

    /** `SetStartTime`. */
    method SetStartTime(t: int)
      requires Valid()
      modifies this
      ensures Valid() && entities == old(entities)
      ensures (Bnds(), Eng()) == SetStart(pkgs, old(Bnds()), old(Eng()), t)
    {
      startTime := t;
      var k := FindIndexAtTimestamp(startTime, 0);
      startIndex := k;
      if time < startTime {
        time := startTime;
        index := startIndex;
      }
    }

    /** `SetStopTime`. */
    method SetStopTime(t: int)
      requires Valid()
      modifies this
      ensures Valid() && entities == old(entities)
      ensures (Bnds(), Eng()) == SetStop(pkgs, old(Bnds()), old(Eng()), t)
    {
      stopTime := t;
      var k := FindIndexAtTimestamp(stopTime, 0);
      stopIndex := k;
      if time > stopTime {
        time := stopTime;
        index := stopIndex;
      }
    }

    /**
     * `GetScenarioEntities`: every object id of the timeline not listed yet
     * is appended with the time of the last time marker before it.
     */
    method GetScenarioEntities()
      requires Valid()
      modifies this
      ensures Valid() && Eng() == old(Eng()) && Bnds() == old(Bnds())
      ensures entities == EntitiesFrom(pkgs, 0, 0, old(entities))
    {
      var t := 0;
      var i := 0;
      while i < |pkgs|
        invariant 0 <= i <= |pkgs|
        invariant Valid() && Eng() == old(Eng()) && Bnds() == old(Bnds())
        invariant EntitiesFrom(pkgs, i, t, entities) == EntitiesFrom(pkgs, 0, 0, old(entities))
      {
        if IsTime(pkgs[i]) {
          t := TimeOf(pkgs[i]);
        }
        if IsObjId(pkgs[i]) {
          var id := IntOf(pkgs[i]);
          var listed := IsObjAvailableInEntities(entities, id);
          if !listed {
            entities := entities + [ScenarioEntity(t, id)];
          }
        }
        i := i + 1;
      }
    }

    /** `GetTimeFromEntities`: the time the object was first seen at; `None` stands for `SMALL_NUMBER`. */
    method GetTimeFromEntities(id: int) returns (t: Option<int>)
      ensures t.None? <==> !HasEntity(entities, id)
      ensures t.Some? ==> exists k :: (0 <= k < |entities| && entities[k].objId == id && entities[k].simTime == t.value
        && forall k' :: 0 <= k' < k ==> entities[k'].objId != id)
    {
      t := None;
      var i := 0;
      while i < |entities|
        invariant 0 <= i <= |entities|
        invariant forall k' :: 0 <= k' < i ==> entities[k'].objId != id
      {
        if entities[i].objId == id {
          t := Some(entities[i].simTime);
          break;
        }
        i := i + 1;
      }
    }

    /** `GetTimeFromCnt`: the time of the `count`-th time marker, -1 when there is none. */
    method GetTimeFromCnt(count: int) returns (t: int)
      ensures NthTime(pkgs, 0, 0, count).Some? ==> t == TimeOf(pkgs[NthTime(pkgs, 0, 0, count).value])
      ensures NthTime(pkgs, 0, 0, count).None? ==> t == -1
    {
      assert pkgs[..0] == [];
      t := -1;
      var seen := 0;
      var i := 0;
      while i < |pkgs|
        invariant 0 <= i <= |pkgs| && seen == CountTimes(pkgs[..i])
        invariant NthTime(pkgs, i, seen, count) == NthTime(pkgs, 0, 0, count)
      {
        assert pkgs[..i + 1][..i] == pkgs[..i];
        if IsTime(pkgs[i]) {
          seen := seen + 1;
          if count == seen {
            t := TimeOf(pkgs[i]);
            break;
          }
        }
        i := i + 1;
      }
    }

    /** The inner loop of the getters over one entry's references (`first`: `GetBB`'s early break). */
    method PickInEntry(ps: seq<CachedPkg>, k: Kind, first: bool) returns (r: Option<nat>)
      requires RefsIn(ps, |pkgs|)
      ensures r == Pick(pkgs, ps, k, first)
    {
      r := None;
      var j := 0;
      while j < |ps|
        invariant 0 <= j <= |ps| && RefsIn(ps[..j], |pkgs|)
        invariant r == Pick(pkgs, ps[..j], k, first)
        invariant first ==> r.None?
      {
        PickSnoc(pkgs, ps, j, k, first);
        if pkgs[ps[j].pkg].kind == k {
          r := Some(ps[j].pkg);
          if first {
            assert FirstInEntry(pkgs, ps[..j + 1], k) == r;
            FirstInEntryPrefix(pkgs, ps, j + 1, k);
            return;
          }
        }
        j := j + 1;
      }
      assert ps[..j] == ps;
    }

    /** The search every getter makes over the cache: the reference to a package of kind `k` for object `id`. */
    method Search(id: int, k: Kind, first: bool) returns (r: Option<nat>)
      requires Valid()
      ensures r == Lookup(pkgs, objStates, id, k, first)
    {
      r := None;
      var i := 0;
      while i < |objStates|
        invariant 0 <= i <= |objStates| && CacheValid(objStates[..i], |pkgs|)
        invariant r == Lookup(pkgs, objStates[..i], id, k, first)
      {
        LookupSnoc(pkgs, objStates, i, id, k, first);
        if objStates[i].id == id {
          var p := PickInEntry(objStates[i].pkgs, k, first);
          if p.Some? {
            r := p;
          }
        }
        i := i + 1;
      }
      assert objStates[..i] == objStates;
    }

    /** A getter for an integer field: the last cached package of kind `k` for the object, -1 when there is none. */
    method SearchInt(id: int, k: Kind) returns (v: int)
      requires Valid()
      ensures Lookup(pkgs, objStates, id, k, false).None? ==> v == -1
      ensures Lookup(pkgs, objStates, id, k, false).Some? ==> v == IntOf(pkgs[Lookup(pkgs, objStates, id, k, false).value])
    {
      var r := Search(id, k, false);
      v := if r.Some? then IntOf(pkgs[r.value]) else -1;
    }

    /** A getter for a double field: the last cached package of kind `k` for the object, 0.0 when there is none. */
    method SearchReal(id: int, k: Kind) returns (v: Real64)
      requires Valid()
      ensures Lookup(pkgs, objStates, id, k, false).None? ==> v == Zero
      ensures Lookup(pkgs, objStates, id, k, false).Some? ==> v == RealOf(pkgs[Lookup(pkgs, objStates, id, k, false).value])
    {
      var r := Search(id, k, false);
      v := if r.Some? then RealOf(pkgs[r.value]) else Zero;
    }

    /** `GetModelID`. */
    method GetModelID(id: int) returns (v: int)
      requires Valid()
      ensures Lookup(pkgs, objStates, id, ModelId, false).None? ==> v == -1
      ensures Lookup(pkgs, objStates, id, ModelId, false).Some? ==> v == IntOf(pkgs[Lookup(pkgs, objStates, id, ModelId, false).value])
    {
      v := SearchInt(id, ModelId);
    }

    /** `GetCtrlType`. */
    method GetCtrlType(id: int) returns (v: int)
      requires Valid()
      ensures Lookup(pkgs, objStates, id, CtrlType, false).None? ==> v == -1
      ensures Lookup(pkgs, objStates, id, CtrlType, false).Some? ==> v == IntOf(pkgs[Lookup(pkgs, objStates, id, CtrlType, false).value])
    {
      v := SearchInt(id, CtrlType);
    }

    /** `GetScaleMode`. */
    method GetScaleMode(id: int) returns (v: int)
      requires Valid()
      ensures Lookup(pkgs, objStates, id, ScaleMode, false).None? ==> v == -1
      ensures Lookup(pkgs, objStates, id, ScaleMode, false).Some? ==> v == IntOf(pkgs[Lookup(pkgs, objStates, id, ScaleMode, false).value])
    {
      v := SearchInt(id, ScaleMode);
    }

    /** `GetVisibility`. */
    method GetVisibility(id: int) returns (v: int)
      requires Valid()
      ensures Lookup(pkgs, objStates, id, VisibilityMask, false).None? ==> v == -1
      ensures Lookup(pkgs, objStates, id, VisibilityMask, false).Some? ==> v == IntOf(pkgs[Lookup(pkgs, objStates, id, VisibilityMask, false).value])
    {
      v := SearchInt(id, VisibilityMask);
    }

    /** `GetRoadId`. */
    method GetRoadId(id: int) returns (v: int)
      requires Valid()
      ensures Lookup(pkgs, objStates, id, RoadId, false).None? ==> v == -1
      ensures Lookup(pkgs, objStates, id, RoadId, false).Some? ==> v == IntOf(pkgs[Lookup(pkgs, objStates, id, RoadId, false).value])
    {
      v := SearchInt(id, RoadId);
    }

    /** `GetLaneId`. */
    method GetLaneId(id: int) returns (v: int)
      requires Valid()
      ensures Lookup(pkgs, objStates, id, LaneId, false).None? ==> v == -1
      ensures Lookup(pkgs, objStates, id, LaneId, false).Some? ==> v == IntOf(pkgs[Lookup(pkgs, objStates, id, LaneId, false).value])
    {
      v := SearchInt(id, LaneId);
    }

    /** `GetSpeed`. */
    method GetSpeed(id: int) returns (v: Real64)
      requires Valid()
      ensures Lookup(pkgs, objStates, id, Speed, false).None? ==> v == Zero
      ensures Lookup(pkgs, objStates, id, Speed, false).Some? ==> v == RealOf(pkgs[Lookup(pkgs, objStates, id, Speed, false).value])
    {
      v := SearchReal(id, Speed);
    }

    /** `GetWheelAngle`. */
    method GetWheelAngle(id: int) returns (v: Real64)
      requires Valid()
      ensures Lookup(pkgs, objStates, id, WheelAngle, false).None? ==> v == Zero
      ensures Lookup(pkgs, objStates, id, WheelAngle, false).Some? ==> v == RealOf(pkgs[Lookup(pkgs, objStates, id, WheelAngle, false).value])
    {
      v := SearchReal(id, WheelAngle);
    }

    /** `GetWheelRot`. */
    method GetWheelRot(id: int) returns (v: Real64)
      requires Valid()
      ensures Lookup(pkgs, objStates, id, WheelRot, false).None? ==> v == Zero
      ensures Lookup(pkgs, objStates, id, WheelRot, false).Some? ==> v == RealOf(pkgs[Lookup(pkgs, objStates, id, WheelRot, false).value])
    {
      v := SearchReal(id, WheelRot);
    }

    /** `GetPosOffset`. */
    method GetPosOffset(id: int) returns (v: Real64)
      requires Valid()
      ensures Lookup(pkgs, objStates, id, PosOffset, false).None? ==> v == Zero
      ensures Lookup(pkgs, objStates, id, PosOffset, false).Some? ==> v == RealOf(pkgs[Lookup(pkgs, objStates, id, PosOffset, false).value])
    {
      v := SearchReal(id, PosOffset);
    }

    /** `GetPosT` (the narrowing to `float` is not modelled). */
    method GetPosT(id: int) returns (v: Real64)
      requires Valid()
      ensures Lookup(pkgs, objStates, id, PosT, false).None? ==> v == Zero
      ensures Lookup(pkgs, objStates, id, PosT, false).Some? ==> v == RealOf(pkgs[Lookup(pkgs, objStates, id, PosT, false).value])
    {
      v := SearchReal(id, PosT);
    }

    /** `GetPosS` (the narrowing to `float` is not modelled). */
    method GetPosS(id: int) returns (v: Real64)
      requires Valid()
      ensures Lookup(pkgs, objStates, id, PosS, false).None? ==> v == Zero
      ensures Lookup(pkgs, objStates, id, PosS, false).Some? ==> v == RealOf(pkgs[Lookup(pkgs, objStates, id, PosS, false).value])
    {
      v := SearchReal(id, PosS);
    }

    /** `GetPos`: `None` stands for the default-constructed position the source returns when nothing is cached. */
    method GetPos(id: int) returns (pos: Option<Pos>)
      requires Valid()
      ensures Lookup(pkgs, objStates, id, Positions, false).None? ==> pos.None?
      ensures Lookup(pkgs, objStates, id, Positions, false).Some? ==> pos == Some(PosOf(pkgs[Lookup(pkgs, objStates, id, Positions, false).value]))
    {
      var r := Search(id, Positions, false);
      pos := if r.Some? then Some(PosOf(pkgs[r.value])) else None;
    }

    /** `GetX`. */
    method GetX(id: int) returns (v: Option<Real64>)
      requires Valid()
      ensures var pos := PosAt(id); v == if pos.Some? then Some(pos.value.x) else None
    {
      var pos := GetPos(id);
      v := if pos.Some? then Some(pos.value.x) else None;
    }

    /** `GetY`. */
    method GetY(id: int) returns (v: Option<Real64>)
      requires Valid()
      ensures var pos := PosAt(id); v == if pos.Some? then Some(pos.value.y) else None
    {
      var pos := GetPos(id);
      v := if pos.Some? then Some(pos.value.y) else None;
    }

    /** `GetZ`. */
    method GetZ(id: int) returns (v: Option<Real64>)
      requires Valid()
      ensures var pos := PosAt(id); v == if pos.Some? then Some(pos.value.z) else None
    {
      var pos := GetPos(id);
      v := if pos.Some? then Some(pos.value.z) else None;
    }

    /** `GetH`. */
    method GetH(id: int) returns (v: Option<Real64>)
      requires Valid()
      ensures var pos := PosAt(id); v == if pos.Some? then Some(pos.value.h) else None
    {
      var pos := GetPos(id);
      v := if pos.Some? then Some(pos.value.h) else None;
    }

    /** `GetR`. */
    method GetR(id: int) returns (v: Option<Real64>)
      requires Valid()
      ensures var pos := PosAt(id); v == if pos.Some? then Some(pos.value.r) else None
    {
      var pos := GetPos(id);
      v := if pos.Some? then Some(pos.value.r) else None;
    }

    /** `GetP` as written: it answers the roll, not the pitch. */
    method GetP(id: int) returns (v: Option<Real64>)
      requires Valid()
      ensures var pos := PosAt(id); v == if pos.Some? then Some(pos.value.r) else None
    {
      var pos := GetPos(id);
      v := if pos.Some? then Some(pos.value.r) else None;
    }

    /** `GetP` as evidently intended: the pitch. */
    method GetPitch(id: int) returns (v: Option<Real64>)
      requires Valid()
      ensures var pos := PosAt(id); v == if pos.Some? then Some(pos.value.p) else None
    {
      var pos := GetPos(id);
      v := if pos.Some? then Some(pos.value.p) else None;
    }

    /** The position `GetPos` answers, as a function of the cache. */
    function PosAt(id: int): (r: Option<Pos>)
      requires Valid()
      reads this
      ensures r.None? <==> Lookup(pkgs, objStates, id, Positions, false).None?
      ensures r.Some? ==> r.value == PosOf(pkgs[Lookup(pkgs, objStates, id, Positions, false).value])
    {
      var l := Lookup(pkgs, objStates, id, Positions, false);
      if l.Some? then Some(PosOf(pkgs[l.value])) else None
    }

    /** `GetBB`: within an entry the first bounding box counts, the last entry that has one wins; `None` stands for the default-constructed box. */
    method GetBB(id: int) returns (bb: Option<BBox>)
      requires Valid()
      ensures Lookup(pkgs, objStates, id, BoundingBox, true).None? ==> bb.None?
      ensures Lookup(pkgs, objStates, id, BoundingBox, true).Some? ==> bb == Some(BoxOf(pkgs[Lookup(pkgs, objStates, id, BoundingBox, true).value]))
    {
      var r := Search(id, BoundingBox, true);
      bb := if r.Some? then Some(BoxOf(pkgs[r.value])) else None;
    }

    /**
     * `GetName`: the name of the last cached name package, read as a C
     * string (up to its first 0 byte), or `name` unchanged when there is none.
     */
    method GetName(id: int, name: seq<byte>) returns (name': seq<byte>)
      requires Valid()
      ensures Lookup(pkgs, objStates, id, Name, false).None? ==> name' == name
      ensures Lookup(pkgs, objStates, id, Name, false).Some? ==> name' == UpToNul(TextOf(pkgs[Lookup(pkgs, objStates, id, Name, false).value]))
    {
      var r := Search(id, Name, false);
      name' := if r.Some? then UpToNul(TextOf(pkgs[r.value])) else name;
    }

    /** `GetComPletePos`: the position with the road coordinates. */
    method GetComPletePos(id: int) returns (c: CompletePos)
      requires Valid()
      ensures c.pos == PosAt(id)
      ensures Lookup(pkgs, objStates, id, RoadId, false).None? ==> c.roadId == -1
      ensures Lookup(pkgs, objStates, id, RoadId, false).Some? ==> c.roadId == IntOf(pkgs[Lookup(pkgs, objStates, id, RoadId, false).value])
      ensures Lookup(pkgs, objStates, id, LaneId, false).None? ==> c.laneId == -1
      ensures Lookup(pkgs, objStates, id, LaneId, false).Some? ==> c.laneId == IntOf(pkgs[Lookup(pkgs, objStates, id, LaneId, false).value])
      ensures Lookup(pkgs, objStates, id, PosOffset, false).None? ==> c.offset == Zero
      ensures Lookup(pkgs, objStates, id, PosOffset, false).Some? ==> c.offset == RealOf(pkgs[Lookup(pkgs, objStates, id, PosOffset, false).value])
      ensures Lookup(pkgs, objStates, id, PosT, false).None? ==> c.t == Zero
      ensures Lookup(pkgs, objStates, id, PosT, false).Some? ==> c.t == RealOf(pkgs[Lookup(pkgs, objStates, id, PosT, false).value])
      ensures Lookup(pkgs, objStates, id, PosS, false).None? ==> c.s == Zero
      ensures Lookup(pkgs, objStates, id, PosS, false).Some? ==> c.s == RealOf(pkgs[Lookup(pkgs, objStates, id, PosS, false).value])
    {
      var pos := GetPos(id);
      var lane := GetLaneId(id);
      var road := GetRoadId(id);
      var offset := GetPosOffset(id);
      var t := GetPosT(id);
      var s := GetPosS(id);
      c := CompletePos(pos, lane, road, offset, t, s);
    }

    /**
     * The constructor for the package-based format, fed the decoded
     * timeline: the cursor stays at index 0 (the file header) but takes the
     * first frame's time, the start is that time at index 1, the last frame
     * is the stop, and the objects of the first frame are cached.
     */
    constructor (P: seq<Package>, v: int)
      requires |P| >= 2 && P[0].kind == Header && IsTime(P[1])
      ensures Valid() && pkgs == P && version == v
      ensures Cur() == Cursor(0, TimeOf(P[1])) && startTime == TimeOf(P[1]) && startIndex == 1
      ensures LastTime(P, |P| - 1).Some? && stopIndex == LastTime(P, |P| - 1).value && stopTime == TimeOf(P[stopIndex])
      ensures simTime == startTime && objStates == NewEntries(P, ObjIdsInFrame(P, 2), startTime) && entities == []
    {
      pkgs := P;
      version := v;
      index := 0;
      time := TimeOf(P[1]);
      startTime := TimeOf(P[1]);
      startIndex := 1;
      stopTime := TimeOf(P[1]);
      stopIndex := 1;
      simTime := 0;
      objStates := [];
      entities := [];
      new;
      SetStopEntries();
      assert LastTime(P, |P| - 1).Some? by {
        assert IsTime(P[1]);
      }
      assert ObjectsAtTime(P, Cur()) == ObjIdsInFrame(P, 2) by {
        assert FindTime(P, 0, TimeOf(P[1])) == Some(1);
      }
      ghost var entries := NewEntries(P, ObjIdsInFrame(P, 2), startTime);
      InitiateStates();
      assert objStates == [] + entries;
      assert [] + entries == entries;
    }
  }

  /**
   * Opening a recording in the package-based format: decode the file, then
   * check the header's version against the supported one and require a time
   * marker right after the header.
   */
  method Open(file: seq<byte>, supported: int) returns (r: Result<Replay, OpenError>)
    ensures var P := Decode(file);
      && (|P| == 0 || VersionOf(P[0]).None? ==> r == Failure(NoHeader))
      && (|P| > 0 && VersionOf(P[0]).Some? && VersionOf(P[0]).value != supported ==>
            r == Failure(VersionMismatch(VersionOf(P[0]).value, supported)))
      && (|P| > 0 && VersionOf(P[0]) == Some(supported) && (|P| < 2 || !IsTime(P[1])) ==> r == Failure(NoFirstFrame))
      && (|P| >= 2 && VersionOf(P[0]) == Some(supported) && IsTime(P[1]) ==>
            && r.Success? && fresh(r.value) && r.value.Valid() && r.value.pkgs == P && r.value.version == supported
            && r.value.Cur() == Cursor(0, TimeOf(P[1])) && r.value.startTime == TimeOf(P[1]) && r.value.startIndex == 1
            && r.value.simTime == r.value.startTime && r.value.entities == []
            && r.value.objStates == NewEntries(P, ObjIdsInFrame(P, 2), TimeOf(P[1])))
  {
    var pkgs := RecordPkgs(file);
    if |pkgs| == 0 || VersionOf(pkgs[0]).None? {
      return Failure(NoHeader);
    }
    var v := VersionOf(pkgs[0]).value;
    if v != supported {
      return Failure(VersionMismatch(v, supported));
    }
    if |pkgs| < 2 || !IsTime(pkgs[1]) {
      return Failure(NoFirstFrame);
    }
    var rep := new Replay(pkgs, v);
    return Success(rep);
  }

  /** `IsObjAvailableInEntities`. */
  method IsObjAvailableInEntities(es: seq<ScenarioEntity>, id: int) returns (status: bool)
    ensures status == HasEntity(es, id)
  {
    status := false;
    if |es| == 0 {
      return;
    }
    var i := 0;
    while i < |es|
      invariant 0 <= i <= |es|
      invariant forall k :: 0 <= k < i ==> es[k].objId != id
    {
      if es[i].objId == id {
        status := true;
        break;
      } else if i == |es| - 1 {
        status := false;
        break;
      }
      i := i + 1;
    }
  }

  /**
   * `GetP` answers the roll: for an object whose cached position has roll
   * 1.0 and pitch 0.0, the value `GetP` reads (the `r` field of the pose
   * `PosAt` finds) is not the pitch `GetPitch` reads.
   */
  lemma GetPAnswersRoll()
    ensures
      var one := Real64([0, 0, 0, 0, 0, 0, 0xF0, 0x3F]);
      var P := [Package(Positions, 48, Pose(Zero, Zero, Zero, Zero, one, Zero))];
      var states := [ObjState(7, true, [CachedPkg(0, 0)])];
      var l := Lookup(P, states, 7, Positions, false);
      l == Some(0) && PosOf(P[l.value]).r != PosOf(P[l.value]).p
  {
  }
}
