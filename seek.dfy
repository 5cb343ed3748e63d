/**
 * `MoveToTime`: seeking the replay to a target time. The cursor walks frame
 * by frame towards the target, applying each frame's object markers and
 * refreshing the cache, and the scenario time is finally clamped into the
 * start/stop window. The loops here are the corrected ones (they stop when
 * the cursor cannot move); the iteration as written in the source is
 * modelled step by step beside them.
 */
module SeekEngine {
  import opened Wrappers
  import opened Packages
  import opened Timeline
  import opened Cache

  /** The replayer state a seek reads and writes: cursor, `scenarioState.sim_time` and the cache. */
  datatype Engine = Engine(cur: Cursor, simTime: int, states: seq<ObjState>)

  /** `startTime_`, `stopTime_`, `startIndex_`, `stopIndex_`. */
  datatype Bounds = Bounds(startTime: int, stopTime: int, startIndex: nat, stopIndex: nat)

  /** Where a seek loop leaves the cursor and the cache. */
  datatype Landing = Landing(cur: Cursor, states: seq<ObjState>)

  predicate EngineValid(P: seq<Package>, e: Engine) {
    e.cur.index < |P| && CacheValid(e.states, |P|)
  }

  predicate BoundsValid(P: seq<Package>, b: Bounds) {
    b.startIndex < |P| && b.stopIndex < |P|
  }

  /** The frame at the cursor applied to the cache: its markers (new entries stamped `target`), then `UpdateCache`. */
  function ApplyAt(P: seq<Package>, c: Cursor, states: seq<ObjState>, target: int, forward: bool): (r: seq<ObjState>)
    requires CacheValid(states, |P|)
    ensures CacheValid(r, |P|)
  {
    ApplyFrame(P, ObjectsAtTime(P, c), states, target, c.time, forward)
  }

  /** Where a seek loop leaves the cursor, with the frames it applied to the cache, in order. */
  datatype Walk = Walk(cur: Cursor, frames: seq<Cursor>)

  /** The walk `w` with the frames `fs` applied before its own. */
  function After(fs: seq<Cursor>, w: Walk): Walk {
    Walk(w.cur, fs + w.frames)
  }

  /** The frames `fs`, one after the other, applied to the cache. */
  function ApplyFrames(P: seq<Package>, fs: seq<Cursor>, states: seq<ObjState>, target: int, forward: bool): (r: seq<ObjState>)
    requires CacheValid(states, |P|)
    ensures CacheValid(r, |P|)
    decreases |fs|
  {
    if fs == [] then states
    else ApplyFrames(P, fs[1..], ApplyAt(P, fs[0], states, target, forward), target, forward)
  }

  lemma {:induction false} ApplyFramesSnoc(P: seq<Package>, fs: seq<Cursor>, f: Cursor, states: seq<ObjState>, target: int, forward: bool)
    requires CacheValid(states, |P|)
    ensures ApplyFrames(P, fs + [f], states, target, forward) == ApplyAt(P, f, ApplyFrames(P, fs, states, target, forward), target, forward)
    decreases |fs|
  {
    if fs == [] {
      assert [f][1..] == [];
    } else {
      assert (fs + [f])[1..] == fs[1..] + [f];
      ApplyFramesSnoc(P, fs[1..], f, ApplyAt(P, fs[0], states, target, forward), target, forward);
    }
  }

  /** Applying frames never erases an entry of the cache nor changes an entry's object id. */
  lemma {:induction false} ApplyFramesKeepsIds(P: seq<Package>, fs: seq<Cursor>, states: seq<ObjState>, target: int, forward: bool)
    requires CacheValid(states, |P|)
    ensures var r := ApplyFrames(P, fs, states, target, forward);
      |states| <= |r| && forall i :: 0 <= i < |states| ==> r[i].id == states[i].id
    decreases |fs|
  {
    if fs != [] {
      var s := ApplyAt(P, fs[0], states, target, forward);
      ApplyFrameKeepsIds(P, ObjectsAtTime(P, fs[0]), states, target, fs[0].time, forward);
      ApplyFramesKeepsIds(P, fs[1..], s, target, forward);
    }
  }

  /** The cursor moves of the forward loop of `MoveToTime`, stopping when no later frame exists. */
  function ForwardWalk(P: seq<Package>, b: Bounds, c: Cursor, t: int): (w: Walk)
    requires c.index < |P|
    ensures w.cur.index < |P|
    decreases MaxTime(P) - c.time
  {
    if t <= c.time || b.stopTime == c.time then Walk(c, [])
    else
      var n := NextFrame(P, c);
      if n == c then Walk(c, [])
      else if t < n.time then Walk(PrevFrame(P, n), [])
      else if t == n.time then Walk(n, [n])
      else After([n], ForwardWalk(P, b, n, t))
  }

  /** The cursor moves of the backward loop of `MoveToTime`, stopping when no earlier frame exists. */
  function BackwardWalk(P: seq<Package>, b: Bounds, c: Cursor, t: int): (w: Walk)
    requires c.index < |P|
    ensures w.cur.index < |P|
    decreases c.time - MinTime(P)
  {
    if t >= c.time || b.startTime == c.time then Walk(c, [])
    else
      var p := PrevFrame(P, c);
      if p == c then Walk(c, [c])
      else if t >= p.time then Walk(p, [c])
      else After([c], BackwardWalk(P, b, p, t))
  }

  lemma AfterAfter(fs: seq<Cursor>, gs: seq<Cursor>, w: Walk)
    ensures After(fs, After(gs, w)) == After(fs + gs, w)
  {
    Associative(fs, gs, w.frames);
  }

  lemma AfterStill(fs: seq<Cursor>, c: Cursor)
    ensures After(fs, Walk(c, [])) == Walk(c, fs)
  {
    assert fs + [] == fs;
  }

  /** What one pass of the forward loop makes of the walk from `c`. */
  lemma ForwardWalkStep(P: seq<Package>, b: Bounds, c: Cursor, t: int)
    requires c.index < |P|
    ensures t <= c.time || b.stopTime == c.time ==> ForwardWalk(P, b, c, t) == Walk(c, [])
    ensures !(t <= c.time || b.stopTime == c.time) ==>
      var n := NextFrame(P, c);
      var w := ForwardWalk(P, b, c, t);
      && (n == c ==> w == Walk(c, []))
      && (n != c && t < n.time ==> w == Walk(PrevFrame(P, n), []))
      && (n != c && t == n.time ==> w == Walk(n, [n]))
      && (n != c && t > n.time ==> w == After([n], ForwardWalk(P, b, n, t)))
  {
  }

  /** What one pass of the backward loop makes of the walk from `c`. */
  lemma BackwardWalkStep(P: seq<Package>, b: Bounds, c: Cursor, t: int)
    requires c.index < |P|
    ensures t >= c.time || b.startTime == c.time ==> BackwardWalk(P, b, c, t) == Walk(c, [])
    ensures !(t >= c.time || b.startTime == c.time) ==>
      var p := PrevFrame(P, c);
      var w := BackwardWalk(P, b, c, t);
      && (p == c ==> w == Walk(c, [c]))
      && (p != c && t >= p.time ==> w == Walk(p, [c]))
      && (p != c && t < p.time ==> w == After([c], BackwardWalk(P, b, p, t)))
  {
  }

  /** The forward loop of `MoveToTime`: where the cursor lands and the cache after the frames it passed. */
  function ForwardLoop(P: seq<Package>, b: Bounds, c: Cursor, states: seq<ObjState>, t: int): (r: Landing)
    requires c.index < |P| && CacheValid(states, |P|)
    ensures r.cur.index < |P| && CacheValid(r.states, |P|)
  {
    var w := ForwardWalk(P, b, c, t);
    Landing(w.cur, ApplyFrames(P, w.frames, states, t, true))
  }

  /** The backward loop of `MoveToTime`. */
  function BackwardLoop(P: seq<Package>, b: Bounds, c: Cursor, states: seq<ObjState>, t: int): (r: Landing)
    requires c.index < |P| && CacheValid(states, |P|)
    ensures r.cur.index < |P| && CacheValid(r.states, |P|)
  {
    var w := BackwardWalk(P, b, c, t);
    Landing(w.cur, ApplyFrames(P, w.frames, states, t, false))
  }

  /** The final clamp of `MoveToTime`. */
  function Clamp(b: Bounds, e: Engine, t: int): (r: Engine)
    ensures r.states == e.states && r.cur.time == e.cur.time
    ensures b.startTime <= b.stopTime ==> b.startTime <= r.simTime <= b.stopTime
    ensures b.startTime <= t <= b.stopTime ==> r.simTime == t && r.cur == e.cur
    ensures t > b.stopTime ==> r.cur.index == b.stopIndex
    ensures t <= b.stopTime && t < b.startTime ==> r.cur.index == b.startIndex
  {
    if t > b.stopTime then Engine(Cursor(b.stopIndex, e.cur.time), b.stopTime, e.states)
    else if t < b.startTime then Engine(Cursor(b.startIndex, e.cur.time), b.startTime, e.states)
    else e.(simTime := t)
  }

  /** `MoveToTime(t)`. */
  function Seek(P: seq<Package>, b: Bounds, e: Engine, t: int): (r: Engine)
    requires EngineValid(P, e) && BoundsValid(P, b)
    ensures EngineValid(P, r)
  {
    if t == e.simTime then e
    else
      var f := if e.simTime < t then ForwardLoop(P, b, e.cur, e.states, t) else Landing(e.cur, e.states);
      var g := if e.simTime > t then BackwardLoop(P, b, f.cur, f.states, t) else f;
      Clamp(b, Engine(g.cur, e.simTime, g.states), t)
  }

  /**
   * After a seek to a new time the scenario time is the target clamped into
   * the start/stop window, and no object the cache held is forgotten.
   */
  lemma {:induction false} SeekOutcome(P: seq<Package>, b: Bounds, e: Engine, t: int)
    requires EngineValid(P, e) && BoundsValid(P, b)
    ensures var r := Seek(P, b, e, t);
      && (t == e.simTime ==> r == e)
      && (t != e.simTime ==> r.simTime == (if t > b.stopTime then b.stopTime else if t < b.startTime then b.startTime else t))
      && |e.states| <= |r.states|
      && forall i :: 0 <= i < |e.states| ==> r.states[i].id == e.states[i].id
  {
    if t != e.simTime {
      if e.simTime < t {
        ApplyFramesKeepsIds(P, ForwardWalk(P, b, e.cur, t).frames, e.states, t, true);
      } else {
        ApplyFramesKeepsIds(P, BackwardWalk(P, b, e.cur, t).frames, e.states, t, false);
      }
    }
  }

  /**
   * `FindIndexAtTimestamp(ts, from)`: beyond the stop time it seeks to the
   * end and answers the cursor's index; before the start time it answers the
   * cursor's index; otherwise it answers the first time marker not earlier
   * than `ts`, searching from `from` (from the beginning when `ts` lies
   * before the cursor), or the last position when there is none.
   */
  function FindIndex(P: seq<Package>, b: Bounds, e: Engine, ts: int, from: nat): (r: (Engine, nat))
    requires EngineValid(P, e) && BoundsValid(P, b)
    ensures EngineValid(P, r.0) && r.1 < |P|
    ensures ts > b.stopTime ==> r.0 == Seek(P, b, e, b.stopTime) && r.1 == r.0.cur.index
    ensures ts <= b.stopTime ==> r.0 == e
    ensures ts <= b.stopTime && ts < b.startTime ==> r.1 == e.cur.index
    ensures b.startTime <= ts <= b.stopTime ==>
      var start := if ts < e.cur.time then 0 else from;
      && (forall k :: start <= k < r.1 ==> !(IsTime(P[k]) && TimeOf(P[k]) >= ts))
      && (r.1 < |P| - 1 ==> start <= r.1 && IsTime(P[r.1]) && TimeOf(P[r.1]) >= ts)
      && (r.1 == |P| - 1 && start <= r.1 ==> (IsTime(P[r.1]) && TimeOf(P[r.1]) >= ts) || FirstTimeNotBefore(P, start, ts) == |P|)
  {
    if ts > b.stopTime then
      var e' := Seek(P, b, e, b.stopTime);
      (e', e'.cur.index)
    else if ts < b.startTime then (e, e.cur.index)
    else
      var k := FirstTimeNotBefore(P, if ts < e.cur.time then 0 else from, ts);
      (e, if k < |P| - 1 then k else |P| - 1)
  }

  /**
   * `SetStartTime(t)`: the start time becomes `t` and the start index the
   * answer of `FindIndexAtTimestamp(t)`; a cursor before `t` is moved to the
   * start index with the time `t`, any other cursor is kept. Past the stop
   * time the index search first seeks to the stop time.
   */
  function SetStart(P: seq<Package>, b: Bounds, e: Engine, t: int): (r: (Bounds, Engine))
    requires EngineValid(P, e) && BoundsValid(P, b)
    ensures BoundsValid(P, r.0) && EngineValid(P, r.1)
    ensures r.0 == b.(startTime := t, startIndex := r.0.startIndex)
    ensures t <= r.1.cur.time
    ensures r.1.cur.time == t ==> r.1.cur.index == r.0.startIndex || e.cur.time == t
    ensures t <= b.stopTime ==> r.1.states == e.states && r.1.simTime == e.simTime
    ensures t <= b.stopTime ==> r.0.startIndex == (var k := FirstTimeNotBefore(P, 0, t); if k < |P| - 1 then k else |P| - 1)
    ensures t <= b.stopTime && t <= e.cur.time ==> r.1.cur == e.cur
    ensures t <= b.stopTime && e.cur.time < t ==> r.1.cur == Cursor(r.0.startIndex, t)
    ensures t > b.stopTime ==> var s := Seek(P, b.(startTime := t), e, b.stopTime);
      && r.0.startIndex == s.cur.index && r.1.states == s.states && r.1.simTime == s.simTime
      && r.1.cur == Cursor(s.cur.index, if s.cur.time < t then t else s.cur.time)
  {
    var b1 := b.(startTime := t);
    var f := FindIndex(P, b1, e, t, 0);
    var b2 := b1.(startIndex := f.1);
    if f.0.cur.time < t then (b2, f.0.(cur := Cursor(f.1, t))) else (b2, f.0)
  }

  /**
   * `SetStopTime(t)`: the stop time becomes `t` and the stop index the
   * answer of `FindIndexAtTimestamp(t)`; a cursor beyond `t` is moved to the
   * stop index with the time `t`, any other cursor is kept.
   */
  function SetStop(P: seq<Package>, b: Bounds, e: Engine, t: int): (r: (Bounds, Engine))
    requires EngineValid(P, e) && BoundsValid(P, b)
    ensures BoundsValid(P, r.0) && EngineValid(P, r.1)
    ensures r.0 == b.(stopTime := t, stopIndex := r.0.stopIndex)
    ensures r.1.cur.time <= t
    ensures r.1.states == e.states && r.1.simTime == e.simTime
    ensures t < b.startTime ==> r.0.stopIndex == e.cur.index
    ensures b.startTime <= t ==> r.0.stopIndex == (var k := FirstTimeNotBefore(P, 0, t); if k < |P| - 1 then k else |P| - 1)
    ensures e.cur.time <= t ==> r.1.cur == e.cur
    ensures t < e.cur.time ==> r.1.cur == Cursor(r.0.stopIndex, t)
  {
    var b1 := b.(stopTime := t);
    var f := FindIndex(P, b1, e, t, 0);
    var b2 := b1.(stopIndex := f.1);
    if f.0.cur.time > t then (b2, f.0.(cur := Cursor(f.1, t))) else (b2, f.0)
  }

  /** On a monotone timeline no frame lies strictly between a frame and the next one, and going back from the next frame returns to a frame of the same time. */
  lemma NextFrameIsNext(P: seq<Package>, c: Cursor)
    requires Monotone(P) && OnFrame(P, c) && c.index > 0
    ensures var n := NextFrame(P, c);
      && (n == c ==> forall k :: 0 < k < |P| && IsTime(P[k]) ==> TimeOf(P[k]) <= c.time)
      && (n != c ==> forall k :: 0 < k < |P| && IsTime(P[k]) ==> !(c.time < TimeOf(P[k]) < n.time))
      && (n != c ==> var p := PrevFrame(P, n); p.time == c.time && p.index > 0 && OnFrame(P, p))
  {
    var n := NextFrame(P, c);
    var nx := NextFrom(P, c.index, c.time);
    if nx.Some? {
      assert n.index == nx.value;
      var pv := PrevFrom(P, n.index, n.time);
      assert IsTimeBelow(P[c.index], n.time);
      assert pv.Some?;
      assert pv.value >= c.index;
      assert pv.value < n.index;
    }
  }

  /** On a monotone timeline the previous frame is the latest frame before the cursor's time. */
  lemma PrevFrameIsPrev(P: seq<Package>, c: Cursor)
    requires Monotone(P) && OnFrame(P, c) && c.index > 0
    ensures var p := PrevFrame(P, c);
      && (p == c ==> forall k :: 0 < k < |P| && IsTime(P[k]) ==> c.time <= TimeOf(P[k]))
      && (p != c ==> forall k :: 0 < k < |P| && IsTime(P[k]) ==> !(p.time < TimeOf(P[k]) < c.time))
  {
    var p := PrevFrame(P, c);
    var pv := PrevFrom(P, c.index, c.time);
    forall k | 0 < k < |P| && IsTime(P[k])
      ensures p == c ==> c.time <= TimeOf(P[k])
      ensures p != c ==> !(p.time < TimeOf(P[k]) < c.time)
    {
      if k > c.index {
        assert TimeOf(P[c.index]) <= TimeOf(P[k]);
      } else if pv.Some? && k < pv.value {
        assert TimeOf(P[k]) <= TimeOf(P[pv.value]);
      }
    }
  }

  /**
   * On a monotone timeline, starting on a frame, the forward loop never
   * moves the cursor past the target and stops on the latest frame not after
   * the target, unless the stop time is reached first.
   */
  lemma {:induction false} ForwardLands(P: seq<Package>, b: Bounds, c: Cursor, t: int)
    requires Monotone(P) && OnFrame(P, c) && c.index > 0
    ensures var r := ForwardWalk(P, b, c, t);
      && OnFrame(P, r.cur) && r.cur.index > 0
      && (r.cur.time <= t || r.cur == c)
      && (r.cur.time == b.stopTime || forall k :: 0 < k < |P| && IsTime(P[k]) ==> !(r.cur.time < TimeOf(P[k]) <= t))
    decreases MaxTime(P) - c.time
  {
    if !(t <= c.time || b.stopTime == c.time) {
      var n := NextFrame(P, c);
      NextFrameIsNext(P, c);
      if n != c && t > n.time {
        ForwardLands(P, b, n, t);
      }
    }
  }

  /**
   * On a monotone timeline, starting on a frame, the backward loop stops on
   * the latest frame not after the target, or at the start time, or on the
   * first frame.
   */
  lemma {:induction false} BackwardLands(P: seq<Package>, b: Bounds, c: Cursor, t: int)
    requires Monotone(P) && OnFrame(P, c) && c.index > 0
    ensures var r := BackwardWalk(P, b, c, t);
      && OnFrame(P, r.cur) && r.cur.index > 0
      && (t < c.time ==> (r.cur.time <= t || r.cur.time == b.startTime
            || forall k :: 0 < k < |P| && IsTime(P[k]) ==> r.cur.time <= TimeOf(P[k])))
      && (r.cur == c || forall k :: 0 < k < |P| && IsTime(P[k]) ==> !(r.cur.time < TimeOf(P[k]) <= t))
    decreases c.time - MinTime(P)
  {
    if !(t >= c.time || b.startTime == c.time) {
      var p := PrevFrame(P, c);
      PrevFrameIsPrev(P, c);
      if p != c && t < p.time {
        BackwardLands(P, b, p, t);
      }
    }
  }

  /**
   * The forward loop applies only frames after the cursor and never one
   * past the target: a frame that overshoots is stepped back over unapplied.
   */
  lemma {:induction false} ForwardFramesNotPast(P: seq<Package>, b: Bounds, c: Cursor, t: int)
    requires c.index < |P|
    ensures forall f :: f in ForwardWalk(P, b, c, t).frames ==> c.time < f.time <= t
    decreases MaxTime(P) - c.time
  {
    if !(t <= c.time || b.stopTime == c.time) {
      var n := NextFrame(P, c);
      if n != c && t > n.time {
        ForwardFramesNotPast(P, b, n, t);
      }
    }
  }

  /**
   * The backward loop applies only frames later than the target and not
   * later than the cursor: the frame it finally lands on is not applied.
   */
  lemma {:induction false} BackwardFramesAfterTarget(P: seq<Package>, b: Bounds, c: Cursor, t: int)
    requires c.index < |P|
    ensures forall f :: f in BackwardWalk(P, b, c, t).frames ==> t < f.time <= c.time
    decreases c.time - MinTime(P)
  {
    if !(t >= c.time || b.startTime == c.time) {
      var p := PrevFrame(P, c);
      if p != c && t < p.time {
        BackwardFramesAfterTarget(P, b, p, t);
      }
    }
  }

  /** One pass of `MoveToTime`'s loops as the source writes them: still looping after the frames passed, or done. */
  datatype Run = Looping(cur: Cursor, frames: seq<Cursor>) | Halted(walk: Walk)

  /** The run `r` with the frames `fs` applied before its own. */
  function Then(fs: seq<Cursor>, r: Run): Run {
    match r
    case Looping(c, gs) => Looping(c, fs + gs)
    case Halted(w) => Halted(After(fs, w))
  }

  /** One pass of the forward loop as written: nothing checks whether the cursor moved. */
  function ForwardPassAsWritten(P: seq<Package>, b: Bounds, c: Cursor, t: int): (r: Run)
    requires c.index < |P|
    ensures r.Looping? ==> r.cur.index < |P|
  {
    if t <= c.time || b.stopTime == c.time then Halted(Walk(c, []))
    else
      var n := NextFrame(P, c);
      if t < n.time then Halted(Walk(PrevFrame(P, n), []))
      else if t == n.time then Halted(Walk(n, [n]))
      else Looping(n, [n])
  }

  /** The forward loop as written, run for at most `fuel` passes. */
  function ForwardAsWritten(P: seq<Package>, b: Bounds, c: Cursor, t: int, fuel: nat): Run
    requires c.index < |P|
    decreases fuel
  {
    if fuel == 0 then Looping(c, [])
    else
      match ForwardPassAsWritten(P, b, c, t)
      case Halted(w) => Halted(w)
      case Looping(n, fs) => Then(fs, ForwardAsWritten(P, b, n, t, fuel - 1))
  }

  /** Once the forward loop as written is short of the target with no later frame, it never halts. */
  lemma {:induction false} ForwardAsWrittenSpins(P: seq<Package>, b: Bounds, c: Cursor, t: int, fuel: nat)
    requires c.index < |P|
    requires c.time < t && b.stopTime != c.time && NextFrame(P, c) == c
    ensures ForwardAsWritten(P, b, c, t, fuel).Looping?
    decreases fuel
  {
    if fuel > 0 {
      assert ForwardPassAsWritten(P, b, c, t) == Looping(c, [c]);
      ForwardAsWrittenSpins(P, b, c, t, fuel - 1);
    }
  }

  /** Whenever the forward loop as written halts, it halts where the corrected loop does, having passed the same frames. */
  lemma {:induction false} ForwardLoopAgrees(P: seq<Package>, b: Bounds, c: Cursor, t: int, fuel: nat)
    requires c.index < |P|
    requires ForwardAsWritten(P, b, c, t, fuel).Halted?
    ensures ForwardAsWritten(P, b, c, t, fuel).walk == ForwardWalk(P, b, c, t)
    decreases fuel
  {
    if !(t <= c.time || b.stopTime == c.time) {
      var n := NextFrame(P, c);
      if n == c {
        ForwardAsWrittenSpins(P, b, c, t, fuel);
      } else if t > n.time {
        ForwardLoopAgrees(P, b, n, t, fuel - 1);
      }
    }
  }

  /** One pass of the backward loop as written. */
  function BackwardPassAsWritten(P: seq<Package>, b: Bounds, c: Cursor, t: int): (r: Run)
    requires c.index < |P|
    ensures r.Looping? ==> r.cur.index < |P|
  {
    if t >= c.time || b.startTime == c.time then Halted(Walk(c, []))
    else
      var p := PrevFrame(P, c);
      if t >= p.time then Halted(Walk(p, [c])) else Looping(p, [c])
  }

  /** The backward loop as written, run for at most `fuel` passes. */
  function BackwardAsWritten(P: seq<Package>, b: Bounds, c: Cursor, t: int, fuel: nat): Run
    requires c.index < |P|
    decreases fuel
  {
    if fuel == 0 then Looping(c, [])
    else
      match BackwardPassAsWritten(P, b, c, t)
      case Halted(w) => Halted(w)
      case Looping(p, fs) => Then(fs, BackwardAsWritten(P, b, p, t, fuel - 1))
  }

  /** Once the backward loop as written is above the target with no earlier frame, it never halts. */
  lemma {:induction false} BackwardAsWrittenSpins(P: seq<Package>, b: Bounds, c: Cursor, t: int, fuel: nat)
    requires c.index < |P|
    requires t < c.time && b.startTime != c.time && PrevFrame(P, c) == c
    ensures BackwardAsWritten(P, b, c, t, fuel).Looping?
    decreases fuel
  {
    if fuel > 0 {
      assert BackwardPassAsWritten(P, b, c, t) == Looping(c, [c]);
      BackwardAsWrittenSpins(P, b, c, t, fuel - 1);
    }
  }

  /** Whenever the backward loop as written halts, it halts where the corrected loop does, having passed the same frames. */
  lemma {:induction false} BackwardLoopAgrees(P: seq<Package>, b: Bounds, c: Cursor, t: int, fuel: nat)
    requires c.index < |P|
    requires BackwardAsWritten(P, b, c, t, fuel).Halted?
    ensures BackwardAsWritten(P, b, c, t, fuel).walk == BackwardWalk(P, b, c, t)
    decreases fuel
  {
    if !(t >= c.time || b.startTime == c.time) {
      var p := PrevFrame(P, c);
      if p == c {
        BackwardAsWrittenSpins(P, b, c, t, fuel - 1);
      } else if t < p.time {
        BackwardLoopAgrees(P, b, p, t, fuel - 1);
      }
    }
  }

  /** A two-frame recording: header, a frame at time 0, a frame at time 10. */
  function TwoFrames(): seq<Package> {
    [Package(Header, 0, NoContent), Package(TimeSeries, 8, TimeValue(0)), Package(TimeSeries, 8, TimeValue(10))]
  }

  /**
   * With the stop time set to 20, beyond the last frame at 10, seeking to 15
   * from the last frame never finishes as written; the corrected loop stays
   * on the last frame.
   */
  lemma ForwardDivergesPastLastFrame(fuel: nat)
    ensures ForwardAsWritten(TwoFrames(), Bounds(0, 20, 1, 2), Cursor(2, 10), 15, fuel).Looping?
    ensures ForwardLoop(TwoFrames(), Bounds(0, 20, 1, 2), Cursor(2, 10), [], 15) == Landing(Cursor(2, 10), [])
  {
    var P := TwoFrames();
    assert NextFrom(P, 3, 10) == None;
    assert NextFrom(P, 2, 10) == None;
    assert NextFrame(P, Cursor(2, 10)) == Cursor(2, 10);
    ForwardAsWrittenSpins(P, Bounds(0, 20, 1, 2), Cursor(2, 10), 15, fuel);
  }

  /**
   * With the start time set to -5, before the first frame at 0, seeking to
   * -3 from the first frame never finishes as written; the corrected loop
   * stays on the first frame.
   */
  lemma BackwardDivergesBeforeFirstFrame(fuel: nat)
    ensures BackwardAsWritten(TwoFrames(), Bounds(-5, 10, 1, 2), Cursor(1, 0), -3, fuel).Looping?
    ensures BackwardLoop(TwoFrames(), Bounds(-5, 10, 1, 2), Cursor(1, 0), [], -3).cur == Cursor(1, 0)
  {
    var P := TwoFrames();
    assert PrevFrom(P, 0, 0) == None;
    assert PrevFrom(P, 1, 0) == None;
    assert PrevFrame(P, Cursor(1, 0)) == Cursor(1, 0);
    BackwardAsWrittenSpins(P, Bounds(-5, 10, 1, 2), Cursor(1, 0), -3, fuel);
  }
}
