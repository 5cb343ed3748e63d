/**
 * The replayer's object cache `scenarioState.obj_states`: one entry per
 * object, holding references (positions in `pkgs_`) to the packages that
 * describe it and the time each reference was taken at. All functions here
 * are specifications; the `Replay` class updates the cache by loops proved
 * against them.
 */
module Cache {
  import opened Wrappers
  import opened Packages
  import opened Timeline

  /** `ObjectStateWithPkg`: a reference to a package of `pkgs_` and the time it was cached at. */
  datatype CachedPkg = CachedPkg(pkg: nat, time: int)

  /** `ObjectStateWithObjId`. */
  datatype ObjState = ObjState(id: int, active: bool, pkgs: seq<CachedPkg>)

  predicate RefsIn(ps: seq<CachedPkg>, n: nat) {
    forall j :: 0 <= j < |ps| ==> ps[j].pkg < n
  }

  /** Every cached reference points into a timeline of `n` packages. */
  predicate CacheValid(states: seq<ObjState>, n: nat) {
    forall i :: 0 <= i < |states| ==> RefsIn(states[i].pkgs, n)
  }

  /** `IsObjAvailableInCache`. */
  predicate InCache(states: seq<ObjState>, id: int) {
    exists i :: 0 <= i < |states| && states[i].id == id
  }

  /** `IsObjAvailableActive`. */
  predicate ActiveInCache(states: seq<ObjState>, id: int) {
    exists i :: 0 <= i < |states| && states[i].id == id && states[i].active
  }

  function WithStatus(s: ObjState, id: int, status: bool): ObjState {
    if s.id == id then s.(active := status) else s
  }

  /** `UpdateObjStatus` / `deleteObjState`: every entry of object `id` gets status `status`. */
  function SetStatus(states: seq<ObjState>, id: int, status: bool): (r: seq<ObjState>)
    ensures |r| == |states|
    ensures forall i :: 0 <= i < |r| ==> r[i].id == states[i].id && r[i].pkgs == states[i].pkgs
    ensures forall i :: 0 <= i < |r| ==> r[i].active == (if states[i].id == id then status else states[i].active)
  {
    if states == [] then []
    else SetStatus(states[..|states| - 1], id, status) + [WithStatus(states[|states| - 1], id, status)]
  }

  /**
   * Setting the status of `id` makes the object active exactly when it is
   * cached and the status is true, leaves every other object's activity
   * alone, and never adds or removes an object.
   */
  lemma SetStatusEffect(states: seq<ObjState>, id: int, status: bool, other: int)
    ensures var r := SetStatus(states, id, status);
      && (ActiveInCache(r, id) <==> status && InCache(states, id))
      && (other != id ==> (ActiveInCache(r, other) <==> ActiveInCache(states, other)))
      && (InCache(r, other) <==> InCache(states, other))
  {
    var r := SetStatus(states, id, status);
    if ActiveInCache(r, other) && other != id {
      var i :| 0 <= i < |r| && r[i].id == other && r[i].active;
      assert states[i].active;
    }
    if ActiveInCache(states, other) && other != id {
      var i :| 0 <= i < |states| && states[i].id == other && states[i].active;
      assert r[i].active;
    }
    if InCache(r, other) {
      var i :| 0 <= i < |r| && r[i].id == other;
      assert states[i].id == other;
    }
    if InCache(states, other) {
      var i :| 0 <= i < |states| && states[i].id == other;
      assert r[i].id == other;
    }
    if status && InCache(states, id) {
      var i :| 0 <= i < |states| && states[i].id == id;
      assert r[i].active;
    }
    if ActiveInCache(r, id) {
      var i :| 0 <= i < |r| && r[i].id == id && r[i].active;
      assert states[i].id == id;
    }
  }

  predicate IsAddDel(p: Package) { p.kind == ObjAdded || p.kind == ObjDeleted }

  /** The references `AddObjState` takes: every package in `lo..hi` except the added/deleted markers, in order. */
  function BlockRefs(P: seq<Package>, lo: nat, hi: nat, t: int): (r: seq<CachedPkg>)
    requires hi <= |P|
    decreases hi
    ensures forall j :: 0 <= j < |r| ==> lo <= r[j].pkg < hi
  {
    if hi <= lo then []
    else
      var r := BlockRefs(P, lo, hi - 1, t);
      if IsAddDel(P[hi - 1]) then r else r + [CachedPkg(hi - 1, t)]
  }

  /** Every reference of a block points at one of its packages other than the added/deleted markers, stamped `t`. */
  lemma {:induction false} BlockRefsSound(P: seq<Package>, lo: nat, hi: nat, t: int)
    requires hi <= |P|
    decreases hi
    ensures forall j :: 0 <= j < |BlockRefs(P, lo, hi, t)| ==>
      var cp := BlockRefs(P, lo, hi, t)[j]; lo <= cp.pkg < hi && !IsAddDel(P[cp.pkg]) && cp.time == t
  {
    if lo < hi {
      BlockRefsSound(P, lo, hi - 1, t);
    }
  }

  /** Every package of a block other than the added/deleted markers has a reference. */
  lemma {:induction false} BlockRefsComplete(P: seq<Package>, lo: nat, hi: nat, t: int, k: nat)
    requires hi <= |P| && lo <= k < hi && !IsAddDel(P[k])
    decreases hi
    ensures exists j :: 0 <= j < |BlockRefs(P, lo, hi, t)| && BlockRefs(P, lo, hi, t)[j].pkg == k
  {
    var r := BlockRefs(P, lo, hi - 1, t);
    if k == hi - 1 {
      assert BlockRefs(P, lo, hi, t)[|r|].pkg == k;
    } else {
      BlockRefsComplete(P, lo, hi - 1, t, k);
      var j :| 0 <= j < |r| && r[j].pkg == k;
      assert BlockRefs(P, lo, hi, t)[j] == r[j];
    }
  }

  /** The references of a block are in increasing package order. */
  lemma {:induction false} BlockRefsSorted(P: seq<Package>, lo: nat, hi: nat, t: int)
    requires hi <= |P|
    decreases hi
    ensures forall a, b :: 0 <= a < b < |BlockRefs(P, lo, hi, t)| ==> BlockRefs(P, lo, hi, t)[a].pkg < BlockRefs(P, lo, hi, t)[b].pkg
  {
    if lo < hi {
      BlockRefsSorted(P, lo, hi - 1, t);
      var r := BlockRefs(P, lo, hi - 1, t);
      if !IsAddDel(P[hi - 1]) {
        var r' := r + [CachedPkg(hi - 1, t)];
        assert forall j :: 0 <= j < |r| ==> r'[j] == r[j];
      }
    }
  }

  /** The number of packages in the block after the object-id marker at `l`. */
  function BlockEnd(P: seq<Package>, l: nat): (e: nat)
    requires l < |P|
    ensures l + 1 <= e <= |P|
  {
    l + 1 + BlockLen(P, l + 1)
  }

  lemma CachePrefix(states: seq<ObjState>, m: nat, n: nat)
    requires CacheValid(states, n) && m <= |states|
    ensures CacheValid(states[..m], n)
  {
    assert forall i :: 0 <= i < m ==> states[..m][i] == states[i];
  }

  lemma CacheSnoc(states: seq<ObjState>, s: ObjState, n: nat)
    requires CacheValid(states, n) && RefsIn(s.pkgs, n)
    ensures CacheValid(states + [s], n)
  {
    assert forall i :: 0 <= i < |states| ==> (states + [s])[i] == states[i];
  }

  /** `AddObjState(l, t)`: a new active entry for the object whose id marker is at `l`. */
  function NewEntry(P: seq<Package>, l: nat, t: int): (s: ObjState)
    requires l < |P|
    ensures s.id == IntOf(P[l]) && s.active
    ensures RefsIn(s.pkgs, |P|)
  {
    ObjState(IntOf(P[l]), true, BlockRefs(P, l + 1, BlockEnd(P, l), t))
  }

  /** `InitiateStates`: one new entry, stamped `t`, per object-id marker of `objs`, in order. */
  function NewEntries(P: seq<Package>, objs: seq<nat>, t: int): (r: seq<ObjState>)
    requires forall m :: 0 <= m < |objs| ==> objs[m] < |P|
    ensures |r| == |objs| && CacheValid(r, |P|)
    ensures forall m :: 0 <= m < |r| ==> r[m].id == IntOf(P[objs[m]]) && r[m].active
  {
    seq(|objs|, m requires 0 <= m < |objs| => NewEntry(P, objs[m], t))
  }

  lemma NewEntriesSnoc(P: seq<Package>, objs: seq<nat>, m: nat, t: int)
    requires forall k :: 0 <= k < |objs| ==> objs[k] < |P|
    requires m < |objs|
    ensures NewEntries(P, objs[..m + 1], t) == NewEntries(P, objs[..m], t) + [NewEntry(P, objs[m], t)]
  {
    var a, b := objs[..m + 1], objs[..m];
    var r := NewEntries(P, b, t) + [NewEntry(P, objs[m], t)];
    forall k | 0 <= k < m + 1
      ensures NewEntries(P, a, t)[k] == r[k]
    {
      if k < m {
        assert a[k] == b[k];
      }
    }
  }

  /** The first package of kind `k` in `lo..hi`. */
  function FirstOfKind(P: seq<Package>, k: Kind, lo: nat, hi: nat): (r: Option<nat>)
    requires hi <= |P|
    decreases hi - lo
    ensures r.Some? ==> lo <= r.value < hi && P[r.value].kind == k
    ensures r.Some? ==> forall m :: lo <= m < r.value ==> P[m].kind != k
    ensures r.None? ==> forall m :: lo <= m < hi ==> P[m].kind != k
  {
    if lo >= hi then None
    else if P[lo].kind == k then Some(lo)
    else FirstOfKind(P, k, lo + 1, hi)
  }

  /** One reference after `UpdateCache` looked for its kind in block `lo..hi`. */
  function RefreshPkg(P: seq<Package>, cp: CachedPkg, lo: nat, hi: nat, t: int): CachedPkg
    requires cp.pkg < |P| && hi <= |P|
  {
    match FirstOfKind(P, P[cp.pkg].kind, lo, hi)
    case None => cp
    case Some(k) => CachedPkg(k, t)
  }

  function RefreshPkgs(P: seq<Package>, ps: seq<CachedPkg>, lo: nat, hi: nat, t: int): (r: seq<CachedPkg>)
    requires RefsIn(ps, |P|) && hi <= |P|
    ensures |r| == |ps|
    ensures forall j :: 0 <= j < |r| ==> r[j] == RefreshPkg(P, ps[j], lo, hi, t)
  {
    if ps == [] then []
    else RefreshPkgs(P, ps[..|ps| - 1], lo, hi, t) + [RefreshPkg(P, ps[|ps| - 1], lo, hi, t)]
  }

  function RefreshEntry(P: seq<Package>, s: ObjState, id: int, lo: nat, hi: nat, t: int): ObjState
    requires RefsIn(s.pkgs, |P|) && hi <= |P|
  {
    if s.id == id then s.(pkgs := RefreshPkgs(P, s.pkgs, lo, hi, t)) else s
  }

  /** `UpdateCache` for one object-id marker `l`: every entry of that object refreshes from its block. */
  function RefreshObject(P: seq<Package>, states: seq<ObjState>, l: nat, t: int): (r: seq<ObjState>)
    requires l < |P| && CacheValid(states, |P|)
    ensures |r| == |states|
    ensures forall i :: 0 <= i < |r| ==> r[i] == RefreshEntry(P, states[i], IntOf(P[l]), l + 1, BlockEnd(P, l), t)
  {
    if states == [] then []
    else
      var init := states[..|states| - 1];
      CachePrefix(states, |states| - 1, |P|);
      RefreshObject(P, init, l, t) + [RefreshEntry(P, states[|states| - 1], IntOf(P[l]), l + 1, BlockEnd(P, l), t)]
  }

  /**
   * The shape of a refreshed reference: it keeps its package kind, stays in
   * range, and either is unchanged or is re-stamped at `t` on the first
   * package of that kind in the block.
   */
  lemma RefreshPkgSpec(P: seq<Package>, cp: CachedPkg, lo: nat, hi: nat, t: int)
    requires cp.pkg < |P| && hi <= |P|
    ensures var r := RefreshPkg(P, cp, lo, hi, t);
      && r.pkg < |P| && P[r.pkg].kind == P[cp.pkg].kind
      && (r == cp <== forall m :: lo <= m < hi ==> P[m].kind != P[cp.pkg].kind)
      && (r != cp ==> r.time == t && lo <= r.pkg < hi && forall m :: lo <= m < r.pkg ==> P[m].kind != P[cp.pkg].kind)
  {
  }

  /** Refreshing the cache for one object keeps every entry's id, status, size, kinds and validity. */
  lemma RefreshObjectShape(P: seq<Package>, states: seq<ObjState>, l: nat, t: int)
    requires l < |P| && CacheValid(states, |P|)
    ensures var r := RefreshObject(P, states, l, t);
      && CacheValid(r, |P|)
      && forall i :: 0 <= i < |r| ==>
        && r[i].id == states[i].id && r[i].active == states[i].active && |r[i].pkgs| == |states[i].pkgs|
        && (forall j :: 0 <= j < |r[i].pkgs| ==> P[r[i].pkgs[j].pkg].kind == P[states[i].pkgs[j].pkg].kind)
        && (r[i].id != IntOf(P[l]) ==> r[i] == states[i])
  {
    var r := RefreshObject(P, states, l, t);
    forall i, j | 0 <= i < |r| && 0 <= j < |r[i].pkgs|
      ensures r[i].pkgs[j].pkg < |P| && P[r[i].pkgs[j].pkg].kind == P[states[i].pkgs[j].pkg].kind
    {
      if states[i].id == IntOf(P[l]) {
        RefreshPkgSpec(P, states[i].pkgs[j], l + 1, BlockEnd(P, l), t);
      }
    }
  }

  lemma RefreshObjectValid(P: seq<Package>, states: seq<ObjState>, l: nat, t: int)
    requires l < |P| && CacheValid(states, |P|)
    ensures CacheValid(RefreshObject(P, states, l, t), |P|)
  {
    RefreshObjectShape(P, states, l, t);
  }

  /** `UpdateCache`: refresh for every object-id marker of `objs`, in order. */
  function UpdateAll(P: seq<Package>, objs: seq<nat>, states: seq<ObjState>, t: int): (r: seq<ObjState>)
    requires forall m :: 0 <= m < |objs| ==> objs[m] < |P|
    requires CacheValid(states, |P|)
    ensures CacheValid(r, |P|)
  {
    if objs == [] then states
    else
      var prev := UpdateAll(P, objs[..|objs| - 1], states, t);
      RefreshObjectValid(P, prev, objs[|objs| - 1], t);
      RefreshObject(P, prev, objs[|objs| - 1], t)
  }

  lemma UpdateAllSnoc(P: seq<Package>, objs: seq<nat>, m: nat, states: seq<ObjState>, t: int)
    requires forall k :: 0 <= k < |objs| ==> objs[k] < |P|
    requires CacheValid(states, |P|) && m < |objs|
    ensures CacheValid(UpdateAll(P, objs[..m], states, t), |P|)
    ensures UpdateAll(P, objs[..m + 1], states, t) == RefreshObject(P, UpdateAll(P, objs[..m], states, t), objs[m], t)
  {
    assert objs[..m + 1][..m] == objs[..m];
  }

  /**
   * `UpdateCache` never adds, removes or reorders entries, never changes
   * an object's status, and leaves the entries of objects outside the frame
   * untouched.
   */
  lemma {:induction false} UpdateAllShape(P: seq<Package>, objs: seq<nat>, states: seq<ObjState>, t: int)
    requires forall m :: 0 <= m < |objs| ==> objs[m] < |P|
    requires CacheValid(states, |P|)
    ensures var r := UpdateAll(P, objs, states, t);
      && |r| == |states|
      && (forall i :: 0 <= i < |r| ==> r[i].id == states[i].id && r[i].active == states[i].active)
      && (forall i :: 0 <= i < |r| && (forall m :: 0 <= m < |objs| ==> IntOf(P[objs[m]]) != states[i].id) ==> r[i] == states[i])
  {
    if objs != [] {
      var init := objs[..|objs| - 1];
      UpdateAllShape(P, init, states, t);
      var prev := UpdateAll(P, init, states, t);
      RefreshObjectShape(P, prev, objs[|objs| - 1], t);
      forall i | 0 <= i < |states| && (forall m :: 0 <= m < |objs| ==> IntOf(P[objs[m]]) != states[i].id)
        ensures UpdateAll(P, objs, states, t)[i] == states[i]
      {
        assert forall m :: 0 <= m < |init| ==> init[m] == objs[m];
      }
    }
  }

  /** The marker right after an object-id marker, if there is a package there. */
  function MarkerAfter(P: seq<Package>, l: nat): Option<Kind> {
    if l + 1 < |P| then Some(P[l + 1].kind) else None
  }

  /**
   * Object `l`'s marker while seeking forwards to `t`: deleted makes it
   * inactive; added makes it active, creating its entry (stamped `t`) when
   * the object is not cached yet.
   */
  function ForwardMarker(P: seq<Package>, l: nat, states: seq<ObjState>, t: int): (r: seq<ObjState>)
    requires l < |P|
    ensures |states| <= |r| <= |states| + 1
  {
    var id := IntOf(P[l]);
    if MarkerAfter(P, l) == Some(ObjDeleted) then SetStatus(states, id, false)
    else if MarkerAfter(P, l) == Some(ObjAdded) then
      if !InCache(states, id) then states + [NewEntry(P, l, t)] else SetStatus(states, id, true)
    else states
  }

  /** Object `l`'s marker while seeking backwards to `t`: the reverse of `ForwardMarker`. */
  function BackwardMarker(P: seq<Package>, l: nat, states: seq<ObjState>, t: int): (r: seq<ObjState>)
    requires l < |P|
    ensures |states| <= |r| <= |states| + 1
  {
    var id := IntOf(P[l]);
    if MarkerAfter(P, l) == Some(ObjDeleted) then
      if !InCache(states, id) then states + [NewEntry(P, l, t)] else SetStatus(states, id, true)
    else if MarkerAfter(P, l) == Some(ObjAdded) then SetStatus(states, id, false)
    else states
  }

  /** The markers of every object of `objs`, in order. */
  function Markers(P: seq<Package>, objs: seq<nat>, states: seq<ObjState>, t: int, forward: bool): (r: seq<ObjState>)
    requires forall m :: 0 <= m < |objs| ==> objs[m] < |P|
    ensures |states| <= |r| <= |states| + |objs|
  {
    if objs == [] then states
    else
      MarkerStep(P, objs[|objs| - 1], Markers(P, objs[..|objs| - 1], states, t, forward), t, forward)
  }

  function MarkerStep(P: seq<Package>, l: nat, states: seq<ObjState>, t: int, forward: bool): (r: seq<ObjState>)
    requires l < |P|
    ensures |states| <= |r| <= |states| + 1
  {
    if forward then ForwardMarker(P, l, states, t) else BackwardMarker(P, l, states, t)
  }

  /** One object's marker keeps the old entries' ids and references and adds at most its own new entry. */
  lemma MarkerKeep(P: seq<Package>, l: nat, states: seq<ObjState>, t: int, forward: bool)
    requires l < |P| && CacheValid(states, |P|)
    ensures var r := MarkerStep(P, l, states, t, forward);
      && |states| <= |r| <= |states| + 1 && CacheValid(r, |P|)
      && (forall i :: 0 <= i < |states| ==> r[i].id == states[i].id && r[i].pkgs == states[i].pkgs)
      && (|r| > |states| ==> r[|states|] == NewEntry(P, l, t))
  {
  }

  /**
   * What one object's marker does to its activity: seeking forwards, a
   * deleted marker makes the object inactive and an added marker makes it
   * active (creating its entry when needed); seeking backwards the two are
   * inverted. Without a marker the cache is unchanged, and the activity of
   * every other object is kept.
   */
  lemma MarkerEffect(P: seq<Package>, l: nat, states: seq<ObjState>, t: int, forward: bool, other: int)
    requires l < |P|
    ensures var id := IntOf(P[l]);
      var r := MarkerStep(P, l, states, t, forward);
      var m := MarkerAfter(P, l);
      && ((forward && m == Some(ObjDeleted)) || (!forward && m == Some(ObjAdded)) ==> !ActiveInCache(r, id))
      && ((forward && m == Some(ObjAdded)) || (!forward && m == Some(ObjDeleted)) ==> ActiveInCache(r, id))
      && (m != Some(ObjDeleted) && m != Some(ObjAdded) ==> r == states)
      && (other != id ==> (ActiveInCache(r, other) <==> ActiveInCache(states, other)))
  {
    var id := IntOf(P[l]);
    var m := MarkerAfter(P, l);
    var deactivate := (forward && m == Some(ObjDeleted)) || (!forward && m == Some(ObjAdded));
    var activate := (forward && m == Some(ObjAdded)) || (!forward && m == Some(ObjDeleted));
    if deactivate {
      SetStatusEffect(states, id, false, other);
    } else if activate {
      if InCache(states, id) {
        SetStatusEffect(states, id, true, other);
      } else {
        var e := NewEntry(P, l, t);
        var r := states + [e];
        assert r[|states|] == e;
        if other != id {
          if ActiveInCache(r, other) {
            var i :| 0 <= i < |r| && r[i].id == other && r[i].active;
            assert i < |states| && states[i] == r[i];
          }
          if ActiveInCache(states, other) {
            var i :| 0 <= i < |states| && states[i].id == other && states[i].active;
            assert r[i] == states[i];
          }
        }
      }
    }
  }

  lemma MarkersSnoc(P: seq<Package>, objs: seq<nat>, m: nat, states: seq<ObjState>, t: int, forward: bool)
    requires forall k :: 0 <= k < |objs| ==> objs[k] < |P|
    requires m < |objs|
    ensures Markers(P, objs[..m + 1], states, t, forward) == MarkerStep(P, objs[m], Markers(P, objs[..m], states, t, forward), t, forward)
  {
    assert objs[..m + 1][..m] == objs[..m];
  }

  /** `s` holds the id and references of the entry `AddObjState` creates, stamped `t`, for one of the object-id markers `objs`. */
  predicate NewEntryOf(P: seq<Package>, objs: seq<nat>, s: ObjState, t: int)
    requires forall m :: 0 <= m < |objs| ==> objs[m] < |P|
  {
    exists m :: 0 <= m < |objs| && s.id == IntOf(P[objs[m]]) && s.pkgs == NewEntry(P, objs[m], t).pkgs
  }

  /**
   * Applying markers never forgets an object: the old entries stay in place
   * with their references, every new entry is a fresh one for an object of
   * the frame, and the cache stays valid.
   */
  lemma {:induction false} MarkersKeep(P: seq<Package>, objs: seq<nat>, states: seq<ObjState>, t: int, forward: bool)
    requires forall m :: 0 <= m < |objs| ==> objs[m] < |P|
    requires CacheValid(states, |P|)
    ensures var r := Markers(P, objs, states, t, forward);
      && |states| <= |r| && CacheValid(r, |P|)
      && (forall i :: 0 <= i < |states| ==> r[i].id == states[i].id && r[i].pkgs == states[i].pkgs)
      && (forall i :: |states| <= i < |r| ==> NewEntryOf(P, objs, r[i], t))
  {
    if objs != [] {
      var init := objs[..|objs| - 1];
      MarkersKeep(P, init, states, t, forward);
      var prev := Markers(P, init, states, t, forward);
      var l := objs[|objs| - 1];
      MarkerKeep(P, l, prev, t, forward);
      var r := MarkerStep(P, l, prev, t, forward);
      assert r == Markers(P, objs, states, t, forward);
      assert |states| <= |r| && CacheValid(r, |P|);
      assert forall i :: 0 <= i < |states| ==> r[i].id == states[i].id && r[i].pkgs == states[i].pkgs;
      forall i | |states| <= i < |r| ensures NewEntryOf(P, objs, r[i], t) {
        if i < |prev| {
          assert NewEntryOf(P, init, prev[i], t);
          var m :| 0 <= m < |init| && prev[i].id == IntOf(P[init[m]]) && prev[i].pkgs == NewEntry(P, init[m], t).pkgs;
          assert objs[m] == init[m];
        } else {
          assert r[i] == NewEntry(P, objs[|objs| - 1], t);
        }
      }
    }
  }

  /** Applying one frame: the markers, then the refresh of every object's references. */
  function ApplyFrame(P: seq<Package>, objs: seq<nat>, states: seq<ObjState>, target: int, frameTime: int, forward: bool):
    (r: seq<ObjState>)
    requires forall m :: 0 <= m < |objs| ==> objs[m] < |P|
    requires CacheValid(states, |P|)
    ensures CacheValid(r, |P|)
  {
    MarkersKeep(P, objs, states, target, forward);
    UpdateAll(P, objs, Markers(P, objs, states, target, forward), frameTime)
  }

  /** Applying a frame never erases an entry of the cache nor changes an entry's object id. */
  lemma ApplyFrameKeepsIds(P: seq<Package>, objs: seq<nat>, states: seq<ObjState>, target: int, frameTime: int, forward: bool)
    requires forall m :: 0 <= m < |objs| ==> objs[m] < |P|
    requires CacheValid(states, |P|)
    ensures var r := ApplyFrame(P, objs, states, target, frameTime, forward);
      |states| <= |r| && forall i :: 0 <= i < |states| ==> r[i].id == states[i].id
  {
    MarkersKeep(P, objs, states, target, forward);
    UpdateAllShape(P, objs, Markers(P, objs, states, target, forward), frameTime);
  }

  /** The last reference of `ps` to a package of kind `k`. */
  function LastInEntry(P: seq<Package>, ps: seq<CachedPkg>, k: Kind): (r: Option<nat>)
    requires RefsIn(ps, |P|)
    ensures r.Some? ==> exists j :: (0 <= j < |ps| && ps[j].pkg == r.value && P[r.value].kind == k
      && forall j' :: j < j' < |ps| ==> P[ps[j'].pkg].kind != k)
    ensures r.None? <==> forall j :: 0 <= j < |ps| ==> P[ps[j].pkg].kind != k
  {
    if ps == [] then None
    else if P[ps[|ps| - 1].pkg].kind == k then Some(ps[|ps| - 1].pkg)
    else
      var r := LastInEntry(P, ps[..|ps| - 1], k);
      assert forall j :: 0 <= j < |ps| - 1 ==> ps[..|ps| - 1][j] == ps[j];
      r
  }

  /** The first reference of `ps` to a package of kind `k`. */
  function FirstInEntry(P: seq<Package>, ps: seq<CachedPkg>, k: Kind): (r: Option<nat>)
    requires RefsIn(ps, |P|)
    ensures r.Some? ==> exists j :: (0 <= j < |ps| && ps[j].pkg == r.value && P[r.value].kind == k
      && forall j' :: 0 <= j' < j ==> P[ps[j'].pkg].kind != k)
    ensures r.None? <==> forall j :: 0 <= j < |ps| ==> P[ps[j].pkg].kind != k
  {
    if ps == [] then None
    else
      var init := ps[..|ps| - 1];
      assert forall j :: 0 <= j < |ps| - 1 ==> init[j] == ps[j];
      var r := FirstInEntry(P, init, k);
      if r.Some? then r
      else if P[ps[|ps| - 1].pkg].kind == k then Some(ps[|ps| - 1].pkg)
      else None
  }

  /**
   * The getters' search (`GetModelID`, `GetPos`, …): over every entry of
   * object `id`, the last reference to a package of kind `k` wins; within an
   * entry `pick` chooses (the last one, or `GetBB`'s first one).
   */
  function Pick(P: seq<Package>, ps: seq<CachedPkg>, k: Kind, first: bool): (r: Option<nat>)
    requires RefsIn(ps, |P|)
    ensures r.Some? ==> r.value < |P| && P[r.value].kind == k
    ensures r.None? <==> forall j :: 0 <= j < |ps| ==> P[ps[j].pkg].kind != k
  {
    if first then FirstInEntry(P, ps, k) else LastInEntry(P, ps, k)
  }

  function Lookup(P: seq<Package>, states: seq<ObjState>, id: int, k: Kind, first: bool): (r: Option<nat>)
    requires CacheValid(states, |P|)
    ensures r.Some? ==> r.value < |P| && P[r.value].kind == k
  {
    if states == [] then None
    else
      var init := states[..|states| - 1];
      CachePrefix(states, |states| - 1, |P|);
      var s := states[|states| - 1];
      if s.id == id && Pick(P, s.pkgs, k, first).Some? then Pick(P, s.pkgs, k, first)
      else Lookup(P, init, id, k, first)
  }

  /** A getter finds nothing exactly when no entry of the object refers to a package of that kind. */
  lemma {:induction false} LookupNone(P: seq<Package>, states: seq<ObjState>, id: int, k: Kind, first: bool)
    requires CacheValid(states, |P|)
    ensures Lookup(P, states, id, k, first).None? <==>
      forall i, j :: 0 <= i < |states| && states[i].id == id && 0 <= j < |states[i].pkgs| ==> P[states[i].pkgs[j].pkg].kind != k
  {
    if states != [] {
      var init := states[..|states| - 1];
      CachePrefix(states, |states| - 1, |P|);
      LookupNone(P, init, id, k, first);
      assert forall i :: 0 <= i < |init| ==> init[i] == states[i];
    }
  }

  /**
   * A getter that finds something finds a reference held by the object's
   * last entry that has one, and no later entry of the object has one.
   */
  lemma {:induction false} LookupSome(P: seq<Package>, states: seq<ObjState>, id: int, k: Kind, first: bool)
    requires CacheValid(states, |P|)
    requires Lookup(P, states, id, k, first).Some?
    ensures exists i :: (0 <= i < |states| && states[i].id == id
      && Lookup(P, states, id, k, first) == Pick(P, states[i].pkgs, k, first)
      && forall i' :: i < i' < |states| && states[i'].id == id ==> Pick(P, states[i'].pkgs, k, first).None?)
  {
    var init := states[..|states| - 1];
    CachePrefix(states, |states| - 1, |P|);
    var s := states[|states| - 1];
    if s.id == id && Pick(P, s.pkgs, k, first).Some? {
      var i := |states| - 1;
      assert states[i].id == id && Lookup(P, states, id, k, first) == Pick(P, states[i].pkgs, k, first);
    } else {
      assert Lookup(P, states, id, k, first) == Lookup(P, init, id, k, first);
      LookupSome(P, init, id, k, first);
      var i :| 0 <= i < |init| && init[i].id == id
        && Lookup(P, init, id, k, first) == Pick(P, init[i].pkgs, k, first)
        && forall i' :: i < i' < |init| && init[i'].id == id ==> Pick(P, init[i'].pkgs, k, first).None?;
      assert init[i] == states[i];
      forall i' | i < i' < |states| && states[i'].id == id
        ensures Pick(P, states[i'].pkgs, k, first).None?
      {
        if i' < |init| {
          assert init[i'] == states[i'];
        } else {
          assert states[i'] == s;
        }
      }
      assert states[i].id == id && Lookup(P, states, id, k, first) == Pick(P, states[i].pkgs, k, first);
    }
  }

  /** Once a prefix of `ps` holds a reference of kind `k`, the first one of `ps` is that prefix's first one. */
  lemma {:induction false} FirstInEntryPrefix(P: seq<Package>, ps: seq<CachedPkg>, m: nat, k: Kind)
    requires RefsIn(ps, |P|) && m <= |ps|
    requires FirstInEntry(P, ps[..m], k).Some?
    ensures FirstInEntry(P, ps, k) == FirstInEntry(P, ps[..m], k)
    decreases |ps| - m
  {
    if m == |ps| {
      assert ps[..m] == ps;
    } else {
      var init := ps[..|ps| - 1];
      assert init[..m] == ps[..m];
      FirstInEntryPrefix(P, init, m, k);
    }
  }

  /** One more reference seen by the inner loop of a getter. */
  lemma PickSnoc(P: seq<Package>, ps: seq<CachedPkg>, j: nat, k: Kind, first: bool)
    requires RefsIn(ps, |P|) && j < |ps|
    ensures RefsIn(ps[..j], |P|) && RefsIn(ps[..j + 1], |P|)
    ensures Pick(P, ps[..j + 1], k, first) ==
      if first && Pick(P, ps[..j], k, first).Some? then Pick(P, ps[..j], k, first)
      else if P[ps[j].pkg].kind == k then Some(ps[j].pkg)
      else Pick(P, ps[..j], k, first)
  {
    assert ps[..j + 1][..j] == ps[..j];
  }

  /** One more entry seen by the outer loop of a getter. */
  lemma LookupSnoc(P: seq<Package>, states: seq<ObjState>, i: nat, id: int, k: Kind, first: bool)
    requires CacheValid(states, |P|) && i < |states|
    ensures CacheValid(states[..i], |P|) && CacheValid(states[..i + 1], |P|)
    ensures Lookup(P, states[..i + 1], id, k, first) ==
      if states[i].id == id && Pick(P, states[i].pkgs, k, first).Some? then Pick(P, states[i].pkgs, k, first)
      else Lookup(P, states[..i], id, k, first)
  {
    assert states[..i + 1][..i] == states[..i];
  }
}
