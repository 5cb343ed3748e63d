# esmini replayer core, modelled in Dafny

This project models the core of esmini's replayer `Replay` (file
`EnvironmentSimulator/Applications/replayer/Replay.cpp`). The replayer reads a
recorded scenario log (a `.dat` file) and plays it back.

A recording in the package-based format is a flat list of packages. Each
package is an 8-byte common header (package id, content size) followed by
its content. `RecordPkgs` decodes the file into the ordered list `pkgs_`:
a file header, then for every frame a time marker (`TIME_SERIES`) followed
by, for every object, an object-id marker (`OBJ_ID`), an optional
`OBJ_ADDED` / `OBJ_DELETED` marker and the object's attribute packages
(position, speed, bounding box, name, road id, …).

The replayer keeps:
- a read cursor (`index_`, `time_`), which the constructor leaves at index 0 (the file header) with the first frame's time, and which the frame steps move from time marker to time marker;
- the scenario time `sim_time`;
- a start/stop window;
- an object cache `obj_states`. This holds, per object, an active flag and references to the packages that currently describe it.

Seeking (`MoveToTime`) walks the cursor frame by frame towards the target. On each frame it applies the object markers and refreshes the cache, then clamps the scenario time into the window. The getters (`GetX`, `GetSpeed`, `GetName`, …) answer from the packages the cache refers to.

A second constructor merges several recordings in the older fixed-record format into one timeline. It:
1. cleans each recording to increasing timestamps (`CleanEntries`);
2. orders the recordings by their first timestamp;
3. moves the ids of recording `j` into the id group `100 * j`;
4. interleaves the recordings frame by frame with sample-and-hold (`BuildData`).

## Modules
- `Wrappers`: `Option` and `Result`.
- `Packages`: package kinds, payloads, and the typed readers of a package's value.
- `Codec`: the byte-level decoder `RecordPkgs`, proved equal to the function `Decode`, and an encoder with the round trip `Decode(Encode(ps)) == ps`.
- `Timeline`: specification functions of the scans over `pkgs_`, which cover frames, the objects of a frame, entity blocks, the index searches and the entity list.
- `Cache`: specification functions of the cache, which cover status changes, entry creation, the refresh rule of `UpdateCache`, the add/delete markers and the getters' lookup.
- `SeekEngine`: `MoveToTime` as a function over the engine state, with its loops corrected to halt and, beside them, the loops as written.
- `ReplayEngine`: the class `Replay`, whose every method runs the source's loops over its fields and is proved against the functions above.
- `Merge`: `CleanEntries`, `BuildData` proved equal to the reference merge `MergeOf`, and the directory constructor.

Shorthand in the table:
- `Replay.cpp` stands for `EnvironmentSimulator/Applications/replayer/Replay.cpp`. The source cells carry the full path.
- A "frame" is a time marker together with the packages up to the next time marker.
- An "entity block" is the packages after an object-id marker, up to the next object-id or time marker.

## Model

| member | source | states |
|---|---|---|
| Packages.UpToNul | EnvironmentSimulator/Applications/replayer/Replay.cpp:1491-1510 | the bytes a C string reads as: a prefix of the input with no 0 byte, followed in the input by a 0 byte unless it is the whole input |
| Codec.LEOfToLE | EnvironmentSimulator/Applications/replayer/Replay.cpp:364-366 | the little-endian header fields read back the number written into them |
| Codec.Int32RoundTrip | EnvironmentSimulator/Applications/replayer/Replay.cpp:403-413 | a signed 32-bit value stored in four bytes reads back unchanged |
| Codec.KindOfCode | EnvironmentSimulator/Applications/replayer/Replay.cpp:367-688 | a package id names a known kind exactly when it is one of the ids the switch handles; the kind's code is that id |
| Codec.KindOfCodeInverse | EnvironmentSimulator/Applications/replayer/Replay.cpp:367-688 | every kind's code decodes back to that kind |
| Codec.CodeOfKindsAt | EnvironmentSimulator/Applications/replayer/Replay.cpp:367-688 | the codes of distinct kinds are distinct (the code of the kind numbered `c` is `c`) |
| Codec.DecodeOne | EnvironmentSimulator/Applications/replayer/Replay.cpp:358-688 | one turn of the reading loop stops exactly when fewer than the 8 bytes of a common header are left; an unknown id consumes its 8-byte header and nothing more; otherwise reading moves forward within the file, past the header when a package is appended |
| Codec.DecodeContent | EnvironmentSimulator/Applications/replayer/Replay.cpp:367-688 | the switch on the package id always appends a package; when reading goes on it moves past the common header and stays within the file |
| Codec.DecodeHeader | EnvironmentSimulator/Applications/replayer/Replay.cpp:369-400 | the file header is appended whole, with reading moved past its version and both 4-byte string sizes, or cut short by the end of the file |
| Codec.ReadOne | EnvironmentSimulator/Applications/replayer/Replay.cpp:358-688 | reading one package at a position splits the decoding of the remaining file into that package and the decoding after it |
| Codec.RecordPkgs | EnvironmentSimulator/Applications/replayer/Replay.cpp:339-690 | the loop that reads until the end of the file or a failed read appends exactly the packages `Decode` specifies |
| Codec.Decode | EnvironmentSimulator/Applications/replayer/Replay.cpp:339-690 | every package appended takes at least the 8 bytes of its common header |
| Codec.HeaderRoundTrip | EnvironmentSimulator/Applications/replayer/Replay.cpp:369-400 | a file header (version and two size-prefixed strings) decodes back to itself |
| Codec.SixRoundTrip | EnvironmentSimulator/Applications/replayer/Replay.cpp:448-554 | position and bounding-box packages (six 8-byte fields) decode back to themselves |
| Codec.ScalarRoundTrip | EnvironmentSimulator/Applications/replayer/Replay.cpp:403-650 | a one-value package of `content_size` bytes decodes back to itself |
| Codec.PackageRoundTrip | EnvironmentSimulator/Applications/replayer/Replay.cpp:358-688 | an encoded package decodes to itself and consumes exactly its own bytes |
| Codec.DecodeCons | EnvironmentSimulator/Applications/replayer/Replay.cpp:358-688 | decoding a package followed by more bytes gives that package followed by the decoding of the rest |
| Codec.DecodeEncode | EnvironmentSimulator/Applications/replayer/Replay.cpp:339-690 | decoding what the recorder writes gives back every package, in order |
| Timeline.NextFrom | EnvironmentSimulator/Applications/replayer/Replay.cpp:792-807 | the first time marker from the position on that is later than the time; none exactly when no position from there holds one; no earlier position qualifies |
| Timeline.NextFrame | EnvironmentSimulator/Applications/replayer/Replay.cpp:792-807 | the cursor stays put or moves forward to a time marker with a later time |
| Timeline.PrevFrom | EnvironmentSimulator/Applications/replayer/Replay.cpp:809-824 | the last time marker in positions 1 to `i` earlier than the time; none exactly when none of them holds one; no later position qualifies |
| Timeline.PrevFrame | EnvironmentSimulator/Applications/replayer/Replay.cpp:809-824 | the cursor stays put or moves back to a time marker (never the header) with an earlier time |
| Timeline.FrameEnd | EnvironmentSimulator/Applications/replayer/Replay.cpp:715-742 | the end of a frame is the next time marker, or the end of the timeline |
| Timeline.ObjIdsInFrame | EnvironmentSimulator/Applications/replayer/Replay.cpp:715-742 | every position reported lies between the scan start and the end of the timeline |
| Timeline.ObjIdsInFrameSound | EnvironmentSimulator/Applications/replayer/Replay.cpp:715-742 | every position reported lies in the frame and holds an object-id marker |
| Timeline.ObjIdsInFrameComplete | EnvironmentSimulator/Applications/replayer/Replay.cpp:715-742 | every object-id marker of the frame is reported |
| Timeline.ObjIdsInFrameSorted | EnvironmentSimulator/Applications/replayer/Replay.cpp:715-742 | the positions are reported in increasing order |
| Timeline.FindTime | EnvironmentSimulator/Applications/replayer/Replay.cpp:719-729 | the first time marker at or after the cursor carrying the cursor's time, or none |
| Timeline.ObjectsAtTime | EnvironmentSimulator/Applications/replayer/Replay.cpp:715-742 | the objects of the current frame are object-id markers after the cursor |
| Timeline.BlockLen | EnvironmentSimulator/Applications/replayer/Replay.cpp:700-713 | the packages counted hold no time or object-id marker, and the count stops at the next one or at the end |
| Timeline.FirstTimeNotBefore | EnvironmentSimulator/Applications/replayer/Replay.cpp:321-334 | the first time marker from the search start whose time is not earlier than the timestamp; no earlier position qualifies |
| Timeline.NthTime | EnvironmentSimulator/Applications/replayer/Replay.cpp:1035-1052 | the `count`-th time marker (counting from 1), or none when there are fewer |
| Timeline.LastTime | EnvironmentSimulator/Applications/replayer/Replay.cpp:959-970 | the last time marker after the header, or none |
| Timeline.AddEntity | EnvironmentSimulator/Applications/replayer/Replay.cpp:1007-1016 | appending an entity keeps the listed ones and lists the new id; a new id keeps the ids distinct |
| Timeline.EntitiesFrom | EnvironmentSimulator/Applications/replayer/Replay.cpp:995-1019 | the entity scan keeps the list it starts from and adds at most one entity per package scanned |
| Timeline.EntitiesFromGrows | EnvironmentSimulator/Applications/replayer/Replay.cpp:995-1019 | the entity scan only appends to the list it starts from |
| Timeline.EntitiesFromDistinct | EnvironmentSimulator/Applications/replayer/Replay.cpp:995-1019 | the entity scan never lists an id twice |
| Timeline.EntitiesFromComplete | EnvironmentSimulator/Applications/replayer/Replay.cpp:995-1019 | every object id of the timeline ends up in the list |
| Cache.SetStatus | EnvironmentSimulator/Applications/replayer/Replay.cpp:775-785 | every entry of the object gets the status; nothing else changes and no entry is added or removed |
| Cache.SetStatusEffect | EnvironmentSimulator/Applications/replayer/Replay.cpp:775-785 | afterwards the object is active exactly when it is cached and the status is true; other objects keep their activity |
| Cache.BlockRefsSound | EnvironmentSimulator/Applications/replayer/Replay.cpp:1064-1075 | a new entry refers only to packages of its entity block, none of them an added/deleted marker |
| Cache.BlockRefsComplete | EnvironmentSimulator/Applications/replayer/Replay.cpp:1064-1075 | a new entry refers to every package of its block except the added/deleted markers |
| Cache.BlockRefsSorted | EnvironmentSimulator/Applications/replayer/Replay.cpp:1064-1075 | the references keep the order of the timeline |
| Cache.NewEntry | EnvironmentSimulator/Applications/replayer/Replay.cpp:1054-1079 | a new entry carries the object's id, is active and refers into the timeline |
| Cache.NewEntries | EnvironmentSimulator/Applications/replayer/Replay.cpp:1093-1108 | one active entry per object of the first frame, in order |
| Cache.FirstOfKind | EnvironmentSimulator/Applications/replayer/Replay.cpp:841-850 | the first package of a kind in a block, or none |
| Cache.RefreshPkgs | EnvironmentSimulator/Applications/replayer/Replay.cpp:838-851 | each reference is refreshed on its own, and none is added or dropped |
| Cache.RefreshPkgSpec | EnvironmentSimulator/Applications/replayer/Replay.cpp:841-850 | a reference moves to the first package of its kind in the block, stamped with the frame time, and is kept when the block has none |
| Cache.RefreshObject | EnvironmentSimulator/Applications/replayer/Replay.cpp:826-855 | every entry of the object is refreshed from its block; other entries are unchanged |
| Cache.RefreshObjectShape | EnvironmentSimulator/Applications/replayer/Replay.cpp:826-855 | a refresh keeps every entry's id, status, number of references and the kind of each referenced package |
| Cache.RefreshObjectValid | EnvironmentSimulator/Applications/replayer/Replay.cpp:826-855 | a refresh keeps every reference inside the timeline |
| Cache.UpdateAllShape | EnvironmentSimulator/Applications/replayer/Replay.cpp:826-855 | `UpdateCache` adds and removes no entry, changes no id or status, and leaves objects outside the frame untouched |
| Cache.UpdateAll | EnvironmentSimulator/Applications/replayer/Replay.cpp:826-855 | refreshing the objects of a frame keeps every reference of the cache inside the timeline |
| Cache.ForwardMarker | EnvironmentSimulator/Applications/replayer/Replay.cpp:880-896 | going forward, one object's marker removes no entry and adds at most the object's new entry |
| Cache.BackwardMarker | EnvironmentSimulator/Applications/replayer/Replay.cpp:913-931 | going backward, one object's marker removes no entry and adds at most the object's new entry |
| Cache.MarkerEffect | EnvironmentSimulator/Applications/replayer/Replay.cpp:877-931 | forward, a deleted marker leaves the object inactive and an added marker leaves it active; backward, the roles swap; without a marker the cache is unchanged; every other object keeps its activity |
| Cache.MarkerKeep | EnvironmentSimulator/Applications/replayer/Replay.cpp:877-896 | one object's marker keeps every entry's id and references and adds at most the object's new entry |
| Cache.Markers | EnvironmentSimulator/Applications/replayer/Replay.cpp:877-931 | the marker loop removes no entry and adds at most one per object of the frame |
| Cache.MarkersKeep | EnvironmentSimulator/Applications/replayer/Replay.cpp:877-931 | the marker loop never forgets an object; every entry it adds is the entry `AddObjState` creates for an object of the frame |
| Cache.ApplyFrame | EnvironmentSimulator/Applications/replayer/Replay.cpp:877-933 | applying a frame (markers, then refresh) keeps every reference of the cache inside the timeline |
| Cache.ApplyFrameKeepsIds | EnvironmentSimulator/Applications/replayer/Replay.cpp:877-933 | applying a frame never erases an entry or changes an entry's id |
| Cache.LastInEntry | EnvironmentSimulator/Applications/replayer/Replay.cpp:1110-1130 | the getter's inner scan overwrites its answer, so it finds the last reference of the kind in the entry: no later reference holds the kind; none exactly when no reference does |
| Cache.FirstInEntry | EnvironmentSimulator/Applications/replayer/Replay.cpp:1154-1182 | `GetBB`'s scan finds the first reference of the kind, and none exactly when there is none |
| Cache.Lookup | EnvironmentSimulator/Applications/replayer/Replay.cpp:1110-1510 | what a getter finds is a package of the kind asked for, inside the timeline |
| Cache.LookupNone | EnvironmentSimulator/Applications/replayer/Replay.cpp:1110-1510 | a getter finds nothing exactly when no entry of the object refers to a package of the kind |
| Cache.LookupSome | EnvironmentSimulator/Applications/replayer/Replay.cpp:1110-1510 | a getter that finds something answers from the object's last entry that holds the kind |
| Cache.FirstInEntryPrefix | EnvironmentSimulator/Applications/replayer/Replay.cpp:1154-1182 | `GetBB` takes the first bounding box: what a prefix of the references finds stays the answer |
| SeekEngine.ApplyFrames | EnvironmentSimulator/Applications/replayer/Replay.cpp:865-936 | applying the frames a seek passes keeps every reference of the cache inside the timeline |
| SeekEngine.ApplyFramesKeepsIds | EnvironmentSimulator/Applications/replayer/Replay.cpp:865-936 | the frames a seek passes never erase an entry of the cache or change its id |
| SeekEngine.ForwardWalk | EnvironmentSimulator/Applications/replayer/Replay.cpp:865-902 | the forward loop leaves the cursor inside the timeline |
| SeekEngine.ForwardFramesNotPast | EnvironmentSimulator/Applications/replayer/Replay.cpp:865-902 | every frame the forward loop applies is later than the cursor it starts from and not after the target |
| SeekEngine.BackwardWalk | EnvironmentSimulator/Applications/replayer/Replay.cpp:904-936 | the backward loop leaves the cursor inside the timeline |
| SeekEngine.BackwardFramesAfterTarget | EnvironmentSimulator/Applications/replayer/Replay.cpp:904-936 | every frame the backward loop applies is after the target and not after the cursor it starts from |
| SeekEngine.ForwardLoop | EnvironmentSimulator/Applications/replayer/Replay.cpp:865-902 | the forward loop lands on a cursor inside the timeline, with a cache that refers only into it |
| SeekEngine.BackwardLoop | EnvironmentSimulator/Applications/replayer/Replay.cpp:904-936 | the backward loop lands on a cursor inside the timeline, with a cache that refers only into it |
| SeekEngine.Clamp | EnvironmentSimulator/Applications/replayer/Replay.cpp:939-953 | the scenario time is the target clamped into the window; above it the cursor goes to the stop index, below it to the start index; the cache is untouched |
| SeekEngine.Seek | EnvironmentSimulator/Applications/replayer/Replay.cpp:857-957 | a seek keeps the engine state valid: the cursor inside the timeline and the cache referring only into it |
| SeekEngine.SeekOutcome | EnvironmentSimulator/Applications/replayer/Replay.cpp:857-957 | a seek to the current scenario time changes nothing; any other seek sets the scenario time to the clamped target and forgets no object |
| SeekEngine.FindIndex | EnvironmentSimulator/Applications/replayer/Replay.cpp:301-336 | past the stop time it seeks to the end and answers the cursor; before the start it answers the cursor; otherwise the first qualifying time marker from the search start, or the last position |
| SeekEngine.SetStart | EnvironmentSimulator/Applications/replayer/Replay.cpp:1512-1521 | the start time becomes `t` with the index found for it; a cursor at or after `t` is kept, one before `t` becomes the start index with time `t`; past the stop time the index search first seeks to the stop time, and the cursor keeps that seek's index with its time raised to `t` |
| SeekEngine.SetStop | EnvironmentSimulator/Applications/replayer/Replay.cpp:1523-1532 | the stop time becomes `t` with the index found for it; a cursor not after `t` is kept, one after `t` becomes the stop index with time `t`; the cache is untouched |
| SeekEngine.NextFrameIsNext | EnvironmentSimulator/Applications/replayer/Replay.cpp:792-807 | on a monotone timeline the next frame is the nearest later frame, and stepping back from it returns to the cursor's time |
| SeekEngine.PrevFrameIsPrev | EnvironmentSimulator/Applications/replayer/Replay.cpp:809-824 | on a monotone timeline the previous frame is the nearest earlier frame |
| SeekEngine.ForwardLands | EnvironmentSimulator/Applications/replayer/Replay.cpp:865-902 | a forward seek never leaves the cursor past the target, lands on a frame, and stops on the latest frame not after the target unless the stop time comes first |
| SeekEngine.BackwardLands | EnvironmentSimulator/Applications/replayer/Replay.cpp:904-936 | a backward seek lands on a frame, at or before the target, at the start time, or on the first frame |
| SeekEngine.ForwardAsWrittenSpins | EnvironmentSimulator/Applications/replayer/Replay.cpp:865-902 | as written, the forward loop never ends once the cursor cannot move and the target lies beyond it |
| SeekEngine.ForwardLoopAgrees | EnvironmentSimulator/Applications/replayer/Replay.cpp:865-902 | whenever the loop as written ends, it ends where the corrected loop does, having applied the same frames |
| SeekEngine.BackwardAsWrittenSpins | EnvironmentSimulator/Applications/replayer/Replay.cpp:904-936 | as written, the backward loop never ends once the cursor cannot move back and the target lies before it |
| SeekEngine.BackwardLoopAgrees | EnvironmentSimulator/Applications/replayer/Replay.cpp:904-936 | whenever the backward loop as written ends, it agrees with the corrected loop |
| SeekEngine.ForwardDivergesPastLastFrame | EnvironmentSimulator/Applications/replayer/Replay.cpp:865-902 | a stop time set after the last frame makes the forward loop as written spin |
| SeekEngine.BackwardDivergesBeforeFirstFrame | EnvironmentSimulator/Applications/replayer/Replay.cpp:904-936 | a start time set before the first frame makes the backward loop as written spin |
| ReplayEngine.Replay.MoveToNextFrame | EnvironmentSimulator/Applications/replayer/Replay.cpp:792-807 | the cursor moves to the next later frame; nothing else changes |
| ReplayEngine.Replay.MoveToPreviousFrame | EnvironmentSimulator/Applications/replayer/Replay.cpp:809-824 | the cursor moves to the previous earlier frame; nothing else changes |
| ReplayEngine.Replay.GetPkgCntBtwObj | EnvironmentSimulator/Applications/replayer/Replay.cpp:700-713 | the length of the entity block after the marker |
| ReplayEngine.Replay.GetNumberOfObjectsAtTime | EnvironmentSimulator/Applications/replayer/Replay.cpp:715-742 | the object-id markers of the current frame, in order |
| ReplayEngine.Replay.IsObjAvailableInCache | EnvironmentSimulator/Applications/replayer/Replay.cpp:744-756 | true exactly when the cache holds an entry of the object |
| ReplayEngine.Replay.IsObjAvailableActive | EnvironmentSimulator/Applications/replayer/Replay.cpp:758-773 | true exactly when the cache holds an active entry of the object |
| ReplayEngine.Replay.UpdateObjStatus | EnvironmentSimulator/Applications/replayer/Replay.cpp:775-785 | every entry of the object gets the status |
| ReplayEngine.Replay.DeleteObjState | EnvironmentSimulator/Applications/replayer/Replay.cpp:1081-1091 | every entry of the object is flagged inactive, never erased |
| ReplayEngine.Replay.CollectRefs | EnvironmentSimulator/Applications/replayer/Replay.cpp:1064-1075 | the references of a new entry: its whole entity block except the added/deleted markers |
| ReplayEngine.Replay.AddObjState | EnvironmentSimulator/Applications/replayer/Replay.cpp:1054-1079 | exactly one entry is appended: the object's id, active, referring to its block |
| ReplayEngine.Replay.FindKindInBlock | EnvironmentSimulator/Applications/replayer/Replay.cpp:841-850 | the first package of the kind in the block, or none |
| ReplayEngine.Replay.RefreshRefs | EnvironmentSimulator/Applications/replayer/Replay.cpp:838-851 | every reference of an entry refreshed from the block |
| ReplayEngine.Replay.RefreshObjectInCache | EnvironmentSimulator/Applications/replayer/Replay.cpp:826-855 | every entry of one object refreshed from its block |
| ReplayEngine.Replay.UpdateCache | EnvironmentSimulator/Applications/replayer/Replay.cpp:826-855 | every object of the current frame refreshed, in order, with the frame time |
| ReplayEngine.Replay.InitiateStates | EnvironmentSimulator/Applications/replayer/Replay.cpp:1093-1108 | one new entry per object of the current frame, stamped with the start time; the scenario time becomes the start time |
| ReplayEngine.Replay.SetStopEntries | EnvironmentSimulator/Applications/replayer/Replay.cpp:959-970 | the stop frame is the last time marker; without one the stop frame is unchanged |
| ReplayEngine.Replay.ApplyMarker | EnvironmentSimulator/Applications/replayer/Replay.cpp:877-896 | one object's added/deleted marker: the cache becomes `Cache.MarkerStep` of it, whose effect on the object's activity `Cache.MarkerEffect` states; moving back, the roles are inverted |
| ReplayEngine.Replay.ApplyMarkers | EnvironmentSimulator/Applications/replayer/Replay.cpp:877-931 | the markers of every object of the current frame, in order |
| ReplayEngine.Replay.SeekForward | EnvironmentSimulator/Applications/replayer/Replay.cpp:865-902 | the cursor and the cache end where the forward loop specification lands |
| ReplayEngine.Replay.SeekBackward | EnvironmentSimulator/Applications/replayer/Replay.cpp:904-936 | the cursor and the cache end where the backward loop specification lands |
| ReplayEngine.Replay.MoveToTime | EnvironmentSimulator/Applications/replayer/Replay.cpp:857-957 | the engine state is that of `SeekEngine.Seek`; the window and the entity list are untouched |
| ReplayEngine.Replay.MoveToDeltaTime | EnvironmentSimulator/Applications/replayer/Replay.cpp:786-789 | a seek to the scenario time plus `dt` |
| ReplayEngine.Replay.MoveToStart | EnvironmentSimulator/Applications/replayer/Replay.cpp:291-294 | a seek to the start time |
| ReplayEngine.Replay.MoveToEnd | EnvironmentSimulator/Applications/replayer/Replay.cpp:296-299 | a seek to the stop time |
| ReplayEngine.Replay.FindIndexAtTimestamp | EnvironmentSimulator/Applications/replayer/Replay.cpp:301-336 | the index and the engine state of `SeekEngine.FindIndex` |
| ReplayEngine.Replay.SetStartTime | EnvironmentSimulator/Applications/replayer/Replay.cpp:1512-1521 | the window and the engine state of `SeekEngine.SetStart` |
| ReplayEngine.Replay.SetStopTime | EnvironmentSimulator/Applications/replayer/Replay.cpp:1523-1532 | the window and the engine state of `SeekEngine.SetStop` |
| ReplayEngine.Replay.GetScenarioEntities | EnvironmentSimulator/Applications/replayer/Replay.cpp:995-1019 | every object id not yet listed is appended with the time of the last time marker before it |
| ReplayEngine.Replay.GetTimeFromEntities | EnvironmentSimulator/Applications/replayer/Replay.cpp:1021-1033 | the time of the first listed entity of the object; none exactly when the object is not listed |
| ReplayEngine.Replay.GetTimeFromCnt | EnvironmentSimulator/Applications/replayer/Replay.cpp:1035-1052 | the time of the `count`-th time marker, -1 when there is none |
| ReplayEngine.Replay.PickInEntry | EnvironmentSimulator/Applications/replayer/Replay.cpp:1110-1130 | the scan of one entry's references: the last reference of the kind, or the first with `GetBB`'s early break |
| ReplayEngine.Replay.Search | EnvironmentSimulator/Applications/replayer/Replay.cpp:1110-1130 | the getters' scan of the cache answers what `Cache.Lookup` specifies |
| ReplayEngine.Replay.GetModelID | EnvironmentSimulator/Applications/replayer/Replay.cpp:1110-1130 | the model id of the object's reference, -1 without one |
| ReplayEngine.Replay.GetCtrlType | EnvironmentSimulator/Applications/replayer/Replay.cpp:1132-1152 | the controller type, -1 without one |
| ReplayEngine.Replay.GetScaleMode | EnvironmentSimulator/Applications/replayer/Replay.cpp:1184-1205 | the scale mode, -1 without one |
| ReplayEngine.Replay.GetVisibility | EnvironmentSimulator/Applications/replayer/Replay.cpp:1207-1228 | the visibility mask, -1 without one |
| ReplayEngine.Replay.GetRoadId | EnvironmentSimulator/Applications/replayer/Replay.cpp:1288-1309 | the road id, -1 without one |
| ReplayEngine.Replay.GetLaneId | EnvironmentSimulator/Applications/replayer/Replay.cpp:1311-1332 | the lane id, -1 without one |
| ReplayEngine.Replay.GetSpeed | EnvironmentSimulator/Applications/replayer/Replay.cpp:1468-1489 | the speed, 0.0 without one |
| ReplayEngine.Replay.GetWheelAngle | EnvironmentSimulator/Applications/replayer/Replay.cpp:1422-1443 | the wheel angle, 0.0 without one |
| ReplayEngine.Replay.GetWheelRot | EnvironmentSimulator/Applications/replayer/Replay.cpp:1445-1466 | the wheel rotation, 0.0 without one |
| ReplayEngine.Replay.GetPosOffset | EnvironmentSimulator/Applications/replayer/Replay.cpp:1334-1355 | the lane offset, 0.0 without one |
| ReplayEngine.Replay.GetPosT | EnvironmentSimulator/Applications/replayer/Replay.cpp:1357-1378 | the t coordinate, 0.0 without one |
| ReplayEngine.Replay.GetPosS | EnvironmentSimulator/Applications/replayer/Replay.cpp:1380-1401 | the s coordinate, 0.0 without one |
| ReplayEngine.Replay.GetPos | EnvironmentSimulator/Applications/replayer/Replay.cpp:1230-1250 | the position of the object's last position package, the default position without one |
| ReplayEngine.Replay.PosAt | EnvironmentSimulator/Applications/replayer/Replay.cpp:1230-1250 | the position `GetPos` answers: none exactly when there is no position reference |
| ReplayEngine.Replay.GetX | EnvironmentSimulator/Applications/replayer/Replay.cpp:1252-1256 | the x field of `GetPos` |
| ReplayEngine.Replay.GetY | EnvironmentSimulator/Applications/replayer/Replay.cpp:1258-1262 | the y field of `GetPos` |
| ReplayEngine.Replay.GetZ | EnvironmentSimulator/Applications/replayer/Replay.cpp:1264-1268 | the z field of `GetPos` |
| ReplayEngine.Replay.GetH | EnvironmentSimulator/Applications/replayer/Replay.cpp:1270-1274 | the heading of `GetPos` |
| ReplayEngine.Replay.GetR | EnvironmentSimulator/Applications/replayer/Replay.cpp:1276-1280 | the roll of `GetPos` |
| ReplayEngine.Replay.GetP | EnvironmentSimulator/Applications/replayer/Replay.cpp:1282-1286 | as written: the roll of `GetPos`, not its pitch |
| ReplayEngine.Replay.GetPitch | EnvironmentSimulator/Applications/replayer/Replay.cpp:1282-1286 | corrected: the pitch of `GetPos` |
| ReplayEngine.Replay.GetBB | EnvironmentSimulator/Applications/replayer/Replay.cpp:1154-1182 | the first bounding box of the object's last entry holding one; none without one |
| ReplayEngine.Replay.GetName | EnvironmentSimulator/Applications/replayer/Replay.cpp:1491-1510 | the name of the object's last name reference, read as a C string up to its first 0 byte; without one the output argument keeps its value |
| ReplayEngine.Replay.GetComPletePos | EnvironmentSimulator/Applications/replayer/Replay.cpp:1403-1420 | the position with road id, lane id, offset, t and s, each with its getter's default |
| ReplayEngine.Replay.constructor | EnvironmentSimulator/Applications/replayer/Replay.cpp:22-63 | the timeline is kept; the cursor is at index 0 (the file header) with the first frame's time; the start is that time with start index 1; the stop is the last time marker; the cache holds one new entry per object of the first frame |
| ReplayEngine.Open | EnvironmentSimulator/Applications/replayer/Replay.cpp:22-63 | decode the file; a missing header, a version mismatch and a missing first time marker are errors; otherwise the constructed replay |
| ReplayEngine.IsObjAvailableInEntities | EnvironmentSimulator/Applications/replayer/Replay.cpp:972-993 | true exactly when the entity list holds the id |
| ReplayEngine.GetPAnswersRoll | EnvironmentSimulator/Applications/replayer/Replay.cpp:1282-1286 | for a pose whose roll differs from its pitch, the value `GetP` answers is not the pitch |
| Merge.AdjacentOrdered | EnvironmentSimulator/Applications/replayer/Replay.cpp:1534-1555 | timestamps in order pair by pair are in order throughout |
| Merge.ErasePicks | EnvironmentSimulator/Applications/replayer/Replay.cpp:1534-1555 | erasing an entry keeps the result a subsequence of the input |
| Merge.DropRepeat | EnvironmentSimulator/Applications/replayer/Replay.cpp:1544-1553 | an entry is erased only when a later entry of the same object follows it at the same timestamp |
| Merge.DropEarlier | EnvironmentSimulator/Applications/replayer/Replay.cpp:1538-1542 | an entry earlier than its predecessor is erased and the counter steps back; an ordered input is untouched |
| Merge.DropRepeatAt | EnvironmentSimulator/Applications/replayer/Replay.cpp:1544-1553 | the duplicate check keeps the order already established and a repeat-free input untouched |
| Merge.CleanEntries | EnvironmentSimulator/Applications/replayer/Replay.cpp:1534-1555 | corrected: the result is in timestamp order, a subsequence of the input, keeps the first timestamp, and equals an input that is already ordered without repeats; every entry it erases is preceded by a later one or followed by one of the same object at the same timestamp |
| Merge.Dec32 | EnvironmentSimulator/Applications/replayer/Replay.cpp:1541 | the unsigned 32-bit decrement wraps 0 to 2^32 - 1 |
| Merge.OrderCheckAsWritten | EnvironmentSimulator/Applications/replayer/Replay.cpp:1538-1542 | as written: the order check with the unsigned counter |
| Merge.CleanEntriesReadsPastEnd | EnvironmentSimulator/Applications/replayer/Replay.cpp:1536-1544 | as written, an entry earlier than the first one wraps the counter, and the inner loop's bound check passes at an index past the end |
| Merge.Grouped | EnvironmentSimulator/Applications/replayer/Replay.cpp:1570-1577 | the id groups keep the number of recordings and of entries |
| Merge.GroupIds | EnvironmentSimulator/Applications/replayer/Replay.cpp:1570-1577 | every entry of recording `j` gains `100 * j` on its id and keeps its timestamp and state |
| Merge.LatestIn | EnvironmentSimulator/Applications/replayer/Replay.cpp:1580-1626 | no entry of a recording is later than the bound |
| Merge.Latest | EnvironmentSimulator/Applications/replayer/Replay.cpp:1580-1626 | no entry of any recording is later than the bound, which bounds the merged times |
| Merge.EmitRun | EnvironmentSimulator/Applications/replayer/Replay.cpp:1589-1595 | every entry due by the merged time is emitted, in order, stamped with that time: exactly the entries up to `FirstLater`, stamped; the first entry left is later |
| Merge.FirstLater | EnvironmentSimulator/Applications/replayer/Replay.cpp:1589-1595 | the first entry from the position on that is later than the merged time; every entry before it is due |
| Merge.ScanOne | EnvironmentSimulator/Applications/replayer/Replay.cpp:1587-1609 | one recording in one step: its due entries are emitted and its next position becomes the first entry left, -1 once exhausted |
| Merge.ScanAll | EnvironmentSimulator/Applications/replayer/Replay.cpp:1584-1610 | one merged step: every recording not yet exhausted emits; the next time is the earliest entry left, none once all are exhausted; what it emits, the next positions and the next time are those of the reference pass (`StepOut`, `StepNext`, `MinNext`) |
| Merge.StepAll | EnvironmentSimulator/Applications/replayer/Replay.cpp:1612-1623 | a recording whose next entry is due at the next time moves to it; the others hold their current frame (the reference `StepIdx`) |
| Merge.BuildData | EnvironmentSimulator/Applications/replayer/Replay.cpp:1557-1627 | the merged data is `MergeOf` of the id groups, the reference merge with sample and hold; it is in timestamp order, starts with the first entry, holds only states of the recordings stamped no earlier than their own time, and holds every state of every recording |
| Merge.StepNextSpec | EnvironmentSimulator/Applications/replayer/Replay.cpp:1584-1609 | after the pass at the merged time every recording is exhausted or next at an entry later than that time; an exhausted recording stays exhausted |
| Merge.MinNextSpec | EnvironmentSimulator/Applications/replayer/Replay.cpp:1584-1609 | `min_time_stamp` is none exactly when every recording is exhausted, and otherwise the earliest next entry of the live ones |
| Merge.HoldsCurrentFrame | EnvironmentSimulator/Applications/replayer/Replay.cpp:1587-1623 | sample and hold: at every merged time, a live recording whose current frame is due emits that frame again, stamped with the merged time |
| Merge.HoldExample | EnvironmentSimulator/Applications/replayer/Replay.cpp:1580-1626 | recordings with states at 0 and 10 and at 0 and 20 merge to five entries; the second recording's state from 0 is emitted again at 10 |
| Merge.Insert | EnvironmentSimulator/Applications/replayer/Replay.cpp:189-191 | inserting a recording into a list sorted by start keeps it sorted and a permutation |
| Merge.SortByStart | EnvironmentSimulator/Applications/replayer/Replay.cpp:189-191 | the recordings sorted by their first timestamp, a permutation of the input |
| Merge.IndexWithoutPackages | EnvironmentSimulator/Applications/replayer/Replay.cpp:301-336 | `FindIndexAtTimestamp` on a replay without packages, for a timestamp not after the stop time (the merged constructor's one call passes the stop time itself): the cursor's index before the start, otherwise -1 |
| Merge.ToUnsigned32 | EnvironmentSimulator/Applications/replayer/Replay.cpp:218 | the cast to `unsigned int` turns -1 into 2^32 - 1 |
| Merge.SortedStart | EnvironmentSimulator/Applications/replayer/Replay.cpp:189-191 | the first sorted recording has the earliest start of all |
| Merge.MergedFromRecordings | EnvironmentSimulator/Applications/replayer/Replay.cpp:189-207 | every merged entry is a state of one of the recordings, moved into an id group |
| Merge.CleanAll | EnvironmentSimulator/Applications/replayer/Replay.cpp:201-204 | every recording cleaned, in order |
| Merge.CheckRecordings | EnvironmentSimulator/Applications/replayer/Replay.cpp:158-186 | the first version mismatch stops the merge, then fewer than two recordings, then an empty one; no error exactly when none of these holds |
| Merge.MergeChecked | EnvironmentSimulator/Applications/replayer/Replay.cpp:188-219 | the merged timeline is ordered; it starts at the earliest start of all recordings and stops at its last entry; every entry comes from a recording |
| Merge.MergeRecordings | EnvironmentSimulator/Applications/replayer/Replay.cpp:135-225 | the directory constructor: the error cases of `CheckRecordings`, and otherwise the merge of `MergeChecked` |

## Left out
- File and directory I/O is left out. This covers opening, seeking and reading the files, `GetReplaysFromDirectory` (Replay.cpp:228-279) and `CreateMergedDatfile` (Replay.cpp:1629-1649). The model takes the bytes of a file, or the decoded recordings of a directory, as parameters.
- The destructor and `GetNumberOfScenarios` are left out because they hold no logic.
- The constructor for the legacy single-file format (Replay.cpp:65-133) is left out. Only the package-based single-file constructor and the directory merge are modelled.
- Replay.hpp and DatLogger.hpp are not part of this model. Two consequences:
  - The numeric package ids are numbered in the order `RecordPkgs` handles them, and only their distinctness matters.
  - `DAT_FILE_FORMAT_VERSION` is the parameter `supported`.
  - The field widths are assumed: the common header is a 4-byte package id and a 4-byte content size, both little-endian; the file header's version is a 4-byte signed integer and each of its string sizes a 4-byte field.
- Floating point is left out:
  - Time is integer ticks. The 8-byte time field is read as an unsigned little-endian integer.
  - `isEqualDouble` and `NEAR_NUMBERSF` are exact equality.
  - Payload doubles are opaque 8-byte values (`Real64`), and 0.0 is eight zero bytes.
  - The narrowing to `float` in `GetPosT`, `GetPosS` and `GetComPletePos` is not modelled.
- The minimum frame step `deltaTime_` / `perviousTime_` that `RecordPkgs` tracks (Replay.cpp:419-430) is left out, since nothing in the core reads it.
- Logging, `printf` and `LOG_AND_QUIT` are left out. A fatal check becomes a `Failure` result (`Open`, `MergeRecordings`).
- ReplayEngine.Open: the source dereferences `pkgs_[0]` and `pkgs_[1]` without checking them. The model reports a missing header or first time marker as an error instead of reading past the list.
- Merge.CheckRecordings: the source indexes the first entry of an empty recording and computes `size() - 1` on it, both undefined. The model reports an empty recording as an error.
- ReplayEngine.Replay.ApplyMarker: the source reads the package after an object-id marker unchecked. The model treats a marker at the end of the timeline as an object without an added/deleted marker.
- A truncated common header stops decoding. A truncated payload is appended as a `Malformed` package, and the typed readers answer 0 for it. A one-value package whose `content_size` differs from its field width is `Malformed` too: the source would read past the field.
- Merge.BuildData is modelled on values. The in-place rewrite of the timestamps inside the recordings is returned as the merged list; the rewrite only touches entries already emitted, whose new stamp is still due at every later step, so no comparison of the loops changes, and the `LARGE_NUMBER` / `SMALL_NUMBER` sentinels are an `Option` and exact comparison. It requires at least one non-empty recording, which the directory constructor guarantees.
- Merge.IndexWithoutPackages does not model the branch for a timestamp past the stop time, where the source calls `MoveToEnd` on the empty list; the merged constructor never takes it, since it passes the stop time itself.
- Merge.SortByStart: `std::sort` is not stable, so the order of recordings with equal starts is unspecified. The model inserts in a definite order, and the contract states only sortedness and permutation.
- Merge.GroupIds: ids and the `100 * j` offset are unbounded integers, so 32-bit overflow of an id is not modelled.
- Merge.CleanEntries does not promise a full de-duplication per timestamp, because the code does not deliver one. The duplicate check only looks at the run of equal timestamps that directly follows an entry. In `[(A,5),(B,5),(D,5),(C,3),(A,5)]` the earlier `(A,5)` survives: the regression `(C,3)` separates it from the later one until that entry is erased.
- ReplayEngine.Replay.GetName: a name whose bytes hold no 0 byte is taken whole; the source's copy would read past the buffer.
- ReplayEngine.Replay.GetTimeFromEntities answers `None` where the source answers `SMALL_NUMBER`.
- The backward seek lags. The backward loop applies the frame at the cursor before stepping back, so the cache reflects the last frame visited rather than the target frame. The model follows the code. It does not claim that a backward seek restores the state a forward seek would have reached.

## Findings

| source | as written | input that shows it | evidently intended | confidence | as-written member | corrected member |
|---|---|---|---|---|---|---|
| EnvironmentSimulator/Applications/replayer/Replay.cpp:865-936 | the seek loops only stop at the target, the stop time or the start time; when `MoveToNextFrame` / `MoveToPreviousFrame` cannot move, the loop turns forever | stop time 20 set after the last frame (time 10), seek from 10 to 15; start time -5 set before the first frame (time 0), seek from 0 to -3 | stop when the cursor cannot move | not executed | SeekEngine.ForwardAsWritten, SeekEngine.ForwardDivergesPastLastFrame, SeekEngine.BackwardAsWritten, SeekEngine.BackwardDivergesBeforeFirstFrame | SeekEngine.ForwardWalk, SeekEngine.BackwardWalk, SeekEngine.ForwardLoopAgrees, SeekEngine.BackwardLoopAgrees |
| EnvironmentSimulator/Applications/replayer/Replay.cpp:1536-1545 | the `unsigned int` counter is decremented after erasing the entry after position 0, wrapping to 2^32 - 1; the inner loop's check `i + j < size()` wraps to 0 and passes, and `entries[i]` is read far past the end | entries with timestamps `[5, 3]` | start the next round at position 0 | not executed | Merge.OrderCheckAsWritten, Merge.CleanEntriesReadsPastEnd | Merge.CleanEntries |
| EnvironmentSimulator/Applications/replayer/Replay.cpp:1282-1286 | `GetP` answers the `r` (roll) field of the position | a position with roll 1.0 and pitch 0.0 | answer the `p` (pitch) field | not executed | ReplayEngine.Replay.GetP, ReplayEngine.GetPAnswersRoll | ReplayEngine.Replay.GetPitch |
