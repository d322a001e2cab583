/** The placement registry: the placed model instances, their rooms, their per-floor visibility
    and their removal from the scene. */
module ModelManager {
  import opened Wrappers
  import opened Strings
  import opened Rooms
  import opened ModelLoader
  import opened Seqs

  type InstanceId = string

  /** A placed model: the cloned scene graph (whose root carries the `visible` flag), the
      interaction data attached when placing it, and the transform it was given. */
  datatype Instance = Instance(id: InstanceId, roomId: RoomId, modelData: ModelEntry,
                               model: Node, position: Vec3, scale: real)
  {
    predicate Visible()
    {
      model.visible
    }

    function WithVisibility(v: bool): Instance
    {
      this.(model := model.(visible := v))
    }
  }

  /** A command sent to the external scene: adding or removing an instance, or releasing the
      geometries and materials of every node of its scene graph. */
  datatype SceneEvent = Added(id: InstanceId) | Removed(id: InstanceId) | Disposed(id: InstanceId)

  /** The floor filter a selected-floor token denotes. `OnFloor(None)` is a token whose
      number does not parse (NaN), which no room's floor index equals. */
  datatype FloorFilter = AllFloors | OnFloor(index: Option<int>)

  /** A missing or empty token (both falsy) selects every floor; otherwise the first "floor"
      is removed and the rest read with parseInt. */
  function FloorFilterOf(selectedFloor: Option<string>): (f: FloorFilter)
    ensures f.AllFloors? <==> selectedFloor.None? || selectedFloor.value == ""
  {
    if selectedFloor.None? || selectedFloor.value == "" then AllFloors
    else OnFloor(ParseInt(ReplaceFirst(selectedFloor.value, "floor", "")))
  }

  /** The token the floor selector uses for floor `n`. */
  function FloorToken(n: nat): string
  {
    "floor" + NatToDecimal(n)
  }

  /** The token of floor `n` filters on floor `n`. */
  lemma FloorTokenSelectsFloor(n: nat)
    ensures FloorFilterOf(Some(FloorToken(n))) == OnFloor(Some(n))
  {
    ReplaceFirstAtFront("floor", NatToDecimal(n), "");
    assert "" + NatToDecimal(n) == NatToDecimal(n);
    ParseIntOfDecimal(n);
  }

  /** The instance's room exists and lies on the floor `index` names. */
  predicate OnSelectedFloor(rooms: seq<Room>, index: Option<int>, o: Instance)
  {
    var room := RoomById(rooms, o.roomId);
    room.Some? && index == Some(room.value.floorIndex)
  }

  function OnFloorTest(rooms: seq<Room>, index: Option<int>): Instance -> bool
  {
    (o: Instance) => OnSelectedFloor(rooms, index, o)
  }

  function InRoom(roomId: RoomId): Instance -> bool
  {
    (o: Instance) => o.roomId == roomId
  }

  function NotInRoom(roomId: RoomId): Instance -> bool
  {
    (o: Instance) => o.roomId != roomId
  }

  function HasId(id: InstanceId): Instance -> bool
  {
    (o: Instance) => o.id == id
  }

  function IsVisible(): Instance -> bool
  {
    (o: Instance) => o.Visible()
  }

  /** The derived count `visibleObjects`. */
  function VisibleCount(placed: seq<Instance>, rooms: seq<Room>, selectedFloor: Option<string>): nat
  {
    match FloorFilterOf(selectedFloor)
    case AllFloors => |placed|
    case OnFloor(index) => |Filter(placed, OnFloorTest(rooms, index))|
  }

  /** With no floor selected every placed instance counts; with a floor selected, exactly the
      positions whose instance has an existing room on that floor count. */
  lemma VisibleCountMeaning(placed: seq<Instance>, rooms: seq<Room>, selectedFloor: Option<string>)
    ensures VisibleCount(placed, rooms, selectedFloor) <= |placed|
    ensures FloorFilterOf(selectedFloor).AllFloors? ==>
      VisibleCount(placed, rooms, selectedFloor) == |placed|
    ensures FloorFilterOf(selectedFloor).OnFloor? ==>
      VisibleCount(placed, rooms, selectedFloor)
      == |set i | 0 <= i < |placed| && OnSelectedFloor(rooms, FloorFilterOf(selectedFloor).index, placed[i])|
  {
    var f := FloorFilterOf(selectedFloor);
    if f.OnFloor? {
      OnFloorCount(placed, rooms, f.index);
    }
  }

  /** Filtering on a floor keeps exactly the positions whose instance has a room on it. */
  lemma OnFloorCount(placed: seq<Instance>, rooms: seq<Room>, index: Option<int>)
    ensures |Filter(placed, OnFloorTest(rooms, index))|
            == |set i | 0 <= i < |placed| && OnSelectedFloor(rooms, index, placed[i])|
  {
    FilterLengthCountsPositions(placed, OnFloorTest(rooms, index));
    assert Positions(placed, OnFloorTest(rooms, index))
           == set i | 0 <= i < |placed| && OnSelectedFloor(rooms, index, placed[i]);
  }

  /** Placing one more instance raises the count by one exactly when it counts itself: with no
      floor selected, or when its room exists and lies on the selected floor. */
  lemma VisibleCountAppend(placed: seq<Instance>, o: Instance, rooms: seq<Room>,
                           selectedFloor: Option<string>)
    ensures VisibleCount(placed + [o], rooms, selectedFloor)
            == VisibleCount(placed, rooms, selectedFloor)
               + (match FloorFilterOf(selectedFloor)
                  case AllFloors => 1
                  case OnFloor(index) => if OnSelectedFloor(rooms, index, o) then 1 else 0)
  {
    var f := FloorFilterOf(selectedFloor);
    if f.OnFloor? {
      FilterConcat(placed, [o], OnFloorTest(rooms, f.index));
      assert [o][1..] == [];
    }
  }

  /** The world position of a model placed at offset `(x, z)` from a room's centre: half a unit
      above that room's floor level. */
  function PlacementPosition(room: Room, x: real, z: real, floorHeight: real): Vec3
  {
    Vec3(room.x + x, room.floorIndex as real * floorHeight + 0.5, room.z + z)
  }

  /** What refreshing does to one instance. */
  function RefreshOne(o: Instance, rooms: seq<Room>, f: FloorFilter): Instance
  {
    match f
    case AllFloors => o.WithVisibility(true)
    case OnFloor(index) =>
      match RoomById(rooms, o.roomId)
      case None => o
      case Some(room) => o.WithVisibility(index == Some(room.floorIndex))
  }

  /** The placed instances after a visibility refresh under filter `f`. */
  function Refreshed(placed: seq<Instance>, rooms: seq<Room>, f: FloorFilter): seq<Instance>
  {
    seq(|placed|, i requires 0 <= i < |placed| => RefreshOne(placed[i], rooms, f))
  }

  /** A list that agrees with the refresh of `placed` at every position is that refresh. */
  lemma RefreshedAt(placed: seq<Instance>, rooms: seq<Room>, f: FloorFilter, result: seq<Instance>)
    requires |result| == |placed|
    requires forall j :: 0 <= j < |placed| ==> result[j] == RefreshOne(placed[j], rooms, f)
    ensures result == Refreshed(placed, rooms, f)
  {
  }

  /** A refresh changes visibility flags only. With no floor selected it shows everything; with a
      floor selected, an instance whose room exists is shown exactly when that room is on the
      floor, and an instance whose room is missing keeps its flag. */
  lemma RefreshedVisibility(placed: seq<Instance>, rooms: seq<Room>, selectedFloor: Option<string>)
    ensures |Refreshed(placed, rooms, FloorFilterOf(selectedFloor))| == |placed|
    ensures forall i :: 0 <= i < |placed| ==>
      var o := Refreshed(placed, rooms, FloorFilterOf(selectedFloor))[i];
      o == placed[i].WithVisibility(o.Visible())
      && (FloorFilterOf(selectedFloor).AllFloors? ==> o.Visible())
      && (FloorFilterOf(selectedFloor).OnFloor? && RoomById(rooms, placed[i].roomId).Some? ==>
            (o.Visible() <==> OnSelectedFloor(rooms, FloorFilterOf(selectedFloor).index, placed[i])))
      && (RoomById(rooms, placed[i].roomId).None? ==>
            o.Visible() == (FloorFilterOf(selectedFloor).AllFloors? || placed[i].Visible()))
  {
  }

  /** After a refresh, the derived count is the number of instances actually shown, provided
      every instance's room exists (otherwise a stale flag may be shown but not counted). */
  lemma VisibleCountAfterRefresh(placed: seq<Instance>, rooms: seq<Room>, selectedFloor: Option<string>)
    requires forall i :: 0 <= i < |placed| ==> RoomById(rooms, placed[i].roomId).Some?
    ensures VisibleCount(placed, rooms, selectedFloor)
            == |Filter(Refreshed(placed, rooms, FloorFilterOf(selectedFloor)), IsVisible())|
  {
    var f := FloorFilterOf(selectedFloor);
    var r := Refreshed(placed, rooms, f);
    match f {
      case AllFloors =>
        FilterLengthPointwise(placed, (o: Instance) => true, r, IsVisible());
        assert Filter(placed, (o: Instance) => true) == placed by {
          FilterKeepsAll(placed, (o: Instance) => true);
        }
      case OnFloor(index) =>
        FilterLengthPointwise(placed, OnFloorTest(rooms, index), r, IsVisible());
    }
  }

  /** `getModelsInRoom`: the instances placed in a room, in placement order. */
  function ModelsInRoom(placed: seq<Instance>, roomId: RoomId): (r: seq<Instance>)
    ensures |r| <= |placed|
    ensures forall i :: 0 <= i < |r| ==> r[i].roomId == roomId
  {
    Filter(placed, InRoom(roomId))
  }

  /** A room's list holds exactly the placed instances of that room, in placement order: the
      lists of the two halves of a registry, one after the other. */
  lemma ModelsInRoomExactly(placed: seq<Instance>, more: seq<Instance>, roomId: RoomId)
    ensures forall x :: x in ModelsInRoom(placed, roomId) <==> x in placed && x.roomId == roomId
    ensures ModelsInRoom(placed + more, roomId) == ModelsInRoom(placed, roomId) + ModelsInRoom(more, roomId)
  {
    FilterMembers(placed, InRoom(roomId));
    FilterConcat(placed, more, InRoom(roomId));
  }

  /** The instances `cleanupRoomModels` keeps. */
  function WithoutRoom(placed: seq<Instance>, roomId: RoomId): seq<Instance>
  {
    Filter(placed, NotInRoom(roomId))
  }

  /** One step of the backwards splice loop: with positions after `i` already filtered, position
      `i` is spliced out exactly when it belongs to the room. */
  lemma SpliceStep(s: seq<Instance>, i: nat, roomId: RoomId, current: seq<Instance>)
    requires i < |s|
    requires current == s[..i + 1] + WithoutRoom(s[i + 1..], roomId)
    ensures i < |current| && current[i] == s[i]
    ensures (if current[i].roomId == roomId then current[..i] + current[i + 1..] else current)
            == s[..i] + WithoutRoom(s[i..], roomId)
  {
    assert s[..i + 1] == s[..i] + [s[i]];
    assert s[i..][0] == s[i] && s[i..][1..] == s[i + 1..];
    assert WithoutRoom(s[i..], roomId)
           == (if s[i].roomId != roomId then [s[i]] else []) + WithoutRoom(s[i + 1..], roomId);
    assert current[..i] == s[..i];
    assert current[i + 1..] == WithoutRoom(s[i + 1..], roomId);
  }

  /** The commands releasing each of `xs`, in order: a removal from the scene, then the disposal
      of its resources. */
  function ReleaseLog(xs: seq<Instance>): seq<SceneEvent>
  {
    if |xs| == 0 then [] else [Removed(xs[0].id), Disposed(xs[0].id)] + ReleaseLog(xs[1..])
  }

  lemma {:induction false} ReleaseLogConcat(a: seq<Instance>, b: seq<Instance>)
    ensures ReleaseLog(a + b) == ReleaseLog(a) + ReleaseLog(b)
  {
    if |a| == 0 {
      assert a + b == b;
    } else {
      assert (a + b)[0] == a[0];
      assert (a + b)[1..] == a[1..] + b;
      ReleaseLogConcat(a[1..], b);
    }
  }

  /** The release log removes and disposes each id once per instance carrying it, and adds nothing. */
  lemma {:induction false} ReleaseLogOccurrences(xs: seq<Instance>, id: InstanceId)
    ensures Occurrences(ReleaseLog(xs), Removed(id)) == |Filter(xs, HasId(id))|
    ensures Occurrences(ReleaseLog(xs), Disposed(id)) == |Filter(xs, HasId(id))|
    ensures Occurrences(ReleaseLog(xs), Added(id)) == 0
  {
    if |xs| > 0 {
      var head := [Removed(xs[0].id), Disposed(xs[0].id)];
      OccurrencesConcat(head, ReleaseLog(xs[1..]), Removed(id));
      OccurrencesConcat(head, ReleaseLog(xs[1..]), Disposed(id));
      OccurrencesConcat(head, ReleaseLog(xs[1..]), Added(id));
      assert head[1..][1..] == [];
      ReleaseLogOccurrences(xs[1..], id);
    }
  }

  /** No two placed instances share an id. */
  predicate UniqueIds(placed: seq<Instance>)
  {
    forall i, j :: 0 <= i < j < |placed| ==> placed[i].id != placed[j].id
  }

  lemma {:induction false} UniqueIdsAtMostOne(placed: seq<Instance>, id: InstanceId)
    requires UniqueIds(placed)
    ensures |Filter(placed, HasId(id))| <= 1
  {
    if |placed| > 0 {
      var rest := placed[1..];
      assert UniqueIds(rest) by {
        forall i, j | 0 <= i < j < |rest| ensures rest[i].id != rest[j].id {
          assert rest[i] == placed[i + 1] && rest[j] == placed[j + 1];
        }
      }
      UniqueIdsAtMostOne(rest, id);
      if placed[0].id == id {
        forall j | 0 <= j < |rest|
          ensures !HasId(id)(rest[j])
        {
          assert rest[j] == placed[j + 1];
        }
        FilterNone(rest, HasId(id));
      }
    }
  }

  /** Filtering never makes two instances share an id. */
  lemma {:induction false} FilterKeepsUniqueIds(placed: seq<Instance>, p: Instance -> bool)
    requires UniqueIds(placed)
    ensures UniqueIds(Filter(placed, p))
  {
    if |placed| > 0 {
      var rest := placed[1..];
      assert UniqueIds(rest) by {
        forall i, j | 0 <= i < j < |rest| ensures rest[i].id != rest[j].id {
          assert rest[i] == placed[i + 1] && rest[j] == placed[j + 1];
        }
      }
      FilterKeepsUniqueIds(rest, p);
      FilterMembers(rest, p);
      var tail := Filter(rest, p);
      var head: seq<Instance> := if p(placed[0]) then [placed[0]] else [];
      assert Filter(placed, p) == head + tail;
      forall j | 0 <= j < |tail| ensures tail[j].id != placed[0].id {
        assert tail[j] in rest;
        var m :| 0 <= m < |rest| && rest[m] == tail[j];
        assert rest[m] == placed[m + 1];
      }
    }
  }

  /** Splitting by room splits the instances carrying any given id. */
  lemma {:induction false} RoomSplitById(placed: seq<Instance>, roomId: RoomId, id: InstanceId)
    ensures |Filter(ModelsInRoom(placed, roomId), HasId(id))|
            + |Filter(WithoutRoom(placed, roomId), HasId(id))| == |Filter(placed, HasId(id))|
  {
    if |placed| > 0 {
      var x := placed[0];
      var inRoom: seq<Instance> := if x.roomId == roomId then [x] else [];
      var outRoom: seq<Instance> := if x.roomId != roomId then [x] else [];
      assert ModelsInRoom(placed, roomId) == inRoom + ModelsInRoom(placed[1..], roomId);
      assert WithoutRoom(placed, roomId) == outRoom + WithoutRoom(placed[1..], roomId);
      FilterConcat(inRoom, ModelsInRoom(placed[1..], roomId), HasId(id));
      FilterConcat(outRoom, WithoutRoom(placed[1..], roomId), HasId(id));
      RoomSplitById(placed[1..], roomId, id);
    }
  }

  /** Removing a room's instances: none of that room remains, the others keep their order, and
      with unique ids every removed instance is removed from the scene and disposed exactly once
      while no kept instance is touched. */
  lemma CleanupReleasesEachOnce(placed: seq<Instance>, roomId: RoomId)
    requires UniqueIds(placed)
    ensures ModelsInRoom(WithoutRoom(placed, roomId), roomId) == []
    ensures forall x :: x in ModelsInRoom(placed, roomId) ==>
      Occurrences(ReleaseLog(ModelsInRoom(placed, roomId)), Removed(x.id)) == 1
      && Occurrences(ReleaseLog(ModelsInRoom(placed, roomId)), Disposed(x.id)) == 1
    ensures forall x :: x in WithoutRoom(placed, roomId) ==>
      Occurrences(ReleaseLog(ModelsInRoom(placed, roomId)), Removed(x.id)) == 0
      && Occurrences(ReleaseLog(ModelsInRoom(placed, roomId)), Disposed(x.id)) == 0
  {
    var gone := ModelsInRoom(placed, roomId);
    var kept := WithoutRoom(placed, roomId);
    FilterNone(kept, InRoom(roomId));
    forall x | x in gone || x in kept
      ensures Occurrences(ReleaseLog(gone), Removed(x.id)) == (if x in gone then 1 else 0)
      ensures Occurrences(ReleaseLog(gone), Disposed(x.id)) == (if x in gone then 1 else 0)
    {
      ReleaseLogOccurrences(gone, x.id);
      RoomSplitById(placed, roomId, x.id);
      UniqueIdsAtMostOne(placed, x.id);
      FilterMembers(gone, HasId(x.id));
      FilterMembers(kept, HasId(x.id));
    }
  }

  /** Cleaning up one room leaves every other room's instances as they were, in order. */
  lemma {:induction false} CleanupKeepsOtherRooms(placed: seq<Instance>, roomId: RoomId, other: RoomId)
    requires other != roomId
    ensures ModelsInRoom(WithoutRoom(placed, roomId), other) == ModelsInRoom(placed, other)
  {
    if |placed| > 0 {
      var x := placed[0];
      var kept: seq<Instance> := if x.roomId != roomId then [x] else [];
      assert WithoutRoom(placed, roomId) == kept + WithoutRoom(placed[1..], roomId);
      FilterConcat(kept, WithoutRoom(placed[1..], roomId), InRoom(other));
      if x.roomId != roomId {
        assert [x][1..] == [];
      }
      CleanupKeepsOtherRooms(placed[1..], roomId, other);
    }
  }

  /** `removeModel`'s effect on the list: the first instance with the id goes, nothing else. */
  function RemoveFirstById(placed: seq<Instance>, id: InstanceId): seq<Instance>
  {
    match FindFirst(placed, HasId(id))
    case None => placed
    case Some(k) => placed[..k] + placed[k + 1..]
  }

  /** Cutting out position `k` cuts it out of every filter, too. */
  lemma RemoveAtFilter(s: seq<Instance>, k: nat, q: Instance -> bool)
    requires k < |s|
    ensures Filter(s, q) == Filter(s[..k], q) + (if q(s[k]) then [s[k]] else []) + Filter(s[k + 1..], q)
    ensures Filter(s[..k] + s[k + 1..], q) == Filter(s[..k], q) + Filter(s[k + 1..], q)
  {
    FilterAround(s, k, q);
    FilterSingleton(s[k], q);
    FilterConcat(s[..k], s[k + 1..], q);
  }

  /** An unknown id changes nothing; a known one removes exactly its first holder, so one
      instance with that id fewer remains and every other id keeps its instances in order. */
  lemma RemoveFirstByIdEffect(placed: seq<Instance>, id: InstanceId)
    ensures (forall j :: 0 <= j < |placed| ==> placed[j].id != id) ==>
      RemoveFirstById(placed, id) == placed
    ensures (exists j :: 0 <= j < |placed| && placed[j].id == id) ==>
      |RemoveFirstById(placed, id)| == |placed| - 1
      && |Filter(RemoveFirstById(placed, id), HasId(id))| == |Filter(placed, HasId(id))| - 1
      && exists k :: 0 <= k < |placed| && placed[k].id == id
           && (forall j :: 0 <= j < k ==> placed[j].id != id)
           && RemoveFirstById(placed, id) == placed[..k] + placed[k + 1..]
    ensures forall other :: other != id ==>
      Filter(RemoveFirstById(placed, id), HasId(other)) == Filter(placed, HasId(other))
  {
    match FindFirst(placed, HasId(id)) {
      case None =>
      case Some(k) =>
        RemoveAtKeepsHolders(placed, k, id);
        assert RemoveFirstById(placed, id) == placed[..k] + placed[k + 1..];
    }
  }

  /** Cutting out position `k`, which holds `id`, drops one holder of `id` and no other instance. */
  lemma RemoveAtKeepsHolders(placed: seq<Instance>, k: nat, id: InstanceId)
    requires k < |placed| && placed[k].id == id
    ensures |Filter(placed[..k] + placed[k + 1..], HasId(id))| == |Filter(placed, HasId(id))| - 1
    ensures forall other :: other != id ==>
      Filter(placed[..k] + placed[k + 1..], HasId(other)) == Filter(placed, HasId(other))
  {
    RemoveAtFilter(placed, k, HasId(id));
    forall other | other != id
      ensures Filter(placed[..k] + placed[k + 1..], HasId(other)) == Filter(placed, HasId(other))
    {
      RemoveAtFilter(placed, k, HasId(other));
    }
  }

  /** Placing an instance appends it to its room's list and leaves other rooms' lists alone. */
  lemma PlacingExtendsRoom(placed: seq<Instance>, o: Instance, roomId: RoomId)
    ensures ModelsInRoom(placed + [o], roomId)
            == ModelsInRoom(placed, roomId) + (if o.roomId == roomId then [o] else [])
  {
    FilterConcat(placed, [o], InRoom(roomId));
    assert [o][1..] == [];
  }

  /** The registry composable. The room list and the selected floor token belong to the caller
      and are passed to each operation that reads them; `scene` logs the commands sent to the
      external scene. */
  class Manager {
    var placedObjects: seq<Instance>
    var scene: seq<SceneEvent>
    const floorHeight: real

    constructor (floorHeight: real)
      ensures placedObjects == [] && scene == [] && this.floorHeight == floorHeight
    {
      placedObjects := [];
      scene := [];
      this.floorHeight := floorHeight;
    }

    /** Places `modelData` in `room` at offset `(x, z)`. `loaded` is the outcome of loading the
        model, which happens before anything changes; `newId` is the generated instance id. On
        failure nothing changes and the result is null. */
    method PlaceModelInRoom(modelData: ModelEntry, room: Room, x: real, z: real,
                            loaded: Result<Node>, newId: InstanceId)
      returns (r: Option<Instance>)
      modifies this
      ensures loaded.Err? ==> r.None? && placedObjects == old(placedObjects) && scene == old(scene)
      ensures loaded.Ok? ==>
        r == Some(Instance(newId, room.id, modelData, loaded.value,
                           PlacementPosition(room, x, z, floorHeight), 1.0))
        && placedObjects == old(placedObjects) + [r.value]
        && scene == old(scene) + [Added(newId)]
      ensures loaded.Ok? ==>
        r.value.position == Vec3(room.x + x, room.floorIndex as real * floorHeight + 0.5, room.z + z)
        && r.value.roomId == room.id && r.value.scale == 1.0
      ensures UniqueIds(old(placedObjects))
              && (forall j :: 0 <= j < |old(placedObjects)| ==> old(placedObjects)[j].id != newId)
              ==> UniqueIds(placedObjects)
    {
      match loaded {
        case Err(_) =>
          return None;
        case Ok(model) =>
          var position := PlacementPosition(room, x, z, floorHeight);
          var o := Instance(newId, room.id, modelData, model, position, 1.0);
          scene := scene + [Added(newId)];
          placedObjects := placedObjects + [o];
          return Some(o);
      }
    }

    /** Shows the instances on the selected floor, or all of them when none is selected. */
    method UpdateModelVisibility(rooms: seq<Room>, selectedFloor: Option<string>)
      modifies this
      ensures placedObjects == Refreshed(old(placedObjects), rooms, FloorFilterOf(selectedFloor))
      ensures scene == old(scene)
    {
      var f := FloorFilterOf(selectedFloor);
      if f.OnFloor? {
        ShowFloor(rooms, f.index);
      } else {
        ShowAll(rooms);
      }
    }

    /** The filtered branch: every instance whose room exists is shown exactly when that room is
        on floor `index`; an instance whose room is missing is left alone. */
    method ShowFloor(rooms: seq<Room>, index: Option<int>)
      modifies this
      ensures placedObjects == Refreshed(old(placedObjects), rooms, OnFloor(index))
      ensures scene == old(scene)
    {
      ghost var start := placedObjects;
      var objects := placedObjects;
      var i := 0;
      while i < |objects|
        invariant 0 <= i <= |objects| == |start|
        invariant forall j :: 0 <= j < i ==> objects[j] == RefreshOne(start[j], rooms, OnFloor(index))
        invariant forall j :: i <= j < |objects| ==> objects[j] == start[j]
      {
        var o := objects[i];
        var room := RoomById(rooms, o.roomId);
        if room.Some? {
          objects := objects[i := o.WithVisibility(index == Some(room.value.floorIndex))];
        }
        i := i + 1;
      }
      RefreshedAt(start, rooms, OnFloor(index), objects);
      placedObjects := objects;
    }

    /** The unfiltered branch: every instance is shown. */
    method ShowAll(rooms: seq<Room>)
      modifies this
      ensures placedObjects == Refreshed(old(placedObjects), rooms, AllFloors)
      ensures scene == old(scene)
    {
      ghost var start := placedObjects;
      var objects := placedObjects;
      var i := 0;
      while i < |objects|
        invariant 0 <= i <= |objects| == |start|
        invariant forall j :: 0 <= j < i ==> objects[j] == RefreshOne(start[j], rooms, AllFloors)
        invariant forall j :: i <= j < |objects| ==> objects[j] == start[j]
      {
        objects := objects[i := objects[i].WithVisibility(true)];
        i := i + 1;
      }
      RefreshedAt(start, rooms, AllFloors, objects);
      placedObjects := objects;
    }

    /** Removes every instance of room `roomId`: each is first removed from the scene and its
        resources disposed, then the list is spliced from the back. */
    method CleanupRoomModels(roomId: RoomId)
      modifies this
      ensures placedObjects == WithoutRoom(old(placedObjects), roomId)
      ensures scene == old(scene) + ReleaseLog(ModelsInRoom(old(placedObjects), roomId))
      ensures UniqueIds(old(placedObjects)) ==> UniqueIds(placedObjects)
    {
      var roomModels := ModelsInRoom(placedObjects, roomId);
      var k := 0;
      while k < |roomModels|
        invariant 0 <= k <= |roomModels|
        invariant scene == old(scene) + ReleaseLog(roomModels[..k])
        invariant placedObjects == old(placedObjects)
      {
        ReleaseLogConcat(roomModels[..k], [roomModels[k]]);
        assert roomModels[..k + 1] == roomModels[..k] + [roomModels[k]];
        scene := scene + [Removed(roomModels[k].id), Disposed(roomModels[k].id)];
        k := k + 1;
      }
      assert roomModels[..k] == roomModels;
      var i := |placedObjects|;
      while i > 0
        invariant 0 <= i <= |old(placedObjects)|
        invariant placedObjects == old(placedObjects)[..i] + WithoutRoom(old(placedObjects)[i..], roomId)
        invariant scene == old(scene) + ReleaseLog(roomModels)
      {
        i := i - 1;
        SpliceStep(old(placedObjects), i, roomId, placedObjects);
        if placedObjects[i].roomId == roomId {
          placedObjects := placedObjects[..i] + placedObjects[i + 1..];
        }
      }
      assert old(placedObjects)[0..] == old(placedObjects);
      if UniqueIds(old(placedObjects)) {
        FilterKeepsUniqueIds(old(placedObjects), NotInRoom(roomId));
      }
    }

    /** Removes the first instance with id `modelId` from the scene, disposes it and drops it from
        the list; an unknown id changes nothing. */
    method RemoveModel(modelId: InstanceId)
      modifies this
      ensures placedObjects == RemoveFirstById(old(placedObjects), modelId)
      ensures scene == old(scene) + match FindFirst(old(placedObjects), HasId(modelId))
                                    case None => []
                                    case Some(k) => ReleaseLog([old(placedObjects)[k]])
    {
      var modelIndex := FindFirst(placedObjects, HasId(modelId));
      if modelIndex.Some? {
        var model := placedObjects[modelIndex.value];
        scene := scene + [Removed(model.id), Disposed(model.id)];
        placedObjects := placedObjects[..modelIndex.value] + placedObjects[modelIndex.value + 1..];
      }
    }
  }
}
