/** The interaction dispatcher: interprets clicks on the floor plate, on room elements and on
    placed models, using the time and floor of the last floor-plate click. */
module Interaction {
  import opened Wrappers
  import opened Rooms
  import opened ModelLoader
  import opened ModelManager
  import opened Seqs

  /** Two floor-plate clicks closer than this many milliseconds form a double click. */
  const ClickDelay: int := 300

  /** The object a pointer ray hit, by the `type` tag in its user data. */
  datatype HitObject =
    | FloorBase(floorIndex: int)
    | Handle(handleType: string)
    | RoomFloor
    | PlacedModel(instance: Instance)
    | OtherObject

  /** A ray intersection: what was hit and where, in world coordinates. */
  datatype Intersect = Intersect(target: HitObject, point: Vec3)

  /** The action records the room and model handlers return. */
  datatype Action =
    | Resize(dragType: string, room: Room)
    | Move(dragType: string, room: Room)
    | SelectModel(model: HitObject)

  /** A call of one of the callbacks the dispatcher was created with. */
  datatype Callback =
    | PlaceModel(model: ModelEntry, room: Room, relativeX: real, relativeZ: real)
    | SelectRoom(selection: Option<Room>)
    | UpdateFloorVisibility

  /** The room test of a floor-plate double click: on that floor, the point inside its bounds. */
  function ContainsClick(floorIndex: int, point: Vec3): Room -> bool
  {
    (r: Room) => r.floorIndex == floorIndex && ContainsPoint(r, point.x, point.z)
  }

  /** The position of the first room on `floorIndex` containing `point`, if any. */
  function ContainingRoom(rooms: seq<Room>, floorIndex: int, point: Vec3): (r: Option<nat>)
    ensures r.Some? ==> r.value < |rooms| && rooms[r.value].floorIndex == floorIndex
                        && ContainsPoint(rooms[r.value], point.x, point.z)
    ensures r.Some? ==> forall j :: 0 <= j < r.value ==>
      !(rooms[j].floorIndex == floorIndex && ContainsPoint(rooms[j], point.x, point.z))
    ensures r.None? <==> forall j :: 0 <= j < |rooms| ==>
      !(rooms[j].floorIndex == floorIndex && ContainsPoint(rooms[j], point.x, point.z))
  {
    FindFirst(rooms, ContainsClick(floorIndex, point))
  }

  /** A model placed with the offsets a double click computes lands exactly on the clicked point,
      half a unit above the room's floor. */
  lemma ClickPlacementLandsOnPoint(room: Room, point: Vec3, floorHeight: real)
    ensures PlacementPosition(room, point.x - room.x, point.z - room.z, floorHeight)
            == Vec3(point.x, room.floorIndex as real * floorHeight + 0.5, point.z)
  {
  }

  /** `handleModelClick`: a hit on a placed model selects it; any other hit yields no action. */
  function HandleModelClick(intersect: Intersect): (r: Option<Action>)
    ensures r.Some? <==> intersect.target.PlacedModel?
    ensures r.Some? ==> r.value == SelectModel(intersect.target)
  {
    if intersect.target.PlacedModel? then Some(SelectModel(intersect.target)) else None
  }

  /** The closure state of one dispatcher and the callbacks it has invoked. `rooms` is the room
      list the dispatcher appends new rooms to; `roomWidth` and `roomDepth` are the extents the
      external `Room` constructor gives a new room. */
  class Handler {
    var rooms: seq<Room>
    var lastClickedFloorIndex: Option<int>
    var lastClickTime: int
    var calls: seq<Callback>
    const roomWidth: real
    const roomDepth: real

    constructor (rooms: seq<Room>, roomWidth: real, roomDepth: real)
      ensures this.rooms == rooms && this.roomWidth == roomWidth && this.roomDepth == roomDepth
      ensures lastClickedFloorIndex == None && lastClickTime == 0 && calls == []
    {
      this.rooms := rooms;
      this.roomWidth := roomWidth;
      this.roomDepth := roomDepth;
      lastClickedFloorIndex := None;
      lastClickTime := 0;
      calls := [];
    }

    /** A floor-plate click at `currentTime` on `floorIndex` completes a double click. */
    predicate IsRepeatClick(floorIndex: int, currentTime: int)
      reads this
    {
      currentTime - lastClickTime < ClickDelay && lastClickedFloorIndex == Some(floorIndex)
    }

    /** The room the external constructor builds for a click at `point` on `floorIndex`. */
    function NewRoom(id: RoomId, point: Vec3, floorIndex: int): Room
      reads this
    {
      Room(id, point.x, point.z, roomWidth, roomDepth, floorIndex)
    }

    /** `handleFloorBaseClick`. A double click places the selected model in the first room on
        that floor containing the point, or, with no model selected, creates a room there (with
        id `newRoomId`), selects it and refreshes floor visibility; any other click clears the
        room selection. Every click becomes the baseline for the next one. */
    method HandleFloorBaseClick(intersect: Intersect, currentTime: int,
                                selectedModel: Option<ModelEntry>, newRoomId: RoomId)
      requires intersect.target.FloorBase?
      modifies this
      ensures lastClickedFloorIndex == Some(intersect.target.floorIndex)
      ensures lastClickTime == currentTime
      ensures !old(IsRepeatClick(intersect.target.floorIndex, currentTime)) ==>
        rooms == old(rooms) && calls == old(calls) + [SelectRoom(None)]
      ensures old(IsRepeatClick(intersect.target.floorIndex, currentTime)) && selectedModel.Some? ==>
        rooms == old(rooms)
        && calls == old(calls) +
             match ContainingRoom(old(rooms), intersect.target.floorIndex, intersect.point)
             case None => []
             case Some(k) =>
               [PlaceModel(selectedModel.value, old(rooms)[k],
                           intersect.point.x - old(rooms)[k].x, intersect.point.z - old(rooms)[k].z)]
      ensures old(IsRepeatClick(intersect.target.floorIndex, currentTime)) && selectedModel.None? ==>
        rooms == old(rooms) + [NewRoom(newRoomId, intersect.point, intersect.target.floorIndex)]
        && calls == old(calls) + [SelectRoom(Some(NewRoom(newRoomId, intersect.point,
                                                          intersect.target.floorIndex))),
                                  UpdateFloorVisibility]
    {
      var floorIndex := intersect.target.floorIndex;
      if currentTime - lastClickTime < ClickDelay && lastClickedFloorIndex == Some(floorIndex) {
        var point := intersect.point;
        if selectedModel.Some? {
          var found := ContainingRoom(rooms, floorIndex, point);
          if found.Some? {
            var room := rooms[found.value];
            var relativeX := point.x - room.x;
            var relativeZ := point.z - room.z;
            calls := calls + [PlaceModel(selectedModel.value, room, relativeX, relativeZ)];
          }
        } else {
          var newRoom := NewRoom(newRoomId, point, floorIndex);
          rooms := rooms + [newRoom];
          calls := calls + [SelectRoom(Some(newRoom))];
          calls := calls + [UpdateFloorVisibility];
        }
      } else {
        calls := calls + [SelectRoom(None)];
      }
      lastClickedFloorIndex := Some(floorIndex);
      lastClickTime := currentTime;
    }

    /** `handleRoomClick`: a handle always starts a resize of that kind; a click on a room's floor
        starts a move unless it comes within the double-click window of the last floor-plate
        click; anything else yields no action. */
    function HandleRoomClick(intersect: Intersect, room: Room, currentTime: int): (r: Option<Action>)
      reads this
      ensures intersect.target.Handle? ==> r == Some(Resize(intersect.target.handleType, room))
      ensures intersect.target.RoomFloor? ==>
        (r.None? <==> currentTime - lastClickTime < ClickDelay)
        && (r.Some? ==> r.value == Move("move", room))
      ensures !intersect.target.Handle? && !intersect.target.RoomFloor? ==> r.None?
    {
      match intersect.target
      case Handle(handleType) => Some(Resize(handleType, room))
      case RoomFloor =>
        if currentTime - lastClickTime < ClickDelay then None else Some(Move("move", room))
      case _ => None
    }
  }

  /** A resize does not depend on timing, and once a move is allowed it stays allowed later. */
  lemma RoomClickTiming(h: Handler, intersect: Intersect, room: Room, t1: int, t2: int)
    ensures intersect.target.Handle? ==>
      h.HandleRoomClick(intersect, room, t1) == h.HandleRoomClick(intersect, room, t2)
    ensures intersect.target.RoomFloor? && t1 <= t2 && h.HandleRoomClick(intersect, room, t1).Some? ==>
      h.HandleRoomClick(intersect, room, t2) == h.HandleRoomClick(intersect, room, t1)
  {
  }

  /** A room click depends on the last floor-plate click only through its time: two dispatchers
      whose last clicks were at the same time answer alike, whichever floors those clicks were on. */
  lemma RoomClickIgnoresFloor(h1: Handler, h2: Handler, intersect: Intersect, room: Room, t: int)
    requires h1.lastClickTime == h2.lastClickTime
    ensures h1.HandleRoomClick(intersect, room, t) == h2.HandleRoomClick(intersect, room, t)
  {
  }

  /** Two clicks 250 ms apart on the same spot of floor 0, with no model selected and no earlier
      click: the first only clears the selection, the second creates one room there and selects it. */
  method DoubleClickCreatesRoom(width: real, depth: real) returns (h: Handler)
    ensures h.rooms == [Room("room-1", 2.0, 3.0, width, depth, 0)]
    ensures h.calls == [SelectRoom(None), SelectRoom(Some(Room("room-1", 2.0, 3.0, width, depth, 0))),
                        UpdateFloorVisibility]
  {
    h := new Handler([], width, depth);
    var click := Intersect(FloorBase(0), Vec3(2.0, 0.0, 3.0));
    h.HandleFloorBaseClick(click, 0, None, "room-1");
    h.HandleFloorBaseClick(click, 250, None, "room-1");
  }

  /** A second click 400 ms after the first is no double click: no room, the selection cleared twice. */
  method LateSecondClickCreatesNothing(width: real, depth: real) returns (h: Handler)
    ensures h.rooms == []
    ensures h.calls == [SelectRoom(None), SelectRoom(None)]
  {
    h := new Handler([], width, depth);
    var click := Intersect(FloorBase(0), Vec3(2.0, 0.0, 3.0));
    h.HandleFloorBaseClick(click, 0, None, "room-1");
    h.HandleFloorBaseClick(click, 400, None, "room-1");
  }

  /** A room-floor click 200 ms after a floor-plate click is ignored; 300 ms after it, it moves. */
  method MoveSuppressedAfterFloorClick(room: Room) returns (early: Option<Action>, late: Option<Action>)
    ensures early == None
    ensures late == Some(Move("move", room))
  {
    var h := new Handler([room], 4.0, 4.0);
    h.HandleFloorBaseClick(Intersect(FloorBase(0), Vec3(10.0, 0.0, 10.0)), 1000, None, "room-x");
    early := h.HandleRoomClick(Intersect(RoomFloor, Vec3(0.0, 0.0, 0.0)), room, 1200);
    late := h.HandleRoomClick(Intersect(RoomFloor, Vec3(0.0, 0.0, 0.0)), room, 1300);
  }

  /** With a model selected and a 4 × 3 room centred at the origin of floor 1 (floor height 3), a
      double click at (1, 0.5) asks to place the model at offset (1, 0.5); placing it puts the
      model at (1, 3.5, 0.5). */
  method DoubleClickPlacesModel(m: ModelEntry, scene: Node) returns (h: Handler, placed: Option<Instance>)
    ensures h.rooms == [Room("R", 0.0, 0.0, 4.0, 3.0, 1)]
    ensures h.calls == [SelectRoom(None), PlaceModel(m, Room("R", 0.0, 0.0, 4.0, 3.0, 1), 1.0, 0.5)]
    ensures placed.Some? && placed.value.position == Vec3(1.0, 3.5, 0.5)
  {
    var room := Room("R", 0.0, 0.0, 4.0, 3.0, 1);
    h := new Handler([room], 4.0, 4.0);
    var click := Intersect(FloorBase(1), Vec3(1.0, 0.0, 0.5));
    h.HandleFloorBaseClick(click, 0, Some(m), "unused");
    h.HandleFloorBaseClick(click, 100, Some(m), "unused");
    assert ContainingRoom([room], 1, click.point) == Some(0);
    var manager := new Manager(3.0);
    placed := manager.PlaceModelInRoom(m, room, 1.0, 0.5, Ok(scene), "model-1");
  }
}
