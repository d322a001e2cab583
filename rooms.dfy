/** The room records the core consumes (the `Room` class itself is external) and the world
    coordinates it works in. Coordinates are exact reals. */
module Rooms {
  import opened Wrappers
  import Seqs

  type RoomId = string

  datatype Vec3 = Vec3(x: real, y: real, z: real)

  /** A room: centre `(x, z)` on the ground plane, extents `width` × `depth`, level `floorIndex`. */
  datatype Room = Room(id: RoomId, x: real, z: real, width: real, depth: real, floorIndex: int)

  function Abs(v: real): real
  {
    if v < 0.0 then -v else v
  }

  /** The point lies inside the room's rectangle, borders included. */
  predicate ContainsPoint(r: Room, px: real, pz: real)
  {
    Abs(px - r.x) <= r.width / 2.0 && Abs(pz - r.z) <= r.depth / 2.0
  }

  /** `rooms.find(r => r.id === id)`. */
  function RoomById(rooms: seq<Room>, id: RoomId): (r: Option<Room>)
    ensures r.Some? ==> r.value in rooms && r.value.id == id
    ensures r.None? <==> forall j :: 0 <= j < |rooms| ==> rooms[j].id != id
    ensures r.Some? ==> exists k :: 0 <= k < |rooms| && rooms[k] == r.value
                                    && forall j :: 0 <= j < k ==> rooms[j].id != id
  {
    Seqs.Find(rooms, (room: Room) => room.id == id)
  }
}
