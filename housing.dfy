/**
  What the allocation, profile and room handlers share: the room-status rule,
  the field updates that bind a tenant to a bed or unbind them, and the
  consistency the allocation handlers maintain between beds, rooms and
  profiles.
*/
module Housing {
  import opened Wrappers
  import opened Models
  import opened Store

  /** The unoccupied beds whose `room` is `r`: what `Bed.countDocuments({ room, isOccupied: false })` counts. */
  function FreeBeds(beds: map<BedId, Bed>, r: RoomId): set<BedId> {
    set b | b in beds && beds[b].room == r && !beds[b].isOccupied
  }

  /** `remainingFreeBeds === 0 ? "Full" : "Available"`. */
  function StatusFor(beds: map<BedId, Bed>, r: RoomId): (s: string)
    ensures s == FULL <==> FreeBeds(beds, r) == {}
    ensures s == AVAILABLE <==> FreeBeds(beds, r) != {}
  {
    if |FreeBeds(beds, r)| == 0 then FULL else AVAILABLE
  }

  /** Replacing one bed changes the free beds of a room by that bed alone. */
  lemma FreeBedsUpdate(beds: map<BedId, Bed>, b: BedId, x: Bed, r: RoomId)
    ensures FreeBeds(beds[b := x], r) ==
            (FreeBeds(beds, r) - {b}) + (if x.room == r && !x.isOccupied then {b} else {})
  {
  }

  /** A bed of another room leaves the free beds, and so the status, of `r` unchanged. */
  lemma StatusOtherRoom(beds: map<BedId, Bed>, b: BedId, x: Bed, r: RoomId)
    requires b in beds ==> beds[b].room != r
    requires x.room != r
    ensures FreeBeds(beds[b := x], r) == FreeBeds(beds, r)
    ensures StatusFor(beds[b := x], r) == StatusFor(beds, r)
  {
    FreeBedsUpdate(beds, b, x, r);
    assert b !in FreeBeds(beds, r);
  }

  /** Rooms in `touched` get their status recomputed from `beds`; the others keep theirs. */
  function Recalculated(rooms: map<RoomId, Room>, beds: map<BedId, Bed>, touched: set<RoomId>): map<RoomId, Room> {
    map r | r in rooms :: if r in touched then rooms[r].(status := StatusFor(beds, r)) else rooms[r]
  }

  /** The bed marked occupied by `u`. */
  function Occupied(bed: Bed, u: UserId): Bed {
    bed.(isOccupied := true, occupant := Some(u))
  }

  /** The bed marked free (`isOccupied = false`, `occupant = null`). */
  function Vacated(bed: Bed): Bed {
    bed.(isOccupied := false, occupant := None)
  }

  /**
    The profile after claiming bed `b`: the bed's id, room and label are
    copied, and the room's number and rent when the room record exists.
  */
  function Assigned(p: UserProfile, b: BedId, bed: Bed, room: Option<Room>): (q: UserProfile)
    ensures q.allocatedBed == Some(b) && q.allocatedRoom == Some(bed.room) && q.bedNumber == Some(bed.bedNumber)
    ensures room.Some? ==> q.roomNumber == Some(room.value.roomNumber) && q.rentAmount == Some(room.value.rentAmount)
    ensures room.None? ==> q.roomNumber == p.roomNumber && q.rentAmount == p.rentAmount
    ensures q.fullName == p.fullName && q.phone == p.phone && q.joinedDate == p.joinedDate && q.isActive == p.isActive
  {
    var q := p.(allocatedBed := Some(b), allocatedRoom := Some(bed.room), bedNumber := Some(bed.bedNumber));
    match room
    case Some(rm) => q.(roomNumber := Some(rm.roomNumber), rentAmount := Some(rm.rentAmount))
    case None => q
  }

  function RoomOf(rooms: map<RoomId, Room>, r: RoomId): Option<Room> {
    if r in rooms then Some(rooms[r]) else None
  }

  /** User `u` holds bed `b`: its profile points at the bed and at the bed's room. */
  ghost predicate Holds(t: Tenancy, u: UserId, b: BedId)
    requires b in t.beds
  {
    u in t.users && t.users[u].allocatedBed == Some(b) && t.users[u].allocatedRoom == Some(t.beds[b].room)
  }

  /** Every bed's room record exists, the first clause of `Consistent`. */
  predicate BedsHaveRooms(t: Tenancy) {
    forall b | b in t.beds :: t.beds[b].room in t.rooms
  }

  /**
    The consistency the allocation handlers keep:
    every bed belongs to a stored room; a bed is occupied exactly when it has
    an occupant; occupant and `allocatedBed` point at each other; a profile
    without a bed has no room; and every room's status is the one derived
    from its beds.
  */
  ghost predicate Consistent(t: Tenancy) {
    && (forall b | b in t.beds :: t.beds[b].room in t.rooms)
    && (forall b | b in t.beds :: t.beds[b].isOccupied <==> t.beds[b].occupant.Some?)
    && (forall b | b in t.beds && t.beds[b].occupant.Some? :: Holds(t, t.beds[b].occupant.value, b))
    && (forall u | u in t.users && t.users[u].allocatedBed.Some? ::
          t.users[u].allocatedBed.value in t.beds && t.beds[t.users[u].allocatedBed.value].occupant == Some(u))
    && (forall u | u in t.users && t.users[u].allocatedBed.None? :: t.users[u].allocatedRoom.None?)
    && (forall r | r in t.rooms :: t.rooms[r].status == StatusFor(t.beds, r))
  }

  /** In a consistent state a tenant holds at most one bed. */
  lemma AtMostOneBed(t: Tenancy, u: UserId, b1: BedId, b2: BedId)
    requires Consistent(t)
    requires b1 in t.beds && b2 in t.beds
    requires t.beds[b1].occupant == Some(u) && t.beds[b2].occupant == Some(u)
    ensures b1 == b2
  {
    assert Holds(t, u, b1) && Holds(t, u, b2);
  }

  /** In a consistent state a room is "Full" exactly when every one of its beds is occupied. */
  lemma FullIffAllOccupied(t: Tenancy, r: RoomId)
    requires Consistent(t) && r in t.rooms
    ensures t.rooms[r].status == FULL <==> (forall b | b in t.beds && t.beds[b].room == r :: t.beds[b].isOccupied)
  {
    if t.rooms[r].status == FULL {
      forall b | b in t.beds && t.beds[b].room == r ensures t.beds[b].isOccupied {
        assert b !in FreeBeds(t.beds, r);
      }
    } else {
      var b :| b in FreeBeds(t.beds, r);
      assert !t.beds[b].isOccupied;
    }
  }
}
