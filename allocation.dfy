/**
  Bed allocation (routes/allocationRoutes.js): the two availability queries
  and the two transactional handlers that bind a tenant to a bed and release
  it. Each transaction reads and writes a session view of the beds, rooms and
  profiles and either commits all its writes or aborts with the store as it
  was.
*/
module Allocation {
  import opened Wrappers
  import opened Models
  import opened Store
  import opened Housing

  /** `/available-rooms`: each room with at least one unoccupied bed, with its count of unoccupied beds. */
  function AvailableRooms(t: Tenancy): (m: map<RoomId, nat>)
    ensures forall r :: r in m <==> r in t.rooms && FreeBeds(t.beds, r) != {}
    ensures forall r | r in m :: m[r] == |FreeBeds(t.beds, r)| && m[r] > 0
  {
    map r | r in t.rooms && |FreeBeds(t.beds, r)| > 0 :: |FreeBeds(t.beds, r)|
  }

  /** `/available-beds`: the unoccupied beds, restricted to one room when `roomId` is given. */
  function AvailableBeds(beds: map<BedId, Bed>, roomId: Option<RoomId>): (s: set<BedId>)
    ensures forall b :: b in s <==> b in beds && !beds[b].isOccupied && (roomId.Some? ==> beds[b].room == roomId.value)
  {
    set b | b in beds && !beds[b].isOccupied && (roomId.Some? ==> beds[b].room == roomId.value)
  }

  /** The two queries agree: a room is listed as available exactly when it has a bed listed as available. */
  lemma AvailableRoomsHaveAvailableBeds(t: Tenancy, r: RoomId)
    requires r in t.rooms
    ensures r in AvailableRooms(t) <==> AvailableBeds(t.beds, Some(r)) != {}
  {
    assert AvailableBeds(t.beds, Some(r)) == FreeBeds(t.beds, r);
  }

  /** In a consistent state the query computed from the beds agrees with the stored room status. */
  lemma AvailableRoomsMatchStatus(t: Tenancy, r: RoomId)
    requires Consistent(t) && r in t.rooms
    ensures r in AvailableRooms(t) <==> t.rooms[r].status == AVAILABLE
    ensures r !in AvailableRooms(t) <==> t.rooms[r].status == FULL
  {
  }

  /** The conditions under which `/allocate-bed` commits. */
  predicate CanAllocate(t: Tenancy, u: UserId, b: BedId) {
    && b in t.beds && !t.beds[b].isOccupied
    && u in t.users && t.users[u].allocatedBed.None?
    && t.beds[b].room in t.rooms
  }

  /**
    `/allocate-bed`: the bed must exist and be free, the user must exist and
    hold no bed; then the bed is occupied by the user, the profile copies the
    bed's and room's fields, and the room's status is recomputed. A missing
    room record aborts the transaction when its status is written.
  */
  function Allocate(t: Tenancy, userId: Option<UserId>, bedId: Option<BedId>): (r: Result<Tenancy, Error>)
    ensures r.Success? <==> userId.Some? && bedId.Some? && CanAllocate(t, userId.value, bedId.value)
    ensures r.Success? ==>
              var u, b := userId.value, bedId.value;
              var room := t.beds[b].room;
              && r.value.beds == t.beds[b := t.beds[b].(isOccupied := true, occupant := Some(u))]
              && r.value.users.Keys == t.users.Keys
              && r.value.users[u] == t.users[u].(allocatedBed := Some(b), allocatedRoom := Some(room),
                                                  bedNumber := Some(t.beds[b].bedNumber),
                                                  roomNumber := Some(t.rooms[room].roomNumber),
                                                  rentAmount := Some(t.rooms[room].rentAmount))
              && (forall v | v in t.users && v != u :: r.value.users[v] == t.users[v])
              && r.value.rooms.Keys == t.rooms.Keys
              && (r.value.rooms[room].status == FULL <==> FreeBeds(r.value.beds, room) == {})
              && (r.value.rooms[room].status == AVAILABLE <==> FreeBeds(r.value.beds, room) != {})
              && r.value.rooms[room] == t.rooms[room].(status := r.value.rooms[room].status)
              && (forall q | q in t.rooms && q != room :: r.value.rooms[q] == t.rooms[q])
  {
    if userId.None? || bedId.None? then Failure(MissingIds)
    else
      var u, b := userId.value, bedId.value;
      if b !in t.beds then Failure(BedNotFound)
      else if t.beds[b].isOccupied then Failure(BedOccupied)
      else if u !in t.users then Failure(UserNotFound)
      else if t.users[u].allocatedBed.Some? then Failure(UserAlreadyAllocated)
      else if t.beds[b].room !in t.rooms then Failure(RoomNotFound)
      else
        var bed := Occupied(t.beds[b], u);
        var beds := t.beds[b := bed];
        var user := Assigned(t.users[u], b, bed, Some(t.rooms[bed.room]));
        var rooms := t.rooms[bed.room := t.rooms[bed.room].(status := StatusFor(beds, bed.room))];
        Success(Tenancy(beds, rooms, t.users[u := user]))
  }

  /** The conditions under which `/release-bed` commits. */
  predicate CanRelease(t: Tenancy, u: UserId, b: BedId) {
    && b in t.beds && u in t.users
    && t.beds[b].isOccupied && t.beds[b].occupant == Some(u)
    && t.beds[b].room in t.rooms
  }

  /**
    `/release-bed`: the bed must be occupied by exactly this user; then the
    bed is freed, the five cached allocation fields of the profile are
    cleared and the room's status is recomputed. A missing room record aborts
    the transaction when its status is written.
  */
  function Release(t: Tenancy, userId: Option<UserId>, bedId: Option<BedId>): (r: Result<Tenancy, Error>)
    ensures r.Success? <==> userId.Some? && bedId.Some? && CanRelease(t, userId.value, bedId.value)
    ensures r.Success? ==>
              var u, b := userId.value, bedId.value;
              var room := t.beds[b].room;
              && r.value.beds == t.beds[b := t.beds[b].(isOccupied := false, occupant := None)]
              && r.value.users == t.users[u := ClearAllocation(t.users[u])]
              && r.value.rooms.Keys == t.rooms.Keys
              && (r.value.rooms[room].status == FULL <==> FreeBeds(r.value.beds, room) == {})
              && r.value.rooms[room] == t.rooms[room].(status := AVAILABLE)
              && (forall q | q in t.rooms && q != room :: r.value.rooms[q] == t.rooms[q])
  {
    if userId.None? || bedId.None? then Failure(MissingIds)
    else
      var u, b := userId.value, bedId.value;
      if b !in t.beds || u !in t.users then Failure(BedOrUserNotFound)
      else if !t.beds[b].isOccupied || t.beds[b].occupant != Some(u) then Failure(NotOccupant)
      else if t.beds[b].room !in t.rooms then Failure(RoomNotFound)
      else
        var bed := Vacated(t.beds[b]);
        var beds := t.beds[b := bed];
        assert b in FreeBeds(beds, bed.room);
        var rooms := t.rooms[bed.room := t.rooms[bed.room].(status := StatusFor(beds, bed.room))];
        Success(Tenancy(beds, rooms, t.users[u := ClearAllocation(t.users[u])]))
  }

  /** A committed allocation keeps beds, profiles and room statuses consistent. */
  lemma AllocatePreservesConsistency(t: Tenancy, u: UserId, b: BedId)
    requires Consistent(t) && CanAllocate(t, u, b)
    ensures Consistent(Allocate(t, Some(u), Some(b)).value)
  {
    var t' := Allocate(t, Some(u), Some(b)).value;
    var room := t.beds[b].room;
    assert t.beds[b].occupant == None;
    forall x | x in t'.beds && t'.beds[x].occupant.Some?
      ensures Holds(t', t'.beds[x].occupant.value, x)
    {
      if x != b {
        assert Holds(t, t.beds[x].occupant.value, x);
      }
    }
    forall r | r in t'.rooms ensures t'.rooms[r].status == StatusFor(t'.beds, r) {
      if r != room {
        StatusOtherRoom(t.beds, b, t'.beds[b], r);
      }
    }
  }

  /** A committed release keeps beds, profiles and room statuses consistent. */
  lemma ReleasePreservesConsistency(t: Tenancy, u: UserId, b: BedId)
    requires Consistent(t) && CanRelease(t, u, b)
    ensures Consistent(Release(t, Some(u), Some(b)).value)
  {
    var t' := Release(t, Some(u), Some(b)).value;
    var room := t.beds[b].room;
    assert Holds(t, u, b);
    forall x | x in t'.beds && t'.beds[x].occupant.Some?
      ensures Holds(t', t'.beds[x].occupant.value, x)
    {
      assert x != b;
      assert Holds(t, t.beds[x].occupant.value, x);
      if t.beds[x].occupant.value == u {
        AtMostOneBed(t, u, x, b);
      }
    }
    forall v | v in t'.users && t'.users[v].allocatedBed.Some?
      ensures t'.users[v].allocatedBed.value in t'.beds && t'.beds[t'.users[v].allocatedBed.value].occupant == Some(v)
    {
      assert v != u;
    }
    forall r | r in t'.rooms ensures t'.rooms[r].status == StatusFor(t'.beds, r) {
      if r != room {
        StatusOtherRoom(t.beds, b, t'.beds[b], r);
      }
    }
  }

  /**
    Releasing right after allocating restores the store, except that the
    tenant's cached allocation fields are now all unset.
  */
  lemma ReleaseUndoesAllocate(t: Tenancy, u: UserId, b: BedId)
    requires Consistent(t) && CanAllocate(t, u, b)
    ensures Release(Allocate(t, Some(u), Some(b)).value, Some(u), Some(b))
            == Success(t.(users := t.users[u := ClearAllocation(t.users[u])]))
  {
    var t1 := Allocate(t, Some(u), Some(b)).value;
    var t2 := Release(t1, Some(u), Some(b)).value;
    var room := t.beds[b].room;
    assert t.beds[b].occupant == None;
    assert t2.beds == t.beds;
    assert t2.rooms[room] == t.rooms[room];
    assert t2.rooms == t.rooms;
    assert ClearAllocation(t1.users[u]) == ClearAllocation(t.users[u]);
    assert t2.users == t.users[u := ClearAllocation(t.users[u])];
  }

  /**
    Of two allocations of the same bed, run one after the other as the
    store's isolation serialises them, only the first can commit: the second
    finds the bed occupied.
  */
  lemma SecondAllocationFails(t: Tenancy, u: UserId, v: UserId, b: BedId)
    requires CanAllocate(t, u, b)
    ensures Allocate(Allocate(t, Some(u), Some(b)).value, Some(v), Some(b)) == Failure(BedOccupied)
  {
  }

  /** `Bed.countDocuments({ room, isOccupied: false })`. */
  method CountFreeBeds(beds: map<BedId, Bed>, room: RoomId) returns (n: nat)
    ensures n == |FreeBeds(beds, room)|
  {
    n := 0;
    var todo := beds.Keys;
    ghost var counted: set<BedId> := {};
    while todo != {}
      invariant todo <= beds.Keys
      invariant counted == FreeBeds(beds, room) - todo
      invariant n == |counted|
      decreases todo
    {
      var b :| b in todo;
      if beds[b].room == room && !beds[b].isOccupied {
        n := n + 1;
        counted := counted + {b};
      }
      todo := todo - {b};
    }
  }

  /** POST `/allocate-bed`. */
  method AllocateBed(db: Db, userId: Option<UserId>, bedId: Option<BedId>) returns (r: Outcome<Error>)
    requires db.Valid()
    modifies db
    ensures db.Valid()
    ensures db.payments == old(db.payments) && db.nextId == old(db.nextId)
    ensures var expected := Allocate(old(db.State()), userId, bedId);
            && (expected.Success? ==> r == Pass && db.State() == expected.value)
            && (expected.Failure? ==> r == Fail(expected.error) && db.State() == old(db.State()))
  {
    if userId.None? || bedId.None? {
      return Fail(MissingIds);
    }
    var u, b := userId.value, bedId.value;
    // the session's view of the three collections
    var beds, rooms, users := db.beds, db.rooms, db.users;
    if b !in beds {
      return Fail(BedNotFound);
    }
    var bed := beds[b];
    if bed.isOccupied {
      return Fail(BedOccupied);
    }
    if u !in users {
      return Fail(UserNotFound);
    }
    var user := users[u];
    if user.allocatedBed.Some? {
      return Fail(UserAlreadyAllocated);
    }
    bed := bed.(isOccupied := true);
    bed := bed.(occupant := Some(u));
    beds := beds[b := bed];
    user := user.(allocatedBed := Some(b));
    user := user.(allocatedRoom := Some(bed.room));
    user := user.(bedNumber := Some(bed.bedNumber));
    var room := RoomOf(rooms, bed.room);
    if room.Some? {
      user := user.(roomNumber := Some(room.value.roomNumber));
      user := user.(rentAmount := Some(room.value.rentAmount));
    }
    users := users[u := user];
    var remainingFreeBeds := CountFreeBeds(beds, bed.room);
    if room.None? {
      // `room.status = ...` on a null room throws: the transaction aborts
      return Fail(RoomNotFound);
    }
    rooms := rooms[bed.room := room.value.(status := if remainingFreeBeds == 0 then FULL else AVAILABLE)];
    // commit
    db.beds, db.rooms, db.users := beds, rooms, users;
    r := Pass;
  }

  /** POST `/release-bed`. */
  method ReleaseBed(db: Db, userId: Option<UserId>, bedId: Option<BedId>) returns (r: Outcome<Error>)
    requires db.Valid()
    modifies db
    ensures db.Valid()
    ensures db.payments == old(db.payments) && db.nextId == old(db.nextId)
    ensures var expected := Release(old(db.State()), userId, bedId);
            && (expected.Success? ==> r == Pass && db.State() == expected.value)
            && (expected.Failure? ==> r == Fail(expected.error) && db.State() == old(db.State()))
  {
    if userId.None? || bedId.None? {
      return Fail(MissingIds);
    }
    var u, b := userId.value, bedId.value;
    var beds, rooms, users := db.beds, db.rooms, db.users;
    if b !in beds || u !in users {
      return Fail(BedOrUserNotFound);
    }
    var bed, user := beds[b], users[u];
    if !bed.isOccupied || bed.occupant != Some(u) {
      return Fail(NotOccupant);
    }
    bed := bed.(isOccupied := false);
    bed := bed.(occupant := None);
    beds := beds[b := bed];
    user := user.(allocatedBed := None, allocatedRoom := None, bedNumber := None);
    user := user.(roomNumber := None, rentAmount := None);
    users := users[u := user];
    var room := RoomOf(rooms, bed.room);
    var remainingFreeBeds := CountFreeBeds(beds, bed.room);
    if room.None? {
      return Fail(RoomNotFound);
    }
    rooms := rooms[bed.room := room.value.(status := if remainingFreeBeds == 0 then FULL else AVAILABLE)];
    db.beds, db.rooms, db.users := beds, rooms, users;
    r := Pass;
  }
}
