/**
  Tenant profiles (routes/userProfileRoutes.js): creating a profile, with or
  without claiming a bed in the same transaction, and updating one, which
  may release its bed, move it to another bed, and recompute the status of
  every room whose beds changed.
*/
module Profiles {
  import opened Wrappers
  import opened Calendar
  import opened Models
  import opened Store
  import opened Housing
  import opened Allocation
  import opened PaymentService

  // ---------------------------------------------------------------------
  // Create
  // ---------------------------------------------------------------------

  /**
    The create-with-bed transaction on the session's view, for the new
    profile `p` stored under `u`: the bed must exist and be free and the
    profile must pass validation; then the bed is occupied by `u`, the
    profile copies the bed's fields and, when the room record exists, the
    room's number and rent, and that room's status is recomputed. A missing
    room record is skipped, not an error.
  */
  function CreateWithBed(t: Tenancy, u: UserId, p: UserProfile, b: BedId): (r: Result<Tenancy, Error>)
    requires u !in t.users
    ensures r.Success? <==> b in t.beds && !t.beds[b].isOccupied && ProfileSavable(p)
    ensures r.Failure? ==> r.error == (if b !in t.beds then BedNotFound
                                       else if t.beds[b].isOccupied then BedOccupied
                                       else ValidationFailed)
    ensures r.Success? ==>
              && r.value.beds == t.beds[b := Occupied(t.beds[b], u)]
              && r.value.users == t.users[u := Assigned(p, b, t.beds[b], RoomOf(t.rooms, t.beds[b].room))]
              && r.value.rooms.Keys == t.rooms.Keys
              && (t.beds[b].room in t.rooms ==> r.value.rooms[t.beds[b].room].status == StatusFor(r.value.beds, t.beds[b].room))
              && (forall q | q in t.rooms && q != t.beds[b].room :: r.value.rooms[q] == t.rooms[q])
  {
    if b !in t.beds then Failure(BedNotFound)
    else if t.beds[b].isOccupied then Failure(BedOccupied)
    else if !ProfileSavable(p) then Failure(ValidationFailed)
    else
      var bed := Occupied(t.beds[b], u);
      var beds := t.beds[b := bed];
      var room := RoomOf(t.rooms, bed.room);
      var rooms := if room.Some? then t.rooms[bed.room := room.value.(status := StatusFor(beds, bed.room))] else t.rooms;
      Success(Tenancy(beds, rooms, t.users[u := Assigned(p, b, bed, room)]))
  }

  /** The store with profile `p` added under the unused id `u`. */
  function WithProfile(t: Tenancy, u: UserId, p: UserProfile): Tenancy {
    t.(users := t.users[u := p])
  }

  /** Adding a profile that holds no bed keeps a consistent store consistent. */
  lemma AddUnallocatedKeepsConsistency(t: Tenancy, u: UserId, p: UserProfile)
    requires Consistent(t) && u !in t.users
    requires p.allocatedBed.None? && p.allocatedRoom.None?
    ensures Consistent(WithProfile(t, u, p))
  {
    var t' := WithProfile(t, u, p);
    forall b | b in t'.beds && t'.beds[b].occupant.Some?
      ensures Holds(t', t'.beds[b].occupant.value, b)
    {
      assert Holds(t, t.beds[b].occupant.value, b);
    }
  }

  /**
    POST `/` without `bedId` stores the body as sent. In a consistent store
    the result is consistent exactly when the body carries neither
    `allocatedBed` nor `allocatedRoom`: a claimed bed is never occupied by
    the new id, and a room without a bed is a dangling reference.
  */
  lemma UnallocatedCreateConsistentIff(t: Tenancy, u: UserId, data: ProfileData, jd: Option<Date>)
    requires Consistent(t) && u !in t.users
    ensures Consistent(WithProfile(t, u, NewProfile(data, jd))) <==> data.allocatedBed.None? && data.allocatedRoom.None?
  {
    var p := NewProfile(data, jd);
    if data.allocatedBed.None? && data.allocatedRoom.None? {
      AddUnallocatedKeepsConsistency(t, u, p);
    } else if data.allocatedBed.Some? {
      var x := data.allocatedBed.value;
      if x in t.beds && t.beds[x].occupant.Some? {
        assert Holds(t, t.beds[x].occupant.value, x);
      }
      assert WithProfile(t, u, p).users[u].allocatedBed == Some(x);
    } else {
      assert WithProfile(t, u, p).users[u].allocatedBed.None? && WithProfile(t, u, p).users[u].allocatedRoom.Some?;
    }
  }

  /** When the room record exists, claiming a bed overwrites all five allocation fields the profile came with. */
  lemma AssignedOverwritesAllocation(p: UserProfile, b: BedId, bed: Bed, room: Room)
    ensures Assigned(p, b, bed, Some(room)) == Assigned(ClearAllocation(p), b, bed, Some(room))
  {
  }

  /**
    In a consistent store, creating a profile with a bed is inserting the
    profile without its client-sent allocation and then allocating the bed
    to it: the claimed bed's room exists, so all five allocation fields are
    overwritten.
  */
  lemma CreateWithBedIsAllocate(t: Tenancy, u: UserId, data: ProfileData, jd: Option<Date>, b: BedId)
    requires Consistent(t) && u !in t.users && ProfileSavable(NewProfile(data, jd))
    ensures CreateWithBed(t, u, NewProfile(data, jd), b)
            == Allocate(WithProfile(t, u, ClearAllocation(NewProfile(data, jd))), Some(u), Some(b))
  {
    var p := NewProfile(data, jd);
    var p0 := ClearAllocation(p);
    if b in t.beds && !t.beds[b].isOccupied {
      var room := t.beds[b].room;
      assert room in t.rooms;
      var bed := Occupied(t.beds[b], u);
      assert RoomOf(t.rooms, room) == Some(t.rooms[room]);
      var c := CreateWithBed(t, u, p, b).value;
      var a := Allocate(WithProfile(t, u, p0), Some(u), Some(b)).value;
      AssignedOverwritesAllocation(p, b, bed, t.rooms[room]);
      assert c.beds == a.beds;
      assert c.users == a.users;
      assert c.rooms == a.rooms;
    }
  }

  /** A committed create-with-bed keeps a consistent store consistent, whatever allocation fields the body carried. */
  lemma CreateWithBedPreservesConsistency(t: Tenancy, u: UserId, data: ProfileData, jd: Option<Date>, b: BedId)
    requires Consistent(t) && u !in t.users
    requires CreateWithBed(t, u, NewProfile(data, jd), b).Success?
    ensures Consistent(CreateWithBed(t, u, NewProfile(data, jd), b).value)
  {
    var p0 := ClearAllocation(NewProfile(data, jd));
    AddUnallocatedKeepsConsistency(t, u, p0);
    CreateWithBedIsAllocate(t, u, data, jd, b);
    AllocatePreservesConsistency(WithProfile(t, u, p0), u, b);
  }

  /**
    Unlike `/allocate-bed`, create-with-bed commits when the bed's room
    record is missing: the profile keeps the client's rent and no status is
    written.
  */
  lemma CreateWithBedWithoutRoom(t: Tenancy, u: UserId, p: UserProfile, b: BedId)
    requires u !in t.users && b in t.beds && !t.beds[b].isOccupied && ProfileSavable(p)
    requires t.beds[b].room !in t.rooms && p.allocatedBed.None?
    ensures CreateWithBed(t, u, p, b).Success?
    ensures CreateWithBed(t, u, p, b).value.rooms == t.rooms
    ensures CreateWithBed(t, u, p, b).value.users[u].rentAmount == p.rentAmount
    ensures Allocate(WithProfile(t, u, p), Some(u), Some(b)) == Failure(RoomNotFound)
  {
  }

  /** POST `/` without `bedId`: `new UserProfile(data).save()`, outside any transaction. */
  method CreateUnallocated(db: Db, profile: UserProfile) returns (r: Result<UserId, Error>)
    requires db.Valid() && WellDatedProfile(profile)
    modifies db
    ensures db.Valid() && db.payments == old(db.payments)
    ensures r.Success? <==> ProfileSavable(profile)
    ensures r.Failure? ==> r.error == ValidationFailed && db.State() == old(db.State())
    ensures r.Success? ==> r.value == old(db.nextId) && r.value !in old(db.users)
                           && db.State() == WithProfile(old(db.State()), r.value, profile)
  {
    if !ProfileSavable(profile) {
      return Failure(ValidationFailed);
    }
    var u := db.FreshId();
    db.users := db.users[u := profile];
    return Success(u);
  }

  /** The create-with-bed transaction on the session's view `t`, the new profile's id being `u`. */
  method CreateInSession(t: Tenancy, u: UserId, profile: UserProfile, b: BedId) returns (r: Result<Tenancy, Error>)
    requires u !in t.users
    ensures r == CreateWithBed(t, u, profile, b)
  {
    var beds, rooms, users := t.beds, t.rooms, t.users;
    if b !in beds {
      return Failure(BedNotFound);
    }
    var bed := beds[b];
    if bed.isOccupied {
      return Failure(BedOccupied);
    }
    var p := profile;
    if !ProfileSavable(p) {
      // the abort discards the insert; the `deleteOne` that follows finds nothing
      return Failure(ValidationFailed);
    }
    bed := bed.(isOccupied := true);
    bed := bed.(occupant := Some(u));
    beds := beds[b := bed];
    p := p.(allocatedBed := Some(b));
    p := p.(allocatedRoom := Some(bed.room));
    p := p.(bedNumber := Some(bed.bedNumber));
    var room := RoomOf(rooms, bed.room);
    if room.Some? {
      p := p.(roomNumber := Some(room.value.roomNumber));
      p := p.(rentAmount := Some(room.value.rentAmount));
    }
    assert p == Assigned(profile, b, bed, room);
    users := users[u := p];
    var remainingFreeBeds := CountFreeBeds(beds, bed.room);
    if room.Some? {
      rooms := rooms[bed.room := room.value.(status := if remainingFreeBeds == 0 then FULL else AVAILABLE)];
    }
    r := Success(Tenancy(beds, rooms, users));
  }

  /** A create-with-bed adds the one profile `u` and rewrites existing beds and rooms only. */
  lemma CreateWithBedKeys(t: Tenancy, u: UserId, p: UserProfile, b: BedId)
    requires u !in t.users && CreateWithBed(t, u, p, b).Success?
    ensures var t' := CreateWithBed(t, u, p, b).value;
            && t'.beds.Keys == t.beds.Keys && t'.rooms.Keys == t.rooms.Keys && t'.users.Keys == t.users.Keys + {u}
            && t'.users[u].joinedDate == p.joinedDate
    ensures AllWellDated(t.users) && WellDatedProfile(p) ==> AllWellDated(CreateWithBed(t, u, p, b).value.users)
  {
  }

  /** The transaction of POST `/` with `bedId`: commits exactly what `CreateWithBed` computes, or nothing. */
  method CreateInTransaction(db: Db, profile: UserProfile, b: BedId) returns (r: Result<UserId, Error>)
    requires db.Valid() && WellDatedProfile(profile)
    modifies db
    ensures db.Valid() && db.payments == old(db.payments)
    ensures old(db.nextId) !in old(db.users)
    ensures var expected := CreateWithBed(old(db.State()), old(db.nextId), profile, b);
            && (expected.Failure? ==> r == Failure(expected.error) && db.State() == old(db.State()))
            && (expected.Success? ==> r == Success(old(db.nextId)) && db.State() == expected.value)
  {
    // `new UserProfile(data)` draws the id; only a commit stores it
    var u := db.FreshId();
    var committed := CreateInSession(db.State(), u, profile, b);
    if committed.Failure? {
      return Failure(committed.error);
    }
    CreateWithBedKeys(db.State(), u, profile, b);
    db.Commit(committed.value);
    r := Success(u);
  }

  /**
    POST `/`. `jd` is the parsed `joinedDate` and `paymentFails` whether
    `createFirstPaymentForUser` throws after the commit (its error is
    swallowed and the allocation stands). Without `bedId` no payment is
    created; with one, an abort leaves no profile behind.
  */
  method CreateProfile(db: Db, data: ProfileData, jd: Option<Date>, bedId: Option<BedId>, paymentFails: bool, now: Date)
    returns (r: Result<UserId, Error>)
    requires db.Valid() && ValidDate(now) && (jd.Some? ==> ValidDate(jd.value))
    modifies db
    ensures db.Valid()
    ensures bedId.None? ==>
              && (r.Success? <==> ProfileSavable(NewProfile(data, jd)))
              && (r.Failure? ==> r.error == ValidationFailed && db.State() == old(db.State()))
              && (r.Success? ==> db.State() == WithProfile(old(db.State()), r.value, NewProfile(data, jd)))
              && db.payments == old(db.payments)
    ensures bedId.Some? ==>
              var expected := CreateWithBed(old(db.State()), old(db.nextId), NewProfile(data, jd), bedId.value);
              && (expected.Failure? ==> r == Failure(expected.error) && db.State() == old(db.State()) && db.payments == old(db.payments))
              && (expected.Success? ==> r == Success(old(db.nextId)) && db.State() == expected.value)
              && (expected.Success? && paymentFails ==> db.payments == old(db.payments))
              && (expected.Success? && !paymentFails ==>
                    exists k: PaymentId | k !in old(db.payments) ::
                      db.payments == old(db.payments)[k := FirstPayment(old(db.nextId), db.users[old(db.nextId)], now)])
  {
    var profile := NewProfile(data, jd);
    if bedId.None? {
      r := CreateUnallocated(db, profile);
      return;
    }
    r := CreateInTransaction(db, profile, bedId.value);
    if r.Success? && !paymentFails {
      var k := CreateFirstPaymentForUser(db, r.value, db.users[r.value], now);
    }
  }

  // ---------------------------------------------------------------------
  // Update
  // ---------------------------------------------------------------------

  /** The descriptive fields a PUT body may carry; a present field overwrites the stored one. */
  datatype ProfileEdit = ProfileEdit(fullName: Option<string>, phone: Option<string>, isActive: Option<bool>)

  /** `Object.assign(profile, body)` restricted to the descriptive fields. */
  function Merged(p: UserProfile, e: ProfileEdit): (q: UserProfile)
    ensures q.fullName == e.fullName.GetOr(p.fullName) && q.phone == e.phone.GetOr(p.phone)
    ensures q.isActive == e.isActive.GetOr(p.isActive)
    ensures q.(fullName := p.fullName, phone := p.phone, isActive := p.isActive) == p
  {
    p.(fullName := e.fullName.GetOr(p.fullName), phone := e.phone.GetOr(p.phone), isActive := e.isActive.GetOr(p.isActive))
  }

  /**
    The body's `bedId`: absent (no bed change), "" or null (release only),
    or the id of the bed to move to.
  */
  datatype BedRequest = Unchanged | ReleaseOnly | MoveTo(bed: BedId)

  /** The session's work in progress: the beds, the rooms whose status must be recomputed, and the profile. */
  datatype Draft = Draft(beds: map<BedId, Bed>, touched: set<RoomId>, profile: UserProfile)

  /**
    Step 1: a profile holding a bed other than the one requested (or asking
    only to release) frees that bed, when it exists, marks its room for
    recomputation, and clears its five cached allocation fields.
  */
  function ReleaseStep(beds: map<BedId, Bed>, p: UserProfile, req: BedRequest): (d: Draft)
    ensures d.beds.Keys == beds.Keys && d.profile.joinedDate == p.joinedDate
    ensures req.MoveTo? && p.allocatedBed == Some(req.bed) ==> d == Draft(beds, {}, p)
    ensures p.allocatedBed.None? ==> d == Draft(beds, {}, p)
  {
    if p.allocatedBed.Some? && (req.ReleaseOnly? || (req.MoveTo? && req.bed != p.allocatedBed.value)) then
      var held := p.allocatedBed.value;
      if held in beds then Draft(beds[held := Vacated(beds[held])], {beds[held].room}, ClearAllocation(p))
      else Draft(beds, {}, ClearAllocation(p))
    else Draft(beds, {}, p)
  }

  /**
    Step 2: the requested bed must exist and be free in the session's view;
    it is occupied by `u`, the profile copies its fields and, when the room
    record exists, the room's, and that room is marked for recomputation.
  */
  function ClaimStep(d: Draft, rooms: map<RoomId, Room>, u: UserId, b: BedId): (r: Result<Draft, Error>)
    ensures r.Success? <==> b in d.beds && !d.beds[b].isOccupied
    ensures r.Success? ==> r.value.beds == d.beds[b := Occupied(d.beds[b], u)] && r.value.beds.Keys == d.beds.Keys
    ensures r.Success? ==> r.value.profile.joinedDate == d.profile.joinedDate
    ensures r.Failure? ==> r.error == (if b in d.beds then BedOccupied else BedNotFound)
  {
    if b !in d.beds then Failure(BedNotFound)
    else if d.beds[b].isOccupied then Failure(BedOccupied)
    else
      var bed := Occupied(d.beds[b], u);
      var room := RoomOf(rooms, bed.room);
      Success(Draft(d.beds[b := bed], d.touched + (if room.Some? then {bed.room} else {}), Assigned(d.profile, b, bed, room)))
  }

  /**
    PUT `/:id` on the session's view. Without a bed change the edit is
    merged and saved. Otherwise the old bed is released (step 1), the new
    one claimed (step 2), the edit merged, the profile validated, and every
    touched room's status recomputed from the final beds.
  */
  function Update(t: Tenancy, u: UserId, req: BedRequest, edit: ProfileEdit): (r: Result<Tenancy, Error>)
    ensures u !in t.users ==> r == Failure(ProfileNotFound)
    ensures r.Success? ==> r.value.users.Keys == t.users.Keys && r.value.rooms.Keys == t.rooms.Keys
    ensures r.Success? ==> forall v | v in t.users && v != u :: r.value.users[v] == t.users[v]
  {
    if u !in t.users then Failure(ProfileNotFound)
    else if req.Unchanged? then
      var q := Merged(t.users[u], edit);
      if ProfileSavable(q) then Success(WithProfile(t, u, q)) else Failure(ValidationFailed)
    else BedChange(t, u, req, edit)
  }

  /** The transaction of PUT `/:id` when the body carries `bedId`: steps 1 to 5. */
  function BedChange(t: Tenancy, u: UserId, req: BedRequest, edit: ProfileEdit): (r: Result<Tenancy, Error>)
    requires u in t.users
    ensures r.Success? ==> u in r.value.users && ProfileSavable(r.value.users[u])
    ensures r.Success? && req.MoveTo? ==>
              req.bed in r.value.beds && r.value.beds[req.bed].isOccupied && r.value.beds[req.bed].occupant == Some(u)
              && r.value.users[u].allocatedBed == Some(req.bed)
    ensures r.Success? && req.ReleaseOnly? ==> r.value.users[u].allocatedBed.None?
  {
    var d1 := ReleaseStep(t.beds, t.users[u], req);
    var d2 := if req.MoveTo? then ClaimStep(d1, t.rooms, u, req.bed) else Success(d1);
    if d2.Failure? then Failure(d2.error)
    else
      var q := Merged(d2.value.profile, edit);
      if !ProfileSavable(q) then Failure(ValidationFailed)
      else Success(Tenancy(d2.value.beds, Recalculated(t.rooms, d2.value.beds, d2.value.touched), t.users[u := q]))
  }

  /** A bed change rewrites existing records only, and never a profile's join date. */
  lemma BedChangeKeepsKeys(t: Tenancy, u: UserId, req: BedRequest, edit: ProfileEdit)
    requires u in t.users && BedChange(t, u, req, edit).Success?
    ensures var t' := BedChange(t, u, req, edit).value;
            && t'.beds.Keys == t.beds.Keys && t'.rooms.Keys == t.rooms.Keys && t'.users.Keys == t.users.Keys
            && t'.users[u].joinedDate == t.users[u].joinedDate
            && forall v | v in t.users && v != u :: t'.users[v] == t.users[v]
    ensures AllWellDated(t.users) ==> AllWellDated(BedChange(t, u, req, edit).value.users)
  {
  }

  /** Recomputing a single room's status is the one-room update the allocation handlers write. */
  lemma RecalculatedOne(rooms: map<RoomId, Room>, beds: map<BedId, Bed>, r: RoomId)
    requires r in rooms
    ensures Recalculated(rooms, beds, {r}) == rooms[r := rooms[r].(status := StatusFor(beds, r))]
  {
  }

  /** Recomputing no room changes nothing. */
  lemma RecalculatedNone(rooms: map<RoomId, Room>, beds: map<BedId, Bed>)
    ensures Recalculated(rooms, beds, {}) == rooms
  {
  }

  /** A merge touches only descriptive fields, so it keeps a consistent store consistent. */
  lemma MergeKeepsConsistency(t: Tenancy, u: UserId, q: UserProfile)
    requires Consistent(t) && u in t.users
    requires q.allocatedBed == t.users[u].allocatedBed && q.allocatedRoom == t.users[u].allocatedRoom
    ensures Consistent(WithProfile(t, u, q))
  {
    var t' := WithProfile(t, u, q);
    forall b | b in t'.beds && t'.beds[b].occupant.Some?
      ensures Holds(t', t'.beds[b].occupant.value, b)
    {
      assert Holds(t, t.beds[b].occupant.value, b);
    }
  }

  /** Without `bedId` an update changes the one profile's descriptive fields and no bed or room. */
  lemma UpdateWithoutBedOnlyMerges(t: Tenancy, u: UserId, edit: ProfileEdit)
    requires u in t.users
    ensures Update(t, u, Unchanged, edit).Success? <==> ProfileSavable(Merged(t.users[u], edit))
    ensures Update(t, u, Unchanged, edit).Failure? ==> Update(t, u, Unchanged, edit).error == ValidationFailed
    ensures Update(t, u, Unchanged, edit).Success? ==>
              Update(t, u, Unchanged, edit).value == WithProfile(t, u, Merged(t.users[u], edit))
    ensures Consistent(t) && Update(t, u, Unchanged, edit).Success? ==> Consistent(Update(t, u, Unchanged, edit).value)
  {
    if Consistent(t) && ProfileSavable(Merged(t.users[u], edit)) {
      MergeKeepsConsistency(t, u, Merged(t.users[u], edit));
    }
  }

  /** Asking to release when no bed is held changes only the descriptive fields. */
  lemma ReleaseWithoutBedOnlyMerges(t: Tenancy, u: UserId, edit: ProfileEdit)
    requires u in t.users && t.users[u].allocatedBed.None?
    ensures Update(t, u, ReleaseOnly, edit) == Update(t, u, Unchanged, edit)
  {
    RecalculatedNone(t.rooms, t.beds);
  }

  /**
    In a consistent store, releasing through PUT is `/release-bed` of the
    held bed followed by the merge of the edit.
  */
  lemma ReleaseOnlyIsRelease(t: Tenancy, u: UserId, edit: ProfileEdit)
    requires Consistent(t) && u in t.users && t.users[u].allocatedBed.Some?
    requires ProfileSavable(Merged(t.users[u], edit))
    ensures var b := t.users[u].allocatedBed.value;
            && CanRelease(t, u, b)
            && (var released := Release(t, Some(u), Some(b)).value;
                Update(t, u, ReleaseOnly, edit) == Success(WithProfile(released, u, Merged(released.users[u], edit))))
  {
    var b := t.users[u].allocatedBed.value;
    var p := t.users[u];
    assert Holds(t, u, b);
    var room := t.beds[b].room;
    var beds := t.beds[b := Vacated(t.beds[b])];
    RecalculatedOne(t.rooms, beds, room);
    var released := Release(t, Some(u), Some(b)).value;
    assert ReleaseStep(t.beds, p, ReleaseOnly) == Draft(beds, {room}, ClearAllocation(p));
    var q := Merged(ClearAllocation(p), edit);
    assert ProfileSavable(q);
    assert BedChange(t, u, ReleaseOnly, edit) == Success(Tenancy(beds, Recalculated(t.rooms, beds, {room}), t.users[u := q]));
    assert released.users[u] == ClearAllocation(p);
    assert WithProfile(released, u, q).users == t.users[u := q];
  }

  /**
    A profile that holds no bed can move to bed `b` through PUT exactly
    when `/allocate-bed` could allocate `b` to it (every bed having its
    room record).
  */
  lemma MoveWithoutBedSucceeds(t: Tenancy, u: UserId, b: BedId, edit: ProfileEdit)
    requires BedsHaveRooms(t) && u in t.users && t.users[u].allocatedBed.None?
    requires ProfileSavable(Merged(t.users[u], edit))
    ensures Update(t, u, MoveTo(b), edit).Success? <==> CanAllocate(t, u, b)
  {
    var p := t.users[u];
    assert ReleaseStep(t.beds, p, MoveTo(b)) == Draft(t.beds, {}, p);
  }

  /**
    And then moving through PUT is `/allocate-bed` followed by the merge of
    the edit.
  */
  lemma MoveWithoutBedIsAllocate(t: Tenancy, u: UserId, b: BedId, edit: ProfileEdit)
    requires CanAllocate(t, u, b) && t.users[u].allocatedBed.None?
    requires ProfileSavable(Merged(t.users[u], edit))
    ensures var granted := Allocate(t, Some(u), Some(b)).value;
            Update(t, u, MoveTo(b), edit) == Success(WithProfile(granted, u, Merged(granted.users[u], edit)))
  {
    var p := t.users[u];
    assert ReleaseStep(t.beds, p, MoveTo(b)) == Draft(t.beds, {}, p);
    var room := t.beds[b].room;
    var bed := Occupied(t.beds[b], u);
    var beds := t.beds[b := bed];
    RecalculatedOne(t.rooms, beds, room);
    assert RoomOf(t.rooms, room) == Some(t.rooms[room]);
    var claimed := Assigned(p, b, bed, Some(t.rooms[room]));
    assert ClaimStep(Draft(t.beds, {}, p), t.rooms, u, b) == Success(Draft(beds, {room}, claimed));
    var q := Merged(claimed, edit);
    assert ProfileSavable(q);
    assert BedChange(t, u, MoveTo(b), edit) == Success(Tenancy(beds, Recalculated(t.rooms, beds, {room}), t.users[u := q]));
    var granted := Allocate(t, Some(u), Some(b)).value;
    assert granted.users[u] == claimed;
    assert WithProfile(granted, u, q).users == t.users[u := q];
  }

  /**
    A profile holding bed `held` can move to another bed `b` through PUT
    exactly when `/allocate-bed` could allocate `b` to it once
    `/release-bed` has freed `held`.
  */
  lemma MoveFromBedSucceeds(t: Tenancy, u: UserId, held: BedId, b: BedId, edit: ProfileEdit)
    requires BedsHaveRooms(t) && CanRelease(t, u, held) && t.users[u].allocatedBed == Some(held) && held != b
    requires ProfileSavable(Merged(t.users[u], edit))
    ensures Update(t, u, MoveTo(b), edit).Success? <==> CanAllocate(Release(t, Some(u), Some(held)).value, u, b)
  {
    var p := t.users[u];
    var beds := t.beds[held := Vacated(t.beds[held])];
    assert ReleaseStep(t.beds, p, MoveTo(b)) == Draft(beds, {t.beds[held].room}, ClearAllocation(p));
    assert Release(t, Some(u), Some(held)).value.beds == beds;
  }

  /**
    And then moving through PUT is `/release-bed` of the old bed, then
    `/allocate-bed` of `b`, then the merge of the edit: each touched room's
    status, recomputed once from the final beds, is the one the two handlers
    leave.
  */
  lemma MoveIsReleaseThenAllocate(t: Tenancy, u: UserId, held: BedId, b: BedId, edit: ProfileEdit)
    requires CanRelease(t, u, held) && t.users[u].allocatedBed == Some(held) && held != b
    requires CanAllocate(Release(t, Some(u), Some(held)).value, u, b)
    requires ProfileSavable(Merged(t.users[u], edit))
    ensures var granted := Allocate(Release(t, Some(u), Some(held)).value, Some(u), Some(b)).value;
            Update(t, u, MoveTo(b), edit) == Success(WithProfile(granted, u, Merged(granted.users[u], edit)))
  {
    var p := t.users[u];
    var released := Release(t, Some(u), Some(held)).value;
    var granted := Allocate(released, Some(u), Some(b)).value;
    var r1, r2 := t.beds[held].room, t.beds[b].room;
    var beds1 := t.beds[held := Vacated(t.beds[held])];
    var bed := Occupied(t.beds[b], u);
    var beds2 := beds1[b := bed];
    assert released.beds == beds1;
    assert b in beds1 && !beds1[b].isOccupied && beds1[b] == t.beds[b];
    assert {r1} + {r2} == {r1, r2};
    assert ReleaseStep(t.beds, p, MoveTo(b)) == Draft(beds1, {r1}, ClearAllocation(p));
    assert RoomOf(t.rooms, r2) == Some(t.rooms[r2]);
    var claimed := Assigned(ClearAllocation(p), b, bed, Some(t.rooms[r2]));
    assert ClaimStep(Draft(beds1, {r1}, ClearAllocation(p)), t.rooms, u, b) == Success(Draft(beds2, {r1, r2}, claimed));
    var q := Merged(claimed, edit);
    assert ProfileSavable(q);
    assert BedChange(t, u, MoveTo(b), edit) == Success(Tenancy(beds2, Recalculated(t.rooms, beds2, {r1, r2}), t.users[u := q]));
    MoveRooms(t, u, held, b);
    assert granted.users[u] == claimed;
    assert WithProfile(granted, u, q).users == t.users[u := q];
  }

  /** The room statuses of a move: both rooms recomputed from the final beds. */
  lemma MoveRooms(t: Tenancy, u: UserId, held: BedId, b: BedId)
    requires CanRelease(t, u, held) && held != b
    requires CanAllocate(Release(t, Some(u), Some(held)).value, u, b)
    ensures var granted := Allocate(Release(t, Some(u), Some(held)).value, Some(u), Some(b)).value;
            var beds := t.beds[held := Vacated(t.beds[held])][b := Occupied(t.beds[b], u)];
            && granted.beds == beds
            && granted.rooms == Recalculated(t.rooms, beds, {t.beds[held].room, t.beds[b].room})
  {
    var released := Release(t, Some(u), Some(held)).value;
    var granted := Allocate(released, Some(u), Some(b)).value;
    var r1, r2 := t.beds[held].room, t.beds[b].room;
    var beds1 := t.beds[held := Vacated(t.beds[held])];
    var beds2 := beds1[b := Occupied(t.beds[b], u)];
    assert released.beds == beds1;
    assert granted.beds == beds2;
    if r1 != r2 {
      StatusOtherRoom(beds1, b, beds2[b], r1);
    }
  }

  /** A committed PUT keeps a consistent store consistent. */
  lemma UpdatePreservesConsistency(t: Tenancy, u: UserId, req: BedRequest, edit: ProfileEdit)
    requires Consistent(t) && Update(t, u, req, edit).Success?
    ensures Consistent(Update(t, u, req, edit).value)
  {
    var p := t.users[u];
    if req.Unchanged? || (req.ReleaseOnly? && p.allocatedBed.None?) {
      if req.ReleaseOnly? {
        ReleaseWithoutBedOnlyMerges(t, u, edit);
      }
      UpdateWithoutBedOnlyMerges(t, u, edit);
    } else if req.ReleaseOnly? {
      MergedSavable(t, u, req, edit);
      ReleaseOnlyIsRelease(t, u, edit);
      var released := Release(t, Some(u), Some(p.allocatedBed.value)).value;
      ReleasePreservesConsistency(t, u, p.allocatedBed.value);
      MergeKeepsConsistency(released, u, Merged(released.users[u], edit));
    } else if p.allocatedBed == Some(req.bed) {
      SameBedRejected(t, u, edit);
    } else if p.allocatedBed.None? {
      MergedSavable(t, u, req, edit);
      MoveWithoutBedSucceeds(t, u, req.bed, edit);
      MoveWithoutBedIsAllocate(t, u, req.bed, edit);
      var granted := Allocate(t, Some(u), Some(req.bed)).value;
      AllocatePreservesConsistency(t, u, req.bed);
      MergeKeepsConsistency(granted, u, Merged(granted.users[u], edit));
    } else {
      MergedSavable(t, u, req, edit);
      var held := p.allocatedBed.value;
      assert Holds(t, u, held);
      MoveFromBedSucceeds(t, u, held, req.bed, edit);
      MoveIsReleaseThenAllocate(t, u, held, req.bed, edit);
      var released := Release(t, Some(u), Some(held)).value;
      ReleasePreservesConsistency(t, u, held);
      var granted := Allocate(released, Some(u), Some(req.bed)).value;
      AllocatePreservesConsistency(released, u, req.bed);
      MergeKeepsConsistency(granted, u, Merged(granted.users[u], edit));
    }
  }

  /** Validation reads only the name and phone, which the bed steps never change. */
  lemma MergedSavable(t: Tenancy, u: UserId, req: BedRequest, edit: ProfileEdit)
    requires u in t.users && !req.Unchanged? && Update(t, u, req, edit).Success?
    ensures ProfileSavable(Merged(t.users[u], edit))
  {
  }

  /**
    As written, requesting the bed the profile already holds fails: the bed
    is not released (it is the one requested), so the claim finds it
    occupied.
  */
  lemma SameBedRejected(t: Tenancy, u: UserId, edit: ProfileEdit)
    requires Consistent(t) && u in t.users && t.users[u].allocatedBed.Some?
    ensures Update(t, u, MoveTo(t.users[u].allocatedBed.value), edit) == Failure(BedOccupied)
  {
    var b := t.users[u].allocatedBed.value;
    assert Holds(t, u, b);
  }

  /**
    PUT `/:id` as evidently intended: requesting the bed already held keeps
    it and merges the edit; every other request is handled as written.
  */
  function UpdateKeepingSameBed(t: Tenancy, u: UserId, req: BedRequest, edit: ProfileEdit): (r: Result<Tenancy, Error>)
    ensures !(u in t.users && req.MoveTo? && t.users[u].allocatedBed == Some(req.bed)) ==> r == Update(t, u, req, edit)
  {
    if u in t.users && req.MoveTo? && t.users[u].allocatedBed == Some(req.bed) then Update(t, u, Unchanged, edit)
    else Update(t, u, req, edit)
  }

  /**
    With the correction, re-requesting the held bed succeeds whenever the
    edit passes validation, keeps the bed and every room as they were, and
    keeps the store consistent.
  */
  lemma SameBedKept(t: Tenancy, u: UserId, edit: ProfileEdit)
    requires Consistent(t) && u in t.users && t.users[u].allocatedBed.Some?
    requires ProfileSavable(Merged(t.users[u], edit))
    ensures var r := UpdateKeepingSameBed(t, u, MoveTo(t.users[u].allocatedBed.value), edit);
            && r.Success?
            && r.value.beds == t.beds && r.value.rooms == t.rooms
            && r.value.users[u].allocatedBed == t.users[u].allocatedBed
            && Consistent(r.value)
  {
    UpdateWithoutBedOnlyMerges(t, u, edit);
  }

  /** Step 5: `for (const roomIdStr of roomsToRecalc)`, skipping ids without a room record. */
  method RecalcRooms(beds: map<BedId, Bed>, rooms: map<RoomId, Room>, touched: set<RoomId>) returns (result: map<RoomId, Room>)
    ensures result == Recalculated(rooms, beds, touched)
  {
    result := rooms;
    var todo := touched;
    while todo != {}
      invariant todo <= touched
      invariant result == Recalculated(rooms, beds, touched - todo)
      decreases todo
    {
      var r :| r in todo;
      var remainingFreeBeds := CountFreeBeds(beds, r);
      if r in result {
        result := result[r := result[r].(status := if remainingFreeBeds == 0 then FULL else AVAILABLE)];
      }
      todo := todo - {r};
      assert result == Recalculated(rooms, beds, touched - todo);
    }
  }

  /** Step 1 on the session's variables. */
  method ReleaseInSession(beds: map<BedId, Bed>, profile: UserProfile, req: BedRequest)
    returns (beds': map<BedId, Bed>, roomsToRecalc: set<RoomId>, profile': UserProfile)
    ensures Draft(beds', roomsToRecalc, profile') == ReleaseStep(beds, profile, req)
  {
    beds', roomsToRecalc, profile' := beds, {}, profile;
    if profile.allocatedBed.Some? {
      if req.ReleaseOnly? || (req.MoveTo? && profile.allocatedBed.value != req.bed) {
        var oldBed := profile.allocatedBed.value;
        if oldBed in beds' {
          var freed := beds'[oldBed].(isOccupied := false);
          freed := freed.(occupant := None);
          beds' := beds'[oldBed := freed];
          roomsToRecalc := roomsToRecalc + {freed.room};
        }
        profile' := profile'.(allocatedBed := None, allocatedRoom := None, bedNumber := None);
        profile' := profile'.(roomNumber := None, rentAmount := None);
      }
    }
  }

  /** Step 2 on the session's variables. */
  method ClaimInSession(d: Draft, rooms: map<RoomId, Room>, u: UserId, b: BedId) returns (r: Result<Draft, Error>)
    ensures r == ClaimStep(d, rooms, u, b)
  {
    var beds, roomsToRecalc, profile := d.beds, d.touched, d.profile;
    if b !in beds {
      return Failure(BedNotFound);
    }
    var newBed := beds[b];
    if newBed.isOccupied {
      return Failure(BedOccupied);
    }
    newBed := newBed.(isOccupied := true);
    newBed := newBed.(occupant := Some(u));
    beds := beds[b := newBed];
    profile := profile.(allocatedBed := Some(b));
    profile := profile.(allocatedRoom := Some(newBed.room));
    profile := profile.(bedNumber := Some(newBed.bedNumber));
    var newRoom := RoomOf(rooms, newBed.room);
    if newRoom.Some? {
      profile := profile.(roomNumber := Some(newRoom.value.roomNumber));
      profile := profile.(rentAmount := Some(newRoom.value.rentAmount));
      roomsToRecalc := roomsToRecalc + {newBed.room};
    }
    assert profile == Assigned(d.profile, b, newBed, newRoom);
    assert roomsToRecalc == d.touched + (if newRoom.Some? then {newBed.room} else {});
    r := Success(Draft(beds, roomsToRecalc, profile));
  }

  /** Steps 1 to 5 on the session's view `t` of the store. */
  method ChangeBedInSession(t: Tenancy, u: UserId, req: BedRequest, edit: ProfileEdit) returns (r: Result<Tenancy, Error>)
    requires u in t.users
    ensures r == BedChange(t, u, req, edit)
  {
    var beds, rooms, users, profile := t.beds, t.rooms, t.users, t.users[u];
    // 1) release the current bed unless it is the one requested
    var roomsToRecalc;
    beds, roomsToRecalc, profile := ReleaseInSession(beds, profile, req);
    // 2) claim the requested bed
    if req.MoveTo? {
      var claimed := ClaimInSession(Draft(beds, roomsToRecalc, profile), rooms, u, req.bed);
      if claimed.Failure? {
        return Failure(claimed.error);
      }
      beds, roomsToRecalc, profile := claimed.value.beds, claimed.value.touched, claimed.value.profile;
    }
    // 3) merge the text fields, 4) save
    profile := Merged(profile, edit);
    if !ProfileSavable(profile) {
      return Failure(ValidationFailed);
    }
    users := users[u := profile];
    // 5) recompute the touched rooms
    rooms := RecalcRooms(beds, rooms, roomsToRecalc);
    r := Success(Tenancy(beds, rooms, users));
  }

  /** PUT `/:id`: the store afterwards is what `Update` computes, or unchanged on any error. */
  method UpdateProfile(db: Db, u: UserId, req: BedRequest, edit: ProfileEdit) returns (r: Outcome<Error>)
    requires db.Valid()
    modifies db
    ensures db.Valid()
    ensures db.payments == old(db.payments) && db.nextId == old(db.nextId)
    ensures var expected := Update(old(db.State()), u, req, edit);
            && (expected.Success? ==> r == Pass && db.State() == expected.value)
            && (expected.Failure? ==> r == Fail(expected.error) && db.State() == old(db.State()))
  {
    if u !in db.users {
      return Fail(ProfileNotFound);
    }
    if req.Unchanged? {
      // no bed change: merge and save, outside any transaction
      var profile := Merged(db.users[u], edit);
      if !ProfileSavable(profile) {
        return Fail(ValidationFailed);
      }
      db.users := db.users[u := profile];
      return Pass;
    }
    var committed := ChangeBedInSession(db.State(), u, req, edit);
    if committed.Failure? {
      return Fail(committed.error);
    }
    BedChangeKeepsKeys(db.State(), u, req, edit);
    db.Commit(committed.value);
    r := Pass;
  }
}
