/**
  The room routes (routes/roomRoutes.js): create a room with its beds, edit a
  room's fields and replace its beds, delete a room with its beds. None of
  them runs in a transaction, so each write stays stored when a later step
  fails, and none of them looks at occupancy or recomputes a room's status.
*/
module Rooms {
  import opened Wrappers
  import opened Models
  import opened Store
  import opened Housing

  /** `roomNumber` is a required String and `rentAmount` a required Number. */
  predicate RoomSavable(number: Option<string>, rent: Option<int>) {
    number.Some? && number.value != "" && rent.Some?
  }

  /** Some stored room already carries number `n` (the unique index on `roomNumber`). */
  predicate NumberTaken(rooms: map<RoomId, Room>, n: string) {
    exists r | r in rooms :: rooms[r].roomNumber == n
  }

  /** Some room other than `id` carries number `n`. */
  predicate NumberTakenByOther(rooms: map<RoomId, Room>, id: RoomId, n: string) {
    exists r | r in rooms && r != id :: rooms[r].roomNumber == n
  }

  /** Every label is a non-empty string, so every `Bed.create` passes validation. */
  predicate AllLabelled(labels: seq<string>) {
    forall i | 0 <= i < |labels| :: labels[i] != ""
  }

  /** The ids `first`, `first + 1`, ..., one per label, in label order. */
  function IdRange(first: nat, n: nat): (ids: seq<BedId>)
    ensures |ids| == n
    ensures forall i | 0 <= i < n :: ids[i] == first + i
  {
    if n == 0 then [] else IdRange(first, n - 1) + [first + n - 1]
  }

  /**
    The beds stored by `labels.map(b => Bed.create({ bedNumber: b, room: r }))`
    when label `i` gets id `first + i`: a bed with an empty label fails
    validation and is not stored.
  */
  function NewBeds(labels: seq<string>, r: RoomId, first: nat): map<BedId, Bed>
    decreases |labels|
  {
    if labels == [] then map[]
    else
      var i := |labels| - 1;
      var m := NewBeds(labels[..i], r, first);
      if labels[i] == "" then m else m[first + i := NewBed(labels[i], r)]
  }

  /** Exactly the labelled positions become beds, each free, in room `r`, under its own id. */
  lemma {:induction false} NewBedsSpec(labels: seq<string>, r: RoomId, first: nat)
    ensures forall k :: k in NewBeds(labels, r, first) <==> first <= k < first + |labels| && labels[k - first] != ""
    ensures forall k | k in NewBeds(labels, r, first) :: NewBeds(labels, r, first)[k] == NewBed(labels[k - first], r)
    decreases |labels|
  {
    if labels != [] {
      var i := |labels| - 1;
      NewBedsSpec(labels[..i], r, first);
    }
  }

  /** `Bed.deleteMany({ room: r })`: every bed whose `room` is `r` goes, whatever its occupancy. */
  function WithoutBedsOf(beds: map<BedId, Bed>, r: RoomId): (m: map<BedId, Bed>)
    ensures forall b :: b in m <==> b in beds && beds[b].room != r
    ensures forall b | b in m :: m[b] == beds[b]
  {
    map b | b in beds && beds[b].room != r :: beds[b]
  }

  /** `if (roomNumber) ...; if (rentAmount) ...`: only truthy values overwrite, so "" and 0 are ignored. */
  function Edited(room: Room, number: Option<string>, rent: Option<int>): (e: Room)
    ensures e.roomNumber == (if number.Some? && number.value != "" then number.value else room.roomNumber)
    ensures e.rentAmount == (if rent.Some? && rent.value != 0 then rent.value else room.rentAmount)
    ensures e.beds == room.beds && e.status == room.status
  {
    room.(roomNumber := if number.Some? && number.value != "" then number.value else room.roomNumber,
          rentAmount := if rent.Some? && rent.value != 0 then rent.value else room.rentAmount)
  }

  /** One more label adds its bed, or nothing when the label is empty. */
  lemma NewBedsStep(labels: seq<string>, i: nat, r: RoomId, first: nat)
    requires i < |labels|
    ensures NewBeds(labels[..i + 1], r, first) ==
      if labels[i] == "" then NewBeds(labels[..i], r, first)
      else NewBeds(labels[..i], r, first)[first + i := NewBed(labels[i], r)]
  {
    assert labels[..i + 1][..i] == labels[..i];
  }

  /**
    Creates one bed per label in room `r`, in label order, each under a fresh
    id; `ok` reports whether every creation passed validation.
  */
  method CreateBeds(db: Db, labels: seq<string>, r: RoomId) returns (ids: seq<BedId>, ok: bool)
    requires db.Valid()
    modifies db
    ensures db.Valid() && db.nextId == old(db.nextId) + |labels|
    ensures ids == IdRange(old(db.nextId), |labels|)
    ensures ok <==> AllLabelled(labels)
    ensures db.beds == old(db.beds) + NewBeds(labels, r, old(db.nextId))
    ensures db.rooms == old(db.rooms) && db.users == old(db.users) && db.payments == old(db.payments)
  {
    var first := db.nextId;
    var made: map<BedId, Bed> := map[];
    ids, ok := [], true;
    var i := 0;
    while i < |labels|
      invariant 0 <= i <= |labels|
      invariant ids == IdRange(first, i)
      invariant ok <==> forall j | 0 <= j < i :: labels[j] != ""
      invariant made == NewBeds(labels[..i], r, first)
      modifies {}
    {
      NewBedsStep(labels, i, r, first);
      if labels[i] != "" {
        made := made[first + i := NewBed(labels[i], r)];
      } else {
        ok := false;
      }
      ids := ids + [first + i];
      i := i + 1;
    }
    assert labels[..i] == labels;
    NewBedsSpec(labels, r, first);
    db.beds := db.beds + made;
    db.nextId := first + |labels|;
  }

  /**
    POST /: `Room.create({ roomNumber, rentAmount })`, then one bed per label,
    then `room.beds` set to the new ids. Without a bed list `beds.map` throws
    after the room is stored; a bed that fails validation leaves the room
    stored without beds and the other beds stored.
  */
  method CreateRoom(db: Db, number: Option<string>, rent: Option<int>, labels: Option<seq<string>>)
      returns (r: Result<RoomId, Error>)
    requires db.Valid()
    modifies db
    ensures db.Valid()
    ensures db.users == old(db.users) && db.payments == old(db.payments)
    ensures !RoomSavable(number, rent) ==>
      r == Failure(ValidationFailed) && db.beds == old(db.beds) && db.rooms == old(db.rooms)
    ensures RoomSavable(number, rent) && NumberTaken(old(db.rooms), number.value) ==>
      r == Failure(DuplicateRoomNumber) && db.beds == old(db.beds) && db.rooms == old(db.rooms)
    ensures RoomSavable(number, rent) && !NumberTaken(old(db.rooms), number.value) ==>
      (var id := old(db.nextId);
       var created := NewRoom(number.value, rent.value);
       && id !in old(db.rooms) && id !in old(db.beds)
       && (labels.None? ==>
             r == Failure(BedListMissing) && db.beds == old(db.beds) && db.rooms == old(db.rooms)[id := created])
       && (labels.Some? && !AllLabelled(labels.value) ==>
             && r == Failure(ValidationFailed)
             && db.beds == old(db.beds) + NewBeds(labels.value, id, id + 1)
             && db.rooms == old(db.rooms)[id := created])
       && (labels.Some? && AllLabelled(labels.value) ==>
             && r == Success(id)
             && db.beds == old(db.beds) + NewBeds(labels.value, id, id + 1)
             && db.rooms == old(db.rooms)[id := created.(beds := IdRange(id + 1, |labels.value|))]))
  {
    if !(number.Some? && number.value != "" && rent.Some?) {
      return Failure(ValidationFailed);
    }
    if exists k | k in db.rooms :: db.rooms[k].roomNumber == number.value {
      return Failure(DuplicateRoomNumber);
    }
    var id := db.FreshId();
    var room := NewRoom(number.value, rent.value);
    db.rooms := db.rooms[id := room];
    if labels.None? {
      return Failure(BedListMissing);
    }
    var ids, ok := CreateBeds(db, labels.value, id);
    if !ok {
      return Failure(ValidationFailed);
    }
    db.rooms := db.rooms[id := room.(beds := ids)];
    r := Success(id);
  }

  /**
    PUT /edit/:id. Unknown room: not found. Otherwise the truthy fields are
    applied; a non-empty bed list deletes every bed of the room and creates
    the new ones before the room is saved, so a failed save (a number another
    room carries) or a failed bed leaves the bed changes stored. The status
    is never recomputed.
  */
  method EditRoom(db: Db, id: RoomId, number: Option<string>, rent: Option<int>, labels: Option<seq<string>>)
      returns (r: Outcome<Error>)
    requires db.Valid()
    modifies db
    ensures db.Valid()
    ensures db.users == old(db.users) && db.payments == old(db.payments)
    ensures id !in old(db.rooms) ==> r == Fail(RoomNotFound) && db.beds == old(db.beds) && db.rooms == old(db.rooms)
    ensures id in old(db.rooms) ==>
      (var replace := labels.Some? && |labels.value| > 0;
       var first := old(db.nextId);
       var e := Edited(old(db.rooms)[id], number, rent);
       var saved := if replace then e.(beds := IdRange(first, |labels.value|)) else e;
       var clash := e.roomNumber != old(db.rooms)[id].roomNumber && NumberTakenByOther(old(db.rooms), id, e.roomNumber);
       && (replace ==> db.beds == WithoutBedsOf(old(db.beds), id) + NewBeds(labels.value, id, first))
       && (!replace ==> db.beds == old(db.beds))
       && (replace && !AllLabelled(labels.value) ==> r == Fail(ValidationFailed) && db.rooms == old(db.rooms))
       && (!(replace && !AllLabelled(labels.value)) ==>
             && (e.roomNumber == "" ==> r == Fail(ValidationFailed) && db.rooms == old(db.rooms))
             && (e.roomNumber != "" && clash ==> r == Fail(DuplicateRoomNumber) && db.rooms == old(db.rooms))
             && (e.roomNumber != "" && !clash ==> r == Pass && db.rooms == old(db.rooms)[id := saved])))
  {
    if id !in db.rooms {
      return Fail(RoomNotFound);
    }
    var stored := db.rooms[id];
    var room := Edited(stored, number, rent);
    if labels.Some? && |labels.value| > 0 {
      db.beds := WithoutBedsOf(db.beds, id);
      var ids, ok := CreateBeds(db, labels.value, id);
      if !ok {
        return Fail(ValidationFailed);
      }
      room := room.(beds := ids);
    }
    if room.roomNumber == "" {
      return Fail(ValidationFailed);
    }
    if room.roomNumber != stored.roomNumber && exists k | k in db.rooms && k != id :: db.rooms[k].roomNumber == room.roomNumber {
      return Fail(DuplicateRoomNumber);
    }
    db.rooms := db.rooms[id := room];
    r := Pass;
  }

  /** The state after DELETE /delete/:id on a stored room: its beds and the room are gone. */
  function Deleted(t: Tenancy, id: RoomId): Tenancy {
    Tenancy(WithoutBedsOf(t.beds, id), t.rooms - {id}, t.users)
  }

  /** DELETE /delete/:id: not found, or every bed of the room and then the room are deleted, occupied or not. */
  method DeleteRoom(db: Db, id: RoomId) returns (r: Outcome<Error>)
    requires db.Valid()
    modifies db
    ensures db.Valid()
    ensures db.payments == old(db.payments) && db.nextId == old(db.nextId)
    ensures id !in old(db.rooms) ==> r == Fail(RoomNotFound) && db.State() == old(db.State())
    ensures id in old(db.rooms) ==> r == Pass && db.State() == Deleted(old(db.State()), id)
  {
    if id !in db.rooms {
      return Fail(RoomNotFound);
    }
    db.beds := WithoutBedsOf(db.beds, id);
    db.rooms := db.rooms - {id};
    r := Pass;
  }

  // ---------------------------------------------------------------------
  // What the room routes do to the tenancy invariants
  // ---------------------------------------------------------------------

  /** No stored bed has an id at or above `first`: the ids the next creations draw are new. */
  predicate IdsBelow(beds: map<BedId, Bed>, first: nat) {
    forall b | b in beds :: b < first
  }

  /** A room has at least one bed and none of them is occupied. */
  predicate VacantWithBeds(beds: map<BedId, Bed>, r: RoomId) {
    && (exists b | b in beds :: beds[b].room == r)
    && (forall b | b in beds && beds[b].room == r :: !beds[b].isOccupied)
  }

  /** New free beds in room `r` add to its free beds and leave every other room's alone. */
  lemma AddedBedsFree(base: map<BedId, Bed>, labels: seq<string>, r: RoomId, first: nat, x: RoomId)
    requires IdsBelow(base, first)
    ensures x != r ==> FreeBeds(base + NewBeds(labels, r, first), x) == FreeBeds(base, x)
    ensures x == r ==> FreeBeds(base + NewBeds(labels, r, first), x) == FreeBeds(base, x) + NewBeds(labels, r, first).Keys
  {
    NewBedsSpec(labels, r, first);
  }

  /** With every label non-empty, there are new beds exactly when there are labels. */
  lemma NewBedsNonEmpty(labels: seq<string>, r: RoomId, first: nat)
    requires AllLabelled(labels)
    ensures NewBeds(labels, r, first).Keys != {} <==> |labels| > 0
  {
    NewBedsSpec(labels, r, first);
    if |labels| > 0 {
      assert first in NewBeds(labels, r, first);
    }
  }

  /** The beds and rooms after a successful POST /: `room` stored under `id`, the label beds beside it. */
  function WithCreatedRoom(t: Tenancy, id: RoomId, room: Room, labels: seq<string>): Tenancy {
    Tenancy(t.beds + NewBeds(labels, id, id + 1), t.rooms[id := room], t.users)
  }

  /**
    After a successful POST /, `room.beds` lists the new beds in label order,
    each carrying its label and pointing back at the room.
  */
  lemma CreatedBedsInLabelOrder(t: Tenancy, id: RoomId, labels: seq<string>, beds: map<BedId, Bed>)
    requires AllLabelled(labels) && beds == t.beds + NewBeds(labels, id, id + 1)
    ensures forall i | 0 <= i < |labels| ::
      IdRange(id + 1, |labels|)[i] in beds && beds[IdRange(id + 1, |labels|)[i]] == NewBed(labels[i], id)
  {
    var ids := IdRange(id + 1, |labels|);
    var made := NewBeds(labels, id, id + 1);
    NewBedsSpec(labels, id, id + 1);
    forall i | 0 <= i < |labels|
      ensures ids[i] in beds && beds[ids[i]] == NewBed(labels[i], id)
    {
      var k := id + 1 + i;
      assert ids[i] == k && k - (id + 1) == i;
      assert k in made && made[k] == NewBed(labels[i], id);
    }
  }

  /** After a successful POST /, no bed other than those in `room.beds` points at the new room. */
  lemma CreatedRoomOwnsOnlyItsBeds(t: Tenancy, id: RoomId, labels: seq<string>, beds: map<BedId, Bed>)
    requires BedsHaveRooms(t) && IdsBelow(t.beds, id + 1) && id !in t.rooms
    requires beds == t.beds + NewBeds(labels, id, id + 1)
    ensures forall b | b in beds && beds[b].room == id :: b in IdRange(id + 1, |labels|)
  {
    NewBedsSpec(labels, id, id + 1);
    forall b | b in beds && beds[b].room == id
      ensures b in IdRange(id + 1, |labels|)
    {
      assert b !in t.beds;
      InIdRange(id + 1, |labels|, b);
    }
  }

  lemma InIdRange(first: nat, n: nat, b: nat)
    requires first <= b < first + n
    ensures b in IdRange(first, n)
  {
    assert IdRange(first, n)[b - first] == b;
  }

  /**
    A state that differs from a consistent one only in room `id` (a new or
    changed record whose status matches its beds) and in that room's beds
    (all free) is consistent, provided no bed of `id` was occupied before.
  */
  lemma OnlyRoomChanged(t: Tenancy, t': Tenancy, id: RoomId)
    requires Consistent(t) && t'.users == t.users && id in t'.rooms
    requires forall r | r in t'.rooms && r != id :: r in t.rooms && t'.rooms[r] == t.rooms[r]
    requires forall r | r in t.rooms && r != id :: r in t'.rooms
    requires forall b | b in t.beds && t.beds[b].room == id :: !t.beds[b].isOccupied
    requires forall b | b in t.beds && t.beds[b].room != id :: b in t'.beds && t'.beds[b] == t.beds[b]
    requires forall b | b in t'.beds :: if t'.beds[b].room == id then t'.beds[b].occupant.None? && !t'.beds[b].isOccupied
                                        else b in t.beds && t'.beds[b] == t.beds[b]
    requires t'.rooms[id].status == StatusFor(t'.beds, id)
    ensures Consistent(t')
  {
    forall r | r in t'.rooms
      ensures t'.rooms[r].status == StatusFor(t'.beds, r)
    {
      if r != id {
        assert FreeBeds(t'.beds, r) == FreeBeds(t.beds, r);
      }
    }
    forall u | u in t'.users && t'.users[u].allocatedBed.Some?
      ensures t'.users[u].allocatedBed.value in t'.beds
      ensures t'.beds[t'.users[u].allocatedBed.value].occupant == Some(u)
    {
      assert t.beds[t.users[u].allocatedBed.value].isOccupied;
    }
    forall b | b in t'.beds
      ensures t'.beds[b].room in t'.rooms
      ensures t'.beds[b].isOccupied <==> t'.beds[b].occupant.Some?
      ensures t'.beds[b].occupant.Some? ==> Holds(t', t'.beds[b].occupant.value, b)
    {
      if t'.beds[b].room != id {
        if t.beds[b].occupant.Some? {
          assert Holds(t, t.beds[b].occupant.value, b);
        }
      }
    }
  }

  /** Free beds of room `r` under new ids, added to beds of other rooms, leave those beds as they were. */
  lemma AddedBedsShape(kept: map<BedId, Bed>, labels: seq<string>, r: RoomId, first: nat)
    requires IdsBelow(kept, first) && forall b | b in kept :: kept[b].room != r
    ensures forall b | b in kept :: b in kept + NewBeds(labels, r, first) && (kept + NewBeds(labels, r, first))[b] == kept[b]
    ensures forall b | b in kept + NewBeds(labels, r, first) ::
      if (kept + NewBeds(labels, r, first))[b].room == r
      then (kept + NewBeds(labels, r, first))[b].occupant.None? && !(kept + NewBeds(labels, r, first))[b].isOccupied
      else b in kept && (kept + NewBeds(labels, r, first))[b] == kept[b]
  {
    NewBedsSpec(labels, r, first);
  }

  /**
    A room created with its beds keeps the tenancy consistent exactly when it
    has at least one bed: with an empty list it is stored "Available" while
    it has no free bed.
  */
  lemma CreateRoomConsistency(t: Tenancy, id: RoomId, number: string, rent: int, labels: seq<string>)
    requires Consistent(t) && IdsBelow(t.beds, id + 1) && id !in t.rooms && AllLabelled(labels)
    ensures Consistent(WithCreatedRoom(t, id, NewRoom(number, rent).(beds := IdRange(id + 1, |labels|)), labels))
            <==> |labels| > 0
  {
    var room := NewRoom(number, rent).(beds := IdRange(id + 1, |labels|));
    var t' := WithCreatedRoom(t, id, room, labels);
    NewBedsNonEmpty(labels, id, id + 1);
    AddedBedsFree(t.beds, labels, id, id + 1, id);
    assert FreeBeds(t.beds, id) == {};
    assert StatusFor(t'.beds, id) == AVAILABLE <==> |labels| > 0;
    if |labels| > 0 {
      AddedBedsShape(t.beds, labels, id, id + 1);
      OnlyRoomChanged(t, t', id);
    }
  }

  /**
    POST / without a bed list stores the room "Available" with no bed at all,
    so the room's status contradicts its beds.
  */
  lemma BedListMissingBreaksStatus(t: Tenancy, id: RoomId, number: string, rent: int)
    requires BedsHaveRooms(t) && id !in t.rooms
    ensures !Consistent(Tenancy(t.beds, t.rooms[id := NewRoom(number, rent)], t.users))
  {
    var t' := Tenancy(t.beds, t.rooms[id := NewRoom(number, rent)], t.users);
    assert FreeBeds(t'.beds, id) == {};
    assert t'.rooms[id].status != StatusFor(t'.beds, id);
  }

  /**
    When a bed fails validation on POST /, the beds that passed are stored
    and point at the room, but the room's `beds` list stays empty.
  */
  lemma FailedBedLeavesUnlistedBeds(t: Tenancy, id: RoomId, number: string, rent: int, labels: seq<string>, i: nat)
    requires IdsBelow(t.beds, id + 1) && i < |labels| && labels[i] != ""
    ensures id + 1 + i in t.beds + NewBeds(labels, id, id + 1)
    ensures (t.beds + NewBeds(labels, id, id + 1))[id + 1 + i].room == id
    ensures id + 1 + i !in NewRoom(number, rent).beds
  {
    NewBedsSpec(labels, id, id + 1);
  }

  /** The beds and rooms after PUT /edit/:id replaced the beds of room `id` and saved `room`. */
  function WithReplacedBeds(t: Tenancy, id: RoomId, room: Room, labels: seq<string>, first: nat): Tenancy {
    Tenancy(WithoutBedsOf(t.beds, id) + NewBeds(labels, id, first), t.rooms[id := room], t.users)
  }

  /** A tenant of a room whose beds are deleted keeps a reference to a bed that no longer exists. */
  lemma OccupiedBedDeleted(t: Tenancy, id: RoomId, b: BedId, others: map<BedId, Bed>)
    requires Consistent(t) && b in t.beds && t.beds[b].room == id && t.beds[b].isOccupied
    requires b !in others
    ensures var u := t.beds[b].occupant.value;
      && u in t.users && t.users[u].allocatedBed == Some(b)
      && b !in WithoutBedsOf(t.beds, id) + others
  {
    assert Holds(t, t.beds[b].occupant.value, b);
  }

  /**
    PUT /edit/:id with a non-empty list of labels keeps the tenancy
    consistent exactly when the room had beds and none was occupied: an
    occupant is left pointing at a deleted bed, and a room listed "Full"
    keeps that status over its new free beds.
  */
  lemma EditConsistency(t: Tenancy, id: RoomId, room: Room, labels: seq<string>, first: nat)
    requires Consistent(t) && id in t.rooms && IdsBelow(t.beds, first) && AllLabelled(labels) && |labels| > 0
    requires room.status == t.rooms[id].status
    ensures Consistent(WithReplacedBeds(t, id, room, labels, first)) <==> VacantWithBeds(t.beds, id)
  {
    if VacantWithBeds(t.beds, id) {
      EditKeepsConsistency(t, id, room, labels, first);
    } else if b :| b in t.beds && t.beds[b].room == id && t.beds[b].isOccupied {
      NewBedsSpec(labels, id, first);
      OccupiedBedDeleted(t, id, b, NewBeds(labels, id, first));
    } else {
      ReplacedShape(t, id, room, labels, first);
      assert FreeBeds(t.beds, id) == {};
    }
  }

  /**
    The state after a replacement: other rooms and their beds as before,
    room `id`'s beds all new and free, so its derived status is "Available".
  */
  lemma ReplacedShape(t: Tenancy, id: RoomId, room: Room, labels: seq<string>, first: nat)
    requires IdsBelow(t.beds, first) && AllLabelled(labels) && |labels| > 0
    ensures var t' := WithReplacedBeds(t, id, room, labels, first);
      && (forall b | b in t.beds && t.beds[b].room != id :: b in t'.beds && t'.beds[b] == t.beds[b])
      && (forall b | b in t'.beds :: if t'.beds[b].room == id then t'.beds[b].occupant.None? && !t'.beds[b].isOccupied
                                      else b in t.beds && t'.beds[b] == t.beds[b])
      && StatusFor(t'.beds, id) == AVAILABLE
  {
    var kept := WithoutBedsOf(t.beds, id);
    assert IdsBelow(kept, first);
    AddedBedsShape(kept, labels, id, first);
    NewBedsNonEmpty(labels, id, first);
    AddedBedsFree(kept, labels, id, first, id);
    assert FreeBeds(kept, id) == {};
  }

  /** The positive half of `EditConsistency`. */
  lemma EditKeepsConsistency(t: Tenancy, id: RoomId, room: Room, labels: seq<string>, first: nat)
    requires Consistent(t) && id in t.rooms && IdsBelow(t.beds, first) && AllLabelled(labels) && |labels| > 0
    requires room.status == t.rooms[id].status && VacantWithBeds(t.beds, id)
    ensures Consistent(WithReplacedBeds(t, id, room, labels, first))
  {
    var b0 :| b0 in t.beds && t.beds[b0].room == id;
    assert b0 in FreeBeds(t.beds, id);
    ReplacedShape(t, id, room, labels, first);
    OnlyRoomChanged(t, WithReplacedBeds(t, id, room, labels, first), id);
  }

  /**
    DELETE /delete/:id keeps the tenancy consistent exactly when none of the
    room's beds is occupied; otherwise its tenants point at deleted beds.
  */
  lemma DeleteConsistency(t: Tenancy, id: RoomId)
    requires Consistent(t) && id in t.rooms
    ensures Consistent(Deleted(t, id)) <==> forall b | b in t.beds && t.beds[b].room == id :: !t.beds[b].isOccupied
  {
    if b :| b in t.beds && t.beds[b].room == id && t.beds[b].isOccupied {
      OccupiedBedDeleted(t, id, b, map[]);
      assert WithoutBedsOf(t.beds, id) + map[] == Deleted(t, id).beds;
    } else {
      DeleteKeepsConsistency(t, id);
    }
  }

  /** The positive half of `DeleteConsistency`. */
  lemma DeleteKeepsConsistency(t: Tenancy, id: RoomId)
    requires Consistent(t) && id in t.rooms
    requires forall b | b in t.beds && t.beds[b].room == id :: !t.beds[b].isOccupied
    ensures Consistent(Deleted(t, id))
  {
    var t' := Deleted(t, id);
    forall r | r in t'.rooms
      ensures t'.rooms[r].status == StatusFor(t'.beds, r)
    {
      assert FreeBeds(t'.beds, r) == FreeBeds(t.beds, r);
    }
    forall u | u in t'.users && t'.users[u].allocatedBed.Some?
      ensures t'.users[u].allocatedBed.value in t'.beds
    {
      assert t.beds[t.users[u].allocatedBed.value].isOccupied;
    }
    forall b | b in t'.beds
      ensures t'.beds[b].room in t'.rooms
      ensures t'.beds[b].occupant.Some? ==> Holds(t', t'.beds[b].occupant.value, b)
    {
      if t.beds[b].occupant.Some? {
        assert Holds(t, t.beds[b].occupant.value, b);
      }
    }
  }
}
