/**
  The four Mongo collections of the tenancy server, one datatype per schema
  (models/bed.js, models/room.js, models/userProfile.js, models/payment.js),
  with the schema defaults and the checks Mongoose applies on save.
*/
module Models {
  import opened Wrappers
  import opened Calendar

  /** Mongo ObjectIds, all drawn from one counter. */
  type Id = nat
  type BedId = Id
  type RoomId = Id
  type UserId = Id
  type PaymentId = Id

  /** A bed: its label, the room it belongs to, and its occupancy. The schema does not tie `isOccupied` to `occupant`. */
  datatype Bed = Bed(bedNumber: string, room: RoomId, isOccupied: bool, occupant: Option<UserId>)

  /** A bed as `Bed.create({ bedNumber, room })` stores it: free and without occupant. */
  function NewBed(bedNumber: string, room: RoomId): (b: Bed)
    ensures !b.isOccupied && b.occupant == None
    ensures b.bedNumber == bedNumber && b.room == room
  {
    Bed(bedNumber, room, false, None)
  }

  /** `bedNumber` is a required String: Mongoose rejects a missing or empty one. */
  predicate BedSavable(b: Bed) {
    b.bedNumber != ""
  }

  const AVAILABLE := "Available"
  const FULL := "Full"

  /** A room: unique number, rent, ordered bed ids, and a free-form status string. */
  datatype Room = Room(roomNumber: string, rentAmount: int, beds: seq<BedId>, status: string)

  /** A room as `Room.create({ roomNumber, rentAmount })` stores it. */
  function NewRoom(roomNumber: string, rentAmount: int): (r: Room)
    ensures r.status == AVAILABLE && r.beds == []
    ensures r.roomNumber == roomNumber && r.rentAmount == rentAmount
  {
    Room(roomNumber, rentAmount, [], AVAILABLE)
  }

  /**
    A tenant profile. Only the fields the tenancy logic reads or writes are
    kept; the descriptive ones (address, occupation, images, ...) are not.
    `roomNumber`, `rentAmount` and `bedNumber` are display copies of the
    allocated bed's and room's fields.
  */
  datatype UserProfile = UserProfile(
    fullName: string,
    phone: string,
    joinedDate: Option<Date>,
    isActive: bool,
    roomNumber: Option<string>,
    rentAmount: Option<int>,
    bedNumber: Option<string>,
    allocatedRoom: Option<RoomId>,
    allocatedBed: Option<BedId>)

  /**
    The fields a client supplies when creating a profile. The body is passed
    to `new UserProfile(data)` whole, so it may also carry the cached
    allocation fields, which the schema accepts like any other.
  */
  datatype ProfileData = ProfileData(
    fullName: string,
    phone: string,
    isActive: Option<bool>,
    rentAmount: Option<int>,
    roomNumber: Option<string>,
    bedNumber: Option<string>,
    allocatedRoom: Option<RoomId>,
    allocatedBed: Option<BedId>)

  /** `new UserProfile(data)`: every supplied field is kept, and `isActive` defaults to true. */
  function NewProfile(data: ProfileData, joinedDate: Option<Date>): (p: UserProfile)
    ensures p.fullName == data.fullName && p.phone == data.phone
    ensures p.isActive == data.isActive.GetOr(true)
    ensures p.joinedDate == joinedDate && p.rentAmount == data.rentAmount
    ensures p.roomNumber == data.roomNumber && p.bedNumber == data.bedNumber
    ensures p.allocatedBed == data.allocatedBed && p.allocatedRoom == data.allocatedRoom
  {
    UserProfile(data.fullName, data.phone, joinedDate, data.isActive.GetOr(true), data.roomNumber, data.rentAmount,
                data.bedNumber, data.allocatedRoom, data.allocatedBed)
  }

  /** `fullName` and `phone` are required Strings. */
  predicate ProfileSavable(p: UserProfile) {
    p.fullName != "" && p.phone != ""
  }

  /** The profile with all five cached allocation fields unset. */
  function ClearAllocation(p: UserProfile): (q: UserProfile)
    ensures q.allocatedBed == None && q.allocatedRoom == None
    ensures q.bedNumber == None && q.roomNumber == None && q.rentAmount == None
    ensures q.fullName == p.fullName && q.phone == p.phone && q.joinedDate == p.joinedDate && q.isActive == p.isActive
  {
    p.(allocatedBed := None, allocatedRoom := None, bedNumber := None, roomNumber := None, rentAmount := None)
  }

  /** The status enum of a payment. */
  datatype PaymentStatus = Pending | Paid | Cancelled

  function StatusName(s: PaymentStatus): string {
    match s
    case Pending => "pending"
    case Paid => "paid"
    case Cancelled => "cancelled"
  }

  /** Mongoose's enum check on save: only the three names are accepted. */
  function ParseStatus(s: string): (r: Option<PaymentStatus>)
    ensures r.Some? <==> s in {"pending", "paid", "cancelled"}
    ensures r.Some? ==> StatusName(r.value) == s
  {
    if s == "pending" then Some(Pending)
    else if s == "paid" then Some(Paid)
    else if s == "cancelled" then Some(Cancelled)
    else None
  }

  lemma ParseStatusName(s: PaymentStatus)
    ensures ParseStatus(StatusName(s)) == Some(s)
  {
  }

  /**
    One month's rent obligation of a user, over the half-open period
    [periodStart, periodEnd). `paidAt` is unset unless set by the pay endpoint.
  */
  datatype Payment = Payment(
    user: UserId,
    amount: int,
    periodStart: Date,
    periodEnd: Date,
    dueDate: Date,
    status: PaymentStatus,
    paidAt: Option<Date>)

  /** The errors the handlers report, one per distinct failure. */
  datatype Error =
    | MissingIds             // allocate/release without userId or bedId
    | BedNotFound
    | BedOccupied
    | UserNotFound
    | UserAlreadyAllocated
    | BedOrUserNotFound
    | NotOccupant            // release by a user who does not occupy the bed
    | RoomNotFound
    | ProfileNotFound
    | ValidationFailed       // a required field missing or empty on save
    | DuplicateRoomNumber    // unique index on roomNumber
    | BedListMissing         // `beds.map` on an absent list
    | StatusRequired
    | PaymentNotFound
    | AlreadyPaid
    | InvalidStatus          // enum check on save
    | InvalidPaidAt          // an unparseable paidAt cannot be cast on save
}
