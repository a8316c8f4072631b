/**
  The database: the four collections as maps from id to record, and the
  source of fresh ObjectIds.
*/
module Store {
  import opened Wrappers
  import opened Calendar
  import opened Models

  /** The beds, rooms and profiles an allocation transaction reads and writes. */
  datatype Tenancy = Tenancy(beds: map<BedId, Bed>, rooms: map<RoomId, Room>, users: map<UserId, UserProfile>)

  /**
    A stored payment's period is one calendar month from its start and it
    falls due at the period's end; a paid payment has its payment date.
  */
  predicate WellFormedPayment(p: Payment) {
    && ValidDate(p.periodStart)
    && p.periodEnd == AddMonthsKeepDay(p.periodStart, 1)
    && p.dueDate == p.periodEnd
    && (p.paidAt.Some? ==> ValidDate(p.paidAt.value))
    && (p.status == Paid ==> p.paidAt.Some?)
  }

  predicate WellDatedProfile(p: UserProfile) {
    p.joinedDate.Some? ==> ValidDate(p.joinedDate.value)
  }

  predicate AllWellFormed(payments: map<PaymentId, Payment>) {
    forall k | k in payments :: WellFormedPayment(payments[k])
  }

  predicate AllWellDated(users: map<UserId, UserProfile>) {
    forall u | u in users :: WellDatedProfile(users[u])
  }

  class Db {
    var beds: map<BedId, Bed>
    var rooms: map<RoomId, Room>
    var users: map<UserId, UserProfile>
    var payments: map<PaymentId, Payment>
    var nextId: nat

    /** Every id in use was drawn below `nextId`, and every stored date is a real date. */
    ghost predicate Valid()
      reads this
    {
      && (forall b | b in beds :: b < nextId)
      && (forall r | r in rooms :: r < nextId)
      && (forall u | u in users :: u < nextId)
      && (forall p | p in payments :: p < nextId)
      && AllWellDated(users)
      && AllWellFormed(payments)
    }

    /** The beds, rooms and profiles as one value. */
    function State(): Tenancy
      reads this
    {
      Tenancy(beds, rooms, users)
    }

    constructor ()
      ensures Valid()
      ensures beds == map[] && rooms == map[] && users == map[] && payments == map[]
    {
      beds, rooms, users, payments, nextId := map[], map[], map[], map[], 0;
    }

    /** A new ObjectId, distinct from every id in use. */
    method FreshId() returns (id: Id)
      requires Valid()
      modifies this`nextId
      ensures Valid() && id == old(nextId) && nextId == id + 1
      ensures id !in beds && id !in rooms && id !in users && id !in payments
    {
      id := nextId;
      nextId := nextId + 1;
    }

    /** A transaction's commit: the session's beds, rooms and profiles replace the stored ones. */
    method Commit(t: Tenancy)
      requires Valid()
      requires forall b | b in t.beds :: b < nextId
      requires forall r | r in t.rooms :: r < nextId
      requires forall u | u in t.users :: u < nextId
      requires AllWellDated(t.users)
      modifies this
      ensures Valid() && State() == t
      ensures payments == old(payments) && nextId == old(nextId)
    {
      beds, rooms, users := t.beds, t.rooms, t.users;
    }

    /** `Payment.create(...)`: stores `pay` under a fresh id; nothing else changes. */
    method InsertPayment(pay: Payment) returns (id: PaymentId)
      requires Valid() && WellFormedPayment(pay)
      modifies this
      ensures Valid() && id !in old(payments) && nextId == old(nextId) + 1
      ensures payments == old(payments)[id := pay]
      ensures beds == old(beds) && rooms == old(rooms) && users == old(users)
    {
      id := FreshId();
      payments := payments[id := pay];
    }
  }
}
